/** JSON values, their compact text, and a reader that takes the text back (RFC 8259). */
module JsonText {

  /** A number is kept as the numeral that stands for it. An object keeps its members in order. */
  datatype Json =
    | Null
    | Bool(b: bool)
    | Number(numeral: string)
    | Text(text: string)
    | List(items: seq<Json>)
    | Object(members: seq<Member>)

  datatype Member = Member(key: string, value: Json)

  // ---------------------------------------------------------------- printing

  function HexDigit(n: nat): char
    requires n < 16
  {
    if n < 10 then ('0' as int + n) as char else ('a' as int + n - 10) as char
  }

  /** How one character stands inside a quoted text: section 7 of RFC 8259. */
  function Escape(c: char): string {
    var n := c as int;
    if c == '"' then ['\\', '"']
    else if c == '\\' then ['\\', '\\']
    else if n >= 32 then [c]
    else if n == 8 then ['\\', 'b']
    else if n == 9 then ['\\', 't']
    else if n == 10 then ['\\', 'n']
    else if n == 12 then ['\\', 'f']
    else if n == 13 then ['\\', 'r']
    else ['\\', 'u', '0', '0', HexDigit(n / 16), HexDigit(n % 16)]
  }

  function Escaped(t: string): string {
    if t == [] then [] else Escape(t[0]) + Escaped(t[1..])
  }

  function Quote(t: string): string {
    ['"'] + Escaped(t) + ['"']
  }

  /** JSON.stringify without spaces: members in the order they stand. */
  function Stringify(j: Json): string {
    match j
    case Null => "null"
    case Bool(b) => if b then "true" else "false"
    case Number(numeral) => numeral
    case Text(t) => Quote(t)
    case List(items) => ['['] + StringifyItems(items) + [']']
    case Object(members) => ['{'] + StringifyMembers(members) + ['}']
  }

  function StringifyItems(items: seq<Json>): string {
    if items == [] then []
    else Stringify(items[0]) + (if |items| == 1 then [] else [','] + StringifyItems(items[1..]))
  }

  function StringifyMember(m: Member): string {
    Quote(m.key) + [':'] + Stringify(m.value)
  }

  function StringifyMembers(members: seq<Member>): string {
    if members == [] then []
    else StringifyMember(members[0]) + (if |members| == 1 then [] else [','] + StringifyMembers(members[1..]))
  }

  // ----------------------------------------------------------------- reading

  datatype Parsed<+T> = Fail | Done(value: T, rest: string)

  function HexValue(c: char): int {
    if '0' <= c <= '9' then c as int - '0' as int
    else if 'a' <= c <= 'f' then c as int - 'a' as int + 10
    else if 'A' <= c <= 'F' then c as int - 'A' as int + 10
    else -1
  }

  function Before(c: char, p: Parsed<string>): Parsed<string> {
    if p.Done? then Done([c] + p.value, p.rest) else Fail
  }

  /** The character a letter after a backslash stands for. */
  function Unescape(c: char): Parsed<char> {
    if c in ['"', '\\', '/'] then Done(c, [])
    else if c == 'b' then Done(8 as char, [])
    else if c == 't' then Done(9 as char, [])
    else if c == 'n' then Done(10 as char, [])
    else if c == 'f' then Done(12 as char, [])
    else if c == 'r' then Done(13 as char, [])
    else Fail
  }

  function HexCode(s: string): int
    requires |s| == 4
  {
    if exists i :: 0 <= i < 4 && HexValue(s[i]) < 0 then -1
    else 4096 * HexValue(s[0]) + 256 * HexValue(s[1]) + 16 * HexValue(s[2]) + HexValue(s[3])
  }

  /** The text up to the closing quote. */
  function Unquote(s: string): (r: Parsed<string>)
    ensures r.Done? ==> |r.rest| < |s|
  {
    if s == [] then Fail
    else if s[0] == '"' then Done([], s[1..])
    else if s[0] != '\\' then (if s[0] as int < 32 then Fail else Before(s[0], Unquote(s[1..])))
    else if |s| >= 2 && Unescape(s[1]).Done? then Before(Unescape(s[1]).value, Unquote(s[2..]))
    else if |s| >= 6 && s[1] == 'u' then
      var code := HexCode(s[2..6]);
      if 0 <= code < 0xD800 || 0xE000 <= code < 0x10000 then Before(code as char, Unquote(s[6..])) else Fail
    else Fail
  }

  predicate IsNumeralChar(c: char) {
    '0' <= c <= '9' || c in ['-', '+', '.', 'e', 'E']
  }

  function NumeralPrefix(s: string): (n: nat)
    ensures n <= |s|
  {
    if s == [] || !IsNumeralChar(s[0]) then 0 else 1 + NumeralPrefix(s[1..])
  }

  predicate StartsWith(s: string, w: string) {
    |w| <= |s| && s[..|w|] == w
  }

  function Parse(s: string): (r: Parsed<Json>)
    ensures r.Done? ==> |r.rest| < |s|
    decreases |s|, 1
  {
    if s == [] then Fail
    else if s[0] == 'n' then (if StartsWith(s, "null") then Done(Null, s[4..]) else Fail)
    else if s[0] == 't' then (if StartsWith(s, "true") then Done(Bool(true), s[4..]) else Fail)
    else if s[0] == 'f' then (if StartsWith(s, "false") then Done(Bool(false), s[5..]) else Fail)
    else if s[0] == '"' then
      var t := Unquote(s[1..]);
      if t.Done? then Done(Text(t.value), t.rest) else Fail
    else if s[0] == '[' then
      if |s| > 1 && s[1] == ']' then Done(List([]), s[2..])
      else
        var items := ParseItems(s[1..]);
        if items.Done? then Done(List(items.value), items.rest) else Fail
    else if s[0] == '{' then
      if |s| > 1 && s[1] == '}' then Done(Object([]), s[2..])
      else
        var members := ParseMembers(s[1..]);
        if members.Done? then Done(Object(members.value), members.rest) else Fail
    else
      var n := NumeralPrefix(s);
      if n > 0 then Done(Number(s[..n]), s[n..]) else Fail
  }

  /** One item or more, up to the closing bracket. */
  function ParseItems(s: string): (r: Parsed<seq<Json>>)
    ensures r.Done? ==> |r.rest| < |s|
    decreases |s|, 2
  {
    var first := Parse(s);
    if first.Fail? || first.rest == [] then Fail
    else if first.rest[0] == ']' then Done([first.value], first.rest[1..])
    else if first.rest[0] == ',' then
      var more := ParseItems(first.rest[1..]);
      if more.Done? then Done([first.value] + more.value, more.rest) else Fail
    else Fail
  }

  function ParseMember(s: string): (r: Parsed<Member>)
    ensures r.Done? ==> |r.rest| < |s|
    decreases |s|, 2
  {
    if s == [] || s[0] != '"' then Fail
    else
      var key := Unquote(s[1..]);
      if key.Fail? || key.rest == [] || key.rest[0] != ':' then Fail
      else
        var value := Parse(key.rest[1..]);
        if value.Done? then Done(Member(key.value, value.value), value.rest) else Fail
  }

  /** One member or more, up to the closing brace. */
  function ParseMembers(s: string): (r: Parsed<seq<Member>>)
    ensures r.Done? ==> |r.rest| < |s|
    decreases |s|, 3
  {
    var first := ParseMember(s);
    if first.Fail? || first.rest == [] then Fail
    else if first.rest[0] == '}' then Done([first.value], first.rest[1..])
    else if first.rest[0] == ',' then
      var more := ParseMembers(first.rest[1..]);
      if more.Done? then Done([first.value] + more.value, more.rest) else Fail
    else Fail
  }

  // -------------------------------------------------------------- round trip

  lemma EscapeIsRead(c: char, tail: string)
    ensures Unquote(Escape(c) + tail) == Before(c, Unquote(tail))
  {
    var n := c as int;
    var s := Escape(c) + tail;
    if |Escape(c)| == 1 {
      assert s[1..] == tail;
    } else if |Escape(c)| == 2 {
      assert s[2..] == tail;
      assert Unescape(s[1]) == Done(c, []);
    } else {
      HexEscapeIsRead(n, tail);
    }
  }

  lemma HexEscapeIsRead(n: nat, tail: string)
    requires n < 32
    ensures Unquote(['\\', 'u', '0', '0', HexDigit(n / 16), HexDigit(n % 16)] + tail)
        == Before(n as char, Unquote(tail))
  {
    var s := ['\\', 'u', '0', '0', HexDigit(n / 16), HexDigit(n % 16)] + tail;
    assert s[2..6] == ['0', '0', HexDigit(n / 16), HexDigit(n % 16)];
    HexDigitsMean(n);
    assert s[6..] == tail;
  }

  lemma HexDigitsMean(n: nat)
    requires n < 32
    ensures HexCode(['0', '0', HexDigit(n / 16), HexDigit(n % 16)]) == n
  {
    assert HexValue(HexDigit(n / 16)) == n / 16;
    assert HexValue(HexDigit(n % 16)) == n % 16;
  }

  lemma {:induction false} QuotedIsRead(t: string, rest: string)
    ensures Unquote(Escaped(t) + ['"'] + rest) == Done(t, rest)
  {
    if t == [] {
      assert Escaped(t) + ['"'] + rest == ['"'] + rest;
    } else {
      var tail := Escaped(t[1..]) + ['"'] + rest;
      assert Escaped(t) + ['"'] + rest == Escape(t[0]) + tail;
      EscapeIsRead(t[0], tail);
      QuotedIsRead(t[1..], rest);
      assert t == [t[0]] + t[1..];
    }
  }

  predicate AllNumeral(s: string) {
    forall i :: 0 <= i < |s| ==> IsNumeralChar(s[i])
  }

  /** What JSON.stringify writes for a finite number uses these characters and is not empty. */
  predicate IsNumeral(s: string) {
    s != [] && AllNumeral(s)
  }

  /** Every number in the value is a numeral. */
  predicate Plain(j: Json) {
    match j
    case Number(numeral) => IsNumeral(numeral)
    case List(items) => forall i :: 0 <= i < |items| ==> Plain(items[i])
    case Object(members) => forall i :: 0 <= i < |members| ==> Plain(members[i].value)
    case _ => true
  }

  /** No numeral can run on into the rest. */
  predicate Ends(rest: string) {
    rest == [] || !IsNumeralChar(rest[0])
  }

  lemma {:induction false} NumeralIsRead(s: string, rest: string)
    requires AllNumeral(s) && Ends(rest)
    ensures NumeralPrefix(s + rest) == |s|
  {
    if s == [] {
      assert s + rest == rest;
    } else {
      NumeralIsRead(s[1..], rest);
      assert (s + rest)[1..] == s[1..] + rest;
    }
  }

  /** A printed value is not empty, and it does not start like the end of a list. */
  lemma Begins(j: Json)
    requires Plain(j)
    ensures Stringify(j) != [] && Stringify(j)[0] != ']'
  {
  }

  lemma {:induction false} StringifyIsRead(j: Json, rest: string)
    requires Plain(j) && Ends(rest)
    ensures Parse(Stringify(j) + rest) == Done(j, rest)
    decreases j, 1
  {
    match j
    case Null => WordIsRead("null", rest);
    case Bool(b) =>
      if b { WordIsRead("true", rest); } else { WordIsRead("false", rest); }
    case Number(numeral) => NumberIsRead(numeral, rest);
    case Text(t) => TextIsRead(t, rest);
    case List(items) =>
      if items != [] {
        ItemsAreRead(items, rest);
      }
      ListIsRead(items, rest);
    case Object(members) =>
      if members != [] {
        MembersAreRead(members, rest);
      }
      ObjectIsRead(members, rest);
  }

  lemma TextIsRead(t: string, rest: string)
    ensures Parse(Quote(t) + rest) == Done(Text(t), rest)
  {
    var s := Quote(t) + rest;
    assert s[1..] == Escaped(t) + ['"'] + rest;
    QuotedIsRead(t, rest);
  }

  lemma ListBody(body: string, items: seq<Json>, rest: string)
    requires body != [] && body[0] != ']' && ParseItems(body + [']'] + rest) == Done(items, rest)
    ensures Parse(['['] + body + [']'] + rest) == Done(List(items), rest)
  {
    var s := ['['] + body + [']'] + rest;
    assert s[1..] == body + [']'] + rest;
    assert s[1] == body[0];
  }

  lemma NothingInside(rest: string)
    ensures Parse(['[', ']'] + rest) == Done(List([]), rest)
    ensures Parse(['{', '}'] + rest) == Done(Object([]), rest)
  {
    assert (['[', ']'] + rest)[2..] == rest;
    assert (['{', '}'] + rest)[2..] == rest;
  }

  lemma ListIsRead(items: seq<Json>, rest: string)
    requires Plain(List(items))
    requires items == [] || ParseItems(StringifyItems(items) + [']'] + rest) == Done(items, rest)
    ensures Parse(['['] + StringifyItems(items) + [']'] + rest) == Done(List(items), rest)
  {
    if items == [] {
      NothingInside(rest);
      assert ['['] + StringifyItems(items) + [']'] == ['[', ']'];
    } else {
      Begins(items[0]);
      ListBody(StringifyItems(items), items, rest);
    }
  }

  lemma ObjectBody(body: string, members: seq<Member>, rest: string)
    requires body != [] && body[0] != '}' && ParseMembers(body + ['}'] + rest) == Done(members, rest)
    ensures Parse(['{'] + body + ['}'] + rest) == Done(Object(members), rest)
  {
    var s := ['{'] + body + ['}'] + rest;
    assert s[1..] == body + ['}'] + rest;
    assert s[1] == body[0];
  }

  lemma ObjectIsRead(members: seq<Member>, rest: string)
    requires members == [] || ParseMembers(StringifyMembers(members) + ['}'] + rest) == Done(members, rest)
    ensures Parse(['{'] + StringifyMembers(members) + ['}'] + rest) == Done(Object(members), rest)
  {
    if members == [] {
      NothingInside(rest);
      assert ['{'] + StringifyMembers(members) + ['}'] == ['{', '}'];
    } else {
      assert StringifyMember(members[0])[0] == '"';
      assert StringifyMembers(members)[0] == '"';
      ObjectBody(StringifyMembers(members), members, rest);
    }
  }

  lemma NumberIsRead(numeral: string, rest: string)
    requires IsNumeral(numeral) && Ends(rest)
    ensures Parse(numeral + rest) == Done(Number(numeral), rest)
  {
    var s := numeral + rest;
    NumeralIsRead(numeral, rest);
    assert s[..|numeral|] == numeral && s[|numeral|..] == rest;
    NumeralStart(numeral, rest);
  }

  lemma NumeralStart(numeral: string, rest: string)
    requires IsNumeral(numeral) && Ends(rest)
    ensures Parse(numeral + rest) == Done(Number((numeral + rest)[..NumeralPrefix(numeral + rest)]),
                                          (numeral + rest)[NumeralPrefix(numeral + rest)..])
  {
    assert (numeral + rest)[0] == numeral[0];
    assert IsNumeralChar(numeral[0]);
  }

  lemma WordIsRead(w: string, rest: string)
    requires w in ["null", "true", "false"]
    ensures Parse(w + rest) == Done(if w == "null" then Null else Bool(w == "true"), rest)
  {
    var s := w + rest;
    assert s[..|w|] == w && s[|w|..] == rest;
    assert s[0] == w[0];
  }

  lemma Regroup(head: string, comma: string, body: string, close: string, rest: string)
    ensures head + (comma + body) + close + rest == head + (comma + (body + close + rest))
  {
  }

  lemma Rejoin(head: string, close: string, rest: string)
    ensures head + [] + close + rest == head + (close + rest)
  {
  }

  lemma LastItem(s: string, j: Json, rest: string)
    requires Parse(s) == Done(j, [']'] + rest)
    ensures ParseItems(s) == Done([j], rest)
  {
  }

  lemma MoreItems(s: string, j: Json, tail: string, more: seq<Json>, rest: string)
    requires Parse(s) == Done(j, [','] + tail) && ParseItems(tail) == Done(more, rest)
    ensures ParseItems(s) == Done([j] + more, rest)
  {
  }

  lemma {:induction false} ItemsAreRead(items: seq<Json>, rest: string)
    requires items != [] && forall i :: 0 <= i < |items| ==> Plain(items[i])
    ensures ParseItems(StringifyItems(items) + [']'] + rest) == Done(items, rest)
    decreases items, 0
  {
    var s := StringifyItems(items) + [']'] + rest;
    if |items| == 1 {
      Rejoin(Stringify(items[0]), [']'], rest);
      StringifyIsRead(items[0], [']'] + rest);
      LastItem(s, items[0], rest);
      assert items == [items[0]];
    } else {
      var tail := StringifyItems(items[1..]) + [']'] + rest;
      Regroup(Stringify(items[0]), [','], StringifyItems(items[1..]), [']'], rest);
      StringifyIsRead(items[0], [','] + tail);
      ItemsAreRead(items[1..], rest);
      MoreItems(s, items[0], tail, items[1..], rest);
      assert items == [items[0]] + items[1..];
    }
  }

  lemma MemberText(key: string, valueText: string, value: Json, rest: string)
    requires Parse(valueText + rest) == Done(value, rest)
    ensures ParseMember(Quote(key) + [':'] + valueText + rest) == Done(Member(key, value), rest)
  {
    var s := Quote(key) + [':'] + valueText + rest;
    var tail := valueText + rest;
    assert s[1..] == Escaped(key) + ['"'] + ([':'] + tail);
    QuotedIsRead(key, [':'] + tail);
    assert ([':'] + tail)[1..] == tail;
  }

  lemma {:induction false} MemberIsRead(m: Member, rest: string)
    requires Plain(m.value) && Ends(rest)
    ensures ParseMember(StringifyMember(m) + rest) == Done(m, rest)
    decreases m, 2
  {
    StringifyIsRead(m.value, rest);
    MemberText(m.key, Stringify(m.value), m.value, rest);
  }

  lemma LastMember(s: string, m: Member, rest: string)
    requires ParseMember(s) == Done(m, ['}'] + rest)
    ensures ParseMembers(s) == Done([m], rest)
  {
  }

  lemma MoreMembers(s: string, m: Member, tail: string, more: seq<Member>, rest: string)
    requires ParseMember(s) == Done(m, [','] + tail) && ParseMembers(tail) == Done(more, rest)
    ensures ParseMembers(s) == Done([m] + more, rest)
  {
  }

  lemma {:induction false} MembersAreRead(members: seq<Member>, rest: string)
    requires members != [] && forall i :: 0 <= i < |members| ==> Plain(members[i].value)
    ensures ParseMembers(StringifyMembers(members) + ['}'] + rest) == Done(members, rest)
    decreases members, 0
  {
    var s := StringifyMembers(members) + ['}'] + rest;
    var m := members[0];
    if |members| == 1 {
      Rejoin(StringifyMember(m), ['}'], rest);
      MemberIsRead(m, ['}'] + rest);
      LastMember(s, m, rest);
      assert members == [m];
    } else {
      var tail := StringifyMembers(members[1..]) + ['}'] + rest;
      Regroup(StringifyMember(m), [','], StringifyMembers(members[1..]), ['}'], rest);
      MemberIsRead(m, [','] + tail);
      MembersAreRead(members[1..], rest);
      MoreMembers(s, m, tail, members[1..], rest);
      assert members == [m] + members[1..];
    }
  }

  /** Different values have different texts. */
  lemma StringifyIsInjective(a: Json, b: Json)
    requires Plain(a) && Plain(b) && Stringify(a) == Stringify(b)
    ensures a == b
  {
    StringifyIsRead(a, []);
    StringifyIsRead(b, []);
    assert Stringify(a) + [] == Stringify(b) + [];
  }
}
