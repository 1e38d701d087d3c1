/** Text order by Unicode code point, sorting by it, and civil dates as text. */
module CodePoints {
  import opened Basics

  /** -1, 0 or 1: the sign of the first difference; a proper prefix comes first. */
  function Order(a: string, b: string): int {
    if a == [] && b == [] then 0
    else if a == [] then -1
    else if b == [] then 1
    else if a[0] != b[0] then (if a[0] < b[0] then -1 else 1)
    else Order(a[1..], b[1..])
  }

  method CompareByCodePoint(a: string, b: string) returns (r: int)
    ensures r == Order(a, b)
  {
    var n := if |a| < |b| then |a| else |b|;
    var i := 0;
    while i < n
      invariant 0 <= i <= n
      invariant Order(a, b) == Order(a[i..], b[i..])
    {
      if a[i] != b[i] {
        return if a[i] < b[i] then -1 else 1;
      }
      assert a[i..][1..] == a[i + 1..] && b[i..][1..] == b[i + 1..];
      i := i + 1;
    }
    return if |a| == |b| then 0 else if |a| < |b| then -1 else 1;
  }

  /** k is where a and b part, and a is the smaller one there. */
  predicate PartsAt(a: string, b: string, k: nat) {
    && k <= |a| && k < |b|
    && a[..k] == b[..k]
    && (k < |a| ==> a[k] < b[k])
  }

  /** The order read off the first difference. */
  lemma {:induction false} OrderIsFirstDifference(a: string, b: string)
    ensures Order(a, b) == -1 <==> exists k :: PartsAt(a, b, k)
    ensures Order(a, b) == 1 <==> exists k :: PartsAt(b, a, k)
    ensures Order(a, b) == 0 <==> a == b
  {
    if a == [] {
      assert b != [] ==> PartsAt(a, b, 0);
      assert forall k :: !PartsAt(b, a, k);
    } else if b == [] {
      assert PartsAt(b, a, 0);
      assert forall k :: !PartsAt(a, b, k);
    } else if a[0] != b[0] {
      PartsAtDifference(a, b);
      PartsAtDifference(b, a);
    } else {
      OrderIsFirstDifference(a[1..], b[1..]);
      PartsBelow(a, b);
      PartsBelow(b, a);
      assert a == [a[0]] + a[1..] && b == [b[0]] + b[1..];
    }
  }

  lemma PartsAtDifference(a: string, b: string)
    requires a != [] && b != [] && a[0] != b[0]
    ensures (exists k :: PartsAt(a, b, k)) <==> a[0] < b[0]
  {
    if a[0] < b[0] {
      assert PartsAt(a, b, 0);
    }
    forall k: nat | PartsAt(a, b, k)
      ensures k == 0
    {
      if k > 0 {
        PrefixSharesFirst(a, b, k);
      }
    }
  }

  lemma PrefixSharesFirst(a: string, b: string, k: nat)
    requires 0 < k <= |a| && k <= |b| && a[..k] == b[..k]
    ensures a[0] == b[0]
  {
    assert a[..k][0] == a[0] && b[..k][0] == b[0];
  }

  lemma PartsBelow(a: string, b: string)
    requires a != [] && b != [] && a[0] == b[0]
    ensures (exists k :: PartsAt(a, b, k)) <==> exists k :: PartsAt(a[1..], b[1..], k)
  {
    forall k: nat | PartsAt(a, b, k)
      ensures k > 0 && PartsAt(a[1..], b[1..], k - 1)
    {
      assert a[1..][..k - 1] == a[..k][1..] && b[1..][..k - 1] == b[..k][1..];
    }
    forall k: nat | PartsAt(a[1..], b[1..], k)
      ensures PartsAt(a, b, k + 1)
    {
      assert a[..k + 1] == [a[0]] + a[1..][..k] && b[..k + 1] == [b[0]] + b[1..][..k];
    }
  }

  /** One of two orders is the opposite of the other. */
  lemma {:induction false} OrderOpposes(a: string, b: string)
    ensures Order(b, a) == -Order(a, b)
    ensures Order(a, b) in {-1, 0, 1}
  {
    if a != [] && b != [] && a[0] == b[0] {
      OrderOpposes(a[1..], b[1..]);
    }
  }

  lemma {:induction false} OrderIsTransitive(a: string, b: string, c: string)
    requires Order(a, b) <= 0 && Order(b, c) <= 0
    ensures Order(a, c) <= 0
    ensures Order(a, b) < 0 || Order(b, c) < 0 ==> Order(a, c) < 0
  {
    if a != [] && b != [] && c != [] && a[0] == b[0] && b[0] == c[0] {
      OrderIsTransitive(a[1..], b[1..], c[1..]);
    }
  }

  // ---------------------------------------------------------------- sorting

  predicate Ascending(s: seq<string>) {
    forall i, j :: 0 <= i < j < |s| ==> Order(s[i], s[j]) <= 0
  }

  function Insert(x: string, s: seq<string>): (r: seq<string>)
    ensures multiset(r) == multiset(s) + multiset{x}
  {
    if s == [] then [x]
    else if Order(x, s[0]) <= 0 then [x] + s
    else
      assert s == [s[0]] + s[1..];
      [s[0]] + Insert(x, s[1..])
  }

  function Sorted(s: seq<string>): (r: seq<string>)
    ensures multiset(r) == multiset(s)
  {
    if s == [] then []
    else
      assert s == [s[0]] + s[1..];
      Insert(s[0], Sorted(s[1..]))
  }

  predicate AtMostAll(x: string, s: seq<string>) {
    forall j :: 0 <= j < |s| ==> Order(x, s[j]) <= 0
  }

  lemma ConsAscends(x: string, s: seq<string>)
    requires Ascending(s) && AtMostAll(x, s)
    ensures Ascending([x] + s)
  {
  }

  lemma {:induction false} InsertKeepsBound(b: string, x: string, s: seq<string>)
    requires AtMostAll(b, s) && Order(b, x) <= 0
    ensures AtMostAll(b, Insert(x, s))
  {
    if s != [] && !(Order(x, s[0]) <= 0) {
      InsertKeepsBound(b, x, s[1..]);
    }
  }

  lemma {:induction false} InsertAscends(x: string, s: seq<string>)
    requires Ascending(s)
    ensures Ascending(Insert(x, s))
  {
    if s == [] {
    } else if Order(x, s[0]) <= 0 {
      forall j | 0 <= j < |s|
        ensures Order(x, s[j]) <= 0
      {
        if j > 0 {
          OrderIsTransitive(x, s[0], s[j]);
        }
      }
      ConsAscends(x, s);
    } else {
      OrderOpposes(x, s[0]);
      InsertAscends(x, s[1..]);
      InsertKeepsBound(s[0], x, s[1..]);
      ConsAscends(s[0], Insert(x, s[1..]));
    }
  }

  lemma {:induction false} SortedAscends(s: seq<string>)
    ensures Ascending(Sorted(s))
    ensures |Sorted(s)| == |s|
    ensures forall x :: x in Sorted(s) <==> x in s
  {
    if s != [] {
      SortedAscends(s[1..]);
      InsertAscends(s[0], Sorted(s[1..]));
    }
    assert |multiset(Sorted(s))| == |multiset(s)|;
    forall x
      ensures x in Sorted(s) <==> x in s
    {
      assert x in multiset(Sorted(s)) <==> x in multiset(s);
    }
  }

  /** There is one ascending arrangement of given texts: every correct sort agrees. */
  lemma {:induction false} SortIsUnique(a: seq<string>, b: seq<string>)
    requires Ascending(a) && Ascending(b) && multiset(a) == multiset(b)
    ensures a == b
  {
    assert |multiset(a)| == |multiset(b)|;
    if a != [] {
      SameFirst(a, b);
      TailsAlike(a, b);
      SortIsUnique(a[1..], b[1..]);
      assert a == [a[0]] + a[1..] && b == [b[0]] + b[1..];
    }
  }

  lemma SameFirst(a: seq<string>, b: seq<string>)
    requires Ascending(a) && Ascending(b) && multiset(a) == multiset(b)
    requires a != [] && b != []
    ensures a[0] == b[0]
  {
    assert a[0] in multiset(b) && b[0] in multiset(a);
    FirstIsLeast(a, b[0]);
    FirstIsLeast(b, a[0]);
    OrderOpposes(a[0], b[0]);
    OrderIsFirstDifference(a[0], b[0]);
  }

  lemma TailsAlike(a: seq<string>, b: seq<string>)
    requires a != [] && b != [] && a[0] == b[0] && multiset(a) == multiset(b)
    ensures multiset(a[1..]) == multiset(b[1..])
  {
    assert a == [a[0]] + a[1..] && b == [b[0]] + b[1..];
    assert multiset(a[1..]) == multiset(a) - multiset{a[0]};
    assert multiset(b[1..]) == multiset(b) - multiset{b[0]};
  }

  lemma FirstIsLeast(s: seq<string>, x: string)
    requires Ascending(s) && x in s
    ensures Order(s[0], x) <= 0
  {
    OrderIsFirstDifference(x, x);
  }

  /** The members of s, each at its first place only: as the program's Set of a list holds them. */
  function Distinct(s: seq<string>): (r: seq<string>)
    ensures forall x :: x in r <==> x in s
  {
    if s == [] then []
    else if s[|s| - 1] in s[..|s| - 1] then Distinct(s[..|s| - 1])
    else Distinct(s[..|s| - 1]) + [s[|s| - 1]]
  }

  predicate NoRepeats<T(==)>(s: seq<T>) {
    forall i, j :: 0 <= i < j < |s| ==> s[i] != s[j]
  }

  lemma {:induction false} DistinctHasNoRepeats(s: seq<string>)
    ensures NoRepeats(Distinct(s))
  {
    if s != [] {
      DistinctHasNoRepeats(s[..|s| - 1]);
    }
  }

  lemma {:induction false} NoRepeatsCount<T>(s: seq<T>, x: T)
    requires NoRepeats(s)
    ensures multiset(s)[x] == if x in s then 1 else 0
  {
    if s != [] {
      assert s == [s[0]] + s[1..];
      NoRepeatsCount(s[1..], x);
    }
  }

  /** Sorting depends on the members alone when none is repeated. */
  lemma SortedOfSet(a: seq<string>, b: seq<string>)
    requires NoRepeats(a) && NoRepeats(b)
    requires forall x :: x in a <==> x in b
    ensures Sorted(a) == Sorted(b)
  {
    forall x
      ensures multiset(a)[x] == multiset(b)[x]
    {
      NoRepeatsCount(a, x);
      NoRepeatsCount(b, x);
    }
    assert multiset(a) == multiset(b);
    SortedAscends(a);
    SortedAscends(b);
    SortIsUnique(Sorted(a), Sorted(b));
  }

  /** A sorted set lists exactly its members, once each. */
  lemma SortedSetIsStrict(s: seq<string>)
    ensures NoRepeats(Sorted(Distinct(s)))
    ensures Ascending(Sorted(Distinct(s)))
    ensures forall x :: x in Sorted(Distinct(s)) <==> x in s
  {
    var d := Distinct(s);
    DistinctHasNoRepeats(s);
    SortedAscends(d);
    SortedKeepsStrict(d);
  }

  lemma SortedKeepsStrict(d: seq<string>)
    requires NoRepeats(d)
    ensures NoRepeats(Sorted(d))
  {
    var r := Sorted(d);
    forall i, j | 0 <= i < j < |r|
      ensures r[i] != r[j]
    {
      if r[i] == r[j] {
        TwicePresent(r, i, j);
        NoRepeatsCount(d, r[i]);
        assert false;
      }
    }
  }

  lemma TwicePresent<T>(r: seq<T>, i: nat, j: nat)
    requires i < j < |r| && r[i] == r[j]
    ensures multiset(r)[r[i]] >= 2
  {
    assert r == r[..j] + r[j..];
    assert r[..j][i] == r[i] && r[j..][0] == r[j];
    assert multiset(r) == multiset(r[..j]) + multiset(r[j..]);
  }

  /** The members of a set in some order. */
  ghost function Listed(values: set<string>): (r: seq<string>)
    ensures forall x :: x in r <==> x in values
  {
    if values == {} then []
    else
      var x :| x in values;
      [x] + Listed(values - {x})
  }

  /** The members of a set in ascending order. */
  ghost function SortedSet(values: set<string>): seq<string> {
    Sorted(Distinct(Listed(values)))
  }

  lemma SortedSetHas(values: set<string>)
    ensures NoRepeats(SortedSet(values)) && Ascending(SortedSet(values))
    ensures forall x :: x in SortedSet(values) <==> x in values
  {
    SortedSetIsStrict(Listed(values));
  }

  /** Whatever the order in which the values come, the outcome of sorting them is one. */
  method Sort(values: set<string>) returns (r: seq<string>)
    ensures r == SortedSet(values)
  {
    r := [];
    var left := values;
    while left != {}
      invariant left <= values
      invariant forall x :: x in r <==> x in values - left
      invariant NoRepeats(r)
      decreases left
    {
      var x :| x in left;
      r := r + [x];
      left := left - {x};
    }
    ghost var arrived := r;
    r := Sorted(r);
    SortedIsTheSet(arrived, values);
  }

  lemma SortedIsTheSet(arrived: seq<string>, values: set<string>)
    requires NoRepeats(arrived) && forall x :: x in arrived <==> x in values
    ensures Sorted(arrived) == SortedSet(values)
  {
    DistinctHasNoRepeats(Listed(values));
    SortedOfSet(arrived, Distinct(Listed(values)));
  }

  // ------------------------------------------------------------ civil dates

  predicate IsDigit(c: char) {
    '0' <= c <= '9'
  }

  function DigitOf(c: char): int {
    c as int - '0' as int
  }

  /** YYYY-MM-DD: only the shape is checked. */
  predicate IsCivilDate(s: string) {
    && |s| == 10
    && IsDigit(s[0]) && IsDigit(s[1]) && IsDigit(s[2]) && IsDigit(s[3])
    && s[4] == '-'
    && IsDigit(s[5]) && IsDigit(s[6])
    && s[7] == '-'
    && IsDigit(s[8]) && IsDigit(s[9])
  }

  /** Year, month and day as one number, in that order of weight. */
  function Chronology(s: string): int
    requires IsCivilDate(s)
  {
    var year := 1000 * DigitOf(s[0]) + 100 * DigitOf(s[1]) + 10 * DigitOf(s[2]) + DigitOf(s[3]);
    var month := 10 * DigitOf(s[5]) + DigitOf(s[6]);
    var day := 10 * DigitOf(s[8]) + DigitOf(s[9]);
    10000 * year + 100 * month + day
  }

  /** Text order on civil dates is the order of time. */
  lemma DatesOrderAsText(a: string, b: string)
    requires IsCivilDate(a) && IsCivilDate(b)
    ensures Order(a, b) < 0 <==> Chronology(a) < Chronology(b)
    ensures Order(a, b) == 0 <==> Chronology(a) == Chronology(b)
  {
    OrderIsFirstDifference(a, b);
    OrderOpposes(a, b);
    if Order(a, b) == -1 {
      var k :| PartsAt(a, b, k);
      EarlierAt(a, b, k);
    } else if Order(a, b) == 1 {
      var k :| PartsAt(b, a, k);
      EarlierAt(b, a, k);
    }
  }

  lemma EarlierAt(a: string, b: string, k: nat)
    requires IsCivilDate(a) && IsCivilDate(b) && PartsAt(a, b, k)
    ensures Chronology(a) < Chronology(b)
  {
    assert k < 10;
    forall i | 0 <= i < k
      ensures a[i] == b[i]
    {
      assert a[..k][i] == b[..k][i];
    }
    assert DigitOf(a[k]) + 1 <= DigitOf(b[k]);
  }

  /** Both ends of the period count. An end that is absent does not limit. */
  predicate InForceOn(reference: string, start: Option<string>, end: Option<string>) {
    && (start.Some? ==> !(Order(reference, start.value) < 0))
    && (end.Some? ==> !(Order(reference, end.value) > 0))
  }

  predicate DatesOrAbsent(start: Option<string>, end: Option<string>) {
    && (start.Some? ==> IsCivilDate(start.value))
    && (end.Some? ==> IsCivilDate(end.value))
  }

  lemma InForceIsAClosedPeriod(reference: string, start: Option<string>, end: Option<string>)
    requires IsCivilDate(reference) && DatesOrAbsent(start, end)
    ensures InForceOn(reference, start, end) <==>
      && (start.Some? ==> Chronology(start.value) <= Chronology(reference))
      && (end.Some? ==> Chronology(reference) <= Chronology(end.value))
  {
    if start.Some? {
      DatesOrderAsText(reference, start.value);
      OrderOpposes(reference, start.value);
    }
    if end.Some? {
      DatesOrderAsText(reference, end.value);
      OrderOpposes(reference, end.value);
    }
  }
}
