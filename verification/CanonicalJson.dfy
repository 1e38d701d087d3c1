/** The canonical text of a JSON value: the members of every object sorted by key. */
module CanonicalJson {
  import opened CodePoints
  import opened JsonText

  function Keys(members: seq<Member>): (r: seq<string>)
    ensures |r| == |members|
    ensures forall i :: 0 <= i < |r| ==> r[i] == members[i].key
  {
    if members == [] then [] else [members[0].key] + Keys(members[1..])
  }

  function IndexOf(keys: seq<string>, k: string): (i: nat)
    requires k in keys
    ensures i < |keys| && keys[i] == k
  {
    if keys[0] == k then 0 else 1 + IndexOf(keys[1..], k)
  }

  function Lookup(members: seq<Member>, k: string): Json
    requires k in Keys(members)
  {
    members[IndexOf(Keys(members), k)].value
  }

  predicate Within(keys: seq<string>, members: seq<Member>) {
    forall i :: 0 <= i < |keys| ==> keys[i] in Keys(members)
  }

  function SortedKeys(members: seq<Member>): (r: seq<string>)
    ensures Within(r, members)
  {
    SortedAscends(Keys(members));
    Sorted(Keys(members))
  }

  function Canonical(j: Json): string
    decreases j, 1, 0
  {
    match j
    case List(items) => ['['] + CanonicalItems(items) + [']']
    case Object(members) => ['{'] + CanonicalMembers(members, SortedKeys(members)) + ['}']
    case _ => Stringify(j)
  }

  function CanonicalItems(items: seq<Json>): string
    decreases items, 0, 0
  {
    if items == [] then []
    else Canonical(items[0]) + (if |items| == 1 then [] else [','] + CanonicalItems(items[1..]))
  }

  function CanonicalMembers(members: seq<Member>, keys: seq<string>): string
    requires Within(keys, members)
    decreases members, 0, |keys|
  {
    if keys == [] then []
    else
      Quote(keys[0]) + [':'] + Canonical(Lookup(members, keys[0]))
      + (if |keys| == 1 then [] else [','] + CanonicalMembers(members, keys[1..]))
  }

  /** The same value with the members of every object in key order. */
  function Normal(j: Json): Json
    decreases j, 1, 0
  {
    match j
    case List(items) => List(NormalItems(items))
    case Object(members) => Object(NormalMembers(members, SortedKeys(members)))
    case _ => j
  }

  function NormalItems(items: seq<Json>): (r: seq<Json>)
    ensures |r| == |items|
    ensures forall i :: 0 <= i < |r| ==> r[i] == Normal(items[i])
    decreases items, 0, 0
  {
    if items == [] then [] else [Normal(items[0])] + NormalItems(items[1..])
  }

  function NormalMembers(members: seq<Member>, keys: seq<string>): (r: seq<Member>)
    requires Within(keys, members)
    ensures |r| == |keys|
    ensures forall i :: 0 <= i < |r| ==> r[i] == Member(keys[i], Normal(Lookup(members, keys[i])))
    decreases members, 0, |keys|
  {
    if keys == [] then []
    else [Member(keys[0], Normal(Lookup(members, keys[0])))] + NormalMembers(members, keys[1..])
  }

  lemma {:induction false} CanonicalIsNormalText(j: Json)
    ensures Canonical(j) == Stringify(Normal(j))
    decreases j, 1, 0
  {
    match j
    case List(items) => ItemsText(items);
    case Object(members) => MembersText(members, SortedKeys(members));
    case _ =>
  }

  lemma {:induction false} ItemsText(items: seq<Json>)
    ensures CanonicalItems(items) == StringifyItems(NormalItems(items))
    decreases items, 0, 0
  {
    if items != [] {
      CanonicalIsNormalText(items[0]);
      ItemsText(items[1..]);
      assert NormalItems(items)[1..] == NormalItems(items[1..]);
    }
  }

  lemma {:induction false} MembersText(members: seq<Member>, keys: seq<string>)
    requires Within(keys, members)
    ensures CanonicalMembers(members, keys) == StringifyMembers(NormalMembers(members, keys))
    decreases members, 0, |keys|
  {
    if keys != [] {
      CanonicalIsNormalText(Lookup(members, keys[0]));
      MembersText(members, keys[1..]);
      assert NormalMembers(members, keys)[1..] == NormalMembers(members, keys[1..]);
    }
  }

  lemma {:induction false} NormalIsPlain(j: Json)
    requires Plain(j)
    ensures Plain(Normal(j))
  {
    match j
    case List(items) =>
      forall i | 0 <= i < |items|
        ensures Plain(Normal(items[i]))
      {
        NormalIsPlain(items[i]);
      }
    case Object(members) =>
      var keys := SortedKeys(members);
      forall i | 0 <= i < |keys|
        ensures Plain(Normal(Lookup(members, keys[i])))
      {
        NormalIsPlain(Lookup(members, keys[i]));
      }
    case _ =>
  }

  /** Reading a canonical text gives the value back, with its keys in order. */
  lemma CanonicalIsRead(j: Json, rest: string)
    requires Plain(j) && Ends(rest)
    ensures Parse(Canonical(j) + rest) == Done(Normal(j), rest)
  {
    CanonicalIsNormalText(j);
    NormalIsPlain(j);
    StringifyIsRead(Normal(j), rest);
  }

  // ----------------------------------------------------- equality up to order

  /** No object in the value has a key twice. */
  predicate DistinctKeys(j: Json) {
    match j
    case List(items) => forall i :: 0 <= i < |items| ==> DistinctKeys(items[i])
    case Object(members) =>
      NoRepeats(Keys(members)) && forall i :: 0 <= i < |members| ==> DistinctKeys(members[i].value)
    case _ => true
  }

  predicate SameKeys(a: seq<Member>, b: seq<Member>) {
    && (forall k <- Keys(a) :: k in Keys(b))
    && (forall k <- Keys(b) :: k in Keys(a))
  }

  /** Equal, where an object is the map from its keys to their values. */
  predicate Same(a: Json, b: Json) {
    match a
    case List(items) =>
      b.List? && |items| == |b.items| && forall i :: 0 <= i < |items| ==> Same(items[i], b.items[i])
    case Object(members) =>
      && b.Object?
      && SameKeys(members, b.members)
      && forall k <- Keys(members) :: k in Keys(b.members) && Same(Lookup(members, k), Lookup(b.members, k))
    case _ => a == b
  }

  lemma SortedKeysAgree(a: seq<Member>, b: seq<Member>)
    requires NoRepeats(Keys(a)) && NoRepeats(Keys(b))
    ensures SameKeys(a, b) <==> SortedKeys(a) == SortedKeys(b)
  {
    SortedAscends(Keys(a));
    SortedAscends(Keys(b));
    if SameKeys(a, b) {
      SortedOfSet(Keys(a), Keys(b));
    }
  }

  lemma {:induction false} SameIsSameNormal(a: Json, b: Json)
    requires DistinctKeys(a) && DistinctKeys(b)
    ensures Same(a, b) <==> Normal(a) == Normal(b)
  {
    match a
    case List(items) =>
      if b.List? && |items| == |b.items| {
        forall i | 0 <= i < |items|
          ensures Same(items[i], b.items[i]) <==> Normal(items[i]) == Normal(b.items[i])
        {
          SameIsSameNormal(items[i], b.items[i]);
        }
        ListsAgree(items, b.items);
      }
    case Object(members) =>
      if b.Object? {
        SortedKeysAgree(members, b.members);
        if SameKeys(members, b.members) {
          forall k <- Keys(members)
            ensures Same(Lookup(members, k), Lookup(b.members, k))
              <==> Normal(Lookup(members, k)) == Normal(Lookup(b.members, k))
          {
            SameIsSameNormal(Lookup(members, k), Lookup(b.members, k));
          }
          ObjectsAgree(members, b.members);
        } else if Normal(a) == Normal(b) {
          NormalKeepsKeys(members, b.members);
        }
      }
    case _ =>
  }

  lemma ListsAgree(a: seq<Json>, b: seq<Json>)
    requires |a| == |b|
    ensures Normal(List(a)) == Normal(List(b)) <==> forall i :: 0 <= i < |a| ==> Normal(a[i]) == Normal(b[i])
  {
    var m, n := NormalItems(a), NormalItems(b);
    if m == n {
      forall i | 0 <= i < |a|
        ensures Normal(a[i]) == Normal(b[i])
      {
        assert m[i] == n[i];
      }
    }
  }

  lemma ObjectsAgree(a: seq<Member>, b: seq<Member>)
    requires SameKeys(a, b) && SortedKeys(a) == SortedKeys(b)
    ensures Normal(Object(a)) == Normal(Object(b))
      <==> forall k <- Keys(a) :: Normal(Lookup(a, k)) == Normal(Lookup(b, k))
  {
    var keys := SortedKeys(a);
    MembersAgree(a, b, keys);
    SortedAscends(Keys(a));
  }

  lemma MembersAgree(a: seq<Member>, b: seq<Member>, keys: seq<string>)
    requires Within(keys, a) && Within(keys, b)
    ensures NormalMembers(a, keys) == NormalMembers(b, keys)
      <==> forall k <- keys :: Normal(Lookup(a, k)) == Normal(Lookup(b, k))
  {
    var m, n := NormalMembers(a, keys), NormalMembers(b, keys);
    if m == n {
      forall i | 0 <= i < |keys|
        ensures Normal(Lookup(a, keys[i])) == Normal(Lookup(b, keys[i]))
      {
        assert m[i] == n[i];
      }
    }
  }

  lemma NormalKeepsKeys(a: seq<Member>, b: seq<Member>)
    requires Normal(Object(a)) == Normal(Object(b))
    ensures SortedKeys(a) == SortedKeys(b)
  {
    var m, n := NormalMembers(a, SortedKeys(a)), NormalMembers(b, SortedKeys(b));
    assert m == n;
    forall i | 0 <= i < |m|
      ensures SortedKeys(a)[i] == SortedKeys(b)[i]
    {
      assert m[i].key == n[i].key;
    }
  }

  /** Two values print alike exactly when they are equal up to the order of their keys. */
  lemma PrintAlikeIffSame(a: Json, b: Json)
    requires Plain(a) && Plain(b) && DistinctKeys(a) && DistinctKeys(b)
    ensures Canonical(a) == Canonical(b) <==> Same(a, b)
  {
    SameIsSameNormal(a, b);
    CanonicalIsNormalText(a);
    CanonicalIsNormalText(b);
    if Canonical(a) == Canonical(b) {
      NormalIsPlain(a);
      NormalIsPlain(b);
      StringifyIsInjective(Normal(a), Normal(b));
    }
  }

  // --------------------------------------------------- signature of a value

  /** The members of a value in key order, each as it stands: what is inside is not sorted. */
  function Arranged(members: seq<Member>): seq<Member> {
    Pick(members, SortedKeys(members))
  }

  function Pick(members: seq<Member>, keys: seq<string>): (r: seq<Member>)
    requires Within(keys, members)
    ensures |r| == |keys|
    ensures forall i :: 0 <= i < |r| ==> r[i] == Member(keys[i], Lookup(members, keys[i]))
  {
    if keys == [] then [] else [Member(keys[0], Lookup(members, keys[0]))] + Pick(members, keys[1..])
  }

  function Pairs(members: seq<Member>): (r: seq<Json>)
    ensures |r| == |members|
    ensures forall i :: 0 <= i < |r| ==> r[i] == List([Text(members[i].key), members[i].value])
  {
    if members == [] then [] else [List([Text(members[0].key), members[0].value])] + Pairs(members[1..])
  }

  /** The text by which the authority query compares two values. */
  function Signature(members: seq<Member>): string {
    Stringify(List(Pairs(Arranged(members))))
  }

  predicate SameFields(a: seq<Member>, b: seq<Member>) {
    && SameKeys(a, b)
    && forall k <- Keys(a) :: k in Keys(b) && Lookup(a, k) == Lookup(b, k)
  }

  /** Signatures agree exactly when the two values have the same fields, in any order. */
  lemma SignatureIffSameFields(a: seq<Member>, b: seq<Member>)
    requires Plain(Object(a)) && Plain(Object(b))
    requires NoRepeats(Keys(a)) && NoRepeats(Keys(b))
    ensures Signature(a) == Signature(b) <==> SameFields(a, b)
  {
    if Signature(a) == Signature(b) {
      PairsArePlain(a);
      PairsArePlain(b);
      StringifyIsInjective(List(Pairs(Arranged(a))), List(Pairs(Arranged(b))));
      PairsPart(Arranged(a), Arranged(b));
      ArrangedAlike(a, b);
    }
    if SameFields(a, b) {
      ArrangedOfSame(a, b);
    }
  }

  lemma PairsArePlain(members: seq<Member>)
    requires Plain(Object(members))
    ensures Plain(List(Pairs(Arranged(members))))
  {
    var p := Arranged(members);
    forall i | 0 <= i < |p|
      ensures Plain(Pairs(p)[i])
    {
      assert Plain(p[i].value);
      var pair := Pairs(p)[i].items;
      assert pair == [Text(p[i].key), p[i].value];
    }
  }

  lemma ArrangedOfSame(a: seq<Member>, b: seq<Member>)
    requires NoRepeats(Keys(a)) && NoRepeats(Keys(b)) && SameFields(a, b)
    ensures Arranged(a) == Arranged(b)
  {
    SortedKeysAgree(a, b);
    var keys := SortedKeys(a);
    forall i | 0 <= i < |keys|
      ensures Lookup(a, keys[i]) == Lookup(b, keys[i])
    {
      assert keys[i] in Keys(a);
    }
    assert Pick(a, keys) == Pick(b, keys);
  }

  lemma PairsPart(p: seq<Member>, q: seq<Member>)
    requires Pairs(p) == Pairs(q)
    ensures p == q
  {
    assert |p| == |q|;
    forall i | 0 <= i < |p|
      ensures p[i] == q[i]
    {
      assert Pairs(p)[i] == Pairs(q)[i];
      assert Pairs(p)[i].items[0] == Text(p[i].key) && Pairs(q)[i].items[0] == Text(q[i].key);
      assert Pairs(p)[i].items[1] == p[i].value && Pairs(q)[i].items[1] == q[i].value;
    }
  }

  lemma ArrangedAlike(a: seq<Member>, b: seq<Member>)
    requires NoRepeats(Keys(a)) && NoRepeats(Keys(b))
    requires Arranged(a) == Arranged(b)
    ensures SameFields(a, b)
  {
    ArrangedKeys(a, b);
    SortedKeysAgree(a, b);
    var keys := SortedKeys(a);
    forall k <- Keys(a)
      ensures Lookup(a, k) == Lookup(b, k)
    {
      SortedAscends(Keys(a));
      var i :| 0 <= i < |keys| && keys[i] == k;
      assert Arranged(a)[i] == Arranged(b)[i];
    }
  }

  lemma ArrangedKeys(a: seq<Member>, b: seq<Member>)
    requires Arranged(a) == Arranged(b)
    ensures SortedKeys(a) == SortedKeys(b)
  {
    var p, q := Arranged(a), Arranged(b);
    forall i | 0 <= i < |p|
      ensures SortedKeys(a)[i] == SortedKeys(b)[i]
    {
      assert p[i].key == q[i].key;
    }
  }
}
