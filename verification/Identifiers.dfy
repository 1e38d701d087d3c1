/** Stable identifiers in the form of a uuid, one namespace for each conversation. */
module Identifiers {
  import opened Basics

  datatype Kind = CASE | GOAL | FACT | QUESTION | ACTION

  datatype Name = Name(kind: Kind, key: string)

  function TagOf(kind: Kind): char {
    match kind
    case CASE => '1'
    case GOAL => '2'
    case FACT => '3'
    case QUESTION => '4'
    case ACTION => '5'
  }

  /** At least w characters: zeros on the left make up the rest. */
  function Padded(s: string, w: nat): (r: string)
    ensures |r| == if |s| < w then w else |s|
    decreases w - |s|
  {
    if |s| >= w then s else Padded("0" + s, w)
  }

  datatype Uuid = Uuid(tag: char, scope: nat, n: nat)

  /** The text of an identifier. */
  function TextOf(u: Uuid): string {
    [u.tag] + "0000000-0000-4000-8000-" + Padded(Numeral(u.scope), 4) + Padded(Numeral(u.n), 8)
  }

  function ValueOf(s: string): int {
    if s == [] then 0 else 10 * ValueOf(s[..|s| - 1]) + (s[|s| - 1] as int - '0' as int)
  }

  lemma {:induction false} NumeralHasValue(n: nat)
    ensures ValueOf(Numeral(n)) == n
  {
    var last := ('0' as int + n % 10) as char;
    if n < 10 {
      assert Numeral(n)[..0] == [];
    } else {
      NumeralHasValue(n / 10);
      assert Numeral(n % 10) == [last];
      assert Numeral(n) == Numeral(n / 10) + [last];
      assert Numeral(n)[..|Numeral(n)| - 1] == Numeral(n / 10);
    }
  }

  lemma {:induction false} ZeroKeepsValue(s: string)
    ensures ValueOf("0" + s) == ValueOf(s)
  {
    var t := "0" + s;
    if s == [] {
      assert t[..0] == [];
    } else {
      ZeroKeepsValue(s[..|s| - 1]);
      assert t[..|t| - 1] == "0" + s[..|s| - 1];
    }
  }

  lemma {:induction false} PaddedKeepsValue(s: string, w: nat)
    ensures ValueOf(Padded(s, w)) == ValueOf(s)
    decreases w - |s|
  {
    if |s| < w {
      ZeroKeepsValue(s);
      PaddedKeepsValue("0" + s, w);
    }
  }

  /** Within one conversation the text tells the identifier. */
  lemma TextDetermines(u: Uuid, v: Uuid)
    requires u.scope == v.scope && TextOf(u) == TextOf(v)
    ensures u == v
  {
    var x, y := TextOf(u), TextOf(v);
    var mid := "0000000-0000-4000-8000-" + Padded(Numeral(u.scope), 4);
    var m, n := Padded(Numeral(u.n), 8), Padded(Numeral(v.n), 8);
    assert x == [u.tag] + mid + m && y == [v.tag] + mid + n;
    assert x[0] == u.tag && y[0] == v.tag;
    assert x[|[u.tag] + mid|..] == m && y[|[v.tag] + mid|..] == n;
    NumeralHasValue(u.n);
    NumeralHasValue(v.n);
    PaddedKeepsValue(Numeral(u.n), 8);
    PaddedKeepsValue(Numeral(v.n), 8);
  }

  class IdMap {
    const scope: nat
    var next: map<Kind, nat>
    var ids: map<Name, Uuid>

    /** Every identifier comes from the counter of its kind, and no two keys of a
        kind from the same number. */
    ghost predicate Valid()
      reads this
    {
      && (forall k | k in ids :: Counted(k))
      && (forall k, l | k in ids && l in ids && k.kind == l.kind && ids[k].n == ids[l].n :: k == l)
    }

    ghost predicate Counted(k: Name)
      requires k in ids
      reads this
    {
      && k.kind in next && ids[k].n <= next[k.kind]
      && ids[k].tag == TagOf(k.kind) && ids[k].scope == scope
    }

    constructor (scope: nat)
      ensures Valid() && this.scope == scope && ids == map[]
    {
      this.scope := scope;
      next := map[];
      ids := map[];
    }

    /** The last number given out for a kind. */
    function LastNumber(kind: Kind): nat
      reads this
    {
      if kind in next then next[kind] else 0
    }

    /** Known keys keep their identifier; a new key gets the next number of its kind. */
    method UuidFor(kind: Kind, key: string) returns (id: string)
      requires Valid()
      modifies this`next, this`ids
      ensures Valid()
      ensures Name(kind, key) in ids && id == TextOf(ids[Name(kind, key)])
      ensures ids.Keys == old(ids.Keys) + {Name(kind, key)}
      ensures forall k | k in old(ids) :: ids[k] == old(ids[k])
      ensures Name(kind, key) in old(ids) ==> next == old(next)
      ensures Name(kind, key) !in old(ids) ==>
        && next == old(next)[kind := old(LastNumber(kind)) + 1]
        && ids[Name(kind, key)] == Uuid(TagOf(kind), scope, old(LastNumber(kind)) + 1)
    {
      var full := Name(kind, key);
      if full !in ids {
        var n := LastNumber(kind) + 1;
        next := next[kind := n];
        ids := ids[full := Uuid(TagOf(kind), scope, n)];
        forall k | k in ids
          ensures Counted(k)
        {
          assert k == full || old(Counted(k));
        }
      }
      id := TextOf(ids[full]);
    }

    /** Two names never share an identifier. */
    lemma Injective(k: Name, l: Name)
      requires Valid() && k in ids && l in ids
      ensures TextOf(ids[k]) == TextOf(ids[l]) <==> k == l
    {
      assert Counted(k) && Counted(l);
      if TextOf(ids[k]) == TextOf(ids[l]) {
        TextDetermines(ids[k], ids[l]);
      }
    }
  }
}
