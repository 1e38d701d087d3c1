/**
 Versioned facts and replay in the laboratory runtime of Motor V2: one store, one turn at a time.
 Digests are collision-free, so what is hashed stands for its digest.
 */
module MotorStore {
  import opened Basics

  type Ref = nat

  datatype Scalar = Null | Bool(b: bool) | Num(n: real) | Text(text: string)

  datatype Source = USER_PROVIDED | SYSTEM_OBSERVED | SYNTHETIC_FIXTURE

  /** A fact that an input brings: key, value, where it comes from. */
  datatype Known = Known(key: Ref, value: Scalar, source: Source, turn: Ref)

  datatype FactId = FactId(key: Ref, turn: Ref, version: nat, value: Scalar)

  datatype Fact = Fact(
    id: FactId, key: Ref, value: Scalar, source: Source, turn: Ref, observedAt: nat,
    version: nat, active: bool, supersededBy: Option<FactId>)

  // --------------------------------------------------------- versioned facts

  /** The last active fact of a key, or -1. */
  function ActiveAt(facts: seq<Fact>, key: Ref): (i: int)
    ensures -1 <= i < |facts|
    ensures i >= 0 ==> facts[i].key == key && facts[i].active
    ensures forall j :: i < j < |facts| ==> !(facts[j].key == key && facts[j].active)
  {
    if facts == [] then -1
    else
      var n := |facts| - 1;
      if facts[n].key == key && facts[n].active then n else ActiveAt(facts[..n], key)
  }

  function NewFact(k: Known, version: nat, at: nat): Fact {
    Fact(FactId(k.key, k.turn, version, k.value), k.key, k.value, k.source, k.turn, at, version, true, None)
  }

  function Superseded(f: Fact, next: FactId): Fact {
    f.(active := false, supersededBy := Some(next))
  }

  predicate Repeats(f: Fact, k: Known) {
    f.value == k.value && f.source == k.source
  }

  /** The facts after one more is known. */
  function Upserted(facts: seq<Fact>, k: Known, at: nat): seq<Fact> {
    var i := ActiveAt(facts, k.key);
    if i < 0 then facts + [NewFact(k, 1, at)]
    else if Repeats(facts[i], k) then facts
    else
      var f := NewFact(k, facts[i].version + 1, at);
      facts[i := Superseded(facts[i], f.id)] + [f]
  }

  method Upsert(facts: seq<Fact>, k: Known, at: nat) returns (next: seq<Fact>)
    ensures next == Upserted(facts, k, at)
  {
    next := facts;
    var i := |next| - 1;
    while i >= 0 && !(next[i].key == k.key && next[i].active)
      invariant -1 <= i < |next|
      invariant next == facts
      invariant forall j :: i < j < |next| ==> !(next[j].key == k.key && next[j].active)
    {
      i := i - 1;
    }
    OneLastActive(facts, k.key, i);
    if i >= 0 && next[i].value == k.value && next[i].source == k.source {
      return;
    }
    var version := (if i >= 0 then next[i].version else 0) + 1;
    var f := NewFact(k, version, at);
    if i >= 0 {
      next := next[i := next[i].(active := false)];
      next := next[i := next[i].(supersededBy := Some(f.id))];
    }
    next := next + [f];
  }

  lemma OneLastActive(facts: seq<Fact>, key: Ref, i: int)
    requires -1 <= i < |facts|
    requires i >= 0 ==> facts[i].key == key && facts[i].active
    requires forall j :: i < j < |facts| ==> !(facts[j].key == key && facts[j].active)
    ensures ActiveAt(facts, key) == i
  {
  }

  /** The versions of one key, oldest first. */
  function Versions(facts: seq<Fact>, key: Ref): seq<Fact> {
    if facts == [] then []
    else
      var n := |facts| - 1;
      Versions(facts[..n], key) + (if facts[n].key == key then [facts[n]] else [])
  }

  /** Numbered from 1, only the last one active, each of the others naming the next. */
  predicate Chain(c: seq<Fact>) {
    forall j :: 0 <= j < |c| ==> Link(c, j)
  }

  predicate Link(c: seq<Fact>, j: nat)
    requires j < |c|
  {
    && c[j].version == j + 1
    && (c[j].active <==> j == |c| - 1)
    && c[j].supersededBy == if j + 1 < |c| then Some(c[j + 1].id) else None
  }

  ghost predicate Versioned(facts: seq<Fact>) {
    && (forall key :: Chain(Versions(facts, key)))
    && forall i :: 0 <= i < |facts| ==> Named(facts[i])
  }

  lemma {:induction false} VersionsHaveKey(facts: seq<Fact>, key: Ref)
    ensures forall j :: 0 <= j < |Versions(facts, key)| ==> Versions(facts, key)[j].key == key
    ensures forall j :: 0 <= j < |Versions(facts, key)| ==> Versions(facts, key)[j] in facts
  {
    if facts != [] {
      VersionsHaveKey(facts[..|facts| - 1], key);
    }
  }

  /** When only the last version is active, that is the one found. */
  lemma {:induction false} LastVersionIsFound(facts: seq<Fact>, key: Ref)
    requires var c := Versions(facts, key); c != [] && c[|c| - 1].active
    ensures var i := ActiveAt(facts, key);
      && i >= 0
      && Versions(facts, key) == Versions(facts[..i], key) + [facts[i]]
      && forall j :: i < j < |facts| ==> facts[j].key != key
    decreases |facts|
  {
    var n := |facts| - 1;
    if facts[n].key != key {
      LastVersionIsFound(facts[..n], key);
      assert facts[..n][..ActiveAt(facts, key)] == facts[..ActiveAt(facts, key)];
    } else {
      assert Versions(facts, key)[|Versions(facts, key)| - 1] == facts[n];
    }
  }

  lemma {:induction false} NoVersionsNoneFound(facts: seq<Fact>, key: Ref)
    requires Versions(facts, key) == []
    ensures ActiveAt(facts, key) == -1
  {
    if facts != [] {
      NoVersionsNoneFound(facts[..|facts| - 1], key);
    }
  }

  /** Writing at the last place of a key changes the last of its versions and no other key. */
  lemma {:induction false} WriteLast(facts: seq<Fact>, i: nat, f: Fact, key: Ref)
    requires i < |facts| && f.key == facts[i].key
    requires facts[i].key == key ==> forall j :: i < j < |facts| ==> facts[j].key != key
    ensures facts[i].key != key ==> Versions(facts[i := f], key) == Versions(facts, key)
    ensures facts[i].key == key ==>
      Versions(facts[i := f], key) == Versions(facts[..i], key) + [f]
      && Versions(facts, key) == Versions(facts[..i], key) + [facts[i]]
    decreases |facts|
  {
    var n := |facts| - 1;
    if i == n {
      assert facts[i := f][..n] == facts[..n];
    } else {
      WriteLast(facts[..n], i, f, key);
      assert facts[i := f][..n] == facts[..n][i := f];
      assert facts[..n][..i] == facts[..i];
    }
  }

  lemma VersionsOfAppend(facts: seq<Fact>, f: Fact, key: Ref)
    ensures Versions(facts + [f], key) == Versions(facts, key) + if f.key == key then [f] else []
  {
    assert (facts + [f])[..|facts|] == facts;
  }

  /** The versions of a key after one more is known. */
  function NextVersions(c: seq<Fact>, k: Known, at: nat): seq<Fact> {
    if c == [] then [NewFact(k, 1, at)]
    else
      var last := c[|c| - 1];
      if Repeats(last, k) then c
      else
        var f := NewFact(k, |c| + 1, at);
        c[..|c| - 1] + [Superseded(last, f.id), f]
  }

  lemma NextVersionsChain(c: seq<Fact>, k: Known, at: nat)
    requires Chain(c)
    ensures Chain(NextVersions(c, k, at))
  {
    var d := NextVersions(c, k, at);
    forall j | 0 <= j < |d|
      ensures Link(d, j)
    {
      if j < |c| {
        assert Link(c, j);
      }
    }
  }

  lemma ReplaceVersions(facts: seq<Fact>, k: Known, at: nat, key: Ref)
    requires var i := ActiveAt(facts, k.key);
      && i >= 0
      && Versions(facts, k.key) == Versions(facts[..i], k.key) + [facts[i]]
      && (forall j :: i < j < |facts| ==> facts[j].key != k.key)
      && facts[i].version == |Versions(facts, k.key)|
      && !Repeats(facts[i], k)
    ensures Versions(Upserted(facts, k, at), key)
      == if key == k.key then NextVersions(Versions(facts, key), k, at) else Versions(facts, key)
  {
    var i := ActiveAt(facts, k.key);
    var f := NewFact(k, facts[i].version + 1, at);
    var was := Superseded(facts[i], f.id);
    WriteLast(facts, i, was, key);
    VersionsOfAppend(facts[i := was], f, key);
  }

  /** What happens to the versions of each key. */
  lemma UpsertVersions(facts: seq<Fact>, k: Known, at: nat, key: Ref)
    requires Chain(Versions(facts, k.key))
    ensures Versions(Upserted(facts, k, at), key)
      == if key == k.key then NextVersions(Versions(facts, key), k, at) else Versions(facts, key)
  {
    var c := Versions(facts, k.key);
    if c == [] {
      NoVersionsNoneFound(facts, k.key);
      VersionsOfAppend(facts, NewFact(k, 1, at), key);
    } else {
      assert Link(c, |c| - 1);
      LastVersionIsFound(facts, k.key);
      if !Repeats(c[|c| - 1], k) {
        ReplaceVersions(facts, k, at, key);
      }
    }
  }

  predicate Named(f: Fact) {
    f.id == FactId(f.key, f.turn, f.version, f.value)
  }

  /** Each key's versions stay numbered 1 to n, chained, with only the last one active. */
  lemma UpsertKeepsVersions(facts: seq<Fact>, k: Known, at: nat)
    requires Versioned(facts)
    ensures Versioned(Upserted(facts, k, at))
  {
    forall key
      ensures Chain(Versions(Upserted(facts, k, at), key))
    {
      UpsertVersions(facts, k, at, key);
      NextVersionsChain(Versions(facts, key), k, at);
    }
  }

  /** And the last one says what was just made known. */
  lemma UpsertIsCurrent(facts: seq<Fact>, k: Known, at: nat)
    requires Versioned(facts)
    ensures var d := Versions(Upserted(facts, k, at), k.key);
      d != [] && d[|d| - 1].value == k.value && d[|d| - 1].source == k.source
  {
    UpsertVersions(facts, k, at, k.key);
  }

  /** An earlier fact keeps everything but whether it is active and what replaced it. */
  predicate Keeps(a: Fact, b: Fact) {
    && b == a.(active := b.active, supersededBy := b.supersededBy)
    && (!a.active ==> b == a)
  }

  predicate Extends(before: seq<Fact>, after: seq<Fact>) {
    |before| <= |after| && forall i :: 0 <= i < |before| ==> Keeps(before[i], after[i])
  }

  function UpsertedAll(facts: seq<Fact>, known: seq<Known>, at: nat): seq<Fact> {
    if known == [] then facts
    else Upserted(UpsertedAll(facts, known[..|known| - 1], at), known[|known| - 1], at)
  }

  lemma {:induction false} UpsertAllKeeps(facts: seq<Fact>, known: seq<Known>, at: nat)
    requires Versioned(facts)
    ensures Versioned(UpsertedAll(facts, known, at))
    ensures Extends(facts, UpsertedAll(facts, known, at))
  {
    if known != [] {
      var init := known[..|known| - 1];
      UpsertAllKeeps(facts, init, at);
      UpsertKeepsVersions(UpsertedAll(facts, init, at), known[|known| - 1], at);
    }
  }

  // ------------------------------------------------------- what versions tell

  /** What was made known, and when. */
  datatype Report = Report(known: Known, at: nat)

  /** The changes of a key after one more report of it. */
  function NextChanges(changes: seq<Report>, r: Report): seq<Report> {
    if changes != [] && changes[|changes| - 1].known.value == r.known.value
        && changes[|changes| - 1].known.source == r.known.source
    then changes
    else changes + [r]
  }

  /** The reports of a key that say something else than the one before. */
  function Changes(reports: seq<Report>, key: Ref): (c: seq<Report>)
    ensures forall r <- c :: r.known.key == key
  {
    if reports == [] then []
    else
      var n := |reports| - 1;
      var c := Changes(reports[..n], key);
      if reports[n].known.key == key then NextChanges(c, reports[n]) else c
  }

  /** Everything a version says, and when it was heard, is from its report. */
  predicate Tells(f: Fact, r: Report) {
    && f.key == r.known.key && f.value == r.known.value && f.source == r.known.source && f.turn == r.known.turn
    && f.observedAt == r.at
  }

  /** The versions of every key are its changes, one by one. */
  ghost predicate Told(facts: seq<Fact>, reports: seq<Report>) {
    forall key :: ToldOf(Versions(facts, key), Changes(reports, key))
  }

  predicate ToldOf(c: seq<Fact>, changes: seq<Report>) {
    |c| == |changes| && forall j :: 0 <= j < |c| ==> Tells(c[j], changes[j])
  }

  lemma NextTells(c: seq<Fact>, changes: seq<Report>, k: Known, at: nat)
    requires ToldOf(c, changes) && forall r <- changes :: r.known.key == k.key
    ensures ToldOf(NextVersions(c, k, at), NextChanges(changes, Report(k, at)))
  {
  }

  lemma UpsertTells(facts: seq<Fact>, reports: seq<Report>, k: Known, at: nat)
    requires Versioned(facts) && Told(facts, reports)
    ensures Told(Upserted(facts, k, at), reports + [Report(k, at)])
  {
    var more := reports + [Report(k, at)];
    assert more[..|reports|] == reports;
    forall key
      ensures ToldOf(Versions(Upserted(facts, k, at), key), Changes(more, key))
    {
      UpsertVersions(facts, k, at, key);
      assert ToldOf(Versions(facts, key), Changes(reports, key));
      if key == k.key {
        NextTells(Versions(facts, key), Changes(reports, key), k, at);
      }
    }
  }

  function Stamped(known: seq<Known>, at: nat): seq<Report> {
    if known == [] then [] else Stamped(known[..|known| - 1], at) + [Report(known[|known| - 1], at)]
  }

  lemma {:induction false} UpsertAllTells(facts: seq<Fact>, reports: seq<Report>, known: seq<Known>, at: nat)
    requires Versioned(facts) && Told(facts, reports)
    ensures Told(UpsertedAll(facts, known, at), reports + Stamped(known, at))
    decreases |known|
  {
    if known == [] {
      assert reports + [] == reports;
    } else {
      var n := |known| - 1;
      UpsertAllTells(facts, reports, known[..n], at);
      UpsertAllKeeps(facts, known[..n], at);
      UpsertTells(UpsertedAll(facts, known[..n], at), reports + Stamped(known[..n], at), known[n], at);
      assert reports + Stamped(known, at) == reports + Stamped(known[..n], at) + [Report(known[n], at)];
    }
  }

  // -------------------------------------------------------------- distinct ids

  lemma {:induction false} PlaceAmongVersions(facts: seq<Fact>, i: nat)
    requires i < |facts|
    ensures var c, r := Versions(facts, facts[i].key), |Versions(facts[..i], facts[i].key)|;
      r < |c| && c[r] == facts[i]
    decreases |facts|
  {
    var n := |facts| - 1;
    if i < n {
      PlaceAmongVersions(facts[..n], i);
      assert facts[..n][..i] == facts[..i];
    }
  }

  lemma {:induction false} VersionsGrow(facts: seq<Fact>, i: nat, j: nat, key: Ref)
    requires i < j <= |facts| && facts[i].key == key
    ensures |Versions(facts[..i], key)| < |Versions(facts[..j], key)|
    decreases j
  {
    assert facts[..j][..j - 1] == facts[..j - 1];
    if i < j - 1 {
      VersionsGrow(facts, i, j - 1, key);
    }
  }

  /** No two facts share an id. */
  lemma IdsDiffer(facts: seq<Fact>, i: nat, j: nat)
    requires Versioned(facts) && i < j < |facts|
    ensures facts[i].id != facts[j].id
  {
    if facts[i].key == facts[j].key {
      var key := facts[i].key;
      var c := Versions(facts, key);
      PlaceAmongVersions(facts, i);
      PlaceAmongVersions(facts, j);
      VersionsGrow(facts, i, j, key);
      assert Chain(c);
      assert Link(c, |Versions(facts[..i], key)|) && Link(c, |Versions(facts[..j], key)|);
    }
    assert Named(facts[i]) && Named(facts[j]);
  }
}
