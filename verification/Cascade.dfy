/** Supersession and the recursive invalidation of everything that rested on it. */
module Cascade {
  import opened Basics
  import opened Catalog
  import opened State

  function Mark(f: FactRecord, why: Supersession, now: nat, successor: Option<nat>): FactRecord {
    f.(active := false, reason := Some(why), supersededAt := Some(now), supersededBy := successor)
  }

  function Invalidated(f: FactRecord, now: nat): FactRecord {
    Mark(f, DEPENDENCY_INVALIDATED, now, None)
  }

  predicate SameScope(cat: Catalogue, goals: seq<GoalRecord>, src: FactRecord, f: FactRecord) {
    var scope := FactOf(cat, src.code).scope;
    || scope == CONVERSATION
    || (scope == GOAL && f.goalId == src.goalId)
    || (HomeCase(cat, goals, src).Some? && HomeCase(cat, goals, f) == HomeCase(cat, goals, src))
  }

  predicate LeansOn(cat: Catalogue, goals: seq<GoalRecord>, src: FactRecord, f: FactRecord) {
    SameScope(cat, goals, src, f) && src.code in FactOf(cat, f.code).dependsOn
  }

  /** Fact i is active and rests on fact src, by derivation or by dependency. */
  predicate Touches(cat: Catalogue, goals: seq<GoalRecord>, facts: seq<FactRecord>, src: nat, i: nat)
    requires src < |facts| && i < |facts|
  {
    facts[i].active && (src in facts[i].derivedFrom || LeansOn(cat, goals, facts[src], facts[i]))
  }

  /** Position p < n of the first sweep looks at derivations, n <= p of the second at dependencies. */
  function At(n: nat, p: nat): nat
    requires p < 2 * n
  {
    if p < n then p else p - n
  }

  predicate Hit(cat: Catalogue, goals: seq<GoalRecord>, facts: seq<FactRecord>, src: nat, p: nat)
    requires src < |facts| && p < 2 * |facts|
  {
    var f := facts[At(|facts|, p)];
    f.active && if p < |facts| then src in f.derivedFrom else LeansOn(cat, goals, facts[src], f)
  }

  ghost function ActiveSet(facts: seq<FactRecord>): set<int> {
    set i | 0 <= i < |facts| && facts[i].active
  }

  /** What came before may lose facts to r, and nothing else changes. */
  ghost predicate Thinned(facts: seq<FactRecord>, r: seq<FactRecord>, now: nat) {
    && |r| == |facts|
    && forall i | 0 <= i < |r| :: r[i] == facts[i] || (facts[i].active && r[i] == Invalidated(facts[i], now))
  }

  /** The two sweeps of the invalidation, from position p on. The active facts
      are the measure: each recursive supersession takes one away. */
  function Sweep(cat: Catalogue, goals: seq<GoalRecord>, facts: seq<FactRecord>, now: nat, src: nat, p: nat)
    : (r: seq<FactRecord>)
    requires src < |facts| && p <= 2 * |facts|
    ensures Thinned(facts, r, now)
    decreases ActiveSet(facts), 2 * |facts| - p, 1
  {
    if p == 2 * |facts| then facts
    else
      var next := Strike(cat, goals, facts, now, src, p);
      assert ActiveSet(next) <= ActiveSet(facts);
      Sweep(cat, goals, next, now, src, p + 1)
  }

  /** One position of a sweep: a fact that is hit is superseded, recursively. */
  function Strike(cat: Catalogue, goals: seq<GoalRecord>, facts: seq<FactRecord>, now: nat, src: nat, p: nat)
    : (r: seq<FactRecord>)
    requires src < |facts| && p < 2 * |facts|
    ensures Thinned(facts, r, now)
    ensures !Hit(cat, goals, r, src, p)
    decreases ActiveSet(facts), 2 * |facts| - p, 0
  {
    if Hit(cat, goals, facts, src, p) then
      var i := At(|facts|, p);
      var marked := facts[i := Invalidated(facts[i], now)];
      assert i in ActiveSet(facts) && i !in ActiveSet(marked);
      Sweep(cat, goals, marked, now, i, 0)
    else facts
  }

  function Invalidate(cat: Catalogue, goals: seq<GoalRecord>, facts: seq<FactRecord>, now: nat, src: nat)
    : seq<FactRecord>
    requires src < |facts|
  {
    Sweep(cat, goals, facts, now, src, 0)
  }

  function Supersede(
    cat: Catalogue, goals: seq<GoalRecord>, facts: seq<FactRecord>, now: nat,
    i: nat, why: Supersession, successor: Option<nat>): (r: seq<FactRecord>)
    requires i < |facts|
    ensures |r| == |facts|
  {
    Invalidate(cat, goals, facts[i := Mark(facts[i], why, now, successor)], now, i)
  }

  /** A fact that is hit is superseded like any other, without a successor. */
  lemma StrikeSupersedes(cat: Catalogue, goals: seq<GoalRecord>, facts: seq<FactRecord>, now: nat, src: nat, p: nat)
    requires src < |facts| && p < 2 * |facts|
    ensures var i := At(|facts|, p);
            Strike(cat, goals, facts, now, src, p)
            == if Hit(cat, goals, facts, src, p) then Supersede(cat, goals, facts, now, i, DEPENDENCY_INVALIDATED, None)
               else facts
    ensures Sweep(cat, goals, facts, now, src, p)
         == Sweep(cat, goals, Strike(cat, goals, facts, now, src, p), now, src, p + 1)
    ensures ActiveSet(Strike(cat, goals, facts, now, src, p)) <= ActiveSet(facts)
    ensures Hit(cat, goals, facts, src, p) ==> At(|facts|, p) in ActiveSet(facts)
  {
  }

  /** Nothing active rests on fact src any more. */
  ghost predicate Closed(cat: Catalogue, goals: seq<GoalRecord>, facts: seq<FactRecord>, src: nat)
    requires src < |facts|
  {
    forall i | 0 <= i < |facts| :: !Touches(cat, goals, facts, src, i)
  }

  lemma MissPersists(
    cat: Catalogue, goals: seq<GoalRecord>, facts: seq<FactRecord>, r: seq<FactRecord>, now: nat, src: nat, q: nat)
    requires src < |facts| && q < 2 * |facts| && Thinned(facts, r, now)
    requires !Hit(cat, goals, facts, src, q)
    ensures !Hit(cat, goals, r, src, q)
  {
    assert r[src].code == facts[src].code;
  }

  lemma {:induction false} SweepMisses(
    cat: Catalogue, goals: seq<GoalRecord>, facts: seq<FactRecord>, now: nat, src: nat, p: nat, q: nat)
    requires src < |facts| && p <= q < 2 * |facts|
    ensures !Hit(cat, goals, Sweep(cat, goals, facts, now, src, p), src, q)
    decreases q - p
  {
    var next := Strike(cat, goals, facts, now, src, p);
    var r := Sweep(cat, goals, next, now, src, p + 1);
    assert r == Sweep(cat, goals, facts, now, src, p);
    if p == q {
      MissPersists(cat, goals, next, r, now, src, q);
    } else {
      SweepMisses(cat, goals, next, now, src, p + 1, q);
    }
  }

  /** Afterwards nothing active rests on a fact that the sweep took away. */
  lemma {:induction false} SweepCloses(
    cat: Catalogue, goals: seq<GoalRecord>, facts: seq<FactRecord>, now: nat, src: nat, p: nat)
    requires src < |facts| && p <= 2 * |facts|
    ensures LossesClosed(cat, goals, facts, Sweep(cat, goals, facts, now, src, p))
    decreases ActiveSet(facts), 2 * |facts| - p, 1
  {
    if p < 2 * |facts| {
      var next := Strike(cat, goals, facts, now, src, p);
      assert ActiveSet(next) <= ActiveSet(facts);
      StrikeCloses(cat, goals, facts, now, src, p);
      SweepCloses(cat, goals, next, now, src, p + 1);
      LossesChain(cat, goals, facts, next, Sweep(cat, goals, next, now, src, p + 1), now);
    }
  }

  lemma {:induction false} StrikeCloses(
    cat: Catalogue, goals: seq<GoalRecord>, facts: seq<FactRecord>, now: nat, src: nat, p: nat)
    requires src < |facts| && p < 2 * |facts|
    ensures LossesClosed(cat, goals, facts, Strike(cat, goals, facts, now, src, p))
    decreases ActiveSet(facts), 2 * |facts| - p, 0
  {
    if Hit(cat, goals, facts, src, p) {
      var i := At(|facts|, p);
      var marked := facts[i := Invalidated(facts[i], now)];
      assert i in ActiveSet(facts) && i !in ActiveSet(marked);
      SweepCloses(cat, goals, marked, now, i, 0);
      SweepClosesSource(cat, goals, marked, now, i);
    }
  }

  lemma SweepClosesSource(cat: Catalogue, goals: seq<GoalRecord>, facts: seq<FactRecord>, now: nat, src: nat)
    requires src < |facts|
    ensures Closed(cat, goals, Invalidate(cat, goals, facts, now, src), src)
  {
    var r := Invalidate(cat, goals, facts, now, src);
    forall i | 0 <= i < |facts|
      ensures !Touches(cat, goals, r, src, i)
    {
      SweepMisses(cat, goals, facts, now, src, 0, i);
      SweepMisses(cat, goals, facts, now, src, 0, i + |facts|);
    }
  }

  /** Every fact that r has lost is closed in r. */
  ghost predicate LossesClosed(
    cat: Catalogue, goals: seq<GoalRecord>, facts: seq<FactRecord>, r: seq<FactRecord>)
    requires |facts| == |r|
  {
    forall j | 0 <= j < |r| && facts[j].active && !r[j].active :: Closed(cat, goals, r, j)
  }

  lemma LossesChain(
    cat: Catalogue, goals: seq<GoalRecord>, facts: seq<FactRecord>, mid: seq<FactRecord>, r: seq<FactRecord>,
    now: nat)
    requires |facts| == |mid| && Thinned(mid, r, now)
    requires LossesClosed(cat, goals, facts, mid) && LossesClosed(cat, goals, mid, r)
    ensures LossesClosed(cat, goals, facts, r)
  {
    forall j | 0 <= j < |r| && facts[j].active && !r[j].active
      ensures Closed(cat, goals, r, j)
    {
      if !mid[j].active {
        ClosedPersists(cat, goals, mid, r, j, now);
      }
    }
  }

  lemma ClosedPersists(
    cat: Catalogue, goals: seq<GoalRecord>, facts: seq<FactRecord>, r: seq<FactRecord>, src: nat, now: nat)
    requires src < |facts| && Thinned(facts, r, now)
    requires Closed(cat, goals, facts, src)
    ensures Closed(cat, goals, r, src)
  {
    forall i | 0 <= i < |r|
      ensures !Touches(cat, goals, r, src, i)
    {
      assert !Touches(cat, goals, facts, src, i);
    }
  }

  /** A set of positions that contains whatever rests on its members. */
  ghost predicate UpwardClosed(cat: Catalogue, goals: seq<GoalRecord>, facts: seq<FactRecord>, s: set<nat>) {
    forall k, j | k in s && k < |facts| && 0 <= j < |facts| && Touches(cat, goals, facts, k, j) :: j in s
  }

  ghost predicate LostWithin(facts: seq<FactRecord>, r: seq<FactRecord>, s: set<nat>) {
    |r| == |facts| && forall j: nat | j < |facts| && facts[j].active && !r[j].active :: j in s
  }

  lemma UpwardPersists(
    cat: Catalogue, goals: seq<GoalRecord>, facts: seq<FactRecord>, r: seq<FactRecord>, now: nat, s: set<nat>)
    requires Thinned(facts, r, now) && UpwardClosed(cat, goals, facts, s)
    ensures UpwardClosed(cat, goals, r, s)
  {
    forall k, j | k in s && k < |r| && 0 <= j < |r| && Touches(cat, goals, r, k, j)
      ensures j in s
    {
      assert Touches(cat, goals, facts, k, j);
    }
  }

  /** The cascade takes no more than it must: whatever it takes lies in every
      upward closed set that contains its source. */
  lemma {:induction false} SweepWithin(
    cat: Catalogue, goals: seq<GoalRecord>, facts: seq<FactRecord>, now: nat, src: nat, p: nat, s: set<nat>)
    requires src < |facts| && p <= 2 * |facts|
    requires src in s && UpwardClosed(cat, goals, facts, s)
    ensures LostWithin(facts, Sweep(cat, goals, facts, now, src, p), s)
    decreases ActiveSet(facts), 2 * |facts| - p, 1
  {
    if p < 2 * |facts| {
      var next := Strike(cat, goals, facts, now, src, p);
      assert ActiveSet(next) <= ActiveSet(facts);
      StrikeWithin(cat, goals, facts, now, src, p, s);
      UpwardPersists(cat, goals, facts, next, now, s);
      SweepWithin(cat, goals, next, now, src, p + 1, s);
      assert Sweep(cat, goals, next, now, src, p + 1) == Sweep(cat, goals, facts, now, src, p);
    }
  }

  lemma {:induction false} StrikeWithin(
    cat: Catalogue, goals: seq<GoalRecord>, facts: seq<FactRecord>, now: nat, src: nat, p: nat, s: set<nat>)
    requires src < |facts| && p < 2 * |facts|
    requires src in s && UpwardClosed(cat, goals, facts, s)
    ensures LostWithin(facts, Strike(cat, goals, facts, now, src, p), s)
    decreases ActiveSet(facts), 2 * |facts| - p, 0
  {
    if Hit(cat, goals, facts, src, p) {
      var i := At(|facts|, p);
      var marked := facts[i := Invalidated(facts[i], now)];
      assert i in ActiveSet(facts) && i !in ActiveSet(marked);
      assert Touches(cat, goals, facts, src, i);
      UpwardPersists(cat, goals, facts, marked, now, s);
      SweepWithin(cat, goals, marked, now, i, 0, s);
    }
  }

  /** Superseding an active fact takes away exactly the least set that holds it
      and whatever active rests on a member: the losses are such a set, and lie
      in every other. */
  lemma SupersessionIsLeast(
    cat: Catalogue, goals: seq<GoalRecord>, facts: seq<FactRecord>, now: nat,
    i: nat, why: Supersession, successor: Option<nat>)
    requires i < |facts| && facts[i].active
    ensures var r := Supersede(cat, goals, facts, now, i, why, successor);
            && !r[i].active
            && (forall j | 0 <= j < |facts| && facts[j].active && !r[j].active :: Closed(cat, goals, r, j))
            && (forall s: set<nat> | i in s && UpwardClosed(cat, goals, facts, s) :: LostWithin(facts, r, s))
            && (forall j | 0 <= j < |facts| && j != i :: r[j] == facts[j] || r[j] == Invalidated(facts[j], now))
  {
    var marked := facts[i := Mark(facts[i], why, now, successor)];
    var r := Supersede(cat, goals, facts, now, i, why, successor);
    SweepCloses(cat, goals, marked, now, i, 0);
    SweepClosesSource(cat, goals, marked, now, i);
    forall s: set<nat> | i in s && UpwardClosed(cat, goals, facts, s)
      ensures LostWithin(facts, r, s)
    {
      forall k, j | k in s && k < |marked| && 0 <= j < |marked| && Touches(cat, goals, marked, k, j)
        ensures j in s
      {
        assert Touches(cat, goals, facts, k, j);
      }
      SweepWithin(cat, goals, marked, now, i, 0, s);
    }
  }

  // ----- what is lost, in the words of the catalogue -----

  /** The case that a record is of: its own or, if it is of a goal, that of the goal. */
  function CaseOf(cat: Catalogue, goals: seq<GoalRecord>, f: FactRecord): Option<nat> {
    if FactOf(cat, f.code).scope != GOAL then f.caseId
    else if f.goalId.Some? && f.goalId.value < |goals| then goals[f.goalId.value].caseId
    else None
  }

  /** Record i was derived from record src, or its code depends on that of src and src holds where i does: in the
      whole conversation, for the same goal, or in the same case. */
  ghost predicate RestsOn(cat: Catalogue, goals: seq<GoalRecord>, facts: seq<FactRecord>, src: nat, i: nat)
    requires src < |facts| && i < |facts|
  {
    var f, g := facts[src], facts[i];
    || src in g.derivedFrom
    || (f.code in FactOf(cat, g.code).dependsOn
        && (|| FactOf(cat, f.code).scope == CONVERSATION
            || (FactOf(cat, f.code).scope == GOAL && g.goalId == f.goalId)
            || (CaseOf(cat, goals, f).Some? && CaseOf(cat, goals, g) == CaseOf(cat, goals, f))))
  }

  /** Active records, each resting on the one before it. */
  ghost predicate Chain(cat: Catalogue, goals: seq<GoalRecord>, facts: seq<FactRecord>, path: seq<nat>) {
    && path != [] && (forall x | 0 <= x < |path| :: path[x] < |facts| && facts[path[x]].active)
    && forall x | 0 <= x < |path| - 1 :: RestsOn(cat, goals, facts, path[x], path[x + 1])
  }

  ghost predicate Depends(cat: Catalogue, goals: seq<GoalRecord>, facts: seq<FactRecord>, i: nat, j: nat) {
    exists path :: Chain(cat, goals, facts, path) && path[0] == i && path[|path| - 1] == j
  }

  lemma OneMoreLink(cat: Catalogue, goals: seq<GoalRecord>, facts: seq<FactRecord>, i: nat, k: nat, j: nat)
    requires Depends(cat, goals, facts, i, k) && k < |facts| && j < |facts| && Touches(cat, goals, facts, k, j)
    ensures Depends(cat, goals, facts, i, j)
  {
    var path :| Chain(cat, goals, facts, path) && path[0] == i && path[|path| - 1] == k;
    assert RestsOn(cat, goals, facts, k, j);
    assert Chain(cat, goals, facts, path + [j]);
    assert (path + [j])[|path|] == j;
  }

  predicate SameButStatus(f: FactRecord, g: FactRecord) {
    g.code == f.code && g.caseId == f.caseId && g.goalId == f.goalId && g.derivedFrom == f.derivedFrom
  }

  lemma {:induction false} ChainIsLost(
    cat: Catalogue, goals: seq<GoalRecord>, facts: seq<FactRecord>, r: seq<FactRecord>, path: seq<nat>)
    requires Chain(cat, goals, facts, path) && |r| == |facts| && !r[path[0]].active
    requires forall x | 0 <= x < |r| :: SameButStatus(facts[x], r[x])
    requires forall x | 0 <= x < |r| && facts[x].active && !r[x].active :: Closed(cat, goals, r, x)
    ensures !r[path[|path| - 1]].active
    decreases |path|
  {
    if |path| > 1 {
      var k, j := path[0], path[1];
      assert RestsOn(cat, goals, facts, path[0], path[0 + 1]);
      assert !Touches(cat, goals, r, k, j);
      ChainIsLost(cat, goals, facts, r, path[1..]);
    }
  }

  /** Superseding an active record takes away exactly those active records that rest on it,
      directly or through others. */
  lemma LostExactly(
    cat: Catalogue, goals: seq<GoalRecord>, facts: seq<FactRecord>, now: nat,
    i: nat, why: Supersession, successor: Option<nat>)
    requires i < |facts| && facts[i].active
    ensures var r := Supersede(cat, goals, facts, now, i, why, successor);
            forall j: nat | j < |facts| && facts[j].active :: !r[j].active <==> Depends(cat, goals, facts, i, j)
  {
    var r := Supersede(cat, goals, facts, now, i, why, successor);
    SupersessionIsLeast(cat, goals, facts, now, i, why, successor);
    assert !r[i].active;
    var s := set j: nat | j < |facts| && Depends(cat, goals, facts, i, j);
    assert Chain(cat, goals, facts, [i]);
    assert i in s;
    forall k, j | k in s && k < |facts| && 0 <= j < |facts| && Touches(cat, goals, facts, k, j)
      ensures j in s
    {
      OneMoreLink(cat, goals, facts, i, k, j);
    }
    assert LostWithin(facts, r, s);
    forall j: nat | j < |facts| && facts[j].active && Depends(cat, goals, facts, i, j)
      ensures !r[j].active
    {
      var path :| Chain(cat, goals, facts, path) && path[0] == i && path[|path| - 1] == j;
      ChainIsLost(cat, goals, facts, r, path);
    }
  }
}
