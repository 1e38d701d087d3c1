/** Which missing fact comes first, and what a goal that waits for it waits for. */
module Gaps {
  import opened Basics
  import opened Catalog
  import opened State
  import opened Goals
  import opened Reducer
  import opened Settled
  import opened Questions
  import opened Reachable
  import opened Asking

  /** Number i is the one to begin with: the first in conflict or, without any, the first of the lowest class. */
  predicate ComesFirst(ms: seq<Missing>, i: nat) {
    && i < |ms|
    && if ms[i].conflicting then forall j | 0 <= j < i :: !ms[j].conflicting
       else
         && (forall j | 0 <= j < |ms| :: !ms[j].conflicting && Rank(ms[i].priority) <= Rank(ms[j].priority))
         && forall j | 0 <= j < i :: Rank(ms[i].priority) < Rank(ms[j].priority)
  }

  lemma OneComesFirst(ms: seq<Missing>, i: nat, j: nat)
    requires ComesFirst(ms, i) && ComesFirst(ms, j)
    ensures i == j
  {
  }

  lemma {:induction false} ConflictIsFirst(ms: seq<Missing>) returns (i: nat)
    requires FirstConflicting(ms).Some?
    ensures i < |ms| && FirstConflicting(ms) == Some(ms[i]) && ms[i].conflicting
    ensures forall j | 0 <= j < i :: !ms[j].conflicting
  {
    i := 0;
    if !ms[0].conflicting {
      i := ConflictIsFirst(ms[1..]);
      i := i + 1;
      assert forall j | 1 <= j < i :: ms[j] == ms[1..][j - 1];
    }
  }

  /** The scan for the lowest class ends with the first of it, starting from a candidate before the list. */
  lemma {:induction false} LowestIsFirst(ms: seq<Missing>, best: Missing) returns (i: int)
    ensures -1 <= i < |ms|
    ensures Lowest(ms, best) == (if i < 0 then best else ms[i])
    ensures i < 0 ==> forall j | 0 <= j < |ms| :: Rank(best.priority) <= Rank(ms[j].priority)
    ensures i >= 0 ==>
              && Rank(ms[i].priority) < Rank(best.priority)
              && (forall j | 0 <= j < |ms| :: Rank(ms[i].priority) <= Rank(ms[j].priority))
              && forall j | 0 <= j < i :: Rank(ms[i].priority) < Rank(ms[j].priority)
  {
    i := -1;
    if ms != [] {
      var next := if Rank(ms[0].priority) < Rank(best.priority) then ms[0] else best;
      var rest := LowestIsFirst(ms[1..], next);
      assert forall j | 1 <= j < |ms| :: ms[j] == ms[1..][j - 1];
      i := if rest >= 0 then rest + 1
        else if next == best && !(Rank(ms[0].priority) < Rank(best.priority)) then -1
        else 0;
    }
  }

  /** The best missing fact is the one that comes first. */
  lemma BestComesFirst(ms: seq<Missing>) returns (i: nat)
    requires ms != []
    ensures ComesFirst(ms, i) && Best(ms) == Some(ms[i])
  {
    FirstConflictingIsOne(ms);
    if FirstConflicting(ms).Some? {
      i := ConflictIsFirst(ms);
    } else {
      var k := LowestIsFirst(ms, ms[0]);
      i := if k < 0 then 0 else k;
    }
  }

  /** Goal i cannot go on before r is done: the missing fact that comes first needs a signal, and r is how it is
      resolved. */
  ghost predicate BlockedBy(cat: Catalogue, st: Conversation, i: nat, r: Resolution)
    requires i < |st.goals|
  {
    var ms := MissingFacts(cat, st.facts, st.goals, i);
    exists k: nat :: ComesFirst(ms, k) && ms[k].authoritative && ms[k].code in cat.resolutions
      && r == cat.resolutions[ms[k].code]
  }

  lemma BlockingIs(cat: Catalogue, st: Conversation, i: nat)
    requires i < |st.goals|
    ensures forall r :: BlockedBy(cat, st, i, r) <==> Blocking(cat, st.facts, st.goals, i) == Some(r)
  {
    var ms := MissingFacts(cat, st.facts, st.goals, i);
    if ms != [] {
      var k := BestComesFirst(ms);
      forall r | BlockedBy(cat, st, i, r)
        ensures Blocking(cat, st.facts, st.goals, i) == Some(r)
      {
        var j: nat :| ComesFirst(ms, j) && ms[j].authoritative && ms[j].code in cat.resolutions
          && r == cat.resolutions[ms[j].code];
        OneComesFirst(ms, j, k);
      }
    }
  }

  /** An active or waiting goal waits if and only if it is blocked, and then for one action, the one that helps. */
  ghost predicate WaitsIffBlocked(cat: Catalogue, st: Conversation, i: nat)
    requires i < |st.goals|
  {
    && (st.goals[i].status == WAITING <==> exists r :: BlockedBy(cat, st, i, r))
    && (forall r | BlockedBy(cat, st, i, r) ::
          exists x <- st.actions :: x.goalId == i && x.action == r.action
            && forall y <- st.actions :: y.goalId == i ==> y == x)
  }

  lemma WaitsForGapIs(cat: Catalogue, st: Conversation, i: nat)
    requires i < |st.goals| && st.goals[i].status in {ACTIVE, WAITING} && WaitsForGap(cat, st, i)
    ensures WaitsIffBlocked(cat, st, i)
  {
    BlockingIs(cat, st, i);
    var blocking := Blocking(cat, st.facts, st.goals, i);
    if blocking.Some? {
      assert BlockedBy(cat, st, i, blocking.value);
      var mine := ActionsOf(st.actions, {i});
      assert mine[0] in mine;
    }
  }

  /** In every reachable state an active or waiting goal waits if and only if the missing fact that comes first
      needs a signal and the catalogue says how it is resolved; it has then exactly one pending action, that one. */
  lemma WaitsForTheFirst(cat: Catalogue, rank: map<string, nat>, turns: seq<Turn>, i: nat)
    requires Ranked(cat, rank) && Valid(cat) && i < |Run(cat, turns).goals|
    requires Run(cat, turns).goals[i].status in {ACTIVE, WAITING}
    ensures WaitsIffBlocked(cat, Run(cat, turns), i)
  {
    WaitingIsAGap(cat, rank, turns, i);
    WaitsForGapIs(cat, Run(cat, turns), i);
  }

  /** A question of a goal that begins to wait leaves the foreground if it can no longer be asked: it is parked. */
  lemma WaitingParks(cat: Catalogue, st: Conversation, k: nat)
    requires k < |st.goals|
    ensures var r := SyncGoal(cat, st, k);
            var waits := st.goals[k].status in {ACTIVE, WAITING} && exists b :: BlockedBy(cat, st, k, b);
            if waits && st.pending.Some? && st.pending.value.goalId == k
               && forall m | Asks(cat, st, k, m) :: m.code != st.pending.value.fact
            then r.pending.None? && r.parked == st.parked + [st.pending.value]
            else r.pending == st.pending && r.parked == st.parked
  {
    BlockingIs(cat, st, k);
    var blocking := Blocking(cat, st.facts, st.goals, k);
    if blocking.Some? && st.goals[k].status in {ACTIVE, WAITING} && st.pending.Some?
       && st.pending.value.goalId == k {
      var next := st.(
        goals := st.goals[k := st.goals[k].(status := WAITING, reason := Some("AWAITING:" + blocking.value.action))],
        actions := Await(st.actions, k, blocking.value, st.seqNo));
      StillValidIs(cat, next, st.pending.value);
      MissingSame(cat, st, next, k);
      assert BlockedBy(cat, st, k, blocking.value);
    }
  }

  lemma MissingSame(cat: Catalogue, a: Conversation, b: Conversation, k: nat)
    requires k < |a.goals| && k < |b.goals| && b.facts == a.facts
    requires a.goals[k].code == b.goals[k].code && a.goals[k].caseId == b.goals[k].caseId
    ensures MissingFacts(cat, a.facts, a.goals, k) == MissingFacts(cat, b.facts, b.goals, k)
  {
  }
}
