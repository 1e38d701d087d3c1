/**
 What a settled state looks like: one more round changes nothing, and a goal
 waits exactly while its best missing fact is an authoritative gap.
 */
module Settled {
  import opened Basics
  import opened Catalog
  import opened State
  import opened Reducer
  import opened Moves

  // ----- settling does not look at the questions -----

  /** The same state with other questions. */
  function Asking(st: Conversation, p: Option<QuestionRef>, q: seq<QuestionRef>): Conversation {
    st.(pending := p, parked := q)
  }

  function AskingStep(r: Result<Step, Refusal>, p: Option<QuestionRef>, q: seq<QuestionRef>): Result<Step, Refusal> {
    if r.Ok? then Ok(Step(Asking(r.value.st, p, q), r.value.changed)) else r
  }

  function AskingState(r: Outcome, p: Option<QuestionRef>, q: seq<QuestionRef>): Outcome {
    if r.Ok? then Ok(Asking(r.value, p, q)) else r
  }

  lemma EffectIgnores(
    cat: Catalogue, st: Conversation, gi: nat, e: Effect, relation: string, p: Option<QuestionRef>, q: seq<QuestionRef>)
    requires gi < |st.goals|
    ensures ApplyEffect(cat, Asking(st, p, q), gi, e, relation)
        == AskingStep(ApplyEffect(cat, st, gi, e, relation), p, q)
  {
  }

  lemma {:induction false} EffectsIgnore(
    cat: Catalogue, st: Conversation, gi: nat, effects: seq<Effect>, relation: string, changed: bool,
    p: Option<QuestionRef>, q: seq<QuestionRef>)
    requires gi < |st.goals|
    ensures ApplyEffects(cat, Asking(st, p, q), gi, effects, relation, changed)
         == AskingStep(ApplyEffects(cat, st, gi, effects, relation, changed), p, q)
    decreases |effects|
  {
    if effects != [] {
      EffectIgnores(cat, st, gi, effects[0], relation, p, q);
      var s := ApplyEffect(cat, st, gi, effects[0], relation);
      if s.Ok? {
        EffectsIgnore(cat, s.value.st, gi, effects[1..], relation, changed || s.value.changed, p, q);
      }
    }
  }

  lemma {:induction false} TargetsIgnore(
    cat: Catalogue, st: Conversation, rel: Relation, w: When, targets: seq<nat>, changed: bool,
    p: Option<QuestionRef>, q: seq<QuestionRef>)
    requires forall x | 0 <= x < |targets| :: targets[x] < |st.goals|
    ensures ApplyTargets(cat, Asking(st, p, q), rel, w, targets, changed)
         == AskingStep(ApplyTargets(cat, st, rel, w, targets, changed), p, q)
    decreases |targets|
  {
    if targets != [] {
      if ConditionsHold(cat, st.facts, OwnerOf(st.goals, targets[0]), w.conditions) {
        EffectsIgnore(cat, st, targets[0], rel.effects, rel.code, false, p, q);
        var s := ApplyEffects(cat, st, targets[0], rel.effects, rel.code, false);
        if s.Ok? {
          TargetsIgnore(cat, s.value.st, rel, w, targets[1..], changed || s.value.changed, p, q);
        }
      } else {
        TargetsIgnore(cat, st, rel, w, targets[1..], changed, p, q);
      }
    }
  }

  lemma {:induction false} RelationsIgnore(
    cat: Catalogue, st: Conversation, k: nat, changed: bool, p: Option<QuestionRef>, q: seq<QuestionRef>)
    requires k <= |cat.relations|
    ensures RelationsFrom(cat, Asking(st, p, q), k, changed) == AskingStep(RelationsFrom(cat, st, k, changed), p, q)
    decreases |cat.relations| - k
  {
    if k < |cat.relations| {
      if cat.relations[k].when.None? {
        RelationsIgnore(cat, st, k + 1, changed, p, q);
      } else {
        var w := cat.relations[k].when.value;
        var targets := TargetsFrom(st.goals, w, 0);
        TargetsIgnore(cat, st, cat.relations[k], w, targets, changed, p, q);
        var s := ApplyTargets(cat, st, cat.relations[k], w, targets, changed);
        if s.Ok? {
          RelationsIgnore(cat, s.value.st, k + 1, s.value.changed, p, q);
        }
      }
    }
  }

  lemma TellIgnores(cat: Catalogue, st: Conversation, gi: nat, p: Option<QuestionRef>, q: seq<QuestionRef>)
    requires gi < |st.goals|
    ensures Tell(cat, Asking(st, p, q), gi) == AskingState(Tell(cat, st, gi), p, q)
  {
    var g := st.goals[gi];
    var relation := if g.createdBy.Some? then FindRelation(cat.relations, g.createdBy.value) else None;
    if relation.Some? && g.parent.Some? && g.parent.value < |st.goals| {
      EffectsIgnore(cat, st, g.parent.value, relation.value.onChildResolved, relation.value.code, false, p, q);
    }
  }

  lemma ResolveOneIgnores(cat: Catalogue, st: Conversation, gi: nat, p: Option<QuestionRef>, q: seq<QuestionRef>)
    requires gi < |st.goals|
    ensures ResolveOne(cat, Asking(st, p, q), gi) == AskingState(ResolveOne(cat, st, gi), p, q)
  {
    TellIgnores(cat, MarkResolved(st, gi), gi, p, q);
  }

  lemma ResolveAtIgnores(cat: Catalogue, st: Conversation, gi: nat, p: Option<QuestionRef>, q: seq<QuestionRef>)
    requires gi < |st.goals|
    ensures ResolveAt(cat, Asking(st, p, q), gi) == AskingStep(ResolveAt(cat, st, gi), p, q)
  {
    ResolveOneIgnores(cat, st, gi, p, q);
  }

  lemma {:induction false} ResolveIgnores(
    cat: Catalogue, st: Conversation, n: nat, changed: bool, p: Option<QuestionRef>, q: seq<QuestionRef>)
    requires n <= |st.goals|
    ensures ResolveFrom(cat, Asking(st, p, q), n, changed) == AskingStep(ResolveFrom(cat, st, n, changed), p, q)
    decreases n
  {
    if n > 0 {
      ResolveAtIgnores(cat, st, n - 1, p, q);
      ResolveFromStep(cat, st, n, changed);
      ResolveFromStep(cat, Asking(st, p, q), n, changed);
      var s := ResolveAt(cat, st, n - 1);
      if s.Ok? {
        ResolveIgnores(cat, s.value.st, n - 1, changed || s.value.changed, p, q);
      }
    }
  }

  lemma PassIgnores(cat: Catalogue, st: Conversation, p: Option<QuestionRef>, q: seq<QuestionRef>)
    ensures Pass(cat, Asking(st, p, q)) == AskingStep(Pass(cat, st), p, q)
  {
    RelationsIgnore(cat, st, 0, false, p, q);
    var s := RelationsFrom(cat, st, 0, false);
    if s.Ok? {
      ResolveIgnores(cat, s.value.st, |s.value.st.goals|, s.value.changed, p, q);
    }
  }

  lemma {:induction false} EvaluateIgnores(
    cat: Catalogue, st: Conversation, fuel: nat, p: Option<QuestionRef>, q: seq<QuestionRef>)
    ensures Evaluate(cat, Asking(st, p, q), fuel) == AskingState(Evaluate(cat, st, fuel), p, q)
    decreases fuel
  {
    if fuel > 0 {
      PassIgnores(cat, st, p, q);
      var t := Pass(cat, st);
      if t.Ok? && t.value.changed {
        EvaluateIgnores(cat, t.value.st, fuel - 1, p, q);
      }
    }
  }

  /** Two states that differ in their questions only. */
  ghost predicate Alike(a: Conversation, b: Conversation) {
    b == Asking(a, b.pending, b.parked)
  }

  lemma {:induction false} SyncIgnores(cat: Catalogue, a: Conversation, b: Conversation, k: nat)
    requires k <= |a.goals| && Alike(a, b)
    ensures Alike(SyncFrom(cat, a, k), SyncFrom(cat, b, k))
    decreases |a.goals| - k
  {
    if k < |a.goals| {
      SyncIgnores(cat, SyncGoal(cat, a, k), SyncGoal(cat, b, k), k + 1);
    }
  }

  lemma RoundIgnores(cat: Catalogue, a: Conversation, b: Conversation, limit: nat)
    requires Alike(a, b)
    ensures Round(cat, a, limit).Ok? <==> Round(cat, b, limit).Ok?
    ensures Round(cat, a, limit).Ok? ==> Alike(Round(cat, a, limit).value, Round(cat, b, limit).value)
  {
    EvaluateIgnores(cat, a, limit, b.pending, b.parked);
    var r := Evaluate(cat, a, limit);
    if r.Ok? {
      SyncIgnores(cat, r.value, Asking(r.value, b.pending, b.parked), 0);
    }
  }

  // ----- the fixpoint -----

  /** One more round leaves goals, facts and pending actions as they are. */
  ghost predicate Fixed(cat: Catalogue, st: Conversation, limit: nat) {
    Round(cat, st, limit).Ok? && SameCore(st, Round(cat, st, limit).value)
  }

  lemma FixedIgnores(cat: Catalogue, a: Conversation, b: Conversation, limit: nat)
    requires Alike(a, b) && Fixed(cat, a, limit)
    ensures Fixed(cat, b, limit)
  {
    RoundIgnores(cat, a, b, limit);
  }

  lemma {:induction false} RoundsEndFixed(cat: Catalogue, st: Conversation, limit: nat, fuel: nat)
    requires RoundsFrom(cat, st, limit, fuel).Ok?
    ensures Fixed(cat, RoundsFrom(cat, st, limit, fuel).value, limit)
    decreases fuel
  {
    var next := Round(cat, st, limit).value;
    if SameCore(st, next) {
      assert Alike(st, next);
      FixedIgnores(cat, st, next, limit);
    } else {
      RoundsEndFixed(cat, next, limit, fuel - 1);
    }
  }

  // ----- waiting is exactly an authoritative gap -----

  /** The pending actions of some goals. */
  function ActionsOf(actions: seq<PendingAction>, who: set<nat>): (r: seq<PendingAction>)
    ensures forall x | x in r :: x in actions && x.goalId in who
    ensures forall x | x in actions && x.goalId in who :: x in r
  {
    if actions == [] then []
    else
      var rest := ActionsOf(actions[1..], who);
      if actions[0].goalId in who then [actions[0]] + rest else rest
  }

  lemma {:induction false} ActionsOfUnique(actions: seq<PendingAction>, who: set<nat>)
    requires UniqueActions(actions)
    ensures UniqueActions(ActionsOf(actions, who))
  {
    if actions != [] {
      var rest := actions[1..];
      ActionsOfUnique(rest, who);
      var r := ActionsOf(rest, who);
      forall j | 0 <= j < |r|
        ensures actions[0].action != r[j].action || actions[0].goalId != r[j].goalId
      {
        assert r[j] in rest;
      }
    }
  }

  lemma {:induction false} ActionsOfAppend(actions: seq<PendingAction>, x: PendingAction, who: set<nat>)
    ensures ActionsOf(actions + [x], who) == ActionsOf(actions, who) + if x.goalId in who then [x] else []
  {
    if actions == [] {
      assert actions + [x] == [x];
    } else {
      ActionsOfAppend(actions[1..], x, who);
      assert (actions + [x])[1..] == actions[1..] + [x];
    }
  }

  lemma {:induction false} KeepOnlySpares(actions: seq<PendingAction>, gi: nat, action: Option<string>, who: set<nat>)
    requires gi !in who
    ensures ActionsOf(KeepOnly(actions, gi, action), who) == ActionsOf(actions, who)
  {
    if actions != [] {
      KeepOnlySpares(actions[1..], gi, action, who);
      var rest := KeepOnly(actions[1..], gi, action);
      assert ([actions[0]] + rest)[1..] == rest;
    }
  }

  lemma AwaitSpares(actions: seq<PendingAction>, gi: nat, r: Resolution, now: nat, who: set<nat>)
    requires gi !in who
    ensures ActionsOf(Await(actions, gi, r, now), who) == ActionsOf(actions, who)
  {
    KeepOnlySpares(actions, gi, Some(r.action), who);
    ActionsOfAppend(KeepOnly(actions, gi, Some(r.action)), PendingAction(r.action, r.executor, gi, now), who);
  }

  /** Waiting for r leaves the goal exactly one action, the one r names. */
  lemma AwaitIsOne(actions: seq<PendingAction>, gi: nat, r: Resolution, now: nat)
    requires UniqueActions(actions)
    ensures var mine := ActionsOf(Await(actions, gi, r, now), {gi});
            && |mine| == 1 && mine[0].action == r.action
            && (mine[0] in actions || mine[0] == PendingAction(r.action, r.executor, gi, now))
  {
    var kept := KeepOnly(actions, gi, Some(r.action));
    KeepOnlyIs(actions, gi, Some(r.action));
    var all := Await(actions, gi, r, now);
    var mine := ActionsOf(all, {gi});
    ActionsOfUnique(all, {gi});
    forall x | x in mine
      ensures x.action == r.action && x.goalId == gi
    {
      assert x in all;
    }
    var k :| 0 <= k < |all| && all[k].action == r.action && all[k].goalId == gi;
    assert all[k] in mine;
    var u, v := mine[0], mine[|mine| - 1];
    assert u in mine && v in mine;
  }

  /** Goal i waits iff an authoritative gap blocks it, with the one action for that gap. */
  ghost predicate WaitsForGap(cat: Catalogue, st: Conversation, i: nat)
    requires i < |st.goals|
  {
    var blocking := Blocking(cat, st.facts, st.goals, i);
    st.goals[i].status in {ACTIVE, WAITING} ==>
      && (st.goals[i].status == WAITING <==> blocking.Some?)
      && (blocking.Some? ==>
            var mine := ActionsOf(st.actions, {i});
            |mine| == 1 && mine[0].action == blocking.value.action)
  }

  /** What the gap check does to its goal and the actions. */
  lemma SyncGoalIs(cat: Catalogue, st: Conversation, k: nat)
    requires k < |st.goals|
    ensures var g := st.goals[k];
            var blocking := Blocking(cat, st.facts, st.goals, k);
            var r := SyncGoal(cat, st, k);
            if g.status !in {ACTIVE, WAITING} || (blocking.None? && g.status == ACTIVE) then r == st
            else if blocking.Some? then
              && r.goals == st.goals[k := g.(status := WAITING, reason := Some("AWAITING:" + blocking.value.action))]
              && r.actions == Await(st.actions, k, blocking.value, st.seqNo)
            else
              && r.goals == st.goals[k := g.(status := ACTIVE, reason := None)]
              && r.actions == KeepOnly(st.actions, k, None)
  {
  }

  lemma BlockingSame(cat: Catalogue, facts: seq<FactRecord>, a: seq<GoalRecord>, b: seq<GoalRecord>, i: nat)
    requires i < |a| && i < |b| && a[i].code == b[i].code && a[i].caseId == b[i].caseId
    ensures Blocking(cat, facts, a, i) == Blocking(cat, facts, b, i)
  {
  }

  lemma SyncGoalWaits(cat: Catalogue, st: Conversation, k: nat)
    requires k < |st.goals| && UniqueActions(st.actions)
    ensures WaitsForGap(cat, SyncGoal(cat, st, k), k)
  {
    var blocking := Blocking(cat, st.facts, st.goals, k);
    SyncGoalIs(cat, st, k);
    BlockingSame(cat, st.facts, st.goals, SyncGoal(cat, st, k).goals, k);
    if blocking.Some? {
      AwaitIsOne(st.actions, k, blocking.value, st.seqNo);
    }
  }

  lemma SyncGoalKeepsWaits(cat: Catalogue, st: Conversation, k: nat, i: nat)
    requires k < |st.goals| && i < |st.goals| && i != k && WaitsForGap(cat, st, i)
    ensures WaitsForGap(cat, SyncGoal(cat, st, k), i)
  {
    var blocking := Blocking(cat, st.facts, st.goals, k);
    SyncGoalIs(cat, st, k);
    BlockingSame(cat, st.facts, st.goals, SyncGoal(cat, st, k).goals, i);
    KeepOnlySpares(st.actions, k, None, {i});
    if blocking.Some? {
      AwaitSpares(st.actions, k, blocking.value, st.seqNo, {i});
    }
  }

  ghost predicate WaitForGaps(cat: Catalogue, st: Conversation, n: nat) {
    n <= |st.goals| && forall i | 0 <= i < n :: WaitsForGap(cat, st, i)
  }

  lemma {:induction false} SyncWaits(cat: Catalogue, st: Conversation, k: nat)
    requires k <= |st.goals| && UniqueActions(st.actions)
    requires WaitForGaps(cat, st, k)
    ensures WaitForGaps(cat, SyncFrom(cat, st, k), |st.goals|)
    decreases |st.goals| - k
  {
    if k < |st.goals| {
      var next := SyncGoal(cat, st, k);
      SyncActions(cat, st, k);
      SyncGoalWaits(cat, st, k);
      forall i | 0 <= i < k
        ensures WaitsForGap(cat, next, i)
      {
        SyncGoalKeepsWaits(cat, st, k, i);
      }
      SyncWaits(cat, next, k + 1);
    }
  }
}
