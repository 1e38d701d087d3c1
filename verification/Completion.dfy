/** Nothing that is complete stays open: the other half of the law that only complete goals resolve. */
module Completion {
  import opened Basics
  import opened Catalog
  import opened State
  import opened Reducer
  import opened Settled
  import opened Reachable
  import opened Clearance

  /** No relation makes a goal wait; only the check for gaps does. */
  ghost predicate WaitsForGapsOnly(cat: Catalogue) {
    forall r, e | r in cat.relations && (e in r.effects || e in r.onChildResolved) :: QuietEffect(e)
  }

  predicate QuietEffect(e: Effect) {
    e.SetStatus? ==> e.status != WAITING
  }

  /** Who waits in b waited in a. */
  ghost predicate NoNewWait(a: seq<GoalRecord>, b: seq<GoalRecord>) {
    |a| <= |b| && forall i | 0 <= i < |b| && b[i].status == WAITING :: i < |a| && a[i].status == WAITING
  }

  lemma NoNewWaitChain(a: seq<GoalRecord>, b: seq<GoalRecord>, c: seq<GoalRecord>)
    requires NoNewWait(a, b) && NoNewWait(b, c)
    ensures NoNewWait(a, c)
  {
  }

  lemma {:induction false} AbandonWaits(
    goals: seq<GoalRecord>, dependency: string, caseId: Option<nat>, why: string, now: nat, k: nat, changed: bool)
    requires k <= |goals|
    ensures NoNewWait(goals, AbandonFrom(goals, dependency, caseId, why, now, k, changed).0)
    decreases |goals| - k
  {
    if k < |goals| {
      if Abandons(goals[k], dependency, caseId) {
        var next := AbandonOne(goals, k, why, now);
        AbandonWaits(next, dependency, caseId, why, now, k + 1, true);
        NoNewWaitChain(goals, next, AbandonFrom(next, dependency, caseId, why, now, k + 1, true).0);
      } else {
        AbandonWaits(goals, dependency, caseId, why, now, k + 1, changed);
      }
    }
  }

  lemma EffectWaits(cat: Catalogue, st: Conversation, gi: nat, e: Effect, relation: string, next: Step)
    requires gi < |st.goals| && QuietEffect(e) && ApplyEffect(cat, st, gi, e, relation) == Ok(next)
    ensures NoNewWait(st.goals, next.st.goals)
  {
    if e.SatisfyDependency? {
      AbandonWaits(st.goals, e.dependency, st.goals[gi].caseId, e.why, st.seqNo, 0, false);
    }
  }

  lemma {:induction false} EffectsWait(
    cat: Catalogue, st: Conversation, gi: nat, effects: seq<Effect>, relation: string, changed: bool, last: Step)
    requires gi < |st.goals| && forall e <- effects :: QuietEffect(e)
    requires ApplyEffects(cat, st, gi, effects, relation, changed) == Ok(last)
    ensures NoNewWait(st.goals, last.st.goals)
    decreases |effects|
  {
    if effects != [] {
      var next := ApplyEffect(cat, st, gi, effects[0], relation).value;
      EffectWaits(cat, st, gi, effects[0], relation, next);
      EffectsWait(cat, next.st, gi, effects[1..], relation, changed || next.changed, last);
      NoNewWaitChain(st.goals, next.st.goals, last.st.goals);
    }
  }

  lemma {:induction false} TargetsWait(
    cat: Catalogue, st: Conversation, rel: Relation, w: When, targets: seq<nat>, changed: bool, last: Step)
    requires forall x | 0 <= x < |targets| :: targets[x] < |st.goals|
    requires forall e <- rel.effects :: QuietEffect(e)
    requires ApplyTargets(cat, st, rel, w, targets, changed) == Ok(last)
    ensures NoNewWait(st.goals, last.st.goals)
    decreases |targets|
  {
    if targets != [] {
      if ConditionsHold(cat, st.facts, OwnerOf(st.goals, targets[0]), w.conditions) {
        var next := ApplyEffects(cat, st, targets[0], rel.effects, rel.code, false).value;
        EffectsWait(cat, st, targets[0], rel.effects, rel.code, false, next);
        TargetsWait(cat, next.st, rel, w, targets[1..], changed || next.changed, last);
        NoNewWaitChain(st.goals, next.st.goals, last.st.goals);
      } else {
        TargetsWait(cat, st, rel, w, targets[1..], changed, last);
      }
    }
  }

  lemma {:induction false} RelationsWait(cat: Catalogue, st: Conversation, k: nat, changed: bool, last: Step)
    requires WaitsForGapsOnly(cat) && k <= |cat.relations| && RelationsFrom(cat, st, k, changed) == Ok(last)
    ensures NoNewWait(st.goals, last.st.goals)
    decreases |cat.relations| - k
  {
    if k < |cat.relations| {
      var rel := cat.relations[k];
      if rel.when.None? {
        RelationsWait(cat, st, k + 1, changed, last);
      } else {
        var targets := TargetsFrom(st.goals, rel.when.value, 0);
        var next := ApplyTargets(cat, st, rel, rel.when.value, targets, changed).value;
        TargetsWait(cat, st, rel, rel.when.value, targets, changed, next);
        RelationsWait(cat, next.st, k + 1, next.changed, last);
        NoNewWaitChain(st.goals, next.st.goals, last.st.goals);
      }
    }
  }

  lemma ResolveOneWaits(cat: Catalogue, st: Conversation, gi: nat, next: Conversation)
    requires WaitsForGapsOnly(cat) && gi < |st.goals| && ResolveOne(cat, st, gi) == Ok(next)
    ensures NoNewWait(st.goals, next.goals)
  {
    var marked := MarkResolved(st, gi);
    var g := st.goals[gi];
    var relation := if g.createdBy.Some? then FindRelation(cat.relations, g.createdBy.value) else None;
    if relation.Some? && g.parent.Some? && g.parent.value < |st.goals| {
      var r := relation.value;
      var told := ApplyEffects(cat, marked, g.parent.value, r.onChildResolved, r.code, false).value;
      EffectsWait(cat, marked, g.parent.value, r.onChildResolved, r.code, false, told);
      NoNewWaitChain(st.goals, told.st.goals, next.goals);
    }
  }

  /** A resolution pass that reports no change found no active goal complete. */
  lemma {:induction false} NothingResolved(cat: Catalogue, st: Conversation, n: nat, last: Step)
    requires n <= |st.goals| && ResolveFrom(cat, st, n, false) == Ok(last) && !last.changed
    ensures last.st == st
    ensures forall i | 0 <= i < n && st.goals[i].status == ACTIVE :: !Complete(cat, st, i)
    decreases n
  {
    if n > 0 {
      ResolveFromStep(cat, st, n, false);
      var next := ResolveAt(cat, st, n - 1).value;
      assert !next.changed;
      NothingResolved(cat, st, n - 1, last);
    }
  }

  lemma ResolveAtWaits(cat: Catalogue, st: Conversation, gi: nat, next: Step)
    requires WaitsForGapsOnly(cat) && gi < |st.goals| && ResolveAt(cat, st, gi) == Ok(next)
    ensures NoNewWait(st.goals, next.st.goals)
  {
    if next.changed {
      ResolveOneWaits(cat, st, gi, next.st);
    }
  }

  lemma {:induction false} ResolveWaits(cat: Catalogue, st: Conversation, n: nat, changed: bool, last: Step)
    requires WaitsForGapsOnly(cat) && n <= |st.goals| && ResolveFrom(cat, st, n, changed) == Ok(last)
    ensures NoNewWait(st.goals, last.st.goals)
    decreases n
  {
    if n > 0 {
      var next := FirstResolution(cat, st, n, changed, last);
      ResolveAtWaits(cat, st, n - 1, next);
      ResolveWaits(cat, next.st, n - 1, changed || next.changed, last);
      NoNewWaitChain(st.goals, next.st.goals, last.st.goals);
    }
  }

  lemma PassWaits(cat: Catalogue, st: Conversation, last: Step)
    requires WaitsForGapsOnly(cat) && Pass(cat, st) == Ok(last)
    ensures NoNewWait(st.goals, last.st.goals)
  {
    var related := RelationsFrom(cat, st, 0, false).value;
    RelationsWait(cat, st, 0, false, related);
    ResolveWaits(cat, related.st, |related.st.goals|, related.changed, last);
    NoNewWaitChain(st.goals, related.st.goals, last.st.goals);
  }

  ghost predicate NoneComplete(cat: Catalogue, st: Conversation) {
    forall i | 0 <= i < |st.goals| && st.goals[i].status == ACTIVE :: !Complete(cat, st, i)
  }

  /** The evaluation of the relations ends when a whole pass changes nothing. */
  lemma {:induction false} EvaluationEnds(cat: Catalogue, st: Conversation, fuel: nat, last: Conversation)
    requires WaitsForGapsOnly(cat) && Evaluate(cat, st, fuel) == Ok(last)
    ensures NoneComplete(cat, last) && NoNewWait(st.goals, last.goals)
    decreases fuel
  {
    var next := Pass(cat, st).value;
    PassWaits(cat, st, next);
    if next.changed {
      EvaluationEnds(cat, next.st, fuel - 1, last);
      NoNewWaitChain(st.goals, next.st.goals, last.goals);
    } else {
      LastPassIsStill(cat, st, next);
    }
  }

  lemma LastPassIsStill(cat: Catalogue, st: Conversation, next: Step)
    requires Pass(cat, st) == Ok(next) && !next.changed
    ensures NoneComplete(cat, next.st)
  {
    var related := RelationsFrom(cat, st, 0, false).value;
    assert !related.changed;
    NothingResolved(cat, related.st, |related.st.goals|, next);
  }

  /** The check for gaps leaves the codes and the cases, and only turns active to waiting and back. */
  ghost predicate OnlyWaits(a: seq<GoalRecord>, b: seq<GoalRecord>) {
    && |a| == |b|
    && forall i | 0 <= i < |a| ::
         && b[i].code == a[i].code && b[i].caseId == a[i].caseId
         && (b[i].status == ACTIVE ==> a[i].status in {ACTIVE, WAITING})
  }

  lemma {:induction false} SyncOnlyWaits(cat: Catalogue, st: Conversation, k: nat)
    requires k <= |st.goals|
    ensures OnlyWaits(st.goals, SyncFrom(cat, st, k).goals)
    decreases |st.goals| - k
  {
    if k < |st.goals| {
      SyncOnlyWaits(cat, SyncGoal(cat, st, k), k + 1);
    }
  }

  lemma FixedIsIncomplete(cat: Catalogue, st: Conversation, limit: nat)
    requires WaitsForGapsOnly(cat) && Fixed(cat, st, limit)
    ensures NoneComplete(cat, st)
  {
    var last := Evaluate(cat, st, limit).value;
    EvaluationEnds(cat, st, limit, last);
    SyncOnlyWaits(cat, last, 0);
    forall i | 0 <= i < |st.goals| && st.goals[i].status == ACTIVE
      ensures !Complete(cat, st, i)
    {
      assert last.goals[i].status == ACTIVE;
      assert !Complete(cat, last, i);
    }
  }

  /** In every reachable state an active goal that does not wait for a handoff needs some code that is not
      cleared: as soon as all are, it is resolved. */
  lemma ActiveGoalsLackSomething(cat: Catalogue, rank: map<string, nat>, turns: seq<Turn>, i: nat)
    requires Valid(cat) && Ranked(cat, rank) && WaitsForGapsOnly(cat)
    requires i < |Run(cat, turns).goals| && Run(cat, turns).goals[i].status == ACTIVE
    requires !GoalOf(cat, Run(cat, turns).goals[i].code).explicitHandoff
    ensures var st := Run(cat, turns);
            exists code :: Needs(cat, st.goals, i, code) && !Cleared(cat, st.facts, OwnerOf(st.goals, i), code)
  {
    RunsRest(cat, rank, turns, ROUNDS);
    var st := Run(cat, turns);
    var n: nat :| RestedAt(cat, rank, st, n, ROUNDS);
    FixedIsIncomplete(cat, st.(seqNo := n), ROUNDS);
    assert !Complete(cat, st.(seqNo := n), i);
    MissingExactly(cat, st.facts, st.goals, i);
  }
}
