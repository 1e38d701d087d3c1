/** When a conversation rests, every relation that applies to a goal has had its effects. */
module RelationsAtRest {
  import opened Basics
  import opened Catalog
  import opened State
  import opened Reducer
  import opened Settled
  import opened Reachable
  import opened Clearance
  import opened Completion

  /** The goal is the subflow that the relation opens in this case, and it was not made superfluous since. */
  predicate IsSubflow(g: GoalRecord, code: string, relation: string, caseId: Option<nat>) {
    && g.code == code && g.createdBy == Some(relation) && g.caseId == caseId
    && !(g.status == ABANDONED
         && (g.reason == Some("DEPENDENCY_SATISFIED") || g.reason == Some("DEPENDENCY_REMOVED")))
  }

  /** What the effect asks for holds of goal gi. */
  ghost predicate Achieved(cat: Catalogue, st: Conversation, gi: nat, e: Effect, relation: string)
    requires gi < |st.goals|
  {
    var o, g := OwnerOf(st.goals, gi), st.goals[gi];
    match e
    case AssertDerived(code, value, _) =>
      exists n: nat :: Oldest(cat, st.facts, o, code, n) && st.facts[n].value == value
    case RecordSystem(code, value, _, _) =>
      exists n: nat :: Oldest(cat, st.facts, o, code, n) && st.facts[n].value == value
    case PushGoal(code, _, _) => code in st.forbidden || exists h <- st.goals :: IsSubflow(h, code, relation, g.caseId)
    case SetStatus(status, _) => g.status == status || g.status == RESOLVED || g.status == ABANDONED
    case RequireAction(action, _) => exists x <- st.actions :: x.action == action && x.goalId == gi
    case SatisfyDependency(dependency, _) =>
      forall h <- st.goals :: h.code == dependency && h.caseId == g.caseId ==> h.status in {RESOLVED, ABANDONED}
    case NoEffect => true
  }

  /** The relation applies to goal gi. */
  ghost predicate Applies(cat: Catalogue, st: Conversation, r: Relation, gi: nat) {
    && r.when.Some? && gi < |st.goals|
    && st.goals[gi].code == r.when.value.goalCode && st.goals[gi].status in r.when.value.statuses
    && AllMet(cat, st.facts, OwnerOf(st.goals, gi), r.when.value.conditions)
  }

  ghost predicate AllAchieved(cat: Catalogue, st: Conversation, r: Relation) {
    forall gi: nat, e | Applies(cat, st, r, gi) && e in r.effects :: Achieved(cat, st, gi, e, r.code)
  }

  // ----- a pass that changes nothing finds it all achieved -----

  lemma {:induction false} NothingAbandoned(
    goals: seq<GoalRecord>, dependency: string, caseId: Option<nat>, why: string, now: nat, k: nat)
    requires k <= |goals| && !AbandonFrom(goals, dependency, caseId, why, now, k, false).1
    ensures forall i | k <= i < |goals| :: !Abandons(goals[i], dependency, caseId)
    decreases |goals| - k
  {
    if k < |goals| {
      NothingAbandoned(goals, dependency, caseId, why, now, k + 1);
    }
  }

  lemma HeldIsOldest(cat: Catalogue, facts: seq<FactRecord>, o: Owner, code: string, value: Value)
    requires AlreadyHolds(cat, facts, o, code, value)
    ensures exists n: nat :: Oldest(cat, facts, o, code, n) && facts[n].value == value
  {
    LiveIsOldest(cat, facts, o, code);
    var n := Live(cat, facts, KeyFor(cat, code, o))[0];
    assert Oldest(cat, facts, o, code, n);
  }

  lemma EffectIsAchieved(cat: Catalogue, st: Conversation, gi: nat, e: Effect, relation: string, next: Step)
    requires gi < |st.goals| && ApplyEffect(cat, st, gi, e, relation) == Ok(next) && !next.changed
    ensures Achieved(cat, st, gi, e, relation)
  {
    var o := OwnerOf(st.goals, gi);
    match e
    case AssertDerived(code, value, _) => HeldIsOldest(cat, st.facts, o, code, value);
    case RecordSystem(code, value, _, _) => HeldIsOldest(cat, st.facts, o, code, value);
    case PushGoal(code, _, _) =>
      if code !in st.forbidden {
        var i :| 0 <= i < |st.goals| && st.goals[i].code == code && st.goals[i].createdBy == Some(relation)
          && st.goals[i].caseId == st.goals[gi].caseId && !Recalculable(st.goals[i]);
        assert st.goals[i] in st.goals;
      }
    case RequireAction(action, _) =>
      var i :| 0 <= i < |st.actions| && st.actions[i].action == action && st.actions[i].goalId == gi;
      assert st.actions[i] in st.actions;
    case SatisfyDependency(dependency, why) =>
      NothingAbandoned(st.goals, dependency, st.goals[gi].caseId, why, st.seqNo, 0);
      forall h <- st.goals
        ensures h.code == dependency && h.caseId == st.goals[gi].caseId ==> h.status in {RESOLVED, ABANDONED}
      {
        var i :| 0 <= i < |st.goals| && st.goals[i] == h;
        assert !Abandons(st.goals[i], dependency, st.goals[gi].caseId);
        assert h.status !in OPEN ==> h.status.RESOLVED? || h.status.ABANDONED?;
      }
    case _ =>
  }

  lemma {:induction false} SomethingAbandoned(
    goals: seq<GoalRecord>, dependency: string, caseId: Option<nat>, why: string, now: nat, k: nat)
    requires k <= |goals| && AbandonFrom(goals, dependency, caseId, why, now, k, false).1
    ensures exists i | k <= i < |goals| :: Abandons(goals[i], dependency, caseId)
    decreases |goals| - k
  {
    if !Abandons(goals[k], dependency, caseId) {
      SomethingAbandoned(goals, dependency, caseId, why, now, k + 1);
    }
  }

  lemma HeldByOldest(cat: Catalogue, facts: seq<FactRecord>, o: Owner, code: string, value: Value)
    requires exists n: nat :: Oldest(cat, facts, o, code, n) && facts[n].value == value
    ensures AlreadyHolds(cat, facts, o, code, value)
  {
    LiveIsOldest(cat, facts, o, code);
  }

  /** An effect that is achieved is left alone. */
  lemma AchievedIsLeft(cat: Catalogue, st: Conversation, gi: nat, e: Effect, relation: string, next: Step)
    requires gi < |st.goals| && ApplyEffect(cat, st, gi, e, relation) == Ok(next)
    requires Achieved(cat, st, gi, e, relation)
    ensures !next.changed
  {
    var o := OwnerOf(st.goals, gi);
    match e
    case AssertDerived(code, value, _) => HeldByOldest(cat, st.facts, o, code, value);
    case RecordSystem(code, value, _, _) => HeldByOldest(cat, st.facts, o, code, value);
    case PushGoal(code, _, _) =>
      if code !in st.forbidden {
        var h :| h in st.goals && IsSubflow(h, code, relation, st.goals[gi].caseId);
        var i :| 0 <= i < |st.goals| && st.goals[i] == h;
        assert !Recalculable(st.goals[i]);
      }
    case RequireAction(action, _) =>
      var x :| x in st.actions && x.action == action && x.goalId == gi;
      var i :| 0 <= i < |st.actions| && st.actions[i] == x;
    case SatisfyDependency(dependency, why) =>
      if next.changed {
        SomethingAbandoned(st.goals, dependency, st.goals[gi].caseId, why, st.seqNo, 0);
      }
    case _ =>
  }

  lemma {:induction false} EffectsAreAchieved(
    cat: Catalogue, st: Conversation, gi: nat, effects: seq<Effect>, relation: string, last: Step)
    requires gi < |st.goals| && ApplyEffects(cat, st, gi, effects, relation, false) == Ok(last) && !last.changed
    ensures last.st == st && forall e <- effects :: Achieved(cat, st, gi, e, relation)
    decreases |effects|
  {
    if effects != [] {
      var next := ApplyEffect(cat, st, gi, effects[0], relation).value;
      assert !next.changed;
      EffectIsAchieved(cat, st, gi, effects[0], relation, next);
      EffectsAreAchieved(cat, st, gi, effects[1..], relation, last);
    }
  }

  lemma {:induction false} TargetsAre(goals: seq<GoalRecord>, w: When, k: nat)
    requires k <= |goals|
    ensures forall i: nat :: i in TargetsFrom(goals, w, k) <==>
              k <= i < |goals| && goals[i].code == w.goalCode && goals[i].status in w.statuses
    decreases |goals| - k
  {
    if k < |goals| {
      TargetsAre(goals, w, k + 1);
    }
  }

  lemma {:induction false} TargetsAreAchieved(
    cat: Catalogue, st: Conversation, rel: Relation, w: When, targets: seq<nat>, last: Step)
    requires forall x | 0 <= x < |targets| :: targets[x] < |st.goals|
    requires ApplyTargets(cat, st, rel, w, targets, false) == Ok(last) && !last.changed
    ensures last.st == st
    ensures forall gi, e | gi in targets && e in rel.effects
              && AllMet(cat, st.facts, OwnerOf(st.goals, gi), w.conditions) :: Achieved(cat, st, gi, e, rel.code)
    decreases |targets|
  {
    if targets != [] {
      ConditionsAreMet(cat, st.facts, OwnerOf(st.goals, targets[0]), w.conditions);
      if ConditionsHold(cat, st.facts, OwnerOf(st.goals, targets[0]), w.conditions) {
        var next := ApplyEffects(cat, st, targets[0], rel.effects, rel.code, false).value;
        assert !next.changed;
        EffectsAreAchieved(cat, st, targets[0], rel.effects, rel.code, next);
      }
      TargetsAreAchieved(cat, st, rel, w, targets[1..], last);
    }
  }

  lemma {:induction false} RelationsAreAchieved(cat: Catalogue, st: Conversation, k: nat, last: Step)
    requires k <= |cat.relations| && RelationsFrom(cat, st, k, false) == Ok(last) && !last.changed
    ensures last.st == st && forall x | k <= x < |cat.relations| :: AllAchieved(cat, st, cat.relations[x])
    decreases |cat.relations| - k
  {
    if k < |cat.relations| {
      var rel := cat.relations[k];
      if rel.when.Some? {
        var targets := TargetsFrom(st.goals, rel.when.value, 0);
        var next := ApplyTargets(cat, st, rel, rel.when.value, targets, false).value;
        assert !next.changed;
        TargetsAre(st.goals, rel.when.value, 0);
        TargetsAreAchieved(cat, st, rel, rel.when.value, targets, next);
      }
      RelationsAreAchieved(cat, st, k + 1, last);
    }
  }

  ghost predicate RelationsKept(cat: Catalogue, st: Conversation) {
    forall r <- cat.relations :: AllAchieved(cat, st, r)
  }

  lemma StillPassKeeps(cat: Catalogue, st: Conversation, next: Step)
    requires Pass(cat, st) == Ok(next) && !next.changed
    ensures RelationsKept(cat, next.st)
  {
    var related := RelationsFrom(cat, st, 0, false).value;
    assert !related.changed;
    RelationsAreAchieved(cat, st, 0, related);
    NothingResolved(cat, related.st, |related.st.goals|, next);
  }

  lemma {:induction false} EvaluationKeeps(cat: Catalogue, st: Conversation, fuel: nat, last: Conversation)
    requires Evaluate(cat, st, fuel) == Ok(last)
    ensures RelationsKept(cat, last)
    decreases fuel
  {
    var next := Pass(cat, st).value;
    if next.changed {
      EvaluationKeeps(cat, next.st, fuel - 1, last);
    } else {
      StillPassKeeps(cat, st, next);
    }
  }

  /** Two lists of goals that differ in who is active and who waits only. */
  ghost predicate UpToWaiting(a: seq<GoalRecord>, b: seq<GoalRecord>) {
    && |a| == |b|
    && forall i | 0 <= i < |a| ::
         || b[i] == a[i]
         || (a[i].status in {ACTIVE, WAITING} && b[i].status in {ACTIVE, WAITING}
             && b[i] == a[i].(status := b[i].status, reason := b[i].reason))
  }

  lemma SyncGoalUpToWaiting(cat: Catalogue, st: Conversation, gi: nat)
    requires gi < |st.goals|
    ensures UpToWaiting(st.goals, SyncGoal(cat, st, gi).goals)
  {
    SyncGoalIs(cat, st, gi);
  }

  lemma UpToWaitingChain(a: seq<GoalRecord>, b: seq<GoalRecord>, c: seq<GoalRecord>)
    requires UpToWaiting(a, b) && UpToWaiting(b, c)
    ensures UpToWaiting(a, c)
  {
  }

  lemma {:induction false} SyncUpToWaiting(cat: Catalogue, st: Conversation, k: nat)
    requires k <= |st.goals|
    ensures UpToWaiting(st.goals, SyncFrom(cat, st, k).goals)
    decreases |st.goals| - k
  {
    if k < |st.goals| {
      var next := SyncGoal(cat, st, k);
      SyncGoalUpToWaiting(cat, st, k);
      SyncUpToWaiting(cat, next, k + 1);
      UpToWaitingChain(st.goals, next.goals, SyncFrom(cat, next, k + 1).goals);
    }
  }

  /** In every reachable state the relations are kept, as far as the facts and the goals go: they are in a state with
      the same facts and the same goals, but for which of these are active and which wait for a signal. */
  lemma RelationsAreKept(cat: Catalogue, rank: map<string, nat>, turns: seq<Turn>) returns (before: Conversation)
    requires Valid(cat) && Ranked(cat, rank)
    ensures RelationsKept(cat, before) && before.facts == Run(cat, turns).facts
    ensures UpToWaiting(before.goals, Run(cat, turns).goals)
  {
    RunsRest(cat, rank, turns, ROUNDS);
    before := RestedKeeps(cat, rank, Run(cat, turns), ROUNDS);
  }

  lemma RestedKeeps(cat: Catalogue, rank: map<string, nat>, st: Conversation, limit: nat) returns (before: Conversation)
    requires Rested(cat, rank, st, limit)
    ensures RelationsKept(cat, before) && before.facts == st.facts && UpToWaiting(before.goals, st.goals)
  {
    var n: nat :| RestedAt(cat, rank, st, n, limit);
    before := FixedKeeps(cat, st.(seqNo := n), limit);
  }

  lemma FixedKeeps(cat: Catalogue, st: Conversation, limit: nat) returns (before: Conversation)
    requires Fixed(cat, st, limit)
    ensures RelationsKept(cat, before) && before.facts == st.facts && UpToWaiting(before.goals, st.goals)
  {
    before := Evaluate(cat, st, limit).value;
    EvaluationKeeps(cat, st, limit, before);
    SyncUpToWaiting(cat, before, 0);
  }
}
