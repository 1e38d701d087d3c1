/** A goal is suspended for a subflow, and resumed with it: none is left suspended for nothing. */
module Subflows {
  import opened Basics
  import opened Catalog
  import opened State
  import opened Goals
  import opened Reducer
  import opened Moves
  import opened Runs
  import opened Reachable

  /** Relations suspend a goal only for a subflow that returns to it, and set no goal aside otherwise. */
  ghost predicate SuspendsForSubflows(cat: Catalogue) {
    forall r, e | r in cat.relations && (e in r.effects || e in r.onChildResolved) :: Orderly(e)
  }

  predicate Orderly(e: Effect) {
    && (e.PushGoal? && e.suspendParent ==> e.returnToParent)
    && (e.SetStatus? ==> e.status in {ACTIVE, WAITING})
  }

  /** Goal c is a subflow that goal p is suspended for: it returns to p, and is open or was left by the citizen. */
  predicate HoldsUp(goals: seq<GoalRecord>, p: nat, c: nat) {
    && c < |goals| && goals[c].parent == Some(p) && goals[c].returnToParent
    && (|| goals[c].status in {ACTIVE, SUSPENDED, WAITING}
        || (goals[c].status == ABANDONED && goals[c].reason == Some("USER_ABANDONED")))
  }

  ghost predicate HeldUp(goals: seq<GoalRecord>, p: nat) {
    exists c: nat :: HoldsUp(goals, p, c)
  }

  /** Each suspended goal but those of the set is held up by a subflow. */
  ghost predicate NoneStranded(goals: seq<GoalRecord>, but: set<nat>) {
    forall p: nat | p < |goals| && goals[p].status == SUSPENDED && p !in but :: HeldUp(goals, p)
  }

  /** What may happen to goals so that who held up a goal still does: in b goal c is open if it was in a. */
  ghost predicate StaysOpen(g: GoalRecord, h: GoalRecord) {
    && h.parent == g.parent && h.returnToParent == g.returnToParent
    && (g.status in {ACTIVE, SUSPENDED, WAITING} ==>
          || h.status in {ACTIVE, SUSPENDED, WAITING}
          || (h.status == ABANDONED && h.reason == Some("USER_ABANDONED")))
    && (g.status == ABANDONED && g.reason == Some("USER_ABANDONED") ==>
          || h.status in {ACTIVE, SUSPENDED, WAITING}
          || (h.status == ABANDONED && h.reason == Some("USER_ABANDONED")))
  }

  /** The goals of a stay open but for c, and the goals that are suspended in b were so in a or are held up. */
  ghost predicate Follows(a: seq<GoalRecord>, b: seq<GoalRecord>, c: set<nat>) {
    && |a| <= |b|
    && (forall i: nat | i < |a| && i !in c :: StaysOpen(a[i], b[i]))
    && (forall i: nat | i < |b| && b[i].status == SUSPENDED ::
          (i < |a| && a[i].status == SUSPENDED) || HeldUp(b, i))
  }

  /** Goals keep their parents, and whether they return to them. */
  ghost predicate Rooted(a: seq<GoalRecord>, b: seq<GoalRecord>) {
    |a| <= |b| && forall i | 0 <= i < |a| :: b[i].parent == a[i].parent && b[i].returnToParent == a[i].returnToParent
  }

  lemma FollowsKeeps(a: seq<GoalRecord>, b: seq<GoalRecord>, but: set<nat>)
    requires NoneStranded(a, but) && Follows(a, b, {})
    ensures NoneStranded(b, but)
  {
    forall p: nat | p < |b| && b[p].status == SUSPENDED && p !in but
      ensures HeldUp(b, p)
    {
      if p < |a| && a[p].status == SUSPENDED {
        var c: nat :| HoldsUp(a, p, c);
        assert StaysOpen(a[c], b[c]);
        assert HoldsUp(b, p, c);
      }
    }
  }

  /** One goal is closed: at most its parent is stranded. */
  lemma ClosingStrands(a: seq<GoalRecord>, b: seq<GoalRecord>, c: nat, but: set<nat>)
    requires c < |a| && NoneStranded(a, but) && Follows(a, b, {c})
    requires b[c].parent == a[c].parent && b[c].returnToParent == a[c].returnToParent
    ensures NoneStranded(b, but + if a[c].parent.Some? && a[c].returnToParent then {a[c].parent.value} else {})
  {
    forall p: nat | p < |b| && b[p].status == SUSPENDED && p !in but
        && !(a[c].parent == Some(p) && a[c].returnToParent)
      ensures HeldUp(b, p)
    {
      if p < |a| && a[p].status == SUSPENDED {
        var d: nat :| HoldsUp(a, p, d);
        assert StaysOpen(a[d], b[d]);
        assert HoldsUp(b, p, d);
      }
    }
  }

  /** Resuming the parent of a closed goal leaves it no longer suspended. */
  lemma ResumeRescues(goals: seq<GoalRecord>, c: nat, but: set<nat>)
    requires c < |goals|
    requires NoneStranded(goals,
               but + if goals[c].parent.Some? && goals[c].returnToParent then {goals[c].parent.value} else {})
    ensures NoneStranded(Resume(goals, c), but)
  {
    var r := Resume(goals, c);
    assert Follows(goals, r, {});
    FollowsKeeps(goals, r,
      but + if goals[c].parent.Some? && goals[c].returnToParent then {goals[c].parent.value} else {});
  }

  lemma AbandonOneRescues(goals: seq<GoalRecord>, k: nat, why: string, now: nat, but: set<nat>)
    requires k < |goals| && NoneStranded(goals, but)
    ensures NoneStranded(AbandonOne(goals, k, why, now), but)
  {
    var closed := goals[k := goals[k].(status := ABANDONED, reason := Some(why), closedAt := Some(now))];
    ClosingStrands(goals, closed, k, but);
    ResumeRescues(closed, k, but);
  }

  lemma {:induction false} AbandonRescues(
    goals: seq<GoalRecord>, dependency: string, caseId: Option<nat>, why: string, now: nat, k: nat, changed: bool,
    but: set<nat>)
    requires k <= |goals| && NoneStranded(goals, but)
    ensures NoneStranded(AbandonFrom(goals, dependency, caseId, why, now, k, changed).0, but)
    decreases |goals| - k
  {
    if k < |goals| {
      if Abandons(goals[k], dependency, caseId) {
        AbandonOneRescues(goals, k, why, now, but);
        AbandonRescues(AbandonOne(goals, k, why, now), dependency, caseId, why, now, k + 1, true, but);
      } else {
        AbandonRescues(goals, dependency, caseId, why, now, k + 1, changed, but);
      }
    }
  }

  lemma PushHolds(cat: Catalogue, st: Conversation, code: string, opts: PushOptions, next: Conversation, but: set<nat>)
    requires Push(cat, st, code, opts) == Ok(next) && NoneStranded(st.goals, but)
    requires opts.suspendParent ==> opts.returnToParent
    ensures NoneStranded(next.goals, but)
  {
    var n := |st.goals|;
    forall i: nat | i < |next.goals| && next.goals[i].status == SUSPENDED
      ensures (i < n && st.goals[i].status == SUSPENDED) || HeldUp(next.goals, i)
    {
      if !(i < n && st.goals[i].status == SUSPENDED) {
        assert HoldsUp(next.goals, i, n);
      }
    }
    FollowsKeeps(st.goals, next.goals, but);
  }

  lemma AbandonIsRooted(
    goals: seq<GoalRecord>, dependency: string, caseId: Option<nat>, why: string, now: nat)
    ensures Rooted(goals, AbandonFrom(goals, dependency, caseId, why, now, 0, false).0)
  {
    AbandonIsQuiet(goals, dependency, caseId, why, now, 0, false);
    var r := AbandonFrom(goals, dependency, caseId, why, now, 0, false).0;
    forall i | 0 <= i < |goals|
      ensures r[i].parent == goals[i].parent && r[i].returnToParent == goals[i].returnToParent
    {
      assert Quiet(goals[i], r[i]);
    }
  }

  lemma EffectHolds(
    cat: Catalogue, st: Conversation, gi: nat, e: Effect, relation: string, next: Step, but: set<nat>)
    requires gi < |st.goals| && Orderly(e) && ApplyEffect(cat, st, gi, e, relation) == Ok(next)
    requires NoneStranded(st.goals, but)
    ensures NoneStranded(next.st.goals, but) && Rooted(st.goals, next.st.goals)
  {
    match e
    case PushGoal(code, suspendParent, returnToParent) =>
      if next.changed {
        PushHolds(cat, st, code,
          PushOptions(Some(gi), suspendParent, returnToParent, Some(relation), None, None, st.goals[gi].caseId),
          next.st, but);
      }
    case SatisfyDependency(dependency, why) =>
      AbandonRescues(st.goals, dependency, st.goals[gi].caseId, why, st.seqNo, 0, false, but);
      AbandonIsRooted(st.goals, dependency, st.goals[gi].caseId, why, st.seqNo);
    case SetStatus(_, _) => StatusHolds(cat, st, gi, e, relation, next, but);
    case _ =>
  }

  lemma StatusHolds(
    cat: Catalogue, st: Conversation, gi: nat, e: Effect, relation: string, next: Step, but: set<nat>)
    requires gi < |st.goals| && e.SetStatus? && Orderly(e) && ApplyEffect(cat, st, gi, e, relation) == Ok(next)
    requires NoneStranded(st.goals, but)
    ensures NoneStranded(next.st.goals, but)
  {
    assert Follows(st.goals, next.st.goals, {});
    FollowsKeeps(st.goals, next.st.goals, but);
  }

  lemma {:induction false} EffectsHold(
    cat: Catalogue, st: Conversation, gi: nat, effects: seq<Effect>, relation: string, changed: bool, last: Step,
    but: set<nat>)
    requires gi < |st.goals| && forall e <- effects :: Orderly(e)
    requires ApplyEffects(cat, st, gi, effects, relation, changed) == Ok(last)
    requires NoneStranded(st.goals, but)
    ensures NoneStranded(last.st.goals, but) && Rooted(st.goals, last.st.goals)
    decreases |effects|
  {
    if effects != [] {
      var next := ApplyEffect(cat, st, gi, effects[0], relation).value;
      EffectHolds(cat, st, gi, effects[0], relation, next, but);
      EffectsHold(cat, next.st, gi, effects[1..], relation, changed || next.changed, last, but);
    }
  }

  lemma {:induction false} TargetsHold(
    cat: Catalogue, st: Conversation, rel: Relation, w: When, targets: seq<nat>, changed: bool, last: Step)
    requires forall x | 0 <= x < |targets| :: targets[x] < |st.goals|
    requires forall e <- rel.effects :: Orderly(e)
    requires ApplyTargets(cat, st, rel, w, targets, changed) == Ok(last) && NoneStranded(st.goals, {})
    ensures NoneStranded(last.st.goals, {})
    decreases |targets|
  {
    if targets != [] {
      if ConditionsHold(cat, st.facts, OwnerOf(st.goals, targets[0]), w.conditions) {
        var next := ApplyEffects(cat, st, targets[0], rel.effects, rel.code, false).value;
        EffectsHold(cat, st, targets[0], rel.effects, rel.code, false, next, {});
        TargetsHold(cat, next.st, rel, w, targets[1..], changed || next.changed, last);
      } else {
        TargetsHold(cat, st, rel, w, targets[1..], changed, last);
      }
    }
  }

  lemma {:induction false} RelationsHold(cat: Catalogue, st: Conversation, k: nat, changed: bool, last: Step)
    requires SuspendsForSubflows(cat) && k <= |cat.relations| && RelationsFrom(cat, st, k, changed) == Ok(last)
    requires NoneStranded(st.goals, {})
    ensures NoneStranded(last.st.goals, {})
    decreases |cat.relations| - k
  {
    if k < |cat.relations| {
      var rel := cat.relations[k];
      if rel.when.None? {
        RelationsHold(cat, st, k + 1, changed, last);
      } else {
        var targets := TargetsFrom(st.goals, rel.when.value, 0);
        var next := ApplyTargets(cat, st, rel, rel.when.value, targets, changed).value;
        TargetsHold(cat, st, rel, rel.when.value, targets, changed, next);
        RelationsHold(cat, next.st, k + 1, next.changed, last);
      }
    }
  }

  lemma MarkedStrands(st: Conversation, gi: nat)
    requires gi < |st.goals| && NoneStranded(st.goals, {})
    ensures var g := st.goals[gi];
            NoneStranded(MarkResolved(st, gi).goals, if g.parent.Some?
                && g.returnToParent then {g.parent.value} else {})
  {
    var g := st.goals[gi];
    ClosingStrands(st.goals, MarkResolved(st, gi).goals, gi, {});
    assert {} + (if g.parent.Some? && g.returnToParent then {g.parent.value} else {})
        == if g.parent.Some? && g.returnToParent then {g.parent.value} else {};
  }

  lemma ToldHolds(cat: Catalogue, st: Conversation, gi: nat, told: Conversation, but: set<nat>)
    requires SuspendsForSubflows(cat) && gi < |st.goals| && Tell(cat, st, gi) == Ok(told)
    requires NoneStranded(st.goals, but)
    ensures NoneStranded(told.goals, but) && Rooted(st.goals, told.goals)
  {
    var g := st.goals[gi];
    var relation := if g.createdBy.Some? then FindRelation(cat.relations, g.createdBy.value) else None;
    if relation.Some? && g.parent.Some? && g.parent.value < |st.goals| {
      var r := relation.value;
      var step := ApplyEffects(cat, st, g.parent.value, r.onChildResolved, r.code, false).value;
      EffectsHold(cat, st, g.parent.value, r.onChildResolved, r.code, false, step, but);
    }
  }

  /** A goal that resolves takes its parent out of suspension. */
  lemma ResolveOneHolds(cat: Catalogue, st: Conversation, gi: nat, next: Conversation)
    requires SuspendsForSubflows(cat) && gi < |st.goals| && ResolveOne(cat, st, gi) == Ok(next)
    requires NoneStranded(st.goals, {})
    ensures NoneStranded(next.goals, {})
  {
    var g := st.goals[gi];
    var but: set<nat> := if g.parent.Some? && g.returnToParent then {g.parent.value} else {};
    MarkedStrands(st, gi);
    var told := Tell(cat, MarkResolved(st, gi), gi).value;
    ToldHolds(cat, MarkResolved(st, gi), gi, told, but);
    assert told.goals[gi].parent == g.parent && told.goals[gi].returnToParent == g.returnToParent;
    assert {} + but == but;
    ResumeRescues(told.goals, gi, {});
  }

  lemma ResolveAtHolds(cat: Catalogue, st: Conversation, gi: nat, next: Step)
    requires SuspendsForSubflows(cat) && gi < |st.goals| && ResolveAt(cat, st, gi) == Ok(next)
    requires NoneStranded(st.goals, {})
    ensures NoneStranded(next.st.goals, {})
  {
    if next.changed {
      ResolveOneHolds(cat, st, gi, next.st);
    }
  }

  lemma FirstResolutionHolds(cat: Catalogue, st: Conversation, n: nat, changed: bool, last: Step)
    returns (next: Conversation, more: bool)
    requires SuspendsForSubflows(cat) && 0 < n <= |st.goals| && ResolveFrom(cat, st, n, changed) == Ok(last)
    requires NoneStranded(st.goals, {})
    ensures NoneStranded(next.goals, {})
    ensures n - 1 <= |next.goals| && ResolveFrom(cat, next, n - 1, more) == Ok(last)
  {
    var step := FirstResolution(cat, st, n, changed, last);
    ResolveAtHolds(cat, st, n - 1, step);
    next, more := step.st, changed || step.changed;
  }

  lemma {:induction false} ResolveHolds(cat: Catalogue, st: Conversation, n: nat, changed: bool, last: Step)
    requires SuspendsForSubflows(cat) && n <= |st.goals| && ResolveFrom(cat, st, n, changed) == Ok(last)
    requires NoneStranded(st.goals, {})
    ensures NoneStranded(last.st.goals, {})
    decreases n
  {
    if n > 0 {
      var next, more := FirstResolutionHolds(cat, st, n, changed, last);
      ResolveHolds(cat, next, n - 1, more, last);
    }
  }

  lemma {:induction false} EvaluationHolds(cat: Catalogue, st: Conversation, fuel: nat, last: Conversation)
    requires SuspendsForSubflows(cat) && Evaluate(cat, st, fuel) == Ok(last) && NoneStranded(st.goals, {})
    ensures NoneStranded(last.goals, {})
    decreases fuel
  {
    var next := Pass(cat, st).value;
    PassHolds(cat, st, next);
    if next.changed {
      EvaluationHolds(cat, next.st, fuel - 1, last);
    }
  }

  lemma PassHolds(cat: Catalogue, st: Conversation, last: Step)
    requires SuspendsForSubflows(cat) && Pass(cat, st) == Ok(last) && NoneStranded(st.goals, {})
    ensures NoneStranded(last.st.goals, {})
  {
    var related := RelationsFrom(cat, st, 0, false).value;
    RelationsHold(cat, st, 0, false, related);
    ResolveHolds(cat, related.st, |related.st.goals|, related.changed, last);
  }

  // ----- gaps and reopenings -----

  lemma {:induction false} SyncHolds(cat: Catalogue, st: Conversation, k: nat)
    requires k <= |st.goals| && NoneStranded(st.goals, {})
    ensures NoneStranded(SyncFrom(cat, st, k).goals, {})
    decreases |st.goals| - k
  {
    if k < |st.goals| {
      var next := SyncGoal(cat, st, k);
      assert Follows(st.goals, next.goals, {});
      FollowsKeeps(st.goals, next.goals, {});
      SyncHolds(cat, next, k + 1);
    }
  }

  /** A goal is opened after its parent. */
  ghost predicate ParentsFirst(goals: seq<GoalRecord>) {
    forall i | 0 <= i < |goals| && goals[i].parent.Some? :: goals[i].parent.value < i
  }

  lemma ReopenOneHolds(goals: seq<GoalRecord>, gi: nat)
    requires gi < |goals| && ParentsFirst(goals) && NoneStranded(goals, {})
    ensures NoneStranded(ReopenOne(goals, gi), {}) && ParentsFirst(ReopenOne(goals, gi))
  {
    var r := ReopenOne(goals, gi);
    forall i: nat | i < |r| && r[i].status == SUSPENDED
      ensures goals[i].status == SUSPENDED || HeldUp(r, i)
    {
      if goals[i].status != SUSPENDED {
        assert r[gi].status == ACTIVE && i != gi;
        assert HoldsUp(r, i, gi);
      }
    }
    FollowsKeeps(goals, r, {});
  }

  lemma {:induction false} ReopenHolds(cat: Catalogue, st: Conversation, k: nat)
    requires k <= |st.goals| && ParentsFirst(st.goals) && NoneStranded(st.goals, {})
    ensures NoneStranded(ReopenFrom(cat, st, k).goals, {})
    decreases |st.goals| - k
  {
    if k < |st.goals| {
      if MustReopen(cat, st, k) {
        ReopenOneHolds(st.goals, k);
        ReopenHolds(cat, st.(goals := ReopenOne(st.goals, k)), k + 1);
      } else {
        ReopenHolds(cat, st, k + 1);
      }
    }
  }

  lemma RoundHolds(cat: Catalogue, st: Conversation, limit: nat, next: Conversation)
    requires SuspendsForSubflows(cat) && Round(cat, st, limit) == Ok(next) && NoneStranded(st.goals, {})
    ensures NoneStranded(next.goals, {})
  {
    var evaluated := Evaluate(cat, st, limit).value;
    EvaluationHolds(cat, st, limit, evaluated);
    SyncHolds(cat, evaluated, 0);
  }

  lemma {:induction false} RoundsHold(cat: Catalogue, st: Conversation, limit: nat, fuel: nat, last: Conversation)
    requires SuspendsForSubflows(cat) && RoundsFrom(cat, st, limit, fuel) == Ok(last) && NoneStranded(st.goals, {})
    ensures NoneStranded(last.goals, {})
    decreases fuel
  {
    var next := Round(cat, st, limit).value;
    RoundHolds(cat, st, limit, next);
    if !SameCore(st, next) {
      RoundsHold(cat, next, limit, fuel - 1, last);
    }
  }

  lemma FinishHolds(cat: Catalogue, st: Conversation, limit: nat, last: Conversation)
    requires SuspendsForSubflows(cat) && Finish(cat, st, limit) == Ok(last)
    requires ParentsFirst(st.goals) && NoneStranded(st.goals, {})
    ensures NoneStranded(last.goals, {})
  {
    ReopenHolds(cat, st, 0);
    var settled := Settle(cat, st, limit).value;
    RoundsHold(cat, ReopenFrom(cat, st, 0), limit, limit, settled);
    RefreshKeeps(cat, settled);
  }

  // ----- the events -----

  lemma LeavingHolds(goals: seq<GoalRecord>, gi: nat, now: nat)
    requires gi < |goals| && goals[gi].status != SUSPENDED && NoneStranded(goals, {})
    ensures NoneStranded(AbandonByUser(goals, gi, now), {})
  {
    var r := AbandonByUser(goals, gi, now);
    assert Follows(goals, r, {});
    FollowsKeeps(goals, r, {});
  }

  lemma NewGoalHolds(cat: Catalogue, st: Conversation, e: Event, next: Conversation)
    requires e.NewGoal? && OnNewGoal(cat, st, ContextGoal(st.goals), e) == Ok(next) && NoneStranded(st.goals, {})
    ensures NoneStranded(next.goals, {})
  {
    var goal := ContextGoal(st.goals);
    var left :=
      if e.abandonCurrent && goal.Some? then st.(goals := AbandonByUser(st.goals, goal.value, st.seqNo)) else st;
    if e.abandonCurrent && goal.Some? {
      LeavingHolds(st.goals, goal.value, st.seqNo);
    }
    var opts := PLAIN.(caseRef := e.caseRef);
    PushHolds(cat, left, e.goalCode, opts, Push(cat, left, e.goalCode, opts).value, {});
  }

  lemma ReclassificationHolds(cat: Catalogue, st: Conversation, code: string, next: Conversation)
    requires OnReclassification(cat, st, ContextGoal(st.goals), code) == Ok(next) && NoneStranded(st.goals, {})
    ensures NoneStranded(next.goals, {})
  {
    assert Follows(st.goals, next.goals, {});
    FollowsKeeps(st.goals, next.goals, {});
  }

  lemma OverlayHolds(cat: Catalogue, st: Conversation, base: nat, next: (Conversation, nat))
    requires base < |st.goals| && Overlay(cat, st, base) == Ok(next) && NoneStranded(st.goals, {})
    ensures NoneStranded(next.0.goals, {})
  {
    if LastOverlay(st.goals, base, |st.goals|).None? {
      PushHolds(cat, st, COMPLAINT_GOAL,
        PushOptions(Some(base), false, false, None, Some(base), None, st.goals[base].caseId), next.0, {});
    } else {
      assert Follows(st.goals, next.0.goals, {});
      FollowsKeeps(st.goals, next.0.goals, {});
    }
  }

  lemma ComplaintHolds(cat: Catalogue, st: Conversation, e: Event, next: Conversation)
    requires e.Complaint? && OnComplaint(cat, st, ContextGoal(st.goals), e) == Ok(next) && NoneStranded(st.goals, {})
    ensures NoneStranded(next.goals, {})
  {
    var goal := ContextGoal(st.goals);
    var base := ComplaintBase(cat, st, goal, e).value;
    if goal.None? {
      PushHolds(cat, st, e.baseGoal.value, PLAIN.(caseRef := e.caseRef), base.0, {});
    }
    var told := RecordFor(cat, base.0, base.1, e.baseFacts).value;
    OverlayHolds(cat, told, base.1, Overlay(cat, told, base.1).value);
  }

  lemma ParallelQuestionHolds(cat: Catalogue, st: Conversation, e: Event, next: Conversation)
    requires e.ParallelQuestion? && OnParallelQuestion(cat, st, ContextGoal(st.goals), e) == Ok(next)
    requires NoneStranded(st.goals, {})
    ensures NoneStranded(next.goals, {})
  {
    var goal := ContextGoal(st.goals);
    var parked := if st.pending.Some? then st.(parked := st.parked + [st.pending.value], pending := None) else st;
    var opts := PushOptions(goal, false, false, None, None, None, CaseOfGoal(st.goals, goal));
    PushHolds(cat, parked, e.goalCode, opts, Push(cat, parked, e.goalCode, opts).value, {});
  }

  lemma TakeHolds(cat: Catalogue, st: Conversation, e: Event, next: Conversation)
    requires Take(cat, st, e) == Ok(next) && NoneStranded(st.goals, {})
    ensures NoneStranded(next.goals, {})
  {
    match e
    case NewGoal(_, _, _, _) => NewGoalHolds(cat, st, e, next);
    case Reclassification(code) => ReclassificationHolds(cat, st, code, next);
    case Complaint(_, _, _, _) => ComplaintHolds(cat, st, e, next);
    case ParallelQuestion(_, _) => ParallelQuestionHolds(cat, st, e, next);
    case _ =>
  }

  lemma ToldStateHolds(cat: Catalogue, st: Conversation, t: Turn, told: Conversation)
    requires Told(cat, st, t) == Ok(told) && NoneStranded(st.goals, {})
    ensures NoneStranded(told.goals, {})
  {
    if t.Said? {
      TakeHolds(cat, Numbered(st), t.event, told);
    }
  }

  lemma ParentsFirstIsStable(cat: Catalogue, rank: map<string, nat>, P: Conversation -> bool)
    requires forall s :: P(s) <==> ParentsFirst(s.goals)
    ensures Stable(cat, rank, P)
  {
    forall a, b | P(a) && Move(cat, rank, a, b)
      ensures P(b)
    {
      if GoalMove(cat, a, b) {
        forall i | 0 <= i < |b.goals| && b.goals[i].parent.Some?
          ensures b.goals[i].parent.value < i
        {
          assert i >= |a.goals| ==> GoalBorn(cat, b, i);
          assert i < |a.goals| ==> GoalMoved(cat, a, a.goals[i], b.goals[i], i);
        }
      }
    }
  }

  ghost predicate Held(st: Conversation) {
    ParentsFirst(st.goals) && NoneStranded(st.goals, {})
  }

  lemma TurnHolds(cat: Catalogue, rank: map<string, nat>, st: Conversation, t: Turn, next: Conversation)
    requires Valid(cat) && Ranked(cat, rank) && SuspendsForSubflows(cat)
    requires Held(st) && Apply(cat, st, t) == Ok(next)
    ensures Held(next)
  {
    var P := (s: Conversation) => ParentsFirst(s.goals);
    ParentsFirstIsStable(cat, rank, P);
    TurnMoves(cat, rank, P, st, t);
    if TurnSettles(t) {
      TurnIs(cat, st, t);
      var told := Told(cat, st, t).value;
      ToldMoves(cat, rank, P, st, t);
      ToldStateHolds(cat, st, t, told);
      FinishHolds(cat, told, ROUNDS, next);
    } else {
      IdleTurnIs(cat, st, t);
      RefreshKeeps(cat, Numbered(st));
    }
  }

  /** In every reachable state, if relations suspend goals for subflows that return only, each suspended goal is
      held up: by a subflow that is still open, or by one that the citizen left. */
  lemma SuspendedIsHeldUp(cat: Catalogue, rank: map<string, nat>, turns: seq<Turn>, p: nat)
    requires Valid(cat) && Ranked(cat, rank) && SuspendsForSubflows(cat)
    requires p < |Run(cat, turns).goals| && Run(cat, turns).goals[p].status == SUSPENDED
    ensures HeldUp(Run(cat, turns).goals, p)
  {
    var I := (s: Conversation) => Held(s);
    forall st, t | I(st) && Apply(cat, st, t).Ok?
      ensures I(Apply(cat, st, t).value)
    {
      TurnHolds(cat, rank, st, t, Apply(cat, st, t).value);
    }
    RunsKeep(cat, I, turns);
    assert Held(Run(cat, turns));
  }
}
