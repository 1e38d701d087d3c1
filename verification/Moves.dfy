/**
 A turn is a sequence of moves: insertions of one fact, and changes of goals,
 cases, questions and actions. A property that every move keeps is kept by every
 operation of the reducer; each lemma here says so of one operation.
 */
module Moves {
  import opened Basics
  import opened Catalog
  import opened State
  import opened Recording
  import opened FactInvariants
  import opened Goals
  import opened Reducer

  ghost predicate OwnerExists(goals: seq<GoalRecord>, o: Owner) {
    o == NOBODY || (o.goalId.Some? && o.goalId.value < |goals| && o == OwnerOf(goals, o.goalId.value))
  }

  /** The premises of a derivation are live under the keys of the goal that derives. */
  ghost predicate PremisesOf(cat: Catalogue, facts: seq<FactRecord>, o: Owner, derivedFrom: seq<nat>) {
    forall x | x in derivedFrom :: x < |facts| && IsLive(cat, facts[x], KeyFor(cat, facts[x].code, o))
  }

  /** An effect of some relation writes this code. */
  ghost predicate Writes(e: Effect, code: string) {
    (e.AssertDerived? && e.code == code) || (e.RecordSystem? && e.code == code)
  }

  ghost predicate WrittenByRelation(cat: Catalogue, code: string) {
    exists r, e :: r in cat.relations && (e in r.effects || e in r.onChildResolved) && Writes(e, code)
  }

  ghost predicate Legit(
    cat: Catalogue, rank: map<string, nat>, a: Conversation, o: Owner, e: Entry, mode: Mode, derivedFrom: seq<nat>)
  {
    && Fit(cat, e)
    && Sound(cat, rank, a.facts, e.code, derivedFrom)
    && OwnerExists(a.goals, o)
    && (derivedFrom != [] ==>
          o.goalId.Some? && PremisesOf(cat, a.facts, o, derivedFrom) && WrittenByRelation(cat, e.code))
  }

  ghost predicate FactMove(cat: Catalogue, rank: map<string, nat>, a: Conversation, b: Conversation) {
    exists o, e, mode, derivedFrom :: Legit(cat, rank, a, o, e, mode, derivedFrom)
      && b == a.(facts := Insert(cat, a.goals, a.facts, a.seqNo, o, e, mode, derivedFrom))
  }

  /** An old goal keeps its place; it resolves only when it is active and complete. */
  ghost predicate GoalMoved(cat: Catalogue, a: Conversation, g: GoalRecord, h: GoalRecord, i: nat)
    requires i < |a.goals|
  {
    && h.caseId == g.caseId && h.parent == g.parent && h.overlayOf == g.overlayOf
    && h.returnToParent == g.returnToParent && h.openedAt == g.openedAt && h.createdBy == g.createdBy
    && (h.code != g.code ==> h.status != RESOLVED && h.code in cat.goals)
    && (h.status == RESOLVED && g.status != RESOLVED ==> g.status == ACTIVE && Complete(cat, a, i))
  }

  /** A new goal is open, and in the case of its parent unless that has none; it overlays its parent or nothing. */
  ghost predicate GoalBorn(cat: Catalogue, b: Conversation, i: nat)
    requires i < |b.goals|
  {
    var g := b.goals[i];
    && g.code in cat.goals && g.status != RESOLVED && g.openedAt == b.seqNo
    && (g.parent.Some? ==>
          && g.parent.value < i
          && (b.goals[g.parent.value].caseId.Some? ==> g.caseId == b.goals[g.parent.value].caseId))
    && (g.overlayOf.Some? ==> g.overlayOf == g.parent)
    && (g.caseId.Some? ==>
          || g.caseId.value < |b.cases|
          || (g.parent.Some? && g.parent.value < i && b.goals[g.parent.value].caseId == g.caseId))
  }

  /** A new case is of this turn, and for a subject that had none. */
  ghost predicate CaseBorn(b: Conversation, i: nat)
    requires i < |b.cases|
  {
    && b.cases[i].openedAt == b.seqNo
    && forall j | 0 <= j < i ::
         b.cases[j].subjectKind != b.cases[i].subjectKind || b.cases[j].subjectRef != b.cases[i].subjectRef
  }

  /** Actions stay one of a code for each goal, and the new ones are of this turn, for goals there are. */
  ghost predicate ActionMove(a: Conversation, b: Conversation) {
    && (UniqueActions(a.actions) ==> UniqueActions(b.actions))
    && (forall x | x in b.actions :: x in a.actions || (x.requestedAt == b.seqNo && x.goalId < |b.goals|))
  }

  ghost predicate GoalMove(cat: Catalogue, a: Conversation, b: Conversation) {
    && b.facts == a.facts && b.seqNo == a.seqNo && b.forbidden == a.forbidden
    && a.cases <= b.cases && |a.goals| <= |b.goals|
    && (forall i | 0 <= i < |a.goals| :: GoalMoved(cat, a, a.goals[i], b.goals[i], i))
    && (forall i | |a.goals| <= i < |b.goals| :: GoalBorn(cat, b, i))
    && (forall i | |a.cases| <= i < |b.cases| :: CaseBorn(b, i))
    && ActionMove(a, b)
  }

  ghost predicate Move(cat: Catalogue, rank: map<string, nat>, a: Conversation, b: Conversation) {
    FactMove(cat, rank, a, b) || GoalMove(cat, a, b)
  }

  ghost predicate Stable(cat: Catalogue, rank: map<string, nat>, P: Conversation -> bool) {
    forall a, b {:trigger Move(cat, rank, a, b)} :: P(a) && Move(cat, rank, a, b) ==> P(b)
  }

  predicate KeepsCodes(a: Conversation, b: Conversation) {
    forall i | 0 <= i < |a.goals| && i < |b.goals| :: b.goals[i].code == a.goals[i].code
  }

  /** Every move but a reclassification keeps the codes of the goals. */
  ghost predicate Settling(cat: Catalogue, rank: map<string, nat>, a: Conversation, b: Conversation) {
    Move(cat, rank, a, b) && KeepsCodes(a, b)
  }

  ghost predicate Steady(cat: Catalogue, rank: map<string, nat>, P: Conversation -> bool) {
    forall a, b {:trigger Settling(cat, rank, a, b)} :: P(a) && Settling(cat, rank, a, b) ==> P(b)
  }

  predicate Recodes(t: Turn) {
    t.Said? && t.event.Reclassification?
  }

  lemma RecordMoves(
    cat: Catalogue, rank: map<string, nat>, P: Conversation -> bool, st: Conversation,
    o: Owner, input: FactInput, mode: Mode, derivedFrom: seq<nat>)
    requires Ranked(cat, rank) && Steady(cat, rank, P) && P(st) && OwnerExists(st.goals, o)
    requires forall x | x in derivedFrom ::
               && x < |st.facts| && st.facts[x].active && input.code in rank && st.facts[x].code in rank
               && rank[st.facts[x].code] < rank[input.code]
    requires derivedFrom != [] ==>
               o.goalId.Some? && PremisesOf(cat, st.facts, o, derivedFrom) && WrittenByRelation(cat, input.code)
    ensures var r := Record(cat, st.goals, st.facts, st.seqNo, o, input, mode, derivedFrom);
            r.Ok? ==> P(st.(facts := r.value))
  {
    AdmittedFit(cat, input, mode);
    var r := Admitted(cat, input, mode);
    if r.Ok? {
      var e := r.value;
      assert e.code in cat.facts && e.code in rank;
      assert Legit(cat, rank, st, o, e, mode, derivedFrom);
      assert Settling(cat, rank, st, st.(facts := Insert(cat, st.goals, st.facts, st.seqNo, o, e, mode, derivedFrom)));
    }
  }

  lemma {:induction false} FactIdsAre(cat: Catalogue, facts: seq<FactRecord>, o: Owner, codes: seq<string>)
    ensures forall x | x in FactIds(cat, facts, o, codes) ::
              && x < |facts| && facts[x].active && facts[x].code in codes
              && IsLive(cat, facts[x], KeyFor(cat, facts[x].code, o))
  {
    if codes != [] {
      FactIdsAre(cat, facts, o, codes[1..]);
      var live := Live(cat, facts, KeyFor(cat, codes[0], o));
      var rest := FactIds(cat, facts, o, codes[1..]);
      forall x | x in FactIds(cat, facts, o, codes)
        ensures && x < |facts| && facts[x].active && facts[x].code in codes
                && IsLive(cat, facts[x], KeyFor(cat, facts[x].code, o))
      {
        if x !in rest {
          assert live != [] && x == live[0];
          assert facts[x].code == codes[0];
        }
      }
    }
  }

  lemma PushMoves(
    cat: Catalogue, rank: map<string, nat>, P: Conversation -> bool, st: Conversation, code: string, opts: PushOptions)
    requires Steady(cat, rank, P) && P(st)
    requires opts.parent.Some? ==> opts.parent.value < |st.goals|
    requires opts.reuseCase == CaseOfGoal(st.goals, opts.parent)
    requires opts.overlayOf.Some? ==> opts.overlayOf == opts.parent
    ensures Push(cat, st, code, opts).Ok? ==> P(Push(cat, st, code, opts).value)
  {
    if Push(cat, st, code, opts).Ok? {
      var b := Push(cat, st, code, opts).value;
      assert GoalBorn(cat, b, |st.goals|);
      assert Settling(cat, rank, st, b);
    }
  }

  /** Changes of goals, actions and questions that resolve nothing. */
  lemma QuietMoves(cat: Catalogue, rank: map<string, nat>, P: Conversation -> bool, a: Conversation, b: Conversation)
    requires Steady(cat, rank, P) && P(a)
    requires b.facts == a.facts && b.seqNo == a.seqNo && b.forbidden == a.forbidden && b.cases == a.cases
    requires |a.goals| == |b.goals| && ActionMove(a, b)
    requires forall i | 0 <= i < |a.goals| :: Quiet(a.goals[i], b.goals[i])
    ensures P(b)
  {
    forall i | 0 <= i < |a.goals|
      ensures GoalMoved(cat, a, a.goals[i], b.goals[i], i)
    {
      assert Quiet(a.goals[i], b.goals[i]);
    }
    assert Settling(cat, rank, a, b);
  }

  ghost predicate Quiet(g: GoalRecord, h: GoalRecord) {
    && h.code == g.code && h.caseId == g.caseId && h.parent == g.parent && h.overlayOf == g.overlayOf
    && h.returnToParent == g.returnToParent && h.openedAt == g.openedAt && h.createdBy == g.createdBy
    && (h.status == RESOLVED ==> g.status == RESOLVED)
  }

  ghost predicate QuietGoals(a: seq<GoalRecord>, b: seq<GoalRecord>) {
    |a| == |b| && forall i | 0 <= i < |a| :: Quiet(a[i], b[i])
  }

  lemma ResumeIsQuiet(goals: seq<GoalRecord>, child: nat)
    requires child < |goals|
    ensures QuietGoals(goals, Resume(goals, child))
  {
  }

  lemma {:induction false} AbandonIsQuiet(
    goals: seq<GoalRecord>, dependency: string, caseId: Option<nat>, why: string, now: nat, k: nat, changed: bool)
    requires k <= |goals|
    ensures QuietGoals(goals, AbandonFrom(goals, dependency, caseId, why, now, k, changed).0)
    decreases |goals| - k
  {
    if k < |goals| {
      if Abandons(goals[k], dependency, caseId) {
        var next := AbandonOne(goals, k, why, now);
        AbandonIsQuiet(next, dependency, caseId, why, now, k + 1, true);
        var r := AbandonFrom(next, dependency, caseId, why, now, k + 1, true).0;
        forall i | 0 <= i < |goals|
          ensures Quiet(goals[i], r[i])
        {
          assert Quiet(goals[i], next[i]) && Quiet(next[i], r[i]);
        }
      } else {
        AbandonIsQuiet(goals, dependency, caseId, why, now, k + 1, changed);
      }
    }
  }

  lemma EffectMoves(
    cat: Catalogue, rank: map<string, nat>, P: Conversation -> bool, st: Conversation, gi: nat,
    r: Relation, e: Effect, relation: string)
    requires Ranked(cat, rank) && Valid(cat) && Steady(cat, rank, P) && P(st) && gi < |st.goals|
    requires r in cat.relations && (e in r.effects || e in r.onChildResolved)
    ensures var s := ApplyEffect(cat, st, gi, e, relation);
            s.Ok? ==> P(s.value.st)
  {
    var o := OwnerOf(st.goals, gi);
    assert EffectValid(cat, e);
    match e
    case AssertDerived(code, value, from) =>
      FactIdsAre(cat, st.facts, o, from);
      assert Writes(e, code);
      RecordMoves(cat, rank, P, st, o, FactInput(code, value, Some(DERIVED_RULE), None, false), DERIVE,
        FactIds(cat, st.facts, o, from));
    case RecordSystem(code, value, source, authoritative) =>
      RecordMoves(cat, rank, P, st, o, FactInput(code, value, Some(source), None, authoritative), DERIVE, []);
    case PushGoal(code, suspendParent, returnToParent) =>
      PushMoves(cat, rank, P, st, code,
        PushOptions(Some(gi), suspendParent, returnToParent, Some(relation), None, None, st.goals[gi].caseId));
    case SetStatus(status, reason) =>
      var s := ApplyEffect(cat, st, gi, e, relation);
      QuietMoves(cat, rank, P, st, s.value.st);
    case RequireAction(action, executor) =>
      var s := ApplyEffect(cat, st, gi, e, relation);
      QuietMoves(cat, rank, P, st, s.value.st);
    case SatisfyDependency(dependency, why) =>
      AbandonIsQuiet(st.goals, dependency, st.goals[gi].caseId, why, st.seqNo, 0, false);
      var s := ApplyEffect(cat, st, gi, e, relation);
      QuietMoves(cat, rank, P, st, s.value.st);
    case NoEffect =>
  }

  lemma {:induction false} EffectsMove(
    cat: Catalogue, rank: map<string, nat>, P: Conversation -> bool, st: Conversation, gi: nat,
    r: Relation, effects: seq<Effect>, relation: string, changed: bool)
    requires Ranked(cat, rank) && Valid(cat) && Steady(cat, rank, P) && P(st) && gi < |st.goals|
    requires r in cat.relations && forall e | e in effects :: e in r.effects || e in r.onChildResolved
    ensures var s := ApplyEffects(cat, st, gi, effects, relation, changed);
            s.Ok? ==> P(s.value.st)
    decreases |effects|
  {
    if effects != [] {
      EffectMoves(cat, rank, P, st, gi, r, effects[0], relation);
      var s := ApplyEffect(cat, st, gi, effects[0], relation);
      if s.Ok? {
        EffectsMove(cat, rank, P, s.value.st, gi, r, effects[1..], relation, changed || s.value.changed);
      }
    }
  }

  lemma {:induction false} TargetsMove(
    cat: Catalogue, rank: map<string, nat>, P: Conversation -> bool, st: Conversation,
    rel: Relation, w: When, targets: seq<nat>, changed: bool)
    requires Ranked(cat, rank) && Valid(cat) && Steady(cat, rank, P) && P(st) && rel in cat.relations
    requires forall x | 0 <= x < |targets| :: targets[x] < |st.goals|
    ensures var s := ApplyTargets(cat, st, rel, w, targets, changed);
            s.Ok? ==> P(s.value.st)
    decreases |targets|
  {
    if targets != [] {
      if ConditionsHold(cat, st.facts, OwnerOf(st.goals, targets[0]), w.conditions) {
        EffectsMove(cat, rank, P, st, targets[0], rel, rel.effects, rel.code, false);
        var s := ApplyEffects(cat, st, targets[0], rel.effects, rel.code, false);
        if s.Ok? {
          TargetsMove(cat, rank, P, s.value.st, rel, w, targets[1..], changed || s.value.changed);
        }
      } else {
        TargetsMove(cat, rank, P, st, rel, w, targets[1..], changed);
      }
    }
  }

  lemma {:induction false} RelationsMove(
    cat: Catalogue, rank: map<string, nat>, P: Conversation -> bool, st: Conversation, k: nat, changed: bool)
    requires Ranked(cat, rank) && Valid(cat) && Steady(cat, rank, P) && P(st) && k <= |cat.relations|
    ensures var s := RelationsFrom(cat, st, k, changed);
            s.Ok? ==> P(s.value.st)
    decreases |cat.relations| - k
  {
    if k < |cat.relations| {
      if cat.relations[k].when.None? {
        RelationsMove(cat, rank, P, st, k + 1, changed);
      } else {
        var w := cat.relations[k].when.value;
        var targets := TargetsFrom(st.goals, w, 0);
        TargetsMove(cat, rank, P, st, cat.relations[k], w, targets, changed);
        var s := ApplyTargets(cat, st, cat.relations[k], w, targets, changed);
        if s.Ok? {
          RelationsMove(cat, rank, P, s.value.st, k + 1, s.value.changed);
        }
      }
    }
  }

  lemma MarkMoves(cat: Catalogue, rank: map<string, nat>, P: Conversation -> bool, st: Conversation, gi: nat)
    requires Steady(cat, rank, P) && P(st) && gi < |st.goals| && st.goals[gi].status == ACTIVE && Complete(cat, st, gi)
    ensures P(MarkResolved(st, gi))
  {
    assert Settling(cat, rank, st, MarkResolved(st, gi));
  }

  lemma TellMoves(cat: Catalogue, rank: map<string, nat>, P: Conversation -> bool, st: Conversation, gi: nat)
    requires Ranked(cat, rank) && Valid(cat) && Steady(cat, rank, P) && P(st) && gi < |st.goals|
    ensures var s := Tell(cat, st, gi);
            s.Ok? ==> P(s.value)
  {
    var g := st.goals[gi];
    var relation := if g.createdBy.Some? then FindRelation(cat.relations, g.createdBy.value) else None;
    if relation.Some? && g.parent.Some? && g.parent.value < |st.goals| {
      var r := relation.value;
      EffectsMove(cat, rank, P, st, g.parent.value, r, r.onChildResolved, r.code, false);
    }
  }

  lemma ResolveOneMoves(cat: Catalogue, rank: map<string, nat>, P: Conversation -> bool, st: Conversation, gi: nat)
    requires Ranked(cat, rank) && Valid(cat) && Steady(cat, rank, P) && P(st)
    requires gi < |st.goals| && st.goals[gi].status == ACTIVE && Complete(cat, st, gi)
    ensures var s := ResolveOne(cat, st, gi);
            s.Ok? ==> P(s.value)
  {
    MarkMoves(cat, rank, P, st, gi);
    TellMoves(cat, rank, P, MarkResolved(st, gi), gi);
    var told := Tell(cat, MarkResolved(st, gi), gi);
    if told.Ok? {
      ResumeIsQuiet(told.value.goals, gi);
      QuietMoves(cat, rank, P, told.value, told.value.(goals := Resume(told.value.goals, gi)));
    }
  }

  lemma ResolveAtMoves(cat: Catalogue, rank: map<string, nat>, P: Conversation -> bool, st: Conversation, gi: nat)
    requires Ranked(cat, rank) && Valid(cat) && Steady(cat, rank, P) && P(st) && gi < |st.goals|
    ensures var s := ResolveAt(cat, st, gi);
            s.Ok? ==> P(s.value.st)
  {
    if st.goals[gi].status == ACTIVE && Complete(cat, st, gi) {
      ResolveOneMoves(cat, rank, P, st, gi);
    }
  }

  lemma {:induction false} ResolveMoves(
    cat: Catalogue, rank: map<string, nat>, P: Conversation -> bool, st: Conversation, n: nat, changed: bool,
    last: Step)
    requires Ranked(cat, rank) && Valid(cat) && Steady(cat, rank, P) && P(st) && n <= |st.goals|
    requires ResolveFrom(cat, st, n, changed) == Ok(last)
    ensures P(last.st)
    decreases n
  {
    if n > 0 {
      ResolveFromStep(cat, st, n, changed);
      ResolveAtMoves(cat, rank, P, st, n - 1);
      var s := ResolveAt(cat, st, n - 1).value;
      ResolveMoves(cat, rank, P, s.st, n - 1, changed || s.changed, last);
    }
  }

  lemma PassMoves(cat: Catalogue, rank: map<string, nat>, P: Conversation -> bool, st: Conversation)
    requires Ranked(cat, rank) && Valid(cat) && Steady(cat, rank, P) && P(st)
    ensures Pass(cat, st).Ok? ==> P(Pass(cat, st).value.st)
  {
    RelationsMove(cat, rank, P, st, 0, false);
    if Pass(cat, st).Ok? {
      var s := RelationsFrom(cat, st, 0, false).value;
      ResolveMoves(cat, rank, P, s.st, |s.st.goals|, s.changed, Pass(cat, st).value);
    }
  }

  lemma {:induction false} EvaluateMoves(
    cat: Catalogue, rank: map<string, nat>, P: Conversation -> bool, st: Conversation, fuel: nat)
    requires Ranked(cat, rank) && Valid(cat) && Steady(cat, rank, P) && P(st)
    ensures Evaluate(cat, st, fuel).Ok? ==> P(Evaluate(cat, st, fuel).value)
    decreases fuel
  {
    if fuel > 0 {
      PassMoves(cat, rank, P, st);
      var s := Pass(cat, st);
      if s.Ok? && s.value.changed {
        EvaluateMoves(cat, rank, P, s.value.st, fuel - 1);
      }
    }
  }

  lemma {:induction false} KeepOnlyIs(actions: seq<PendingAction>, goalId: nat, action: Option<string>)
    ensures var r := KeepOnly(actions, goalId, action);
            && (forall x | x in r :: x in actions && (x.goalId != goalId || Some(x.action) == action))
            && (UniqueActions(actions) ==> UniqueActions(r))
  {
    if actions != [] {
      var rest := actions[1..];
      KeepOnlyIs(rest, goalId, action);
      var r := KeepOnly(rest, goalId, action);
      if UniqueActions(actions) {
        forall j | 0 <= j < |r|
          ensures actions[0].action != r[j].action || actions[0].goalId != r[j].goalId
        {
          assert r[j] in rest;
        }
      }
    }
  }

  lemma SyncActions(cat: Catalogue, st: Conversation, gi: nat)
    requires gi < |st.goals|
    ensures ActionMove(st, SyncGoal(cat, st, gi))
  {
    KeepOnlyIs(st.actions, gi, None);
    var blocking := Blocking(cat, st.facts, st.goals, gi);
    if blocking.Some? {
      KeepOnlyIs(st.actions, gi, Some(blocking.value.action));
    }
  }

  lemma {:induction false} SyncMoves(
    cat: Catalogue, rank: map<string, nat>, P: Conversation -> bool, st: Conversation, k: nat)
    requires Steady(cat, rank, P) && P(st) && k <= |st.goals|
    ensures P(SyncFrom(cat, st, k))
    decreases |st.goals| - k
  {
    if k < |st.goals| {
      SyncActions(cat, st, k);
      QuietMoves(cat, rank, P, st, SyncGoal(cat, st, k));
      SyncMoves(cat, rank, P, SyncGoal(cat, st, k), k + 1);
    }
  }

  lemma {:induction false} ReopenMoves(
    cat: Catalogue, rank: map<string, nat>, P: Conversation -> bool, st: Conversation, k: nat)
    requires Steady(cat, rank, P) && P(st) && k <= |st.goals|
    ensures P(ReopenFrom(cat, st, k))
    decreases |st.goals| - k
  {
    if k < |st.goals| {
      if MustReopen(cat, st, k) {
        var next := st.(goals := ReopenOne(st.goals, k));
        QuietMoves(cat, rank, P, st, next);
        ReopenMoves(cat, rank, P, next, k + 1);
      } else {
        ReopenMoves(cat, rank, P, st, k + 1);
      }
    }
  }

  lemma RoundMoves(cat: Catalogue, rank: map<string, nat>, P: Conversation -> bool, st: Conversation, limit: nat)
    requires Ranked(cat, rank) && Valid(cat) && Steady(cat, rank, P) && P(st)
    ensures Round(cat, st, limit).Ok? ==> P(Round(cat, st, limit).value)
  {
    EvaluateMoves(cat, rank, P, st, limit);
    if Evaluate(cat, st, limit).Ok? {
      SyncMoves(cat, rank, P, Evaluate(cat, st, limit).value, 0);
    }
  }

  lemma {:induction false} RoundsMove(
    cat: Catalogue, rank: map<string, nat>, P: Conversation -> bool, st: Conversation, limit: nat, fuel: nat)
    requires Ranked(cat, rank) && Valid(cat) && Steady(cat, rank, P) && P(st)
    ensures RoundsFrom(cat, st, limit, fuel).Ok? ==> P(RoundsFrom(cat, st, limit, fuel).value)
    decreases fuel
  {
    if fuel > 0 {
      RoundMoves(cat, rank, P, st, limit);
      var next := Round(cat, st, limit);
      if next.Ok? && !SameCore(st, next.value) {
        RoundsMove(cat, rank, P, next.value, limit, fuel - 1);
      }
    }
  }

  lemma SettleMoves(cat: Catalogue, rank: map<string, nat>, P: Conversation -> bool, st: Conversation, limit: nat)
    requires Ranked(cat, rank) && Valid(cat) && Steady(cat, rank, P) && P(st)
    ensures Settle(cat, st, limit).Ok? ==> P(Settle(cat, st, limit).value)
  {
    ReopenMoves(cat, rank, P, st, 0);
    RoundsMove(cat, rank, P, ReopenFrom(cat, st, 0), limit, limit);
  }

  /** Two states that differ in their questions only. */
  ghost predicate SameButQuestions(a: Conversation, b: Conversation) {
    b == a.(pending := b.pending, parked := b.parked)
  }

  lemma {:induction false} ResumeKeeps(cat: Catalogue, st: Conversation, n: nat)
    requires n <= |st.parked|
    ensures ResumeFrom(cat, st, n).Ok? ==> SameButQuestions(st, ResumeFrom(cat, st, n).value)
    decreases n
  {
    if n > 0 {
      var q := st.parked[n - 1];
      if ContextGoal(st.goals) != Some(q.goalId) {
        ResumeKeeps(cat, st, n - 1);
      } else {
        ResumeKeeps(cat, st.(parked := st.parked[..n - 1] + st.parked[n..]), n - 1);
      }
    }
  }

  lemma RefreshKeeps(cat: Catalogue, st: Conversation)
    ensures Refresh(cat, st).Ok? ==> SameButQuestions(st, Refresh(cat, st).value)
  {
    var cleared := Withdraw(cat, st);
    ResumeKeeps(cat, cleared, |cleared.parked|);
  }

  lemma RefreshMoves(cat: Catalogue, rank: map<string, nat>, P: Conversation -> bool, st: Conversation)
    requires Steady(cat, rank, P) && P(st)
    ensures Refresh(cat, st).Ok? ==> P(Refresh(cat, st).value)
  {
    RefreshKeeps(cat, st);
    if Refresh(cat, st).Ok? {
      QuietMoves(cat, rank, P, st, Refresh(cat, st).value);
    }
  }

  // ----- what the events do before settling -----

  lemma {:induction false} RecordForMoves(
    cat: Catalogue, rank: map<string, nat>, P: Conversation -> bool, st: Conversation, gi: nat, inputs: seq<FactInput>)
    requires Ranked(cat, rank) && Steady(cat, rank, P) && P(st) && gi < |st.goals|
    ensures RecordFor(cat, st, gi, inputs).Ok? ==> P(RecordFor(cat, st, gi, inputs).value)
    decreases |inputs|
  {
    if inputs != [] {
      var o := OwnerOf(st.goals, gi);
      RecordMoves(cat, rank, P, st, o, inputs[0], ASSERT, []);
      var facts := Record(cat, st.goals, st.facts, st.seqNo, o, inputs[0], ASSERT, []);
      if facts.Ok? {
        RecordForMoves(cat, rank, P, st.(facts := facts.value), gi, inputs[1..]);
      }
    }
  }

  lemma {:induction false} RecordOwnedMoves(
    cat: Catalogue, rank: map<string, nat>, P: Conversation -> bool, st: Conversation,
    focus: Option<nat>, inputs: seq<FactInput>, mode: Mode)
    requires Ranked(cat, rank) && Steady(cat, rank, P) && P(st)
    requires focus.Some? ==> focus.value < |st.goals|
    ensures RecordOwned(cat, st, focus, inputs, mode).Ok? ==> P(RecordOwned(cat, st, focus, inputs, mode).value)
    decreases |inputs|
  {
    if inputs != [] {
      var o := OwnerFor(st.goals, OwnerGoal(cat, st.goals, inputs[0].code, focus));
      RecordMoves(cat, rank, P, st, o, inputs[0], mode, []);
      var facts := Record(cat, st.goals, st.facts, st.seqNo, o, inputs[0], mode, []);
      if facts.Ok? {
        RecordOwnedMoves(cat, rank, P, st.(facts := facts.value), focus, inputs[1..], mode);
      }
    }
  }

  lemma NewGoalMoves(
    cat: Catalogue, rank: map<string, nat>, P: Conversation -> bool, st: Conversation, goal: Option<nat>, e: Event)
    requires Ranked(cat, rank) && Steady(cat, rank, P) && P(st)
    requires e.NewGoal? && (goal.Some? ==> goal.value < |st.goals|)
    ensures OnNewGoal(cat, st, goal, e).Ok? ==> P(OnNewGoal(cat, st, goal, e).value)
  {
    var left :=
      if e.abandonCurrent && goal.Some? then st.(goals := AbandonByUser(st.goals, goal.value, st.seqNo)) else st;
    QuietMoves(cat, rank, P, st, left);
    PushMoves(cat, rank, P, left, e.goalCode, PLAIN.(caseRef := e.caseRef));
    var pushed := Push(cat, left, e.goalCode, PLAIN.(caseRef := e.caseRef));
    if pushed.Ok? {
      RecordForMoves(cat, rank, P, pushed.value, |left.goals|, e.facts);
    }
  }

  lemma ReclassificationMoves(
    cat: Catalogue, rank: map<string, nat>, P: Conversation -> bool, st: Conversation, goal: Option<nat>, code: string)
    requires Stable(cat, rank, P) && P(st) && (goal.Some? ==> goal.value < |st.goals|)
    ensures OnReclassification(cat, st, goal, code).Ok? ==> P(OnReclassification(cat, st, goal, code).value)
  {
    var r := OnReclassification(cat, st, goal, code);
    if r.Ok? {
      forall i | 0 <= i < |st.goals|
        ensures GoalMoved(cat, st, st.goals[i], r.value.goals[i], i)
      {
      }
      assert Move(cat, rank, st, r.value);
    }
  }

  lemma OverlayMoves(cat: Catalogue, rank: map<string, nat>, P: Conversation -> bool, st: Conversation, base: nat)
    requires Steady(cat, rank, P) && P(st) && base < |st.goals|
    ensures Overlay(cat, st, base).Ok? ==> P(Overlay(cat, st, base).value.0)
  {
    var found := LastOverlay(st.goals, base, |st.goals|);
    if found.None? {
      PushMoves(cat, rank, P, st, COMPLAINT_GOAL,
        PushOptions(Some(base), false, false, None, Some(base), None, st.goals[base].caseId));
    } else {
      QuietMoves(cat, rank, P, st, Overlay(cat, st, base).value.0);
    }
  }

  lemma ComplaintMoves(
    cat: Catalogue, rank: map<string, nat>, P: Conversation -> bool, st: Conversation, goal: Option<nat>, e: Event)
    requires Ranked(cat, rank) && Steady(cat, rank, P) && P(st)
    requires e.Complaint? && (goal.Some? ==> goal.value < |st.goals|)
    ensures OnComplaint(cat, st, goal, e).Ok? ==> P(OnComplaint(cat, st, goal, e).value)
  {
    if goal.None? && e.baseGoal.Some? {
      PushMoves(cat, rank, P, st, e.baseGoal.value, PLAIN.(caseRef := e.caseRef));
    }
    var base := ComplaintBase(cat, st, goal, e);
    if base.Ok? {
      RecordForMoves(cat, rank, P, base.value.0, base.value.1, e.baseFacts);
      var told := RecordFor(cat, base.value.0, base.value.1, e.baseFacts);
      if told.Ok? {
        OverlayMoves(cat, rank, P, told.value, base.value.1);
        var overlay := Overlay(cat, told.value, base.value.1);
        if overlay.Ok? {
          RecordForMoves(cat, rank, P, overlay.value.0, overlay.value.1, e.facts);
        }
      }
    }
  }

  lemma ParallelQuestionMoves(
    cat: Catalogue, rank: map<string, nat>, P: Conversation -> bool, st: Conversation, goal: Option<nat>, e: Event)
    requires Ranked(cat, rank) && Steady(cat, rank, P) && P(st)
    requires e.ParallelQuestion? && (goal.Some? ==> goal.value < |st.goals|)
    ensures OnParallelQuestion(cat, st, goal, e).Ok? ==> P(OnParallelQuestion(cat, st, goal, e).value)
  {
    var parked := if st.pending.Some? then st.(parked := st.parked + [st.pending.value], pending := None) else st;
    QuietMoves(cat, rank, P, st, parked);
    var opts := PushOptions(goal, false, false, None, None, None, CaseOfGoal(st.goals, goal));
    PushMoves(cat, rank, P, parked, e.goalCode, opts);
    var pushed := Push(cat, parked, e.goalCode, opts);
    if pushed.Ok? {
      RecordForMoves(cat, rank, P, pushed.value, |st.goals|, e.facts);
    }
  }

  lemma TakeMoves(cat: Catalogue, rank: map<string, nat>, P: Conversation -> bool, st: Conversation, e: Event)
    requires Ranked(cat, rank) && Steady(cat, rank, P) && P(st)
    requires e.Reclassification? ==> Stable(cat, rank, P)
    ensures Take(cat, st, e).Ok? ==> P(Take(cat, st, e).value)
  {
    var goal := ContextGoal(st.goals);
    match e
    case Answer(facts) => RecordOwnedMoves(cat, rank, P, st, goal, facts, ASSERT);
    case Complement(facts) => RecordOwnedMoves(cat, rank, P, st, goal, facts, ASSERT);
    case Correction(facts) => RecordOwnedMoves(cat, rank, P, st, goal, Sourced(facts, USER_CORRECTION), SUPERSEDE);
    case ChangeOfMind(facts) => RecordOwnedMoves(cat, rank, P, st, goal, Sourced(facts, USER_EXPLICIT), SUPERSEDE);
    case Uncertain(facts) => RecordOwnedMoves(cat, rank, P, st, goal, Hedged(facts), ASSERT);
    case NewGoal(_, _, _, _) => NewGoalMoves(cat, rank, P, st, goal, e);
    case Reclassification(code) => ReclassificationMoves(cat, rank, P, st, goal, code);
    case Complaint(_, _, _, _) => ComplaintMoves(cat, rank, P, st, goal, e);
    case ParallelQuestion(_, _) => ParallelQuestionMoves(cat, rank, P, st, goal, e);
    case HumanRequest =>
    case Social(_) =>
  }

  lemma {:induction false} SignalMoves(
    cat: Catalogue, rank: map<string, nat>, P: Conversation -> bool, st: Conversation,
    target: Option<nat>, inputs: seq<FactInput>)
    requires Ranked(cat, rank) && Steady(cat, rank, P) && P(st)
    requires target.Some? ==> target.value < |st.goals|
    ensures SignalFrom(cat, st, target, inputs).Ok? ==> P(SignalFrom(cat, st, target, inputs).value)
    decreases |inputs|
  {
    if inputs != [] {
      var input := inputs[0];
      var owner := OwnerGoal(cat, st.goals, input.code, target);
      if owner.Some? {
        RecordMoves(cat, rank, P, st, OwnerOf(st.goals, owner.value),
          input.(source := if input.source.Some? then input.source else Some(SYSTEM), authoritative := true),
          SUPERSEDE, []);
      }
      var next := SignalOne(cat, st, target, input);
      if next.Ok? {
        SignalMoves(cat, rank, P, next.value, target, inputs[1..]);
      }
    }
  }

  lemma FinishMoves(cat: Catalogue, rank: map<string, nat>, P: Conversation -> bool, st: Conversation, limit: nat)
    requires Ranked(cat, rank) && Valid(cat) && Steady(cat, rank, P) && P(st)
    ensures Finish(cat, st, limit).Ok? ==> P(Finish(cat, st, limit).value)
  {
    SettleMoves(cat, rank, P, st, limit);
    if Settle(cat, st, limit).Ok? {
      RefreshMoves(cat, rank, P, Settle(cat, st, limit).value);
    }
  }

  lemma SayMoves(
    cat: Catalogue, rank: map<string, nat>, P: Conversation -> bool, st: Conversation, e: Event, limit: nat)
    requires Ranked(cat, rank) && Valid(cat) && Steady(cat, rank, P) && P(st)
    requires e.Reclassification? ==> Stable(cat, rank, P)
    ensures Say(cat, st, e, limit).Ok? ==> P(Say(cat, st, e, limit).value)
  {
    TakeMoves(cat, rank, P, st, e);
    if Take(cat, st, e).Ok? {
      FinishMoves(cat, rank, P, Take(cat, st, e).value, limit);
    }
  }

  lemma HearMoves(
    cat: Catalogue, rank: map<string, nat>, P: Conversation -> bool, st: Conversation, e: Event, limit: nat)
    requires Ranked(cat, rank) && Valid(cat) && Steady(cat, rank, P) && P(st)
    requires e.Reclassification? ==> Stable(cat, rank, P)
    ensures Hear(cat, st, e, limit).Ok? ==> P(Hear(cat, st, e, limit).value)
  {
    if e.Social? || e.HumanRequest? {
      QuietMoves(cat, rank, P, st, st.(pending := None));
      RefreshMoves(cat, rank, P, st);
    } else {
      SayMoves(cat, rank, P, st, e, limit);
    }
  }

  lemma HeedMoves(
    cat: Catalogue, rank: map<string, nat>, P: Conversation -> bool, st: Conversation,
    goalId: Option<nat>, inputs: seq<FactInput>, limit: nat)
    requires Ranked(cat, rank) && Valid(cat) && Steady(cat, rank, P) && P(st)
    ensures Heed(cat, st, goalId, inputs, limit).Ok? ==> P(Heed(cat, st, goalId, inputs, limit).value)
  {
    if goalId.Some? ==> goalId.value < |st.goals| {
      SignalMoves(cat, rank, P, st, goalId, inputs);
      var told := SignalFrom(cat, st, goalId, inputs);
      if told.Ok? {
        FinishMoves(cat, rank, P, told.value, limit);
      }
    }
  }

  /** From the moment its number is taken a whole turn keeps every stable property,
      and any turn but a reclassification keeps every steady one. */
  lemma TurnMoves(cat: Catalogue, rank: map<string, nat>, P: Conversation -> bool, previous: Conversation, t: Turn)
    requires Ranked(cat, rank) && Valid(cat) && Steady(cat, rank, P)
    requires Recodes(t) ==> Stable(cat, rank, P)
    requires P(Numbered(previous))
    ensures Apply(cat, previous, t).Ok? ==> P(Apply(cat, previous, t).value)
  {
    match t
    case Said(e) => HearMoves(cat, rank, P, Numbered(previous), e, ROUNDS);
    case Signal(goalId, inputs) => HeedMoves(cat, rank, P, Numbered(previous), goalId, inputs, ROUNDS);
  }
}
