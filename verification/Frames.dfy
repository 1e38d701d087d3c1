/** What the operations do for a goal outside case d leaves d as it is. */
module Frames {
  import opened Basics
  import opened Catalog
  import opened State
  import opened Recording
  import opened Effects
  import opened Insertion
  import opened FactInvariants
  import opened Reducer
  import opened Moves
  import opened Settled
  import opened Visibility
  import opened Agreement

  /** No relation writes a fact of the whole conversation. */
  ghost predicate NoBroadcast(cat: Catalogue) {
    forall code {:trigger WrittenByRelation(cat, code)} ::
      WrittenByRelation(cat, code) ==> FactOf(cat, code).scope != CONVERSATION
  }

  /** What holds of every reachable state and every state inside a turn. */
  ghost predicate Shaped(cat: Catalogue, rank: map<string, nat>, d: nat, st: Conversation) {
    && FactsOk(cat, rank, st.facts, st.seqNo)
    && GoalsShaped(st.goals)
    && FactsShaped(cat, st.goals, d, st.facts)
  }

  lemma SeenStays(
    cat: Catalogue, d: nat, a: seq<GoalRecord>, b: seq<GoalRecord>, facts: seq<FactRecord>, j: nat)
    requires |a| <= |b| && (forall i | 0 <= i < |a| :: b[i].caseId == a[i].caseId)
    requires j < |facts| && FactShaped(cat, a, d, facts, j)
    ensures Sees(cat, a, d, facts[j]) == Sees(cat, b, d, facts[j])
  {
  }

  lemma GoalMoveKeepsShape(cat: Catalogue, rank: map<string, nat>, d: nat, a: Conversation, b: Conversation)
    requires Shaped(cat, rank, d, a) && GoalMove(cat, a, b)
    ensures Shaped(cat, rank, d, b)
  {
    forall i | 0 <= i < |b.goals|
      ensures GoalShaped(b.goals, i)
    {
      if i < |a.goals| {
        assert GoalShaped(a.goals, i) && GoalMoved(cat, a, a.goals[i], b.goals[i], i);
        if a.goals[i].parent.Some? {
          var p := a.goals[i].parent.value;
          assert GoalMoved(cat, a, a.goals[p], b.goals[p], p);
        }
      } else {
        assert GoalBorn(cat, b, i);
      }
    }
    forall i | 0 <= i < |a.goals|
      ensures b.goals[i].caseId == a.goals[i].caseId
    {
      assert GoalMoved(cat, a, a.goals[i], b.goals[i], i);
    }
    forall j | 0 <= j < |b.facts|
      ensures FactShaped(cat, b.goals, d, b.facts, j)
    {
      assert FactShaped(cat, a.goals, d, a.facts, j);
      SeenStays(cat, d, a.goals, b.goals, a.facts, j);
      forall x | x in b.facts[j].derivedFrom
        ensures x < |b.facts| && (Sees(cat, b.goals, d, b.facts[j]) ==> Sees(cat, b.goals, d, b.facts[x]))
      {
        SeenStays(cat, d, a.goals, b.goals, a.facts, x);
      }
    }
  }

  lemma NewFactShaped(
    cat: Catalogue, rank: map<string, nat>, d: nat, a: Conversation, b: seq<FactRecord>,
    o: Owner, e: Entry, mode: Mode, derivedFrom: seq<nat>)
    requires NoBroadcast(cat) && Legit(cat, rank, a, o, e, mode, derivedFrom)
    requires |a.facts| < |b| && History(a.facts, b)
    requires SameFact(NewFact(cat, o, e, a.seqNo, derivedFrom), b[|a.facts|])
    ensures FactShaped(cat, a.goals, d, b, |a.facts|)
  {
    var f := b[|a.facts|];
    forall x | x in f.derivedFrom
      ensures x < |b| && (Sees(cat, a.goals, d, f) ==> Sees(cat, a.goals, d, b[x]))
    {
      assert IsLive(cat, a.facts[x], KeyFor(cat, a.facts[x].code, o));
      assert Evolved(a.facts[x], b[x]);
    }
  }

  lemma FactMoveKeepsShape(
    cat: Catalogue, rank: map<string, nat>, d: nat, a: Conversation, b: Conversation,
    o: Owner, e: Entry, mode: Mode, derivedFrom: seq<nat>)
    requires Valid(cat) && Ranked(cat, rank) && NoBroadcast(cat)
    requires Shaped(cat, rank, d, a) && Legit(cat, rank, a, o, e, mode, derivedFrom)
    requires b == a.(facts := Insert(cat, a.goals, a.facts, a.seqNo, o, e, mode, derivedFrom))
    ensures Shaped(cat, rank, d, b)
  {
    InsertKeepsFacts(cat, rank, a.goals, a.facts, a.seqNo, o, e, mode, derivedFrom);
    InsertAppends(cat, rank, a.goals, a.facts, a.seqNo, o, e, mode, derivedFrom);
    forall j | 0 <= j < |b.facts|
      ensures FactShaped(cat, b.goals, d, b.facts, j)
    {
      if j < |a.facts| {
        assert FactShaped(cat, a.goals, d, a.facts, j) && Evolved(a.facts[j], b.facts[j]);
        forall x | x in b.facts[j].derivedFrom
          ensures x < |b.facts| && (Sees(cat, b.goals, d, b.facts[j]) ==> Sees(cat, b.goals, d, b.facts[x]))
        {
          assert Evolved(a.facts[x], b.facts[x]);
        }
      } else {
        NewFactShaped(cat, rank, d, a, b.facts, o, e, mode, derivedFrom);
      }
    }
  }

  lemma InsertAppends(
    cat: Catalogue, rank: map<string, nat>, goals: seq<GoalRecord>, a: seq<FactRecord>, now: nat,
    o: Owner, e: Entry, mode: Mode, derivedFrom: seq<nat>)
    requires Ranked(cat, rank) && FactsOk(cat, rank, a, now)
    ensures var b := Insert(cat, goals, a, now, o, e, mode, derivedFrom);
            |a| < |b| ==> SameFact(NewFact(cat, o, e, now, derivedFrom), b[|a|])
  {
    InsertFates(cat, rank, goals, a, now, o, e, mode, derivedFrom);
  }

  lemma ShapedIsStable(cat: Catalogue, rank: map<string, nat>, d: nat, P: Conversation -> bool)
    requires Valid(cat) && Ranked(cat, rank) && NoBroadcast(cat)
    requires forall s :: P(s) <==> Shaped(cat, rank, d, s)
    ensures Stable(cat, rank, P)
  {
    forall a, b | P(a) && Move(cat, rank, a, b)
      ensures P(b)
    {
      if FactMove(cat, rank, a, b) {
        var o, e, mode, derivedFrom :| Legit(cat, rank, a, o, e, mode, derivedFrom)
          && b == a.(facts := Insert(cat, a.goals, a.facts, a.seqNo, o, e, mode, derivedFrom));
        FactMoveKeepsShape(cat, rank, d, a, b, o, e, mode, derivedFrom);
      } else {
        GoalMoveKeepsShape(cat, rank, d, a, b);
      }
    }
  }

  /** The standing hypotheses: P is kept by every move and implies the shape. */
  ghost predicate World(cat: Catalogue, rank: map<string, nat>, d: nat, P: Conversation -> bool) {
    && Ranked(cat, rank) && Valid(cat) && NoBroadcast(cat) && Stable(cat, rank, P)
    && forall s {:trigger Shaped(cat, rank, d, s)} :: P(s) ==> Shaped(cat, rank, d, s)
  }

  // ----- one operation for a goal outside d -----

  lemma InsertSpares(
    cat: Catalogue, d: nat, st: Conversation, gi: nat, e: Entry, mode: Mode, derivedFrom: seq<nat>)
    requires FactsShaped(cat, st.goals, d, st.facts) && gi < |st.goals| && !InCase(st.goals, d, gi)
    requires FactOf(cat, e.code).scope != CONVERSATION
    ensures Agree(cat, d, st, st.(facts :=
              Insert(cat, st.goals, st.facts, st.seqNo, OwnerOf(st.goals, gi), e, mode, derivedFrom)))
  {
    var o := OwnerOf(st.goals, gi);
    var facts := Insert(cat, st.goals, st.facts, st.seqNo, o, e, mode, derivedFrom);
    InsertKeeps(cat, st.goals, d, st.facts, st.seqNo, o, e, mode, derivedFrom);
    FactsAgree(cat, d, st, facts);
  }

  lemma FactsAgree(cat: Catalogue, d: nat, st: Conversation, facts: seq<FactRecord>)
    requires AllKept(cat, st.goals, d, st.facts, facts)
    requires |facts| <= |st.facts| + 1
    requires |facts| > |st.facts| ==> !Sees(cat, st.goals, d, facts[|st.facts|])
    ensures Agree(cat, d, st, st.(facts := facts))
  {
    KeptAgree(cat, d, st.goals, st.facts, facts);
  }

  lemma RecordSpares(
    cat: Catalogue, d: nat, st: Conversation, gi: nat, input: FactInput, mode: Mode, derivedFrom: seq<nat>)
    requires FactsShaped(cat, st.goals, d, st.facts) && gi < |st.goals| && !InCase(st.goals, d, gi)
    requires FactOf(cat, input.code).scope != CONVERSATION
    ensures var r := Record(cat, st.goals, st.facts, st.seqNo, OwnerOf(st.goals, gi), input, mode, derivedFrom);
            r.Ok? ==> Agree(cat, d, st, st.(facts := r.value))
  {
    var e := Admitted(cat, input, mode);
    if e.Ok? {
      InsertSpares(cat, d, st, gi, e.value, mode, derivedFrom);
    }
  }

  predicate PushesGoal(e: Effect, code: string) {
    e.PushGoal? && e.goalCode == code
  }

  /** A relation pushes goals of the code, and such a goal has a case of the kind. */
  ghost predicate Opens(cat: Catalogue, kind: string, code: string) {
    && code in cat.goals && cat.goals[code].createsCase && cat.goals[code].caseSubject == kind
    && exists r, e :: r in cat.relations && (e in r.effects || e in r.onChildResolved) && PushesGoal(e, code)
  }

  /** No relation could take case d for the one it opens in this turn, from a goal that has none. */
  ghost predicate RefFree(cat: Catalogue, d: nat, st: Conversation) {
    && d < |st.cases|
    && (|| AllCased(st.goals)
        || forall code {:trigger Opens(cat, st.cases[d].subjectKind, code)} ::
             Opens(cat, st.cases[d].subjectKind, code) ==> st.cases[d].subjectRef != AutomaticRef(code, st.seqNo))
  }

  /** The step opens no goal, or cannot open one in case d by accident. */
  ghost predicate Safe(cat: Catalogue, d: nat, st: Conversation, r: Conversation) {
    |r.goals| == |st.goals| || RefFree(cat, d, st)
  }

  lemma PushSpares(
    cat: Catalogue, rank: map<string, nat>, d: nat, st: Conversation, gi: nat, code: string, opts: PushOptions)
    requires Shaped(cat, rank, d, st) && gi < |st.goals| && !InCase(st.goals, d, gi)
    requires opts.parent == Some(gi) && opts.reuseCase == st.goals[gi].caseId && opts.caseRef.None?
    requires RefFree(cat, d, st) && Push(cat, st, code, opts).Ok?
    requires code in cat.goals && cat.goals[code].createsCase ==> Opens(cat, cat.goals[code].caseSubject, code)
    ensures Agree(cat, d, st, Push(cat, st, code, opts).value)
  {
    var b := Push(cat, st, code, opts).value;
    assert b.goals[|st.goals|].caseId != Some(d);
    assert SameGoals(d, st.goals, b.goals);
    forall j: nat
      ensures FactIn(cat, d, st.goals, st.facts, j) == FactIn(cat, d, b.goals, b.facts, j)
    {
      if j < |st.facts| {
        assert FactShaped(cat, st.goals, d, st.facts, j);
        SeenStays(cat, d, st.goals, b.goals, st.facts, j);
      }
    }
    SameCase(d, st.goals, b.goals);
  }

  lemma ResumeSpares(d: nat, goals: seq<GoalRecord>, child: nat)
    requires GoalsShaped(goals) && child < |goals| && !InCase(goals, d, child)
    ensures SameGoals(d, goals, Resume(goals, child)) && GoalsShaped(Resume(goals, child))
  {
    assert GoalShaped(goals, child);
    var r := Resume(goals, child);
    SameShape(goals, r);
  }

  lemma SameShape(a: seq<GoalRecord>, b: seq<GoalRecord>)
    requires GoalsShaped(a) && |a| == |b|
    requires forall i | 0 <= i < |a| :: b[i].parent == a[i].parent && b[i].caseId == a[i].caseId
    ensures GoalsShaped(b)
  {
    forall i | 0 <= i < |b|
      ensures GoalShaped(b, i)
    {
      assert GoalShaped(a, i);
    }
  }

  lemma {:induction false} AbandonSpares(
    d: nat, goals: seq<GoalRecord>, dependency: string, caseId: Option<nat>, why: string, now: nat, k: nat,
    changed: bool)
    requires GoalsShaped(goals) && caseId != Some(d) && k <= |goals|
    ensures SameGoals(d, goals, AbandonFrom(goals, dependency, caseId, why, now, k, changed).0)
    decreases |goals| - k
  {
    if k < |goals| {
      if Abandons(goals[k], dependency, caseId) {
        var marked := goals[k := goals[k].(status := ABANDONED, reason := Some(why), closedAt := Some(now))];
        SameShape(goals, marked);
        ResumeSpares(d, marked, k);
        var next := AbandonOne(goals, k, why, now);
        AbandonSpares(d, next, dependency, caseId, why, now, k + 1, true);
        SameGoalsChain(d, goals, marked, next);
        SameGoalsChain(d, goals, next, AbandonFrom(next, dependency, caseId, why, now, k + 1, true).0);
      } else {
        AbandonSpares(d, goals, dependency, caseId, why, now, k + 1, changed);
      }
    }
  }

  lemma SameGoalsChain(d: nat, a: seq<GoalRecord>, b: seq<GoalRecord>, c: seq<GoalRecord>)
    requires SameGoals(d, a, b) && SameGoals(d, b, c)
    ensures SameGoals(d, a, c)
  {
    forall i: nat
      ensures GoalIn(d, a, i) == GoalIn(d, c, i)
    {
      assert GoalIn(d, a, i) == GoalIn(d, b, i);
    }
  }

  lemma EffectSpares(
    cat: Catalogue, rank: map<string, nat>, d: nat, st: Conversation, gi: nat, r: Relation, e: Effect, relation: string)
    requires NoBroadcast(cat) && Shaped(cat, rank, d, st) && gi < |st.goals| && !InCase(st.goals, d, gi)
    requires r in cat.relations && (e in r.effects || e in r.onChildResolved)
    requires ApplyEffect(cat, st, gi, e, relation).Ok?
    requires Safe(cat, d, st, ApplyEffect(cat, st, gi, e, relation).value.st)
    ensures Agree(cat, d, st, ApplyEffect(cat, st, gi, e, relation).value.st)
  {
    var next := ApplyEffect(cat, st, gi, e, relation).value.st;
    match e
    case AssertDerived(code, value, from) =>
      assert Writes(e, code) && WrittenByRelation(cat, code);
      RecordSpares(cat, d, st, gi, FactInput(code, value, Some(DERIVED_RULE), None, false), DERIVE,
        FactIds(cat, st.facts, OwnerOf(st.goals, gi), from));
      AgreeSelf(cat, d, st, st);
    case RecordSystem(code, value, source, authoritative) =>
      assert Writes(e, code) && WrittenByRelation(cat, code);
      RecordSpares(cat, d, st, gi, FactInput(code, value, Some(source), None, authoritative), DERIVE, []);
      AgreeSelf(cat, d, st, st);
    case PushGoal(code, suspendParent, returnToParent) =>
      if next == st {
        AgreeSelf(cat, d, st, st);
      } else {
        assert PushesGoal(e, code);
        PushSpares(cat, rank, d, st, gi, code,
          PushOptions(Some(gi), suspendParent, returnToParent, Some(relation), None, None, st.goals[gi].caseId));
      }
    case SetStatus(status, reason) =>
      GoalsAgree(cat, d, st, next);
    case RequireAction(action, executor) =>
      ActionsOfAppend(st.actions, PendingAction(action, executor, gi, st.seqNo), GoalsOf(d, st.goals));
      GoalsAgree(cat, d, st, next);
    case SatisfyDependency(dependency, why) =>
      AbandonSpares(d, st.goals, dependency, st.goals[gi].caseId, why, st.seqNo, 0, false);
      GoalsAgree(cat, d, st, next);
    case NoEffect =>
      AgreeSelf(cat, d, st, st);
  }

  lemma SafeSteps(cat: Catalogue, d: nat, a: Conversation, b: Conversation, c: Conversation)
    requires Onward(a, b) && Onward(b, c) && Safe(cat, d, a, c)
    ensures Safe(cat, d, a, b) && Safe(cat, d, b, c)
  {
  }

  lemma OutsideStays(cat: Catalogue, d: nat, a: Conversation, b: Conversation, gi: nat)
    requires Agree(cat, d, a, b)
    ensures InCase(a.goals, d, gi) == InCase(b.goals, d, gi)
  {
    SameGoalsIs(d, a.goals, b.goals, gi);
  }

  lemma {:induction false} EffectsSpare(
    cat: Catalogue, rank: map<string, nat>, d: nat, P: Conversation -> bool, st: Conversation, gi: nat,
    r: Relation, effects: seq<Effect>, relation: string, changed: bool)
    requires World(cat, rank, d, P) && P(st) && gi < |st.goals| && !InCase(st.goals, d, gi)
    requires r in cat.relations && forall e | e in effects :: e in r.effects || e in r.onChildResolved
    requires ApplyEffects(cat, st, gi, effects, relation, changed).Ok?
    requires Safe(cat, d, st, ApplyEffects(cat, st, gi, effects, relation, changed).value.st)
    ensures Agree(cat, d, st, ApplyEffects(cat, st, gi, effects, relation, changed).value.st)
    decreases |effects|
  {
    if effects == [] {
      AgreeSelf(cat, d, st, st);
    } else {
      var s := ApplyEffect(cat, st, gi, effects[0], relation).value;
      var last := ApplyEffects(cat, s.st, gi, effects[1..], relation, changed || s.changed).value;
      SafeSteps(cat, d, st, s.st, last.st);
      EffectSpares(cat, rank, d, st, gi, r, effects[0], relation);
      EffectMoves(cat, rank, P, st, gi, r, effects[0], relation);
      OutsideStays(cat, d, st, s.st, gi);
      EffectsSpare(cat, rank, d, P, s.st, gi, r, effects[1..], relation, changed || s.changed);
      AgreeChain(cat, d, st, s.st, last.st);
    }
  }

  // ----- resolving, waiting and reopening outside d -----

  lemma TellSpares(cat: Catalogue, rank: map<string, nat>, d: nat, P: Conversation -> bool, st: Conversation, gi: nat)
    requires World(cat, rank, d, P) && P(st) && gi < |st.goals| && !InCase(st.goals, d, gi)
    requires Tell(cat, st, gi).Ok? && Safe(cat, d, st, Tell(cat, st, gi).value)
    ensures Agree(cat, d, st, Tell(cat, st, gi).value)
  {
    var g := st.goals[gi];
    var relation := if g.createdBy.Some? then FindRelation(cat.relations, g.createdBy.value) else None;
    if relation.Some? && g.parent.Some? && g.parent.value < |st.goals| {
      var r := relation.value;
      assert Shaped(cat, rank, d, st) && GoalShaped(st.goals, gi);
      EffectsSpare(cat, rank, d, P, st, g.parent.value, r, r.onChildResolved, r.code, false);
    } else {
      AgreeSelf(cat, d, st, st);
    }
  }

  lemma ResumeAgrees(cat: Catalogue, rank: map<string, nat>, d: nat, st: Conversation, gi: nat)
    requires Shaped(cat, rank, d, st) && gi < |st.goals| && !InCase(st.goals, d, gi)
    ensures Agree(cat, d, st, st.(goals := Resume(st.goals, gi)))
  {
    ResumeSpares(d, st.goals, gi);
    GoalsAgree(cat, d, st, st.(goals := Resume(st.goals, gi)));
  }

  lemma ResolveOneSpares(
    cat: Catalogue, rank: map<string, nat>, d: nat, P: Conversation -> bool, st: Conversation, gi: nat)
    requires World(cat, rank, d, P) && P(st) && gi < |st.goals| && !InCase(st.goals, d, gi)
    requires st.goals[gi].status == ACTIVE && Complete(cat, st, gi)
    requires ResolveOne(cat, st, gi).Ok? && Safe(cat, d, st, ResolveOne(cat, st, gi).value)
    ensures Agree(cat, d, st, ResolveOne(cat, st, gi).value)
  {
    var closed := MarkResolved(st, gi);
    var told := Tell(cat, closed, gi).value;
    MarkMoves(cat, rank, P, st, gi);
    GoalsAgree(cat, d, st, closed);
    TellSpares(cat, rank, d, P, closed, gi);
    TellMoves(cat, rank, P, closed, gi);
    AgreeChain(cat, d, st, closed, told);
    OutsideStays(cat, d, st, told, gi);
    ResumeAgrees(cat, rank, d, told, gi);
    AgreeChain(cat, d, st, told, told.(goals := Resume(told.goals, gi)));
  }

  /** No goal of d below n is about to resolve. */
  ghost predicate NoneReady(cat: Catalogue, d: nat, st: Conversation, n: nat) {
    forall i: nat | i < n && InCase(st.goals, d, i) :: !(st.goals[i].status == ACTIVE && Complete(cat, st, i))
  }

  lemma ReadyAgrees(cat: Catalogue, d: nat, a: Conversation, b: Conversation, n: nat)
    requires Agree(cat, d, a, b) && NoneReady(cat, d, a, n)
    ensures NoneReady(cat, d, b, n)
  {
    forall i: nat | i < n && InCase(b.goals, d, i)
      ensures !(b.goals[i].status == ACTIVE && Complete(cat, b, i))
    {
      SameGoalsIs(d, a.goals, b.goals, i);
      MissingAgrees(cat, d, a, b, i);
    }
  }

  lemma ResolveAtSpares(
    cat: Catalogue, rank: map<string, nat>, d: nat, P: Conversation -> bool, st: Conversation, gi: nat)
    requires World(cat, rank, d, P) && P(st) && gi < |st.goals| && NoneReady(cat, d, st, gi + 1)
    requires ResolveAt(cat, st, gi).Ok? && Safe(cat, d, st, ResolveAt(cat, st, gi).value.st)
    ensures var next := ResolveAt(cat, st, gi).value.st;
            Agree(cat, d, st, next) && P(next) && NoneReady(cat, d, next, gi)
  {
    if st.goals[gi].status == ACTIVE && Complete(cat, st, gi) {
      ResolveOneSpares(cat, rank, d, P, st, gi);
      ResolveOneMoves(cat, rank, P, st, gi);
    } else {
      AgreeSelf(cat, d, st, st);
    }
    ReadyAgrees(cat, d, st, ResolveAt(cat, st, gi).value.st, gi);
  }

  lemma {:induction false} ResolveSpares(
    cat: Catalogue, rank: map<string, nat>, d: nat, P: Conversation -> bool, st: Conversation, n: nat,
    changed: bool, last: Step)
    requires World(cat, rank, d, P) && P(st) && n <= |st.goals| && NoneReady(cat, d, st, n)
    requires ResolveFrom(cat, st, n, changed) == Ok(last) && Safe(cat, d, st, last.st)
    ensures Agree(cat, d, st, last.st)
    decreases n
  {
    if n == 0 {
      AgreeSelf(cat, d, st, st);
    } else {
      ResolveFromStep(cat, st, n, changed);
      var s := ResolveAt(cat, st, n - 1).value;
      SafeSteps(cat, d, st, s.st, last.st);
      ResolveAtSpares(cat, rank, d, P, st, n - 1);
      ResolveSpares(cat, rank, d, P, s.st, n - 1, changed || s.changed, last);
      AgreeChain(cat, d, st, s.st, last.st);
    }
  }

  lemma SyncGoalSpares(cat: Catalogue, d: nat, st: Conversation, k: nat)
    requires k < |st.goals| && !InCase(st.goals, d, k)
    ensures Agree(cat, d, st, SyncGoal(cat, st, k))
  {
    SyncGoalIs(cat, st, k);
    var who := GoalsOf(d, st.goals);
    KeepOnlySpares(st.actions, k, None, who);
    var blocking := Blocking(cat, st.facts, st.goals, k);
    if blocking.Some? {
      AwaitSpares(st.actions, k, blocking.value, st.seqNo, who);
    }
    GoalsAgree(cat, d, st, SyncGoal(cat, st, k));
  }

  lemma {:induction false} SyncSpares(cat: Catalogue, d: nat, st: Conversation, k: nat)
    requires k <= |st.goals| && forall i: nat | k <= i :: !InCase(st.goals, d, i)
    ensures Agree(cat, d, st, SyncFrom(cat, st, k))
    decreases |st.goals| - k
  {
    if k == |st.goals| {
      AgreeSelf(cat, d, st, st);
    } else {
      var next := SyncGoal(cat, st, k);
      SyncGoalSpares(cat, d, st, k);
      forall i: nat | k + 1 <= i
        ensures !InCase(next.goals, d, i)
      {
        OutsideStays(cat, d, st, next, i);
      }
      SyncSpares(cat, d, next, k + 1);
      AgreeChain(cat, d, st, next, SyncFrom(cat, next, k + 1));
    }
  }

  /** No fact that d sees was superseded at this moment. */
  ghost predicate NoFreshLoss(cat: Catalogue, d: nat, st: Conversation) {
    forall i: nat | i < |st.facts| && Sees(cat, st.goals, d, st.facts[i]) :: st.facts[i].supersededAt != Some(st.seqNo)
  }

  lemma StruckIsSeen(cat: Catalogue, d: nat, st: Conversation, k: nat, i: nat)
    requires k < |st.goals| && i < |st.facts| && Invalidates(cat, st, k, st.facts[i]) && InCase(st.goals, d, k)
    ensures Sees(cat, st.goals, d, st.facts[i])
  {
    OwnKeySeen(cat, d, st.goals, k, st.facts[i].code);
  }

  lemma ReopenOneSpares(cat: Catalogue, d: nat, st: Conversation, k: nat)
    requires GoalsShaped(st.goals) && NoFreshLoss(cat, d, st) && k < |st.goals| && MustReopen(cat, st, k)
    ensures SameGoals(d, st.goals, ReopenOne(st.goals, k)) && GoalsShaped(ReopenOne(st.goals, k))
  {
    var i :| 0 <= i < |st.facts| && Invalidates(cat, st, k, st.facts[i]);
    assert !InCase(st.goals, d, k) by {
      if InCase(st.goals, d, k) {
        StruckIsSeen(cat, d, st, k, i);
      }
    }
    assert GoalShaped(st.goals, k);
    SameShape(st.goals, ReopenOne(st.goals, k));
  }

  lemma {:induction false} ReopenSpares(cat: Catalogue, d: nat, st: Conversation, k: nat)
    requires GoalsShaped(st.goals) && NoFreshLoss(cat, d, st) && k <= |st.goals|
    ensures Agree(cat, d, st, ReopenFrom(cat, st, k))
    decreases |st.goals| - k
  {
    if k == |st.goals| {
      AgreeSelf(cat, d, st, st);
    } else if MustReopen(cat, st, k) {
      var next := st.(goals := ReopenOne(st.goals, k));
      ReopenOneSpares(cat, d, st, k);
      GoalsAgree(cat, d, st, next);
      FreshLossStays(cat, d, st, next);
      ReopenSpares(cat, d, next, k + 1);
      AgreeChain(cat, d, st, next, ReopenFrom(cat, next, k + 1));
    } else {
      ReopenSpares(cat, d, st, k + 1);
    }
  }

  lemma FreshLossStays(cat: Catalogue, d: nat, a: Conversation, b: Conversation)
    requires Agree(cat, d, a, b) && NoFreshLoss(cat, d, a) && a.seqNo == b.seqNo
    ensures NoFreshLoss(cat, d, b)
  {
    forall i: nat | i < |b.facts| && Sees(cat, b.goals, d, b.facts[i])
      ensures b.facts[i].supersededAt != Some(b.seqNo)
    {
      assert FactIn(cat, d, a.goals, a.facts, i) == FactIn(cat, d, b.goals, b.facts, i);
    }
  }
}
