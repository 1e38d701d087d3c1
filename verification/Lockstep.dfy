/**
 Two runs of the relations side by side: a, which comes out as it went in, and b,
 which case d cannot tell from a. Whatever b does elsewhere, d cannot tell the
 results apart either.
 */
module Lockstep {
  import opened Basics
  import opened Catalog
  import opened State
  import opened Recording
  import opened Reducer
  import opened Moves
  import opened Settled
  import opened Visibility
  import opened Agreement
  import opened Frames
  import opened Growth

  // ----- one effect on a goal of d -----

  lemma {:induction false} WithValueAgrees(a: seq<FactRecord>, b: seq<FactRecord>, live: seq<nat>, v: Value)
    requires forall x | 0 <= x < |live| :: live[x] < |a| && live[x] < |b| && b[live[x]] == a[live[x]]
    ensures WithValue(a, live, v) == WithValue(b, live, v)
    decreases |live|
  {
    if live != [] {
      WithValueAgrees(a, b, live[1..], v);
    }
  }

  lemma HoldsAgrees(cat: Catalogue, d: nat, a: Conversation, b: Conversation, gi: nat, code: string, v: Value)
    requires Readers(cat, d, a, b, gi)
    ensures AlreadyHolds(cat, a.facts, OwnerOf(a.goals, gi), code, v)
         == AlreadyHolds(cat, b.facts, OwnerOf(b.goals, gi), code, v)
  {
    FirstAgrees(cat, d, a, b, gi, code);
  }

  /** A recording that leaves a as it is leaves b as it is. */
  lemma RecordAgrees(
    cat: Catalogue, d: nat, a: Conversation, b: Conversation, gi: nat, input: FactInput, mode: Mode,
    x: seq<nat>, y: seq<nat>)
    requires Readers(cat, d, a, b, gi)
    requires !AlreadyHolds(cat, a.facts, OwnerOf(a.goals, gi), input.code, input.value)
    requires Record(cat, a.goals, a.facts, a.seqNo, OwnerOf(a.goals, gi), input, mode, x) == Ok(a.facts)
    ensures Record(cat, b.goals, b.facts, b.seqNo, OwnerOf(b.goals, gi), input, mode, y) == Ok(b.facts)
  {
    var o := OwnerOf(a.goals, gi);
    var e := Admitted(cat, input, mode).value;
    InsertGrows(cat, a.goals, a.facts, a.seqNo, o, e, mode, x);
    SameGoalsIs(d, a.goals, b.goals, gi);
    OwnKeySeen(cat, d, a.goals, gi, input.code);
    LiveAgree(cat, d, a, b, KeyFor(cat, input.code, o));
    WithValueAgrees(a.facts, b.facts, Live(cat, a.facts, KeyFor(cat, input.code, o)), input.value);
  }

  lemma PushedAgrees(d: nat, a: seq<GoalRecord>, b: seq<GoalRecord>, code: string, relation: string)
    requires SameGoals(d, a, b) && AlreadyPushed(a, code, relation, Some(d))
    ensures AlreadyPushed(b, code, relation, Some(d))
  {
    var i :| 0 <= i < |a| && a[i].code == code && a[i].createdBy == Some(relation) && a[i].caseId == Some(d)
      && !Recalculable(a[i]);
    SameGoalsIs(d, a, b, i);
    assert b[i].code == code;
  }

  lemma {:induction false} AbandonNone(
    goals: seq<GoalRecord>, dependency: string, caseId: Option<nat>, why: string, now: nat, k: nat)
    requires k <= |goals|
    ensures AbandonFrom(goals, dependency, caseId, why, now, k, false) == (goals, false)
       <==> forall i | k <= i < |goals| :: !Abandons(goals[i], dependency, caseId)
    decreases |goals| - k
  {
    if k < |goals| && !Abandons(goals[k], dependency, caseId) {
      AbandonNone(goals, dependency, caseId, why, now, k + 1);
    }
  }

  lemma AbandonAgrees(
    cat: Catalogue, d: nat, a: Conversation, b: Conversation, dependency: string, why: string)
    requires SameGoals(d, a.goals, b.goals)
    requires AbandonFrom(a.goals, dependency, Some(d), why, a.seqNo, 0, false) == (a.goals, false)
    ensures AbandonFrom(b.goals, dependency, Some(d), why, b.seqNo, 0, false) == (b.goals, false)
  {
    AbandonNone(a.goals, dependency, Some(d), why, a.seqNo, 0);
    AbandonNone(b.goals, dependency, Some(d), why, b.seqNo, 0);
    forall i | 0 <= i < |b.goals|
      ensures !Abandons(b.goals[i], dependency, Some(d))
    {
      SameGoalsIs(d, a.goals, b.goals, i);
    }
  }

  /** The same new record for a goal of d in both. */
  lemma SetAgrees(
    cat: Catalogue, d: nat, a: Conversation, b: Conversation, gi: nat, g: GoalRecord,
    x: seq<PendingAction>, y: seq<PendingAction>)
    requires Agree(cat, d, a, b) && InCase(a.goals, d, gi) && InCase(b.goals, d, gi) && g.caseId == Some(d)
    requires Bare(ActionsOf(x, GoalsOf(d, a.goals))) == Bare(ActionsOf(y, GoalsOf(d, b.goals)))
    ensures Agree(cat, d, a.(goals := a.goals[gi := g], actions := x), b.(goals := b.goals[gi := g], actions := y))
  {
    var a', b' := a.(goals := a.goals[gi := g], actions := x), b.(goals := b.goals[gi := g], actions := y);
    assert GoalsOf(d, a'.goals) == GoalsOf(d, a.goals) && GoalsOf(d, b'.goals) == GoalsOf(d, b.goals);
    forall i: nat
      ensures GoalIn(d, a'.goals, i) == GoalIn(d, b'.goals, i)
    {
      assert GoalIn(d, a.goals, i) == GoalIn(d, b.goals, i);
    }
    forall i: nat
      ensures FactIn(cat, d, a'.goals, a'.facts, i) == FactIn(cat, d, b'.goals, b'.facts, i)
    {
      assert FactIn(cat, d, a.goals, a.facts, i) == FactIn(cat, d, b.goals, b.facts, i);
      assert FactIn(cat, d, a'.goals, a'.facts, i) == FactIn(cat, d, a.goals, a.facts, i);
      assert FactIn(cat, d, b'.goals, b'.facts, i) == FactIn(cat, d, b.goals, b.facts, i);
    }
  }

  lemma ActionAgrees(
    cat: Catalogue, d: nat, a: Conversation, b: Conversation, x: seq<PendingAction>, y: seq<PendingAction>)
    requires Agree(cat, d, a, b)
    requires Bare(ActionsOf(x, GoalsOf(d, a.goals))) == Bare(ActionsOf(y, GoalsOf(d, b.goals)))
    ensures Agree(cat, d, a.(actions := x), b.(actions := y))
  {
    forall i: nat
      ensures FactIn(cat, d, a.goals, a.facts, i) == FactIn(cat, d, b.goals, b.facts, i)
    {
    }
  }

  lemma RequireAgrees(
    cat: Catalogue, d: nat, a: Conversation, b: Conversation, gi: nat, action: string, executor: Executor)
    requires Agree(cat, d, a, b) && InCase(a.goals, d, gi)
    ensures HasAction(a.actions, action, gi) == HasAction(b.actions, action, gi)
    ensures Agree(cat, d,
              a.(actions := a.actions + [PendingAction(action, executor, gi, a.seqNo)]),
              b.(actions := b.actions + [PendingAction(action, executor, gi, b.seqNo)]))
  {
    SameCase(d, a.goals, b.goals);
    var who := GoalsOf(d, a.goals);
    if HasAction(a.actions, action, gi) {
      HasActionAgrees(a.actions, b.actions, who, action, gi);
    }
    if HasAction(b.actions, action, gi) {
      HasActionAgrees(b.actions, a.actions, who, action, gi);
    }
    var u, v := PendingAction(action, executor, gi, a.seqNo), PendingAction(action, executor, gi, b.seqNo);
    AppendAgrees(a.actions, b.actions, u, v, who);
    ActionAgrees(cat, d, a, b, a.actions + [u], b.actions + [v]);
  }

  lemma EffectAgrees(cat: Catalogue, d: nat, a: Conversation, b: Conversation, gi: nat, e: Effect, relation: string)
    requires Agree(cat, d, a, b) && a.forbidden == b.forbidden && InCase(a.goals, d, gi) && InCase(b.goals, d, gi)
    requires ApplyEffect(cat, a, gi, e, relation).Ok? && ApplyEffect(cat, b, gi, e, relation).Ok?
    requires Inert(a, ApplyEffect(cat, a, gi, e, relation).value.st)
    ensures Agree(cat, d, ApplyEffect(cat, a, gi, e, relation).value.st, ApplyEffect(cat, b, gi, e, relation).value.st)
    ensures GoalsOf(d, ApplyEffect(cat, a, gi, e, relation).value.st.goals) == GoalsOf(d, a.goals)
  {
    SameGoalsIs(d, a.goals, b.goals, gi);
    var r := ApplyEffect(cat, a, gi, e, relation).value.st;
    match e
    case AssertDerived(code, value, from) =>
      HoldsAgrees(cat, d, a, b, gi, code, value);
      if !AlreadyHolds(cat, a.facts, OwnerOf(a.goals, gi), code, value) {
        RecordAgrees(cat, d, a, b, gi, FactInput(code, value, Some(DERIVED_RULE), None, false), DERIVE,
          FactIds(cat, a.facts, OwnerOf(a.goals, gi), from), FactIds(cat, b.facts, OwnerOf(b.goals, gi), from));
      }
    case RecordSystem(code, value, source, authoritative) =>
      HoldsAgrees(cat, d, a, b, gi, code, value);
      if !AlreadyHolds(cat, a.facts, OwnerOf(a.goals, gi), code, value) {
        RecordAgrees(cat, d, a, b, gi, FactInput(code, value, Some(source), None, authoritative), DERIVE, [], []);
      }
    case PushGoal(code, suspendParent, returnToParent) =>
      if AlreadyPushed(a.goals, code, relation, Some(d)) {
        PushedAgrees(d, a.goals, b.goals, code, relation);
      }
    case SetStatus(status, reason) =>
      var g := a.goals[gi];
      if !(g.status == status || g.status in {RESOLVED, ABANDONED}) {
        SetAgrees(cat, d, a, b, gi,
          g.(status := status, reason := if reason.Some? then reason else Some(relation)), a.actions, b.actions);
      }
    case RequireAction(action, executor) =>
      RequireAgrees(cat, d, a, b, gi, action, executor);
    case SatisfyDependency(dependency, why) =>
      AbandonGrows(a.goals, dependency, Some(d), why, a.seqNo, 0, false);
      AbandonAgrees(cat, d, a, b, dependency, why);
    case NoEffect =>
  }

  // ----- side by side -----

  ghost predicate Twins(
    cat: Catalogue, d: nat, P: Conversation -> bool, a: Conversation, b: Conversation, who: set<nat>)
  {
    && P(a) && P(b) && Agree(cat, d, a, b) && a.forbidden == b.forbidden && RefFree(cat, d, b)
    && GoalsOf(d, a.goals) == who && GoalsOf(d, b.goals) == who
  }

  lemma RefFreeStays(cat: Catalogue, d: nat, a: Conversation, b: Conversation)
    requires RefFree(cat, d, a) && Onward(a, b)
    ensures RefFree(cat, d, b)
  {
  }

  lemma TwinsOn(
    cat: Catalogue, d: nat, P: Conversation -> bool, a: Conversation, b: Conversation, who: set<nat>,
    s: Conversation, t: Conversation)
    requires Twins(cat, d, P, a, b, who) && P(s) && P(t) && Agree(cat, d, s, t)
    requires Onward(a, s) && Onward(b, t) && GoalsOf(d, s.goals) == who
    ensures Twins(cat, d, P, s, t, who)
  {
    RefFreeStays(cat, d, b, t);
    SameCase(d, s.goals, t.goals);
  }

  lemma EffectStepAgrees(
    cat: Catalogue, rank: map<string, nat>, d: nat, P: Conversation -> bool, a: Conversation, b: Conversation,
    who: set<nat>, gi: nat, r: Relation, e: Effect, relation: string)
    requires World(cat, rank, d, P) && Twins(cat, d, P, a, b, who) && gi in who
    requires r in cat.relations && (e in r.effects || e in r.onChildResolved)
    requires ApplyEffect(cat, a, gi, e, relation).Ok? && ApplyEffect(cat, b, gi, e, relation).Ok?
    requires Inert(a, ApplyEffect(cat, a, gi, e, relation).value.st)
    ensures Twins(cat, d, P, ApplyEffect(cat, a, gi, e, relation).value.st,
        ApplyEffect(cat, b, gi, e, relation).value.st, who)
  {
    var s, t := ApplyEffect(cat, a, gi, e, relation).value.st, ApplyEffect(cat, b, gi, e, relation).value.st;
    EffectAgrees(cat, d, a, b, gi, e, relation);
    EffectMoves(cat, rank, P, a, gi, r, e, relation);
    EffectMoves(cat, rank, P, b, gi, r, e, relation);
    TwinsOn(cat, d, P, a, b, who, s, t);
  }

  /** If the list comes out as it went in, so does each effect. */
  lemma EffectsInert(cat: Catalogue, a: Conversation, gi: nat, effects: seq<Effect>, relation: string, c: bool)
    requires gi < |a.goals| && effects != [] && ApplyEffects(cat, a, gi, effects, relation, c).Ok?
    requires Inert(a, ApplyEffects(cat, a, gi, effects, relation, c).value.st)
    ensures var s := ApplyEffect(cat, a, gi, effects[0], relation).value;
            Inert(a, s.st) && Inert(s.st, ApplyEffects(cat, s.st, gi, effects[1..], relation, c || s.changed).value.st)
  {
    var s := ApplyEffect(cat, a, gi, effects[0], relation).value;
    EffectGrows(cat, a, gi, effects[0], relation);
    EffectsGrow(cat, s.st, gi, effects[1..], relation, c || s.changed);
    GrowsChain(a, s.st, ApplyEffects(cat, s.st, gi, effects[1..], relation, c || s.changed).value.st);
  }

  lemma {:induction false} EffectsAgree(
    cat: Catalogue, rank: map<string, nat>, d: nat, P: Conversation -> bool, a: Conversation, b: Conversation,
    who: set<nat>, gi: nat, r: Relation, effects: seq<Effect>, relation: string, c: bool, c': bool)
    requires World(cat, rank, d, P) && Twins(cat, d, P, a, b, who) && gi in who
    requires r in cat.relations && forall e | e in effects :: e in r.effects || e in r.onChildResolved
    requires ApplyEffects(cat, a, gi, effects, relation, c).Ok? && ApplyEffects(cat, b, gi, effects, relation, c').Ok?
    requires Inert(a, ApplyEffects(cat, a, gi, effects, relation, c).value.st)
    ensures Twins(cat, d, P,
              ApplyEffects(cat, a, gi, effects, relation, c).value.st,
              ApplyEffects(cat, b, gi, effects, relation, c').value.st, who)
    decreases |effects|
  {
    if effects != [] {
      var s := ApplyEffect(cat, a, gi, effects[0], relation).value;
      var t := ApplyEffect(cat, b, gi, effects[0], relation).value;
      EffectsInert(cat, a, gi, effects, relation, c);
      EffectStepAgrees(cat, rank, d, P, a, b, who, gi, r, effects[0], relation);
      EffectsAgree(cat, rank, d, P, s.st, t.st, who, gi, r, effects[1..], relation, c || s.changed, c' || t.changed);
    }
  }

  // ----- the targets of one relation -----

  /** What one relation does for one goal. */
  function Target(cat: Catalogue, st: Conversation, rel: Relation, w: When, t: nat): (r: Result<Step, Refusal>)
    requires t < |st.goals|
    ensures r.Ok? ==> Onward(st, r.value.st)
  {
    if ConditionsHold(cat, st.facts, OwnerOf(st.goals, t), w.conditions)
    then ApplyEffects(cat, st, t, rel.effects, rel.code, false)
    else Ok(Step(st, false))
  }

  lemma TargetsAre(
    cat: Catalogue, st: Conversation, rel: Relation, w: When, ts: seq<nat>, c: bool)
    requires ts != [] && forall x | 0 <= x < |ts| :: ts[x] < |st.goals|
    requires ApplyTargets(cat, st, rel, w, ts, c).Ok?
    ensures var s := Target(cat, st, rel, w, ts[0]);
            && s.Ok?
            && ApplyTargets(cat, st, rel, w, ts, c)
               == ApplyTargets(cat, s.value.st, rel, w, ts[1..], c || s.value.changed)
            && Grows(st, s.value.st)
            && Grows(s.value.st, ApplyTargets(cat, s.value.st, rel, w, ts[1..], c || s.value.changed).value.st)
  {
    if ConditionsHold(cat, st.facts, OwnerOf(st.goals, ts[0]), w.conditions) {
      EffectsGrow(cat, st, ts[0], rel.effects, rel.code, false);
    }
    var s := Target(cat, st, rel, w, ts[0]).value;
    TargetsGrow(cat, s.st, rel, w, ts[1..], c || s.changed);
  }

  lemma TargetSpares(
    cat: Catalogue, rank: map<string, nat>, d: nat, P: Conversation -> bool, st: Conversation,
    rel: Relation, w: When, t: nat)
    requires World(cat, rank, d, P) && P(st) && t < |st.goals| && !InCase(st.goals, d, t) && rel in cat.relations
    requires Target(cat, st, rel, w, t).Ok? && Safe(cat, d, st, Target(cat, st, rel, w, t).value.st)
    ensures Agree(cat, d, st, Target(cat, st, rel, w, t).value.st) && P(Target(cat, st, rel, w, t).value.st)
  {
    if ConditionsHold(cat, st.facts, OwnerOf(st.goals, t), w.conditions) {
      EffectsSpare(cat, rank, d, P, st, t, rel, rel.effects, rel.code, false);
      EffectsMove(cat, rank, P, st, t, rel, rel.effects, rel.code, false);
    } else {
      AgreeSelf(cat, d, st, st);
    }
  }

  lemma TargetAgrees(
    cat: Catalogue, rank: map<string, nat>, d: nat, P: Conversation -> bool, a: Conversation, b: Conversation,
    who: set<nat>, rel: Relation, w: When, t: nat)
    requires World(cat, rank, d, P) && Twins(cat, d, P, a, b, who) && t in who && rel in cat.relations
    requires Target(cat, a, rel, w, t).Ok? && Target(cat, b, rel, w, t).Ok?
    requires Inert(a, Target(cat, a, rel, w, t).value.st)
    ensures Twins(cat, d, P, Target(cat, a, rel, w, t).value.st, Target(cat, b, rel, w, t).value.st, who)
  {
    ConditionsAgree(cat, d, a, b, t, w.conditions);
    if ConditionsHold(cat, a.facts, OwnerOf(a.goals, t), w.conditions) {
      EffectsAgree(cat, rank, d, P, a, b, who, t, rel, rel.effects, rel.code, false, false);
    }
  }

  /** The elements of a list that belong to a set. */
  function Those(ts: seq<nat>, who: set<nat>): (r: seq<nat>)
    ensures forall t :: t in r <==> t in ts && t in who
  {
    if ts == [] then []
    else
      var rest := Those(ts[1..], who);
      if ts[0] in who then [ts[0]] + rest else rest
  }

  lemma {:induction false} ThoseAscend(ts: seq<nat>, who: set<nat>)
    requires Ascending(ts)
    ensures Ascending(Those(ts, who))
  {
    if ts != [] {
      var rest := Those(ts[1..], who);
      ThoseAscend(ts[1..], who);
      forall i | 0 <= i < |rest|
        ensures ts[0] < rest[i]
      {
        assert rest[i] in rest;
        var j :| 0 <= j < |ts[1..]| && ts[1..][j] == rest[i];
        assert ts[j + 1] == rest[i];
      }
    }
  }

  ghost predicate Within(ts: seq<nat>, st: Conversation) {
    forall x | 0 <= x < |ts| :: ts[x] < |st.goals|
  }

  lemma TwinsLeft(
    cat: Catalogue, d: nat, P: Conversation -> bool, a: Conversation, b: Conversation, who: set<nat>, s: Conversation)
    requires Twins(cat, d, P, a, b, who) && P(s) && Agree(cat, d, a, s) && Onward(a, s)
    ensures Twins(cat, d, P, s, b, who)
  {
    SameCase(d, a.goals, s.goals);
    AgreeBack(cat, d, a, s);
    AgreeChain(cat, d, s, a, b);
  }

  lemma TwinsRight(
    cat: Catalogue, d: nat, P: Conversation -> bool, a: Conversation, b: Conversation, who: set<nat>, t: Conversation)
    requires Twins(cat, d, P, a, b, who) && P(t) && Agree(cat, d, b, t) && Onward(b, t)
    ensures Twins(cat, d, P, a, t, who)
  {
    SameCase(d, b.goals, t.goals);
    AgreeChain(cat, d, a, b, t);
    RefFreeStays(cat, d, b, t);
  }

  lemma {:induction false} TargetsAgree(
    cat: Catalogue, rank: map<string, nat>, d: nat, P: Conversation -> bool, a: Conversation, b: Conversation,
    who: set<nat>, rel: Relation, w: When, x: seq<nat>, y: seq<nat>, c: bool, c': bool)
    requires World(cat, rank, d, P) && Twins(cat, d, P, a, b, who) && rel in cat.relations
    requires Within(x, a) && Within(y, b) && Those(x, who) == Those(y, who)
    requires ApplyTargets(cat, a, rel, w, x, c).Ok? && ApplyTargets(cat, b, rel, w, y, c').Ok?
    requires Inert(a, ApplyTargets(cat, a, rel, w, x, c).value.st)
    ensures Twins(cat, d, P, ApplyTargets(cat, a, rel, w, x, c).value.st,
        ApplyTargets(cat, b, rel, w, y, c').value.st, who)
    decreases |x| + |y|, 2
  {
    if x != [] {
      TargetsAre(cat, a, rel, w, x, c);
      var s := Target(cat, a, rel, w, x[0]).value;
      GrowsChain(a, s.st, ApplyTargets(cat, s.st, rel, w, x[1..], c || s.changed).value.st);
      if x[0] !in who {
        TargetSpares(cat, rank, d, P, a, rel, w, x[0]);
        TwinsLeft(cat, d, P, a, b, who, s.st);
        TargetsAgree(cat, rank, d, P, s.st, b, who, rel, w, x[1..], y, c || s.changed, c');
      } else {
        TargetsAgreeBoth(cat, rank, d, P, a, b, who, rel, w, x, y, c, c');
      }
    } else if y != [] {
      TargetsAgreeRight(cat, rank, d, P, a, b, who, rel, w, x, y, c, c');
    }
  }

  /** The next target of b lies outside d. */
  lemma {:induction false} TargetsAgreeRight(
    cat: Catalogue, rank: map<string, nat>, d: nat, P: Conversation -> bool, a: Conversation, b: Conversation,
    who: set<nat>, rel: Relation, w: When, x: seq<nat>, y: seq<nat>, c: bool, c': bool)
    requires World(cat, rank, d, P) && Twins(cat, d, P, a, b, who) && rel in cat.relations
    requires Within(x, a) && Within(y, b) && Those(x, who) == Those(y, who)
    requires y != [] && y[0] !in who
    requires ApplyTargets(cat, a, rel, w, x, c).Ok? && ApplyTargets(cat, b, rel, w, y, c').Ok?
    requires Inert(a, ApplyTargets(cat, a, rel, w, x, c).value.st)
    ensures Twins(cat, d, P, ApplyTargets(cat, a, rel, w, x, c).value.st,
        ApplyTargets(cat, b, rel, w, y, c').value.st, who)
    decreases |x| + |y|, 0
  {
    TargetsAre(cat, b, rel, w, y, c');
    var t := Target(cat, b, rel, w, y[0]).value;
    TargetSpares(cat, rank, d, P, b, rel, w, y[0]);
    TwinsRight(cat, d, P, a, b, who, t.st);
    TargetsAgree(cat, rank, d, P, a, t.st, who, rel, w, x, y[1..], c, c' || t.changed);
  }

  /** The next target of a lies in d. */
  lemma {:induction false} TargetsAgreeBoth(
    cat: Catalogue, rank: map<string, nat>, d: nat, P: Conversation -> bool, a: Conversation, b: Conversation,
    who: set<nat>, rel: Relation, w: When, x: seq<nat>, y: seq<nat>, c: bool, c': bool)
    requires World(cat, rank, d, P) && Twins(cat, d, P, a, b, who) && rel in cat.relations
    requires Within(x, a) && Within(y, b) && Those(x, who) == Those(y, who)
    requires x != [] && x[0] in who
    requires ApplyTargets(cat, a, rel, w, x, c).Ok? && ApplyTargets(cat, b, rel, w, y, c').Ok?
    requires Inert(a, ApplyTargets(cat, a, rel, w, x, c).value.st)
    ensures Twins(cat, d, P, ApplyTargets(cat, a, rel, w, x, c).value.st,
        ApplyTargets(cat, b, rel, w, y, c').value.st, who)
    decreases |x| + |y|, 1
  {
    assert x[0] in Those(y, who);
    if y[0] !in who {
      TargetsAgreeRight(cat, rank, d, P, a, b, who, rel, w, x, y, c, c');
    } else {
      TargetsAgreeSame(cat, rank, d, P, a, b, who, rel, w, x, y, c, c');
    }
  }

  /** The next target of both lies in d. */
  lemma {:induction false} TargetsAgreeSame(
    cat: Catalogue, rank: map<string, nat>, d: nat, P: Conversation -> bool, a: Conversation, b: Conversation,
    who: set<nat>, rel: Relation, w: When, x: seq<nat>, y: seq<nat>, c: bool, c': bool)
    requires World(cat, rank, d, P) && Twins(cat, d, P, a, b, who) && rel in cat.relations
    requires Within(x, a) && Within(y, b) && Those(x, who) == Those(y, who)
    requires x != [] && y != [] && x[0] in who && y[0] in who
    requires ApplyTargets(cat, a, rel, w, x, c).Ok? && ApplyTargets(cat, b, rel, w, y, c').Ok?
    requires Inert(a, ApplyTargets(cat, a, rel, w, x, c).value.st)
    ensures Twins(cat, d, P, ApplyTargets(cat, a, rel, w, x, c).value.st,
        ApplyTargets(cat, b, rel, w, y, c').value.st, who)
    decreases |x| + |y|, 0
  {
    ThoseHeads(x, y, who);
    TargetsAre(cat, a, rel, w, x, c);
    TargetsAre(cat, b, rel, w, y, c');
    var s, t := Target(cat, a, rel, w, x[0]).value, Target(cat, b, rel, w, y[0]).value;
    GrowsChain(a, s.st, ApplyTargets(cat, s.st, rel, w, x[1..], c || s.changed).value.st);
    TargetAgrees(cat, rank, d, P, a, b, who, rel, w, x[0]);
    TargetsAgree(cat, rank, d, P, s.st, t.st, who, rel, w, x[1..], y[1..], c || s.changed, c' || t.changed);
  }

  lemma ThoseHeads(x: seq<nat>, y: seq<nat>, who: set<nat>)
    requires x != [] && y != [] && x[0] in who && y[0] in who && Those(x, who) == Those(y, who)
    ensures x[0] == y[0] && Those(x[1..], who) == Those(y[1..], who)
  {
    assert Those(x, who)[0] == x[0] && Those(y, who)[0] == y[0];
    assert Those(x, who)[1..] == Those(x[1..], who) && Those(y, who)[1..] == Those(y[1..], who);
  }
}
