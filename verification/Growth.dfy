/**
 Relations only ever add: a round that ends with the facts, the number of goals
 and the closed goals it began with has recorded nothing, opened nothing and
 closed nothing on the way.
 */
module Growth {
  import opened Basics
  import opened Catalog
  import opened State
  import opened Cascade
  import opened Recording
  import opened Reducer

  predicate IsClosed(g: GoalRecord) {
    g.status in {RESOLVED, ABANDONED}
  }

  /** Facts may be added or lost, and none comes back. */
  ghost predicate FactsLose(a: seq<FactRecord>, b: seq<FactRecord>) {
    |a| <= |b| && forall i | 0 <= i < |a| && !a[i].active :: !b[i].active
  }

  ghost predicate FactsAhead(a: seq<FactRecord>, b: seq<FactRecord>) {
    FactsLose(a, b) && (|a| < |b| || exists i :: Lost(a, b, i))
  }

  ghost predicate Lost(a: seq<FactRecord>, b: seq<FactRecord>, i: nat) {
    i < |a| && i < |b| && a[i].active && !b[i].active
  }

  ghost predicate FactsGrow(a: seq<FactRecord>, b: seq<FactRecord>) {
    b == a || FactsAhead(a, b)
  }

  ghost predicate ClosedStay(a: seq<GoalRecord>, b: seq<GoalRecord>) {
    |a| == |b| && forall i | 0 <= i < |a| && IsClosed(a[i]) :: IsClosed(b[i])
  }

  ghost predicate Grows(a: Conversation, b: Conversation) {
    && |a.goals| <= |b.goals| && FactsGrow(a.facts, b.facts)
    && (|a.goals| == |b.goals| ==> ClosedStay(a.goals, b.goals))
  }

  /** Nothing recorded, opened or closed. */
  ghost predicate Inert(a: Conversation, b: Conversation) {
    |a.goals| == |b.goals| && a.facts == b.facts && ClosedStay(b.goals, a.goals)
  }

  lemma FactsGrowChain(a: seq<FactRecord>, b: seq<FactRecord>, c: seq<FactRecord>)
    requires FactsGrow(a, b) && FactsGrow(b, c)
    ensures FactsGrow(a, c) && (a == c ==> a == b)
  {
    if b != a && c != b && |a| == |c| {
      var i :| Lost(a, b, i);
      assert Lost(a, c, i);
    }
  }

  lemma GrowsChain(a: Conversation, b: Conversation, c: Conversation)
    requires Grows(a, b) && Grows(b, c)
    ensures Grows(a, c)
    ensures Inert(a, c) ==> Inert(a, b) && Inert(b, c)
  {
    FactsGrowChain(a.facts, b.facts, c.facts);
  }

  lemma {:induction false} EachLoses(
    cat: Catalogue, goals: seq<GoalRecord>, facts: seq<FactRecord>, now: nat,
    ids: seq<nat>, keep: Option<nat>, why: Supersession, successor: nat)
    requires forall x | 0 <= x < |ids| :: ids[x] < |facts|
    ensures var r := SupersedeEach(cat, goals, facts, now, ids, keep, why, successor);
            && FactsLose(facts, r)
            && (ids != [] && keep != Some(ids[0]) ==> !r[ids[0]].active)
    decreases |ids|
  {
    if ids != [] {
      var next :=
        if keep == Some(ids[0]) then facts
        else Supersede(cat, goals, facts, now, ids[0], why, Some(successor));
      EachLoses(cat, goals, next, now, ids[1..], keep, why, successor);
    }
  }

  /** A value that does not hold yet is recorded for good, or not at all. */
  lemma InsertGrows(
    cat: Catalogue, goals: seq<GoalRecord>, facts: seq<FactRecord>, now: nat,
    o: Owner, e: Entry, mode: Mode, derivedFrom: seq<nat>)
    requires !AlreadyHolds(cat, facts, o, e.code, e.value)
    ensures var r := Insert(cat, goals, facts, now, o, e, mode, derivedFrom);
            var same := WithValue(facts, Live(cat, facts, KeyFor(cat, e.code, o)), e.value);
            if same.Some? && FactOf(cat, e.code).repeatable then r == facts else FactsAhead(facts, r)
  {
    var live := Live(cat, facts, KeyFor(cat, e.code, o));
    var same := WithValue(facts, live, e.value);
    var r := Insert(cat, goals, facts, now, o, e, mode, derivedFrom);
    if same.Some? && FactOf(cat, e.code).repeatable {
    } else if same.Some? && !(e.authoritative && !facts[same.value].authoritative) {
      ReaffirmGrows(cat, goals, facts, now, live, same.value, e, mode);
      assert r == Reaffirm(cat, goals, facts, now, live, same.value, e, mode);
    } else {
      AdmitLoses(cat, goals, facts, now, live, same, o, e, mode, derivedFrom);
      assert r == Admit(cat, goals, facts, now, live, same, o, e, mode, derivedFrom);
    }
  }

  lemma ReaffirmGrows(
    cat: Catalogue, goals: seq<GoalRecord>, facts: seq<FactRecord>, now: nat,
    live: seq<nat>, same: nat, e: Entry, mode: Mode)
    requires same < |facts| && forall x | 0 <= x < |live| :: live[x] < |facts|
    requires live != [] && live[0] != same && facts[live[0]].active
    ensures FactsAhead(facts, Reaffirm(cat, goals, facts, now, live, same, e, mode))
  {
    EachLoses(cat, goals, facts, now, live, Some(same), ReaffirmReason(e, mode), same);
    assert Lost(facts, Reaffirm(cat, goals, facts, now, live, same, e, mode), live[0]);
  }

  lemma AdmitLoses(
    cat: Catalogue, goals: seq<GoalRecord>, facts: seq<FactRecord>, now: nat,
    live: seq<nat>, same: Option<nat>, o: Owner, e: Entry, mode: Mode, derivedFrom: seq<nat>)
    requires same.Some? ==> same.value < |facts|
    requires forall x | 0 <= x < |live| :: live[x] < |facts|
    ensures FactsLose(facts, Admit(cat, goals, facts, now, live, same, o, e, mode, derivedFrom))
  {
    var start := if same.Some? then Supersede(cat, goals, facts, now, same.value, SYSTEM_REPLACEMENT, None) else facts;
    EachLoses(cat, goals, start, now, live, None, ReasonOf(e, mode), |facts|);
  }

  lemma RecordGrows(
    cat: Catalogue, goals: seq<GoalRecord>, facts: seq<FactRecord>, now: nat,
    o: Owner, input: FactInput, mode: Mode, derivedFrom: seq<nat>)
    requires !AlreadyHolds(cat, facts, o, input.code, input.value)
    ensures var r := Record(cat, goals, facts, now, o, input, mode, derivedFrom);
            r.Ok? ==> FactsGrow(facts, r.value)
  {
    var e := Admitted(cat, input, mode);
    if e.Ok? {
      InsertGrows(cat, goals, facts, now, o, e.value, mode, derivedFrom);
    }
  }

  lemma {:induction false} AbandonGrows(
    goals: seq<GoalRecord>, dependency: string, caseId: Option<nat>, why: string, now: nat, k: nat, changed: bool)
    requires k <= |goals|
    ensures var r := AbandonFrom(goals, dependency, caseId, why, now, k, changed);
            && ClosedStay(goals, r.0)
            && (r.1 && !changed ==> !ClosedStay(r.0, goals))
    decreases |goals| - k
  {
    if k < |goals| {
      if Abandons(goals[k], dependency, caseId) {
        var next := AbandonOne(goals, k, why, now);
        AbandonGrows(next, dependency, caseId, why, now, k + 1, true);
        assert IsClosed(next[k]);
      } else {
        AbandonGrows(goals, dependency, caseId, why, now, k + 1, changed);
      }
    }
  }

  lemma EffectGrows(cat: Catalogue, st: Conversation, gi: nat, e: Effect, relation: string)
    requires gi < |st.goals| && ApplyEffect(cat, st, gi, e, relation).Ok?
    ensures Grows(st, ApplyEffect(cat, st, gi, e, relation).value.st)
  {
    var o := OwnerOf(st.goals, gi);
    match e
    case AssertDerived(code, value, from) =>
      if !AlreadyHolds(cat, st.facts, o, code, value) {
        RecordGrows(
          cat, st.goals, st.facts, st.seqNo, o, FactInput(code, value, Some(DERIVED_RULE), None, false),
          DERIVE, FactIds(cat, st.facts, o, from));
      }
    case RecordSystem(code, value, source, authoritative) =>
      if !AlreadyHolds(cat, st.facts, o, code, value) {
        RecordGrows(
          cat, st.goals, st.facts, st.seqNo, o, FactInput(code, value, Some(source), None, authoritative),
          DERIVE, []);
      }
    case SatisfyDependency(dependency, why) =>
      AbandonGrows(st.goals, dependency, st.goals[gi].caseId, why, st.seqNo, 0, false);
    case _ =>
  }

  lemma {:induction false} EffectsGrow(
    cat: Catalogue, st: Conversation, gi: nat, effects: seq<Effect>, relation: string, changed: bool)
    requires gi < |st.goals| && ApplyEffects(cat, st, gi, effects, relation, changed).Ok?
    ensures Grows(st, ApplyEffects(cat, st, gi, effects, relation, changed).value.st)
    decreases |effects|
  {
    if effects != [] {
      EffectGrows(cat, st, gi, effects[0], relation);
      var s := ApplyEffect(cat, st, gi, effects[0], relation).value;
      EffectsGrow(cat, s.st, gi, effects[1..], relation, changed || s.changed);
      GrowsChain(st, s.st, ApplyEffects(cat, s.st, gi, effects[1..], relation, changed || s.changed).value.st);
    }
  }

  lemma {:induction false} TargetsGrow(
    cat: Catalogue, st: Conversation, rel: Relation, w: When, targets: seq<nat>, changed: bool)
    requires forall x | 0 <= x < |targets| :: targets[x] < |st.goals|
    requires ApplyTargets(cat, st, rel, w, targets, changed).Ok?
    ensures Grows(st, ApplyTargets(cat, st, rel, w, targets, changed).value.st)
    decreases |targets|
  {
    if targets != [] {
      if ConditionsHold(cat, st.facts, OwnerOf(st.goals, targets[0]), w.conditions) {
        EffectsGrow(cat, st, targets[0], rel.effects, rel.code, false);
        var s := ApplyEffects(cat, st, targets[0], rel.effects, rel.code, false).value;
        TargetsGrow(cat, s.st, rel, w, targets[1..], changed || s.changed);
        GrowsChain(st, s.st, ApplyTargets(cat, s.st, rel, w, targets[1..], changed || s.changed).value.st);
      } else {
        TargetsGrow(cat, st, rel, w, targets[1..], changed);
      }
    }
  }

  lemma {:induction false} RelationsGrow(cat: Catalogue, st: Conversation, k: nat, changed: bool)
    requires k <= |cat.relations| && RelationsFrom(cat, st, k, changed).Ok?
    ensures Grows(st, RelationsFrom(cat, st, k, changed).value.st)
    decreases |cat.relations| - k
  {
    if k < |cat.relations| {
      if cat.relations[k].when.None? {
        RelationsGrow(cat, st, k + 1, changed);
      } else {
        var w := cat.relations[k].when.value;
        var targets := TargetsFrom(st.goals, w, 0);
        TargetsGrow(cat, st, cat.relations[k], w, targets, changed);
        var s := ApplyTargets(cat, st, cat.relations[k], w, targets, changed).value;
        RelationsGrow(cat, s.st, k + 1, s.changed);
        GrowsChain(st, s.st, RelationsFrom(cat, s.st, k + 1, s.changed).value.st);
      }
    }
  }

  lemma TellGrows(cat: Catalogue, st: Conversation, gi: nat)
    requires gi < |st.goals| && Tell(cat, st, gi).Ok?
    ensures Grows(st, Tell(cat, st, gi).value)
  {
    var g := st.goals[gi];
    var relation := if g.createdBy.Some? then FindRelation(cat.relations, g.createdBy.value) else None;
    if relation.Some? && g.parent.Some? && g.parent.value < |st.goals| {
      EffectsGrow(cat, st, g.parent.value, relation.value.onChildResolved, relation.value.code, false);
    }
  }

  /** Resolving an active goal is never inert. */
  lemma ResolveOneGrows(cat: Catalogue, st: Conversation, gi: nat)
    requires gi < |st.goals| && st.goals[gi].status == ACTIVE && ResolveOne(cat, st, gi).Ok?
    ensures Grows(st, ResolveOne(cat, st, gi).value) && !Inert(st, ResolveOne(cat, st, gi).value)
  {
    var closed := MarkResolved(st, gi);
    var told := Tell(cat, closed, gi).value;
    var last := told.(goals := Resume(told.goals, gi));
    TellGrows(cat, closed, gi);
    assert Grows(st, closed) && Grows(told, last);
    GrowsChain(closed, told, last);
    GrowsChain(st, closed, last);
    if Inert(st, last) {
      assert Inert(st, closed);
      assert IsClosed(closed.goals[gi]);
    }
  }

  lemma ResolveAtGrows(cat: Catalogue, st: Conversation, gi: nat)
    requires gi < |st.goals| && ResolveAt(cat, st, gi).Ok?
    ensures var next := ResolveAt(cat, st, gi).value.st;
            && Grows(st, next)
            && (Inert(st, next) ==> next == st && !(st.goals[gi].status == ACTIVE && Complete(cat, st, gi)))
  {
    if st.goals[gi].status == ACTIVE && Complete(cat, st, gi) {
      ResolveOneGrows(cat, st, gi);
    }
  }

  lemma {:induction false} ResolveGrows(cat: Catalogue, st: Conversation, n: nat, changed: bool, last: Step)
    requires n <= |st.goals| && ResolveFrom(cat, st, n, changed) == Ok(last)
    ensures Grows(st, last.st)
    decreases n
  {
    if n > 0 {
      ResolveFromStep(cat, st, n, changed);
      var s := ResolveAt(cat, st, n - 1).value;
      ResolveAtGrows(cat, st, n - 1);
      ResolveGrows(cat, s.st, n - 1, changed || s.changed, last);
      GrowsChain(st, s.st, last.st);
    }
  }

  /** The topmost goal of an inert pass was not ready, so the pass goes on from the same state. */
  lemma {:induction false} InertStep(cat: Catalogue, st: Conversation, n: nat, changed: bool, last: Step)
    requires 0 < n <= |st.goals| && ResolveFrom(cat, st, n, changed) == Ok(last) && Inert(st, last.st)
    ensures !(st.goals[n - 1].status == ACTIVE && Complete(cat, st, n - 1))
    ensures ResolveFrom(cat, st, n - 1, changed) == Ok(last)
  {
    ResolveFromStep(cat, st, n, changed);
    if st.goals[n - 1].status == ACTIVE && Complete(cat, st, n - 1) {
      NotInertOnceResolved(cat, st, n - 1, ResolveOne(cat, st, n - 1).value, last);
    }
  }

  lemma {:induction false} NotInertOnceResolved(
    cat: Catalogue, st: Conversation, gi: nat, next: Conversation, last: Step)
    requires gi < |st.goals| && st.goals[gi].status == ACTIVE && ResolveOne(cat, st, gi) == Ok(next)
    requires gi <= |next.goals| && ResolveFrom(cat, next, gi, true) == Ok(last)
    ensures !Inert(st, last.st)
  {
    assert Grows(st, next) && !Inert(st, next) by {
      ResolveOneGrows(cat, st, gi);
    }
    assert Grows(next, last.st) by {
      ResolveGrows(cat, next, gi, true, last);
    }
    GrowsChain(st, next, last.st);
  }

  /** A resolution pass that is inert found nothing to resolve. */
  lemma {:induction false} InertResolvesNothing(
    cat: Catalogue, st: Conversation, n: nat, changed: bool, last: Step, i: nat)
    requires n <= |st.goals| && ResolveFrom(cat, st, n, changed) == Ok(last) && Inert(st, last.st)
    ensures last.st == st && (i < n ==> !(st.goals[i].status == ACTIVE && Complete(cat, st, i)))
    decreases n
  {
    if n > 0 {
      InertStep(cat, st, n, changed, last);
      InertResolvesNothing(cat, st, n - 1, changed, last, i);
    }
  }

  lemma PassGrows(cat: Catalogue, st: Conversation)
    requires Pass(cat, st).Ok?
    ensures Grows(st, Pass(cat, st).value.st)
  {
    RelationsGrow(cat, st, 0, false);
    var s := RelationsFrom(cat, st, 0, false).value;
    ResolveGrows(cat, s.st, |s.st.goals|, s.changed, Pass(cat, st).value);
    GrowsChain(st, s.st, Pass(cat, st).value.st);
  }

  lemma {:induction false} EvaluateGrows(cat: Catalogue, st: Conversation, fuel: nat)
    requires Evaluate(cat, st, fuel).Ok?
    ensures Grows(st, Evaluate(cat, st, fuel).value)
    decreases fuel
  {
    PassGrows(cat, st);
    var s := Pass(cat, st).value;
    if s.changed {
      EvaluateGrows(cat, s.st, fuel - 1);
      GrowsChain(st, s.st, Evaluate(cat, s.st, fuel - 1).value);
    }
  }

  lemma {:induction false} SyncStays(cat: Catalogue, st: Conversation, k: nat)
    requires k <= |st.goals|
    ensures ClosedStay(st.goals, SyncFrom(cat, st, k).goals)
    decreases |st.goals| - k
  {
    if k < |st.goals| {
      SyncStays(cat, SyncGoal(cat, st, k), k + 1);
    }
  }
}
