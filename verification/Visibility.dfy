/**
 What a case can see: its goals, its facts, the facts of the conversation and
 its pending actions; and why a fact of another case cannot reach into it.
 */
module Visibility {
  import opened Basics
  import opened Catalog
  import opened State
  import opened Cascade
  import opened Recording
  import opened Effects

  predicate InCase(goals: seq<GoalRecord>, d: nat, i: nat) {
    i < |goals| && goals[i].caseId == Some(d)
  }

  predicate KeySeen(goals: seq<GoalRecord>, d: nat, key: Key) {
    match key
    case ConversationKey(_) => true
    case CaseKey(c, _) => c == Some(d)
    case GoalKey(g, _) => g.Some? && InCase(goals, d, g.value)
  }

  /** Case d can see fact f: a fact of the conversation, of d, or of a goal of d. */
  predicate Sees(cat: Catalogue, goals: seq<GoalRecord>, d: nat, f: FactRecord) {
    KeySeen(goals, d, KeyOf(cat, f))
  }

  /** A goal-scoped fact recorded when there was no goal. */
  predicate Orphan(cat: Catalogue, f: FactRecord) {
    FactOf(cat, f.code).scope == GOAL && f.goalId.None?
  }

  predicate Foreign(cat: Catalogue, goals: seq<GoalRecord>, d: nat, f: FactRecord) {
    !Sees(cat, goals, d, f) && !Orphan(cat, f)
  }

  /** How records carry their owner. */
  ghost predicate FactShaped(cat: Catalogue, goals: seq<GoalRecord>, d: nat, facts: seq<FactRecord>, j: nat)
    requires j < |facts|
  {
    var f := facts[j];
    && match FactOf(cat, f.code).scope {
         case CONVERSATION => f.caseId.None? && f.goalId.None? && f.derivedFrom == []
         case CASE => f.goalId.None?
         case GOAL =>
           f.caseId.None? && (f.goalId.Some? ==> f.goalId.value < |goals|) && (f.goalId.None? ==> f.derivedFrom == [])
       }
    && (forall x | x in f.derivedFrom ::
          x < |facts| && (Sees(cat, goals, d, f) ==> Sees(cat, goals, d, facts[x])))
  }

  ghost predicate FactsShaped(cat: Catalogue, goals: seq<GoalRecord>, d: nat, facts: seq<FactRecord>) {
    forall j | 0 <= j < |facts| :: FactShaped(cat, goals, d, facts, j)
  }

  /** A subgoal comes after its parent and stays in the case of its parent. */
  ghost predicate GoalShaped(goals: seq<GoalRecord>, i: nat)
    requires i < |goals|
  {
    goals[i].parent.Some? ==>
      && goals[i].parent.value < i
      && (goals[goals[i].parent.value].caseId.Some? ==> goals[i].caseId == goals[goals[i].parent.value].caseId)
  }

  ghost predicate GoalsShaped(goals: seq<GoalRecord>) {
    forall i | 0 <= i < |goals| :: GoalShaped(goals, i)
  }

  lemma ShapePersists(
    cat: Catalogue, goals: seq<GoalRecord>, d: nat, a: seq<FactRecord>, b: seq<FactRecord>)
    requires FactsShaped(cat, goals, d, a) && SameFacts(a, b)
    ensures FactsShaped(cat, goals, d, b)
  {
    forall j | 0 <= j < |b|
      ensures FactShaped(cat, goals, d, b, j)
    {
      assert FactShaped(cat, goals, d, a, j) && SameFact(a[j], b[j]);
      forall x | x in b[j].derivedFrom
        ensures x < |b| && (Sees(cat, goals, d, b[j]) ==> Sees(cat, goals, d, b[x]))
      {
        assert x in a[j].derivedFrom && SameFact(a[x], b[x]);
      }
    }
  }

  /** The cascade goes from foreign facts to foreign facts only. */
  lemma TouchesForeign(
    cat: Catalogue, goals: seq<GoalRecord>, d: nat, facts: seq<FactRecord>, src: nat, i: nat)
    requires FactsShaped(cat, goals, d, facts) && src < |facts| && i < |facts|
    requires Foreign(cat, goals, d, facts[src]) && Touches(cat, goals, facts, src, i)
    ensures Foreign(cat, goals, d, facts[i])
  {
    assert FactShaped(cat, goals, d, facts, i) && FactShaped(cat, goals, d, facts, src);
  }

  /** A fact that is not foreign is untouched. */
  ghost predicate Kept(cat: Catalogue, goals: seq<GoalRecord>, d: nat, f: FactRecord, g: FactRecord) {
    SameFact(f, g) && (Foreign(cat, goals, d, f) || g == f)
  }

  ghost predicate AllKept(
    cat: Catalogue, goals: seq<GoalRecord>, d: nat, a: seq<FactRecord>, b: seq<FactRecord>)
  {
    |a| <= |b| && forall i | 0 <= i < |a| :: Kept(cat, goals, d, a[i], b[i])
  }

  lemma KeptChain(
    cat: Catalogue, goals: seq<GoalRecord>, d: nat, a: seq<FactRecord>, b: seq<FactRecord>, c: seq<FactRecord>)
    requires AllKept(cat, goals, d, a, b) && AllKept(cat, goals, d, b, c)
    ensures AllKept(cat, goals, d, a, c)
  {
    forall i | 0 <= i < |a|
      ensures Kept(cat, goals, d, a[i], c[i])
    {
      assert Kept(cat, goals, d, a[i], b[i]) && Kept(cat, goals, d, b[i], c[i]);
    }
  }

  lemma KeptShape(cat: Catalogue, goals: seq<GoalRecord>, d: nat, a: seq<FactRecord>, b: seq<FactRecord>)
    requires AllKept(cat, goals, d, a, b) && |a| == |b| && FactsShaped(cat, goals, d, a)
    ensures FactsShaped(cat, goals, d, b)
  {
    assert SameFacts(a, b) by {
      forall i | 0 <= i < |a|
        ensures SameFact(a[i], b[i])
      {
        assert Kept(cat, goals, d, a[i], b[i]);
      }
    }
    ShapePersists(cat, goals, d, a, b);
  }

  lemma {:induction false} SweepKeeps(
    cat: Catalogue, goals: seq<GoalRecord>, d: nat, facts: seq<FactRecord>, now: nat, src: nat, p: nat)
    requires FactsShaped(cat, goals, d, facts) && src < |facts| && p <= 2 * |facts|
    requires Foreign(cat, goals, d, facts[src])
    ensures AllKept(cat, goals, d, facts, Sweep(cat, goals, facts, now, src, p))
    decreases ActiveSet(facts), 2 * |facts| - p, 1
  {
    if p < 2 * |facts| {
      var next := Strike(cat, goals, facts, now, src, p);
      assert ActiveSet(next) <= ActiveSet(facts);
      StrikeKeeps(cat, goals, d, facts, now, src, p);
      KeptShape(cat, goals, d, facts, next);
      assert Kept(cat, goals, d, facts[src], next[src]);
      SweepKeeps(cat, goals, d, next, now, src, p + 1);
      KeptChain(cat, goals, d, facts, next, Sweep(cat, goals, next, now, src, p + 1));
    }
  }

  lemma {:induction false} StrikeKeeps(
    cat: Catalogue, goals: seq<GoalRecord>, d: nat, facts: seq<FactRecord>, now: nat, src: nat, p: nat)
    requires FactsShaped(cat, goals, d, facts) && src < |facts| && p < 2 * |facts|
    requires Foreign(cat, goals, d, facts[src])
    ensures AllKept(cat, goals, d, facts, Strike(cat, goals, facts, now, src, p))
    decreases ActiveSet(facts), 2 * |facts| - p, 0
  {
    if Hit(cat, goals, facts, src, p) {
      var i := At(|facts|, p);
      var marked := facts[i := Invalidated(facts[i], now)];
      assert i in ActiveSet(facts) && i !in ActiveSet(marked);
      assert Touches(cat, goals, facts, src, i);
      TouchesForeign(cat, goals, d, facts, src, i);
      assert AllKept(cat, goals, d, facts, marked);
      KeptShape(cat, goals, d, facts, marked);
      SweepKeeps(cat, goals, d, marked, now, i, 0);
      KeptChain(cat, goals, d, facts, marked, Sweep(cat, goals, marked, now, i, 0));
    }
  }

  lemma SupersedeKeeps(
    cat: Catalogue, goals: seq<GoalRecord>, d: nat, facts: seq<FactRecord>, now: nat,
    i: nat, why: Supersession, successor: Option<nat>)
    requires FactsShaped(cat, goals, d, facts) && i < |facts| && Foreign(cat, goals, d, facts[i])
    ensures AllKept(cat, goals, d, facts, Supersede(cat, goals, facts, now, i, why, successor))
  {
    var marked := facts[i := Mark(facts[i], why, now, successor)];
    assert AllKept(cat, goals, d, facts, marked);
    KeptShape(cat, goals, d, facts, marked);
    SweepKeeps(cat, goals, d, marked, now, i, 0);
    KeptChain(cat, goals, d, facts, marked, Sweep(cat, goals, marked, now, i, 0));
  }

  /** Every position listed holds a foreign fact. */
  ghost predicate AllForeign(cat: Catalogue, goals: seq<GoalRecord>, d: nat, facts: seq<FactRecord>, ids: seq<nat>) {
    forall x | 0 <= x < |ids| :: ids[x] < |facts| && Foreign(cat, goals, d, facts[ids[x]])
  }

  lemma ForeignPersists(
    cat: Catalogue, goals: seq<GoalRecord>, d: nat, a: seq<FactRecord>, b: seq<FactRecord>, ids: seq<nat>)
    requires AllForeign(cat, goals, d, a, ids) && AllKept(cat, goals, d, a, b)
    ensures AllForeign(cat, goals, d, b, ids)
  {
    forall x | 0 <= x < |ids|
      ensures ids[x] < |b| && Foreign(cat, goals, d, b[ids[x]])
    {
      assert Kept(cat, goals, d, a[ids[x]], b[ids[x]]);
    }
  }

  lemma {:induction false} SupersedeEachKeeps(
    cat: Catalogue, goals: seq<GoalRecord>, d: nat, facts: seq<FactRecord>, now: nat,
    ids: seq<nat>, keep: Option<nat>, why: Supersession, successor: nat)
    requires FactsShaped(cat, goals, d, facts) && AllForeign(cat, goals, d, facts, ids)
    ensures AllKept(cat, goals, d, facts, SupersedeEach(cat, goals, facts, now, ids, keep, why, successor))
    decreases |ids|
  {
    if ids != [] {
      var next := facts;
      if keep != Some(ids[0]) {
        next := Supersede(cat, goals, facts, now, ids[0], why, Some(successor));
        SupersedeKeeps(cat, goals, d, facts, now, ids[0], why, Some(successor));
      }
      KeptShape(cat, goals, d, facts, next);
      ForeignPersists(cat, goals, d, facts, next, ids[1..]);
      SupersedeEachKeeps(cat, goals, d, next, now, ids[1..], keep, why, successor);
      KeptChain(cat, goals, d, facts, next, SupersedeEach(cat, goals, next, now, ids[1..], keep, why, successor));
    }
  }

  lemma LiveForeign(cat: Catalogue, goals: seq<GoalRecord>, d: nat, facts: seq<FactRecord>, o: Owner, code: string)
    requires !KeySeen(goals, d, KeyFor(cat, code, o)) && o.goalId.Some?
    ensures AllForeign(cat, goals, d, facts, Live(cat, facts, KeyFor(cat, code, o)))
  {
    var live := Live(cat, facts, KeyFor(cat, code, o));
    forall x | 0 <= x < |live|
      ensures live[x] < |facts| && Foreign(cat, goals, d, facts[live[x]])
    {
      assert IsLive(cat, facts[live[x]], KeyFor(cat, code, o));
    }
  }

  lemma ReaffirmKeeps(
    cat: Catalogue, goals: seq<GoalRecord>, d: nat, facts: seq<FactRecord>, now: nat,
    live: seq<nat>, same: nat, e: Entry, mode: Mode)
    requires FactsShaped(cat, goals, d, facts) && AllForeign(cat, goals, d, facts, live) && same in live
    requires e.authoritative ==> same < |facts| && facts[same].authoritative
    ensures AllKept(cat, goals, d, facts, Reaffirm(cat, goals, facts, now, live, same, e, mode))
  {
    SupersedeEachKeeps(cat, goals, d, facts, now, live, Some(same), ReaffirmReason(e, mode), same);
    var mid := SupersedeEach(cat, goals, facts, now, live, Some(same), ReaffirmReason(e, mode), same);
    assert Kept(cat, goals, d, facts[same], mid[same]);
    var b := mid[same := Rated(mid[same], e)];
    assert AllKept(cat, goals, d, mid, b);
    KeptChain(cat, goals, d, facts, mid, b);
  }

  lemma AdmitKeeps(
    cat: Catalogue, goals: seq<GoalRecord>, d: nat, facts: seq<FactRecord>, now: nat,
    live: seq<nat>, same: Option<nat>, o: Owner, e: Entry, mode: Mode, derivedFrom: seq<nat>)
    requires FactsShaped(cat, goals, d, facts) && AllForeign(cat, goals, d, facts, live)
    requires same.Some? ==> same.value in live
    ensures AllKept(cat, goals, d, facts, Admit(cat, goals, facts, now, live, same, o, e, mode, derivedFrom))
  {
    var start := if same.Some? then Supersede(cat, goals, facts, now, same.value, SYSTEM_REPLACEMENT, None) else facts;
    if same.Some? {
      SupersedeKeeps(cat, goals, d, facts, now, same.value, SYSTEM_REPLACEMENT, None);
    }
    KeptShape(cat, goals, d, facts, start);
    ForeignPersists(cat, goals, d, facts, start, live);
    var b := Admit(cat, goals, facts, now, live, same, o, e, mode, derivedFrom);
    if live != [] && !FactOf(cat, e.code).repeatable {
      AdmitLiveKeeps(cat, goals, d, start, now, live, o, e, mode, derivedFrom);
    }
    assert AllKept(cat, goals, d, start, b);
    KeptChain(cat, goals, d, facts, start, b);
  }

  lemma AdmitLiveKeeps(
    cat: Catalogue, goals: seq<GoalRecord>, d: nat, start: seq<FactRecord>, now: nat,
    live: seq<nat>, o: Owner, e: Entry, mode: Mode, derivedFrom: seq<nat>)
    requires FactsShaped(cat, goals, d, start) && AllForeign(cat, goals, d, start, live) && live != []
    ensures AllKept(cat, goals, d, start,
              SupersedeEach(cat, goals, start, now, live, None, ReasonOf(e, mode), |start|))
    ensures AllKept(cat, goals, d, start,
              Invalidate(cat, goals,
                start[live[0] := start[live[0]].(confidence := CONFLICTING, conflictsWith := Some(|start|))],
                now, live[0]))
    ensures AllKept(cat, goals, d, start,
              Supersede(cat, goals, start, now, live[0], SYSTEM_REPLACEMENT, Some(|start|)))
  {
    SupersedeEachKeeps(cat, goals, d, start, now, live, None, ReasonOf(e, mode), |start|);
    SupersedeKeeps(cat, goals, d, start, now, live[0], SYSTEM_REPLACEMENT, Some(|start|));
    var disputed := start[live[0] := start[live[0]].(confidence := CONFLICTING, conflictsWith := Some(|start|))];
    assert AllKept(cat, goals, d, start, disputed);
    KeptShape(cat, goals, d, start, disputed);
    SweepKeeps(cat, goals, d, disputed, now, live[0], 0);
    KeptChain(cat, goals, d, start, disputed, Sweep(cat, goals, disputed, now, live[0], 0));
  }

  lemma AdmitAdds(
    cat: Catalogue, goals: seq<GoalRecord>, facts: seq<FactRecord>, now: nat,
    live: seq<nat>, same: Option<nat>, o: Owner, e: Entry, mode: Mode, derivedFrom: seq<nat>)
    requires forall x | 0 <= x < |live| :: live[x] < |facts|
    requires same.Some? ==> same.value < |facts|
    ensures KeyOf(cat, Admit(cat, goals, facts, now, live, same, o, e, mode, derivedFrom)[|facts|])
        == KeyFor(cat, e.code, o)
  {
  }

  /** Recording a fact for a goal that is not of case d, under a key d does not
      see, leaves every fact that d sees as it is, and adds none. */
  lemma InsertKeeps(
    cat: Catalogue, goals: seq<GoalRecord>, d: nat, facts: seq<FactRecord>, now: nat,
    o: Owner, e: Entry, mode: Mode, derivedFrom: seq<nat>)
    requires FactsShaped(cat, goals, d, facts)
    requires !KeySeen(goals, d, KeyFor(cat, e.code, o)) && o.goalId.Some?
    ensures AllKept(cat, goals, d, facts, Insert(cat, goals, facts, now, o, e, mode, derivedFrom))
    ensures var r := Insert(cat, goals, facts, now, o, e, mode, derivedFrom);
            |r| > |facts| ==> !Sees(cat, goals, d, r[|facts|])
  {
    var key := KeyFor(cat, e.code, o);
    var live := Live(cat, facts, key);
    var same := WithValue(facts, live, e.value);
    LiveForeign(cat, goals, d, facts, o, e.code);
    if same.Some? && FactOf(cat, e.code).repeatable {
    } else if same.Some? && !(e.authoritative && !facts[same.value].authoritative) {
      ReaffirmKeeps(cat, goals, d, facts, now, live, same.value, e, mode);
      assert Insert(cat, goals, facts, now, o, e, mode, derivedFrom)
          == Reaffirm(cat, goals, facts, now, live, same.value, e, mode);
    } else {
      AdmitKeeps(cat, goals, d, facts, now, live, same, o, e, mode, derivedFrom);
      AdmitAdds(cat, goals, facts, now, live, same, o, e, mode, derivedFrom);
      assert Insert(cat, goals, facts, now, o, e, mode, derivedFrom)
          == Admit(cat, goals, facts, now, live, same, o, e, mode, derivedFrom);
    }
  }
}
