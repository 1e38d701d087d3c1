/** Every turn of the conversation is a transition the store can replay. */
module TurnReplay {
  import opened Basics
  import opened Catalog
  import opened State
  import opened Cascade
  import opened Recording
  import opened Effects
  import opened Insertion
  import opened FactInvariants
  import opened Goals
  import opened Reducer
  import opened Moves
  import opened Runs
  import opened Reachable
  import P = Persistence
  import T = Tables
  import V = Replay

  // ----- records -----

  lemma FateKept(
    cat: Catalogue, rank: map<string, nat>, a: seq<FactRecord>, b: seq<FactRecord>, now: nat, o: Owner,
    e: Entry, i: nat)
    requires i < |a| <= |b| && Fate(cat, rank, a, b, now, o, e, i) && Evolved(a[i], b[i])
    ensures V.FactKept(a[i], b[i], now)
  {
  }

  lemma InsertKept(
    cat: Catalogue, rank: map<string, nat>, goals: seq<GoalRecord>, a: seq<FactRecord>, now: nat,
    o: Owner, e: Entry, mode: Mode, d: seq<nat>)
    requires Ranked(cat, rank) && FactsOk(cat, rank, a, now)
    ensures var b := Insert(cat, goals, a, now, o, e, mode, d);
            && |a| <= |b| <= |a| + 1
            && (forall i | 0 <= i < |a| :: V.FactKept(a[i], b[i], now))
            && (|b| > |a| ==> V.FactNew(b[|a|], now))
  {
    InsertFates(cat, rank, goals, a, now, o, e, mode, d);
    var b := Insert(cat, goals, a, now, o, e, mode, d);
    FatesAreHistory(cat, rank, a, b, now, o, e);
    forall i | 0 <= i < |a|
      ensures V.FactKept(a[i], b[i], now)
    {
      assert Fate(cat, rank, a, b, now, o, e, i) && Evolved(a[i], b[i]);
      FateKept(cat, rank, a, b, now, o, e, i);
    }
  }

  /** What a turn has done to the records since it began. */
  ghost predicate KeptSince(before: Conversation, s: Conversation) {
    && before.cases <= s.cases && (forall i | |before.cases| <= i < |s.cases| :: s.cases[i].openedAt == s.seqNo)
    && |before.goals| <= |s.goals| && (forall i | 0 <= i < |before.goals| :: V.GoalKept(before.goals[i], s.goals[i]))
    && (forall i | |before.goals| <= i < |s.goals| :: s.goals[i].openedAt == s.seqNo)
    && (forall x | x in s.actions :: x in before.actions || x.requestedAt == s.seqNo)
  }

  ghost predicate FactsKeptSince(before: seq<FactRecord>, facts: seq<FactRecord>, now: nat) {
    && |before| <= |facts| && (forall i | 0 <= i < |before| :: V.FactKept(before[i], facts[i], now))
    && (forall i | |before| <= i < |facts| :: V.FactNew(facts[i], now))
  }

  lemma FactsKeptOn(before: seq<FactRecord>, a: seq<FactRecord>, b: seq<FactRecord>, now: nat)
    requires FactsKeptSince(before, a, now) && |a| <= |b| <= |a| + 1
    requires (forall i | 0 <= i < |a| :: V.FactKept(a[i], b[i], now)) && (|b| > |a| ==> V.FactNew(b[|a|], now))
    ensures FactsKeptSince(before, b, now)
  {
    forall i | 0 <= i < |before|
      ensures V.FactKept(before[i], b[i], now)
    {
      assert V.FactKept(before[i], a[i], now) && V.FactKept(a[i], b[i], now);
    }
    forall i | |before| <= i < |b|
      ensures V.FactNew(b[i], now)
    {
      if i < |a| {
        assert V.FactNew(a[i], now) && V.FactKept(a[i], b[i], now);
      }
    }
  }

  lemma GoalMoveKept(cat: Catalogue, before: Conversation, a: Conversation, b: Conversation)
    requires GoalMove(cat, a, b) && KeptSince(before, a)
    ensures KeptSince(before, b)
  {
    forall i | 0 <= i < |before.goals|
      ensures V.GoalKept(before.goals[i], b.goals[i])
    {
      assert V.GoalKept(before.goals[i], a.goals[i]) && GoalMoved(cat, a, a.goals[i], b.goals[i], i);
    }
    forall i | |before.goals| <= i < |b.goals|
      ensures b.goals[i].openedAt == b.seqNo
    {
      if i < |a.goals| {
        assert GoalMoved(cat, a, a.goals[i], b.goals[i], i);
      } else {
        assert GoalBorn(cat, b, i);
      }
    }
    forall i | |before.cases| <= i < |b.cases|
      ensures b.cases[i].openedAt == b.seqNo
    {
      if i < |a.cases| {
        assert b.cases[i] == a.cases[i];
      } else {
        assert CaseBorn(b, i);
      }
    }
  }

  ghost predicate AllKept(cat: Catalogue, rank: map<string, nat>, before: Conversation, s: Conversation) {
    && FactsOk(cat, rank, s.facts, s.seqNo) && s.seqNo == before.seqNo + 1
    && KeptSince(before, s) && FactsKeptSince(before.facts, s.facts, s.seqNo)
  }

  lemma MoveKept(cat: Catalogue, rank: map<string, nat>, before: Conversation, a: Conversation, b: Conversation)
    requires Valid(cat) && Ranked(cat, rank) && Move(cat, rank, a, b) && AllKept(cat, rank, before, a)
    ensures AllKept(cat, rank, before, b)
  {
    MoveKeepsFacts(cat, rank, a, b);
    if FactMove(cat, rank, a, b) {
      var o, e, mode, d :| Legit(cat, rank, a, o, e, mode, d)
        && b == a.(facts := Insert(cat, a.goals, a.facts, a.seqNo, o, e, mode, d));
      InsertKept(cat, rank, a.goals, a.facts, a.seqNo, o, e, mode, d);
      FactsKeptOn(before.facts, a.facts, b.facts, a.seqNo);
    } else {
      GoalMoveKept(cat, before, a, b);
    }
  }

  lemma TurnKept(cat: Catalogue, rank: map<string, nat>, st: Conversation, t: Turn)
    requires Valid(cat) && Ranked(cat, rank) && FactsOk(cat, rank, st.facts, st.seqNo)
    requires Apply(cat, st, t).Ok?
    ensures AllKept(cat, rank, st, Apply(cat, st, t).value)
  {
    var P := (s: Conversation) => AllKept(cat, rank, st, s);
    forall a, b | P(a) && Move(cat, rank, a, b)
      ensures P(b)
    {
      MoveKept(cat, rank, st, a, b);
    }
    StartsKept(cat, rank, st);
    TurnMoves(cat, rank, P, st, t);
  }

  lemma StartsKept(cat: Catalogue, rank: map<string, nat>, st: Conversation)
    requires FactsOk(cat, rank, st.facts, st.seqNo)
    ensures AllKept(cat, rank, st, Numbered(st))
  {
    LaterOk(cat, rank, st.facts, st.seqNo);
  }

  // ----- references -----

  /** A link names one of the first n facts, and a superseded fact has a reason. */
  ghost predicate Marked(f: FactRecord, n: nat) {
    (f.conflictsWith.Some? ==> f.conflictsWith.value < n) && (!f.active ==> f.reason.Some?)
  }

  ghost predicate AllMarked(facts: seq<FactRecord>, n: nat) {
    forall i | 0 <= i < |facts| :: Marked(facts[i], n)
  }

  lemma SupersedeMarks(
    cat: Catalogue, goals: seq<GoalRecord>, facts: seq<FactRecord>, now: nat,
    i: nat, why: Supersession, successor: Option<nat>, n: nat)
    requires i < |facts| && AllMarked(facts, n)
    ensures AllMarked(Supersede(cat, goals, facts, now, i, why, successor), n)
  {
    var marked := facts[i := Mark(facts[i], why, now, successor)];
    assert AllMarked(marked, n);
    ThinnedMarks(marked, Supersede(cat, goals, facts, now, i, why, successor), now, n);
  }

  lemma ThinnedMarks(a: seq<FactRecord>, b: seq<FactRecord>, now: nat, n: nat)
    requires AllMarked(a, n) && Thinned(a, b, now)
    ensures AllMarked(b, n)
  {
    forall i | 0 <= i < |b|
      ensures Marked(b[i], n)
    {
      assert Marked(a[i], n);
    }
  }

  lemma {:induction false} EachMarks(
    cat: Catalogue, goals: seq<GoalRecord>, facts: seq<FactRecord>, now: nat,
    ids: seq<nat>, keep: Option<nat>, why: Supersession, successor: nat, n: nat)
    requires (forall x | 0 <= x < |ids| :: ids[x] < |facts|) && AllMarked(facts, n)
    ensures AllMarked(SupersedeEach(cat, goals, facts, now, ids, keep, why, successor), n)
    decreases |ids|
  {
    if ids != [] {
      var next := if keep == Some(ids[0]) then facts
        else Supersede(cat, goals, facts, now, ids[0], why, Some(successor));
      if keep != Some(ids[0]) {
        SupersedeMarks(cat, goals, facts, now, ids[0], why, Some(successor), n);
      }
      EachMarks(cat, goals, next, now, ids[1..], keep, why, successor, n);
    }
  }

  lemma AdmitMarks(
    cat: Catalogue, goals: seq<GoalRecord>, facts: seq<FactRecord>, now: nat,
    live: seq<nat>, same: Option<nat>, o: Owner, e: Entry, mode: Mode, derivedFrom: seq<nat>)
    requires (same.Some? ==> same.value < |facts|) && (forall x | 0 <= x < |live| :: live[x] < |facts|)
    requires AllMarked(facts, |facts|)
    ensures AllMarked(Admit(cat, goals, facts, now, live, same, o, e, mode, derivedFrom), |facts| + 1)
  {
    var n := |facts| + 1;
    assert AllMarked(facts, n) by {
      forall i | 0 <= i < |facts|
        ensures Marked(facts[i], n)
      {
        assert Marked(facts[i], |facts|);
      }
    }
    var start := if same.Some? then Supersede(cat, goals, facts, now, same.value, SYSTEM_REPLACEMENT, None) else facts;
    if same.Some? {
      SupersedeMarks(cat, goals, facts, now, same.value, SYSTEM_REPLACEMENT, None, n);
    }
    if live != [] && !FactOf(cat, e.code).repeatable {
      if mode != ASSERT {
        EachMarks(cat, goals, start, now, live, None, ReasonOf(e, mode), |facts|, n);
      } else if start[live[0]].confidence == CONFIRMED {
        var disputed := start[live[0] := start[live[0]].(confidence := CONFLICTING, conflictsWith := Some(|facts|))];
        assert AllMarked(disputed, n);
        ThinnedMarks(disputed, Invalidate(cat, goals, disputed, now, live[0]), now, n);
      } else {
        SupersedeMarks(cat, goals, start, now, live[0], SYSTEM_REPLACEMENT, Some(|facts|), n);
      }
    }
  }

  lemma InsertMarks(
    cat: Catalogue, goals: seq<GoalRecord>, a: seq<FactRecord>, now: nat, o: Owner, e: Entry, mode: Mode, d: seq<nat>)
    requires AllMarked(a, |a|)
    ensures AllMarked(Insert(cat, goals, a, now, o, e, mode, d), |Insert(cat, goals, a, now, o, e, mode, d)|)
  {
    var live := Live(cat, a, KeyFor(cat, e.code, o));
    var same := WithValue(a, live, e.value);
    if same.Some? && FactOf(cat, e.code).repeatable {
    } else if same.Some? && !(e.authoritative && !a[same.value].authoritative) {
      EachMarks(cat, goals, a, now, live, same, ReaffirmReason(e, mode), same.value, |a|);
    } else {
      AdmitMarks(cat, goals, a, now, live, same, o, e, mode, d);
    }
  }

  /** A fact is of a case that is there, or of a goal that is there, or of neither. */
  ghost predicate AtHome(st: Conversation, i: nat)
    requires i < |st.facts|
  {
    var f := st.facts[i];
    && (f.caseId.Some? ==> f.caseId.value < |st.cases| && f.goalId.None?)
    && (f.goalId.Some? ==> f.goalId.value < |st.goals|)
  }

  /** Goals, facts and actions name what is there, and no subject has two cases. */
  ghost predicate Rooted(cat: Catalogue, rank: map<string, nat>, st: Conversation) {
    && FactsOk(cat, rank, st.facts, st.seqNo) && AllMarked(st.facts, |st.facts|)
    && (forall i | 0 <= i < |st.goals| :: T.GoalRefers(st, i))
    && (forall i | 0 <= i < |st.facts| :: AtHome(st, i))
    && (forall i | 0 <= i < |st.actions| :: st.actions[i].goalId < |st.goals|)
    && OneCaseEach(st.cases)
  }

  ghost predicate OneCaseEach(cases: seq<CaseRecord>) {
    forall i, j | 0 <= i < j < |cases| ::
      cases[i].subjectKind != cases[j].subjectKind || cases[i].subjectRef != cases[j].subjectRef
  }

  lemma RecordAtHome(
    cat: Catalogue, rank: map<string, nat>, a: Conversation, b: Conversation,
    o: Owner, e: Entry, mode: Mode, d: seq<nat>)
    requires Ranked(cat, rank) && FactsRanked(cat, rank, a.facts) && Distinct(cat, a.facts)
    requires OwnerExists(a.goals, o) && (forall j | 0 <= j < |a.goals| :: T.GoalRefers(a, j))
    requires b == a.(facts := Insert(cat, a.goals, a.facts, a.seqNo, o, e, mode, d)) && |a.facts| < |b.facts|
    ensures AtHome(b, |a.facts|)
  {
    InsertFates(cat, rank, a.goals, a.facts, a.seqNo, o, e, mode, d);
    assert Appended(cat, a.facts, b.facts, a.seqNo, o, e, d);
    assert o.goalId.Some? ==> T.GoalRefers(a, o.goalId.value);
  }

  lemma {:induction false} BornInCase(cat: Catalogue, a: Conversation, b: Conversation, i: nat)
    requires GoalMove(cat, a, b) && (forall j | 0 <= j < |a.goals| :: T.GoalRefers(a, j)) && i < |b.goals|
    ensures T.GoalRefers(b, i)
    decreases i
  {
    if i < |a.goals| {
      assert T.GoalRefers(a, i) && GoalMoved(cat, a, a.goals[i], b.goals[i], i);
    } else {
      assert GoalBorn(cat, b, i);
      if b.goals[i].parent.Some? {
        BornInCase(cat, a, b, b.goals[i].parent.value);
      }
    }
  }

  lemma GoalMoveRoots(cat: Catalogue, rank: map<string, nat>, a: Conversation, b: Conversation)
    requires GoalMove(cat, a, b) && Rooted(cat, rank, a)
    ensures Rooted(cat, rank, b)
  {
    forall i | 0 <= i < |b.goals|
      ensures T.GoalRefers(b, i)
    {
      BornInCase(cat, a, b, i);
    }
    forall i | 0 <= i < |b.facts|
      ensures AtHome(b, i)
    {
      assert AtHome(a, i);
    }
    forall i, j | 0 <= i < j < |b.cases|
      ensures b.cases[i].subjectKind != b.cases[j].subjectKind || b.cases[i].subjectRef != b.cases[j].subjectRef
    {
      if j < |a.cases| {
        assert b.cases[i] == a.cases[i] && b.cases[j] == a.cases[j];
      } else {
        assert CaseBorn(b, j);
      }
    }
    forall i | 0 <= i < |b.actions|
      ensures b.actions[i].goalId < |b.goals|
    {
      assert b.actions[i] in b.actions;
    }
  }

  lemma InsertRoots(
    cat: Catalogue, rank: map<string, nat>, a: Conversation, b: Conversation,
    o: Owner, e: Entry, mode: Mode, d: seq<nat>)
    requires Ranked(cat, rank) && Rooted(cat, rank, a) && OwnerExists(a.goals, o)
    requires b == a.(facts := Insert(cat, a.goals, a.facts, a.seqNo, o, e, mode, d))
    requires FactsOk(cat, rank, b.facts, b.seqNo) && History(a.facts, b.facts)
    ensures Rooted(cat, rank, b)
  {
    InsertMarks(cat, a.goals, a.facts, a.seqNo, o, e, mode, d);
    forall i | 0 <= i < |b.facts|
      ensures AtHome(b, i)
    {
      if i < |a.facts| {
        assert AtHome(a, i) && Evolved(a.facts[i], b.facts[i]);
      } else {
        RecordAtHome(cat, rank, a, b, o, e, mode, d);
      }
    }
    forall i | 0 <= i < |b.goals|
      ensures T.GoalRefers(b, i)
    {
      assert T.GoalRefers(a, i);
    }
  }

  lemma MoveRoots(cat: Catalogue, rank: map<string, nat>, a: Conversation, b: Conversation)
    requires Valid(cat) && Ranked(cat, rank) && Move(cat, rank, a, b) && Rooted(cat, rank, a)
    ensures Rooted(cat, rank, b)
  {
    if FactMove(cat, rank, a, b) {
      MoveKeepsFacts(cat, rank, a, b);
      var o, e, mode, d :| Legit(cat, rank, a, o, e, mode, d)
        && b == a.(facts := Insert(cat, a.goals, a.facts, a.seqNo, o, e, mode, d));
      InsertRoots(cat, rank, a, b, o, e, mode, d);
    } else {
      GoalMoveRoots(cat, rank, a, b);
    }
  }

  lemma NumberedRoots(cat: Catalogue, rank: map<string, nat>, st: Conversation)
    requires Rooted(cat, rank, st)
    ensures Rooted(cat, rank, Numbered(st))
  {
    LaterOk(cat, rank, st.facts, st.seqNo);
    forall i | 0 <= i < |st.goals|
      ensures T.GoalRefers(Numbered(st), i)
    {
      assert T.GoalRefers(st, i);
    }
    forall i | 0 <= i < |st.facts|
      ensures AtHome(Numbered(st), i)
    {
      assert AtHome(st, i);
    }
  }

  lemma TurnRoots(cat: Catalogue, rank: map<string, nat>, st: Conversation, t: Turn)
    requires Valid(cat) && Ranked(cat, rank) && Rooted(cat, rank, st) && Apply(cat, st, t).Ok?
    ensures Rooted(cat, rank, Apply(cat, st, t).value)
  {
    var P := (s: Conversation) => Rooted(cat, rank, s);
    forall a, b | P(a) && Move(cat, rank, a, b)
      ensures P(b)
    {
      MoveRoots(cat, rank, a, b);
    }
    NumberedRoots(cat, rank, st);
    TurnMoves(cat, rank, P, st, t);
  }

  /** The open questions are of goals that are there. */
  ghost predicate QuestionsRefer(st: Conversation) {
    && (st.pending.Some? ==> st.pending.value.goalId < |st.goals|)
    && (forall i | 0 <= i < |st.parked| :: st.parked[i].goalId < |st.goals|)
  }

  lemma RootedRefers(cat: Catalogue, rank: map<string, nat>, st: Conversation)
    requires Rooted(cat, rank, st) && QuestionsRefer(st)
    ensures T.Referenced(st)
  {
    forall i | 0 <= i < |st.facts|
      ensures T.FactRefers(st, i)
    {
      assert AtHome(st, i) && Marked(st.facts[i], |st.facts|) && LinkedAt(cat, st.facts, i);
      assert FactRanked(cat, rank, st.facts, i);
    }
  }

  // ----- questions -----

  /** Every open question has a key of its own, and none is from the future. */
  ghost predicate QuestionsOk(st: Conversation) {
    && V.DistinctKeys(st.parked)
    && (forall i | 0 <= i < |st.parked| :: st.parked[i].askedAt <= st.seqNo)
    && (st.pending.Some? ==>
          && st.pending.value.askedAt <= st.seqNo
          && forall i | 0 <= i < |st.parked| :: P.KeyOfQuestion(st.parked[i]) != P.KeyOfQuestion(st.pending.value))
  }

  /** The open questions come from those that were open before. */
  ghost predicate Inherited(before: Conversation, s: Conversation) {
    && forall i | 0 <= i < |s.parked| :: s.parked[i] in before.parked || before.pending == Some(s.parked[i])
  }

  /** Until the refresh the pending question is the old one or none. */
  ghost predicate Waiting(before: Conversation, s: Conversation) {
    QuestionsOk(s) && Inherited(before, s) && (s.pending.Some? ==> s.pending == before.pending)
  }

  lemma ParkingWaits(before: Conversation, a: Conversation, b: Conversation)
    requires Waiting(before, a) && Parks(a, b)
    ensures Waiting(before, b)
  {
  }

  lemma {:induction false} SyncWaits(cat: Catalogue, before: Conversation, st: Conversation, k: nat)
    requires k <= |st.goals| && Waiting(before, st)
    ensures Waiting(before, SyncFrom(cat, st, k))
    decreases |st.goals| - k
  {
    if k < |st.goals| {
      SyncParks(cat, st, k);
      ParkingWaits(before, st, SyncGoal(cat, st, k));
      SyncWaits(cat, before, SyncGoal(cat, st, k), k + 1);
    }
  }

  lemma SyncParks(cat: Catalogue, st: Conversation, k: nat)
    requires k < |st.goals|
    ensures Parks(st, SyncGoal(cat, st, k))
  {
  }

  lemma {:induction false} RoundsWaitOn(cat: Catalogue, before: Conversation, st: Conversation, limit: nat, fuel: nat)
    requires Waiting(before, st) && RoundsFrom(cat, st, limit, fuel).Ok?
    ensures Waiting(before, RoundsFrom(cat, st, limit, fuel).value)
    decreases fuel
  {
    var mid := Evaluate(cat, st, limit).value;
    assert Waiting(before, mid);
    SyncWaits(cat, before, mid, 0);
    var next := Round(cat, st, limit).value;
    if !SameCore(st, next) {
      RoundsWaitOn(cat, before, next, limit, fuel - 1);
    }
  }

  lemma {:induction false} ReopenAsks(cat: Catalogue, st: Conversation, k: nat)
    requires k <= |st.goals|
    ensures var r := ReopenFrom(cat, st, k);
            r.pending == st.pending && r.parked == st.parked && r.seqNo == st.seqNo
    decreases |st.goals| - k
  {
    if k < |st.goals| {
      if MustReopen(cat, st, k) {
        ReopenAsks(cat, st.(goals := ReopenOne(st.goals, k)), k + 1);
      } else {
        ReopenAsks(cat, st, k + 1);
      }
    }
  }

  /** After the refresh one question may be new, and it is pending. */
  ghost predicate Asked(before: Conversation, s: Conversation) {
    && QuestionsOk(s) && Inherited(before, s)
    && (s.pending.Some? ==>
          || s.pending == before.pending || s.pending.value in before.parked
          || (s.pending.value.askedAt == s.seqNo && s.pending.value.goalId < |s.goals|))
  }

  lemma NextIsNew(cat: Catalogue, st: Conversation)
    ensures var r := NextQuestion(cat, st);
            r.Ok? && r.value.Some? ==> r.value.value.askedAt == st.seqNo && r.value.value.goalId < |st.goals|
  {
  }

  lemma NewAsked(before: Conversation, st: Conversation, q: Option<QuestionRef>)
    requires Waiting(before, st) && QuestionsOk(before) && before.seqNo < st.seqNo
    requires q.Some? ==> q.value.askedAt == st.seqNo && q.value.goalId < |st.goals|
    ensures Asked(before, st.(pending := q))
  {
    forall i | 0 <= i < |st.parked|
      ensures st.parked[i].askedAt < st.seqNo
    {
      assert st.parked[i] in before.parked || before.pending == Some(st.parked[i]);
    }
  }

  lemma Unparked(before: Conversation, st: Conversation, n: nat)
    requires Waiting(before, st) && n < |st.parked| && st.pending.None?
    ensures var next := st.(parked := st.parked[..n] + st.parked[n + 1..]);
            Waiting(before, next) && Asked(before, next.(pending := Some(st.parked[n])))
  {
    var next := st.(parked := st.parked[..n] + st.parked[n + 1..]);
    forall i | 0 <= i < |next.parked|
      ensures next.parked[i] == st.parked[if i < n then i else i + 1]
    {
    }
  }

  lemma {:induction false} ResumeAsks(cat: Catalogue, before: Conversation, st: Conversation, n: nat)
    requires Waiting(before, st) && QuestionsOk(before) && before.seqNo < st.seqNo
    requires n <= |st.parked| && st.pending.None? && ResumeFrom(cat, st, n).Ok?
    ensures Asked(before, ResumeFrom(cat, st, n).value)
    decreases n
  {
    if n == 0 {
      NextIsNew(cat, st);
      NewAsked(before, st, NextQuestion(cat, st).value);
    } else {
      var q := st.parked[n - 1];
      if ContextGoal(st.goals) != Some(q.goalId) {
        ResumeAsks(cat, before, st, n - 1);
      } else {
        var next := st.(parked := st.parked[..n - 1] + st.parked[n..]);
        Unparked(before, st, n - 1);
        if !StillValid(cat, st, q) {
          ResumeAsks(cat, before, next, n - 1);
        }
      }
    }
  }

  lemma WithdrawWaits(cat: Catalogue, before: Conversation, st: Conversation)
    requires Waiting(before, st)
    ensures var r := Withdraw(cat, st);
            Waiting(before, r) && r.seqNo == st.seqNo
  {
    assert Parks(st, Withdraw(cat, st)) || Withdraw(cat, st) == st.(pending := None);
  }

  /** The candidate takes the place of the pending question. */
  lemma TakeoverAsks(before: Conversation, st: Conversation, candidate: Option<QuestionRef>)
    requires Waiting(before, st) && QuestionsOk(before) && before.seqNo < st.seqNo
    requires st.pending.Some? && candidate.Some?
    requires candidate.value.askedAt == st.seqNo && candidate.value.goalId < |st.goals|
    ensures Asked(before, st.(parked := st.parked + [st.pending.value], pending := candidate))
  {
    var parked := st.(parked := st.parked + [st.pending.value], pending := None);
    ParkingWaits(before, st, parked);
    NewAsked(before, parked, candidate);
  }

  lemma RefreshAsks(cat: Catalogue, before: Conversation, st: Conversation)
    requires Waiting(before, st) && QuestionsOk(before) && before.seqNo < st.seqNo && Refresh(cat, st).Ok?
    ensures Asked(before, Refresh(cat, st).value)
  {
    var cleared := Withdraw(cat, st);
    WithdrawWaits(cat, before, st);
    NextIsNew(cat, cleared);
    var candidate := NextQuestion(cat, cleared).value;
    if cleared.pending.Some? {
      if candidate.Some? {
        TakeoverAsks(before, cleared, candidate);
      }
    } else {
      ResumeAsks(cat, before, cleared, |cleared.parked|);
    }
  }

  lemma TurnAsks(cat: Catalogue, st: Conversation, t: Turn)
    requires QuestionsOk(st) && Apply(cat, st, t).Ok?
    ensures Asked(st, Apply(cat, st, t).value)
  {
    if TurnSettles(t) {
      TurnIs(cat, st, t);
      ToldParks(cat, st, t);
      var told := Told(cat, st, t).value;
      ParkingWaits(st, Numbered(st), told);
      ReopenAsks(cat, told, 0);
      RoundsWaitOn(cat, st, ReopenFrom(cat, told, 0), ROUNDS, ROUNDS);
      var settled := Settle(cat, told, ROUNDS).value;
      RefreshAsks(cat, st, settled);
    } else {
      IdleTurnIs(cat, st, t);
      if Refresh(cat, Numbered(st)).Ok? {
        RefreshAsks(cat, st, Numbered(st));
      }
    }
  }

  /** The questions of a turn follow from those before it, as the store needs. */
  lemma AskedFollows(before: Conversation, s: Conversation)
    requires QuestionsOk(before) && Asked(before, s)
    ensures V.QuestionsFollow(before, s, s.seqNo)
  {
    forall q | q in s.parked
      ensures q in before.parked || before.pending == Some(q)
    {
      var i :| 0 <= i < |s.parked| && s.parked[i] == q;
    }
  }

  lemma AskedRefers(before: Conversation, s: Conversation)
    requires QuestionsRefer(before) && Asked(before, s) && |before.goals| <= |s.goals|
    ensures QuestionsRefer(s)
  {
    forall i | 0 <= i < |s.parked|
      ensures s.parked[i].goalId < |s.goals|
    {
      assert s.parked[i] in before.parked || before.pending == Some(s.parked[i]);
    }
  }

  // ----- whole runs -----

  /** What every reachable state offers the store. */
  ghost predicate Storable(cat: Catalogue, rank: map<string, nat>, st: Conversation) {
    && Rooted(cat, rank, st) && QuestionsOk(st) && QuestionsRefer(st) && UniqueActions(st.actions)
  }

  lemma {:induction false} TurnContinues(
    cat: Catalogue, rank: map<string, nat>, st: Conversation, t: Turn, next: Conversation)
    requires Valid(cat) && Ranked(cat, rank) && Storable(cat, rank, st) && Apply(cat, st, t) == Ok(next)
    ensures V.Continues(st, next, next.seqNo) && Storable(cat, rank, next)
  {
    TurnKept(cat, rank, st, t);
    TurnAsks(cat, st, t);
    AskedFollows(st, next);
    AskedRefers(st, next);
    TurnRoots(cat, rank, st, t);
    RootedRefers(cat, rank, next);
    var P := (s: Conversation) => UniqueActions(s.actions);
    UniqueIsStable(cat, rank, P);
    TurnMoves(cat, rank, P, st, t);
  }

  lemma InitialStorable(cat: Catalogue, rank: map<string, nat>)
    ensures Storable(cat, rank, INITIAL)
  {
    assert QuestionsOk(INITIAL) && UniqueActions(INITIAL.actions);
    assert FactsOk(cat, rank, INITIAL.facts, INITIAL.seqNo) by {
      InitialOk(cat, rank);
    }
  }

  /** The induction over runs, with the property named I. */
  lemma RunsAreStorableAs(cat: Catalogue, rank: map<string, nat>, I: Conversation -> bool, turns: seq<Turn>)
    requires Valid(cat) && Ranked(cat, rank)
    requires forall s {:trigger I(s)} :: Storable(cat, rank, s) ==> I(s)
    requires forall s {:trigger Storable(cat, rank, s)} :: I(s) ==> Storable(cat, rank, s)
    ensures Storable(cat, rank, Run(cat, turns))
  {
    assert I(INITIAL) by {
      InitialStorable(cat, rank);
    }
    forall st, t | I(st) && Apply(cat, st, t).Ok?
      ensures I(Apply(cat, st, t).value)
    {
      TurnContinues(cat, rank, st, t, Apply(cat, st, t).value);
    }
    RunsKeep(cat, I, turns);
  }

  /** In every reachable state whatever is named is there, no subject has two cases, and no two open questions or
      actions have one key. */
  lemma RunsAreStorable(cat: Catalogue, rank: map<string, nat>, turns: seq<Turn>)
    requires Valid(cat) && Ranked(cat, rank)
    ensures Storable(cat, rank, Run(cat, turns)) && T.Referenced(Run(cat, turns))
  {
    RunsAreStorableAs(cat, rank, (s: Conversation) => Storable(cat, rank, s), turns);
    RootedRefers(cat, rank, Run(cat, turns));
  }

  /** With a subject text that tells subjects apart, no case of a run is refused. */
  lemma RunsFitCases(cat: Catalogue, rank: map<string, nat>, turns: seq<Turn>, subject: string -> string, k: nat)
    requires Valid(cat) && Ranked(cat, rank) && k < |Run(cat, turns).cases|
    requires forall x, y :: subject(x) == subject(y) ==> x == y
    ensures T.CaseFits(Run(cat, turns), subject, k)
  {
    RunsAreStorable(cat, rank, turns);
  }

  /** From any reachable state, a turn is committed to a store that shows the state if and only if its operations
      are acceptable and can express what it did; the store then shows the next state. */
  lemma {:induction false} TurnReplays(
    cat: Catalogue, rank: map<string, nat>, turns: seq<Turn>, t: Turn, st: Conversation, next: Conversation,
    s: P.Store, covered: Option<set<string>>, subject: string -> string)
    requires Valid(cat) && Ranked(cat, rank) && st == Run(cat, turns) && Apply(cat, st, t) == Ok(next)
    requires V.Shows(s, st, subject) && V.NotAfter(s, st.seqNo) && P.Guarded(s)
    ensures |st.goals| <= |next.goals| && |st.facts| <= |next.facts|
    ensures var done := V.Commit(s, P.Call(next.seqNo, covered), st, next, subject);
            && (done.Ok? <==> T.Acceptable(st, next, subject, covered) && V.Expressible(st, next, next.seqNo))
            && (done.Ok? ==>
                  V.Shows(done.value, next, subject) && V.NotAfter(done.value, next.seqNo) && P.Guarded(done.value))
  {
    assert V.Continues(st, next, next.seqNo) by {
      RunsAreStorable(cat, rank, turns);
      TurnContinues(cat, rank, st, t, next);
    }
    V.CommitsExactly(s, P.Call(next.seqNo, covered), st, next, subject);
  }

  const EMPTY := P.Store(map[], map[], map[], map[], map[])

  /** The store after every turn of a run has been committed to it; covers tells which turns come with a signal. */
  ghost function StoreAfter(
    cat: Catalogue, turns: seq<Turn>, covers: nat -> Option<set<string>>, subject: string -> string)
    : Result<P.Store, P.Fault>
    decreases |turns|
  {
    if turns == [] then Ok(EMPTY)
    else
      var n := |turns| - 1;
      var s :- StoreAfter(cat, turns[..n], covers, subject);
      Stored(cat, s, Run(cat, turns[..n]), turns[n], covers(n), subject)
  }

  /** One turn committed to a store; a turn that the reducer refuses leaves it as it is. */
  ghost function Stored(
    cat: Catalogue, s: P.Store, st: Conversation, t: Turn, covered: Option<set<string>>, subject: string -> string)
    : Result<P.Store, P.Fault>
  {
    var next := Apply(cat, st, t);
    if next.Ok? then V.Commit(s, P.Call(next.value.seqNo, covered), st, next.value, subject) else Ok(s)
  }

  ghost predicate StepFits(
    cat: Catalogue, st: Conversation, t: Turn, covered: Option<set<string>>, subject: string -> string)
  {
    var next := Apply(cat, st, t);
    next.Ok? ==>
      && |st.goals| <= |next.value.goals| && |st.facts| <= |next.value.facts|
      && T.Acceptable(st, next.value, subject, covered) && V.Expressible(st, next.value, next.value.seqNo)
  }

  ghost predicate RunFits(
    cat: Catalogue, turns: seq<Turn>, covers: nat -> Option<set<string>>, subject: string -> string)
    decreases |turns|
  {
    turns != [] ==>
      var n := |turns| - 1;
      RunFits(cat, turns[..n], covers, subject) && StepFits(cat, Run(cat, turns[..n]), turns[n], covers(n), subject)
  }

  lemma StepStored(
    cat: Catalogue, rank: map<string, nat>, turns: seq<Turn>, t: Turn,
    s: P.Store, covered: Option<set<string>>, subject: string -> string)
    requires Valid(cat) && Ranked(cat, rank)
    requires V.Shows(s, Run(cat, turns), subject) && V.NotAfter(s, Run(cat, turns).seqNo) && P.Guarded(s)
    ensures var st := Run(cat, turns);
            var done := Stored(cat, s, st, t, covered, subject);
            && (done.Ok? <==> StepFits(cat, st, t, covered, subject))
            && (done.Ok? ==>
                  && V.Shows(done.value, After(cat, st, t), subject)
                  && V.NotAfter(done.value, After(cat, st, t).seqNo) && P.Guarded(done.value))
  {
    var next := Apply(cat, Run(cat, turns), t);
    if next.Ok? {
      TurnReplays(cat, rank, turns, t, Run(cat, turns), next.value, s, covered, subject);
    }
  }

  /** A run is rebuilt from nothing if and only if each of its transitions fits. */
  lemma {:induction false} RunReplays(
    cat: Catalogue, rank: map<string, nat>, turns: seq<Turn>, covers: nat -> Option<set<string>>,
    subject: string -> string)
    requires Valid(cat) && Ranked(cat, rank)
    ensures var done := StoreAfter(cat, turns, covers, subject);
            && (done.Ok? <==> RunFits(cat, turns, covers, subject))
            && (done.Ok? ==>
                  && V.Shows(done.value, Run(cat, turns), subject)
                  && V.NotAfter(done.value, Run(cat, turns).seqNo) && P.Guarded(done.value))
    decreases |turns|
  {
    if turns != [] {
      var n := |turns| - 1;
      RunReplays(cat, rank, turns[..n], covers, subject);
      var s := StoreAfter(cat, turns[..n], covers, subject);
      if s.Ok? {
        StepStored(cat, rank, turns[..n], turns[n], s.value, covers(n), subject);
      }
    }
  }
}
