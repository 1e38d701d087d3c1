/**
 The tables of cases, goals and facts under the operations between two states: which
 operations the store takes, and what the rows are afterwards.
 */
module Tables {
  import opened Basics
  import opened Catalog
  import opened State
  import opened Persistence

  lemma FirstThen(s: Store, call: Call, op: Op, rest: seq<Op>)
    ensures PerformAll(s, call, [op] + rest)
         == var mid := Perform(s, call, op); if mid.Ok? then PerformAll(mid.value, call, rest) else mid
  {
    assert ([op] + rest)[1..] == rest;
  }

  // ----- a table as a list of rows -----

  ghost predicate Holds<T>(t: map<nat, T>, rows: seq<T>) {
    && (forall i: nat :: i in t <==> i < |rows|)
    && (forall i: nat | i < |rows| :: t[i] == rows[i])
  }

  lemma HoldsOneMore<T>(t: map<nat, T>, rows: seq<T>, k: nat)
    requires k < |rows| && Holds(t, rows[..k])
    ensures k !in t && Holds(t[k := rows[k]], rows[..k + 1])
  {
  }

  lemma HoldsRewritten<T>(t: map<nat, T>, new_: seq<T>, old_: seq<T>, k: nat)
    requires k < |old_| == |new_| && Holds(t, new_[..k] + old_[k..])
    ensures k in t && t[k] == old_[k] && Holds(t[k := new_[k]], new_[..k + 1] + old_[k + 1..])
  {
    var mixed, after := new_[..k] + old_[k..], new_[..k + 1] + old_[k + 1..];
    assert mixed[k] == old_[k];
    forall i: nat | i < |after|
      ensures t[k := new_[k]][i] == after[i]
    {
      assert t[i] == mixed[i];
    }
  }

  // ----- what the operations must meet -----

  /** The subject of a new case is that of no earlier one, as the store has it. */
  predicate CaseFits(next: Conversation, subject: string -> string, k: nat)
    requires k < |next.cases|
  {
    forall j | 0 <= j < k ::
      || next.cases[j].subjectKind != next.cases[k].subjectKind
      || subject(next.cases[j].subjectRef) != subject(next.cases[k].subjectRef)
  }

  /** Goal j while goals are pushed: the old ones have not moved yet. */
  function Seen(prev: Conversation, next: Conversation, j: nat): GoalRecord
    requires j < |next.goals|
  {
    if j < |prev.goals| then prev.goals[j] else next.goals[j]
  }

  /** A new goal overlays an open one, and is not open beside another of its code in its case. */
  predicate GoalFits(prev: Conversation, next: Conversation, k: nat)
    requires k < |next.goals|
  {
    var g := next.goals[k];
    && (g.overlayOf.Some? ==>
          g.overlayOf.value < k && Seen(prev, next, g.overlayOf.value).status !in {RESOLVED, ABANDONED})
    && (g.caseId.Some? && g.status !in {RESOLVED, ABANDONED} ==>
          forall j | 0 <= j < k && Seen(prev, next, j).caseId == g.caseId && Seen(prev, next, j).code == g.code ::
            Seen(prev, next, j).status in {RESOLVED, ABANDONED})
  }

  /** A goal that was closed keeps its status. */
  predicate StatusFits(prev: Conversation, next: Conversation, k: nat)
    requires k < |prev.goals| && k < |next.goals|
  {
    prev.goals[k].status in {RESOLVED, ABANDONED} ==> next.goals[k].status == prev.goals[k].status
  }

  /** The table has room for two active facts: they differ in case or code, or one is disputed. */
  predicate RoomBeside(f: FactRecord, h: FactRecord) {
    f.caseId.None? || f.caseId != h.caseId || f.code != h.code || CONFLICTING in {f.confidence, h.confidence}
  }

  /** Authority is confirmed, and comes from outside. */
  predicate Backed(f: FactRecord) {
    f.authoritative ==> f.confidence == CONFIRMED && (f.source == SYSTEM || f.source == DOCUMENT)
  }

  /** An old fact that stays active keeps its authority confirmed, and stands beside no other of its code. */
  predicate RatingFits(prev: Conversation, next: Conversation, k: nat)
    requires k < |prev.facts| <= |next.facts|
  {
    var h := next.facts[k];
    prev.facts[k].active && h.active ==>
      && Backed(h)
      && (forall j | 0 <= j < k && next.facts[j].active :: RoomBeside(next.facts[j], h))
      && (forall j | k < j < |prev.facts| && prev.facts[j].active :: RoomBeside(prev.facts[j], h))
  }

  /** A new fact has the authority it claims, and stands beside no other of its code in its case. While facts are
      recorded, the new ones are all active. */
  predicate FactFits(prev: Conversation, next: Conversation, covered: Option<set<string>>, k: nat)
    requires |prev.facts| <= k < |next.facts|
  {
    var h := next.facts[k];
    && (h.authoritative ==> covered.Some? && h.code in covered.value)
    && Backed(h) && NoRepeats(h.derivedFrom)
    && (forall j | 0 <= j < k && (next.facts[j].active || |prev.facts| <= j) :: RoomBeside(next.facts[j], h))
  }

  ghost predicate CasesFit(next: Conversation, subject: string -> string, n: nat) {
    forall k | n <= k < |next.cases| :: CaseFits(next, subject, k)
  }

  ghost predicate GoalsFit(prev: Conversation, next: Conversation, n: nat) {
    forall k | n <= k < |next.goals| :: GoalFits(prev, next, k)
  }

  ghost predicate StatusesFit(prev: Conversation, next: Conversation, n: nat)
    requires |prev.goals| <= |next.goals|
  {
    forall k | n <= k < |prev.goals| :: StatusFits(prev, next, k)
  }

  ghost predicate RatingsFit(prev: Conversation, next: Conversation, n: nat)
    requires |prev.facts| <= |next.facts|
  {
    forall k | n <= k < |prev.facts| :: RatingFits(prev, next, k)
  }

  ghost predicate FactsFit(prev: Conversation, next: Conversation, covered: Option<set<string>>, n: nat)
    requires |prev.facts| <= n
  {
    forall k | n <= k < |next.facts| :: FactFits(prev, next, covered, k)
  }

  /** What a caller can test before the operations from prev to next are performed. */
  ghost predicate Acceptable(
    prev: Conversation, next: Conversation, subject: string -> string, covered: Option<set<string>>)
    requires |prev.goals| <= |next.goals| && |prev.facts| <= |next.facts|
  {
    && CasesFit(next, subject, |prev.cases|)
    && GoalsFit(prev, next, |prev.goals|)
    && StatusesFit(prev, next, 0)
    && RatingsFit(prev, next, 0)
    && FactsFit(prev, next, covered, |prev.facts|)
  }

  // ----- what a state refers to -----

  ghost predicate GoalRefers(st: Conversation, i: nat)
    requires i < |st.goals|
  {
    var g := st.goals[i];
    && (g.caseId.Some? ==> g.caseId.value < |st.cases|)
    && (g.parent.Some? ==> g.parent.value < i)
    && (g.overlayOf.Some? ==> g.overlayOf.value < i)
  }

  /** A fact is of a case or of a goal, not both; it rests on earlier facts; a superseded one has a reason. */
  ghost predicate FactRefers(st: Conversation, i: nat)
    requires i < |st.facts|
  {
    var f := st.facts[i];
    && (f.caseId.Some? ==> f.caseId.value < |st.cases| && f.goalId.None?)
    && (f.goalId.Some? ==> f.goalId.value < |st.goals|)
    && (forall x | x in f.derivedFrom :: x < i)
    && (f.supersededBy.Some? ==> f.supersededBy.value < |st.facts|)
    && (f.conflictsWith.Some? ==> f.conflictsWith.value < |st.facts|)
    && (!f.active ==> f.reason.Some?)
  }

  /** Whatever the state names is there. */
  ghost predicate Referenced(st: Conversation) {
    && (forall i | 0 <= i < |st.goals| :: GoalRefers(st, i))
    && (forall i | 0 <= i < |st.facts| :: FactRefers(st, i))
    && (st.pending.Some? ==> st.pending.value.goalId < |st.goals|)
    && (forall i | 0 <= i < |st.parked| :: st.parked[i].goalId < |st.goals|)
    && (forall i | 0 <= i < |st.actions| :: st.actions[i].goalId < |st.goals|)
  }

  // ----- cases -----

  function CaseRowOf(c: CaseRecord, subject: string -> string): CaseRow {
    CaseRow(c.subjectKind, subject(c.subjectRef), c.openedAt)
  }

  function CaseRows(st: Conversation, subject: string -> string): (r: seq<CaseRow>)
    ensures |r| == |st.cases|
  {
    seq(|st.cases|, i requires 0 <= i < |st.cases| => CaseRowOf(st.cases[i], subject))
  }

  lemma {:induction false} OldCases(prev: Conversation, next: Conversation, subject: string -> string, k: nat)
    requires k <= |prev.cases| <= |next.cases|
    ensures CaseOps(prev, next, subject, k) == CaseOps(prev, next, subject, |prev.cases|)
    decreases |prev.cases| - k
  {
    if k < |prev.cases| {
      OldCases(prev, next, subject, k + 1);
    }
  }

  lemma CaseIsTaken(s: Store, call: Call, next: Conversation, subject: string -> string, k: nat)
    requires k < |next.cases| && Holds(s.cases, CaseRows(next, subject)[..k]) && next.cases[k].openedAt == call.now
    ensures var rows := CaseRows(next, subject);
      Perform(s, call, OpenCase(k, next.cases[k].subjectKind, subject(next.cases[k].subjectRef))) ==
        if CaseFits(next, subject, k) then Ok(s.(cases := s.cases[k := rows[k]])) else Err(DuplicateSubject)
  {
    var c, rows := next.cases[k], CaseRows(next, subject);
    assert k !in s.cases;
    forall j: nat | j < k
      ensures s.cases[j] == CaseRowOf(next.cases[j], subject)
    {
      assert s.cases[j] == rows[..k][j];
    }
    if !CaseFits(next, subject, k) {
      var j: nat :| j < k && next.cases[j].subjectKind == c.subjectKind
        && subject(next.cases[j].subjectRef) == subject(c.subjectRef);
      assert j in s.cases;
      assert HasSubject(s.cases, c.subjectKind, subject(c.subjectRef));
    }
  }

  lemma {:induction false} CasesDo(
    s: Store, call: Call, prev: Conversation, next: Conversation, subject: string -> string, k: nat,
        done: Result<Store, Fault>)
    requires |prev.cases| <= k <= |next.cases| && Holds(s.cases, CaseRows(next, subject)[..k])
    requires forall i | k <= i < |next.cases| :: next.cases[i].openedAt == call.now
    requires done == PerformAll(s, call, CaseOps(prev, next, subject, k))
    ensures done.Ok? <==> CasesFit(next, subject, k)
    ensures done.Ok? ==> done.value == s.(cases := done.value.cases) && Holds(done.value.cases, CaseRows(next, subject))
    decreases |next.cases| - k
  {
    var rows := CaseRows(next, subject);
    if k == |next.cases| {
      assert rows[..k] == rows;
    } else {
      var op := OpenCase(k, next.cases[k].subjectKind, subject(next.cases[k].subjectRef));
      FirstThen(s, call, op, CaseOps(prev, next, subject, k + 1));
      CaseIsTaken(s, call, next, subject, k);
      if CaseFits(next, subject, k) {
        HoldsOneMore(s.cases, rows, k);
        CasesDo(s.(cases := s.cases[k := rows[k]]), call, prev, next, subject, k + 1, done);
      }
    }
  }

  // ----- new goals -----

  function PushedRows(prev: Conversation, next: Conversation, now: nat): (r: seq<GoalRecord>)
    ensures |r| == |next.goals|
  {
    seq(|next.goals|, i requires 0 <= i < |next.goals| =>
      if i < |prev.goals| then prev.goals[i] else Pushed(next.goals[i], now))
  }

  lemma {:induction false} OldGoals(prev: Conversation, next: Conversation, k: nat)
    requires k <= |prev.goals| <= |next.goals|
    ensures GoalOps(prev, next, k) == GoalOps(prev, next, |prev.goals|)
    decreases |prev.goals| - k
  {
    if k < |prev.goals| {
      OldGoals(prev, next, k + 1);
    }
  }

  lemma PushFits(s: Store, now: nat, prev: Conversation, next: Conversation, k: nat)
    requires |prev.goals| <= k < |next.goals| && GoalRefers(next, k)
    requires Holds(s.goals, PushedRows(prev, next, now)[..k]) && (forall i: nat :: i in s.cases <==> i < |next.cases|)
    ensures PushFault(s, k, PushedRows(prev, next, now)[k]).None? <==> GoalFits(prev, next, k)
  {
    var rows, g := PushedRows(prev, next, now), next.goals[k];
    forall j: nat | j < k
      ensures j in s.goals && s.goals[j].status == Seen(prev, next, j).status
      ensures s.goals[j].caseId == Seen(prev, next, j).caseId && s.goals[j].code == Seen(prev, next, j).code
    {
      assert s.goals[j] == rows[..k][j] == rows[j];
    }
    if HasRivalGoal(s.goals, k, rows[k]) {
      var j :| j in s.goals && j != k && RivalGoals(s.goals[j], rows[k]);
      assert Seen(prev, next, j).code == g.code;
    } else {
      forall j: nat | j < k
        ensures !RivalGoals(s.goals[j], rows[k])
      {
        assert j in s.goals && j != k;
      }
    }
  }

  /** Goal k is pushed, if it fits. */
  lemma GoalDoes(s: Store, call: Call, prev: Conversation, next: Conversation, k: nat)
    requires |prev.goals| <= k < |next.goals| && Holds(s.goals, PushedRows(prev, next, call.now)[..k])
    requires GoalRefers(next, k) && (forall i: nat :: i in s.cases <==> i < |next.cases|)
    ensures var done := PerformAll(s, call, GoalOps(prev, next, k));
      if GoalFits(prev, next, k) then
        done == PerformAll(s.(goals := s.goals[k := PushedRows(prev, next, call.now)[k]]), call,
            GoalOps(prev, next, k + 1))
      else done.Err?
  {
    FirstThen(s, call, Op.PushGoal(k, next.goals[k]), GoalOps(prev, next, k + 1));
    PushFits(s, call.now, prev, next, k);
  }

  lemma GoalsFitFrom(prev: Conversation, next: Conversation, k: nat)
    requires k < |next.goals|
    ensures GoalsFit(prev, next, k) <==> GoalFits(prev, next, k) && GoalsFit(prev, next, k + 1)
  {
  }

  lemma {:induction false} GoalsDo(
    s: Store, call: Call, prev: Conversation, next: Conversation, k: nat, done: Result<Store, Fault>)
    requires |prev.goals| <= k <= |next.goals| && Holds(s.goals, PushedRows(prev, next, call.now)[..k])
    requires forall i | k <= i < |next.goals| :: GoalRefers(next, i)
    requires forall i: nat :: i in s.cases <==> i < |next.cases|
    requires done == PerformAll(s, call, GoalOps(prev, next, k))
    ensures done.Ok? <==> GoalsFit(prev, next, k)
    ensures done.Ok? ==>
        done.value == s.(goals := done.value.goals) && Holds(done.value.goals, PushedRows(prev, next, call.now))
    decreases |next.goals| - k
  {
    var rows := PushedRows(prev, next, call.now);
    if k == |next.goals| {
      assert rows[..k] == rows;
    } else {
      GoalDoes(s, call, prev, next, k);
      GoalsFitFrom(prev, next, k);
      if GoalFits(prev, next, k) {
        HoldsOneMore(s.goals, rows, k);
        GoalsDo(s.(goals := s.goals[k := rows[k]]), call, prev, next, k + 1, done);
      }
    }
  }

  // ----- old goals -----

  /** What the store makes of the goals: a status that changes brings its own closing time. */
  function MovedRows(prev: Conversation, next: Conversation, now: nat): (r: seq<GoalRecord>)
    ensures |r| == |next.goals|
  {
    seq(|next.goals|, i requires 0 <= i < |next.goals| =>
      if i >= |prev.goals| then Pushed(next.goals[i], now)
      else if SameStatus(prev.goals[i], next.goals[i]) then prev.goals[i]
      else Restated(prev.goals[i], next.goals[i].status, next.goals[i].reason, now))
  }

  lemma {:induction false} NoMoreStatuses(prev: Conversation, next: Conversation, k: nat)
    requires |prev.goals| <= k <= |next.goals|
    ensures StatusOps(prev, next, k) == []
    decreases |next.goals| - k
  {
    if k < |next.goals| {
      NoMoreStatuses(prev, next, k + 1);
    }
  }

  /** A goal that moves between open states, or closes, has no rival then if it had none. */
  lemma RestatedHasNoRival(t: map<nat, GoalRecord>, k: nat, status: GoalStatus, reason: Option<string>, now: nat)
    requires OneOpen(t) && k in t && (Closing(t[k].status) ==> status == t[k].status)
    ensures !HasRivalGoal(t, k, Restated(t[k], status, reason, now))
    ensures OneOpen(t[k := Restated(t[k], status, reason, now)])
  {
    var row := Restated(t[k], status, reason, now);
    forall i | i in t && i != k
      ensures !RivalGoals(t[i], row) && !RivalGoals(row, t[i])
    {
      assert i != k && t[i].caseId.Some? && t[i].caseId == t[k].caseId ==>
        t[i].code != t[k].code || Closing(t[i].status) || Closing(t[k].status);
    }
  }

  /** Goal k moves, as far as there is an operation on it. */
  lemma StatusDoes(s: Store, call: Call, prev: Conversation, next: Conversation, k: nat)
    requires k < |prev.goals| <= |next.goals| && OneOpen(s.goals) && k in s.goals && s.goals[k] == prev.goals[k]
    ensures var mid := s.(goals := s.goals[k := MovedRows(prev, next, call.now)[k]]);
      PerformAll(s, call, StatusOps(prev, next, k)) ==
        if StatusFits(prev, next, k) then PerformAll(mid, call, StatusOps(prev, next, k + 1)) else Err(TerminalGoal)
    ensures StatusFits(prev, next, k) ==> OneOpen(s.goals[k := MovedRows(prev, next, call.now)[k]])
  {
    var row := MovedRows(prev, next, call.now)[k];
    var g, h := prev.goals[k], next.goals[k];
    if SameStatus(g, h) {
      assert StatusOps(prev, next, k) == StatusOps(prev, next, k + 1);
      assert s.goals[k := row] == s.goals;
      assert s.(goals := s.goals) == s;
    } else {
      FirstThen(s, call, SetGoalStatus(k, h.status, h.reason), StatusOps(prev, next, k + 1));
      if StatusFits(prev, next, k) {
        RestatedHasNoRival(s.goals, k, h.status, h.reason, call.now);
      }
    }
  }

  lemma {:induction false} StatusesDo(
    s: Store, call: Call, prev: Conversation, next: Conversation, k: nat, done: Result<Store, Fault>)
    requires k <= |prev.goals| <= |next.goals| && OneOpen(s.goals)
    requires Holds(s.goals, MovedRows(prev, next, call.now)[..k] + PushedRows(prev, next, call.now)[k..])
    requires done == PerformAll(s, call, StatusOps(prev, next, k))
    ensures done.Ok? <==> StatusesFit(prev, next, k)
    ensures done.Ok? ==>
        done.value == s.(goals := done.value.goals) && Holds(done.value.goals, MovedRows(prev, next, call.now))
    decreases |prev.goals| - k
  {
    var moved, pushed := MovedRows(prev, next, call.now), PushedRows(prev, next, call.now);
    if k == |prev.goals| {
      NoMoreStatuses(prev, next, k);
      assert moved[..k] + pushed[k..] == moved;
    } else {
      HoldsRewritten(s.goals, moved, pushed, k);
      StatusDoes(s, call, prev, next, k);
      if StatusFits(prev, next, k) {
        StatusesDo(s.(goals := s.goals[k := moved[k]]), call, prev, next, k + 1, done);
      }
    }
  }

  // ----- old facts -----

  function FactRows(st: Conversation): (r: seq<FactRow>)
    ensures |r| == |st.facts|
  {
    seq(|st.facts|, i requires 0 <= i < |st.facts| => RowOf(st.facts[i]))
  }

  /** What the store makes of an old fact row: a superseded fact is not re-rated. */
  function Revised(f: FactRecord, h: FactRecord, now: nat): FactRow {
    if f.active && !h.active then Persistence.Retired(RowOf(f), now, h.supersededBy, h.reason)
    else RowOf(f).(confidence := h.confidence, conflictsWith := h.conflictsWith)
  }

  function RevisedRows(prev: Conversation, next: Conversation, now: nat): (r: seq<FactRow>)
    requires |prev.facts| <= |next.facts|
    ensures |r| == |prev.facts|
  {
    seq(|prev.facts|, i requires 0 <= i < |prev.facts| => Revised(prev.facts[i], next.facts[i], now))
  }

  lemma {:induction false} NoMoreFacts(prev: Conversation, next: Conversation, k: nat)
    requires |prev.facts| <= k <= |next.facts|
    ensures FactOps(prev, next, k) == []
    decreases |next.facts| - k
  {
    if k < |next.facts| {
      NoMoreFacts(prev, next, k + 1);
    }
  }

  /** Old facts keep what they say; a superseded one stays as it is, and one that is superseded now has a reason. */
  ghost predicate FactStays(f: FactRecord, h: FactRecord) {
    && h.code == f.code && h.caseId == f.caseId && h.source == f.source && h.authoritative == f.authoritative
    && (!f.active ==> h == f) && (!h.active ==> h.reason.Some?)
  }

  ghost predicate FactsStay(prev: Conversation, next: Conversation) {
    |prev.facts| <= |next.facts| && forall i | 0 <= i < |prev.facts| :: FactStays(prev.facts[i], next.facts[i])
  }

  /** Row j of the table when fact k is rated. */
  lemma RatingMeets(s: Store, now: nat, prev: Conversation, next: Conversation, k: nat)
    requires FactsStay(prev, next) && k < |prev.facts|
    requires Holds(s.facts, RevisedRows(prev, next, now)[..k] + FactRows(prev)[k..])
    requires prev.facts[k].active && next.facts[k].active
    ensures RowFault(s, k, RevisedRows(prev, next, now)[k]).None? <==> RatingFits(prev, next, k)
  {
    var rows, row, h := RevisedRows(prev, next, now)[..k] + FactRows(prev)[k..],
      RevisedRows(prev, next, now)[k], next.facts[k];
    assert FactStays(prev.facts[k], h);
    forall j: nat | j < |prev.facts| && j != k
      ensures j in s.facts
      ensures var f := if j < k then next.facts[j] else prev.facts[j];
        RivalFacts(s.facts[j], row) <==> f.active && !RoomBeside(f, h)
    {
      assert s.facts[j] == rows[j] && FactStays(prev.facts[j], next.facts[j]);
    }
    if HasRivalFact(s.facts, k, row) {
      var j :| j in s.facts && j != k && RivalFacts(s.facts[j], row);
      assert !RoomBeside(if j < k then next.facts[j] else prev.facts[j], h);
    } else {
      forall j: nat | j < |prev.facts| && j != k
        ensures !RivalFacts(s.facts[j], row)
      {
        assert j in s.facts;
      }
    }
  }

  /** A row that is not written meets every constraint, as the table does. */
  lemma KeptRowFits(s: Store, k: nat)
    requires k in s.facts && OneActive(s.facts) && AllAuthorised(s.facts)
    ensures RowFault(s, k, s.facts[k]).None?
  {
  }

  /** A superseded row is in nobody's way. */
  lemma RetiredFits(s: Store, k: nat, now: nat, successor: Option<nat>, why: Option<Supersession>)
    requires k in s.facts && AllAuthorised(s.facts)
    ensures RowFault(s, k, Persistence.Retired(s.facts[k], now, successor, why)).None?
  {
  }

  /** The table in which the facts before k are rated. */
  ghost predicate RatedUpTo(s: Store, now: nat, prev: Conversation, next: Conversation, k: nat)
    requires k <= |prev.facts| <= |next.facts|
  {
    && OneActive(s.facts) && AllAuthorised(s.facts)
    && Holds(s.facts, RevisedRows(prev, next, now)[..k] + FactRows(prev)[k..])
  }

  function Rerated(s: Store, now: nat, prev: Conversation, next: Conversation, k: nat): Store
    requires k < |prev.facts| <= |next.facts|
  {
    s.(facts := s.facts[k := RevisedRows(prev, next, now)[k]])
  }

  /** An operation on fact k is taken if and only if its rating fits. */
  lemma RatingIsTaken(s: Store, call: Call, prev: Conversation, next: Conversation, k: nat)
    requires FactsStay(prev, next) && k < |prev.facts| && RatedUpTo(s, call.now, prev, next, k)
    requires FactOp(prev.facts[k], next.facts[k], k) != []
    ensures var done := Perform(s, call, FactOp(prev.facts[k], next.facts[k], k)[0]);
      if RatingFits(prev, next, k) then done == Ok(Rerated(s, call.now, prev, next, k)) else done.Err?
  {
    HoldsRewritten(s.facts, RevisedRows(prev, next, call.now), FactRows(prev), k);
    assert FactStays(prev.facts[k], next.facts[k]);
    if next.facts[k].active {
      RatingMeets(s, call.now, prev, next, k);
    }
  }

  lemma RatingDoes(s: Store, call: Call, prev: Conversation, next: Conversation, k: nat)
    requires FactsStay(prev, next) && k < |prev.facts| && RatedUpTo(s, call.now, prev, next, k)
    ensures var done := PerformAll(s, call, FactOps(prev, next, k));
      if RatingFits(prev, next, k) then
        done == PerformAll(Rerated(s, call.now, prev, next, k), call, FactOps(prev, next, k + 1))
      else done.Err?
  {
    var f, h := prev.facts[k], next.facts[k];
    if FactOp(f, h, k) == [] {
      RatingIsIdle(s, call.now, prev, next, k);
      assert FactOps(prev, next, k) == FactOps(prev, next, k + 1);
    } else {
      RatingIsTaken(s, call, prev, next, k);
      assert FactOp(f, h, k) == [FactOp(f, h, k)[0]];
      FirstThen(s, call, FactOp(f, h, k)[0], FactOps(prev, next, k + 1));
    }
  }

  /** Without an operation the row stays, and it fits as it did. */
  lemma RatingIsIdle(s: Store, now: nat, prev: Conversation, next: Conversation, k: nat)
    requires FactsStay(prev, next) && k < |prev.facts| && RatedUpTo(s, now, prev, next, k)
    requires FactOp(prev.facts[k], next.facts[k], k) == []
    ensures RatingFits(prev, next, k) && Rerated(s, now, prev, next, k) == s
  {
    HoldsRewritten(s.facts, RevisedRows(prev, next, now), FactRows(prev), k);
    assert FactStays(prev.facts[k], next.facts[k]);
    assert s.facts[k := s.facts[k]] == s.facts;
    if prev.facts[k].active {
      KeptRowFits(s, k);
      RatingMeets(s, now, prev, next, k);
    }
  }

  lemma RatedTable(s: Store, now: nat, prev: Conversation, next: Conversation, k: nat)
    requires FactsStay(prev, next) && k < |prev.facts| && RatedUpTo(s, now, prev, next, k)
    requires RatingFits(prev, next, k)
    ensures RatedUpTo(Rerated(s, now, prev, next, k), now, prev, next, k + 1)
  {
    HoldsRewritten(s.facts, RevisedRows(prev, next, now), FactRows(prev), k);
    assert FactStays(prev.facts[k], next.facts[k]);
    if prev.facts[k].active && next.facts[k].active {
      RatingMeets(s, now, prev, next, k);
    } else if prev.facts[k].active {
      RetiredFits(s, k, now, next.facts[k].supersededBy, next.facts[k].reason);
    } else {
      KeptRowFits(s, k);
    }
    FactKeepsTable(s.facts, k, RevisedRows(prev, next, now)[k]);
  }

  lemma {:induction false} FactsDo(
    s: Store, call: Call, prev: Conversation, next: Conversation, k: nat, done: Result<Store, Fault>)
    requires FactsStay(prev, next) && k <= |prev.facts| && RatedUpTo(s, call.now, prev, next, k)
    requires done == PerformAll(s, call, FactOps(prev, next, k))
    ensures done.Ok? <==> RatingsFit(prev, next, k)
    ensures done.Ok? ==>
        done.value == s.(facts := done.value.facts) && Holds(done.value.facts, RevisedRows(prev, next, call.now))
    decreases |prev.facts| - k
  {
    if k == |prev.facts| {
      NoMoreFacts(prev, next, k);
      assert RevisedRows(prev, next, call.now)[..k] + FactRows(prev)[k..] == RevisedRows(prev, next, call.now);
    } else {
      RatingDoes(s, call, prev, next, k);
      if RatingFits(prev, next, k) {
        RatedTable(s, call.now, prev, next, k);
        FactsDo(Rerated(s, call.now, prev, next, k), call, prev, next, k + 1, done);
      }
    }
  }

  // ----- new facts -----

  function RecordedRows(prev: Conversation, next: Conversation, now: nat): (r: seq<FactRow>)
    requires |prev.facts| <= |next.facts|
    ensures |r| == |next.facts|
  {
    seq(|next.facts|, i requires 0 <= i < |next.facts| =>
      if i < |prev.facts| then Revised(prev.facts[i], next.facts[i], now) else Fresh(RowOf(next.facts[i]), now))
  }

  lemma {:induction false} OldFacts(prev: Conversation, next: Conversation, k: nat)
    requires k <= |prev.facts| <= |next.facts|
    ensures NewFactOps(prev, next, k) == NewFactOps(prev, next, |prev.facts|)
    decreases |prev.facts| - k
  {
    if k < |prev.facts| {
      OldFacts(prev, next, k + 1);
    }
  }

  lemma RivalsAsRecords(s: Store, now: nat, prev: Conversation, next: Conversation, k: nat)
    requires FactsStay(prev, next) && |prev.facts| <= k < |next.facts|
    requires Holds(s.facts, RecordedRows(prev, next, now)[..k])
    ensures HasRivalFact(s.facts, k, RecordedRows(prev, next, now)[k])
      <==> exists j | 0 <= j < k && (next.facts[j].active || |prev.facts| <= j) ::
             !RoomBeside(next.facts[j], next.facts[k])
  {
    var rows, h := RecordedRows(prev, next, now), next.facts[k];
    forall j: nat | j < k
      ensures j in s.facts
      ensures RivalFacts(s.facts[j], rows[k]) <==>
        (next.facts[j].active || |prev.facts| <= j) && !RoomBeside(next.facts[j], h)
    {
      assert s.facts[j] == rows[..k][j] == rows[j];
      assert j < |prev.facts| ==> FactStays(prev.facts[j], next.facts[j]);
    }
    if HasRivalFact(s.facts, k, rows[k]) {
      var j :| j in s.facts && j != k && RivalFacts(s.facts[j], rows[k]);
      assert !RoomBeside(next.facts[j], h);
    }
  }

  lemma RecordFits(s: Store, call: Call, prev: Conversation, next: Conversation, k: nat)
    requires FactsStay(prev, next) && |prev.facts| <= k < |next.facts| && FactRefers(next, k)
    requires Holds(s.facts, RecordedRows(prev, next, call.now)[..k])
    requires forall i: nat :: i in s.cases <==> i < |next.cases|
    requires forall i: nat :: i in s.goals <==> i < |next.goals|
    ensures RecordFault(s, call, k, RecordedRows(prev, next, call.now)[k]).None?
      <==> FactFits(prev, next, call.covered, k)
  {
    RivalsAsRecords(s, call.now, prev, next, k);
  }

  /** Fact k is recorded, if it fits. */
  lemma FactDoes(s: Store, call: Call, prev: Conversation, next: Conversation, k: nat)
    requires FactsStay(prev, next) && |prev.facts| <= k < |next.facts| && FactRefers(next, k)
    requires Holds(s.facts, RecordedRows(prev, next, call.now)[..k])
    requires forall i: nat :: i in s.cases <==> i < |next.cases|
    requires forall i: nat :: i in s.goals <==> i < |next.goals|
    ensures var done := PerformAll(s, call, NewFactOps(prev, next, k));
      if FactFits(prev, next, call.covered, k) then
        done == PerformAll(
          s.(facts := s.facts[k := RecordedRows(prev, next, call.now)[k]]), call, NewFactOps(prev, next, k + 1))
      else done.Err?
  {
    FirstThen(s, call, RecordFact(k, RowOf(next.facts[k])), NewFactOps(prev, next, k + 1));
    RecordFits(s, call, prev, next, k);
  }

  lemma FactsFitFrom(prev: Conversation, next: Conversation, covered: Option<set<string>>, k: nat)
    requires |prev.facts| <= k < |next.facts|
    ensures FactsFit(prev, next, covered, k) <==>
        FactFits(prev, next, covered, k) && FactsFit(prev, next, covered, k + 1)
  {
  }

  lemma {:induction false} NewFactsDo(
    s: Store, call: Call, prev: Conversation, next: Conversation, k: nat, done: Result<Store, Fault>)
    requires FactsStay(prev, next) && |prev.facts| <= k <= |next.facts|
    requires Holds(s.facts, RecordedRows(prev, next, call.now)[..k])
    requires forall i | k <= i < |next.facts| :: FactRefers(next, i)
    requires forall i: nat :: i in s.cases <==> i < |next.cases|
    requires forall i: nat :: i in s.goals <==> i < |next.goals|
    requires done == PerformAll(s, call, NewFactOps(prev, next, k))
    ensures done.Ok? <==> FactsFit(prev, next, call.covered, k)
    ensures done.Ok? ==>
        done.value == s.(facts := done.value.facts) && Holds(done.value.facts, RecordedRows(prev, next, call.now))
    decreases |next.facts| - k
  {
    var rows := RecordedRows(prev, next, call.now);
    if k == |next.facts| {
      assert rows[..k] == rows;
    } else {
      FactDoes(s, call, prev, next, k);
      FactsFitFrom(prev, next, call.covered, k);
      if FactFits(prev, next, call.covered, k) {
        HoldsOneMore(s.facts, rows, k);
        NewFactsDo(s.(facts := s.facts[k := rows[k]]), call, prev, next, k + 1, done);
      }
    }
  }

  // ----- all five -----

  function RecordOps(prev: Conversation, next: Conversation, subject: string -> string): seq<Op> {
    CaseOps(prev, next, subject, 0) + GoalOps(prev, next, 0) + StatusOps(prev, next, 0)
    + FactOps(prev, next, 0) + NewFactOps(prev, next, 0)
  }

  ghost predicate ShowsRecords(s: Store, st: Conversation, subject: string -> string) {
    Holds(s.cases, CaseRows(st, subject)) && Holds(s.goals, st.goals) && Holds(s.facts, FactRows(st))
  }

  /** The tables of records after the operations. */
  ghost predicate Recorded(r: Store, now: nat, prev: Conversation, next: Conversation, subject: string -> string)
    requires |prev.facts| <= |next.facts|
  {
    && Holds(r.cases, CaseRows(next, subject))
    && Holds(r.goals, MovedRows(prev, next, now))
    && Holds(r.facts, RecordedRows(prev, next, now))
  }

  /** Records are only added, in this turn, and refer to what there is. */
  ghost predicate RecordsFollow(prev: Conversation, next: Conversation, now: nat) {
    && prev.cases <= next.cases && (forall i | |prev.cases| <= i < |next.cases| :: next.cases[i].openedAt == now)
    && |prev.goals| <= |next.goals| && FactsStay(prev, next) && Referenced(next)
  }

  /** The first two groups of operations, from the tables that show prev. */
  lemma {:induction false} OpeningsDo(
    s: Store, call: Call, prev: Conversation, next: Conversation, subject: string -> string,
    done: Result<Store, Fault>)
    requires ShowsRecords(s, prev, subject) && RecordsFollow(prev, next, call.now)
    requires done == PerformAll(s, call, CaseOps(prev, next, subject, 0) + GoalOps(prev, next, 0))
    ensures done.Ok? <==>
      CasesFit(next, subject, |prev.cases|) && GoalsFit(prev, next, |prev.goals|)
    ensures done.Ok? ==>
      && done.value == s.(cases := done.value.cases, goals := done.value.goals)
      && Holds(done.value.cases, CaseRows(next, subject))
      && Holds(done.value.goals, PushedRows(prev, next, call.now))
  {
    PerformJoin(s, call, CaseOps(prev, next, subject, 0), GoalOps(prev, next, 0));
    OldCases(prev, next, subject, 0);
    OldGoals(prev, next, 0);
    assert CaseRows(next, subject)[..|prev.cases|] == CaseRows(prev, subject);
    var mid := PerformAll(s, call, CaseOps(prev, next, subject, 0));
    CasesDo(s, call, prev, next, subject, |prev.cases|, mid);
    if mid.Ok? {
      assert PushedRows(prev, next, call.now)[..|prev.goals|] == prev.goals;
      GoalsDo(mid.value, call, prev, next, |prev.goals|, done);
    }
  }

  /** The other three. */
  lemma {:induction false} ChangesDo(
    s: Store, call: Call, prev: Conversation, next: Conversation, subject: string -> string,
    done: Result<Store, Fault>)
    requires RecordsFollow(prev, next, call.now) && Guarded(s)
    requires Holds(s.cases, CaseRows(next, subject)) && Holds(s.goals, PushedRows(prev, next, call.now))
    requires Holds(s.facts, FactRows(prev))
    requires done == PerformAll(s, call, StatusOps(prev, next, 0) + FactOps(prev, next, 0) + NewFactOps(prev, next, 0))
    ensures done.Ok? <==>
      && StatusesFit(prev, next, 0) && RatingsFit(prev, next, 0)
      && FactsFit(prev, next, call.covered, |prev.facts|)
    ensures done.Ok? ==>
      && done.value == s.(goals := done.value.goals, facts := done.value.facts)
      && Recorded(done.value, call.now, prev, next, subject)
  {
    PerformJoin(s, call, StatusOps(prev, next, 0), FactOps(prev, next, 0));
    PerformJoin(s, call, StatusOps(prev, next, 0) + FactOps(prev, next, 0), NewFactOps(prev, next, 0));
    OldFacts(prev, next, 0);
    var moved, pushed := MovedRows(prev, next, call.now), PushedRows(prev, next, call.now);
    assert moved[..0] + pushed[0..] == pushed;
    var mid := PerformAll(s, call, StatusOps(prev, next, 0));
    StatusesDo(s, call, prev, next, 0, mid);
    if mid.Ok? {
      assert RevisedRows(prev, next, call.now)[..0] + FactRows(prev)[0..] == FactRows(prev);
      var rated := PerformAll(mid.value, call, FactOps(prev, next, 0));
      FactsDo(mid.value, call, prev, next, 0, rated);
      if rated.Ok? {
        assert RecordedRows(prev, next, call.now)[..|prev.facts|] == RevisedRows(prev, next, call.now);
        NewFactsDo(rated.value, call, prev, next, |prev.facts|, done);
      }
    }
  }

  /** The five groups go through if and only if they meet what a caller can test. */
  lemma {:induction false} RecordsDo(
    s: Store, call: Call, prev: Conversation, next: Conversation, subject: string -> string,
    done: Result<Store, Fault>)
    requires ShowsRecords(s, prev, subject) && RecordsFollow(prev, next, call.now) && Guarded(s)
    requires done == PerformAll(s, call, RecordOps(prev, next, subject))
    ensures done.Ok? <==> Acceptable(prev, next, subject, call.covered)
    ensures done.Ok? ==>
      && done.value == s.(cases := done.value.cases, goals := done.value.goals, facts := done.value.facts)
      && Recorded(done.value, call.now, prev, next, subject)
  {
    var xs := CaseOps(prev, next, subject, 0) + GoalOps(prev, next, 0);
    var ys := StatusOps(prev, next, 0) + FactOps(prev, next, 0) + NewFactOps(prev, next, 0);
    assert RecordOps(prev, next, subject) == xs + ys;
    PerformJoin(s, call, xs, ys);
    var mid := PerformAll(s, call, xs);
    OpeningsDo(s, call, prev, next, subject, mid);
    if mid.Ok? {
      OperationsKeepGuarded(s, call, xs);
      ChangesDo(mid.value, call, prev, next, subject, done);
    }
  }
}
