/**
 The bridge between the reducer and its store: the operations that turn one
 state into the next, and what the store makes of them.
 */
module Persistence {
  import opened Basics
  import opened Catalog
  import opened State

  /** A null value is stored as the empty text. */
  datatype Stored = AsText(text: string) | AsFlag(flag: bool) | AsNumber(number: real)

  function StoredValue(v: Value): Stored {
    match v
    case Text(t) => AsText(t)
    case Flag(b) => AsFlag(b)
    case Number(n) => AsNumber(n)
    case Null => AsText("")
  }

  datatype CaseRow = CaseRow(subjectKind: string, subjectHmac: string, openedAt: nat)

  datatype FactRow = FactRow(
    code: string, caseId: Option<nat>, goalId: Option<nat>, value: Stored, source: Source,
    confidence: Confidence, active: bool, authoritative: bool, recordedAt: nat,
    supersededBy: Option<nat>, supersededAt: Option<nat>, reason: Option<Supersession>,
    conflictsWith: Option<nat>, derivedFrom: seq<nat>)

  datatype QuestionState = PENDING | PARKED | ANSWERED | CANCELLED
  datatype QuestionKey = QuestionKey(goalId: nat, fact: string, askedAt: nat)
  datatype QuestionRow = QuestionRow(question: string, priority: Priority, state: QuestionState, order: Option<nat>)

  datatype ActionKey = ActionKey(goalId: nat, action: string, requestedAt: nat)
  datatype ActionRow = ActionRow(executor: Executor, open: bool)

  /** The tables of one conversation. Rows are never deleted. */
  datatype Store = Store(
    cases: map<nat, CaseRow>,
    goals: map<nat, GoalRecord>,
    facts: map<nat, FactRow>,
    questions: map<QuestionKey, QuestionRow>,
    actions: map<ActionKey, ActionRow>)

  datatype Op =
    | OpenCase(id: nat, subjectKind: string, subjectHmac: string)
    | PushGoal(id: nat, goal: GoalRecord)
    | SetGoalStatus(id: nat, status: GoalStatus, reason: Option<string>)
    | SupersedeFact(id: nat, successor: Option<nat>, why: Option<Supersession>)
    | SetFactConfidence(id: nat, confidence: Confidence, conflictsWith: Option<nat>)
    | RecordFact(id: nat, fact: FactRow)
    | ParkQuestion(key: QuestionKey, order: nat)
    | CloseQuestion(key: QuestionKey, state: QuestionState)
    | RestoreQuestion(key: QuestionKey)
    | SetQuestion(key: QuestionKey, question: string, priority: Priority)
    | CloseAction(actionKey: ActionKey)
    | OpenAction(actionKey: ActionKey, executor: Executor)

  function KeyOfQuestion(q: QuestionRef): QuestionKey {
    QuestionKey(q.goalId, q.fact, q.askedAt)
  }

  function KeyOfAction(a: PendingAction): ActionKey {
    ActionKey(a.goalId, a.action, a.requestedAt)
  }

  function RowOf(f: FactRecord): FactRow {
    FactRow(f.code, f.caseId, f.goalId, StoredValue(f.value), f.source, f.confidence, f.active, f.authoritative,
      f.recordedAt, f.supersededBy, f.supersededAt, f.reason, f.conflictsWith, f.derivedFrom)
  }

  predicate Closing(status: GoalStatus) {
    status in {RESOLVED, ABANDONED}
  }

  // ----- what the store refuses -----

  datatype Fault =
    | DuplicateKey
    | NotFound
    | DanglingReference
    | DuplicateSubject
    | SecondOpenGoal
    | TerminalGoal
    | ClosedOverlayBase
    | SecondActiveFact
    | UnconfirmedAuthority
    | SignalNeeded
    | NotCovered
    | CaseMismatch
    | MissingReason
    | SecondPending
    | SecondOpenAction
    | StateMismatch

  /** The number of the turn, and the fact codes covered if it comes with an authoritative signal. */
  datatype Call = Call(now: nat, covered: Option<set<string>>)

  predicate HasSubject(cases: map<nat, CaseRow>, kind: string, hmac: string) {
    exists i | i in cases :: cases[i].subjectKind == kind && cases[i].subjectHmac == hmac
  }

  /** Two open goals of one code in one case. */
  predicate RivalGoals(g: GoalRecord, h: GoalRecord) {
    !Closing(g.status) && !Closing(h.status) && g.caseId.Some? && g.caseId == h.caseId && g.code == h.code
  }

  predicate HasRivalGoal(goals: map<nat, GoalRecord>, id: nat, g: GoalRecord) {
    exists i | i in goals :: i != id && RivalGoals(goals[i], g)
  }

  /** Two active facts of one code in one case, neither of them disputed. */
  predicate RivalFacts(f: FactRow, h: FactRow) {
    && f.active && f.confidence != CONFLICTING && h.active && h.confidence != CONFLICTING
    && f.caseId.Some? && f.caseId == h.caseId && f.code == h.code
  }

  predicate HasRivalFact(facts: map<nat, FactRow>, id: nat, f: FactRow) {
    exists i | i in facts :: i != id && RivalFacts(facts[i], f)
  }

  /** Authority is confirmed, and comes from outside. */
  predicate Authorised(f: FactRow) {
    f.authoritative ==> f.source in {SYSTEM, DOCUMENT} && f.confidence == CONFIRMED
  }

  predicate NoRepeats(s: seq<nat>) {
    forall i, j | 0 <= i < j < |s| :: s[i] != s[j]
  }

  predicate Refers<T>(id: Option<nat>, table: map<nat, T>) {
    id.Some? ==> id.value in table
  }

  function PushFault(s: Store, id: nat, g: GoalRecord): Option<Fault> {
    if g.overlayOf.Some? && (g.overlayOf.value !in s.goals || Closing(s.goals[g.overlayOf.value].status)) then
      Some(ClosedOverlayBase)
    else if id in s.goals then Some(DuplicateKey)
    else if HasRivalGoal(s.goals, id, g) then Some(SecondOpenGoal)
    else if !Refers(g.caseId, s.cases) || !Refers(g.parent, s.goals) then Some(DanglingReference)
    else None
  }

  /** What is asked of a fact row whenever it is written. */
  function RowFault(s: Store, id: nat, f: FactRow): Option<Fault> {
    if !Authorised(f) then Some(UnconfirmedAuthority)
    else if HasRivalFact(s.facts, id, f) then Some(SecondActiveFact)
    else None
  }

  /** Only a signal that covers its code may bring an authoritative fact. */
  function SignalFault(call: Call, f: FactRow): Option<Fault> {
    if !f.authoritative then None
    else if call.covered.None? then Some(SignalNeeded)
    else if f.code !in call.covered.value then Some(NotCovered)
    else None
  }

  function RecordFault(s: Store, call: Call, id: nat, f: FactRow): Option<Fault> {
    if SignalFault(call, f).Some? then SignalFault(call, f)
    else if f.goalId.Some? && f.caseId.Some?
            && !(f.goalId.value in s.goals && s.goals[f.goalId.value].caseId == f.caseId) then Some(CaseMismatch)
    else if id in s.facts then Some(DuplicateKey)
    else if RowFault(s, id, f).Some? then RowFault(s, id, f)
    else if !Refers(f.caseId, s.cases) || !Refers(f.goalId, s.goals) || (exists x | x in f.derivedFrom :: x !in s.facts)
    then Some(DanglingReference)
    else if !NoRepeats(f.derivedFrom) then Some(DuplicateKey)
    else None
  }

  predicate HasPending(s: Store) {
    exists key | key in s.questions :: s.questions[key].state == PENDING
  }

  predicate HasOpen(s: Store, goalId: nat, action: string) {
    exists key | key in s.actions :: s.actions[key].open && key.goalId == goalId && key.action == action
  }

  // ----- what the store does -----

  /** A row comes in as opened now, whatever it says. */
  function Pushed(g: GoalRecord, now: nat): GoalRecord {
    g.(openedAt := now, closedAt := if Closing(g.status) then Some(now) else None)
  }

  /** A row comes in as active and recorded now, whatever it says. */
  function Fresh(f: FactRow, now: nat): FactRow {
    f.(active := true, recordedAt := now, supersededBy := None, supersededAt := None, reason := None)
  }

  function Retired(f: FactRow, now: nat, successor: Option<nat>, why: Option<Supersession>): FactRow {
    f.(active := false, supersededBy := successor, supersededAt := Some(now), reason := why)
  }

  /** One operation: opening, closing, recording and asking are stamped with the number of the turn. */
  function Perform(s: Store, call: Call, op: Op): Result<Store, Fault> {
    match op
    case OpenCase(id, kind, hmac) =>
      if id in s.cases then Err(DuplicateKey)
      else if HasSubject(s.cases, kind, hmac) then Err(DuplicateSubject)
      else Ok(s.(cases := s.cases[id := CaseRow(kind, hmac, call.now)]))
    case PushGoal(id, g) =>
      var row := Pushed(g, call.now);
      if PushFault(s, id, row).Some? then Err(PushFault(s, id, row).value) else Ok(s.(goals := s.goals[id := row]))
    case SetGoalStatus(id, status, reason) =>
      if id !in s.goals then Err(NotFound)
      else if Closing(s.goals[id].status) && s.goals[id].status != status then Err(TerminalGoal)
      else
        var row := Restated(s.goals[id], status, reason, call.now);
        if HasRivalGoal(s.goals, id, row) then Err(SecondOpenGoal) else Ok(s.(goals := s.goals[id := row]))
    case SupersedeFact(id, successor, why) =>
      if id !in s.facts || !s.facts[id].active then Err(NotFound)
      else if why.None? then Err(MissingReason)
      else Ok(s.(facts := s.facts[id := Retired(s.facts[id], call.now, successor, why)]))
    case SetFactConfidence(id, confidence, conflictsWith) =>
      if id !in s.facts then Err(NotFound)
      else
        var row := s.facts[id].(confidence := confidence, conflictsWith := conflictsWith);
        if RowFault(s, id, row).Some? then Err(RowFault(s, id, row).value) else Ok(s.(facts := s.facts[id := row]))
    case RecordFact(id, f) =>
      var row := Fresh(f, call.now);
      if RecordFault(s, call, id, row).Some? then Err(RecordFault(s, call, id, row).value)
      else Ok(s.(facts := s.facts[id := row]))
    case ParkQuestion(key, order) =>
      if key !in s.questions || s.questions[key].state != PENDING then Err(NotFound)
      else Ok(s.(questions := s.questions[key := s.questions[key].(state := PARKED, order := Some(order))]))
    case CloseQuestion(key, state) =>
      if key !in s.questions || s.questions[key].state !in {PENDING, PARKED} then Err(NotFound)
      else Ok(s.(questions := s.questions[key := s.questions[key].(state := state, order := None)]))
    case RestoreQuestion(key) =>
      if key !in s.questions || s.questions[key].state != PARKED then Err(NotFound)
      else if HasPending(s) then Err(SecondPending)
      else Ok(s.(questions := s.questions[key := s.questions[key].(state := PENDING, order := None)]))
    case SetQuestion(key, question, priority) =>
      var stamped := key.(askedAt := call.now);
      if stamped in s.questions then Err(DuplicateKey)
      else if HasPending(s) then Err(SecondPending)
      else if key.goalId !in s.goals then Err(DanglingReference)
      else Ok(s.(questions := s.questions[stamped := QuestionRow(question, priority, PENDING, None)]))
    case CloseAction(key) =>
      if key !in s.actions || !s.actions[key].open then Err(NotFound)
      else Ok(s.(actions := s.actions[key := s.actions[key].(open := false)]))
    case OpenAction(key, executor) =>
      var stamped := key.(requestedAt := call.now);
      if stamped in s.actions then Err(DuplicateKey)
      else if HasOpen(s, key.goalId, key.action) then Err(SecondOpenAction)
      else if key.goalId !in s.goals then Err(DanglingReference)
      else Ok(s.(actions := s.actions[stamped := ActionRow(executor, true)]))
  }

  function Restated(g: GoalRecord, status: GoalStatus, reason: Option<string>, now: nat): GoalRecord {
    g.(status := status, reason := reason, closedAt := if Closing(status) then Some(now) else None)
  }

  function PerformAll(s: Store, call: Call, ops: seq<Op>): Result<Store, Fault>
    decreases |ops|
  {
    if ops == [] then Ok(s)
    else
      var next :- Perform(s, call, ops[0]);
      PerformAll(next, call, ops[1..])
  }

  lemma {:induction false} PerformJoin(s: Store, call: Call, xs: seq<Op>, ys: seq<Op>)
    ensures PerformAll(s, call, xs + ys)
         == var mid := PerformAll(s, call, xs); if mid.Ok? then PerformAll(mid.value, call, ys) else mid
    decreases |xs|
  {
    if xs == [] {
      assert xs + ys == ys;
    } else {
      assert (xs + ys)[0] == xs[0] && (xs + ys)[1..] == xs[1..] + ys;
      var next := Perform(s, call, xs[0]);
      if next.Ok? {
        PerformJoin(next.value, call, xs[1..], ys);
      }
    }
  }

  // ----- what every store satisfies -----

  ghost predicate OneOpen(goals: map<nat, GoalRecord>) {
    forall i, j | i in goals && j in goals && i != j && goals[i].caseId.Some? && goals[i].caseId == goals[j].caseId ::
      goals[i].code != goals[j].code
      || goals[i].status in {RESOLVED, ABANDONED} || goals[j].status in {RESOLVED, ABANDONED}
  }

  ghost predicate OneActive(facts: map<nat, FactRow>) {
    forall i, j | i in facts && j in facts && i != j && facts[i].active && facts[j].active
        && facts[i].caseId.Some? && facts[i].caseId == facts[j].caseId ::
      facts[i].code != facts[j].code || CONFLICTING in {facts[i].confidence, facts[j].confidence}
  }

  ghost predicate AllAuthorised(facts: map<nat, FactRow>) {
    forall i | i in facts && facts[i].authoritative ::
      facts[i].confidence == CONFIRMED && facts[i].source in {SYSTEM, DOCUMENT}
  }

  /** A superseded row has a time and a reason, an active one has no end. */
  ghost predicate EndsTold(facts: map<nat, FactRow>) {
    forall i | i in facts ::
      if facts[i].active then facts[i].supersededAt.None? && facts[i].supersededBy.None? && facts[i].reason.None?
      else facts[i].supersededAt.Some? && facts[i].reason.Some?
  }

  /** A row that names a goal and a case names the case of the goal. */
  ghost predicate CasesAgree(s: Store) {
    forall i | i in s.facts && s.facts[i].goalId.Some? && s.facts[i].caseId.Some? ::
      var g := s.facts[i].goalId.value;
      g in s.goals && s.goals[g].caseId == s.facts[i].caseId
  }

  /** One open goal of a code in a case, one undisputed active fact of a code in a case, authority confirmed, and
      rows that are told in full. */
  ghost predicate Guarded(s: Store) {
    OneOpen(s.goals) && OneActive(s.facts) && AllAuthorised(s.facts) && EndsTold(s.facts) && CasesAgree(s)
  }

  lemma GoalKeepsTable(goals: map<nat, GoalRecord>, id: nat, g: GoalRecord)
    requires OneOpen(goals) && !HasRivalGoal(goals, id, g)
    ensures OneOpen(goals[id := g])
  {
    forall i | i in goals && i != id
      ensures !RivalGoals(goals[i], g) && !RivalGoals(g, goals[i])
    {
    }
  }

  lemma FactKeepsTable(facts: map<nat, FactRow>, id: nat, f: FactRow)
    requires OneActive(facts) && AllAuthorised(facts) && Authorised(f) && !HasRivalFact(facts, id, f)
    ensures OneActive(facts[id := f]) && AllAuthorised(facts[id := f])
  {
    forall i | i in facts && i != id
      ensures !RivalFacts(facts[i], f) && !RivalFacts(f, facts[i])
    {
    }
  }

  lemma PerformTellsRows(s: Store, call: Call, op: Op)
    requires EndsTold(s.facts) && CasesAgree(s) && Perform(s, call, op).Ok?
    ensures var t := Perform(s, call, op).value; EndsTold(t.facts) && CasesAgree(t)
  {
  }

  /** No operation that is accepted breaks a constraint. */
  lemma PerformKeepsGuarded(s: Store, call: Call, op: Op)
    requires Guarded(s) && Perform(s, call, op).Ok?
    ensures Guarded(Perform(s, call, op).value)
  {
    PerformTellsRows(s, call, op);
    match op
    case PushGoal(id, g) => GoalKeepsTable(s.goals, id, Pushed(g, call.now));
    case SetGoalStatus(id, status, reason) =>
      GoalKeepsTable(s.goals, id, Restated(s.goals[id], status, reason, call.now));
    case SupersedeFact(id, successor, why) =>
      FactKeepsTable(s.facts, id, Retired(s.facts[id], call.now, successor, why));
    case SetFactConfidence(id, confidence, link) =>
      FactKeepsTable(s.facts, id, s.facts[id].(confidence := confidence, conflictsWith := link));
    case RecordFact(id, f) => FactKeepsTable(s.facts, id, Fresh(f, call.now));
    case _ =>
  }

  lemma {:induction false} OperationsKeepGuarded(s: Store, call: Call, ops: seq<Op>)
    requires Guarded(s) && PerformAll(s, call, ops).Ok?
    ensures Guarded(PerformAll(s, call, ops).value)
    decreases |ops|
  {
    if ops != [] {
      PerformKeepsGuarded(s, call, ops[0]);
      OperationsKeepGuarded(Perform(s, call, ops[0]).value, call, ops[1..]);
    }
  }

  // ----- the operations between two states -----

  function CaseOps(prev: Conversation, next: Conversation, subject: string -> string, k: nat): seq<Op>
    requires k <= |next.cases|
    decreases |next.cases| - k
  {
    if k == |next.cases| then []
    else
      (if k < |prev.cases| then [] else [OpenCase(k, next.cases[k].subjectKind, subject(next.cases[k].subjectRef))])
      + CaseOps(prev, next, subject, k + 1)
  }

  function GoalOps(prev: Conversation, next: Conversation, k: nat): seq<Op>
    requires k <= |next.goals|
    decreases |next.goals| - k
  {
    if k == |next.goals| then []
    else (if k < |prev.goals| then [] else [Op.PushGoal(k, next.goals[k])]) + GoalOps(prev, next, k + 1)
  }

  predicate SameStatus(g: GoalRecord, h: GoalRecord) {
    g.status == h.status && g.reason == h.reason
  }

  function StatusOps(prev: Conversation, next: Conversation, k: nat): seq<Op>
    requires k <= |next.goals|
    decreases |next.goals| - k
  {
    if k == |next.goals| then []
    else
      (if k >= |prev.goals| || SameStatus(prev.goals[k], next.goals[k]) then []
       else [SetGoalStatus(k, next.goals[k].status, next.goals[k].reason)])
      + StatusOps(prev, next, k + 1)
  }

  /** The operation on an old fact, if it needs one: its supersession, or else its rating. */
  function FactOp(f: FactRecord, h: FactRecord, k: nat): seq<Op> {
    if f.active && !h.active then [SupersedeFact(k, h.supersededBy, h.reason)]
    else if f.confidence != h.confidence || f.conflictsWith != h.conflictsWith then
      [SetFactConfidence(k, h.confidence, h.conflictsWith)]
    else []
  }

  function FactOps(prev: Conversation, next: Conversation, k: nat): seq<Op>
    requires k <= |next.facts|
    decreases |next.facts| - k
  {
    if k == |next.facts| then []
    else (if k >= |prev.facts| then [] else FactOp(prev.facts[k], next.facts[k], k)) + FactOps(prev, next, k + 1)
  }

  function NewFactOps(prev: Conversation, next: Conversation, k: nat): seq<Op>
    requires k <= |next.facts|
    decreases |next.facts| - k
  {
    if k == |next.facts| then []
    else
      (if k < |prev.facts| then [] else [RecordFact(k, RowOf(next.facts[k]))]) + NewFactOps(prev, next, k + 1)
  }

  /** The position of the first question of a key. */
  function IndexOf(parked: seq<QuestionRef>, key: QuestionKey): (r: Option<nat>)
    ensures r.Some? ==> r.value < |parked| && KeyOfQuestion(parked[r.value]) == key
    ensures r.None? ==> forall q | q in parked :: KeyOfQuestion(q) != key
  {
    if parked == [] then None
    else if KeyOfQuestion(parked[0]) == key then Some(0)
    else
      var rest := IndexOf(parked[1..], key);
      if rest.Some? then Some(rest.value + 1) else None
  }

  predicate Asks(q: Option<QuestionRef>, key: QuestionKey) {
    q.Some? && KeyOfQuestion(q.value) == key
  }

  /** The question that was pending leaves first. */
  function LeaveOps(prev: Conversation, next: Conversation): seq<Op> {
    if prev.pending.None? then []
    else
      var key := KeyOfQuestion(prev.pending.value);
      if Asks(next.pending, key) then []
      else
        var at := IndexOf(next.parked, key);
        if at.Some? then [ParkQuestion(key, at.value + 1)] else [CloseQuestion(key, ANSWERED)]
  }

  function CancelOp(next: Conversation, key: QuestionKey): seq<Op> {
    if IndexOf(next.parked, key).Some? || Asks(next.pending, key) then [] else [CloseQuestion(key, CANCELLED)]
  }

  function CancelOps(prev: Conversation, next: Conversation, k: nat): seq<Op>
    requires k <= |prev.parked|
    decreases |prev.parked| - k
  {
    if k == |prev.parked| then []
    else
      CancelOp(next, KeyOfQuestion(prev.parked[k])) + CancelOps(prev, next, k + 1)
  }

  function EnterOps(prev: Conversation, next: Conversation): seq<Op> {
    if next.pending.None? then []
    else
      var q := next.pending.value;
      var key := KeyOfQuestion(q);
      if Asks(prev.pending, key) then []
      else if IndexOf(prev.parked, key).Some? then [RestoreQuestion(key)]
      else [SetQuestion(key, q.question, q.priority)]
  }

  function QuestionOps(prev: Conversation, next: Conversation): seq<Op> {
    LeaveOps(prev, next) + CancelOps(prev, next, 0) + EnterOps(prev, next)
  }

  predicate HasKey(actions: seq<PendingAction>, key: ActionKey) {
    exists i | 0 <= i < |actions| :: KeyOfAction(actions[i]) == key
  }

  function CloseOps(prev: Conversation, next: Conversation, k: nat): seq<Op>
    requires k <= |prev.actions|
    decreases |prev.actions| - k
  {
    if k == |prev.actions| then []
    else
      var key := KeyOfAction(prev.actions[k]);
      (if HasKey(next.actions, key) then [] else [CloseAction(key)]) + CloseOps(prev, next, k + 1)
  }

  function OpenOps(prev: Conversation, next: Conversation, k: nat): seq<Op>
    requires k <= |next.actions|
    decreases |next.actions| - k
  {
    if k == |next.actions| then []
    else
      var key := KeyOfAction(next.actions[k]);
      (if HasKey(prev.actions, key) then [] else [OpenAction(key, next.actions[k].executor)])
      + OpenOps(prev, next, k + 1)
  }

  /** All operations, in the order the constraints of the store demand. */
  function Diff(prev: Conversation, next: Conversation, subject: string -> string): seq<Op> {
    CaseOps(prev, next, subject, 0)
    + GoalOps(prev, next, 0)
    + StatusOps(prev, next, 0)
    + FactOps(prev, next, 0)
    + NewFactOps(prev, next, 0)
    + QuestionOps(prev, next)
    + CloseOps(prev, next, 0)
    + OpenOps(prev, next, 0)
  }

  lemma Appended(ops: seq<Op>, x: Op, rest: seq<Op>)
    ensures (ops + [x]) + rest == ops + ([x] + rest)
  {
  }

  method DiffCases(prev: Conversation, next: Conversation, subject: string -> string) returns (ops: seq<Op>)
    ensures ops == CaseOps(prev, next, subject, 0)
  {
    ops := [];
    for k := 0 to |next.cases|
      invariant ops + CaseOps(prev, next, subject, k) == CaseOps(prev, next, subject, 0)
    {
      if k < |prev.cases| {
        continue;
      }
      var op := OpenCase(k, next.cases[k].subjectKind, subject(next.cases[k].subjectRef));
      Appended(ops, op, CaseOps(prev, next, subject, k + 1));
      ops := ops + [op];
    }
    assert ops + [] == ops;
  }

  method DiffNewGoals(prev: Conversation, next: Conversation) returns (ops: seq<Op>)
    ensures ops == GoalOps(prev, next, 0)
  {
    ops := [];
    for k := 0 to |next.goals|
      invariant ops + GoalOps(prev, next, k) == GoalOps(prev, next, 0)
    {
      if k < |prev.goals| {
        continue;
      }
      var op := Op.PushGoal(k, next.goals[k]);
      Appended(ops, op, GoalOps(prev, next, k + 1));
      ops := ops + [op];
    }
    assert ops + [] == ops;
  }

  method DiffStatuses(prev: Conversation, next: Conversation) returns (ops: seq<Op>)
    ensures ops == StatusOps(prev, next, 0)
  {
    ops := [];
    for k := 0 to |next.goals|
      invariant ops + StatusOps(prev, next, k) == StatusOps(prev, next, 0)
    {
      if k < |prev.goals| && !SameStatus(prev.goals[k], next.goals[k]) {
        var op := SetGoalStatus(k, next.goals[k].status, next.goals[k].reason);
        Appended(ops, op, StatusOps(prev, next, k + 1));
        ops := ops + [op];
      } else {
        assert StatusOps(prev, next, k) == StatusOps(prev, next, k + 1);
      }
    }
    assert ops + [] == ops;
  }

  method DiffNewFacts(prev: Conversation, next: Conversation) returns (ops: seq<Op>)
    ensures ops == NewFactOps(prev, next, 0)
  {
    ops := [];
    for k := 0 to |next.facts|
      invariant ops + NewFactOps(prev, next, k) == NewFactOps(prev, next, 0)
    {
      if k < |prev.facts| {
        continue;
      }
      var op := RecordFact(k, RowOf(next.facts[k]));
      Appended(ops, op, NewFactOps(prev, next, k + 1));
      ops := ops + [op];
    }
    assert ops + [] == ops;
  }

  method DiffFacts(prev: Conversation, next: Conversation) returns (ops: seq<Op>)
    ensures ops == FactOps(prev, next, 0)
  {
    ops := [];
    for k := 0 to |next.facts|
      invariant ops + FactOps(prev, next, k) == FactOps(prev, next, 0)
    {
      if k >= |prev.facts| {
        continue;
      }
      var f, h := prev.facts[k], next.facts[k];
      if f.active && !h.active {
        Appended(ops, SupersedeFact(k, h.supersededBy, h.reason), FactOps(prev, next, k + 1));
        ops := ops + [SupersedeFact(k, h.supersededBy, h.reason)];
      } else if f.confidence != h.confidence || f.conflictsWith != h.conflictsWith {
        Appended(ops, SetFactConfidence(k, h.confidence, h.conflictsWith), FactOps(prev, next, k + 1));
        ops := ops + [SetFactConfidence(k, h.confidence, h.conflictsWith)];
      }
    }
    assert ops + [] == ops;
  }

  lemma CancelStep(prev: Conversation, next: Conversation, k: nat)
    requires k < |prev.parked|
    ensures var key := KeyOfQuestion(prev.parked[k]);
            CancelOps(prev, next, k) ==
              if IndexOf(next.parked, key).Some? || Asks(next.pending, key) then CancelOps(prev, next, k + 1)
              else [CloseQuestion(key, CANCELLED)] + CancelOps(prev, next, k + 1)
  {
  }

  method DiffCancelled(prev: Conversation, next: Conversation) returns (ops: seq<Op>)
    ensures ops == CancelOps(prev, next, 0)
  {
    ops := [];
    for k := 0 to |prev.parked|
      invariant ops + CancelOps(prev, next, k) == CancelOps(prev, next, 0)
    {
      var key := KeyOfQuestion(prev.parked[k]);
      CancelStep(prev, next, k);
      if IndexOf(next.parked, key).Some? {
        continue;
      }
      if Asks(next.pending, key) {
        continue;
      }
      Appended(ops, CloseQuestion(key, CANCELLED), CancelOps(prev, next, k + 1));
      ops := ops + [CloseQuestion(key, CANCELLED)];
    }
    assert ops + [] == ops;
  }

  /** The current question leaves before another enters: only one is pending. */
  method DiffQuestions(prev: Conversation, next: Conversation) returns (ops: seq<Op>)
    ensures ops == QuestionOps(prev, next)
  {
    ops := [];
    if prev.pending.Some? {
      var key := KeyOfQuestion(prev.pending.value);
      if !Asks(next.pending, key) {
        var at := IndexOf(next.parked, key);
        if at.Some? {
          ops := [ParkQuestion(key, at.value + 1)];
        } else {
          ops := [CloseQuestion(key, ANSWERED)];
        }
      }
    }
    var cancelled := DiffCancelled(prev, next);
    ops := ops + cancelled;
    var entered: seq<Op> := [];
    if next.pending.Some? {
      var q := next.pending.value;
      var key := KeyOfQuestion(q);
      if !Asks(prev.pending, key) {
        if IndexOf(prev.parked, key).Some? {
          entered := [RestoreQuestion(key)];
        } else {
          entered := [SetQuestion(key, q.question, q.priority)];
        }
      }
    }
    ops := ops + entered;
  }

  method DiffClosed(prev: Conversation, next: Conversation) returns (ops: seq<Op>)
    ensures ops == CloseOps(prev, next, 0)
  {
    ops := [];
    for k := 0 to |prev.actions|
      invariant ops + CloseOps(prev, next, k) == CloseOps(prev, next, 0)
    {
      var key := KeyOfAction(prev.actions[k]);
      if HasKey(next.actions, key) {
        continue;
      }
      Appended(ops, CloseAction(key), CloseOps(prev, next, k + 1));
      ops := ops + [CloseAction(key)];
    }
    assert ops + [] == ops;
  }

  method DiffOpened(prev: Conversation, next: Conversation) returns (ops: seq<Op>)
    ensures ops == OpenOps(prev, next, 0)
  {
    ops := [];
    for k := 0 to |next.actions|
      invariant ops + OpenOps(prev, next, k) == OpenOps(prev, next, 0)
    {
      var key := KeyOfAction(next.actions[k]);
      if HasKey(prev.actions, key) {
        continue;
      }
      var op := OpenAction(key, next.actions[k].executor);
      Appended(ops, op, OpenOps(prev, next, k + 1));
      ops := ops + [op];
    }
    assert ops + [] == ops;
  }

  /** The list the program builds. */
  method DiffTransition(prev: Conversation, next: Conversation, subject: string -> string) returns (ops: seq<Op>)
    ensures ops == Diff(prev, next, subject)
  {
    var cases := DiffCases(prev, next, subject);
    var opened_ := DiffNewGoals(prev, next);
    var statuses := DiffStatuses(prev, next);
    var changes := DiffFacts(prev, next);
    var recorded := DiffNewFacts(prev, next);
    var questions := DiffQuestions(prev, next);
    var closed := DiffClosed(prev, next);
    var started := DiffOpened(prev, next);
    ops := cases + opened_ + statuses + changes + recorded + questions + closed + started;
  }
}
