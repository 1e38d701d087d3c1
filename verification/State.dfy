/**
 The conversation state as a value. A record identifier of the program is a
 prefix and the number of records before it; records are only ever appended, so
 the model uses the position itself, and stack_index, which is the same number,
 has no field of its own.
 */
module State {
  import opened Basics
  import opened Catalog

  datatype CaseRecord = CaseRecord(subjectKind: string, subjectRef: string, openedAt: nat)

  datatype GoalRecord = GoalRecord(
    code: string,
    caseId: Option<nat>,
    status: GoalStatus,
    reason: Option<string>,
    parent: Option<nat>,
    overlayOf: Option<nat>,
    informational: bool,
    returnToParent: bool,
    openedAt: nat,
    closedAt: Option<nat>,
    createdBy: Option<string>)

  datatype Supersession =
    USER_CORRECTED | CHANGE_OF_MIND | SYSTEM_REPLACEMENT | DEPENDENCY_INVALIDATED

  /** The status of a fact is ACTIVE or SUPERSEDED: the flag active. */
  datatype FactRecord = FactRecord(
    code: string,
    caseId: Option<nat>,
    goalId: Option<nat>,
    value: Value,
    source: Source,
    confidence: Confidence,
    active: bool,
    recordedAt: nat,
    supersededBy: Option<nat>,
    supersededAt: Option<nat>,
    reason: Option<Supersession>,
    conflictsWith: Option<nat>,
    authoritative: bool,
    derivedFrom: seq<nat>)

  datatype QuestionRef = QuestionRef(
    question: string, fact: string, goalId: nat, priority: Priority, askedAt: nat)

  datatype PendingAction = PendingAction(
    action: string, executor: Executor, goalId: nat, requestedAt: nat)

  /** One action of a code for each goal. */
  ghost predicate UniqueActions(actions: seq<PendingAction>) {
    forall i, j | 0 <= i < j < |actions| ::
      actions[i].action != actions[j].action || actions[i].goalId != actions[j].goalId
  }

  datatype Conversation = Conversation(
    seqNo: nat,
    cases: seq<CaseRecord>,
    goals: seq<GoalRecord>,
    facts: seq<FactRecord>,
    pending: Option<QuestionRef>,
    parked: seq<QuestionRef>,
    actions: seq<PendingAction>,
    forbidden: set<string>)

  const INITIAL := Conversation(0, [], [], [], None, [], [], {})

  /** Why a turn is refused: the program throws and the clone is discarded. */
  datatype Refusal =
    | UnknownFact(code: string)
    | SourceNotAllowed(code: string)
    | ValueOutsideDomain(code: string)
    | SignalNeedsSource(code: string)
    | UnknownGoal(code: string)
    | GoalForbidden(code: string)
    | NoDemand
    | NoSubject
    | NoOpenGoal
    | AmbiguousSignal(code: string)
    | NotInCase(code: string)
    | NoQuestion(code: string)
    | RelationsDiverge
    | GoalsDiverge

  /** The goal a fact is recorded for: its identifier and its case. */
  datatype Owner = Owner(goalId: Option<nat>, caseId: Option<nat>)

  const NOBODY := Owner(None, None)

  datatype Key =
    | ConversationKey(code: string)
    | CaseKey(caseId: Option<nat>, code: string)
    | GoalKey(goalId: Option<nat>, code: string)

  function KeyFor(cat: Catalogue, code: string, o: Owner): Key {
    match FactOf(cat, code).scope
    case CONVERSATION => ConversationKey(code)
    case GOAL => GoalKey(o.goalId, code)
    case CASE => CaseKey(o.caseId, code)
  }

  function KeyOf(cat: Catalogue, f: FactRecord): Key {
    KeyFor(cat, f.code, Owner(f.goalId, f.caseId))
  }

  function OwnerOf(goals: seq<GoalRecord>, gi: nat): Owner
    requires gi < |goals|
  {
    Owner(Some(gi), goals[gi].caseId)
  }

  function CaseOfGoal(goals: seq<GoalRecord>, id: Option<nat>): Option<nat> {
    if id.Some? && id.value < |goals| then goals[id.value].caseId else None
  }

  /** The case a fact lives in: its own, or that of the goal that owns it. */
  function HomeCase(cat: Catalogue, goals: seq<GoalRecord>, f: FactRecord): Option<nat> {
    if FactOf(cat, f.code).scope == GOAL then CaseOfGoal(goals, f.goalId) else f.caseId
  }

  predicate IsLive(cat: Catalogue, f: FactRecord, key: Key) {
    f.active && KeyOf(cat, f) == key
  }

  /** Positions, from k on, of the active facts under a scope key, oldest first. */
  function LiveFrom(cat: Catalogue, facts: seq<FactRecord>, key: Key, k: nat): (r: seq<nat>)
    requires k <= |facts|
    ensures forall x | 0 <= x < |r| :: k <= r[x] < |facts| && IsLive(cat, facts[r[x]], key)
    ensures forall i | k <= i < |facts| && IsLive(cat, facts[i], key) :: i in r
    ensures forall x, y :: 0 <= x < y < |r| ==> r[x] < r[y]
    decreases |facts| - k
  {
    if k == |facts| then []
    else
      var rest := LiveFrom(cat, facts, key, k + 1);
      if IsLive(cat, facts[k], key) then [k] + rest else rest
  }

  function Live(cat: Catalogue, facts: seq<FactRecord>, key: Key): seq<nat> {
    LiveFrom(cat, facts, key, 0)
  }

  predicate TestHolds(t: Test, v: Value) {
    match t
    case Present => true
    case Equals(x) => v == x
    case OneOf(xs) => v in xs
  }

  predicate ConditionHolds(cat: Catalogue, facts: seq<FactRecord>, o: Owner, c: Condition) {
    var live := Live(cat, facts, KeyFor(cat, c.fact, o));
    live != [] && facts[live[0]].confidence == CONFIRMED && TestHolds(c.test, facts[live[0]].value)
  }

  predicate ConditionsHold(cat: Catalogue, facts: seq<FactRecord>, o: Owner, cs: seq<Condition>) {
    forall i | 0 <= i < |cs| :: ConditionHolds(cat, facts, o, cs[i])
  }
}
