/** One turn of the conversation as a function on states: the specification of the engine. */
module Reducer {
  import opened Basics
  import opened Catalog
  import opened State
  import opened Recording
  import opened Goals

  type Outcome = Result<Conversation, Refusal>

  const ROUNDS: nat := 12

  function RecordFact(
    cat: Catalogue, st: Conversation, o: Owner, input: FactInput, mode: Mode, derivedFrom: seq<nat>): (r: Outcome)
    ensures r.Ok? ==> r.value == st.(facts := r.value.facts)
  {
    var facts :- Record(cat, st.goals, st.facts, st.seqNo, o, input, mode, derivedFrom);
    Ok(st.(facts := facts))
  }

  // ----- goals and cases -----

  function FindCase(cases: seq<CaseRecord>, kind: string, ref: string, k: nat): (r: Option<nat>)
    requires k <= |cases|
    ensures r.Some? ==> r.value < |cases| && cases[r.value].subjectRef == ref && cases[r.value].subjectKind == kind
    ensures r.None? ==> forall i | k <= i < |cases| :: cases[i].subjectRef != ref || cases[i].subjectKind != kind
    decreases |cases| - k
  {
    if k == |cases| then None
    else if cases[k].subjectRef == ref && cases[k].subjectKind == kind then Some(k)
    else FindCase(cases, kind, ref, k + 1)
  }

  datatype PushOptions = PushOptions(
    parent: Option<nat>, suspendParent: bool, returnToParent: bool, createdBy: Option<string>,
    overlayOf: Option<nat>, caseRef: Option<string>, reuseCase: Option<nat>)

  const PLAIN := PushOptions(None, false, false, None, None, None, None)

  /** The reference of a case opened without one. */
  function AutomaticRef(goalCode: string, seqNo: nat): string {
    goalCode + ":" + Numeral(seqNo)
  }

  /** The case of a new goal, and the list of cases with it. */
  function CaseFor(cat: Catalogue, st: Conversation, code: string, opts: PushOptions): (Option<nat>, seq<CaseRecord>)
  {
    var def := GoalOf(cat, code);
    if opts.reuseCase.Some? then (opts.reuseCase, st.cases)
    else if def.createsCase then
      var ref := if opts.caseRef.Some? then opts.caseRef.value else AutomaticRef(code, st.seqNo);
      var found := FindCase(st.cases, def.caseSubject, ref, 0);
      if found.Some? then (found, st.cases)
      else (Some(|st.cases|), st.cases + [CaseRecord(def.caseSubject, ref, st.seqNo)])
    else (CaseOfGoal(st.goals, opts.parent), st.cases)
  }

  function Push(cat: Catalogue, st: Conversation, code: string, opts: PushOptions): (r: Outcome)
    ensures r.Ok? ==> |r.value.goals| == |st.goals| + 1
  {
    if code !in cat.goals then Err(UnknownGoal(code))
    else if code in st.forbidden then Err(GoalForbidden(code))
    else
      var (caseId, cases) := CaseFor(cat, st, code, opts);
      var p := opts.parent;
      var goals :=
        if p.Some? && p.value < |st.goals| && opts.suspendParent then
          st.goals[p.value := st.goals[p.value].(status := SUSPENDED, reason := Some("SUBFLOW:" + code))]
        else st.goals;
      var goal := GoalRecord(code, caseId, ACTIVE, None, p, opts.overlayOf,
        cat.goals[code].informational, opts.returnToParent, st.seqNo, None, opts.createdBy);
      Ok(st.(cases := cases, goals := goals + [goal]))
  }

  /** No goal is without a case. */
  predicate AllCased(goals: seq<GoalRecord>) {
    forall i | 0 <= i < |goals| :: goals[i].caseId.Some?
  }

  /** A suspended parent that its child returns to becomes active. */
  function Resume(goals: seq<GoalRecord>, child: nat): (r: seq<GoalRecord>)
    requires child < |goals|
    ensures |r| == |goals|
  {
    var p := goals[child].parent;
    if p.Some? && p.value < |goals| && goals[child].returnToParent && goals[p.value].status == SUSPENDED then
      goals[p.value := goals[p.value].(status := ACTIVE, reason := None)]
    else goals
  }

  // ----- relation effects -----

  datatype Step = Step(st: Conversation, changed: bool)

  /** What relations may do to a state besides its facts: only add. */
  predicate Onward(a: Conversation, b: Conversation) {
    && |a.goals| <= |b.goals| && a.cases <= b.cases && a.actions <= b.actions
    && (AllCased(a.goals) ==> AllCased(b.goals))
    && (|a.goals| == |b.goals| ==> a.cases == b.cases)
    && b == a.(cases := b.cases, goals := b.goals, facts := b.facts, actions := b.actions)
  }

  /** A step that reports no change has made none. */
  predicate Steps(a: Conversation, changed: bool, r: Step) {
    Onward(a, r.st) && (changed ==> r.changed) && (!r.changed ==> r.st == a)
  }

  function FactIds(cat: Catalogue, facts: seq<FactRecord>, o: Owner, codes: seq<string>): seq<nat> {
    if codes == [] then []
    else
      var live := Live(cat, facts, KeyFor(cat, codes[0], o));
      (if live == [] then [] else [live[0]]) + FactIds(cat, facts, o, codes[1..])
  }

  predicate AlreadyHolds(cat: Catalogue, facts: seq<FactRecord>, o: Owner, code: string, value: Value) {
    var live := Live(cat, facts, KeyFor(cat, code, o));
    live != [] && facts[live[0]].value == value
  }

  predicate Recalculable(g: GoalRecord) {
    g.status == ABANDONED && g.reason in {Some("DEPENDENCY_SATISFIED"), Some("DEPENDENCY_REMOVED")}
  }

  predicate AlreadyPushed(goals: seq<GoalRecord>, code: string, relation: string, caseId: Option<nat>) {
    exists i | 0 <= i < |goals| ::
      goals[i].code == code && goals[i].createdBy == Some(relation) && goals[i].caseId == caseId
      && !Recalculable(goals[i])
  }

  predicate HasAction(actions: seq<PendingAction>, action: string, goalId: nat) {
    exists i | 0 <= i < |actions| :: actions[i].action == action && actions[i].goalId == goalId
  }

  predicate Abandons(g: GoalRecord, dependency: string, caseId: Option<nat>) {
    g.code == dependency && g.caseId == caseId && g.status in OPEN
  }

  function AbandonOne(goals: seq<GoalRecord>, k: nat, why: string, now: nat): (r: seq<GoalRecord>)
    requires k < |goals|
    ensures |r| == |goals|
  {
    Resume(goals[k := goals[k].(status := ABANDONED, reason := Some(why), closedAt := Some(now))], k)
  }

  function AbandonFrom(
    goals: seq<GoalRecord>, dependency: string, caseId: Option<nat>, why: string, now: nat, k: nat, changed: bool)
    : (r: (seq<GoalRecord>, bool))
    requires k <= |goals|
    ensures |r.0| == |goals| && (changed ==> r.1) && (!r.1 ==> r.0 == goals)
    ensures AllCased(goals) ==> AllCased(r.0)
    decreases |goals| - k
  {
    if k == |goals| then (goals, changed)
    else if Abandons(goals[k], dependency, caseId) then
      AbandonFrom(AbandonOne(goals, k, why, now), dependency, caseId, why, now, k + 1, true)
    else AbandonFrom(goals, dependency, caseId, why, now, k + 1, changed)
  }

  function ApplyEffect(cat: Catalogue, st: Conversation, gi: nat, e: Effect, relation: string)
    : (r: Result<Step, Refusal>)
    requires gi < |st.goals|
    ensures r.Ok? ==> Steps(st, false, r.value)
  {
    var o := OwnerOf(st.goals, gi);
    match e
    case AssertDerived(code, value, from) =>
      if AlreadyHolds(cat, st.facts, o, code, value) then Ok(Step(st, false))
      else
        var next :- RecordFact(cat, st, o, FactInput(code, value, Some(DERIVED_RULE), None, false), DERIVE,
          FactIds(cat, st.facts, o, from));
        Ok(Step(next, true))
    case RecordSystem(code, value, source, authoritative) =>
      if AlreadyHolds(cat, st.facts, o, code, value) then Ok(Step(st, false))
      else
        var next :- RecordFact(cat, st, o, FactInput(code, value, Some(source), None, authoritative), DERIVE, []);
        Ok(Step(next, true))
    case PushGoal(code, suspendParent, returnToParent) =>
      if code in st.forbidden || AlreadyPushed(st.goals, code, relation, st.goals[gi].caseId) then Ok(Step(st, false))
      else
        var next :- Push(cat, st, code,
          PushOptions(Some(gi), suspendParent, returnToParent, Some(relation), None, None, st.goals[gi].caseId));
        Ok(Step(next, true))
    case SetStatus(status, reason) =>
      var g := st.goals[gi];
      if g.status == status || g.status in {RESOLVED, ABANDONED} then Ok(Step(st, false))
      else
        var why := if reason.Some? then reason else Some(relation);
        Ok(Step(st.(goals := st.goals[gi := g.(status := status, reason := why)]), true))
    case RequireAction(action, executor) =>
      if HasAction(st.actions, action, gi) then Ok(Step(st, false))
      else Ok(Step(st.(actions := st.actions + [PendingAction(action, executor, gi, st.seqNo)]), true))
    case SatisfyDependency(dependency, why) =>
      var (goals, changed) := AbandonFrom(st.goals, dependency, st.goals[gi].caseId, why, st.seqNo, 0, false);
      Ok(Step(st.(goals := goals), changed))
    case NoEffect => Ok(Step(st, false))
  }

  function ApplyEffects(
    cat: Catalogue, st: Conversation, gi: nat, effects: seq<Effect>, relation: string, changed: bool)
    : (r: Result<Step, Refusal>)
    requires gi < |st.goals|
    ensures r.Ok? ==> Steps(st, changed, r.value)
    decreases |effects|
  {
    if effects == [] then Ok(Step(st, changed))
    else
      var step :- ApplyEffect(cat, st, gi, effects[0], relation);
      ApplyEffects(cat, step.st, gi, effects[1..], relation, changed || step.changed)
  }

  // ----- one pass over the relations -----

  function TargetsFrom(goals: seq<GoalRecord>, w: When, k: nat): (r: seq<nat>)
    requires k <= |goals|
    ensures forall x | 0 <= x < |r| :: r[x] < |goals|
    decreases |goals| - k
  {
    if k == |goals| then []
    else
      var rest := TargetsFrom(goals, w, k + 1);
      if goals[k].code == w.goalCode && goals[k].status in w.statuses then [k] + rest else rest
  }

  function ApplyTargets(
    cat: Catalogue, st: Conversation, rel: Relation, w: When, targets: seq<nat>, changed: bool)
    : (r: Result<Step, Refusal>)
    requires forall x | 0 <= x < |targets| :: targets[x] < |st.goals|
    ensures r.Ok? ==> Steps(st, changed, r.value)
    decreases |targets|
  {
    if targets == [] then Ok(Step(st, changed))
    else if ConditionsHold(cat, st.facts, OwnerOf(st.goals, targets[0]), w.conditions) then
      var step :- ApplyEffects(cat, st, targets[0], rel.effects, rel.code, false);
      ApplyTargets(cat, step.st, rel, w, targets[1..], changed || step.changed)
    else ApplyTargets(cat, st, rel, w, targets[1..], changed)
  }

  function RelationsFrom(cat: Catalogue, st: Conversation, k: nat, changed: bool): (r: Result<Step, Refusal>)
    requires k <= |cat.relations|
    ensures r.Ok? ==> Steps(st, changed, r.value)
    decreases |cat.relations| - k
  {
    if k == |cat.relations| then Ok(Step(st, changed))
    else if cat.relations[k].when.None? then RelationsFrom(cat, st, k + 1, changed)
    else
      var w := cat.relations[k].when.value;
      var step :- ApplyTargets(cat, st, cat.relations[k], w, TargetsFrom(st.goals, w, 0), changed);
      RelationsFrom(cat, step.st, k + 1, step.changed)
  }

  function FindRelation(relations: seq<Relation>, code: string): (r: Option<Relation>)
    ensures r.Some? ==> r.value in relations
  {
    if relations == [] then None
    else if relations[0].code == code then Some(relations[0])
    else FindRelation(relations[1..], code)
  }

  predicate Complete(cat: Catalogue, st: Conversation, gi: nat)
    requires gi < |st.goals|
  {
    && MissingFacts(cat, st.facts, st.goals, gi) == []
    && !GoalOf(cat, st.goals[gi].code).explicitHandoff
  }

  function MarkResolved(st: Conversation, gi: nat): Conversation
    requires gi < |st.goals|
  {
    st.(goals := st.goals[gi := st.goals[gi].(status := RESOLVED, closedAt := Some(st.seqNo))])
  }

  /** The relation that created goal gi has its effects on the parent. */
  function Tell(cat: Catalogue, st: Conversation, gi: nat): (r: Outcome)
    requires gi < |st.goals|
    ensures r.Ok? ==> Onward(st, r.value)
  {
    var g := st.goals[gi];
    var relation := if g.createdBy.Some? then FindRelation(cat.relations, g.createdBy.value) else None;
    if relation.Some? && g.parent.Some? && g.parent.value < |st.goals| then
      var told :- ApplyEffects(cat, st, g.parent.value, relation.value.onChildResolved, relation.value.code, false);
      Ok(told.st)
    else Ok(st)
  }

  /** Goal gi is marked resolved, its relation told, its parent resumed. */
  function ResolveOne(cat: Catalogue, st: Conversation, gi: nat): (r: Outcome)
    requires gi < |st.goals|
    ensures r.Ok? ==> Onward(st, r.value)
  {
    var told :- Tell(cat, MarkResolved(st, gi), gi);
    Ok(told.(goals := Resume(told.goals, gi)))
  }

  /** Goal gi is resolved if it is active and complete. */
  function ResolveAt(cat: Catalogue, st: Conversation, gi: nat): (r: Result<Step, Refusal>)
    requires gi < |st.goals|
    ensures r.Ok? ==> Steps(st, false, r.value)
  {
    if st.goals[gi].status == ACTIVE && Complete(cat, st, gi) then
      var next :- ResolveOne(cat, st, gi);
      Ok(Step(next, true))
    else Ok(Step(st, false))
  }

  /** Goals n-1 down to 0, from the top of the stack. */
  function ResolveFrom(cat: Catalogue, st: Conversation, n: nat, changed: bool): (r: Result<Step, Refusal>)
    requires n <= |st.goals|
    ensures r.Ok? ==> Steps(st, changed, r.value)
    decreases n
  {
    if n == 0 then Ok(Step(st, changed))
    else
      var step :- ResolveAt(cat, st, n - 1);
      ResolveFrom(cat, step.st, n - 1, changed || step.changed)
  }

  lemma ResolveFromStep(cat: Catalogue, st: Conversation, n: nat, changed: bool)
    requires 0 < n <= |st.goals|
    ensures var r := ResolveAt(cat, st, n - 1);
      if r.Err? then ResolveFrom(cat, st, n, changed) == Err(r.error)
      else
        && n - 1 <= |r.value.st.goals| && Onward(st, r.value.st)
        && ResolveFrom(cat, st, n, changed) == ResolveFrom(cat, r.value.st, n - 1, changed || r.value.changed)
        && (ResolveFrom(cat, st, n, changed).Ok? ==>
              Onward(r.value.st, ResolveFrom(cat, st, n, changed).value.st))
  {
  }

  /** The first goal a resolution pass looks at, and what is left of the pass. */
  lemma FirstResolution(cat: Catalogue, st: Conversation, n: nat, changed: bool, last: Step) returns (next: Step)
    requires 0 < n <= |st.goals| && ResolveFrom(cat, st, n, changed) == Ok(last)
    ensures ResolveAt(cat, st, n - 1) == Ok(next) && n - 1 <= |next.st.goals|
    ensures ResolveFrom(cat, next.st, n - 1, changed || next.changed) == Ok(last)
  {
    ResolveFromStep(cat, st, n, changed);
    next := ResolveAt(cat, st, n - 1).value;
  }

  function Pass(cat: Catalogue, st: Conversation): (r: Result<Step, Refusal>)
    ensures r.Ok? ==> Steps(st, false, r.value)
  {
    var related :- RelationsFrom(cat, st, 0, false);
    ResolveFrom(cat, related.st, |related.st.goals|, related.changed)
  }

  function Evaluate(cat: Catalogue, st: Conversation, fuel: nat): (r: Outcome)
    ensures r.Ok? ==> Onward(st, r.value)
    decreases fuel
  {
    if fuel == 0 then Err(RelationsDiverge)
    else
      var step :- Pass(cat, st);
      if step.changed then Evaluate(cat, step.st, fuel - 1) else Ok(step.st)
  }

  // ----- authoritative gaps -----

  /** The resolution that keeps goal gi waiting, if its best missing fact has one. */
  function Blocking(cat: Catalogue, facts: seq<FactRecord>, goals: seq<GoalRecord>, gi: nat): Option<Resolution>
    requires gi < |goals|
  {
    var best := Best(MissingFacts(cat, facts, goals, gi));
    if best.Some? && best.value.authoritative && best.value.code in cat.resolutions
    then Some(cat.resolutions[best.value.code]) else None
  }

  predicate StillValid(cat: Catalogue, st: Conversation, q: QuestionRef) {
    && q.goalId < |st.goals|
    && st.goals[q.goalId].status in {ACTIVE, WAITING}
    && exists i | 0 <= i < |Askable(cat, MissingFacts(cat, st.facts, st.goals, q.goalId))| ::
         Askable(cat, MissingFacts(cat, st.facts, st.goals, q.goalId))[i].code == q.fact
  }

  function KeepOnly(actions: seq<PendingAction>, goalId: nat, action: Option<string>): seq<PendingAction> {
    if actions == [] then []
    else
      var rest := KeepOnly(actions[1..], goalId, action);
      if actions[0].goalId != goalId || Some(actions[0].action) == action then [actions[0]] + rest else rest
  }

  /** The actions once goal gi waits for r: its other actions go, that one is there. */
  function Await(actions: seq<PendingAction>, gi: nat, r: Resolution, now: nat): seq<PendingAction> {
    var kept := KeepOnly(actions, gi, Some(r.action));
    if HasAction(kept, r.action, gi) then kept
    else kept + [PendingAction(r.action, r.executor, gi, now)]
  }

  /** The parts that gaps and reopenings do not touch. */
  predicate SameBase(a: Conversation, b: Conversation) {
    && b.seqNo == a.seqNo && b.cases == a.cases && b.facts == a.facts && b.forbidden == a.forbidden
    && a.parked <= b.parked && (AllCased(a.goals) ==> AllCased(b.goals))
  }

  function SyncGoal(cat: Catalogue, st: Conversation, gi: nat): (r: Conversation)
    requires gi < |st.goals|
    ensures |r.goals| == |st.goals| && SameBase(st, r)
  {
    var g := st.goals[gi];
    if g.status !in {ACTIVE, WAITING} then st
    else
      var blocking := Blocking(cat, st.facts, st.goals, gi);
      if blocking.Some? then
        var next := st.(
          goals := st.goals[gi := g.(status := WAITING, reason := Some("AWAITING:" + blocking.value.action))],
          actions := Await(st.actions, gi, blocking.value, st.seqNo));
        if st.pending.Some? && st.pending.value.goalId == gi && !StillValid(cat, next, st.pending.value) then
          next.(parked := st.parked + [st.pending.value], pending := None)
        else next
      else if g.status == WAITING then
        st.(goals := st.goals[gi := g.(status := ACTIVE, reason := None)],
            actions := KeepOnly(st.actions, gi, None))
      else st
  }

  function SyncFrom(cat: Catalogue, st: Conversation, k: nat): (r: Conversation)
    requires k <= |st.goals|
    ensures |r.goals| == |st.goals| && SameBase(st, r)
    decreases |st.goals| - k
  {
    if k == |st.goals| then st else SyncFrom(cat, SyncGoal(cat, st, k), k + 1)
  }

  // ----- settling -----

  predicate Invalidates(cat: Catalogue, st: Conversation, gi: nat, f: FactRecord)
    requires gi < |st.goals|
  {
    && f.supersededAt == Some(st.seqNo)
    && Declares(GoalOf(cat, st.goals[gi].code), f.code)
    && KeyOf(cat, f) == KeyFor(cat, f.code, OwnerOf(st.goals, gi))
  }

  /** A resolved goal lost, in this turn, a fact it declares and now misses. */
  predicate MustReopen(cat: Catalogue, st: Conversation, gi: nat)
    requires gi < |st.goals|
  {
    && st.goals[gi].status == RESOLVED
    && MissingFacts(cat, st.facts, st.goals, gi) != []
    && exists i | 0 <= i < |st.facts| :: Invalidates(cat, st, gi, st.facts[i])
  }

  function ReopenOne(goals: seq<GoalRecord>, gi: nat): (r: seq<GoalRecord>)
    requires gi < |goals|
    ensures |r| == |goals|
  {
    var g := goals[gi];
    var next := goals[gi := g.(status := ACTIVE, reason := Some("DEPENDENCY_INVALIDATED"), closedAt := None)];
    if g.parent.Some? && g.parent.value < |goals| && g.returnToParent && next[g.parent.value].status != ABANDONED then
      next[g.parent.value := next[g.parent.value].(
        status := SUSPENDED, reason := Some("SUBFLOW:" + g.code), closedAt := None)]
    else next
  }

  function ReopenFrom(cat: Catalogue, st: Conversation, k: nat): (r: Conversation)
    requires k <= |st.goals|
    ensures |r.goals| == |st.goals| && SameBase(st, r)
    decreases |st.goals| - k
  {
    if k == |st.goals| then st
    else if MustReopen(cat, st, k) then ReopenFrom(cat, st.(goals := ReopenOne(st.goals, k)), k + 1)
    else ReopenFrom(cat, st, k + 1)
  }

  function Round(cat: Catalogue, st: Conversation, limit: nat): (r: Outcome)
    ensures r.Ok? ==> st.parked <= r.value.parked && r.value.seqNo == st.seqNo
  {
    var next :- Evaluate(cat, st, limit);
    Ok(SyncFrom(cat, next, 0))
  }

  predicate SameCore(a: Conversation, b: Conversation) {
    a.goals == b.goals && a.actions == b.actions && a.facts == b.facts
  }

  function RoundsFrom(cat: Catalogue, st: Conversation, limit: nat, fuel: nat): (r: Outcome)
    ensures r.Ok? ==> st.parked <= r.value.parked && r.value.seqNo == st.seqNo
    decreases fuel
  {
    if fuel == 0 then Err(GoalsDiverge)
    else
      var next :- Round(cat, st, limit);
      if SameCore(st, next) then Ok(next) else RoundsFrom(cat, next, limit, fuel - 1)
  }

  /** The program allows twelve rounds and, within each, twelve passes. */
  function Settle(cat: Catalogue, st: Conversation, limit: nat): Outcome {
    RoundsFrom(cat, ReopenFrom(cat, st, 0), limit, limit)
  }

  // ----- the pending question -----

  function NextQuestion(cat: Catalogue, st: Conversation): Result<Option<QuestionRef>, Refusal> {
    var goal := ContextGoal(st.goals);
    if goal.None? then Ok(None)
    else
      var best := Best(Askable(cat, MissingFacts(cat, st.facts, st.goals, goal.value)));
      if best.None? then Ok(None)
      else if best.value.conflicting then
        Ok(Some(QuestionRef(CONFLICT_QUESTION, best.value.code, goal.value, best.value.priority, st.seqNo)))
      else if best.value.code !in cat.questions then Err(NoQuestion(best.value.code))
      else
        Ok(Some(QuestionRef(cat.questions[best.value.code], best.value.code, goal.value, best.value.priority,
            st.seqNo)))
  }

  /** The pending question leaves the foreground when it no longer belongs there. */
  function Withdraw(cat: Catalogue, st: Conversation): Conversation {
    if st.pending.None? then st
    else
      var q := st.pending.value;
      if ContextGoal(st.goals) == Some(q.goalId) && StillValid(cat, st, q) then st
      else if StillValid(cat, st, q) then st.(parked := st.parked + [q], pending := None)
      else st.(pending := None)
  }

  /** Resume the newest parked question of the context goal that still holds. */
  function ResumeFrom(cat: Catalogue, st: Conversation, n: nat): Outcome
    requires n <= |st.parked|
    decreases n
  {
    if n == 0 then
      var q :- NextQuestion(cat, st);
      Ok(st.(pending := q))
    else
      var q := st.parked[n - 1];
      if ContextGoal(st.goals) != Some(q.goalId) then ResumeFrom(cat, st, n - 1)
      else
        var next := st.(parked := st.parked[..n - 1] + st.parked[n..]);
        if StillValid(cat, st, q) then Ok(next.(pending := Some(q))) else ResumeFrom(cat, next, n - 1)
  }

  function Refresh(cat: Catalogue, st: Conversation): Outcome {
    var cleared := Withdraw(cat, st);
    var candidate :- NextQuestion(cat, cleared);
    if cleared.pending.Some? then
      var pending := cleared.pending.value;
      if candidate.Some? && (candidate.value.goalId != pending.goalId
                             || (candidate.value.question == CONFLICT_QUESTION
                                 && pending.question != CONFLICT_QUESTION))
      then Ok(cleared.(parked := cleared.parked + [pending], pending := candidate))
      else Ok(cleared)
    else ResumeFrom(cat, cleared, |cleared.parked|)
  }

  // ----- events -----

  datatype Event =
    | Answer(facts: seq<FactInput>)
    | Complement(facts: seq<FactInput>)
    | Correction(facts: seq<FactInput>)
    | ChangeOfMind(facts: seq<FactInput>)
    | Uncertain(facts: seq<FactInput>)
    | NewGoal(goalCode: string, caseRef: Option<string>, abandonCurrent: bool, facts: seq<FactInput>)
    | Reclassification(goalCode: string)
    | Complaint(baseGoal: Option<string>, caseRef: Option<string>, baseFacts: seq<FactInput>, facts: seq<FactInput>)
    | ParallelQuestion(goalCode: string, facts: seq<FactInput>)
    | HumanRequest
    | Social(close: bool)

  const COMPLAINT_GOAL := "GOAL_RECLAMACAO"

  /** Facts recorded for one goal. */
  function RecordFor(cat: Catalogue, st: Conversation, gi: nat, inputs: seq<FactInput>): (r: Outcome)
    requires gi < |st.goals|
    ensures r.Ok? ==> r.value == st.(facts := r.value.facts)
    decreases |inputs|
  {
    if inputs == [] then Ok(st)
    else
      var facts :- Record(cat, st.goals, st.facts, st.seqNo, OwnerOf(st.goals, gi), inputs[0], ASSERT, []);
      RecordFor(cat, st.(facts := facts), gi, inputs[1..])
  }

  /** Facts recorded each for the goal that owns it. */
  function RecordOwned(cat: Catalogue, st: Conversation, focus: Option<nat>, inputs: seq<FactInput>, mode: Mode)
    : (r: Outcome)
    requires focus.Some? ==> focus.value < |st.goals|
    ensures r.Ok? ==> r.value == st.(facts := r.value.facts)
    decreases |inputs|
  {
    if inputs == [] then Ok(st)
    else
      var owner := OwnerFor(st.goals, OwnerGoal(cat, st.goals, inputs[0].code, focus));
      var facts :- Record(cat, st.goals, st.facts, st.seqNo, owner, inputs[0], mode, []);
      RecordOwned(cat, st.(facts := facts), focus, inputs[1..], mode)
  }

  function Sourced(inputs: seq<FactInput>, s: Source): seq<FactInput> {
    seq(|inputs|, i requires 0 <= i < |inputs| =>
      if inputs[i].source.Some? then inputs[i] else inputs[i].(source := Some(s)))
  }

  function Hedged(inputs: seq<FactInput>): seq<FactInput> {
    seq(|inputs|, i requires 0 <= i < |inputs| =>
      if inputs[i].confidence.Some? then inputs[i] else inputs[i].(confidence := Some(UNCERTAIN)))
  }

  function AbandonByUser(goals: seq<GoalRecord>, gi: nat, now: nat): (r: seq<GoalRecord>)
    requires gi < |goals|
    ensures |r| == |goals|
  {
    var g := goals[gi];
    var next := goals[gi := g.(status := ABANDONED, reason := Some("USER_ABANDONED"), closedAt := Some(now))];
    if g.parent.Some? && g.parent.value < |goals| && next[g.parent.value].status == SUSPENDED then
      next[g.parent.value := next[g.parent.value].(reason := Some("BLOCKED_BY_ABANDONED_SUBFLOW"))]
    else next
  }

  function OnNewGoal(cat: Catalogue, st: Conversation, goal: Option<nat>, e: Event): Outcome
    requires e.NewGoal? && (goal.Some? ==> goal.value < |st.goals|)
  {
    var left :=
      if e.abandonCurrent && goal.Some? then st.(goals := AbandonByUser(st.goals, goal.value, st.seqNo)) else st;
    var pushed :- Push(cat, left, e.goalCode, PLAIN.(caseRef := e.caseRef));
    RecordFor(cat, pushed, |left.goals|, e.facts)
  }

  function LastDemand(goals: seq<GoalRecord>, n: nat): (r: Option<nat>)
    requires n <= |goals|
    ensures r.Some? ==> r.value < n
  {
    if n == 0 then None
    else if goals[n - 1].status != ABANDONED && goals[n - 1].overlayOf.None? then Some(n - 1)
    else LastDemand(goals, n - 1)
  }

  function Reclassified(cat: Catalogue, g: GoalRecord, code: string): GoalRecord {
    var renamed := g.(code := code, informational := GoalOf(cat, code).informational);
    if g.status in {RESOLVED, WAITING} then renamed.(status := ACTIVE, reason := None, closedAt := None) else renamed
  }

  function OnReclassification(cat: Catalogue, st: Conversation, goal: Option<nat>, code: string): Outcome
    requires goal.Some? ==> goal.value < |st.goals|
  {
    var target := if goal.Some? then goal else LastDemand(st.goals, |st.goals|);
    if target.None? then Err(NoDemand)
    else if code !in cat.goals then Err(UnknownGoal(code))
    else Ok(st.(goals := st.goals[target.value := Reclassified(cat, st.goals[target.value], code)]))
  }

  function LastOverlay(goals: seq<GoalRecord>, base: nat, n: nat): (r: Option<nat>)
    requires n <= |goals|
    ensures r.Some? ==> r.value < n
  {
    if n == 0 then None
    else if goals[n - 1].code == COMPLAINT_GOAL && goals[n - 1].overlayOf == Some(base)
            && goals[n - 1].status != ABANDONED then Some(n - 1)
    else LastOverlay(goals, base, n - 1)
  }

  /** The overlay of a base goal: reused, reopened or pushed; with its position. */
  function Overlay(cat: Catalogue, st: Conversation, base: nat): (r: Result<(Conversation, nat), Refusal>)
    requires base < |st.goals|
    ensures r.Ok? ==> r.value.1 < |r.value.0.goals|
  {
    var found := LastOverlay(st.goals, base, |st.goals|);
    if found.None? then
      var pushed :- Push(cat, st, COMPLAINT_GOAL,
        PushOptions(Some(base), false, false, None, Some(base), None, st.goals[base].caseId));
      Ok((pushed, |st.goals|))
    else if st.goals[found.value].status == RESOLVED then
      Ok((st.(goals := st.goals[found.value :=
        st.goals[found.value].(status := ACTIVE, reason := None, closedAt := None)]), found.value))
    else Ok((st, found.value))
  }

  /** The base of a complaint: the goal in context, or a new one. */
  function ComplaintBase(cat: Catalogue, st: Conversation, goal: Option<nat>, e: Event)
    : (r: Result<(Conversation, nat), Refusal>)
    requires e.Complaint? && (goal.Some? ==> goal.value < |st.goals|)
    ensures r.Ok? ==> r.value.1 < |r.value.0.goals|
  {
    if goal.Some? then Ok((st, goal.value))
    else if e.baseGoal.None? then Err(NoSubject)
    else
      var pushed :- Push(cat, st, e.baseGoal.value, PLAIN.(caseRef := e.caseRef));
      Ok((pushed, |st.goals|))
  }

  function OnComplaint(cat: Catalogue, st: Conversation, goal: Option<nat>, e: Event): Outcome
    requires e.Complaint? && (goal.Some? ==> goal.value < |st.goals|)
  {
    var base :- ComplaintBase(cat, st, goal, e);
    var told :- RecordFor(cat, base.0, base.1, e.baseFacts);
    var overlay :- Overlay(cat, told, base.1);
    RecordFor(cat, overlay.0, overlay.1, e.facts)
  }

  function OnParallelQuestion(cat: Catalogue, st: Conversation, goal: Option<nat>, e: Event): Outcome
    requires e.ParallelQuestion? && (goal.Some? ==> goal.value < |st.goals|)
  {
    var parked := if st.pending.Some? then st.(parked := st.parked + [st.pending.value], pending := None) else st;
    var pushed :- Push(cat, parked, e.goalCode,
      PushOptions(goal, false, false, None, None, None, CaseOfGoal(st.goals, goal)));
    RecordFor(cat, pushed, |st.goals|, e.facts)
  }

  /** The part of an event before settling; the events that do not settle are elsewhere. */
  function Take(cat: Catalogue, st: Conversation, e: Event): Outcome {
    var goal := ContextGoal(st.goals);
    match e
    case Answer(facts) => RecordOwned(cat, st, goal, facts, ASSERT)
    case Complement(facts) => RecordOwned(cat, st, goal, facts, ASSERT)
    case Correction(facts) => RecordOwned(cat, st, goal, Sourced(facts, USER_CORRECTION), SUPERSEDE)
    case ChangeOfMind(facts) => RecordOwned(cat, st, goal, Sourced(facts, USER_EXPLICIT), SUPERSEDE)
    case Uncertain(facts) => RecordOwned(cat, st, goal, Hedged(facts), ASSERT)
    case NewGoal(_, _, _, _) => OnNewGoal(cat, st, goal, e)
    case Reclassification(code) => OnReclassification(cat, st, goal, code)
    case Complaint(_, _, _, _) => OnComplaint(cat, st, goal, e)
    case ParallelQuestion(_, _) => OnParallelQuestion(cat, st, goal, e)
    case HumanRequest => Ok(st)
    case Social(_) => Ok(st)
  }

  /** A settling turn ends with the next question. */
  function Finish(cat: Catalogue, st: Conversation, limit: nat): Outcome {
    var settled :- Settle(cat, st, limit);
    Refresh(cat, settled)
  }

  predicate Settles(e: Event) {
    !e.HumanRequest? && !e.Social?
  }

  /** What is said is taken in, and the conversation settles. */
  function Say(cat: Catalogue, st: Conversation, e: Event, limit: nat): Outcome {
    var taken :- Take(cat, st, e);
    Finish(cat, taken, limit)
  }

  /** The switch over the event, once the turn has its number. */
  function Hear(cat: Catalogue, st: Conversation, e: Event, limit: nat): Outcome {
    match e
    case Social(close) => if close then Ok(st.(pending := None)) else Refresh(cat, st)
    case HumanRequest => Ok(st.(pending := None))
    case _ => Say(cat, st, e, limit)
  }

  function Numbered(st: Conversation): Conversation {
    st.(seqNo := st.seqNo + 1)
  }

  function ApplyEvent(cat: Catalogue, previous: Conversation, e: Event): Outcome {
    Hear(cat, Numbered(previous), e, ROUNDS)
  }

  // ----- authoritative signals -----

  function Candidates(cat: Catalogue, goals: seq<GoalRecord>, code: string, k: nat): (r: seq<nat>)
    requires k <= |goals|
    ensures forall x | 0 <= x < |r| :: r[x] < |goals|
    decreases |goals| - k
  {
    if k == |goals| then []
    else
      var rest := Candidates(cat, goals, code, k + 1);
      if goals[k].status in OPEN && Declares(GoalOf(cat, goals[k].code), code) then [k] + rest else rest
  }

  predicate Ambiguous(cat: Catalogue, goals: seq<GoalRecord>, code: string) {
    var cs := Candidates(cat, goals, code, 0);
    exists x | 0 <= x < |cs| :: KeyFor(cat, code, OwnerOf(goals, cs[x])) != KeyFor(cat, code, OwnerOf(goals, cs[0]))
  }

  function SignalOne(cat: Catalogue, st: Conversation, target: Option<nat>, input: FactInput): (r: Outcome)
    requires target.Some? ==> target.value < |st.goals|
    ensures r.Ok? ==> r.value == st.(facts := r.value.facts)
  {
    if target.None? && Ambiguous(cat, st.goals, input.code) then Err(AmbiguousSignal(input.code))
    else
      var owner := OwnerGoal(cat, st.goals, input.code, target);
      if owner.None? || !Declares(GoalOf(cat, st.goals[owner.value].code), input.code) then Err(NotInCase(input.code))
      else
        RecordFact(cat, st, OwnerOf(st.goals, owner.value),
          input.(source := if input.source.Some? then input.source else Some(SYSTEM), authoritative := true),
          SUPERSEDE, [])
  }

  function SignalFrom(cat: Catalogue, st: Conversation, target: Option<nat>, inputs: seq<FactInput>): (r: Outcome)
    requires target.Some? ==> target.value < |st.goals|
    ensures r.Ok? ==> r.value == st.(facts := r.value.facts)
    decreases |inputs|
  {
    if inputs == [] then Ok(st)
    else
      var next :- SignalOne(cat, st, target, inputs[0]);
      SignalFrom(cat, next, target, inputs[1..])
  }

  function Heed(cat: Catalogue, st: Conversation, goalId: Option<nat>, inputs: seq<FactInput>, limit: nat): Outcome {
    if goalId.Some? && (goalId.value >= |st.goals| || st.goals[goalId.value].status !in OPEN) then Err(NoOpenGoal)
    else
      var told :- SignalFrom(cat, st, goalId, inputs);
      Finish(cat, told, limit)
  }

  function ApplySignal(cat: Catalogue, previous: Conversation, goalId: Option<nat>, inputs: seq<FactInput>): Outcome {
    Heed(cat, Numbered(previous), goalId, inputs, ROUNDS)
  }

  // ----- runs -----

  datatype Turn = Said(event: Event) | Signal(goalId: Option<nat>, inputs: seq<FactInput>)

  function Apply(cat: Catalogue, st: Conversation, t: Turn): Outcome {
    match t
    case Said(e) => ApplyEvent(cat, st, e)
    case Signal(goalId, inputs) => ApplySignal(cat, st, goalId, inputs)
  }

  /** A refused turn leaves the caller with the state it had. */
  function After(cat: Catalogue, st: Conversation, t: Turn): Conversation {
    var r := Apply(cat, st, t);
    if r.Ok? then r.value else st
  }

  function RunFrom(cat: Catalogue, st: Conversation, turns: seq<Turn>): Conversation
    decreases |turns|
  {
    if turns == [] then st
    else After(cat, RunFrom(cat, st, turns[..|turns| - 1]), turns[|turns| - 1])
  }

  function Run(cat: Catalogue, turns: seq<Turn>): Conversation {
    RunFrom(cat, INITIAL, turns)
  }
}
