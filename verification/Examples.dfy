/** Small runs that show the exceptions to happen. */
module Examples {
  import opened Basics
  import opened Catalog
  import opened State
  import opened Cascade
  import opened Recording
  import opened Effects
  import opened Goals
  import opened Reducer
  import opened Runs
  import opened Disputes
  import V = Replay

  // ----- a claim that disputes itself -----

  const X := ['x']

  const CLAIM_DEF := FactDef(
    CONVERSATION, None, ADMINISTRATIVE, [], {}, false, {USER_EXPLICIT, USER_CORRECTION, DOCUMENT}, false, {}, {},
    None, None, false)

  const CLAIMS := Catalogue(map[X := CLAIM_DEF], map[], [], map[], map[], {DOCUMENT})

  /** The user says so, and then a document does. */
  const SAID_SO := FactInput(X, Flag(true), None, None, false)
  const PROVEN := FactInput(X, Flag(true), Some(DOCUMENT), None, true)

  const CLAIM := FactRecord(
    X, None, None, Flag(true), USER_EXPLICIT, CONFIRMED, true, 1, None, None, None, None, false, [])

  lemma ClaimsAreValid()
    ensures Valid(CLAIMS) && Ranked(CLAIMS, map[X := 0])
  {
  }

  /** Without goals and relations a turn ends as it was taken in. */
  lemma NothingToSettle(cat: Catalogue, st: Conversation)
    requires cat.relations == [] && st.goals == [] && st.pending.None? && st.parked == []
    ensures Finish(cat, st, ROUNDS) == Ok(st)
  {
    assert RelationsFrom(cat, st, 0, false) == Ok(Step(st, false));
    assert ResolveFrom(cat, st, 0, false) == Ok(Step(st, false));
    assert Pass(cat, st) == Ok(Step(st, false));
    assert Evaluate(cat, st, ROUNDS) == Ok(st);
    assert SyncFrom(cat, st, 0) == st;
    assert Round(cat, st, ROUNDS) == Ok(st);
    assert RoundsFrom(cat, st, ROUNDS, ROUNDS) == Ok(st);
    assert ReopenFrom(cat, st, 0) == st;
    assert NextQuestion(cat, st) == Ok(None);
    assert Refresh(cat, st) == Ok(st);
  }

  const CLAIM_ENTRY := Entry(X, Flag(true), USER_EXPLICIT, CONFIRMED, false)
  const PROVEN_ENTRY := Entry(X, Flag(true), DOCUMENT, CONFIRMED, true)

  lemma EntriesAre()
    ensures Admitted(CLAIMS, SAID_SO, ASSERT) == Ok(CLAIM_ENTRY)
    ensures Admitted(CLAIMS, PROVEN, ASSERT) == Ok(PROVEN_ENTRY)
    ensures KeyFor(CLAIMS, X, NOBODY) == ConversationKey(X) && !FactOf(CLAIMS, X).repeatable
  {
    assert FactOf(CLAIMS, X) == CLAIM_DEF;
  }

  /** One input, in a state without goals. */
  lemma OneAnswer(cat: Catalogue, st: Conversation, input: FactInput, facts: seq<FactRecord>)
    requires cat.relations == [] && st.goals == [] && st.pending.None? && st.parked == []
    requires Record(cat, [], st.facts, st.seqNo + 1, NOBODY, input, ASSERT, []) == Ok(facts)
    ensures Apply(cat, st, Said(Answer([input]))) == Ok(Numbered(st).(facts := facts))
  {
    OneAnswerTakes(cat, Numbered(st), input, facts);
    NothingToSettle(cat, Numbered(st).(facts := facts));
  }

  lemma OneAnswerTakes(cat: Catalogue, st: Conversation, input: FactInput, facts: seq<FactRecord>)
    requires st.goals == [] && Record(cat, [], st.facts, st.seqNo, NOBODY, input, ASSERT, []) == Ok(facts)
    ensures Take(cat, st, Answer([input])) == Ok(st.(facts := facts))
  {
    var told := st.(facts := facts);
    assert RecordOwned(cat, told, None, [], ASSERT) == Ok(told);
    assert [input][1..] == [];
    assert RecordOwned(cat, st, None, [input], ASSERT) == Ok(told);
  }

  const CLAIMED := INITIAL.(seqNo := 1, facts := [CLAIM])

  lemma FirstClaim()
    ensures Apply(CLAIMS, INITIAL, Said(Answer([SAID_SO]))) == Ok(CLAIMED)
    ensures Run(CLAIMS, [Said(Answer([SAID_SO]))]) == CLAIMED
  {
    EntriesAre();
    assert Live(CLAIMS, [], ConversationKey(X)) == [];
    assert Insert(CLAIMS, [], [], 1, NOBODY, CLAIM_ENTRY, ASSERT, []) == [CLAIM];
    OneAnswer(CLAIMS, INITIAL, SAID_SO, [CLAIM]);
    assert Run(CLAIMS, []) == INITIAL;
    RunStep(CLAIMS, [], Said(Answer([SAID_SO])));
    assert [] + [Said(Answer([SAID_SO]))] == [Said(Answer([SAID_SO]))];
  }

  /** The document supersedes the claim and is at once in conflict with it, though it is no longer active. */
  lemma ProofDisputesClaim()
    ensures var r := Apply(CLAIMS, Run(CLAIMS, [Said(Answer([SAID_SO]))]), Said(Answer([PROVEN])));
      && r.Ok?
      && var b := r.value.facts;
         && |b| == 2
         && !b[0].active && b[0].confidence == CONFLICTING && b[0].conflictsWith == Some(1)
         && b[1].active && b[1].confidence == CONFLICTING && b[1].conflictsWith == Some(0)
  {
    FirstClaim();
    EntriesAre();
    ClaimsAreValid();
    var a := [CLAIM];
    assert IsLive(CLAIMS, CLAIM, ConversationKey(X));
    SoleLive(CLAIMS, a, ConversationKey(X), 0);
    assert FactsRanked(CLAIMS, map[X := 0], a) by {
      assert FactRanked(CLAIMS, map[X := 0], a, 0);
    }
    BothBranchesStayExactly(CLAIMS, map[X := 0], [], a, 2, NOBODY, PROVEN_ENTRY, []);
    var b := Insert(CLAIMS, [], a, 2, NOBODY, PROVEN_ENTRY, ASSERT, []);
    OneAnswer(CLAIMS, INITIAL.(seqNo := 1, facts := a), PROVEN, b);
  }

  // ----- two values of one code in one turn -----

  /** The user takes it back, and then knows nothing. */
  const TAKEN_BACK := FactInput(X, Flag(false), None, None, false)
  const UNKNOWN := FactInput(X, Null, None, None, false)

  predicate AllAdmitted(cat: Catalogue, inputs: seq<FactInput>, mode: Mode) {
    forall i | 0 <= i < |inputs| :: Admitted(cat, inputs[i], mode).Ok?
  }

  lemma {:induction false} ListIsTaken(cat: Catalogue, st: Conversation, inputs: seq<FactInput>, mode: Mode)
    requires st.goals == [] && AllAdmitted(cat, inputs, mode)
    ensures RecordOwned(cat, st, None, inputs, mode).Ok?
    decreases |inputs|
  {
    if inputs != [] {
      assert Admitted(cat, inputs[0], mode).Ok?;
      var owner := OwnerFor(st.goals, OwnerGoal(cat, st.goals, inputs[0].code, None));
      var facts := Record(cat, st.goals, st.facts, st.seqNo, owner, inputs[0], mode, []).value;
      ListIsTaken(cat, st.(facts := facts), inputs[1..], mode);
    }
  }

  /** Without goals and relations a list of inputs that are admitted is never refused. */
  lemma ListTurn(cat: Catalogue, st: Conversation, e: Event, inputs: seq<FactInput>, mode: Mode)
    requires cat.relations == [] && st.goals == [] && st.pending.None? && st.parked == [] && Settles(e)
    requires AllAdmitted(cat, inputs, mode)
    requires Take(cat, Numbered(st), e) == RecordOwned(cat, Numbered(st), None, inputs, mode)
    ensures Apply(cat, st, Said(e)).Ok?
  {
    ListIsTaken(cat, Numbered(st), inputs, mode);
    NothingToSettle(cat, Take(cat, Numbered(st), e).value);
  }

  lemma TwoCorrections()
    ensures Apply(CLAIMS, INITIAL, Said(Correction([SAID_SO, TAKEN_BACK]))).Ok?
  {
    var e, list := Correction([SAID_SO, TAKEN_BACK]), Sourced([SAID_SO, TAKEN_BACK], USER_CORRECTION);
    assert list[0] == SAID_SO.(source := Some(USER_CORRECTION));
    assert list[1] == TAKEN_BACK.(source := Some(USER_CORRECTION));
    ListTurn(CLAIMS, INITIAL, e, list, SUPERSEDE);
  }

  lemma TwoAnswers(st: Conversation)
    requires st.goals == [] && st.pending.None? && st.parked == []
    ensures Apply(CLAIMS, st, Said(Answer([TAKEN_BACK, UNKNOWN]))).Ok?
  {
    ListTurn(CLAIMS, st, Answer([TAKEN_BACK, UNKNOWN]), [TAKEN_BACK, UNKNOWN], ASSERT);
  }

  // ----- a goal that is resolved again in the turn that reopened it -----

  const A := ['a']
  const D := ['d']

  const INPUT_DEF := FactDef(
    CONVERSATION, None, ADMINISTRATIVE, [], {}, false, {USER_EXPLICIT, USER_CORRECTION}, false, {}, {}, None,
    None, false)

  /** Rests on X: whatever happens to X takes it away, and the relation records it anew. */
  const OUTCOME_DEF := FactDef(
    CONVERSATION, None, ADMINISTRATIVE, [], {X}, false, {SYSTEM}, false, {}, {}, None, None, false)

  const DEMAND_DEF := GoalDef(false, [], false, false, [D], [], [])

  const DERIVES := Relation(
    ['r'], Some(When(A, {ACTIVE}, [Condition(X, Present)])), [RecordSystem(D, Flag(true), SYSTEM, false)], [])

  const DERIVING := Catalogue(
    map[X := INPUT_DEF, D := OUTCOME_DEF], map[A := DEMAND_DEF], [DERIVES], map[], map[], {})

  /** What the proofs use of the catalogue. */
  ghost predicate Derives(cat: Catalogue) {
    && FactOf(cat, X) == INPUT_DEF && X in cat.facts && FactOf(cat, D) == OUTCOME_DEF && D in cat.facts
    && GoalOf(cat, A) == DEMAND_DEF && A in cat.goals
    && cat.relations == [DERIVES] && cat.resolutions == map[]
  }

  lemma DerivingIsValid()
    ensures Derives(DERIVING) && Valid(DERIVING) && Ranked(DERIVING, map[X := 0, D := 1])
  {
    assert forall r | r in DERIVING.relations :: r == DERIVES;
  }

  /** A goal of its own, in whatever status. */
  predicate Demands(g: GoalRecord) {
    g.code == A && g.parent.None? && g.createdBy.None? && g.caseId.None? && g.overlayOf.None?
  }

  predicate Plain(st: Conversation) {
    |st.goals| == 1 && Demands(st.goals[0]) && st.pending.None? && st.parked == []
  }

  function Outcome(now: nat): FactRecord {
    FactRecord(D, None, None, Flag(true), SYSTEM, CONFIRMED, true, now, None, None, None, None, false, [])
  }

  /** The state once the outcome is recorded and the goal resolved. */
  function Resolved(st: Conversation): Conversation
    requires |st.goals| == 1
  {
    st.(goals := [st.goals[0].(status := RESOLVED, closedAt := Some(st.seqNo))],
        facts := st.facts + [Outcome(st.seqNo)])
  }

  lemma KeysAre(cat: Catalogue, o: Owner)
    requires Derives(cat)
    ensures KeyFor(cat, X, o) == ConversationKey(X) && KeyFor(cat, D, o) == ConversationKey(D)
  {
  }

  /** Only fact n of X is live, and none of D. */
  predicate AwaitsOutcome(cat: Catalogue, facts: seq<FactRecord>, n: nat) {
    && n < |facts| && IsLive(cat, facts[n], ConversationKey(X)) && facts[n].confidence == CONFIRMED
    && (forall i | 0 <= i < |facts| && IsLive(cat, facts[i], ConversationKey(X)) :: i == n)
    && (forall i | 0 <= i < |facts| :: !IsLive(cat, facts[i], ConversationKey(D)))
  }

  lemma OutcomeIsMissing(cat: Catalogue, facts: seq<FactRecord>, goals: seq<GoalRecord>)
    requires Derives(cat) && |goals| == 1 && Demands(goals[0])
    requires forall i | 0 <= i < |facts| :: !IsLive(cat, facts[i], ConversationKey(D))
    ensures MissingFacts(cat, facts, goals, 0) != []
  {
    var o := OwnerOf(goals, 0);
    KeysAre(cat, o);
    NoneLive(cat, facts, ConversationKey(D));
    assert GapOf(cat, facts, o, DEMAND_DEF, D).Some?;
    assert [D] + [] == [D];
    var gap := GapOf(cat, facts, o, DEMAND_DEF, D).value;
    assert MissingFrom(cat, facts, o, DEMAND_DEF, [D], 1, [gap]) == [gap];
    assert [] + [gap] == [gap];
  }

  lemma NothingIsMissing(cat: Catalogue, facts: seq<FactRecord>, goals: seq<GoalRecord>, q: nat)
    requires Derives(cat) && |goals| == 1 && Demands(goals[0])
    requires q < |facts| && Live(cat, facts, ConversationKey(D)) == [q] && facts[q].confidence == CONFIRMED
    ensures MissingFacts(cat, facts, goals, 0) == []
  {
    var o := OwnerOf(goals, 0);
    KeysAre(cat, o);
    assert GapOf(cat, facts, o, DEMAND_DEF, D).None?;
    assert [D] + [] == [D];
    assert MissingFrom(cat, facts, o, DEMAND_DEF, [D], 1, []) == [];
  }

  lemma OutcomeIsRecorded(cat: Catalogue, st: Conversation, n: nat)
    requires Derives(cat) && Plain(st) && AwaitsOutcome(cat, st.facts, n)
    ensures var o := OwnerOf(st.goals, 0);
      && !AlreadyHolds(cat, st.facts, o, D, Flag(true))
      && Record(cat, st.goals, st.facts, st.seqNo, o, FactInput(D, Flag(true), Some(SYSTEM), None, false), DERIVE, [])
         == Ok(st.facts + [Outcome(st.seqNo)])
  {
    KeysAre(cat, OwnerOf(st.goals, 0));
    NoneLive(cat, st.facts, ConversationKey(D));
  }

  lemma RelationFires(cat: Catalogue, st: Conversation, n: nat)
    requires Derives(cat) && Plain(st) && st.goals[0].status == ACTIVE && AwaitsOutcome(cat, st.facts, n)
    ensures RelationsFrom(cat, st, 0, false) == Ok(Step(st.(facts := st.facts + [Outcome(st.seqNo)]), true))
  {
    var w := DERIVES.when.value;
    var o := OwnerOf(st.goals, 0);
    var told := st.(facts := st.facts + [Outcome(st.seqNo)]);
    KeysAre(cat, o);
    SoleLive(cat, st.facts, ConversationKey(X), n);
    assert TargetsFrom(st.goals, w, 1) == [];
    assert TargetsFrom(st.goals, w, 0) == [0];
    assert ConditionHolds(cat, st.facts, o, w.conditions[0]);
    OutcomeIsRecorded(cat, st, n);
    assert ApplyEffect(cat, st, 0, DERIVES.effects[0], DERIVES.code) == Ok(Step(told, true));
    assert ApplyEffects(cat, told, 0, [], DERIVES.code, true) == Ok(Step(told, true));
    assert DERIVES.effects[1..] == [];
    assert ApplyEffects(cat, st, 0, DERIVES.effects, DERIVES.code, false) == Ok(Step(told, true));
    assert ApplyTargets(cat, told, DERIVES, w, [], true) == Ok(Step(told, true));
    assert [0][1..] == [];
    assert ApplyTargets(cat, st, DERIVES, w, [0], false) == Ok(Step(told, true));
    assert RelationsFrom(cat, told, 1, true) == Ok(Step(told, true));
  }

  lemma RelationRests(cat: Catalogue, st: Conversation)
    requires Derives(cat) && |st.goals| == 1 && st.goals[0].status == RESOLVED
    ensures RelationsFrom(cat, st, 0, false) == Ok(Step(st, false))
  {
    var w := DERIVES.when.value;
    assert TargetsFrom(st.goals, w, 1) == [];
    assert TargetsFrom(st.goals, w, 0) == [];
    assert RelationsFrom(cat, st, 1, false) == Ok(Step(st, false));
  }

  lemma GoalResolves(cat: Catalogue, st: Conversation, q: nat)
    requires Derives(cat) && Plain(st) && st.goals[0].status == ACTIVE
    requires q < |st.facts| && Live(cat, st.facts, ConversationKey(D)) == [q] && st.facts[q].confidence == CONFIRMED
    ensures ResolveFrom(cat, st, 1, true) == Ok(Step(st.(goals :=
              [st.goals[0].(status := RESOLVED, closedAt := Some(st.seqNo))]), true))
  {
    var done := st.(goals := [st.goals[0].(status := RESOLVED, closedAt := Some(st.seqNo))]);
    NothingIsMissing(cat, st.facts, st.goals, q);
    assert Complete(cat, st, 0);
    assert MarkResolved(st, 0).goals == done.goals;
    assert Tell(cat, done, 0) == Ok(done);
    assert Resume(done.goals, 0) == done.goals;
    assert ResolveOne(cat, st, 0) == Ok(done);
    assert ResolveFrom(cat, done, 0, true) == Ok(Step(done, true));
  }

  lemma RestingPass(cat: Catalogue, st: Conversation)
    requires Derives(cat) && |st.goals| == 1 && st.goals[0].status == RESOLVED
    ensures Pass(cat, st) == Ok(Step(st, false)) && Round(cat, st, ROUNDS) == Ok(st)
  {
    RelationRests(cat, st);
    assert ResolveFrom(cat, st, 0, false) == Ok(Step(st, false));
    assert ResolveFrom(cat, st, 1, false) == Ok(Step(st, false));
    assert Evaluate(cat, st, ROUNDS) == Ok(st);
    assert SyncFrom(cat, st, 1) == st;
    assert SyncGoal(cat, st, 0) == st;
    assert SyncFrom(cat, st, 0) == st;
  }

  lemma OutcomeIsLive(cat: Catalogue, st: Conversation, n: nat)
    requires Derives(cat) && AwaitsOutcome(cat, st.facts, n)
    ensures Live(cat, st.facts + [Outcome(st.seqNo)], ConversationKey(D)) == [|st.facts|]
  {
    SoleLive(cat, st.facts + [Outcome(st.seqNo)], ConversationKey(D), |st.facts|);
  }

  /** From an active goal whose outcome is due, settling records the outcome and resolves the goal. */
  lemma DemandIsMet(cat: Catalogue, st: Conversation, n: nat)
    requires Derives(cat) && Plain(st) && st.goals[0].status == ACTIVE && AwaitsOutcome(cat, st.facts, n)
    ensures RoundsFrom(cat, st, ROUNDS, ROUNDS) == Ok(Resolved(st))
  {
    var told := st.(facts := st.facts + [Outcome(st.seqNo)]);
    var done := Resolved(st);
    RelationFires(cat, st, n);
    OutcomeIsLive(cat, st, n);
    GoalResolves(cat, told, |st.facts|);
    assert Pass(cat, st) == Ok(Step(done, true));
    RestingPass(cat, done);
    assert Evaluate(cat, done, ROUNDS - 1) == Ok(done);
    assert Evaluate(cat, st, ROUNDS) == Ok(done);
    assert SyncFrom(cat, done, 1) == done;
    assert SyncFrom(cat, done, 0) == done;
    assert Round(cat, st, ROUNDS) == Ok(done);
    assert RoundsFrom(cat, done, ROUNDS, ROUNDS - 1) == Ok(done);
    assert st.goals[0] != done.goals[0];
  }

  lemma NothingToAsk(cat: Catalogue, st: Conversation)
    requires Plain(st) && st.goals[0].status == RESOLVED
    ensures Refresh(cat, st) == Ok(st) && ContextGoal(st.goals).None?
  {
    assert LastWith(st.goals, ACTIVE, 1).None? && LastWith(st.goals, WAITING, 1).None?;
    assert NextQuestion(cat, st) == Ok(None);
  }

  function Told(v: Value, source: Source, now: nat): FactRecord {
    FactRecord(X, None, None, v, source, CONFIRMED, true, now, None, None, None, None, false, [])
  }

  const FIRST := GoalRecord(A, None, ACTIVE, None, None, None, false, false, 1, None, None)

  /** The demand, with the value it begins with. */
  const BEGIN := Said(NewGoal(A, None, false, [FactInput(X, Flag(true), None, None, false)]))

  lemma BeginTakes(cat: Catalogue)
    requires Derives(cat)
    ensures Take(cat, Numbered(INITIAL), BEGIN.event)
         == Ok(Numbered(INITIAL).(goals := [FIRST], facts := [Told(Flag(true), USER_EXPLICIT, 1)]))
  {
    var begun := Numbered(INITIAL);
    var pushed := begun.(goals := [FIRST]);
    var input := BEGIN.event.facts[0];
    var e := Entry(X, Flag(true), USER_EXPLICIT, CONFIRMED, false);
    KeysAre(cat, OwnerOf(pushed.goals, 0));
    assert ContextGoal(begun.goals).None?;
    assert [] + [FIRST] == [FIRST];
    assert Push(cat, begun, A, PLAIN.(caseRef := None)) == Ok(pushed);
    assert Admitted(cat, input, ASSERT) == Ok(e);
    NoneLive(cat, [], ConversationKey(X));
    assert Insert(cat, pushed.goals, [], 1, OwnerOf(pushed.goals, 0), e, ASSERT, [])
        == [Told(Flag(true), USER_EXPLICIT, 1)];
    var told := pushed.(facts := [Told(Flag(true), USER_EXPLICIT, 1)]);
    assert BEGIN.event.facts[1..] == [];
    assert RecordFor(cat, told, 0, []) == Ok(told);
    assert RecordFor(cat, pushed, 0, BEGIN.event.facts) == Ok(told);
  }

  /** The demand is met as soon as it is made. */
  const BEGUN := Conversation(1, [], [FIRST.(status := RESOLVED, closedAt := Some(1))],
    [Told(Flag(true), USER_EXPLICIT, 1), Outcome(1)], None, [], [], {})

  lemma BeginSettles(cat: Catalogue, told: Conversation)
    requires Derives(cat)
    requires told == Numbered(INITIAL).(goals := [FIRST], facts := [Told(Flag(true), USER_EXPLICIT, 1)])
    ensures Finish(cat, told, ROUNDS) == Ok(BEGUN)
  {
    assert AwaitsOutcome(cat, told.facts, 0);
    DemandIsMet(cat, told, 0);
    assert ReopenFrom(cat, told, 1) == told;
    assert ReopenFrom(cat, told, 0) == told;
    assert told.facts + [Outcome(1)] == BEGUN.facts;
    assert Resolved(told) == BEGUN;
    NothingToAsk(cat, BEGUN);
  }

  lemma BeginEnds(cat: Catalogue)
    requires Derives(cat)
    ensures Apply(cat, INITIAL, BEGIN) == Ok(BEGUN) && Run(cat, [BEGIN]) == BEGUN
  {
    var told := Numbered(INITIAL).(goals := [FIRST], facts := [Told(Flag(true), USER_EXPLICIT, 1)]);
    BeginTakes(cat);
    BeginSettles(cat, told);
    assert Apply(cat, INITIAL, BEGIN) == Ok(BEGUN);
    assert Run(cat, []) == INITIAL;
    RunStep(cat, [], BEGIN);
    assert [] + [BEGIN] == [BEGIN];
  }

  // ----- and corrected -----

  /** Fact p of X and fact q of D, recorded after it, are active, and no other. */
  predicate Standing(facts: seq<FactRecord>, p: nat, q: nat) {
    && p < q < |facts| && facts[p].code == X && facts[q].code == D
    && (forall i | 0 <= i < |facts| :: (facts[i].active <==> i == p || i == q) && facts[i].derivedFrom == [])
  }

  /** The facts once X has another value: the old one is replaced and D invalidated. */
  function Moved(facts: seq<FactRecord>, p: nat, q: nat, v: Value, now: nat): seq<FactRecord>
    requires p < |facts| && q < |facts|
  {
    facts[p := Mark(facts[p], USER_CORRECTED, now, Some(|facts|))][q := Invalidated(facts[q], now)]
    + [Told(v, USER_CORRECTION, now)]
  }

  lemma OutcomeFalls(cat: Catalogue, goals: seq<GoalRecord>, facts: seq<FactRecord>, now: nat, p: nat, q: nat)
    requires Derives(cat) && Standing(facts, p, q)
    ensures var why := Some(|facts|);
      Supersede(cat, goals, facts, now, p, USER_CORRECTED, why)
      == facts[p := Mark(facts[p], USER_CORRECTED, now, why)][q := Invalidated(facts[q], now)]
  {
    var marked := facts[p := Mark(facts[p], USER_CORRECTED, now, Some(|facts|))];
    var r := Sweep(cat, goals, marked, now, p, 0);
    SweepMisses(cat, goals, marked, now, p, 0, |facts| + q);
    assert At(|facts|, |facts| + q) == q;
    assert SameScope(cat, goals, r[p], r[q]);
    assert !r[q].active;
    assert r == marked[q := Invalidated(marked[q], now)];
  }

  lemma CorrectionInserts(
    cat: Catalogue, goals: seq<GoalRecord>, facts: seq<FactRecord>, now: nat, p: nat, q: nat, v: Value)
    requires Derives(cat) && Standing(facts, p, q) && facts[p].value != v
    ensures Insert(cat, goals, facts, now, NOBODY, Entry(X, v, USER_CORRECTION, CONFIRMED, false), SUPERSEDE, [])
         == Moved(facts, p, q, v, now)
  {
    var e := Entry(X, v, USER_CORRECTION, CONFIRMED, false);
    var id := |facts|;
    KeysAre(cat, NOBODY);
    assert IsLive(cat, facts[p], ConversationKey(X));
    SoleLive(cat, facts, ConversationKey(X), p);
    assert WithValue(facts, [], v).None? && WithValue(facts, [p], v).None?;
    OutcomeFalls(cat, goals, facts, now, p, q);
    var after := Supersede(cat, goals, facts, now, p, USER_CORRECTED, Some(id));
    assert SupersedeEach(cat, goals, after, now, [], None, USER_CORRECTED, id) == after;
    assert [p][1..] == [];
    assert SupersedeEach(cat, goals, facts, now, [p], None, USER_CORRECTED, id) == after;
  }

  lemma MovedAwaits(cat: Catalogue, facts: seq<FactRecord>, now: nat, p: nat, q: nat, v: Value)
    requires Derives(cat) && Standing(facts, p, q)
    ensures var b := Moved(facts, p, q, v, now);
      && AwaitsOutcome(cat, b, |facts|)
      && Standing(b + [Outcome(now)], |facts|, |facts| + 1)
      && b[q].supersededAt == Some(now) && b[q].code == D
  {
  }

  function Change(v: Value): Turn {
    Said(Correction([FactInput(X, v, None, None, false)]))
  }

  lemma ChangeTakes(cat: Catalogue, st: Conversation, p: nat, q: nat, v: Value)
    requires Derives(cat) && Plain(st) && st.goals[0].status == RESOLVED
    requires Standing(st.facts, p, q) && st.facts[p].value != v
    ensures Take(cat, st, Change(v).event) == Ok(st.(facts := Moved(st.facts, p, q, v, st.seqNo)))
  {
    var input := FactInput(X, v, Some(USER_CORRECTION), None, false);
    var told := st.(facts := Moved(st.facts, p, q, v, st.seqNo));
    NothingToAsk(cat, st);
    assert Sourced(Change(v).event.facts, USER_CORRECTION) == [input];
    assert OwnerGoal(cat, st.goals, X, None).None?;
    assert Admitted(cat, input, SUPERSEDE) == Ok(Entry(X, v, USER_CORRECTION, CONFIRMED, false));
    CorrectionInserts(cat, st.goals, st.facts, st.seqNo, p, q, v);
    assert RecordOwned(cat, told, None, [], SUPERSEDE) == Ok(told);
    assert [input][1..] == [];
    assert RecordOwned(cat, st, None, [input], SUPERSEDE) == Ok(told);
  }

  /** The goal lost its outcome in this turn: it is open again. */
  function Reopened(st: Conversation): Conversation
    requires |st.goals| == 1
  {
    st.(goals := [st.goals[0].(status := ACTIVE, reason := Some("DEPENDENCY_INVALIDATED"), closedAt := None)])
  }

  lemma GoalReopens(cat: Catalogue, st: Conversation, n: nat, q: nat)
    requires Derives(cat) && Plain(st) && st.goals[0].status == RESOLVED && AwaitsOutcome(cat, st.facts, n)
    requires q < |st.facts| && st.facts[q].supersededAt == Some(st.seqNo) && st.facts[q].code == D
    ensures ReopenFrom(cat, st, 0) == Reopened(st)
  {
    OutcomeIsMissing(cat, st.facts, st.goals);
    KeysAre(cat, OwnerOf(st.goals, 0));
    assert Invalidates(cat, st, 0, st.facts[q]);
    assert MustReopen(cat, st, 0);
    assert ReopenOne(st.goals, 0) == Reopened(st).goals;
    assert ReopenFrom(cat, Reopened(st), 1) == Reopened(st);
  }

  /** The state after a correction of X. */
  function Changed(st: Conversation, p: nat, q: nat, v: Value): Conversation
    requires |st.goals| == 1 && p < |st.facts| && q < |st.facts|
  {
    Resolved(Reopened(Numbered(st).(facts := Moved(st.facts, p, q, v, st.seqNo + 1))))
  }

  lemma ChangeEnds(cat: Catalogue, st: Conversation, p: nat, q: nat, v: Value)
    requires Derives(cat) && Plain(st) && st.goals[0].status == RESOLVED
    requires Standing(st.facts, p, q) && st.facts[p].value != v
    ensures Apply(cat, st, Change(v)) == Ok(Changed(st, p, q, v))
    ensures Plain(Changed(st, p, q, v)) && Standing(Changed(st, p, q, v).facts, |st.facts|, |st.facts| + 1)
  {
    var begun := Numbered(st);
    var told := begun.(facts := Moved(st.facts, p, q, v, begun.seqNo));
    ChangeTakes(cat, begun, p, q, v);
    MovedAwaits(cat, st.facts, begun.seqNo, p, q, v);
    ReopenedIsMet(cat, told, |st.facts|, q);
  }

  lemma ReopenedIsMet(cat: Catalogue, st: Conversation, n: nat, q: nat)
    requires Derives(cat) && Plain(st) && st.goals[0].status == RESOLVED && AwaitsOutcome(cat, st.facts, n)
    requires q < |st.facts| && st.facts[q].supersededAt == Some(st.seqNo) && st.facts[q].code == D
    ensures Finish(cat, st, ROUNDS) == Ok(Resolved(Reopened(st)))
  {
    GoalReopens(cat, st, n, q);
    DemandIsMet(cat, Reopened(st), n);
    NothingToAsk(cat, Resolved(Reopened(st)));
  }

  /** The store can be told everything of the correction but the closing time, once the reason is what it was. */
  lemma ChangeIsTold(st: Conversation, p: nat, q: nat, v: Value)
    requires |st.goals| == 1 && Standing(st.facts, p, q)
    requires st.goals[0].status == RESOLVED && st.goals[0].reason == Some("DEPENDENCY_INVALIDATED")
    ensures var next := Changed(st, p, q, v);
      && (forall i: nat | i < |next.facts| :: V.FactExpressed(st, next, i))
      && next.goals == [st.goals[0].(closedAt := Some(st.seqNo + 1))]
  {
    var next := Changed(st, p, q, v);
    forall i: nat | i < |next.facts|
      ensures V.FactExpressed(st, next, i)
    {
    }
  }

  const NO := Flag(false)
  const YES := Flag(true)

  lemma BegunChanges()
    ensures Apply(DERIVING, BEGUN, Change(NO)) == Ok(Changed(BEGUN, 0, 1, NO))
    ensures Plain(Changed(BEGUN, 0, 1, NO)) && Standing(Changed(BEGUN, 0, 1, NO).facts, 2, 3)
  {
    DerivingIsValid();
    assert Standing(BEGUN.facts, 0, 1);
    ChangeEnds(DERIVING, BEGUN, 0, 1, NO);
  }

  /** The state in which the demand has been corrected once. */
  lemma ChangedOnce() returns (st: Conversation)
    ensures st == Run(DERIVING, [BEGIN, Change(NO)]) && st.seqNo == 2
    ensures st == Changed(BEGUN, 0, 1, NO) && Apply(DERIVING, BEGUN, Change(NO)) == Ok(st)
    ensures Plain(st) && Standing(st.facts, 2, 3) && st.facts[2].value == NO
    ensures st.goals[0].status == RESOLVED && st.goals[0].reason == Some("DEPENDENCY_INVALIDATED")
    ensures st.goals[0].closedAt == Some(2)
  {
    st := Changed(BEGUN, 0, 1, NO);
    BegunChanges();
    ChangedIsReached();
  }

  lemma ChangedIsReached()
    ensures Run(DERIVING, [BEGIN, Change(NO)]) == Changed(BEGUN, 0, 1, NO)
  {
    BegunChanges();
    assert Run(DERIVING, [BEGIN]) == BEGUN by {
      DerivingIsValid();
      BeginEnds(DERIVING);
    }
    RunStep(DERIVING, [BEGIN], Change(NO));
    assert [BEGIN] + [Change(NO)] == [BEGIN, Change(NO)];
  }

  /**
   * The second correction of a resolved demand: the goal is reopened and resolved with the status
   * and the reason it had, its facts are all as the operations can say, and its new closing time is not.
   */
  lemma ResolvedAgain() returns (
      cat: Catalogue, rank: map<string, nat>, turns: seq<Turn>, t: Turn, st: Conversation, next: Conversation)
    ensures Valid(cat) && Ranked(cat, rank) && st == Run(cat, turns) && Apply(cat, st, t) == Ok(next)
    ensures st == Changed(BEGUN, 0, 1, NO)
    ensures |st.goals| == 1 && st.goals[0].status == RESOLVED && st.goals[0].closedAt == Some(2)
    ensures next.goals == [st.goals[0].(closedAt := Some(3))] && next.seqNo == 3
    ensures forall i: nat | i < |next.facts| :: V.FactExpressed(st, next, i)
  {
    DerivingIsValid();
    cat, rank, turns, t := DERIVING, map[X := 0, D := 1], [BEGIN, Change(NO)], Change(YES);
    st := ChangedOnce();
    ChangeEnds(DERIVING, st, 2, 3, YES);
    next := Changed(st, 2, 3, YES);
    ChangeIsTold(st, 2, 3, YES);
  }

  // ----- a goal that a relation abandons without closing it -----

  const DROPS := Relation(['r'], Some(When(A, {ACTIVE}, [])), [SetStatus(ABANDONED, None)], [])

  const DROPPING := Catalogue(map[], map[A := DEMAND_DEF], [DROPS], map[], map[], {})

  const OPENED := Numbered(INITIAL).(goals := [FIRST])
  const DROPPED := OPENED.(goals := [FIRST.(status := ABANDONED, reason := Some(['r']))])

  lemma DroppingIsValid()
    ensures Valid(DROPPING) && Ranked(DROPPING, map[])
    ensures DROPPING.relations == [DROPS] && A in DROPPING.goals && GoalOf(DROPPING, A) == DEMAND_DEF
  {
    assert forall r | r in DROPPING.relations :: r == DROPS;
  }

  lemma RelationDrops(cat: Catalogue)
    requires cat.relations == [DROPS]
    ensures RelationsFrom(cat, OPENED, 0, false) == Ok(Step(DROPPED, true))
    ensures RelationsFrom(cat, DROPPED, 0, false) == Ok(Step(DROPPED, false))
  {
    var w := DROPS.when.value;
    assert TargetsFrom(OPENED.goals, w, 1) == [] && TargetsFrom(OPENED.goals, w, 0) == [0];
    assert TargetsFrom(DROPPED.goals, w, 1) == [] && TargetsFrom(DROPPED.goals, w, 0) == [];
    assert ApplyEffect(cat, OPENED, 0, DROPS.effects[0], DROPS.code).value.st.goals == DROPPED.goals;
    assert DROPS.effects[1..] == [];
    assert ApplyEffects(cat, DROPPED, 0, [], DROPS.code, true) == Ok(Step(DROPPED, true));
    assert ApplyEffects(cat, OPENED, 0, DROPS.effects, DROPS.code, false) == Ok(Step(DROPPED, true));
    assert [0][1..] == [];
    assert ApplyTargets(cat, DROPPED, DROPS, w, [], true) == Ok(Step(DROPPED, true));
    assert ApplyTargets(cat, OPENED, DROPS, w, [0], false) == Ok(Step(DROPPED, true));
    assert RelationsFrom(cat, DROPPED, 1, true) == Ok(Step(DROPPED, true));
    assert RelationsFrom(cat, DROPPED, 1, false) == Ok(Step(DROPPED, false));
  }

  lemma DroppedRests(cat: Catalogue)
    requires cat.relations == [DROPS]
    ensures Settle(cat, OPENED, ROUNDS) == Ok(DROPPED) && Refresh(cat, DROPPED) == Ok(DROPPED)
  {
    RelationDrops(cat);
    assert ResolveFrom(cat, DROPPED, 0, true) == Ok(Step(DROPPED, true));
    assert ResolveFrom(cat, DROPPED, 0, false) == Ok(Step(DROPPED, false));
    assert Pass(cat, OPENED) == Ok(Step(DROPPED, true)) && Pass(cat, DROPPED) == Ok(Step(DROPPED, false));
    assert Evaluate(cat, DROPPED, ROUNDS) == Ok(DROPPED) && Evaluate(cat, DROPPED, ROUNDS - 1) == Ok(DROPPED);
    assert Evaluate(cat, OPENED, ROUNDS) == Ok(DROPPED);
    assert SyncFrom(cat, DROPPED, 1) == DROPPED && SyncFrom(cat, DROPPED, 0) == DROPPED;
    assert RoundsFrom(cat, DROPPED, ROUNDS, ROUNDS - 1) == Ok(DROPPED);
    assert OPENED.goals[0] != DROPPED.goals[0];
    assert ReopenFrom(cat, OPENED, 1) == OPENED && ReopenFrom(cat, OPENED, 0) == OPENED;
    assert ContextGoal(DROPPED.goals).None?;
    assert NextQuestion(cat, DROPPED) == Ok(None);
  }

  const OPENS := Said(NewGoal(A, None, false, []))

  lemma OpensTakes(cat: Catalogue)
    requires cat.relations == [DROPS] && A in cat.goals && cat.goals[A] == DEMAND_DEF
    ensures Apply(cat, INITIAL, OPENS) == Ok(DROPPED)
  {
    var begun := Numbered(INITIAL);
    assert ContextGoal(begun.goals).None?;
    assert [] + [FIRST] == [FIRST];
    assert Push(cat, begun, A, PLAIN.(caseRef := None)) == Ok(OPENED);
    assert RecordFor(cat, OPENED, 0, []) == Ok(OPENED);
    assert Take(cat, begun, OPENS.event) == Ok(OPENED);
    DroppedRests(cat);
    assert Finish(cat, OPENED, ROUNDS) == Ok(DROPPED);
  }

  /** The goal ends abandoned, and without a closing time. */
  lemma AbandonedUnclosed() returns (
      cat: Catalogue, rank: map<string, nat>, turns: seq<Turn>, t: Turn, st: Conversation, next: Conversation)
    ensures Valid(cat) && Ranked(cat, rank) && st == Run(cat, turns) && Apply(cat, st, t) == Ok(next)
    ensures st == INITIAL && next.seqNo == 1
    ensures |next.goals| == 1 && next.goals[0].status == ABANDONED && next.goals[0].closedAt.None?
  {
    DroppingIsValid();
    OpensTakes(DROPPING);
    cat, rank, turns, t, st, next := DROPPING, map[], [], OPENS, INITIAL, DROPPED;
  }
}
