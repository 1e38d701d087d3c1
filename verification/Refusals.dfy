/** Runs that end in a turn the tables do not admit, although the operations can express it. */
module Refusals {
  import opened Basics
  import opened Catalog
  import opened State
  import opened Recording
  import opened Effects
  import opened Insertion
  import opened Goals
  import opened Reducer
  import opened Runs
  import opened Disputes
  import opened Examples
  import opened StoreGaps
  import P = Persistence
  import T = Tables
  import V = Replay

  /** A turn from a state that some store shows, whose operations could express what it did, and that no store
      commits. */
  ghost predicate RefusedThough(
    cat: Catalogue, rank: map<string, nat>, turns: seq<Turn>, t: Turn, st: Conversation, next: Conversation,
    subject: string -> string)
  {
    && Valid(cat) && Ranked(cat, rank) && st == Run(cat, turns) && Apply(cat, st, t) == Ok(next)
    && Stands(st, subject) && V.Expressible(st, next, next.seqNo) && Refused(st, next, subject)
  }

  // ----- a proof that is contradicted -----

  const PROOF := FactRecord(
    X, None, None, Flag(true), DOCUMENT, CONFIRMED, true, 1, None, None, None, None, true, [])

  const PROVE := Said(Answer([PROVEN]))
  const DENY := Said(Answer([TAKEN_BACK]))

  const DENIAL_ENTRY := Entry(X, Flag(false), USER_EXPLICIT, CONFIRMED, false)

  const PROVED := INITIAL.(seqNo := 1, facts := [PROOF])

  lemma ProofIsTaken()
    ensures Apply(CLAIMS, INITIAL, PROVE) == Ok(PROVED)
  {
    EntriesAre();
    assert Live(CLAIMS, [], ConversationKey(X)) == [];
    assert Insert(CLAIMS, [], [], 1, NOBODY, PROVEN_ENTRY, ASSERT, []) == [PROOF];
    OneAnswer(CLAIMS, INITIAL, PROVEN, [PROOF]);
  }

  lemma FirstProof()
    ensures Run(CLAIMS, [PROVE]) == PROVED
  {
    ProofIsTaken();
    assert Run(CLAIMS, []) == INITIAL;
    RunStep(CLAIMS, [], PROVE);
    assert [] + [PROVE] == [PROVE];
  }

  /** The document's fact stays active, authoritative and disputed. */
  lemma DenialDisputes() returns (b: seq<FactRecord>)
    ensures b == Insert(CLAIMS, [], [PROOF], 2, NOBODY, DENIAL_ENTRY, ASSERT, [])
    ensures |b| == 2 && b[0].active && b[0].authoritative && b[0].confidence == CONFLICTING && b[1].active
  {
    EntriesAre();
    ClaimsAreValid();
    var a := [PROOF];
    assert IsLive(CLAIMS, PROOF, ConversationKey(X));
    SoleLive(CLAIMS, a, ConversationKey(X), 0);
    assert FactsRanked(CLAIMS, map[X := 0], a) by {
      assert FactRanked(CLAIMS, map[X := 0], a, 0);
    }
    BothBranchesStayExactly(CLAIMS, map[X := 0], [], a, 2, NOBODY, DENIAL_ENTRY, []);
    b := Insert(CLAIMS, [], a, 2, NOBODY, DENIAL_ENTRY, ASSERT, []);
    InsertFates(CLAIMS, map[X := 0], [], a, 2, NOBODY, DENIAL_ENTRY, ASSERT, []);
    FatesAreHistory(CLAIMS, map[X := 0], a, b, 2, NOBODY, DENIAL_ENTRY);
    assert Evolved(a[0], b[0]);
  }

  /** An answer that contradicts what a document proved: the table does not let authority be disputed. */
  lemma ContradictedProofIsRefused(subject: string -> string) returns (
      cat: Catalogue, rank: map<string, nat>, turns: seq<Turn>, t: Turn, st: Conversation, next: Conversation)
    ensures RefusedThough(cat, rank, turns, t, st, next, subject)
    ensures |next.facts| == 2 && next.facts[0].authoritative && next.facts[0].confidence == CONFLICTING
  {
    cat, rank, turns, t := CLAIMS, map[X := 0], [PROVE], DENY;
    ClaimsAreValid();
    FirstProof();
    st := PROVED;
    next := DenialIsTaken();
    DenialIsRefused(next, subject);
    DenialIsExpressed(next);
    ProofStands(subject);
  }

  lemma DenialIsRefused(next: Conversation, subject: string -> string)
    requires Apply(CLAIMS, PROVED, DENY) == Ok(next)
    requires |next.facts| == 2 && next.facts[0].authoritative && next.facts[0].confidence == CONFLICTING
    ensures Refused(PROVED, next, subject)
  {
    assert !T.Backed(next.facts[0]);
    assert V.Continues(PROVED, next, next.seqNo) by {
      ClaimsAreValid();
      FirstProof();
      RunContinues(CLAIMS, map[X := 0], [PROVE], DENY, PROVED, next);
    }
    DisorderlyIsRefused(PROVED, next, subject);
  }

  lemma DenialIsExpressed(next: Conversation)
    requires next == Numbered(PROVED).(facts := next.facts)
    requires |next.facts| == 2 && next.facts[0].active && next.facts[1].active
    ensures V.Expressible(PROVED, next, next.seqNo)
  {
  }

  lemma DenialIsTaken() returns (next: Conversation)
    ensures Apply(CLAIMS, PROVED, DENY) == Ok(next) && next == Numbered(PROVED).(facts := next.facts)
    ensures |next.facts| == 2 && next.facts[0].active && next.facts[1].active
    ensures next.facts[0].authoritative && next.facts[0].confidence == CONFLICTING
  {
    var b := DenialDisputes();
    assert Admitted(CLAIMS, TAKEN_BACK, ASSERT) == Ok(DENIAL_ENTRY);
    OneAnswer(CLAIMS, PROVED, TAKEN_BACK, b);
    next := Numbered(PROVED).(facts := b);
  }

  lemma ProofFits(subject: string -> string)
    ensures T.Acceptable(INITIAL, PROVED, subject, Some({X})) && V.Expressible(INITIAL, PROVED, 1)
  {
  }

  /** The proof itself is stored, when it comes with a signal. */
  lemma ProofStands(subject: string -> string)
    ensures Stands(PROVED, subject)
  {
    ClaimsAreValid();
    ProofIsTaken();
    InitialStands(subject);
    ProofFits(subject);
    NextStands(CLAIMS, map[X := 0], [], PROVE, INITIAL, PROVED, Some({X}), subject);
  }

  // ----- a second value of a repeatable fact of a case -----

  const G := ['g']
  const B := ['b']

  /** As many descriptions as the citizen gives, each for the case it is about. */
  const TEXT_DEF := FactDef(
    CASE, None, ADMINISTRATIVE, [], {}, false, {USER_EXPLICIT, SYSTEM}, false, {}, {}, None, None, true)

  /** A goal with a case of its own and one that is met at once; complaints stay for a person. */
  const GRAVE_DEF := GoalDef(true, ['k'], false, true, [], [], [X])
  const BRIEF_DEF := GoalDef(false, [], false, false, [], [], [])
  const COMPLAINT_DEF := GoalDef(false, [], false, true, [], [], [])

  const TEXTS := Catalogue(
    map[X := TEXT_DEF], map[G := GRAVE_DEF, B := BRIEF_DEF, COMPLAINT_GOAL := COMPLAINT_DEF], [], map[], map[],
    {SYSTEM})

  lemma TextsAreValid()
    ensures Valid(TEXTS) && Ranked(TEXTS, map[X := 0])
  {
  }

  lemma GoalsAre()
    ensures G != B && G != COMPLAINT_GOAL && B != COMPLAINT_GOAL
    ensures GoalOf(TEXTS, G) == GRAVE_DEF && GoalOf(TEXTS, B) == BRIEF_DEF
    ensures GoalOf(TEXTS, COMPLAINT_GOAL) == COMPLAINT_DEF
  {
    assert |G| == 1 && |COMPLAINT_GOAL| == 15;
  }

  lemma NothingMissing(st: Conversation, gi: nat)
    requires gi < |st.goals| && st.goals[gi].code in {G, B, COMPLAINT_GOAL}
    ensures MissingFacts(TEXTS, st.facts, st.goals, gi) == []
    ensures Complete(TEXTS, st, gi) <==> st.goals[gi].code == B
  {
    GoalsAre();
    var def := GoalOf(TEXTS, st.goals[gi].code);
    assert def.required + def.completion == [];
    assert MissingFrom(TEXTS, st.facts, OwnerOf(st.goals, gi), def, [], 0, []) == [];
  }

  /** Open goals that wait for a person, and met ones that are closed. */
  predicate Calm(st: Conversation) {
    && st.pending.None? && st.parked == []
    && forall i | 0 <= i < |st.goals| ::
         || (st.goals[i].code in {G, COMPLAINT_GOAL} && st.goals[i].status == ACTIVE)
         || (st.goals[i].code == B && st.goals[i].status == RESOLVED)
  }

  lemma {:induction false} NothingResolves(st: Conversation, n: nat, changed: bool)
    requires Calm(st) && n <= |st.goals|
    ensures ResolveFrom(TEXTS, st, n, changed) == Ok(Step(st, changed))
    decreases n
  {
    if n > 0 {
      GoalsAre();
      NothingMissing(st, n - 1);
      NothingResolves(st, n - 1, changed);
    }
  }

  lemma {:induction false} NothingMoves(st: Conversation, k: nat)
    requires Calm(st) && k <= |st.goals|
    ensures SyncFrom(TEXTS, st, k) == st && ReopenFrom(TEXTS, st, k) == st
    decreases |st.goals| - k
  {
    if k < |st.goals| {
      NothingMissing(st, k);
      NothingMoves(st, k + 1);
    }
  }

  lemma {:induction false} CalmRests(st: Conversation)
    requires Calm(st)
    ensures Evaluate(TEXTS, st, ROUNDS - 1) == Ok(st) && Round(TEXTS, st, ROUNDS) == Ok(st)
  {
    NothingResolves(st, |st.goals|, false);
    NothingMoves(st, 0);
    assert RelationsFrom(TEXTS, st, 0, false) == Ok(Step(st, false));
    assert Pass(TEXTS, st) == Ok(Step(st, false));
    assert Evaluate(TEXTS, st, ROUNDS) == Ok(st);
  }

  lemma {:induction false} NothingToAsk(st: Conversation)
    requires Calm(st)
    ensures Refresh(TEXTS, st) == Ok(st)
  {
    if ContextGoal(st.goals).Some? {
      NothingMissing(st, ContextGoal(st.goals).value);
    }
    assert NextQuestion(TEXTS, st) == Ok(None);
  }

  lemma CalmEnds(st: Conversation)
    requires Calm(st)
    ensures Finish(TEXTS, st, ROUNDS) == Ok(st)
  {
    CalmRests(st);
    NothingMoves(st, 0);
    assert RoundsFrom(TEXTS, st, ROUNDS, ROUNDS) == Ok(st);
    NothingToAsk(st);
  }

  const GRAVE := GoalRecord(G, Some(0), ACTIVE, None, None, None, false, false, 1, None, None)
  const OPENED := CaseRecord(['k'], ['s'], 1)

  function TextFact(text: string, now: nat): FactRecord {
    FactRecord(X, Some(0), None, Text(text), USER_EXPLICIT, CONFIRMED, true, now, None, None, None, None, false, [])
  }

  function TextInput(text: string): FactInput {
    FactInput(X, Text(text), None, None, false)
  }

  const OPEN_GRAVE := Said(NewGoal(G, Some(['s']), false, [TextInput(['a'])]))
  const SAY_MORE := Said(Complement([TextInput(['b'])]))

  const ONE := Conversation(1, [OPENED], [GRAVE], [TextFact(['a'], 1)], None, [], [], {})

  /** One more text for the case is one more fact. */
  lemma TextIsAdded(facts: seq<FactRecord>, now: nat, text: string)
    requires forall i | 0 <= i < |facts| :: facts[i].value != Text(text)
    ensures Record(TEXTS, [GRAVE], facts, now, OwnerOf([GRAVE], 0), TextInput(text), ASSERT, [])
         == Ok(facts + [TextFact(text, now)])
  {
    var o := OwnerOf([GRAVE], 0);
    var e := Entry(X, Text(text), USER_EXPLICIT, CONFIRMED, false);
    assert FactOf(TEXTS, X) == TEXT_DEF;
    assert Admitted(TEXTS, TextInput(text), ASSERT) == Ok(e);
    assert NewFact(TEXTS, o, e, now, []) == TextFact(text, now);
    var live := Live(TEXTS, facts, KeyFor(TEXTS, X, o));
    assert WithValue(facts, live, Text(text)).None?;
  }

  lemma GraveIsOpened()
    ensures Apply(TEXTS, INITIAL, OPEN_GRAVE) == Ok(ONE)
  {
    GoalsAre();
    var begun := Numbered(INITIAL);
    var pushed := begun.(cases := [OPENED], goals := [GRAVE]);
    assert ContextGoal(begun.goals).None?;
    assert [] + [GRAVE] == [GRAVE] && [] + [OPENED] == [OPENED];
    assert FindCase([], ['k'], ['s'], 0).None?;
    assert Push(TEXTS, begun, G, PLAIN.(caseRef := Some(['s']))) == Ok(pushed);
    TextIsAdded([], 1, ['a']);
    assert [] + [TextFact(['a'], 1)] == [TextFact(['a'], 1)];
    assert OPEN_GRAVE.event.facts[1..] == [];
    assert RecordFor(TEXTS, ONE, 0, []) == Ok(ONE);
    assert RecordFor(TEXTS, pushed, 0, OPEN_GRAVE.event.facts) == Ok(ONE);
    assert Take(TEXTS, begun, OPEN_GRAVE.event) == Ok(ONE);
    CalmEnds(ONE);
  }

  lemma GraveOpens()
    ensures Run(TEXTS, [OPEN_GRAVE]) == ONE
  {
    GraveIsOpened();
    assert Run(TEXTS, []) == INITIAL;
    RunStep(TEXTS, [], OPEN_GRAVE);
    assert [] + [OPEN_GRAVE] == [OPEN_GRAVE];
  }

  lemma MoreIsSaid() returns (next: Conversation)
    ensures next == Numbered(ONE).(facts := [TextFact(['a'], 1), TextFact(['b'], 2)])
    ensures Apply(TEXTS, ONE, SAY_MORE) == Ok(next)
  {
    GoalsAre();
    next := Numbered(ONE).(facts := [TextFact(['a'], 1), TextFact(['b'], 2)]);
    assert LastWith([GRAVE], ACTIVE, 1) == Some(0);
    assert Declares(GoalOf(TEXTS, G), X);
    assert OwnerGoal(TEXTS, [GRAVE], X, Some(0)) == Some(0);
    TextIsAdded(ONE.facts, 2, ['b']);
    assert ONE.facts + [TextFact(['b'], 2)] == next.facts;
    assert SAY_MORE.event.facts[1..] == [];
    assert RecordOwned(TEXTS, next, Some(0), [], ASSERT) == Ok(next);
    assert RecordOwned(TEXTS, Numbered(ONE), Some(0), SAY_MORE.event.facts, ASSERT) == Ok(next);
    assert Take(TEXTS, Numbered(ONE), SAY_MORE.event) == Ok(next);
    CalmEnds(next);
  }

  /** A complement with a second text for one case: both facts are active and confirmed, and the table has room
      for one. */
  lemma SecondTextIsRefused(subject: string -> string) returns (
      cat: Catalogue, rank: map<string, nat>, turns: seq<Turn>, t: Turn, st: Conversation, next: Conversation)
    ensures RefusedThough(cat, rank, turns, t, st, next, subject)
    ensures |next.facts| == 2 && FactOf(cat, next.facts[0].code).repeatable
    ensures next.facts[0].active && next.facts[1].active && !T.RoomBeside(next.facts[0], next.facts[1])
  {
    cat, rank, turns, t := TEXTS, map[X := 0], [OPEN_GRAVE], SAY_MORE;
    st := ONE;
    next := MoreIsSaid();
    TextsAreValid();
    GraveOpens();
    TextsAreRivals(next);
    TextsAreExpressed(next);
    TwoTextsAreRefused(next, subject);
    OneTextStands(subject);
  }

  lemma OneTextFits(subject: string -> string)
    ensures T.Acceptable(INITIAL, ONE, subject, None) && V.Expressible(INITIAL, ONE, 1)
  {
  }

  lemma OneTextStands(subject: string -> string)
    ensures Stands(ONE, subject)
  {
    TextsAreValid();
    GraveIsOpened();
    InitialStands(subject);
    OneTextFits(subject);
    NextStands(TEXTS, map[X := 0], [], OPEN_GRAVE, INITIAL, ONE, None, subject);
  }

  lemma TwoTextsAreRefused(next: Conversation, subject: string -> string)
    requires next == Numbered(ONE).(facts := [TextFact(['a'], 1), TextFact(['b'], 2)])
    ensures Refused(ONE, next, subject)
  {
    TextsAreRivals(next);
    assert V.Continues(ONE, next, next.seqNo) by {
      TextsAreValid();
      GraveOpens();
      var same := MoreIsSaid();
      RunContinues(TEXTS, map[X := 0], [OPEN_GRAVE], SAY_MORE, ONE, next);
    }
    DisorderlyIsRefused(ONE, next, subject);
  }

  lemma TextsAreExpressed(next: Conversation)
    requires next == Numbered(ONE).(facts := [TextFact(['a'], 1), TextFact(['b'], 2)])
    ensures V.Expressible(ONE, next, next.seqNo)
  {
  }

  lemma TextsAreRivals(next: Conversation)
    requires next == Numbered(ONE).(facts := [TextFact(['a'], 1), TextFact(['b'], 2)])
    ensures next.facts[0].active && next.facts[1].active && !T.RoomBeside(next.facts[0], next.facts[1])
    ensures !Orderly(next)
    ensures FactOf(TEXTS, next.facts[0].code).repeatable
  {
    assert !T.RoomBeside(next.facts[0], next.facts[1]);
  }

  // ----- a complaint about what is met at once -----

  const MET := GoalRecord(B, None, RESOLVED, None, None, None, false, false, 1, Some(1), None)
  const BASE := MET.(status := ACTIVE, closedAt := None)
  const OVERLAY := GoalRecord(COMPLAINT_GOAL, None, ACTIVE, None, Some(0), Some(0), false, false, 1, None, None)

  const COMPLAIN := Said(Complaint(Some(B), None, [], []))

  lemma ComplaintIsTaken()
    ensures Take(TEXTS, Numbered(INITIAL), COMPLAIN.event) == Ok(Numbered(INITIAL).(goals := [BASE, OVERLAY]))
  {
    GoalsAre();
    var begun := Numbered(INITIAL);
    var based := begun.(goals := [BASE]);
    var told := begun.(goals := [BASE, OVERLAY]);
    assert ContextGoal(begun.goals).None?;
    assert [] + [BASE] == [BASE] && [BASE] + [OVERLAY] == [BASE, OVERLAY];
    assert Push(TEXTS, begun, B, PLAIN.(caseRef := None)) == Ok(based);
    assert RecordFor(TEXTS, based, 0, []) == Ok(based);
    assert LastOverlay([BASE], 0, 0).None?;
    assert LastOverlay([BASE], 0, 1).None?;
    assert Push(TEXTS, based, COMPLAINT_GOAL, PushOptions(Some(0), false, false, None, Some(0), None, None))
        == Ok(told);
    assert Overlay(TEXTS, based, 0) == Ok((told, 1));
    assert RecordFor(TEXTS, told, 1, []) == Ok(told);
  }

  lemma BaseIsMet(told: Conversation, next: Conversation)
    requires told == Numbered(INITIAL).(goals := [BASE, OVERLAY]) && next == told.(goals := [MET, OVERLAY])
    ensures Finish(TEXTS, told, ROUNDS) == Ok(next)
  {
    GoalsAre();
    NothingMissing(told, 0);
    NothingMissing(told, 1);
    assert MarkResolved(told, 0) == next;
    assert Tell(TEXTS, next, 0) == Ok(next);
    assert Resume(next.goals, 0) == next.goals;
    assert ResolveAt(TEXTS, told, 1) == Ok(Step(told, false));
    assert ResolveAt(TEXTS, told, 0) == Ok(Step(next, true));
    assert ResolveFrom(TEXTS, next, 0, true) == Ok(Step(next, true));
    assert ResolveFrom(TEXTS, told, 1, false) == Ok(Step(next, true));
    assert ResolveFrom(TEXTS, told, 2, false) == Ok(Step(next, true));
    assert RelationsFrom(TEXTS, told, 0, false) == Ok(Step(told, false));
    assert Pass(TEXTS, told) == Ok(Step(next, true));
    CalmRests(next);
    assert Evaluate(TEXTS, told, ROUNDS) == Ok(next);
    NothingMoves(next, 0);
    assert Round(TEXTS, told, ROUNDS) == Ok(next);
    assert told.goals[0] != next.goals[0];
    assert RoundsFrom(TEXTS, next, ROUNDS, ROUNDS - 1) == Ok(next);
    assert RoundsFrom(TEXTS, told, ROUNDS, ROUNDS) == Ok(next);
    assert ReopenFrom(TEXTS, told, 2) == told;
    assert ReopenFrom(TEXTS, told, 1) == told;
    assert ReopenFrom(TEXTS, told, 0) == told;
    NothingToAsk(next);
  }

  lemma UnacceptableIsRefused(st: Conversation, next: Conversation, subject: string -> string)
    requires V.Continues(st, next, next.seqNo)
    requires forall covered :: !T.Acceptable(st, next, subject, covered)
    ensures Refused(st, next, subject)
  {
    forall s, covered | Ready(s, st, subject)
      ensures V.Commit(s, P.Call(next.seqNo, covered), st, next, subject).Err?
    {
      V.CommitsExactly(s, P.Call(next.seqNo, covered), st, next, subject);
    }
  }

  /** A complaint about a goal that is pushed and met in the same turn: no overlay goes over a closed goal. */
  lemma ComplaintOverMetGoalIsRefused(subject: string -> string) returns (
      cat: Catalogue, rank: map<string, nat>, turns: seq<Turn>, t: Turn, st: Conversation, next: Conversation)
    ensures RefusedThough(cat, rank, turns, t, st, next, subject)
    ensures |st.goals| == 0 && |next.goals| == 2
    ensures next.goals[1].overlayOf == Some(0) && next.goals[0].status == RESOLVED
  {
    cat, rank, turns, t := TEXTS, map[X := 0], [], COMPLAIN;
    st := INITIAL;
    next := Numbered(st).(goals := [MET, OVERLAY]);
    TextsAreValid();
    assert st == Run(cat, turns);
    ComplaintEnds(next);
    OverlayIsRefused(next, subject);
    OverlayIsExpressed(next);
    InitialStands(subject);
  }

  lemma OverlayIsRefused(next: Conversation, subject: string -> string)
    requires next == Numbered(INITIAL).(goals := [MET, OVERLAY])
    ensures Refused(INITIAL, next, subject)
  {
    assert V.Continues(INITIAL, next, next.seqNo) by {
      TextsAreValid();
      ComplaintEnds(next);
      assert Run(TEXTS, []) == INITIAL;
      RunContinues(TEXTS, map[X := 0], [], COMPLAIN, INITIAL, next);
    }
    OverlayDoesNotFit(next);
    UnacceptableIsRefused(INITIAL, next, subject);
  }

  lemma OverlayIsExpressed(next: Conversation)
    requires next == Numbered(INITIAL).(goals := [MET, OVERLAY])
    ensures V.Expressible(INITIAL, next, next.seqNo)
  {
  }

  lemma ComplaintEnds(next: Conversation)
    requires next == Numbered(INITIAL).(goals := [MET, OVERLAY])
    ensures Apply(TEXTS, INITIAL, COMPLAIN) == Ok(next)
  {
    ComplaintIsTaken();
    BaseIsMet(Numbered(INITIAL).(goals := [BASE, OVERLAY]), next);
  }

  lemma OverlayDoesNotFit(next: Conversation)
    requires next == Numbered(INITIAL).(goals := [MET, OVERLAY])
    ensures forall subject, covered :: !T.Acceptable(INITIAL, next, subject, covered)
  {
    assert !T.GoalFits(INITIAL, next, 1);
  }
}
