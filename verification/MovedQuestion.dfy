/**
 A run in which a parked question moves up the list: the two goals above the first are met in one
 turn, its question is asked again, and that of the second stays parked, in first place now. The
 operations give the place of a question only when it is parked.
 */
module MovedQuestion {
  import opened Basics
  import opened Catalog
  import opened State
  import opened Recording
  import opened Goals
  import opened Reducer
  import opened Runs
  import opened StoreGaps
  import P = Persistence
  import T = Tables
  import V = Replay

  const A := ['a']
  const B := ['b']
  const C := ['c']

  const CODES := {A, B, C}

  const INPUT_DEF := FactDef(
    CONVERSATION, None, ADMINISTRATIVE, [], {}, false, {USER_EXPLICIT}, false, {}, {}, None, None, false)

  /** Each goal asks for the one fact of its own code. */
  function DefOf(c: string): GoalDef {
    GoalDef(false, [], false, false, [c], [], [])
  }

  const ASKING := Catalogue(
    map[A := INPUT_DEF, B := INPUT_DEF, C := INPUT_DEF], map[A := DefOf(A), B := DefOf(B), C := DefOf(C)], [],
    map[], map[A := A, B := B, C := C], {})

  const RANK: map<string, nat> := map[A := 0, B := 0, C := 0]

  lemma AskingIsValid()
    ensures Valid(ASKING) && Ranked(ASKING, RANK)
  {
  }

  lemma DefsAre(c: string)
    requires c in CODES
    ensures FactOf(ASKING, c) == INPUT_DEF && c in ASKING.facts
    ensures GoalOf(ASKING, c) == DefOf(c) && c in ASKING.goals
    ensures c in ASKING.questions && ASKING.questions[c] == c
  {
  }

  function Goal(c: string, now: nat): GoalRecord {
    GoalRecord(c, None, ACTIVE, None, None, None, false, false, now, None, None)
  }

  function Known(c: string, now: nat): FactRecord {
    FactRecord(c, None, None, Flag(true), USER_EXPLICIT, CONFIRMED, true, now, None, None, None, None, false, [])
  }

  function Query(c: string, gi: nat, now: nat): QuestionRef {
    QuestionRef(c, c, gi, ADMINISTRATIVE, now)
  }

  // ----- what is missing -----

  predicate Has(facts: seq<FactRecord>, c: string) {
    exists i | 0 <= i < |facts| :: facts[i].code == c
  }

  /** Confirmed facts, one of a code. */
  predicate PlainFacts(facts: seq<FactRecord>) {
    && (forall i | 0 <= i < |facts| :: facts[i] == Known(facts[i].code, facts[i].recordedAt))
    && (forall i, j | 0 <= i < j < |facts| :: facts[i].code != facts[j].code)
  }

  function Gap(c: string): Missing {
    Missing(c, ADMINISTRATIVE, false, false)
  }

  lemma LiveIs(facts: seq<FactRecord>, c: string, o: Owner)
    requires c in CODES && PlainFacts(facts)
    ensures if Has(facts, c)
            then exists n | 0 <= n < |facts| :: Live(ASKING, facts, KeyFor(ASKING, c, o)) == [n]
            else Live(ASKING, facts, KeyFor(ASKING, c, o)) == []
  {
    DefsAre(c);
    var key := KeyFor(ASKING, c, o);
    if Has(facts, c) {
      var n :| 0 <= n < |facts| && facts[n].code == c;
      forall i | 0 <= i < |facts| && IsLive(ASKING, facts[i], key)
        ensures i == n
      {
        KeyTells(facts[i], key);
      }
      SoleLive(ASKING, facts, key, n);
    } else {
      forall i | 0 <= i < |facts|
        ensures !IsLive(ASKING, facts[i], key)
      {
        if IsLive(ASKING, facts[i], key) {
          KeyTells(facts[i], key);
        }
      }
      NoneLive(ASKING, facts, key);
    }
  }

  lemma KeyTells(f: FactRecord, key: Key)
    requires KeyOf(ASKING, f) == key
    ensures key.code == f.code
  {
  }

  lemma MissingIs(st: Conversation, gi: nat)
    requires gi < |st.goals| && st.goals[gi].code in CODES && PlainFacts(st.facts)
    ensures var c := st.goals[gi].code;
      MissingFacts(ASKING, st.facts, st.goals, gi) == if Has(st.facts, c) then [] else [Gap(c)]
    ensures Complete(ASKING, st, gi) <==> Has(st.facts, st.goals[gi].code)
  {
    var c, o := st.goals[gi].code, OwnerOf(st.goals, gi);
    DefsAre(c);
    LiveIs(st.facts, c, o);
    assert DefOf(c).required + DefOf(c).completion == [c];
    var gap := GapOf(ASKING, st.facts, o, DefOf(c), c);
    assert gap == if Has(st.facts, c) then None else Some(Gap(c));
    var out := if gap.Some? then [] + [gap.value] else [];
    assert MissingFrom(ASKING, st.facts, o, DefOf(c), [c], 1, out) == out;
    assert MissingFrom(ASKING, st.facts, o, DefOf(c), [c], 0, []) == out;
  }

  lemma GapIsAsked(c: string)
    requires c in CODES
    ensures Askable(ASKING, [Gap(c)]) == [Gap(c)] && Best([Gap(c)]) == Some(Gap(c))
  {
    DefsAre(c);
    assert Askable(ASKING, [Gap(c)][1..]) == [];
    assert FirstConflicting([Gap(c)][1..]).None?;
    assert Lowest([Gap(c)][1..], Gap(c)) == Gap(c);
  }

  // ----- settling -----

  /** Goals without their fact are active, the others resolved. */
  predicate Balanced(st: Conversation) {
    && PlainFacts(st.facts)
    && forall i | 0 <= i < |st.goals| :: st.goals[i].code in CODES
         && st.goals[i].status == if Has(st.facts, st.goals[i].code) then RESOLVED else ACTIVE
  }

  ghost predicate StillAt(st: Conversation, k: nat)
    requires k < |st.goals|
  {
    && ResolveAt(ASKING, st, k) == Ok(Step(st, false))
    && SyncGoal(ASKING, st, k) == st && !MustReopen(ASKING, st, k)
  }

  ghost predicate Still(st: Conversation) {
    forall k | 0 <= k < |st.goals| :: StillAt(st, k)
  }

  lemma BalancedIsStill(st: Conversation)
    requires Balanced(st)
    ensures Still(st)
  {
    forall k | 0 <= k < |st.goals|
      ensures StillAt(st, k)
    {
      MissingIs(st, k);
      GapIsAsked(st.goals[k].code);
    }
  }

  lemma {:induction false} NothingResolves(st: Conversation, n: nat, changed: bool)
    requires Still(st) && n <= |st.goals|
    ensures ResolveFrom(ASKING, st, n, changed) == Ok(Step(st, changed))
    decreases n
  {
    if n > 0 {
      assert StillAt(st, n - 1);
      ResolveFromStep(ASKING, st, n, changed);
      NothingResolves(st, n - 1, changed);
    }
  }

  lemma {:induction false} NothingMoves(st: Conversation, k: nat)
    requires Still(st) && k <= |st.goals|
    ensures SyncFrom(ASKING, st, k) == st && ReopenFrom(ASKING, st, k) == st
    decreases |st.goals| - k
  {
    if k < |st.goals| {
      assert StillAt(st, k);
      NothingMoves(st, k + 1);
    }
  }

  lemma StillRests(st: Conversation, fuel: nat)
    requires Still(st) && fuel > 0
    ensures Evaluate(ASKING, st, fuel) == Ok(st) && RoundsFrom(ASKING, st, ROUNDS, fuel) == Ok(st)
  {
    NothingResolves(st, |st.goals|, false);
    NothingMoves(st, 0);
    assert RelationsFrom(ASKING, st, 0, false) == Ok(Step(st, false));
    assert Pass(ASKING, st) == Ok(Step(st, false));
    assert Evaluate(ASKING, st, ROUNDS) == Ok(st);
    assert Round(ASKING, st, ROUNDS) == Ok(st);
  }

  lemma BalancedSettles(st: Conversation)
    requires Balanced(st)
    ensures Settle(ASKING, st, ROUNDS) == Ok(st)
  {
    BalancedIsStill(st);
    NothingMoves(st, 0);
    StillRests(st, ROUNDS);
  }

  // ----- questions -----

  lemma AskedNext(st: Conversation, gi: nat)
    requires Balanced(st) && ContextGoal(st.goals) == Some(gi) && !Has(st.facts, st.goals[gi].code)
    ensures NextQuestion(ASKING, st) == Ok(Some(Query(st.goals[gi].code, gi, st.seqNo)))
  {
    MissingIs(st, gi);
    GapIsAsked(st.goals[gi].code);
    DefsAre(st.goals[gi].code);
    var c := st.goals[gi].code;
    assert CONFLICT_QUESTION[0] == 'Q' && c[0] != 'Q';
  }

  /** A question for the fact of its goal is valid until that is there. */
  lemma ValidIs(st: Conversation, gi: nat, n: nat)
    requires Balanced(st) && gi < |st.goals|
    ensures StillValid(ASKING, st, Query(st.goals[gi].code, gi, n)) <==> !Has(st.facts, st.goals[gi].code)
  {
    var c := st.goals[gi].code;
    MissingIs(st, gi);
    GapIsAsked(c);
    if !Has(st.facts, c) {
      assert Askable(ASKING, MissingFacts(ASKING, st.facts, st.goals, gi))[0].code == c;
    }
  }

  lemma {:induction false} NoneResumed(st: Conversation, n: nat, q: Option<QuestionRef>)
    requires n <= |st.parked| && NextQuestion(ASKING, st) == Ok(q)
    requires forall i | 0 <= i < n :: ContextGoal(st.goals) != Some(st.parked[i].goalId)
    ensures ResumeFrom(ASKING, st, n) == Ok(st.(pending := q))
    decreases n
  {
    if n > 0 {
      NoneResumed(st, n - 1, q);
    }
  }

  // ----- a goal is opened, and its question asked -----

  predicate LastAsks(st: Conversation, q: QuestionRef)
    requires |st.goals| > 0
  {
    q == Query(st.goals[|st.goals| - 1].code, |st.goals| - 1, q.askedAt)
  }

  /** Nothing is known yet, and the question of the last goal is pending. */
  ghost predicate Opening(st: Conversation) {
    && Balanced(st) && st.facts == [] && st.actions == [] && st.cases == [] && st.forbidden == {}
    && (forall i | 0 <= i < |st.goals| :: st.goals[i].status == ACTIVE)
    && (forall i | 0 <= i < |st.parked| :: st.parked[i].goalId < |st.goals|)
    && (if |st.goals| == 0 then st.pending.None?
        else st.pending.Some? && LastAsks(st, st.pending.value))
  }

  /** The pending question is parked, and that of the new goal asked. */
  function Opened(st: Conversation, c: string): Conversation {
    var n := st.seqNo + 1;
    st.(seqNo := n, goals := st.goals + [Goal(c, n)], pending := Some(Query(c, |st.goals|, n)),
        parked := if st.pending.Some? then st.parked + [st.pending.value] else st.parked)
  }

  function Open(c: string): Turn {
    Said(NewGoal(c, None, false, []))
  }

  lemma OpenTakes(st: Conversation, c: string)
    requires Opening(st) && c in CODES
    ensures Take(ASKING, Numbered(st), Open(c).event) == Ok(Numbered(st).(goals := st.goals + [Goal(c, st.seqNo + 1)]))
  {
    DefsAre(c);
    var told := Numbered(st).(goals := st.goals + [Goal(c, st.seqNo + 1)]);
    assert Push(ASKING, Numbered(st), c, PLAIN.(caseRef := None)) == Ok(told);
    assert RecordFor(ASKING, told, |st.goals|, []) == Ok(told);
  }

  lemma OpenAsks(st: Conversation, told: Conversation, c: string)
    requires Opening(st) && c in CODES && told == Numbered(st).(goals := st.goals + [Goal(c, st.seqNo + 1)])
    ensures Balanced(told) && Refresh(ASKING, told) == Ok(Opened(st, c))
  {
    var gi := |st.goals|;
    assert told.goals[gi] == Goal(c, told.seqNo);
    assert LastWith(told.goals, ACTIVE, gi + 1) == Some(gi);
    var cleared := told.(pending := None, parked := Opened(st, c).parked);
    if gi > 0 {
      ValidIs(told, gi - 1, st.pending.value.askedAt);
    }
    assert Withdraw(ASKING, told) == cleared;
    AskedNext(cleared, gi);
    NoneResumed(cleared, |cleared.parked|, Some(Query(c, gi, told.seqNo)));
  }

  lemma OpenTurn(st: Conversation, c: string)
    requires Opening(st) && c in CODES
    ensures Apply(ASKING, st, Open(c)) == Ok(Opened(st, c)) && Opening(Opened(st, c))
  {
    OpenedIsOpening(st, c);
    OpenTakes(st, c);
    OpenEnds(st, c);
  }

  lemma OpenedIsOpening(st: Conversation, c: string)
    requires Opening(st) && c in CODES
    ensures Opening(Opened(st, c))
  {
    assert Opened(st, c).goals[|st.goals|] == Goal(c, st.seqNo + 1);
  }

  lemma OpenEnds(st: Conversation, c: string)
    requires Opening(st) && c in CODES
    ensures Finish(ASKING, Numbered(st).(goals := st.goals + [Goal(c, st.seqNo + 1)]), ROUNDS) == Ok(Opened(st, c))
  {
    var told := Numbered(st).(goals := st.goals + [Goal(c, st.seqNo + 1)]);
    OpenAsks(st, told, c);
    BalancedSettles(told);
  }

  // ----- two goals are met at once -----

  const S1 := Opened(INITIAL, A)
  const S2 := Opened(S1, B)
  const S3 := Opened(S2, C)

  const OPENINGS := [Open(A), Open(B), Open(C)]

  lemma ThreeAreOpen()
    ensures Apply(ASKING, INITIAL, Open(A)) == Ok(S1) && Apply(ASKING, S1, Open(B)) == Ok(S2)
    ensures Apply(ASKING, S2, Open(C)) == Ok(S3)
    ensures Run(ASKING, []) == INITIAL && Run(ASKING, [Open(A)]) == S1 && Run(ASKING, [Open(A), Open(B)]) == S2
    ensures Run(ASKING, OPENINGS) == S3
  {
    OpenTurn(INITIAL, A);
    OpenTurn(S1, B);
    OpenTurn(S2, C);
    RunStep(ASKING, [], Open(A));
    assert [] + [Open(A)] == [Open(A)];
    RunStep(ASKING, [Open(A)], Open(B));
    assert [Open(A)] + [Open(B)] == [Open(A), Open(B)];
    RunStep(ASKING, [Open(A), Open(B)], Open(C));
    assert [Open(A), Open(B)] + [Open(C)] == OPENINGS;
  }

  lemma ShapeOfThree()
    ensures S3 == Conversation(3, [], [Goal(A, 1), Goal(B, 2), Goal(C, 3)], [], Some(Query(C, 2, 3)),
                               [Query(A, 0, 1), Query(B, 1, 2)], [], {})
  {
    assert S1.goals == [Goal(A, 1)] && S1.parked == [];
    assert S2.goals == [Goal(A, 1), Goal(B, 2)] && S2.parked == [Query(A, 0, 1)];
    assert S3.goals == [Goal(A, 1), Goal(B, 2), Goal(C, 3)] && S3.parked == [Query(A, 0, 1), Query(B, 1, 2)];
  }

  function Input(c: string): FactInput {
    FactInput(c, Flag(true), None, None, false)
  }

  const TELL := Answer([Input(C), Input(B)])

  function Met(c: string, now: nat): GoalRecord {
    Goal(c, now).(status := RESOLVED, closedAt := Some(4))
  }

  const TOLD := S3.(seqNo := 4, facts := [Known(C, 4), Known(B, 4)])
  const SETTLED := TOLD.(goals := [Goal(A, 1), Met(B, 2), Met(C, 3)])
  const S4 := SETTLED.(pending := Some(Query(A, 0, 1)), parked := [Query(B, 1, 2)])

  lemma InputIsRecorded(facts: seq<FactRecord>, c: string, o: Owner)
    requires c in CODES && PlainFacts(facts) && !Has(facts, c)
    ensures Record(ASKING, S3.goals, facts, 4, o, Input(c), ASSERT, []) == Ok(facts + [Known(c, 4)])
  {
    DefsAre(c);
    LiveIs(facts, c, o);
    assert Admitted(ASKING, Input(c), ASSERT) == Ok(Entry(c, Flag(true), USER_EXPLICIT, CONFIRMED, false));
  }

  lemma TellTakes()
    ensures Take(ASKING, Numbered(S3), TELL) == Ok(TOLD)
  {
    ShapeOfThree();
    var begun := Numbered(S3);
    var half := begun.(facts := [Known(C, 4)]);
    assert LastWith(S3.goals, ACTIVE, 3) == Some(2);
    InputIsRecorded([], C, OwnerFor(S3.goals, OwnerGoal(ASKING, S3.goals, C, Some(2))));
    assert [] + [Known(C, 4)] == [Known(C, 4)];
    assert !Has([Known(C, 4)], B);
    InputIsRecorded([Known(C, 4)], B, OwnerFor(S3.goals, OwnerGoal(ASKING, S3.goals, B, Some(2))));
    assert [Known(C, 4)] + [Known(B, 4)] == [Known(C, 4), Known(B, 4)];
    assert [Input(C), Input(B)][1..] == [Input(B)] && [Input(B)][1..] == [];
    assert RecordOwned(ASKING, TOLD, Some(2), [], ASSERT) == Ok(TOLD);
    assert RecordOwned(ASKING, half, Some(2), [Input(B)], ASSERT) == Ok(TOLD);
    assert RecordOwned(ASKING, begun, Some(2), [Input(C), Input(B)], ASSERT) == Ok(TOLD);
  }

  lemma KnownThen()
    ensures PlainFacts(TOLD.facts) && Has(TOLD.facts, B) && Has(TOLD.facts, C) && !Has(TOLD.facts, A)
  {
    assert TOLD.facts[0].code == C && TOLD.facts[1].code == B;
  }

  lemma GoalIsMet(st: Conversation, gi: nat, next: Conversation)
    requires gi < |st.goals| && st.goals[gi].code in CODES && PlainFacts(st.facts) && Has(st.facts, st.goals[gi].code)
    requires st.goals[gi].status == ACTIVE && st.goals[gi].parent.None? && st.goals[gi].createdBy.None?
    requires next == MarkResolved(st, gi)
    ensures ResolveAt(ASKING, st, gi) == Ok(Step(next, true))
  {
    MissingIs(st, gi);
    assert Tell(ASKING, next, gi) == Ok(next);
    assert Resume(next.goals, gi) == next.goals;
  }

  lemma BothAreMet()
    ensures Pass(ASKING, TOLD) == Ok(Step(SETTLED, true)) && Balanced(SETTLED) && TOLD.goals != SETTLED.goals
  {
    ShapeOfThree();
    KnownThen();
    var half := TOLD.(goals := [Goal(A, 1), Goal(B, 2), Met(C, 3)]);
    assert TOLD.goals[2 := Met(C, 3)] == half.goals && half.goals[1 := Met(B, 2)] == SETTLED.goals;
    GoalIsMet(TOLD, 2, half);
    GoalIsMet(half, 1, SETTLED);
    BalancedIsStill(SETTLED);
    NothingResolves(SETTLED, 1, true);
    ResolveFromStep(ASKING, TOLD, 3, false);
    ResolveFromStep(ASKING, half, 2, true);
    assert RelationsFrom(ASKING, TOLD, 0, false) == Ok(Step(TOLD, false));
    assert TOLD.goals[2] != SETTLED.goals[2];
  }

  lemma NothingReopens()
    ensures ReopenFrom(ASKING, TOLD, 0) == TOLD
  {
    ShapeOfThree();
    assert ReopenFrom(ASKING, TOLD, 3) == TOLD && ReopenFrom(ASKING, TOLD, 2) == TOLD;
    assert ReopenFrom(ASKING, TOLD, 1) == TOLD;
  }

  lemma TellSettles()
    ensures Settle(ASKING, TOLD, ROUNDS) == Ok(SETTLED)
  {
    NothingReopens();
    assert Pass(ASKING, TOLD) == Ok(Step(SETTLED, true)) && TOLD.goals != SETTLED.goals && Still(SETTLED) by {
      BothAreMet();
      BalancedIsStill(SETTLED);
    }
    StillRests(SETTLED, ROUNDS - 1);
    NothingMoves(SETTLED, 0);
    assert Evaluate(ASKING, TOLD, ROUNDS) == Ok(SETTLED);
    assert Round(ASKING, TOLD, ROUNDS) == Ok(SETTLED);
    assert RoundsFrom(ASKING, TOLD, ROUNDS, ROUNDS) == Ok(SETTLED);
  }

  lemma PendingIsDropped()
    ensures Withdraw(ASKING, SETTLED) == SETTLED.(pending := None)
    ensures ContextGoal(SETTLED.goals) == Some(0)
  {
    ShapeOfThree();
    assert LastWith(SETTLED.goals, ACTIVE, 1) == Some(0) && LastWith(SETTLED.goals, ACTIVE, 2) == Some(0);
    assert LastWith(SETTLED.goals, ACTIVE, 3) == Some(0);
    assert !StillValid(ASKING, SETTLED, Query(C, 2, 3)) by {
      KnownThen();
      BothAreMet();
      ValidIs(SETTLED, 2, 3);
    }
  }

  lemma FirstResumes(cleared: Conversation)
    requires cleared == SETTLED.(pending := None) && ContextGoal(cleared.goals) == Some(0) && Balanced(cleared)
    ensures ResumeFrom(ASKING, cleared, 2) == Ok(S4)
  {
    ShapeOfThree();
    KnownThen();
    ValidIs(cleared, 0, 1);
    var ps := cleared.parked;
    assert ps == [Query(A, 0, 1), Query(B, 1, 2)];
    assert ps[..0] + ps[1..] == [Query(B, 1, 2)];
    assert ResumeFrom(ASKING, cleared, 1) == Ok(S4);
  }

  /** The pending question is dropped, the first parked one asked again, the second passed over. */
  lemma FirstIsAskedAgain()
    ensures Refresh(ASKING, SETTLED) == Ok(S4)
  {
    var cleared := SETTLED.(pending := None);
    PendingIsDropped();
    assert Balanced(cleared) && !Has(cleared.facts, A) && |cleared.parked| == 2 && cleared.goals[0].code == A by {
      ShapeOfThree();
      KnownThen();
      BothAreMet();
    }
    AskedNext(cleared, 0);
    FirstResumes(cleared);
  }

  lemma TellTurn()
    ensures Apply(ASKING, S3, Said(TELL)) == Ok(S4)
  {
    TellTakes();
    TellSettles();
    FirstIsAskedAgain();
  }

  // ----- and the store -----

  lemma OpeningFits(st: Conversation, c: string, subject: string -> string)
    requires Opening(st) && c in CODES
    ensures T.Acceptable(st, Opened(st, c), subject, None) && V.Expressible(st, Opened(st, c), st.seqNo + 1)
  {
  }

  lemma {:induction false} OpenedStands(
    turns: seq<Turn>, st: Conversation, c: string, next: Conversation, subject: string -> string)
    requires st == Run(ASKING, turns) && Apply(ASKING, st, Open(c)) == Ok(next) && Stands(st, subject)
    requires |st.goals| <= |next.goals| && |st.facts| <= |next.facts|
    requires T.Acceptable(st, next, subject, None) && V.Expressible(st, next, next.seqNo)
    ensures Stands(next, subject)
  {
    AskingIsValid();
    NextStands(ASKING, RANK, turns, Open(c), st, next, None, subject);
  }

  lemma OneStands(subject: string -> string)
    ensures Stands(S1, subject)
  {
    assert Run(ASKING, []) == INITIAL && Apply(ASKING, INITIAL, Open(A)) == Ok(S1) by {
      ThreeAreOpen();
    }
    InitialStands(subject);
    OpeningFits(INITIAL, A, subject);
    OpenedStands([], INITIAL, A, S1, subject);
  }

  lemma TwoStand(subject: string -> string)
    ensures Stands(S2, subject)
  {
    assert Run(ASKING, [Open(A)]) == S1 && Apply(ASKING, S1, Open(B)) == Ok(S2) by {
      ThreeAreOpen();
    }
    OneStands(subject);
    assert Opening(S1) by {
      OpenedIsOpening(INITIAL, A);
    }
    OpeningFits(S1, B, subject);
    OpenedStands([Open(A)], S1, B, S2, subject);
  }

  lemma ThreeStand(subject: string -> string)
    ensures Stands(S3, subject)
  {
    assert Run(ASKING, [Open(A), Open(B)]) == S2 && Apply(ASKING, S2, Open(C)) == Ok(S3) by {
      ThreeAreOpen();
    }
    TwoStand(subject);
    assert Opening(S2) by {
      OpenedIsOpening(INITIAL, A);
      OpenedIsOpening(S1, B);
    }
    OpeningFits(S2, C, subject);
    OpenedStands([Open(A), Open(B)], S2, C, S3, subject);
  }

  lemma OnlyThePlaceMoves()
    ensures !V.InPlace(S3, S4, 0)
    ensures forall i: nat | i < |S4.goals| :: V.GoalExpressed(S3, S4, 4, i)
    ensures forall i: nat | i < |S4.facts| :: V.FactExpressed(S3, S4, i)
  {
    ShapeOfThree();
  }

  /** From a stored state: every goal and every fact is as the operations can say, and the turn is refused for the
      place of a question. */
  lemma MovedQuestionIsRefused(subject: string -> string) returns (
      cat: Catalogue, rank: map<string, nat>, turns: seq<Turn>, t: Turn, st: Conversation, next: Conversation)
    ensures Valid(cat) && Ranked(cat, rank) && st == Run(cat, turns) && Apply(cat, st, t) == Ok(next)
    ensures forall i: nat | i < |next.goals| :: V.GoalExpressed(st, next, next.seqNo, i)
    ensures forall i: nat | i < |next.facts| :: V.FactExpressed(st, next, i)
    ensures |next.parked| == 1 && |st.parked| == 2 && next.parked[0] == st.parked[1]
    ensures Stands(st, subject) && Refused(st, next, subject)
  {
    cat, rank, turns, t, st, next := ASKING, RANK, OPENINGS, Said(TELL), S3, S4;
    AskingIsValid();
    ThreeAreOpen();
    TellTurn();
    ShapeOfThree();
    OnlyThePlaceMoves();
    ThreeStand(subject);
    assert V.Continues(st, next, next.seqNo) by {
      RunContinues(cat, rank, turns, t, st, next);
    }
    UnexpressedIsRefused(st, next, subject);
  }
}
