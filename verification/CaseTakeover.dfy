/**
 A run in which an answer about one case puts a goal into another: what isolation has to exclude.
 The first goal has a case under the very reference that a relation makes in the third turn. The
 second has none; its child has a case of its own, and when the child is resolved the relation
 pushes a goal from the parent.
 */
module CaseTakeover {
  import opened Basics
  import opened Catalog
  import opened State
  import opened Recording
  import opened Goals
  import opened Reducer
  import opened Runs
  import opened Visibility
  import opened Agreement
  import opened Frames
  import opened Isolation

  const X := ['x']
  const Y := ['y']
  const A := ['a']
  const G := ['g']
  const K := ['k']

  const INPUT_DEF := FactDef(
    GOAL, None, ADMINISTRATIVE, [], {}, false, {USER_EXPLICIT}, false, {}, {}, None, None, false)

  /** A goal without a case and one that opens a case, neither ever resolved; and one that Y completes. */
  const PLAIN_DEF := GoalDef(false, [], false, true, [], [], [X])
  const CASED_DEF := GoalDef(true, ['s'], false, true, [], [], [])
  const CHILD_DEF := GoalDef(true, ['t'], false, false, [], [Y], [])

  const PUSHES := Relation(
    ['r'], Some(When(A, {ACTIVE}, [Condition(X, Present)])), [PushGoal(K, true, false)], [PushGoal(G, true, true)])

  const PUSHING := Catalogue(
    map[X := INPUT_DEF, Y := INPUT_DEF], map[A := PLAIN_DEF, G := CASED_DEF, K := CHILD_DEF], [PUSHES],
    map[], map[], {})

  /** What the proofs use of the catalogue. */
  ghost predicate Pushing(cat: Catalogue) {
    && X in cat.facts && cat.facts[X] == INPUT_DEF && Y in cat.facts && cat.facts[Y] == INPUT_DEF
    && A in cat.goals && cat.goals[A] == PLAIN_DEF && G in cat.goals && cat.goals[G] == CASED_DEF
    && K in cat.goals && cat.goals[K] == CHILD_DEF
    && cat.relations == [PUSHES] && cat.resolutions == map[]
  }

  lemma PushingIsValid()
    ensures Pushing(PUSHING) && Valid(PUSHING) && Ranked(PUSHING, map[X := 0, Y := 0]) && NoBroadcast(PUSHING)
  {
    assert forall r | r in PUSHING.relations :: r == PUSHES;
  }

  // ----- what is missing -----

  lemma NothingMissing(cat: Catalogue, st: Conversation, gi: nat)
    requires Pushing(cat) && gi < |st.goals| && st.goals[gi].code in {A, G}
    ensures MissingFacts(cat, st.facts, st.goals, gi) == [] && !Complete(cat, st, gi)
  {
    var def := GoalOf(cat, st.goals[gi].code);
    assert def == PLAIN_DEF || def == CASED_DEF;
    assert MissingFrom(cat, st.facts, OwnerOf(st.goals, gi), def, [], 0, []) == [];
  }

  const GAP := Missing(Y, ADMINISTRATIVE, false, true)

  /** The child misses its fact until that is there; it is not asked for, and nothing else supplies it. */
  lemma ChildMisses(cat: Catalogue, st: Conversation, gi: nat)
    requires Pushing(cat) && gi < |st.goals| && st.goals[gi].code == K
    requires Live(cat, st.facts, KeyFor(cat, Y, OwnerOf(st.goals, gi))) == []
    ensures MissingFacts(cat, st.facts, st.goals, gi) == [GAP] && !Complete(cat, st, gi)
    ensures Blocking(cat, st.facts, st.goals, gi).None? && Askable(cat, [GAP]) == []
  {
    var o := OwnerOf(st.goals, gi);
    assert GapOf(cat, st.facts, o, CHILD_DEF, Y) == Some(GAP);
    assert CHILD_DEF.required + CHILD_DEF.completion == [Y];
    assert [] + [GAP] == [GAP];
    assert MissingFrom(cat, st.facts, o, CHILD_DEF, [Y], 1, [GAP]) == [GAP];
    assert MissingFrom(cat, st.facts, o, CHILD_DEF, [Y], 0, []) == [GAP];
    assert Askable(cat, [GAP][1..]) == [];
  }

  lemma ChildIsComplete(cat: Catalogue, st: Conversation, gi: nat, n: nat)
    requires Pushing(cat) && gi < |st.goals| && st.goals[gi].code == K
    requires n < |st.facts| && Live(cat, st.facts, KeyFor(cat, Y, OwnerOf(st.goals, gi))) == [n]
    requires st.facts[n].confidence == CONFIRMED
    ensures Complete(cat, st, gi)
  {
    var o := OwnerOf(st.goals, gi);
    assert GapOf(cat, st.facts, o, CHILD_DEF, Y).None?;
    assert CHILD_DEF.required + CHILD_DEF.completion == [Y];
    assert MissingFrom(cat, st.facts, o, CHILD_DEF, [Y], 1, []) == [];
  }

  // ----- states in which nothing happens -----

  /** The child still misses its fact, or is resolved; no other goal can be. */
  ghost predicate Calm(cat: Catalogue, st: Conversation) {
    && st.pending.None? && st.parked == []
    && forall i | 0 <= i < |st.goals| ::
         || (st.goals[i].code in {A, G} && st.goals[i].status in {ACTIVE, SUSPENDED})
         || (st.goals[i].code == K && st.goals[i].status == RESOLVED)
         || (st.goals[i].code == K && st.goals[i].status == ACTIVE
             && Live(cat, st.facts, KeyFor(cat, Y, OwnerOf(st.goals, i))) == [])
  }

  lemma {:induction false} NothingResolves(cat: Catalogue, st: Conversation, n: nat, changed: bool)
    requires Pushing(cat) && Calm(cat, st) && n <= |st.goals|
    ensures ResolveFrom(cat, st, n, changed) == Ok(Step(st, changed))
    decreases n
  {
    if n > 0 {
      StaysAsItIs(cat, st, n - 1);
      ResolveFromStep(cat, st, n, changed);
      NothingResolves(cat, st, n - 1, changed);
    }
  }

  lemma StaysAsItIs(cat: Catalogue, st: Conversation, gi: nat)
    requires Pushing(cat) && Calm(cat, st) && gi < |st.goals|
    ensures ResolveAt(cat, st, gi) == Ok(Step(st, false)) && SyncGoal(cat, st, gi) == st
  {
    if st.goals[gi].code in {A, G} {
      NothingMissing(cat, st, gi);
    } else if st.goals[gi].status == ACTIVE {
      ChildMisses(cat, st, gi);
    }
  }

  lemma {:induction false} NothingWaits(cat: Catalogue, st: Conversation, k: nat)
    requires Pushing(cat) && Calm(cat, st) && k <= |st.goals|
    ensures SyncFrom(cat, st, k) == st
    decreases |st.goals| - k
  {
    if k < |st.goals| {
      StaysAsItIs(cat, st, k);
      NothingWaits(cat, st, k + 1);
    }
  }

  lemma {:induction false} NothingReopens(cat: Catalogue, st: Conversation, k: nat)
    requires k <= |st.goals| && forall i | 0 <= i < |st.goals| :: st.goals[i].status != RESOLVED
    ensures ReopenFrom(cat, st, k) == st
    decreases |st.goals| - k
  {
    if k < |st.goals| {
      NothingReopens(cat, st, k + 1);
    }
  }

  lemma NothingToAsk(cat: Catalogue, st: Conversation)
    requires Pushing(cat) && Calm(cat, st)
    ensures Refresh(cat, st) == Ok(st)
  {
    var goal := ContextGoal(st.goals);
    if goal.Some? {
      if st.goals[goal.value].code in {A, G} {
        NothingMissing(cat, st, goal.value);
      } else {
        ChildMisses(cat, st, goal.value);
      }
    }
    assert NextQuestion(cat, st) == Ok(None);
  }

  /** No target for the relation. */
  lemma NoTarget(cat: Catalogue, st: Conversation, changed: bool)
    requires Pushing(cat)
    requires forall i | 0 <= i < |st.goals| :: st.goals[i].code != A || st.goals[i].status != ACTIVE
    ensures RelationsFrom(cat, st, 0, changed) == Ok(Step(st, changed))
  {
    NoneListed(st.goals, 0);
    assert RelationsFrom(cat, st, 1, changed) == Ok(Step(st, changed));
  }

  lemma {:induction false} NoneListed(goals: seq<GoalRecord>, k: nat)
    requires k <= |goals|
    requires forall i | 0 <= i < |goals| :: goals[i].code != A || goals[i].status != ACTIVE
    ensures TargetsFrom(goals, PUSHES.when.value, k) == []
    decreases |goals| - k
  {
    if k < |goals| {
      NoneListed(goals, k + 1);
    }
  }

  /** Nothing for the relation to do, and nothing else. */
  ghost predicate Quiet(cat: Catalogue, st: Conversation) {
    Calm(cat, st) && forall i | 0 <= i < |st.goals| :: st.goals[i].code != A || st.goals[i].status != ACTIVE
  }

  lemma Rests(cat: Catalogue, st: Conversation, fuel: nat)
    requires Pushing(cat) && Quiet(cat, st) && fuel > 0
    ensures Evaluate(cat, st, fuel) == Ok(st) && RoundsFrom(cat, st, ROUNDS, fuel) == Ok(st)
  {
    NoTarget(cat, st, false);
    NothingResolves(cat, st, |st.goals|, false);
    NothingWaits(cat, st, 0);
    assert Pass(cat, st) == Ok(Step(st, false));
    assert Evaluate(cat, st, ROUNDS) == Ok(st);
    assert Round(cat, st, ROUNDS) == Ok(st);
  }

  /** One pass changes the state, and then there is nothing to do. */
  lemma {:induction false} OnePassEnds(cat: Catalogue, st: Conversation, next: Conversation)
    requires Pushing(cat) && Quiet(cat, next) && Pass(cat, st) == Ok(Step(next, true)) && st.goals != next.goals
    requires forall i | 0 <= i < |st.goals| :: st.goals[i].status != RESOLVED
    ensures Finish(cat, st, ROUNDS) == Ok(next)
  {
    NothingReopens(cat, st, 0);
    Rests(cat, next, ROUNDS - 1);
    assert Evaluate(cat, st, ROUNDS) == Ok(next);
    NothingWaits(cat, next, 0);
    assert Round(cat, st, ROUNDS) == Ok(next);
    assert RoundsFrom(cat, st, ROUNDS, ROUNDS) == Ok(next);
    NothingToAsk(cat, next);
  }

  // ----- the first turn opens a case by its reference -----

  const CASE := CaseRecord(['s'], ['g', ':', '3'], 1)
  const FIRST := GoalRecord(G, Some(0), ACTIVE, None, None, None, false, false, 1, None, None)

  const OPEN_CASE := Said(NewGoal(G, Some(['g', ':', '3']), false, []))
  const ONE := Conversation(1, [CASE], [FIRST], [], None, [], [], {})

  lemma FirstTurn(cat: Catalogue)
    requires Pushing(cat)
    ensures Apply(cat, INITIAL, OPEN_CASE) == Ok(ONE)
  {
    var begun := Numbered(INITIAL);
    assert ContextGoal(begun.goals).None?;
    assert FindCase([], ['s'], ['g', ':', '3'], 0).None?;
    assert [] + [FIRST] == [FIRST] && [] + [CASE] == [CASE];
    assert Push(cat, begun, G, PLAIN.(caseRef := Some(['g', ':', '3']))) == Ok(ONE);
    assert RecordFor(cat, ONE, 0, []) == Ok(ONE);
    assert Take(cat, begun, OPEN_CASE.event) == Ok(ONE);
    NothingReopens(cat, ONE, 0);
    Rests(cat, ONE, ROUNDS);
    NothingToAsk(cat, ONE);
  }

  // ----- the second opens a goal without a case, and the relation its child -----

  function Fact(code: string, gi: nat, now: nat): FactRecord {
    FactRecord(code, None, Some(gi), Flag(true), USER_EXPLICIT, CONFIRMED, true, now, None, None, None, None, false, [])
  }

  function Input(code: string): FactInput {
    FactInput(code, Flag(true), None, None, false)
  }

  lemma FactIsRecorded(cat: Catalogue, goals: seq<GoalRecord>, facts: seq<FactRecord>, now: nat, gi: nat, code: string)
    requires Pushing(cat) && code in {X, Y} && gi < |goals|
    requires forall i | 0 <= i < |facts| :: facts[i].code != code
    ensures Record(cat, goals, facts, now, OwnerOf(goals, gi), Input(code), ASSERT, [])
         == Ok(facts + [Fact(code, gi, now)])
    ensures Live(cat, facts + [Fact(code, gi, now)], KeyFor(cat, code, OwnerOf(goals, gi))) == [|facts|]
  {
    var o := OwnerOf(goals, gi);
    var e := Entry(code, Flag(true), USER_EXPLICIT, CONFIRMED, false);
    assert Admitted(cat, Input(code), ASSERT) == Ok(e);
    NoneLive(cat, facts, KeyFor(cat, code, o));
    SoleLive(cat, facts + [Fact(code, gi, now)], KeyFor(cat, code, o), |facts|);
  }

  const SECOND := GoalRecord(A, None, ACTIVE, None, None, None, false, false, 2, None, None)
  const PARENT := SECOND.(status := SUSPENDED, reason := Some("SUBFLOW:" + K))
  const CHILD := GoalRecord(K, Some(1), ACTIVE, None, Some(1), None, false, false, 2, None, Some(['r']))
  const OTHER := CaseRecord(['t'], ['k', ':', '2'], 2)

  const OPEN_DEMAND := Said(NewGoal(A, None, false, [Input(X)]))

  const ASKED := Conversation(2, [CASE], [FIRST, SECOND], [Fact(X, 1, 2)], None, [], [], {})
  const TWO := Conversation(2, [CASE, OTHER], [FIRST, PARENT, CHILD], [Fact(X, 1, 2)], None, [], [], {})

  lemma SecondTakes(cat: Catalogue)
    requires Pushing(cat)
    ensures Take(cat, Numbered(ONE), OPEN_DEMAND.event) == Ok(ASKED)
    ensures Live(cat, ASKED.facts, KeyFor(cat, X, OwnerOf(ASKED.goals, 1))) == [0]
  {
    var begun := Numbered(ONE);
    var pushed := begun.(goals := [FIRST, SECOND]);
    assert [FIRST] + [SECOND] == [FIRST, SECOND];
    assert Push(cat, begun, A, PLAIN.(caseRef := None)) == Ok(pushed);
    FactIsRecorded(cat, pushed.goals, [], 2, 1, X);
    assert [] + [Fact(X, 1, 2)] == [Fact(X, 1, 2)];
    assert OPEN_DEMAND.event.facts[1..] == [];
    assert RecordFor(cat, ASKED, 1, []) == Ok(ASKED);
    assert RecordFor(cat, pushed, 1, OPEN_DEMAND.event.facts) == Ok(ASKED);
  }

  lemma ChildIsPushed(cat: Catalogue)
    requires Pushing(cat)
    ensures ApplyEffect(cat, ASKED, 1, PUSHES.effects[0], PUSHES.code) == Ok(Step(TWO, true))
  {
    assert Numeral(2) == ['2'];
    assert AutomaticRef(K, 2) == ['k', ':', '2'];
    assert FindCase([CASE], ['t'], ['k', ':', '2'], 0).None?;
    assert !AlreadyPushed(ASKED.goals, K, ['r'], None);
    var opts := PushOptions(Some(1), true, false, Some(['r']), None, None, None);
    assert ASKED.goals[1 := PARENT] == [FIRST, PARENT];
    assert [FIRST, PARENT] + [CHILD] == TWO.goals && [CASE] + [OTHER] == TWO.cases;
    assert Push(cat, ASKED, K, opts) == Ok(TWO);
  }

  lemma RelationFires(cat: Catalogue)
    requires Pushing(cat) && Live(cat, ASKED.facts, KeyFor(cat, X, OwnerOf(ASKED.goals, 1))) == [0]
    ensures RelationsFrom(cat, ASKED, 0, false) == Ok(Step(TWO, true))
  {
    var w := PUSHES.when.value;
    assert TargetsFrom(ASKED.goals, w, 2) == [] && TargetsFrom(ASKED.goals, w, 1) == [1];
    assert TargetsFrom(ASKED.goals, w, 0) == [1];
    assert ConditionHolds(cat, ASKED.facts, OwnerOf(ASKED.goals, 1), w.conditions[0]);
    ChildIsPushed(cat);
    assert PUSHES.effects[1..] == [];
    assert ApplyEffects(cat, TWO, 1, [], PUSHES.code, true) == Ok(Step(TWO, true));
    assert ApplyEffects(cat, ASKED, 1, PUSHES.effects, PUSHES.code, false) == Ok(Step(TWO, true));
    assert [1][1..] == [];
    assert ApplyTargets(cat, TWO, PUSHES, w, [], true) == Ok(Step(TWO, true));
    assert ApplyTargets(cat, ASKED, PUSHES, w, [1], false) == Ok(Step(TWO, true));
    assert RelationsFrom(cat, TWO, 1, true) == Ok(Step(TWO, true));
  }

  lemma TwoIsQuiet(cat: Catalogue)
    requires Pushing(cat)
    ensures Quiet(cat, TWO)
  {
    NoneLive(cat, TWO.facts, KeyFor(cat, Y, OwnerOf(TWO.goals, 2)));
  }

  lemma SecondTurn(cat: Catalogue)
    requires Pushing(cat)
    ensures Apply(cat, ONE, OPEN_DEMAND) == Ok(TWO)
  {
    SecondTakes(cat);
    SecondEnds(cat);
  }

  lemma SecondEnds(cat: Catalogue)
    requires Pushing(cat)
    ensures Finish(cat, ASKED, ROUNDS) == Ok(TWO)
  {
    SecondTakes(cat);
    RelationFires(cat);
    TwoIsQuiet(cat);
    NothingResolves(cat, TWO, |TWO.goals|, true);
    assert Pass(cat, ASKED) == Ok(Step(TWO, true));
    OnePassEnds(cat, ASKED, TWO);
  }

  // ----- the third answers for the child -----

  const ANSWER := Answer([Input(Y)])

  const TOLD := TWO.(seqNo := 3, facts := [Fact(X, 1, 2), Fact(Y, 2, 3)])
  const DONE := CHILD.(status := RESOLVED, closedAt := Some(3))
  const AGAIN := SECOND.(status := SUSPENDED, reason := Some("SUBFLOW:" + G))

  /** The goal that the relation pushes, in the case of the first. */
  const INTRUDER := GoalRecord(G, Some(0), ACTIVE, None, Some(1), None, false, true, 3, None, Some(['r']))
  const THREE := TOLD.(goals := [FIRST, AGAIN, DONE, INTRUDER])

  lemma ThirdTakes(cat: Catalogue)
    requires Pushing(cat)
    ensures ContextGoal(TWO.goals) == Some(2)
    ensures Take(cat, Numbered(TWO), ANSWER) == Ok(TOLD)
    ensures Live(cat, TOLD.facts, KeyFor(cat, Y, OwnerOf(TOLD.goals, 2))) == [1]
  {
    var begun := Numbered(TWO);
    assert LastWith(TWO.goals, ACTIVE, 3) == Some(2);
    assert Declares(GoalOf(cat, K), Y);
    assert OwnerGoal(cat, TWO.goals, Y, Some(2)) == Some(2);
    FactIsRecorded(cat, TWO.goals, TWO.facts, 3, 2, Y);
    assert TWO.facts + [Fact(Y, 2, 3)] == TOLD.facts;
    assert ANSWER.facts[1..] == [];
    assert RecordOwned(cat, TOLD, Some(2), [], ASSERT) == Ok(TOLD);
    assert RecordOwned(cat, begun, Some(2), ANSWER.facts, ASSERT) == Ok(TOLD);
  }

  lemma PushIntrudes(cat: Catalogue, st: Conversation)
    requires Pushing(cat) && st == TOLD.(goals := [FIRST, PARENT, DONE])
    ensures ApplyEffect(cat, st, 1, PUSHES.onChildResolved[0], PUSHES.code) == Ok(Step(THREE, true))
  {
    assert Numeral(3) == ['3'];
    assert AutomaticRef(G, 3) == ['g', ':', '3'];
    assert FindCase(st.cases, ['s'], ['g', ':', '3'], 0) == Some(0);
    assert !AlreadyPushed(st.goals, G, ['r'], None);
    var opts := PushOptions(Some(1), true, true, Some(['r']), None, None, None);
    assert st.goals[1 := AGAIN] == [FIRST, AGAIN, DONE];
    assert [FIRST, AGAIN, DONE] + [INTRUDER] == THREE.goals;
    assert Push(cat, st, G, opts) == Ok(THREE);
  }

  lemma ParentIsTold(cat: Catalogue, st: Conversation)
    requires Pushing(cat) && st == TOLD.(goals := [FIRST, PARENT, DONE])
    ensures Tell(cat, st, 2) == Ok(THREE)
  {
    PushIntrudes(cat, st);
    assert FindRelation(cat.relations, ['r']) == Some(PUSHES);
    assert PUSHES.onChildResolved[1..] == [];
    assert ApplyEffects(cat, THREE, 1, [], PUSHES.code, true) == Ok(Step(THREE, true));
    assert ApplyEffects(cat, st, 1, PUSHES.onChildResolved, PUSHES.code, false) == Ok(Step(THREE, true));
  }

  lemma ChildResolves(cat: Catalogue)
    requires Pushing(cat) && Live(cat, TOLD.facts, KeyFor(cat, Y, OwnerOf(TOLD.goals, 2))) == [1]
    ensures ResolveAt(cat, TOLD, 2) == Ok(Step(THREE, true))
  {
    ChildIsComplete(cat, TOLD, 2, 1);
    var closed := TOLD.(goals := [FIRST, PARENT, DONE]);
    assert TOLD.goals[2 := DONE] == closed.goals;
    assert MarkResolved(TOLD, 2) == closed;
    ParentIsTold(cat, closed);
    assert Resume(THREE.goals, 2) == THREE.goals;
  }

  lemma ThreeIsQuiet(cat: Catalogue)
    requires Pushing(cat)
    ensures Quiet(cat, THREE)
  {
  }

  lemma ThirdEnds(cat: Catalogue)
    requires Pushing(cat) && Live(cat, TOLD.facts, KeyFor(cat, Y, OwnerOf(TOLD.goals, 2))) == [1]
    ensures Finish(cat, TOLD, ROUNDS) == Ok(THREE)
  {
    NoTarget(cat, TOLD, false);
    ChildResolves(cat);
    ThreeIsQuiet(cat);
    NothingResolves(cat, THREE, 2, true);
    assert ResolveFrom(cat, TOLD, 3, false) == Ok(Step(THREE, true));
    assert Pass(cat, TOLD) == Ok(Step(THREE, true));
    OnePassEnds(cat, TOLD, THREE);
  }

  lemma ThirdTurn(cat: Catalogue)
    requires Pushing(cat)
    ensures Apply(cat, TWO, Said(ANSWER)) == Ok(THREE)
  {
    ThirdTakes(cat);
    ThirdEnds(cat);
  }

  lemma TwoTurns(cat: Catalogue)
    requires Pushing(cat)
    ensures Run(cat, [OPEN_CASE, OPEN_DEMAND]) == TWO
  {
    FirstTurn(cat);
    SecondTurn(cat);
    assert Run(cat, []) == INITIAL;
    RunStep(cat, [], OPEN_CASE);
    assert [] + [OPEN_CASE] == [OPEN_CASE];
    RunStep(cat, [OPEN_CASE], OPEN_DEMAND);
    assert [OPEN_CASE] + [OPEN_DEMAND] == [OPEN_CASE, OPEN_DEMAND];
  }

  /**
   * Every hypothesis of isolation holds but that on references, the goal in context has a case of
   * its own, and still another case is touched.
   */
  lemma CaseIsTakenOver() returns (cat: Catalogue, rank: map<string, nat>, turns: seq<Turn>, e: Event, d: nat)
    ensures Valid(cat) && Ranked(cat, rank) && NoBroadcast(cat)
    ensures var st := Run(cat, turns);
      && Spoken(e).Some? && NotOfConversation(cat, Spoken(e).value.0)
      && ContextGoal(st.goals).Some? && !InCase(st.goals, d, ContextGoal(st.goals).value)
      && st.goals[ContextGoal(st.goals).value].caseId.Some?
      && Apply(cat, st, Said(e)).Ok?
      && !RefFree(cat, d, Numbered(st))
      && !Untouched(cat, d, st, Apply(cat, st, Said(e)).value)
  {
    PushingIsValid();
    cat, rank, turns, e, d := PUSHING, map[X := 0, Y := 0], [OPEN_CASE, OPEN_DEMAND], ANSWER, 0;
    TwoTurns(cat);
    ThirdTakes(cat);
    ThirdTurn(cat);
    assert GoalIn(0, TWO.goals, 3) != GoalIn(0, THREE.goals, 3);
    if RefFree(cat, d, Numbered(TWO)) {
      CasesAreIsolated(cat, rank, turns, e, d);
    }
  }
}
