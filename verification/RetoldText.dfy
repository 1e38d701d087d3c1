/** A run whose signal confirms nothing: it repeats a text that the citizen told before. */
module RetoldText {
  import opened Basics
  import opened Catalog
  import opened State
  import opened Recording
  import opened Goals
  import opened Reducer
  import opened Examples
  import opened Refusals

  const RETELL := Signal(None, [TextInput(['a'])])

  lemma RetellingIsAllowed(goals: seq<GoalRecord>)
    requires goals == [GRAVE]
    ensures !Ambiguous(TEXTS, goals, X) && OwnerGoal(TEXTS, goals, X, None) == Some(0)
    ensures Declares(GoalOf(TEXTS, G), X)
  {
    GoalsAre();
    assert Candidates(TEXTS, goals, X, 1) == [];
    assert Candidates(TEXTS, goals, X, 0) == [0];
    assert DeclaringGoal(TEXTS, goals, X, None, 1) == Some(0);
  }

  lemma RetoldIsKnown()
    ensures var input := TextInput(['a']).(source := Some(SYSTEM), authoritative := true);
            Record(TEXTS, [GRAVE], ONE.facts, 2, OwnerOf([GRAVE], 0), input, SUPERSEDE, []) == Ok(ONE.facts)
  {
    var o := OwnerOf([GRAVE], 0);
    assert FactOf(TEXTS, X) == TEXT_DEF;
    assert IsLive(TEXTS, ONE.facts[0], KeyFor(TEXTS, X, o));
    var live := Live(TEXTS, ONE.facts, KeyFor(TEXTS, X, o));
    assert 0 in live;
    assert WithValue(ONE.facts, live, Text(['a'])).Some?;
  }

  /** From a reachable state, a signal that repeats a text leaves the record what it was: a claim without authority. */
  lemma RetoldTextStaysAClaim() returns (
      cat: Catalogue, rank: map<string, nat>, turns: seq<Turn>, inputs: seq<FactInput>, next: Conversation)
    ensures Valid(cat) && Ranked(cat, rank) && Apply(cat, Run(cat, turns), Signal(None, inputs)) == Ok(next)
    ensures |inputs| == 1 && next.facts == Run(cat, turns).facts
    ensures exists f <- next.facts :: f.active && f.code == inputs[0].code && f.value == inputs[0].value
    ensures forall f <- next.facts :: !f.authoritative
  {
    cat, rank, turns, inputs, next := TEXTS, map[X := 0], [OPEN_GRAVE], [TextInput(['a'])], Numbered(ONE);
    TextsAreValid();
    GraveOpens();
    RetellingIsAllowed(ONE.goals);
    RetoldIsKnown();
    assert SignalOne(TEXTS, next, None, inputs[0]) == Ok(next);
    assert inputs[1..] == [];
    assert SignalFrom(TEXTS, next, None, []) == Ok(next);
    assert SignalFrom(TEXTS, next, None, inputs) == Ok(next);
    CalmEnds(next);
    assert ONE.facts[0] in next.facts;
  }
}
