/** What the inputs of an event leave behind when the turn ends. */
module Inputs {
  import opened Basics
  import opened Catalog
  import opened State
  import opened Recording
  import opened Effects
  import opened FactInvariants
  import opened Goals
  import opened Reducer
  import opened Moves
  import opened Runs

  /** Who an input about code is recorded for, in an event without a goal of its own. */
  function OwnerOfInput(cat: Catalogue, goals: seq<GoalRecord>, code: string): Owner {
    OwnerFor(goals, OwnerGoal(cat, goals, code, ContextGoal(goals)))
  }

  function KeyOfInput(cat: Catalogue, goals: seq<GoalRecord>, code: string): Key {
    KeyFor(cat, code, OwnerOfInput(cat, goals, code))
  }

  /** No live fact of the key has the value. */
  predicate NewValue(cat: Catalogue, facts: seq<FactRecord>, key: Key, v: Value) {
    forall i: nat | i < |facts| && IsLive(cat, facts[i], key) :: facts[i].value != v
  }

  /** The facts of the first input, and the state in which the others are recorded. */
  lemma FirstRecorded(cat: Catalogue, rank: map<string, nat>, st: Conversation, inputs: seq<FactInput>, mode: Mode)
    returns (e: Entry, next: Conversation)
    requires Valid(cat) && Ranked(cat, rank) && FactsOk(cat, rank, st.facts, st.seqNo)
    requires inputs != [] && RecordOwned(cat, st, ContextGoal(st.goals), inputs, mode).Ok?
    ensures Admitted(cat, inputs[0], mode) == Ok(e) && Fit(cat, e) && e.code in rank
    ensures e.code == inputs[0].code && e.value == inputs[0].value && e.authoritative == inputs[0].authoritative
    ensures next == st.(facts := Insert(
              cat, st.goals, st.facts, st.seqNo, OwnerOfInput(cat, st.goals, e.code), e, mode, []))
    ensures FactsOk(cat, rank, next.facts, next.seqNo) && History(st.facts, next.facts)
    ensures RecordOwned(cat, st, ContextGoal(st.goals), inputs, mode)
         == RecordOwned(cat, next, ContextGoal(st.goals), inputs[1..], mode)
  {
    var o := OwnerOfInput(cat, st.goals, inputs[0].code);
    var facts := Record(cat, st.goals, st.facts, st.seqNo, o, inputs[0], mode, []);
    AdmittedFit(cat, inputs[0], mode);
    e := Admitted(cat, inputs[0], mode).value;
    next := st.(facts := facts.value);
    InsertKeepsFacts(cat, rank, st.goals, st.facts, st.seqNo, o, e, mode, []);
  }

  /** The state in which input j and those after it are recorded. */
  lemma {:induction false} Reached(
    cat: Catalogue, rank: map<string, nat>, st: Conversation, inputs: seq<FactInput>, mode: Mode, j: nat)
    returns (mid: Conversation)
    requires Valid(cat) && Ranked(cat, rank) && FactsOk(cat, rank, st.facts, st.seqNo)
    requires j <= |inputs| && RecordOwned(cat, st, ContextGoal(st.goals), inputs, mode).Ok?
    ensures mid == st.(facts := mid.facts)
    ensures FactsOk(cat, rank, mid.facts, mid.seqNo) && History(st.facts, mid.facts)
    ensures RecordOwned(cat, st, ContextGoal(st.goals), inputs, mode)
         == RecordOwned(cat, mid, ContextGoal(st.goals), inputs[j..], mode)
    decreases j
  {
    if j == 0 {
      mid := st;
      HistoryRefl(st.facts);
      assert inputs[0..] == inputs;
    } else {
      var _, next := FirstRecorded(cat, rank, st, inputs, mode);
      mid := Reached(cat, rank, next, inputs[1..], mode, j - 1);
      HistoryChain(st.facts, next.facts, mid.facts);
      assert inputs[1..][j - 1..] == inputs[j..];
    }
  }

  /** Recording a list only adds to the history of the facts. */
  lemma {:induction false} RecordingKeepsHistory(
    cat: Catalogue, rank: map<string, nat>, st: Conversation, inputs: seq<FactInput>, mode: Mode)
    requires Valid(cat) && Ranked(cat, rank) && FactsOk(cat, rank, st.facts, st.seqNo)
    requires RecordOwned(cat, st, ContextGoal(st.goals), inputs, mode).Ok?
    ensures var r := RecordOwned(cat, st, ContextGoal(st.goals), inputs, mode).value;
      FactsOk(cat, rank, r.facts, r.seqNo) && History(st.facts, r.facts)
    decreases |inputs|
  {
    if inputs == [] {
      HistoryRefl(st.facts);
    } else {
      var _, next := FirstRecorded(cat, rank, st, inputs, mode);
      RecordingKeepsHistory(cat, rank, next, inputs[1..], mode);
      HistoryChain(st.facts, next.facts, RecordOwned(cat, next, ContextGoal(st.goals), inputs[1..], mode).value.facts);
    }
  }

  /** Settling, too, only adds to the history of the facts. */
  lemma SettlingKeepsHistory(cat: Catalogue, rank: map<string, nat>, st: Conversation, limit: nat)
    requires Valid(cat) && Ranked(cat, rank) && FactsOk(cat, rank, st.facts, st.seqNo)
    requires Finish(cat, st, limit).Ok?
    ensures History(st.facts, Finish(cat, st, limit).value.facts)
  {
    var H := (s: Conversation) => FactsOk(cat, rank, s.facts, s.seqNo) && History(st.facts, s.facts);
    forall a, b {:trigger Settling(cat, rank, a, b)} | H(a) && Settling(cat, rank, a, b)
      ensures H(b)
    {
      MoveKeepsFacts(cat, rank, a, b);
      HistoryChain(st.facts, a.facts, b.facts);
    }
    HistoryRefl(st.facts);
    FinishMoves(cat, rank, H, st, limit);
  }

  lemma TurnTakes(cat: Catalogue, st: Conversation, e: Event, next: Conversation) returns (taken: Conversation)
    requires Settles(e) && Apply(cat, st, Said(e)) == Ok(next)
    ensures Take(cat, Numbered(st), e) == Ok(taken) && Finish(cat, taken, ROUNDS) == Ok(next)
  {
    taken := Take(cat, Numbered(st), e).value;
  }

  /** What is gone once the event is taken in is gone at the end of the turn, as it is. */
  lemma {:induction false} GoneStays(
    cat: Catalogue, rank: map<string, nat>, taken: Conversation, next: Conversation, n: nat)
    requires Valid(cat) && Ranked(cat, rank) && FactsOk(cat, rank, taken.facts, taken.seqNo)
    requires Finish(cat, taken, ROUNDS) == Ok(next)
    requires n < |taken.facts| && !taken.facts[n].active
    ensures n < |next.facts| && next.facts[n] == taken.facts[n]
  {
    SettlingKeepsHistory(cat, rank, taken, ROUNDS);
    assert Evolved(taken.facts[n], next.facts[n]);
  }
}
