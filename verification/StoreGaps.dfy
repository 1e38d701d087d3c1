/**
 Turns that the store refuses. Some leave a difference the operations cannot express: the other
 code of a reclassified goal, the end of a fact in the very turn that recorded it, its last rating
 in the turn that superseded it, a closing time that the status alone does not tell. Others reach
 a state that the tables do not admit.
 */
module StoreGaps {
  import opened Basics
  import opened Catalog
  import opened State
  import opened Recording
  import opened Effects
  import opened Insertion
  import opened FactInvariants
  import opened Disputes
  import opened Inputs
  import opened Examples
  import opened Goals
  import opened Reducer
  import opened Moves
  import opened Runs
  import opened TurnReplay
  import P = Persistence
  import T = Tables
  import V = Replay

  /** The store as it is before the turn that follows st. */
  ghost predicate Ready(s: P.Store, st: Conversation, subject: string -> string) {
    V.Shows(s, st, subject) && V.NotAfter(s, st.seqNo) && P.Guarded(s)
  }

  /** No store that shows st commits the turn that leads to next. */
  ghost predicate Refused(st: Conversation, next: Conversation, subject: string -> string) {
    forall s, covered | Ready(s, st, subject) :: V.Commit(s, P.Call(next.seqNo, covered), st, next, subject).Err?
  }

  lemma {:induction false} RunContinues(
    cat: Catalogue, rank: map<string, nat>, turns: seq<Turn>, t: Turn, st: Conversation, next: Conversation)
    requires Valid(cat) && Ranked(cat, rank) && st == Run(cat, turns) && Apply(cat, st, t) == Ok(next)
    ensures V.Continues(st, next, next.seqNo) && FactsOk(cat, rank, st.facts, st.seqNo)
  {
    RunsAreStorable(cat, rank, turns);
    TurnContinues(cat, rank, st, t, next);
  }

  /** Some store shows st. */
  ghost predicate Stands(st: Conversation, subject: string -> string) {
    exists s :: Ready(s, st, subject)
  }

  lemma InitialStands(subject: string -> string)
    ensures Stands(INITIAL, subject)
  {
    assert Ready(EMPTY, INITIAL, subject);
  }

  /** What is committed is shown by a store. */
  lemma {:induction false} NextStands(
    cat: Catalogue, rank: map<string, nat>, turns: seq<Turn>, t: Turn, st: Conversation, next: Conversation,
    covered: Option<set<string>>, subject: string -> string)
    requires Valid(cat) && Ranked(cat, rank) && st == Run(cat, turns) && Apply(cat, st, t) == Ok(next)
    requires Stands(st, subject) && |st.goals| <= |next.goals| && |st.facts| <= |next.facts|
    requires T.Acceptable(st, next, subject, covered) && V.Expressible(st, next, next.seqNo)
    ensures Stands(next, subject)
  {
    assert V.Continues(st, next, next.seqNo) by {
      RunContinues(cat, rank, turns, t, st, next);
    }
    var s :| Ready(s, st, subject);
    V.CommitsExactly(s, P.Call(next.seqNo, covered), st, next, subject);
    assert Ready(V.Commit(s, P.Call(next.seqNo, covered), st, next, subject).value, next, subject);
  }

  lemma UnexpressedIsRefused(st: Conversation, next: Conversation, subject: string -> string)
    requires V.Continues(st, next, next.seqNo) && !V.Expressible(st, next, next.seqNo)
    ensures Refused(st, next, subject)
  {
    forall s, covered | Ready(s, st, subject)
      ensures V.Commit(s, P.Call(next.seqNo, covered), st, next, subject).Err?
    {
      V.CommitsExactly(s, P.Call(next.seqNo, covered), st, next, subject);
    }
  }

  // ----- codes -----

  ghost predicate CodesSince(codes: seq<GoalRecord>, s: Conversation) {
    |codes| <= |s.goals| && forall i | 0 <= i < |codes| :: s.goals[i].code == codes[i].code
  }

  lemma CodesAreSteady(cat: Catalogue, rank: map<string, nat>, codes: seq<GoalRecord>)
    ensures Steady(cat, rank, (s: Conversation) => CodesSince(codes, s))
  {
    var H := (s: Conversation) => CodesSince(codes, s);
    forall a, b {:trigger Settling(cat, rank, a, b)} | H(a) && Settling(cat, rank, a, b)
      ensures H(b)
    {
      forall i | 0 <= i < |codes|
        ensures b.goals[i].code == codes[i].code
      {
        assert b.goals[i].code == a.goals[i].code;
      }
    }
  }

  /** Every other turn leaves the codes of all goals as they were. */
  lemma OtherTurnsKeepCodes(cat: Catalogue, rank: map<string, nat>, st: Conversation, t: Turn)
    requires Valid(cat) && Ranked(cat, rank) && !Recodes(t) && Apply(cat, st, t).Ok?
    ensures CodesSince(st.goals, Apply(cat, st, t).value)
  {
    CodesAreSteady(cat, rank, st.goals);
    TurnMoves(cat, rank, (s: Conversation) => CodesSince(st.goals, s), st, t);
  }

  /** The goal that a reclassification is about: the one in context, else the latest demand. */
  function Demand(goals: seq<GoalRecord>): Option<nat> {
    if ContextGoal(goals).Some? then ContextGoal(goals) else LastDemand(goals, |goals|)
  }

  lemma FinishKeepsCodes(cat: Catalogue, rank: map<string, nat>, st: Conversation, limit: nat)
    requires Valid(cat) && Ranked(cat, rank) && Finish(cat, st, limit).Ok?
    ensures CodesSince(st.goals, Finish(cat, st, limit).value)
  {
    CodesAreSteady(cat, rank, st.goals);
    FinishMoves(cat, rank, (s: Conversation) => CodesSince(st.goals, s), st, limit);
  }

  lemma ReclassificationTakes(cat: Catalogue, st: Conversation, code: string, limit: nat)
    requires Say(cat, st, Reclassification(code), limit).Ok?
    ensures var d := Demand(st.goals);
      && d.Some? && d.value < |st.goals|
      && var goals := st.goals[d.value := Reclassified(cat, st.goals[d.value], code)];
         Say(cat, st, Reclassification(code), limit) == Finish(cat, st.(goals := goals), limit)
  {
    assert Take(cat, st, Reclassification(code)) == OnReclassification(cat, st, ContextGoal(st.goals), code);
  }

  /** A reclassification gives its goal the new code, to the end of the turn, and no other goal another. */
  lemma ReclassificationRecodes(cat: Catalogue, rank: map<string, nat>, st: Conversation, code: string)
    requires Valid(cat) && Ranked(cat, rank) && Apply(cat, st, Said(Reclassification(code))).Ok?
    ensures var d := Demand(st.goals);
      && d.Some? && d.value < |st.goals|
      && CodesSince(st.goals[d.value := st.goals[d.value].(code := code)],
          Apply(cat, st, Said(Reclassification(code))).value)
  {
    var begun := Numbered(st);
    ReclassificationTakes(cat, begun, code, ROUNDS);
    var d := Demand(st.goals).value;
    var goals := st.goals[d := Reclassified(cat, st.goals[d], code)];
    FinishKeepsCodes(cat, rank, begun.(goals := goals), ROUNDS);
  }

  /** What a turn does to codes can be replayed exactly when it does not give a goal another code. */
  lemma CodesReplayExactly(cat: Catalogue, rank: map<string, nat>, st: Conversation, t: Turn)
    requires Valid(cat) && Ranked(cat, rank) && Apply(cat, st, t).Ok?
    ensures CodesSince(st.goals, Apply(cat, st, t).value)
      <==> (Recodes(t) ==> var d := Demand(st.goals);
              d.Some? && d.value < |st.goals| && st.goals[d.value].code == t.event.goalCode)
  {
    if Recodes(t) {
      ReclassificationRecodes(cat, rank, st, t.event.goalCode);
    } else {
      OtherTurnsKeepCodes(cat, rank, st, t);
    }
  }

  /** A reclassification to another code is never committed: when its operations are taken at all, the table
      keeps the code it had. */
  lemma {:induction false} ReclassificationIsRefused(
    cat: Catalogue, rank: map<string, nat>, turns: seq<Turn>, code: string, st: Conversation, next: Conversation,
    subject: string -> string)
    requires Valid(cat) && Ranked(cat, rank) && st == Run(cat, turns)
    requires Apply(cat, st, Said(Reclassification(code))) == Ok(next)
    requires Demand(st.goals).Some? && Demand(st.goals).value < |st.goals|
    requires st.goals[Demand(st.goals).value].code != code
    ensures Refused(st, next, subject)
    ensures var d := Demand(st.goals).value;
      && d < |next.goals| && next.goals[d].code == code
      && T.MovedRows(st, next, next.seqNo)[d].code == st.goals[d].code
  {
    RunContinues(cat, rank, turns, Said(Reclassification(code)), st, next);
    ReclassificationRecodes(cat, rank, st, code);
    assert !V.GoalExpressed(st, next, next.seqNo, Demand(st.goals).value);
    UnexpressedIsRefused(st, next, subject);
  }

  // ----- facts -----

  /** A correction takes every live fact of another value away, at the rating it had or as disputed. */
  lemma CorrectionTakesAway(
    cat: Catalogue, rank: map<string, nat>, goals: seq<GoalRecord>, a: seq<FactRecord>, now: nat,
    o: Owner, e: Entry, i: nat)
    requires Ranked(cat, rank) && FactsOk(cat, rank, a, now) && !FactOf(cat, e.code).repeatable
    requires i < |a| && IsLive(cat, a[i], KeyFor(cat, e.code, o)) && a[i].value != e.value
    ensures var b := Insert(cat, goals, a, now, o, e, SUPERSEDE, []);
      && i < |b| && !b[i].active
      && (b[i].confidence == a[i].confidence || b[i].confidence == CONFLICTING)
  {
    InsertFates(cat, rank, goals, a, now, o, e, SUPERSEDE, []);
    var b := Insert(cat, goals, a, now, o, e, SUPERSEDE, []);
    var key := KeyFor(cat, e.code, o);
    var n: nat :| n < |b| && IsLive(cat, b[n], key) && b[n].value == e.value
      && forall j | 0 <= j < |b| && IsLive(cat, b[j], key) :: j == n;
    assert Fate(cat, rank, a, b, now, o, e, i);
  }

  /** A fact that is of the key of input j, at another value, is gone when a correction with that input ends. */
  lemma {:induction false} CorrectionsTakeAway(
    cat: Catalogue, rank: map<string, nat>, st: Conversation, inputs: seq<FactInput>, j: nat, n: nat,
    last: Conversation)
    requires Valid(cat) && Ranked(cat, rank) && FactsOk(cat, rank, st.facts, st.seqNo)
    requires RecordOwned(cat, st, ContextGoal(st.goals), inputs, SUPERSEDE) == Ok(last)
    requires j < |inputs| && !FactOf(cat, inputs[j].code).repeatable
    requires n < |st.facts| && st.facts[n].value != inputs[j].value
    requires KeyOf(cat, st.facts[n]) == KeyOfInput(cat, st.goals, inputs[j].code)
    ensures n < |last.facts| && !last.facts[n].active
  {
    var mid := Reached(cat, rank, st, inputs, SUPERSEDE, j);
    assert Evolved(st.facts[n], mid.facts[n]);
    FirstTakesAway(cat, rank, mid, inputs[j..], n, last);
  }

  lemma {:induction false} FirstTakesAway(
    cat: Catalogue, rank: map<string, nat>, st: Conversation, inputs: seq<FactInput>, n: nat, last: Conversation)
    requires Valid(cat) && Ranked(cat, rank) && FactsOk(cat, rank, st.facts, st.seqNo)
    requires RecordOwned(cat, st, ContextGoal(st.goals), inputs, SUPERSEDE) == Ok(last)
    requires inputs != [] && !FactOf(cat, inputs[0].code).repeatable
    requires n < |st.facts| && st.facts[n].value != inputs[0].value
    requires KeyOf(cat, st.facts[n]) == KeyOfInput(cat, st.goals, inputs[0].code)
    ensures n < |last.facts| && !last.facts[n].active
  {
    var e, next := FirstRecorded(cat, rank, st, inputs, SUPERSEDE);
    InputTakesAway(cat, rank, st, e, n);
    RecordingKeepsHistory(cat, rank, next, inputs[1..], SUPERSEDE);
    assert Evolved(next.facts[n], last.facts[n]);
  }

  lemma InputTakesAway(cat: Catalogue, rank: map<string, nat>, st: Conversation, e: Entry, n: nat)
    requires Ranked(cat, rank) && FactsOk(cat, rank, st.facts, st.seqNo) && !FactOf(cat, e.code).repeatable
    requires n < |st.facts| && st.facts[n].value != e.value
    requires KeyOf(cat, st.facts[n]) == KeyOfInput(cat, st.goals, e.code)
    ensures var b := Insert(
              cat, st.goals, st.facts, st.seqNo, OwnerOfInput(cat, st.goals, e.code), e, SUPERSEDE, []);
      n < |b| && !b[n].active
  {
    var o := OwnerOfInput(cat, st.goals, e.code);
    if st.facts[n].active {
      CorrectionTakesAway(cat, rank, st.goals, st.facts, st.seqNo, o, e, n);
    } else {
      InsertFates(cat, rank, st.goals, st.facts, st.seqNo, o, e, SUPERSEDE, []);
      var b := Insert(cat, st.goals, st.facts, st.seqNo, o, e, SUPERSEDE, []);
      assert Fate(cat, rank, st.facts, b, st.seqNo, o, e, n);
    }
  }

  /**
   * A correction whose first input brings a new value and a later one another value of the same
   * code is never committed: the fact of the first is superseded at the end of the turn, and would
   * be active in the table.
   */
  lemma {:induction false} CorrectedAtOnceIsRefused(
    cat: Catalogue, rank: map<string, nat>, turns: seq<Turn>, inputs: seq<FactInput>, j: nat,
    st: Conversation, next: Conversation, subject: string -> string)
    requires Valid(cat) && Ranked(cat, rank) && st == Run(cat, turns)
    requires Apply(cat, st, Said(Correction(inputs))) == Ok(next)
    requires 0 < j < |inputs| && inputs[j].code == inputs[0].code && inputs[j].value != inputs[0].value
    requires !FactOf(cat, inputs[0].code).repeatable
    requires NewValue(cat, st.facts, KeyOfInput(cat, st.goals, inputs[0].code), inputs[0].value)
    ensures Refused(st, next, subject)
    ensures var n := |st.facts|;
      n < |next.facts| && !next.facts[n].active && T.RecordedRows(st, next, next.seqNo)[n].active
  {
    RunContinues(cat, rank, turns, Said(Correction(inputs)), st, next);
    CorrectionEnds(cat, rank, st, inputs, j, next);
    assert !V.FactExpressed(st, next, |st.facts|);
    UnexpressedIsRefused(st, next, subject);
  }

  lemma {:induction false} CorrectionEnds(
    cat: Catalogue, rank: map<string, nat>, st: Conversation, inputs: seq<FactInput>, j: nat, next: Conversation)
    requires Valid(cat) && Ranked(cat, rank) && FactsOk(cat, rank, st.facts, st.seqNo)
    requires Apply(cat, st, Said(Correction(inputs))) == Ok(next)
    requires 0 < j < |inputs| && inputs[j].code == inputs[0].code && inputs[j].value != inputs[0].value
    requires !FactOf(cat, inputs[0].code).repeatable
    requires NewValue(cat, st.facts, KeyOfInput(cat, st.goals, inputs[0].code), inputs[0].value)
    ensures |st.facts| < |next.facts| && !next.facts[|st.facts|].active
  {
    LaterOk(cat, rank, st.facts, st.seqNo);
    var told := TurnTakes(cat, st, Correction(inputs), next);
    CorrectionTold(cat, rank, Numbered(st), inputs, j, told);
    GoneStays(cat, rank, told, next, |st.facts|);
  }

  lemma {:induction false} CorrectionTold(
    cat: Catalogue, rank: map<string, nat>, st: Conversation, inputs: seq<FactInput>, j: nat, told: Conversation)
    requires Valid(cat) && Ranked(cat, rank) && FactsOk(cat, rank, st.facts, st.seqNo)
    requires Take(cat, st, Correction(inputs)) == Ok(told)
    requires 0 < j < |inputs| && inputs[j].code == inputs[0].code && inputs[j].value != inputs[0].value
    requires !FactOf(cat, inputs[0].code).repeatable
    requires NewValue(cat, st.facts, KeyOfInput(cat, st.goals, inputs[0].code), inputs[0].value)
    ensures FactsOk(cat, rank, told.facts, told.seqNo)
    ensures |st.facts| < |told.facts| && !told.facts[|st.facts|].active
  {
    CorrectionRecords(cat, st, inputs, 0);
    CorrectionRecords(cat, st, inputs, j);
    CorrectedAtOnce(cat, rank, st, Sourced(inputs, USER_CORRECTION), j, told);
  }

  lemma CorrectionRecords(cat: Catalogue, st: Conversation, inputs: seq<FactInput>, i: nat)
    requires i < |inputs|
    ensures var list := Sourced(inputs, USER_CORRECTION);
      && |list| == |inputs| && list[i].code == inputs[i].code && list[i].value == inputs[i].value
      && Take(cat, st, Correction(inputs)) == RecordOwned(cat, st, ContextGoal(st.goals), list, SUPERSEDE)
  {
  }

  lemma {:induction false} CorrectedAtOnce(
    cat: Catalogue, rank: map<string, nat>, st: Conversation, inputs: seq<FactInput>, j: nat, told: Conversation)
    requires Valid(cat) && Ranked(cat, rank) && FactsOk(cat, rank, st.facts, st.seqNo)
    requires RecordOwned(cat, st, ContextGoal(st.goals), inputs, SUPERSEDE) == Ok(told)
    requires 0 < j < |inputs| && inputs[j].code == inputs[0].code && inputs[j].value != inputs[0].value
    requires !FactOf(cat, inputs[0].code).repeatable
    requires NewValue(cat, st.facts, KeyOfInput(cat, st.goals, inputs[0].code), inputs[0].value)
    ensures FactsOk(cat, rank, told.facts, told.seqNo)
    ensures |st.facts| < |told.facts| && !told.facts[|st.facts|].active
  {
    var e, next := FirstRecorded(cat, rank, st, inputs, SUPERSEDE);
    var o := OwnerOfInput(cat, st.goals, e.code);
    NewValueIsAdded(cat, rank, st.goals, st.facts, st.seqNo, o, e, SUPERSEDE);
    CorrectionsTakeAway(cat, rank, next, inputs[1..], j - 1, |st.facts|, told);
    RecordingKeepsHistory(cat, rank, st, inputs, SUPERSEDE);
  }

  lemma NewValueIsAdded(
    cat: Catalogue, rank: map<string, nat>, goals: seq<GoalRecord>, a: seq<FactRecord>, now: nat,
    o: Owner, e: Entry, mode: Mode)
    requires Ranked(cat, rank) && FactsOk(cat, rank, a, now)
    requires NewValue(cat, a, KeyFor(cat, e.code, o), e.value)
    ensures var b := Insert(cat, goals, a, now, o, e, mode, []);
      && |b| == |a| + 1 && b[|a|].active && b[|a|].value == e.value
      && KeyOf(cat, b[|a|]) == KeyFor(cat, e.code, o)
  {
    NotAmongLive(cat, a, KeyFor(cat, e.code, o), e.value);
    RecordIsAppended(cat, rank, goals, a, now, o, e, mode);
    NewFactKey(cat, o, e, now, []);
  }

  lemma NotAmongLive(cat: Catalogue, a: seq<FactRecord>, key: Key, v: Value)
    requires NewValue(cat, a, key, v)
    ensures WithValue(a, Live(cat, a, key), v).None?
  {
  }

  lemma InsertIsLonger(
    cat: Catalogue, goals: seq<GoalRecord>, a: seq<FactRecord>, now: nat, o: Owner, e: Entry, mode: Mode)
    requires WithValue(a, Live(cat, a, KeyFor(cat, e.code, o)), e.value).None?
    ensures |Insert(cat, goals, a, now, o, e, mode, [])| == |a| + 1
  {
  }

  lemma InsertedIsAppended(
    cat: Catalogue, rank: map<string, nat>, goals: seq<GoalRecord>, a: seq<FactRecord>, b: seq<FactRecord>, now: nat,
    o: Owner, e: Entry, mode: Mode)
    requires Inserted(cat, rank, goals, a, b, now, o, e, mode, []) && |b| == |a| + 1
    ensures Appended(cat, a, b, now, o, e, [])
  {
  }

  lemma RecordIsAppended(
    cat: Catalogue, rank: map<string, nat>, goals: seq<GoalRecord>, a: seq<FactRecord>, now: nat,
    o: Owner, e: Entry, mode: Mode)
    requires Ranked(cat, rank) && FactsOk(cat, rank, a, now)
    requires WithValue(a, Live(cat, a, KeyFor(cat, e.code, o)), e.value).None?
    ensures var b := Insert(cat, goals, a, now, o, e, mode, []);
      |b| == |a| + 1 && Appended(cat, a, b, now, o, e, [])
  {
    InsertFates(cat, rank, goals, a, now, o, e, mode, []);
    InsertIsLonger(cat, goals, a, now, o, e, mode);
    InsertedIsAppended(cat, rank, goals, a, Insert(cat, goals, a, now, o, e, mode, []), now, o, e, mode);
  }

  /**
   * An answer that contradicts a confirmed fact and goes on with a third value is never committed:
   * the fact is disputed and superseded in one turn, and the table would keep the rating it had.
   */
  lemma {:induction false} DisputedAndReplacedIsRefused(
    cat: Catalogue, rank: map<string, nat>, turns: seq<Turn>, inputs: seq<FactInput>, inc: nat,
    st: Conversation, next: Conversation, subject: string -> string)
    requires Valid(cat) && Ranked(cat, rank) && st == Run(cat, turns)
    requires Apply(cat, st, Said(Answer(inputs))) == Ok(next)
    requires |inputs| >= 2 && inputs[1].code == inputs[0].code && inputs[1].value != inputs[0].value
    requires !FactOf(cat, inputs[0].code).repeatable && Doubted(cat, st, inputs[0], inputs[1], inc)
    ensures Refused(st, next, subject)
    ensures inc < |st.facts| <= |next.facts| && !next.facts[inc].active && next.facts[inc].confidence == CONFLICTING
    ensures T.RecordedRows(st, next, next.seqNo)[inc].confidence == CONFIRMED
  {
    RunContinues(cat, rank, turns, Said(Answer(inputs)), st, next);
    AnswerEnds(cat, rank, st, inputs, inc, next);
    IncumbentIsLive(cat, st.facts, KeyOfInput(cat, st.goals, inputs[0].code), inc);
    assert !V.FactExpressed(st, next, inc);
    UnexpressedIsRefused(st, next, subject);
  }

  /** The first live fact of the key is confirmed, and neither value is one that is live. */
  predicate Doubted(cat: Catalogue, st: Conversation, x: FactInput, y: FactInput, inc: nat) {
    var key := KeyOfInput(cat, st.goals, x.code);
    && Live(cat, st.facts, key) != [] && Live(cat, st.facts, key)[0] == inc
    && inc < |st.facts| && st.facts[inc].confidence == CONFIRMED
    && NewValue(cat, st.facts, key, x.value) && NewValue(cat, st.facts, key, y.value)
  }

  lemma {:induction false} AnswerEnds(
    cat: Catalogue, rank: map<string, nat>, st: Conversation, inputs: seq<FactInput>, inc: nat, next: Conversation)
    requires Valid(cat) && Ranked(cat, rank) && FactsOk(cat, rank, st.facts, st.seqNo)
    requires Apply(cat, st, Said(Answer(inputs))) == Ok(next)
    requires |inputs| >= 2 && inputs[1].code == inputs[0].code && inputs[1].value != inputs[0].value
    requires !FactOf(cat, inputs[0].code).repeatable && Doubted(cat, st, inputs[0], inputs[1], inc)
    ensures inc < |next.facts| && !next.facts[inc].active && next.facts[inc].confidence == CONFLICTING
  {
    LaterOk(cat, rank, st.facts, st.seqNo);
    var told := TurnTakes(cat, st, Answer(inputs), next);
    DisputedAndReplaced(cat, rank, Numbered(st), inputs, inc, told);
    GoneStays(cat, rank, told, next, inc);
  }

  lemma {:induction false} DisputedAndReplaced(
    cat: Catalogue, rank: map<string, nat>, st: Conversation, inputs: seq<FactInput>, inc: nat, told: Conversation)
    requires Valid(cat) && Ranked(cat, rank) && FactsOk(cat, rank, st.facts, st.seqNo)
    requires RecordOwned(cat, st, ContextGoal(st.goals), inputs, ASSERT) == Ok(told)
    requires |inputs| >= 2 && inputs[1].code == inputs[0].code && inputs[1].value != inputs[0].value
    requires !FactOf(cat, inputs[0].code).repeatable && Doubted(cat, st, inputs[0], inputs[1], inc)
    ensures FactsOk(cat, rank, told.facts, told.seqNo)
    ensures inc < |told.facts| && !told.facts[inc].active && told.facts[inc].confidence == CONFLICTING
  {
    RecordingKeepsHistory(cat, rank, st, inputs, ASSERT);
    var x, mid := FirstRecorded(cat, rank, st, inputs, ASSERT);
    var y, next := FirstRecorded(cat, rank, mid, inputs[1..], ASSERT);
    assert inputs[1..][1..] == inputs[2..];
    ThirdValueReplaces(cat, rank, st.goals, st.facts, st.seqNo, OwnerOfInput(cat, st.goals, x.code), x, y, inc);
    RecordingKeepsHistory(cat, rank, next, inputs[2..], ASSERT);
    assert Evolved(next.facts[inc], told.facts[inc]);
  }

  /** A third distinct value does not join a dispute: it supersedes the older branch. */
  lemma ThirdValueReplaces(
    cat: Catalogue, rank: map<string, nat>, goals: seq<GoalRecord>, a: seq<FactRecord>, now: nat,
    o: Owner, x: Entry, y: Entry, inc: nat)
    requires Valid(cat) && Ranked(cat, rank) && FactsOk(cat, rank, a, now) && Fit(cat, x) && x.code in rank
    requires x.code == y.code && x.value != y.value && !FactOf(cat, x.code).repeatable
    requires var live := Live(cat, a, KeyFor(cat, x.code, o));
      live != [] && live[0] == inc && inc < |a| && a[inc].confidence == CONFIRMED
    requires NewValue(cat, a, KeyFor(cat, x.code, o), x.value) && NewValue(cat, a, KeyFor(cat, x.code, o), y.value)
    ensures var b := Insert(cat, goals, a, now, o, x, ASSERT, []);
      var c := Insert(cat, goals, b, now, o, y, ASSERT, []);
      && inc < |c| && !c[inc].active && c[inc].confidence == CONFLICTING
  {
    var key := KeyFor(cat, x.code, o);
    NotAmongLive(cat, a, key, x.value);
    BothBranchesStayExactly(cat, rank, goals, a, now, o, x, []);
    var b := Insert(cat, goals, a, now, o, x, ASSERT, []);
    InsertKeepsFacts(cat, rank, goals, a, now, o, x, ASSERT, []);
    NewValueIsAdded(cat, rank, goals, a, now, o, x, ASSERT);
    IncumbentIsLive(cat, a, key, inc);
    FirstStaysFirst(cat, a, b, key, inc);
    StaysNew(cat, a, b, key, y.value);
    NotAmongLive(cat, b, key, y.value);
    UnconfirmedIsReplaced(cat, rank, goals, b, now, o, y, inc);
  }

  lemma IncumbentIsLive(cat: Catalogue, a: seq<FactRecord>, key: Key, inc: nat)
    requires Live(cat, a, key) != [] && Live(cat, a, key)[0] == inc
    ensures inc < |a| && IsLive(cat, a[inc], key)
  {
  }

  lemma StaysNew(cat: Catalogue, a: seq<FactRecord>, b: seq<FactRecord>, key: Key, v: Value)
    requires NewValue(cat, a, key, v) && History(a, b) && |b| == |a| + 1 && b[|a|].value != v
    ensures NewValue(cat, b, key, v)
  {
    forall i: nat | i < |b| && IsLive(cat, b[i], key)
      ensures b[i].value != v
    {
      if i < |a| {
        assert Evolved(a[i], b[i]);
      }
    }
  }

  lemma UnconfirmedIsReplaced(
    cat: Catalogue, rank: map<string, nat>, goals: seq<GoalRecord>, b: seq<FactRecord>, now: nat,
    o: Owner, y: Entry, inc: nat)
    requires Ranked(cat, rank) && FactsRanked(cat, rank, b) && !FactOf(cat, y.code).repeatable
    requires var live := Live(cat, b, KeyFor(cat, y.code, o));
      && live != [] && live[0] == inc && inc < |b| && b[inc].confidence != CONFIRMED
      && WithValue(b, live, y.value).None?
    ensures var c := Insert(cat, goals, b, now, o, y, ASSERT, []);
      inc < |c| && !c[inc].active && c[inc].confidence == b[inc].confidence
  {
    SupersedeSpares(cat, rank, goals, b, now, inc, SYSTEM_REPLACEMENT, Some(|b|));
  }

  /** The first live fact of a key stays the first while it is active. */
  lemma FirstStaysFirst(cat: Catalogue, a: seq<FactRecord>, b: seq<FactRecord>, key: Key, inc: nat)
    requires History(a, b) && inc < |a| && b[inc].active
    requires Live(cat, a, key) != [] && Live(cat, a, key)[0] == inc
    ensures Live(cat, b, key) != [] && Live(cat, b, key)[0] == inc
  {
    LiveLists(cat, a, key);
    LiveLists(cat, b, key);
    var x, y := Live(cat, a, key), Live(cat, b, key);
    assert inc in x;
    assert Evolved(a[inc], b[inc]);
    assert inc in y;
    if y[0] < inc {
      assert y[0] in y;
      assert Evolved(a[y[0]], b[y[0]]);
      assert y[0] in x;
    }
  }

  /** Both happen, on the first turn of a conversation and on the second. */
  lemma CorrectedAtOnceHappens(subject: string -> string)
    returns (cat: Catalogue, rank: map<string, nat>, inputs: seq<FactInput>)
    ensures Valid(cat) && Ranked(cat, rank) && Apply(cat, Run(cat, []), Said(Correction(inputs))).Ok?
    ensures |inputs| == 2 && inputs[1].code == inputs[0].code && inputs[1].value != inputs[0].value
    ensures !FactOf(cat, inputs[0].code).repeatable
    ensures var st := Run(cat, []);
      && NewValue(cat, st.facts, KeyOfInput(cat, st.goals, inputs[0].code), inputs[0].value)
      && Stands(st, subject)
  {
    cat, rank, inputs := CLAIMS, map[X := 0], [SAID_SO, TAKEN_BACK];
    ClaimsAreValid();
    EntriesAre();
    TwoCorrections();
    assert Run(cat, []) == INITIAL;
    InitialStands(subject);
  }

  lemma DisputedAndReplacedHappens(subject: string -> string)
    returns (cat: Catalogue, rank: map<string, nat>, turns: seq<Turn>, inputs: seq<FactInput>, inc: nat)
    ensures Valid(cat) && Ranked(cat, rank) && Apply(cat, Run(cat, turns), Said(Answer(inputs))).Ok?
    ensures |inputs| == 2 && inputs[1].code == inputs[0].code && inputs[1].value != inputs[0].value
    ensures !FactOf(cat, inputs[0].code).repeatable && Doubted(cat, Run(cat, turns), inputs[0], inputs[1], inc)
    ensures Stands(Run(cat, turns), subject)
  {
    cat, rank, turns, inputs, inc := CLAIMS, map[X := 0], [Said(Answer([SAID_SO]))], [TAKEN_BACK, UNKNOWN], 0;
    ClaimsAreValid();
    EntriesAre();
    FirstClaim();
    TwoAnswers(Run(cat, turns));
    assert IsLive(cat, CLAIM, ConversationKey(X));
    SoleLive(cat, [CLAIM], ConversationKey(X), 0);
    ClaimStands(subject);
  }

  lemma ClaimFits(subject: string -> string)
    ensures T.Acceptable(INITIAL, CLAIMED, subject, None) && V.Expressible(INITIAL, CLAIMED, 1)
  {
  }

  lemma ClaimStands(subject: string -> string)
    ensures Stands(CLAIMED, subject)
  {
    ClaimsAreValid();
    FirstClaim();
    InitialStands(subject);
    ClaimFits(subject);
    NextStands(CLAIMS, map[X := 0], [], Said(Answer([SAID_SO])), INITIAL, CLAIMED, None, subject);
  }

  // ----- closing times -----

  /** The closing time that the store derives for goal i. */
  function StoredClosing(st: Conversation, next: Conversation, now: nat, i: nat): Option<nat>
    requires i < |next.goals|
  {
    if i < |st.goals| && P.SameStatus(st.goals[i], next.goals[i]) then st.goals[i].closedAt
    else if next.goals[i].status in {RESOLVED, ABANDONED} then Some(now)
    else None
  }

  /**
   * The store derives when a goal closed from the operation on its status. A turn after which a goal
   * has the status and the reason it had but another closing time, or is closed without one, is
   * never committed.
   */
  lemma {:induction false} ClosingTimeIsRefused(
    cat: Catalogue, rank: map<string, nat>, turns: seq<Turn>, t: Turn, st: Conversation, next: Conversation, i: nat,
    subject: string -> string)
    requires Valid(cat) && Ranked(cat, rank) && st == Run(cat, turns) && Apply(cat, st, t) == Ok(next)
    requires i < |next.goals| && next.goals[i].closedAt != StoredClosing(st, next, next.seqNo, i)
    ensures Refused(st, next, subject)
    ensures T.MovedRows(st, next, next.seqNo)[i].closedAt == StoredClosing(st, next, next.seqNo, i)
  {
    RunContinues(cat, rank, turns, t, st, next);
    assert !V.GoalExpressed(st, next, next.seqNo, i);
    UnexpressedIsRefused(st, next, subject);
  }

  lemma OnlyClosingMoved(st: Conversation, next: Conversation)
    requires |st.goals| == 1 && st.goals[0].closedAt == Some(2)
    requires next.goals == [st.goals[0].(closedAt := Some(3))]
    ensures CodesSince(st.goals, next)
    ensures next.goals[0].closedAt != StoredClosing(st, next, next.seqNo, 0)
  {
    assert P.SameStatus(st.goals[0], next.goals[0]);
  }

  /**
   * It happens. A demand corrected twice is reopened and resolved again in one turn: no code changes,
   * every fact is as the operations can say, and only the closing time is not.
   */
  lemma ResolvedAgainIsRefused(subject: string -> string) returns (
      cat: Catalogue, rank: map<string, nat>, turns: seq<Turn>, t: Turn, st: Conversation, next: Conversation)
    ensures Valid(cat) && Ranked(cat, rank) && st == Run(cat, turns) && Apply(cat, st, t) == Ok(next)
    ensures |next.goals| == 1 && next.goals[0].status == RESOLVED
    ensures CodesSince(st.goals, next) && forall i: nat | i < |next.facts| :: V.FactExpressed(st, next, i)
    ensures Stands(st, subject) && Refused(st, next, subject)
  {
    cat, rank, turns, t, st, next := ResolvedAgain();
    OnlyClosingMoved(st, next);
    ClosingTimeIsRefused(cat, rank, turns, t, st, next, 0, subject);
    ChangedStands(subject);
  }

  lemma BeginFits(subject: string -> string)
    ensures T.Acceptable(INITIAL, BEGUN, subject, None) && V.Expressible(INITIAL, BEGUN, 1)
  {
  }

  lemma ChangeFits(st: Conversation, subject: string -> string)
    requires st == Changed(BEGUN, 0, 1, NO)
    ensures T.Acceptable(BEGUN, st, subject, None) && V.Expressible(BEGUN, st, 2)
  {
  }

  /** The first correction is stored: it gives the goal a reason, and so a new closing time. */
  lemma ChangedStands(subject: string -> string)
    ensures Stands(Changed(BEGUN, 0, 1, NO), subject)
  {
    var st := ChangedOnce();
    DerivingIsValid();
    BeginEnds(DERIVING);
    InitialStands(subject);
    BeginFits(subject);
    NextStands(DERIVING, map[X := 0, D := 1], [], BEGIN, INITIAL, BEGUN, None, subject);
    ChangeFits(st, subject);
    NextStands(DERIVING, map[X := 0, D := 1], [BEGIN], Change(NO), BEGUN, st, None, subject);
  }

  /** And the other way: a goal that a relation abandons would have a closing time in the table only. */
  lemma AbandonedUnclosedIsRefused(subject: string -> string) returns (
      cat: Catalogue, rank: map<string, nat>, turns: seq<Turn>, t: Turn, st: Conversation, next: Conversation)
    ensures Valid(cat) && Ranked(cat, rank) && st == Run(cat, turns) && Apply(cat, st, t) == Ok(next)
    ensures |next.goals| == 1 && next.goals[0].status == ABANDONED && next.goals[0].closedAt.None?
    ensures Stands(st, subject) && Refused(st, next, subject)
  {
    cat, rank, turns, t, st, next := AbandonedUnclosed();
    assert Refused(st, next, subject) by {
      ClosingTimeIsRefused(cat, rank, turns, t, st, next, 0, subject);
    }
    InitialStands(subject);
  }

  // ----- what the tables do not admit -----

  /** One open goal of a code in a case, one undisputed active fact of a code in a case, and authority that is
      confirmed and comes from outside. */
  ghost predicate Orderly(st: Conversation) {
    && (forall i, j | 0 <= i < |st.goals| && 0 <= j < |st.goals| && i != j
            && st.goals[i].caseId.Some? && st.goals[i].caseId == st.goals[j].caseId ::
          st.goals[i].code != st.goals[j].code
          || st.goals[i].status in {RESOLVED, ABANDONED} || st.goals[j].status in {RESOLVED, ABANDONED})
    && (forall i, j | 0 <= i < |st.facts| && 0 <= j < |st.facts| && i != j
            && st.facts[i].active && st.facts[j].active ::
          T.RoomBeside(st.facts[i], st.facts[j]))
    && (forall i | 0 <= i < |st.facts| :: T.Backed(st.facts[i]))
  }

  lemma ShownIsOrderly(s: P.Store, st: Conversation, subject: string -> string)
    requires V.Shows(s, st, subject) && P.Guarded(s)
    ensures Orderly(st)
  {
    forall i | 0 <= i < |st.goals|
      ensures i in s.goals && s.goals[i] == st.goals[i]
    {
    }
    forall i | 0 <= i < |st.facts|
      ensures i in s.facts && s.facts[i] == P.RowOf(st.facts[i])
    {
      assert s.facts[i] == T.FactRows(st)[i];
    }
  }

  /** What is stored is orderly. */
  lemma StoredRunIsOrderly(
    cat: Catalogue, rank: map<string, nat>, turns: seq<Turn>, covers: nat -> Option<set<string>>,
    subject: string -> string)
    requires Valid(cat) && Ranked(cat, rank) && StoreAfter(cat, turns, covers, subject).Ok?
    ensures Orderly(Run(cat, turns))
  {
    RunReplays(cat, rank, turns, covers, subject);
    ShownIsOrderly(StoreAfter(cat, turns, covers, subject).value, Run(cat, turns), subject);
  }

  /** A turn that ends in a state that is not is never committed. */
  lemma DisorderlyIsRefused(st: Conversation, next: Conversation, subject: string -> string)
    requires V.Continues(st, next, next.seqNo) && !Orderly(next)
    ensures Refused(st, next, subject)
  {
    forall s, covered | Ready(s, st, subject)
      ensures V.Commit(s, P.Call(next.seqNo, covered), st, next, subject).Err?
    {
      V.CommitsExactly(s, P.Call(next.seqNo, covered), st, next, subject);
      if V.Commit(s, P.Call(next.seqNo, covered), st, next, subject).Ok? {
        ShownIsOrderly(V.Commit(s, P.Call(next.seqNo, covered), st, next, subject).value, next, subject);
      }
    }
  }

  lemma {:induction false} DisorderIsRefused(
    cat: Catalogue, rank: map<string, nat>, turns: seq<Turn>, t: Turn, st: Conversation, next: Conversation,
    subject: string -> string)
    requires Valid(cat) && Ranked(cat, rank) && st == Run(cat, turns) && Apply(cat, st, t) == Ok(next)
    requires !Orderly(next)
    ensures Refused(st, next, subject)
  {
    RunContinues(cat, rank, turns, t, st, next);
    DisorderlyIsRefused(st, next, subject);
  }
}
