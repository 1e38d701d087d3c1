/** What holds of goals, actions and questions in every reachable state. */
module Reachable {
  import opened Basics
  import opened Catalog
  import opened State
  import opened Goals
  import opened Reducer
  import opened FactInvariants
  import opened Moves
  import opened Runs
  import opened Settled
  import opened Questions

  lemma UniqueIsStable(cat: Catalogue, rank: map<string, nat>, P: Conversation -> bool)
    requires forall s :: P(s) <==> UniqueActions(s.actions)
    ensures Stable(cat, rank, P)
  {
    forall a, b | P(a) && Move(cat, rank, a, b)
      ensures P(b)
    {
      if FactMove(cat, rank, a, b) {
        assert b.actions == a.actions;
      }
    }
  }

  lemma RoundWaits(cat: Catalogue, rank: map<string, nat>, st: Conversation, limit: nat)
    requires Ranked(cat, rank) && Valid(cat) && UniqueActions(st.actions) && Round(cat, st, limit).Ok?
    ensures var r := Round(cat, st, limit).value;
            UniqueActions(r.actions) && WaitForGaps(cat, r, |r.goals|)
  {
    var P := (s: Conversation) => UniqueActions(s.actions);
    UniqueIsStable(cat, rank, P);
    EvaluateMoves(cat, rank, P, st, limit);
    RoundMoves(cat, rank, P, st, limit);
    SyncWaits(cat, Evaluate(cat, st, limit).value, 0);
  }

  lemma {:induction false} RoundsWait(cat: Catalogue, rank: map<string, nat>, st: Conversation, limit: nat, fuel: nat)
    requires Ranked(cat, rank) && Valid(cat) && UniqueActions(st.actions) && RoundsFrom(cat, st, limit, fuel).Ok?
    ensures var r := RoundsFrom(cat, st, limit, fuel).value;
            UniqueActions(r.actions) && WaitForGaps(cat, r, |r.goals|)
    decreases fuel
  {
    RoundWaits(cat, rank, st, limit);
    var next := Round(cat, st, limit).value;
    if !SameCore(st, next) {
      RoundsWait(cat, rank, next, limit, fuel - 1);
    }
  }

  /** What settling establishes. */
  ghost predicate AtRest(cat: Catalogue, st: Conversation, limit: nat) {
    && Fixed(cat, st, limit)
    && UniqueActions(st.actions)
    && WaitForGaps(cat, st, |st.goals|)
  }

  lemma SettleRests(cat: Catalogue, rank: map<string, nat>, st: Conversation, limit: nat)
    requires Ranked(cat, rank) && Valid(cat) && UniqueActions(st.actions) && Settle(cat, st, limit).Ok?
    ensures AtRest(cat, Settle(cat, st, limit).value, limit)
  {
    var P := (s: Conversation) => UniqueActions(s.actions);
    UniqueIsStable(cat, rank, P);
    ReopenMoves(cat, rank, P, st, 0);
    var reopened := ReopenFrom(cat, st, 0);
    RoundsWait(cat, rank, reopened, limit, limit);
    RoundsEndFixed(cat, reopened, limit, limit);
  }

  lemma RefreshRests(cat: Catalogue, st: Conversation, limit: nat)
    requires AtRest(cat, st, limit) && Refresh(cat, st).Ok?
    ensures AtRest(cat, Refresh(cat, st).value, limit)
  {
    RefreshKeeps(cat, st);
    LikeRests(cat, st, Refresh(cat, st).value, limit);
  }

  lemma LikeWaits(cat: Catalogue, a: Conversation, b: Conversation)
    requires a.goals == b.goals && a.facts == b.facts && a.actions == b.actions && WaitForGaps(cat, a, |a.goals|)
    ensures WaitForGaps(cat, b, |b.goals|)
  {
    forall i | 0 <= i < |b.goals|
      ensures WaitsForGap(cat, b, i)
    {
      assert WaitsForGap(cat, a, i);
    }
  }

  predicate TurnSettles(t: Turn) {
    t.Said? ==> Settles(t.event)
  }

  /** What a settling turn hands to the settlement. */
  function Told(cat: Catalogue, st: Conversation, t: Turn): Outcome {
    match t
    case Said(e) => Take(cat, Numbered(st), e)
    case Signal(goalId, inputs) =>
      if goalId.Some? && (goalId.value >= |st.goals| || st.goals[goalId.value].status !in OPEN) then Err(NoOpenGoal)
      else SignalFrom(cat, Numbered(st), goalId, inputs)
  }

  lemma TurnIs(cat: Catalogue, st: Conversation, t: Turn)
    requires TurnSettles(t) && Apply(cat, st, t).Ok?
    ensures Told(cat, st, t).Ok?
    ensures Settle(cat, Told(cat, st, t).value, ROUNDS).Ok?
    ensures Apply(cat, st, t) == Refresh(cat, Settle(cat, Told(cat, st, t).value, ROUNDS).value)
  {
  }

  lemma IdleTurnIs(cat: Catalogue, st: Conversation, t: Turn)
    requires !TurnSettles(t) && Apply(cat, st, t).Ok?
    ensures Apply(cat, st, t) == Refresh(cat, Numbered(st)) || Apply(cat, st, t) == Ok(Numbered(st).(pending := None))
  {
  }

  lemma ToldMoves(cat: Catalogue, rank: map<string, nat>, P: Conversation -> bool, st: Conversation, t: Turn)
    requires Ranked(cat, rank) && Stable(cat, rank, P) && P(Numbered(st))
    requires Told(cat, st, t).Ok?
    ensures P(Told(cat, st, t).value)
  {
    match t
    case Said(e) => TakeMoves(cat, rank, P, Numbered(st), e);
    case Signal(goalId, inputs) => SignalMoves(cat, rank, P, Numbered(st), goalId, inputs);
  }

  /** Every turn that settles and returns normally ends in a state in which one
      more round of relations and gap checks leaves goals, facts and pending
      actions as they are. */
  lemma TurnEndsAtRest(cat: Catalogue, rank: map<string, nat>, st: Conversation, t: Turn, limit: nat)
    requires Ranked(cat, rank) && Valid(cat) && UniqueActions(st.actions) && limit == ROUNDS
    requires TurnSettles(t) && Apply(cat, st, t).Ok?
    ensures AtRest(cat, Apply(cat, st, t).value, limit)
  {
    TurnIs(cat, st, t);
    var P := (s: Conversation) => UniqueActions(s.actions);
    UniqueIsStable(cat, rank, P);
    ToldMoves(cat, rank, P, st, t);
    var told := Told(cat, st, t).value;
    SettleRests(cat, rank, told, limit);
    RefreshRests(cat, Settle(cat, told, limit).value, limit);
  }

  // ----- every reachable state -----

  /** It settled at some turn, and its questions are in place. */
  ghost predicate Rested(cat: Catalogue, rank: map<string, nat>, st: Conversation, limit: nat) {
    && (exists n: nat :: RestedAt(cat, rank, st, n, limit))
    && (st.pending.Some? ==> InPlace(cat, st, st.pending.value))
  }

  /** Turn n was the last to settle. */
  ghost predicate RestedAt(cat: Catalogue, rank: map<string, nat>, st: Conversation, n: nat, limit: nat) {
    n <= st.seqNo && AtRest(cat, st.(seqNo := n), limit) && FactsOk(cat, rank, st.facts, n)
  }

  lemma {:induction false} MuchLaterOk(cat: Catalogue, rank: map<string, nat>, facts: seq<FactRecord>, n: nat, m: nat)
    requires FactsOk(cat, rank, facts, n) && n <= m
    ensures FactsOk(cat, rank, facts, m)
    decreases m - n
  {
    if n < m {
      LaterOk(cat, rank, facts, n);
      MuchLaterOk(cat, rank, facts, n + 1, m);
    }
  }

  lemma NoTargets(cat: Catalogue, st: Conversation, k: nat)
    requires st.goals == [] && k <= |cat.relations|
    ensures RelationsFrom(cat, st, k, false) == Ok(Step(st, false))
    decreases |cat.relations| - k
  {
    if k < |cat.relations| {
      NoTargets(cat, st, k + 1);
    }
  }

  lemma EmptyAtRest(cat: Catalogue, st: Conversation, limit: nat)
    requires limit > 0 && st.goals == [] && st.actions == []
    ensures AtRest(cat, st, limit)
  {
    NoTargets(cat, st, 0);
    assert Evaluate(cat, st, limit) == Ok(st);
  }

  lemma EmptyRests(cat: Catalogue, rank: map<string, nat>, st: Conversation, limit: nat)
    requires AtRest(cat, st, limit) && FactsOk(cat, rank, st.facts, st.seqNo) && st.pending.None?
    ensures Rested(cat, rank, st, limit)
  {
    var n: nat := st.seqNo;
    assert st.(seqNo := n) == st;
    assert RestedAt(cat, rank, st, n, limit);
  }

  lemma InitialRests(cat: Catalogue, rank: map<string, nat>, limit: nat)
    requires limit > 0
    ensures Rested(cat, rank, INITIAL, limit)
  {
    assert AtRest(cat, INITIAL, limit) by {
      EmptyAtRest(cat, INITIAL, limit);
    }
    assert FactsOk(cat, rank, INITIAL.facts, INITIAL.seqNo) by {
      InitialOk(cat, rank);
    }
    EmptyRests(cat, rank, INITIAL, limit);
  }

  lemma TurnKeepsRest(cat: Catalogue, rank: map<string, nat>, st: Conversation, t: Turn, limit: nat)
    requires Ranked(cat, rank) && Valid(cat) && limit == ROUNDS
    requires Rested(cat, rank, st, limit) && Apply(cat, st, t).Ok?
    ensures Rested(cat, rank, Apply(cat, st, t).value, limit)
  {
    var next := Apply(cat, st, t).value;
    var n: nat :| RestedAt(cat, rank, st, n, limit);
    if TurnSettles(t) {
      MuchLaterOk(cat, rank, st.facts, n, st.seqNo);
      TurnKeepsFacts(cat, rank, st, t);
      TurnEndsAtRest(cat, rank, st, t, limit);
      TurnIs(cat, st, t);
      RefreshInPlace(cat, Settle(cat, Told(cat, st, t).value, limit).value);
      assert next.(seqNo := next.seqNo) == next;
      assert RestedAt(cat, rank, next, next.seqNo, limit);
    } else {
      IdleTurnIs(cat, st, t);
      RefreshKeeps(cat, Numbered(st));
      RefreshInPlace(cat, Numbered(st));
      LikeRests(cat, st.(seqNo := n), next.(seqNo := n), limit);
      assert RestedAt(cat, rank, next, n, limit);
    }
  }

  lemma LikeRests(cat: Catalogue, a: Conversation, b: Conversation, limit: nat)
    requires Alike(a, b) && AtRest(cat, a, limit)
    ensures AtRest(cat, b, limit)
  {
    FixedIgnores(cat, a, b, limit);
    LikeWaits(cat, a, b);
  }

  lemma RunsRest(cat: Catalogue, rank: map<string, nat>, turns: seq<Turn>, limit: nat)
    requires Ranked(cat, rank) && Valid(cat) && limit == ROUNDS
    ensures Rested(cat, rank, Run(cat, turns), limit)
  {
    var I := (s: Conversation) => Rested(cat, rank, s, limit);
    assert I(INITIAL) by {
      InitialRests(cat, rank, limit);
    }
    forall st, t | I(st) && Apply(cat, st, t).Ok?
      ensures I(Apply(cat, st, t).value)
    {
      TurnKeepsRest(cat, rank, st, t, limit);
    }
    RunsKeep(cat, I, turns);
  }

  lemma RestedWaits(cat: Catalogue, rank: map<string, nat>, st: Conversation, i: nat, limit: nat)
    requires Rested(cat, rank, st, limit) && i < |st.goals|
    ensures WaitsForGap(cat, st, i)
  {
    var n: nat :| RestedAt(cat, rank, st, n, limit);
    LikeWaits(cat, st.(seqNo := n), st);
  }

  /** In every reachable state an active or waiting goal is waiting if and only
      if its best missing fact is authoritative and has a declared resolution,
      and then it has exactly one pending action: the one for that gap. */
  lemma WaitingIsAGap(cat: Catalogue, rank: map<string, nat>, turns: seq<Turn>, i: nat)
    requires Ranked(cat, rank) && Valid(cat) && i < |Run(cat, turns).goals|
    ensures WaitsForGap(cat, Run(cat, turns), i)
  {
    RunsRest(cat, rank, turns, ROUNDS);
    RestedWaits(cat, rank, Run(cat, turns), i, ROUNDS);
  }

  /** In every reachable state the pending question belongs to the goal in
      context and asks a fact that goal misses now, which neither a signal nor
      a derivation is due to supply. */
  lemma PendingQuestionIsInPlace(cat: Catalogue, rank: map<string, nat>, turns: seq<Turn>)
    requires Ranked(cat, rank) && Valid(cat)
    ensures var st := Run(cat, turns);
            st.pending.Some? ==> InPlace(cat, st, st.pending.value)
  {
    RunsRest(cat, rank, turns, ROUNDS);
  }

  /** Before settling, at most the pending question is parked. */
  ghost predicate Parks(a: Conversation, b: Conversation) {
    && b.seqNo == a.seqNo
    && (|| (b.pending == a.pending && b.parked == a.parked)
        || (a.pending.Some? && b.pending.None? && b.parked == a.parked + [a.pending.value]))
  }

  lemma NewGoalParks(cat: Catalogue, st: Conversation, goal: Option<nat>, e: Event)
    requires e.NewGoal? && (goal.Some? ==> goal.value < |st.goals|) && OnNewGoal(cat, st, goal, e).Ok?
    ensures Parks(st, OnNewGoal(cat, st, goal, e).value)
  {
  }

  lemma ComplaintParks(cat: Catalogue, st: Conversation, goal: Option<nat>, e: Event)
    requires e.Complaint? && (goal.Some? ==> goal.value < |st.goals|) && OnComplaint(cat, st, goal, e).Ok?
    ensures Parks(st, OnComplaint(cat, st, goal, e).value)
  {
    var base := ComplaintBase(cat, st, goal, e).value;
    var told := RecordFor(cat, base.0, base.1, e.baseFacts).value;
    var overlay := Overlay(cat, told, base.1).value;
    assert base.0.pending == st.pending && base.0.parked == st.parked;
    assert overlay.0.pending == told.pending && overlay.0.parked == told.parked;
  }

  lemma ParallelQuestionParks(cat: Catalogue, st: Conversation, goal: Option<nat>, e: Event)
    requires e.ParallelQuestion? && (goal.Some? ==> goal.value < |st.goals|) && OnParallelQuestion(cat, st, goal, e).Ok?
    ensures Parks(st, OnParallelQuestion(cat, st, goal, e).value)
  {
  }

  lemma TakeParks(cat: Catalogue, st: Conversation, e: Event)
    requires Take(cat, st, e).Ok?
    ensures Parks(st, Take(cat, st, e).value)
  {
    var goal := ContextGoal(st.goals);
    match e
    case NewGoal(_, _, _, _) => NewGoalParks(cat, st, goal, e);
    case Complaint(_, _, _, _) => ComplaintParks(cat, st, goal, e);
    case ParallelQuestion(_, _) => ParallelQuestionParks(cat, st, goal, e);
    case _ =>
  }

  lemma ToldParks(cat: Catalogue, st: Conversation, t: Turn)
    requires Told(cat, st, t).Ok?
    ensures Parks(Numbered(st), Told(cat, st, t).value)
  {
    if t.Said? {
      TakeParks(cat, Numbered(st), t.event);
    }
  }

  lemma SettleParks(cat: Catalogue, st: Conversation, limit: nat)
    requires Settle(cat, st, limit).Ok?
    ensures st.parked <= Settle(cat, st, limit).value.parked
  {
  }

  lemma ParkedBehind(cat: Catalogue, st: Conversation, ready: Conversation)
    requires st.parked <= ready.parked && Refresh(cat, ready).Ok?
    ensures var next := Refresh(cat, ready).value;
            var context := ContextGoal(next.goals);
            Others(st.parked, context) <= Others(next.parked, context)
  {
    var context := ContextGoal(ready.goals);
    var rest := ready.parked[|st.parked|..];
    assert ready.parked == st.parked + rest;
    OthersJoin(st.parked, rest, context);
    RefreshKeeps(cat, ready);
    RefreshKeepsOthers(cat, ready);
  }

  /** No turn drops or reorders a parked question, except those of the goal that
      is in context when it ends. */
  lemma TurnKeepsOthersParked(cat: Catalogue, st: Conversation, t: Turn)
    requires Apply(cat, st, t).Ok?
    ensures var next := Apply(cat, st, t).value;
            var context := ContextGoal(next.goals);
            Others(st.parked, context) <= Others(next.parked, context)
  {
    if TurnSettles(t) {
      TurnIs(cat, st, t);
      var told := Told(cat, st, t).value;
      ToldParks(cat, st, t);
      SettleParks(cat, told, ROUNDS);
      ParkedBehind(cat, st, Settle(cat, told, ROUNDS).value);
    } else {
      IdleTurnIs(cat, st, t);
      if Refresh(cat, Numbered(st)).Ok? {
        ParkedBehind(cat, st, Numbered(st));
      }
    }
  }
}
