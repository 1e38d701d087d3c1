/** Which question is asked at the end of a turn, and that none is left out. */
module Asking {
  import opened Basics
  import opened Catalog
  import opened State
  import opened Goals
  import opened Reducer
  import opened Questions
  import opened Reachable
  import opened Uptake

  /** A fact that the goal misses and that a conversational answer may supply. */
  predicate Asks(cat: Catalogue, st: Conversation, gi: nat, m: Missing)
    requires gi < |st.goals|
  {
    m in MissingFacts(cat, st.facts, st.goals, gi) && !m.authoritative && !FactOf(cat, m.code).derived
  }

  /** No other fact that may be asked for is more urgent: a conflict is first, then the lower class. */
  ghost predicate MostUrgent(cat: Catalogue, st: Conversation, gi: nat, m: Missing)
    requires gi < |st.goals|
  {
    && Asks(cat, st, gi, m)
    && forall x | Asks(cat, st, gi, x) ::
         (x.conflicting ==> m.conflicting) && (m.conflicting || Rank(m.priority) <= Rank(x.priority))
  }

  /** The question is new: it is for the goal in context, and asks for its most urgent fact. */
  ghost predicate NewQuestion(cat: Catalogue, st: Conversation, q: QuestionRef) {
    && q.goalId < |st.goals| && InContext(st.goals, Some(q.goalId)) && q.askedAt == st.seqNo
    && exists m :: MostUrgent(cat, st, q.goalId, m) && q.fact == m.code && q.priority == m.priority
         && if m.conflicting then q.question == "Q_CONFLICT_CONFIRM"
            else m.code in cat.questions && q.question == cat.questions[m.code]
  }

  /** There is something to ask the citizen about the goal in context. */
  ghost predicate SomethingToAsk(cat: Catalogue, st: Conversation) {
    exists gi: nat :: InContext(st.goals, Some(gi)) && gi < |st.goals| && exists m :: Asks(cat, st, gi, m)
  }

  lemma ContextIsOne(goals: seq<GoalRecord>, c: Option<nat>)
    requires InContext(goals, c)
    ensures c == ContextGoal(goals)
  {
    ContextIs(goals);
  }

  lemma NextQuestionIs(cat: Catalogue, st: Conversation)
    requires NextQuestion(cat, st).Ok?
    ensures var q := NextQuestion(cat, st).value;
            && (q.Some? <==> SomethingToAsk(cat, st))
            && (q.Some? ==> NewQuestion(cat, st, q.value))
  {
    var goal := ContextGoal(st.goals);
    ContextIs(st.goals);
    if goal.Some? {
      var ms := MissingFacts(cat, st.facts, st.goals, goal.value);
      AskableAre(cat, ms);
      BestIs(Askable(cat, ms));
      var best := Best(Askable(cat, ms));
      if best.Some? {
        assert MostUrgent(cat, st, goal.value, best.value);
      } else {
        assert forall m | Asks(cat, st, goal.value, m) :: m in Askable(cat, ms);
        NothingElse(cat, st, goal.value);
      }
    } else {
      NoContext(st.goals);
    }
  }

  lemma NothingElse(cat: Catalogue, st: Conversation, gi: nat)
    requires gi < |st.goals| && ContextGoal(st.goals) == Some(gi) && forall m :: !Asks(cat, st, gi, m)
    ensures !SomethingToAsk(cat, st)
  {
    forall g: nat | InContext(st.goals, Some(g))
      ensures g == gi
    {
      ContextIsOne(st.goals, Some(g));
    }
  }

  lemma NoContext(goals: seq<GoalRecord>)
    requires ContextGoal(goals).None?
    ensures forall g: nat :: !InContext(goals, Some(g))
  {
    forall g: nat | InContext(goals, Some(g))
      ensures false
    {
      ContextIsOne(goals, Some(g));
    }
  }

  /** The question may be asked of the goal in context. */
  ghost predicate Fits(cat: Catalogue, st: Conversation, q: QuestionRef) {
    && q.goalId < |st.goals| && InContext(st.goals, Some(q.goalId))
    && exists m :: Asks(cat, st, q.goalId, m) && m.code == q.fact
  }

  lemma FitsIs(cat: Catalogue, st: Conversation, q: QuestionRef)
    ensures Fits(cat, st, q) <==> ContextGoal(st.goals) == Some(q.goalId) && StillValid(cat, st, q)
  {
    ContextIs(st.goals);
    StillValidIs(cat, st, q);
    if Fits(cat, st, q) {
      ContextIsOne(st.goals, Some(q.goalId));
      var m :| Asks(cat, st, q.goalId, m) && m.code == q.fact;
      assert MayAsk(cat, st, q.goalId, q.fact);
    }
    if ContextGoal(st.goals) == Some(q.goalId) && StillValid(cat, st, q) {
      var m :| m in MissingFacts(cat, st.facts, st.goals, q.goalId) && m.code == q.fact && !m.authoritative
        && !FactOf(cat, q.fact).derived;
      assert Asks(cat, st, q.goalId, m);
    }
  }

  /** Among the first n parked questions, number i is the last that fits. */
  ghost predicate LastThatFits(cat: Catalogue, st: Conversation, i: nat, n: nat) {
    && i < n <= |st.parked| && Fits(cat, st, st.parked[i])
    && forall j | i < j < n :: !Fits(cat, st, st.parked[j])
  }

  lemma FitsSame(cat: Catalogue, a: Conversation, b: Conversation, q: QuestionRef)
    requires b.goals == a.goals && b.facts == a.facts
    ensures Fits(cat, b, q) <==> Fits(cat, a, q)
  {
    if Fits(cat, a, q) {
      var m :| Asks(cat, a, q.goalId, m) && m.code == q.fact;
      assert Asks(cat, b, q.goalId, m);
    }
    if Fits(cat, b, q) {
      var m :| Asks(cat, b, q.goalId, m) && m.code == q.fact;
      assert Asks(cat, a, q.goalId, m);
    }
  }

  lemma NextQuestionSame(cat: Catalogue, a: Conversation, b: Conversation)
    requires b.goals == a.goals && b.facts == a.facts && b.seqNo == a.seqNo
    ensures NextQuestion(cat, a) == NextQuestion(cat, b)
  {
  }

  lemma {:induction false} ResumedIs(cat: Catalogue, st: Conversation, n: nat, r: Conversation)
    requires n <= |st.parked| && ResumeFrom(cat, st, n) == Ok(r)
    ensures forall i: nat | LastThatFits(cat, st, i, n) :: r.pending == Some(st.parked[i])
    ensures (forall j | 0 <= j < n :: !Fits(cat, st, st.parked[j])) ==>
              NextQuestion(cat, st).Ok? && r.pending == NextQuestion(cat, st).value
    ensures r == st.(pending := r.pending, parked := r.parked)
    decreases n
  {
    if n > 0 {
      var q := st.parked[n - 1];
      FitsIs(cat, st, q);
      if ContextGoal(st.goals) != Some(q.goalId) {
        ResumedIs(cat, st, n - 1, r);
        LastAmong(cat, st, st, n);
      } else if !StillValid(cat, st, q) {
        var next := st.(parked := st.parked[..n - 1] + st.parked[n..]);
        ResumedIs(cat, next, n - 1, r);
        NextQuestionSame(cat, st, next);
        LastAmong(cat, st, next, n);
      }
    }
  }

  /** Leaving out a question that does not fit changes nothing about the others. */
  lemma LastAmong(cat: Catalogue, st: Conversation, next: Conversation, n: nat)
    requires 0 < n <= |st.parked| && n - 1 <= |next.parked| && st.parked[..n - 1] == next.parked[..n - 1]
    requires next.goals == st.goals && next.facts == st.facts && !Fits(cat, st, st.parked[n - 1])
    ensures forall i: nat :: LastThatFits(cat, st, i, n) ==>
              LastThatFits(cat, next, i, n - 1) && next.parked[i] == st.parked[i]
    ensures (forall j | 0 <= j < n :: !Fits(cat, st, st.parked[j])) ==>
              forall j | 0 <= j < n - 1 :: !Fits(cat, next, next.parked[j])
  {
    forall j | 0 <= j < n - 1
      ensures next.parked[j] == st.parked[j] && (Fits(cat, next, next.parked[j]) <==> Fits(cat, st, st.parked[j]))
    {
      assert st.parked[..n - 1][j] == next.parked[..n - 1][j];
      FitsSame(cat, st, next, st.parked[j]);
    }
  }

  /** A question of a goal that is not in context, which that goal could be asked. */
  ghost predicate Waits(cat: Catalogue, st: Conversation, q: QuestionRef) {
    && q.goalId < |st.goals| && st.goals[q.goalId].status in {ACTIVE, WAITING}
    && !InContext(st.goals, Some(q.goalId)) && exists m :: Asks(cat, st, q.goalId, m) && m.code == q.fact
  }

  /** A fact that may be asked for in context is in dispute. */
  ghost predicate DisputeToAsk(cat: Catalogue, st: Conversation) {
    exists gi: nat ::
      InContext(st.goals, Some(gi)) && gi < |st.goals| && exists m :: Asks(cat, st, gi, m) && m.conflicting
  }

  /** The question about a conflict takes the place of the pending one, which is parked. */
  ghost predicate TakesOver(cat: Catalogue, st: Conversation, next: Conversation)
    requires st.pending.Some?
  {
    && next.pending.Some? && NewQuestion(cat, st, next.pending.value)
    && next.pending.value.question == "Q_CONFLICT_CONFIRM" && st.pending.value.question != "Q_CONFLICT_CONFIRM"
    && next.parked == st.parked + [st.pending.value]
  }

  /** What is asked once the questions are refreshed. The pending question stays if it fits, unless a conflict takes
      its place; without one the last parked question that fits comes back, or else a new one is asked; and nothing
      is pending exactly when there is nothing to ask. */
  ghost predicate Refreshed(cat: Catalogue, st: Conversation, next: Conversation) {
    && next == st.(pending := next.pending, parked := next.parked)
    && (next.pending.Some? <==> SomethingToAsk(cat, st))
    && if st.pending.Some? && Fits(cat, st, st.pending.value) then
         && (TakesOver(cat, st, next) || (next.pending == st.pending && next.parked == st.parked))
         && (DisputeToAsk(cat, st) && st.pending.value.question != "Q_CONFLICT_CONFIRM" ==> TakesOver(cat, st, next))
       else
         && (forall i: nat | LastThatFits(cat, st, i, |st.parked|) :: next.pending == Some(st.parked[i]))
         && ((forall q <- st.parked :: !Fits(cat, st, q)) && next.pending.Some? ==>
               NewQuestion(cat, st, next.pending.value))
         && (st.pending.Some? && Waits(cat, st, st.pending.value) ==> st.pending.value in next.parked)
  }

  lemma WithdrawIs(cat: Catalogue, st: Conversation)
    ensures var cleared := Withdraw(cat, st);
            && cleared == st.(pending := cleared.pending, parked := cleared.parked)
            && if st.pending.Some? && Fits(cat, st, st.pending.value) then cleared == st
               else
                 && cleared.pending.None?
                 && (cleared.parked == st.parked
                     || (st.pending.Some? && cleared.parked == st.parked + [st.pending.value]))
                 && (st.pending.Some? && Waits(cat, st, st.pending.value) ==>
                       cleared.parked == st.parked + [st.pending.value])
  {
    if st.pending.Some? {
      var q := st.pending.value;
      FitsIs(cat, st, q);
      StillValidIs(cat, st, q);
      if Waits(cat, st, q) {
        var m :| Asks(cat, st, q.goalId, m) && m.code == q.fact;
        assert MayAsk(cat, st, q.goalId, q.fact);
        ContextIs(st.goals);
      }
    }
  }

  lemma {:induction false} OthersHave(parked: seq<QuestionRef>, context: Option<nat>, q: QuestionRef)
    ensures q in Others(parked, context) <==> q in parked && Some(q.goalId) != context
  {
    if parked != [] {
      OthersHave(parked[1..], context, q);
    }
  }

  lemma WithdrawnStays(cat: Catalogue, st: Conversation, cleared: Conversation, next: Conversation, q: QuestionRef)
    requires Waits(cat, st, q) && q in cleared.parked && cleared.goals == st.goals
    requires ResumeFrom(cat, cleared, |cleared.parked|) == Ok(next)
    ensures q in next.parked
  {
    ContextIs(st.goals);
    var context := ContextGoal(st.goals);
    ResumeKeepsOthers(cat, cleared, |cleared.parked|);
    OthersHave(cleared.parked, context, q);
    OthersHave(next.parked, context, q);
  }

  lemma {:induction false} LastIndex(P: nat -> bool, n: nat, j: nat) returns (i: nat)
    requires j < n && P(j)
    ensures i < n && P(i) && forall x: nat | i < x < n :: !P(x)
    decreases n
  {
    if P(n - 1) {
      i := n - 1;
    } else {
      i := LastIndex(P, n - 1, j);
    }
  }

  lemma LastFit(cat: Catalogue, st: Conversation, j: nat) returns (i: nat)
    requires j < |st.parked| && Fits(cat, st, st.parked[j])
    ensures LastThatFits(cat, st, i, |st.parked|)
  {
    var P := (x: nat) => x < |st.parked| && Fits(cat, st, st.parked[x]);
    i := LastIndex(P, |st.parked|, j);
    forall x | i < x < |st.parked|
      ensures !Fits(cat, st, st.parked[x])
    {
      assert !P(x);
    }
  }

  lemma FitIsToAsk(cat: Catalogue, st: Conversation, q: QuestionRef)
    requires Fits(cat, st, q)
    ensures SomethingToAsk(cat, st)
  {
  }

  /** The withdrawal changes nothing about what there is to ask. */
  lemma AskingSame(cat: Catalogue, a: Conversation, b: Conversation)
    requires b.goals == a.goals && b.facts == a.facts && b.seqNo == a.seqNo
    ensures SomethingToAsk(cat, a) <==> SomethingToAsk(cat, b)
    ensures forall q :: NewQuestion(cat, a, q) <==> NewQuestion(cat, b, q)
  {
    assert forall gi: nat, m | gi < |a.goals| :: Asks(cat, a, gi, m) <==> Asks(cat, b, gi, m);
    forall gi: nat, m | gi < |a.goals|
      ensures MostUrgent(cat, a, gi, m) <==> MostUrgent(cat, b, gi, m)
    {
    }
  }

  /** The parked questions, with a withdrawn one behind them that does not fit. */
  lemma FitsBehind(cat: Catalogue, st: Conversation, cleared: Conversation)
    requires cleared.goals == st.goals && cleared.facts == st.facts
    requires || cleared.parked == st.parked
             || (st.pending.Some? && !Fits(cat, st, st.pending.value)
                 && cleared.parked == st.parked + [st.pending.value])
    ensures forall i: nat | LastThatFits(cat, st, i, |st.parked|) ::
              LastThatFits(cat, cleared, i, |cleared.parked|) && cleared.parked[i] == st.parked[i]
    ensures (forall q <- st.parked :: !Fits(cat, st, q)) ==>
              forall j | 0 <= j < |cleared.parked| :: !Fits(cat, cleared, cleared.parked[j])
  {
    forall j | 0 <= j < |cleared.parked|
      ensures Fits(cat, cleared, cleared.parked[j]) <==> Fits(cat, st, cleared.parked[j])
      ensures j < |st.parked| ==> cleared.parked[j] == st.parked[j] && st.parked[j] in st.parked
      ensures j >= |st.parked| ==> !Fits(cat, st, cleared.parked[j])
    {
      FitsSame(cat, st, cleared, cleared.parked[j]);
    }
  }

  lemma FillingAsks(cat: Catalogue, st: Conversation, next: Conversation)
    requires ResumeFrom(cat, st, |st.parked|) == Ok(next)
    ensures next.pending.Some? <==> SomethingToAsk(cat, st)
    ensures (forall j | 0 <= j < |st.parked| :: !Fits(cat, st, st.parked[j])) && next.pending.Some? ==>
              NewQuestion(cat, st, next.pending.value)
  {
    ResumedIs(cat, st, |st.parked|, next);
    if j: nat :| j < |st.parked| && Fits(cat, st, st.parked[j]) {
      var i := LastFit(cat, st, j);
      FitIsToAsk(cat, st, st.parked[i]);
    } else {
      NextQuestionIs(cat, st);
    }
  }

  lemma FillingIs(cat: Catalogue, st: Conversation, cleared: Conversation, next: Conversation)
    requires cleared == Withdraw(cat, st) && !(st.pending.Some? && Fits(cat, st, st.pending.value))
    requires ResumeFrom(cat, cleared, |cleared.parked|) == Ok(next)
    ensures Refreshed(cat, st, next)
  {
    WithdrawIs(cat, st);
    ResumedIs(cat, cleared, |cleared.parked|, next);
    FillingAsks(cat, cleared, next);
    AskingSame(cat, st, cleared);
    FitsBehind(cat, st, cleared);
    if st.pending.Some? && Waits(cat, st, st.pending.value) {
      WithdrawnStays(cat, st, cleared, next, st.pending.value);
    }
  }

  /** With a pending question that fits there is a candidate, for the same goal. */
  lemma CandidateIs(cat: Catalogue, st: Conversation, next: Conversation) returns (candidate: QuestionRef)
    requires st.pending.Some? && Fits(cat, st, st.pending.value) && Refresh(cat, st) == Ok(next)
    ensures NextQuestion(cat, st) == Ok(Some(candidate)) && candidate.goalId == st.pending.value.goalId
    ensures next == if candidate.question == CONFLICT_QUESTION && st.pending.value.question != CONFLICT_QUESTION
                    then st.(parked := st.parked + [st.pending.value], pending := Some(candidate)) else st
  {
    WithdrawIs(cat, st);
    NextQuestionIs(cat, st);
    FitIsToAsk(cat, st, st.pending.value);
    candidate := NextQuestion(cat, st).value.value;
    ContextIsOne(st.goals, Some(st.pending.value.goalId));
    ContextIsOne(st.goals, Some(candidate.goalId));
  }

  lemma KeepingIs(cat: Catalogue, st: Conversation, next: Conversation)
    requires st.pending.Some? && Fits(cat, st, st.pending.value) && Refresh(cat, st) == Ok(next)
    ensures Refreshed(cat, st, next)
  {
    var candidate := CandidateIs(cat, st, next);
    assert NewQuestion(cat, st, candidate) && SomethingToAsk(cat, st) by {
      NextQuestionIs(cat, st);
    }
    if DisputeToAsk(cat, st) {
      DisputeIsAsked(cat, st, candidate);
    }
  }

  /** A dispute makes the new question one about a conflict. */
  lemma DisputeIsAsked(cat: Catalogue, st: Conversation, q: QuestionRef)
    requires DisputeToAsk(cat, st) && NewQuestion(cat, st, q)
    ensures q.question == "Q_CONFLICT_CONFIRM"
  {
    var gi: nat :|
      InContext(st.goals, Some(gi)) && gi < |st.goals| && exists m :: Asks(cat, st, gi, m) && m.conflicting;
    ContextIsOne(st.goals, Some(gi));
    ContextIsOne(st.goals, Some(q.goalId));
  }

  lemma RefreshAsks(cat: Catalogue, st: Conversation, next: Conversation)
    requires Refresh(cat, st) == Ok(next)
    ensures Refreshed(cat, st, next)
  {
    if st.pending.Some? && Fits(cat, st, st.pending.value) {
      KeepingIs(cat, st, next);
    } else {
      WithdrawIs(cat, st);
      FillingIs(cat, st, Withdraw(cat, st), next);
    }
  }

  /** The turn refreshes the questions: it settles, or is a greeting. */
  predicate TurnAsks(t: Turn) {
    t.Said? ==> t.event != HumanRequest && t.event != Social(true)
  }

  /** Every turn but a farewell and a call for a person ends with a question pending exactly when there is something
      to ask the citizen about the goal in context; and the questions were refreshed last. */
  lemma TurnEndsAsking(cat: Catalogue, st: Conversation, t: Turn, next: Conversation) returns (ready: Conversation)
    requires TurnAsks(t) && Apply(cat, st, t) == Ok(next)
    ensures next.pending.Some? <==> SomethingToAsk(cat, next)
    ensures Refreshed(cat, ready, next)
  {
    if TurnSettles(t) {
      TurnIs(cat, st, t);
      ready := Settle(cat, Told(cat, st, t).value, ROUNDS).value;
    } else {
      ready := Numbered(st);
    }
    RefreshAsks(cat, ready, next);
    AskingSame(cat, ready, next);
  }
}
