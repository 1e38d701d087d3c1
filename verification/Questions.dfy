/** Which question is pending, and what happens to the parked ones. */
module Questions {
  import opened Basics
  import opened Catalog
  import opened State
  import opened Goals
  import opened Reducer

  /** The goal misses the fact, and a conversational answer may supply it:
      neither a signal nor a derivation has to. */
  ghost predicate MayAsk(cat: Catalogue, st: Conversation, gi: nat, code: string)
    requires gi < |st.goals|
  {
    exists m | m in MissingFacts(cat, st.facts, st.goals, gi) ::
      m.code == code && !m.authoritative && !FactOf(cat, code).derived
  }

  /** A question that belongs in the foreground of st. */
  ghost predicate InPlace(cat: Catalogue, st: Conversation, q: QuestionRef) {
    && ContextGoal(st.goals) == Some(q.goalId)
    && MayAsk(cat, st, q.goalId, q.fact)
  }

  lemma {:induction false} AskableAre(cat: Catalogue, ms: seq<Missing>)
    ensures forall m :: m in Askable(cat, ms) <==> m in ms && !m.authoritative && !FactOf(cat, m.code).derived
  {
    if ms != [] {
      AskableAre(cat, ms[1..]);
    }
  }

  lemma {:induction false} LowestIsOne(ms: seq<Missing>, best: Missing)
    ensures Lowest(ms, best) == best || Lowest(ms, best) in ms
  {
    if ms != [] {
      LowestIsOne(ms[1..], if Rank(ms[0].priority) < Rank(best.priority) then ms[0] else best);
    }
  }

  lemma {:induction false} FirstConflictingIsOne(ms: seq<Missing>)
    ensures FirstConflicting(ms).Some? ==> FirstConflicting(ms).value in ms && FirstConflicting(ms).value.conflicting
    ensures FirstConflicting(ms).None? ==> forall m | m in ms :: !m.conflicting
  {
    if ms != [] {
      FirstConflictingIsOne(ms[1..]);
    }
  }

  lemma {:induction false} LowestIsLeast(ms: seq<Missing>, best: Missing)
    ensures Rank(Lowest(ms, best).priority) <= Rank(best.priority)
    ensures forall m | m in ms :: Rank(Lowest(ms, best).priority) <= Rank(m.priority)
  {
    if ms != [] {
      LowestIsLeast(ms[1..], if Rank(ms[0].priority) < Rank(best.priority) then ms[0] else best);
    }
  }

  /** The best missing fact is one of them; a conflict, if any is missing, else
      one whose priority class no other precedes. */
  lemma BestIs(ms: seq<Missing>)
    ensures Best(ms).Some? <==> ms != []
    ensures Best(ms).Some? ==>
              && Best(ms).value in ms
              && ((exists m | m in ms :: m.conflicting) ==> Best(ms).value.conflicting)
              && (!Best(ms).value.conflicting ==>
                    forall m | m in ms :: Rank(Best(ms).value.priority) <= Rank(m.priority))
  {
    FirstConflictingIsOne(ms);
    if ms != [] {
      LowestIsOne(ms, ms[0]);
      LowestIsLeast(ms, ms[0]);
    }
  }

  lemma StillValidIs(cat: Catalogue, st: Conversation, q: QuestionRef)
    ensures StillValid(cat, st, q) <==>
              q.goalId < |st.goals| && st.goals[q.goalId].status in {ACTIVE, WAITING}
                  && MayAsk(cat, st, q.goalId, q.fact)
  {
    if q.goalId < |st.goals| {
      var ms := MissingFacts(cat, st.facts, st.goals, q.goalId);
      var asks := Askable(cat, ms);
      AskableAre(cat, ms);
      if StillValid(cat, st, q) {
        var i :| 0 <= i < |asks| && asks[i].code == q.fact;
        assert asks[i] in asks;
      }
      if st.goals[q.goalId].status in {ACTIVE, WAITING} && MayAsk(cat, st, q.goalId, q.fact) {
        var m :| m in ms && m.code == q.fact && !m.authoritative && !FactOf(cat, q.fact).derived;
        assert m in asks;
        var i :| 0 <= i < |asks| && asks[i] == m;
        assert asks[i].code == q.fact;
      }
    }
  }

  lemma NextQuestionInPlace(cat: Catalogue, st: Conversation)
    ensures var r := NextQuestion(cat, st);
            r.Ok? && r.value.Some? ==> InPlace(cat, st, r.value.value)
  {
    var goal := ContextGoal(st.goals);
    if goal.Some? {
      var ms := MissingFacts(cat, st.facts, st.goals, goal.value);
      AskableAre(cat, ms);
      BestIs(Askable(cat, ms));
    }
  }

  lemma {:induction false} ResumeInPlace(cat: Catalogue, st: Conversation, n: nat)
    requires n <= |st.parked|
    ensures var r := ResumeFrom(cat, st, n);
            r.Ok? && r.value.pending.Some? ==> InPlace(cat, r.value, r.value.pending.value)
    decreases n
  {
    if n == 0 {
      NextQuestionInPlace(cat, st);
      var r := ResumeFrom(cat, st, n);
      if r.Ok? && r.value.pending.Some? {
        assert InPlace(cat, st, r.value.pending.value);
      }
    } else {
      var q := st.parked[n - 1];
      if ContextGoal(st.goals) != Some(q.goalId) {
        ResumeInPlace(cat, st, n - 1);
      } else {
        var next := st.(parked := st.parked[..n - 1] + st.parked[n..]);
        StillValidIs(cat, st, q);
        if StillValid(cat, st, q) {
          assert InPlace(cat, st, q);
        } else {
          ResumeInPlace(cat, next, n - 1);
        }
      }
    }
  }

  /** After a refresh the pending question, if any, is in its place. */
  lemma RefreshInPlace(cat: Catalogue, st: Conversation)
    ensures var r := Refresh(cat, st);
            r.Ok? && r.value.pending.Some? ==> InPlace(cat, r.value, r.value.pending.value)
  {
    var cleared := Withdraw(cat, st);
    NextQuestionInPlace(cat, cleared);
    ResumeInPlace(cat, cleared, |cleared.parked|);
    if cleared.pending.Some? {
      StillValidIs(cat, st, cleared.pending.value);
      assert InPlace(cat, cleared, cleared.pending.value);
    }
    var r := Refresh(cat, st);
    if r.Ok? && r.value.pending.Some? && cleared.pending.Some? {
      assert InPlace(cat, cleared, r.value.pending.value);
    }
  }

  // ----- parked questions -----

  /** The parked questions of goals other than the one in context, in order. */
  function Others(parked: seq<QuestionRef>, context: Option<nat>): seq<QuestionRef> {
    if parked == [] then []
    else (if Some(parked[0].goalId) != context then [parked[0]] else []) + Others(parked[1..], context)
  }

  lemma {:induction false} OthersJoin(a: seq<QuestionRef>, b: seq<QuestionRef>, context: Option<nat>)
    ensures Others(a + b, context) == Others(a, context) + Others(b, context)
  {
    if a == [] {
      assert a + b == b;
    } else {
      OthersJoin(a[1..], b, context);
      assert (a + b)[1..] == a[1..] + b;
    }
  }

  /** Taking out a question of the context goal leaves the others as they were. */
  lemma TakenOutKeepsOthers(parked: seq<QuestionRef>, n: nat, context: Option<nat>)
    requires n < |parked| && context == Some(parked[n].goalId)
    ensures Others(parked[..n] + parked[n + 1..], context) == Others(parked, context)
  {
    var front, q, back := parked[..n], parked[n], parked[n + 1..];
    assert parked == front + [q] + back;
    OthersJoin(front, back, context);
    OthersJoin(front + [q], back, context);
    OthersJoin(front, [q], context);
  }

  lemma {:induction false} ResumeKeepsOthers(cat: Catalogue, st: Conversation, n: nat)
    requires n <= |st.parked|
    ensures var r := ResumeFrom(cat, st, n);
            r.Ok? ==> Others(r.value.parked, ContextGoal(st.goals)) == Others(st.parked, ContextGoal(st.goals))
    decreases n
  {
    if n > 0 {
      var q := st.parked[n - 1];
      var context := ContextGoal(st.goals);
      if context != Some(q.goalId) {
        ResumeKeepsOthers(cat, st, n - 1);
      } else {
        TakenOutKeepsOthers(st.parked, n - 1, context);
        ResumeKeepsOthers(cat, st.(parked := st.parked[..n - 1] + st.parked[n..]), n - 1);
      }
    }
  }

  /** A refresh never drops or reorders the parked questions of other goals: it
      may park one more behind them. */
  lemma RefreshKeepsOthers(cat: Catalogue, st: Conversation)
    ensures var context := ContextGoal(st.goals);
            var r := Refresh(cat, st);
            r.Ok? ==> Others(st.parked, context) <= Others(r.value.parked, context)
  {
    var context := ContextGoal(st.goals);
    var cleared := Withdraw(cat, st);
    if st.pending.Some? {
      OthersJoin(st.parked, [st.pending.value], context);
    }
    if cleared.pending.Some? {
      OthersJoin(cleared.parked, [cleared.pending.value], context);
    }
    ResumeKeepsOthers(cat, cleared, |cleared.parked|);
  }
}
