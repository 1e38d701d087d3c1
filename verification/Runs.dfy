/**
 What holds in every reachable state and across every turn: history, the
 authority of confirmed facts, and the conditions under which a goal resolves.
 */
module Runs {
  import opened Basics
  import opened Catalog
  import opened State
  import opened Recording
  import opened Effects
  import opened Insertion
  import opened FactInvariants
  import opened Clearance
  import opened Reducer
  import opened Moves

  /** Fact-level moves keep the facts in order and only add to their history. */
  lemma MoveKeepsFacts(cat: Catalogue, rank: map<string, nat>, a: Conversation, b: Conversation)
    requires Valid(cat) && Ranked(cat, rank) && Move(cat, rank, a, b)
    requires FactsOk(cat, rank, a.facts, a.seqNo)
    ensures FactsOk(cat, rank, b.facts, b.seqNo) && History(a.facts, b.facts) && b.seqNo == a.seqNo
  {
    if FactMove(cat, rank, a, b) {
      var o, e, mode, d :| Legit(cat, rank, a, o, e, mode, d)
        && b == a.(facts := Insert(cat, a.goals, a.facts, a.seqNo, o, e, mode, d));
      InsertKeepsFacts(cat, rank, a.goals, a.facts, a.seqNo, o, e, mode, d);
    } else {
      HistoryRefl(a.facts);
    }
  }

  lemma HistoryRefl(a: seq<FactRecord>)
    ensures History(a, a)
  {
  }

  lemma LaterOk(cat: Catalogue, rank: map<string, nat>, facts: seq<FactRecord>, now: nat)
    requires FactsOk(cat, rank, facts, now)
    ensures FactsOk(cat, rank, facts, now + 1)
  {
    forall i | 0 <= i < |facts|
      ensures Past(facts[i], now + 1)
    {
      assert Past(facts[i], now);
    }
  }

  ghost predicate FactsSince(cat: Catalogue, rank: map<string, nat>, before: Conversation, s: Conversation) {
    FactsOk(cat, rank, s.facts, s.seqNo) && History(before.facts, s.facts) && s.seqNo == before.seqNo + 1
  }

  /** Across a turn the facts stay in order, and the old ones are a prefix of
      the new ones: what they say, their source, scope and authority stay, and a
      superseded fact never changes again. */
  lemma TurnKeepsFacts(cat: Catalogue, rank: map<string, nat>, st: Conversation, t: Turn)
    requires Valid(cat) && Ranked(cat, rank) && FactsOk(cat, rank, st.facts, st.seqNo)
    requires Apply(cat, st, t).Ok?
    ensures var next := Apply(cat, st, t).value;
            && FactsOk(cat, rank, next.facts, next.seqNo)
            && History(st.facts, next.facts)
            && next.seqNo == st.seqNo + 1
  {
    var P := (s: Conversation) => FactsSince(cat, rank, st, s);
    forall a, b | P(a) && Move(cat, rank, a, b)
      ensures P(b)
    {
      MoveKeepsFacts(cat, rank, a, b);
      HistoryChain(st.facts, a.facts, b.facts);
    }
    assert P(Numbered(st)) by {
      LaterOk(cat, rank, st.facts, st.seqNo);
      HistoryRefl(st.facts);
    }
    TurnMoves(cat, rank, P, st, t);
    assert P(Apply(cat, st, t).value);
  }

  lemma InitialOk(cat: Catalogue, rank: map<string, nat>)
    ensures FactsOk(cat, rank, INITIAL.facts, INITIAL.seqNo)
  {
    assert ClimbsLinks(INITIAL.facts, []);
    assert NoLinkCycle(INITIAL.facts) && Grounded(INITIAL.facts) && Linked(cat, INITIAL.facts);
  }

  lemma AfterKeepsFacts(cat: Catalogue, rank: map<string, nat>, st: Conversation, t: Turn)
    requires Valid(cat) && Ranked(cat, rank) && FactsOk(cat, rank, st.facts, st.seqNo)
    ensures var next := After(cat, st, t);
            FactsOk(cat, rank, next.facts, next.seqNo) && History(st.facts, next.facts)
  {
    if Apply(cat, st, t).Ok? {
      TurnKeepsFacts(cat, rank, st, t);
    } else {
      HistoryRefl(st.facts);
    }
  }

  /** What every successful turn keeps, every run keeps. */
  lemma {:induction false} RunsKeep(cat: Catalogue, I: Conversation -> bool, turns: seq<Turn>)
    requires I(INITIAL)
    requires forall st, t | I(st) && Apply(cat, st, t).Ok? :: I(Apply(cat, st, t).value)
    ensures I(Run(cat, turns))
    decreases |turns|
  {
    if turns != [] {
      RunsKeep(cat, I, turns[..|turns| - 1]);
    }
  }

  lemma RunStep(cat: Catalogue, turns: seq<Turn>, t: Turn)
    ensures Run(cat, turns + [t]) == After(cat, Run(cat, turns), t)
  {
    var all := turns + [t];
    assert all[..|all| - 1] == turns && all[|all| - 1] == t;
  }

  /** In every reachable state, under an acyclic catalogue: active facts rest on
      active facts, no two active facts of a scope key share a value, gated
      values are confirmed only by authority from an accepted source, facts are
      stored in time order, and successor links stay in their key without a cycle. */
  lemma ReachableFactsOk(cat: Catalogue, rank: map<string, nat>, turns: seq<Turn>)
    requires Valid(cat) && Ranked(cat, rank)
    ensures FactsOk(cat, rank, Run(cat, turns).facts, Run(cat, turns).seqNo)
  {
    var I := (s: Conversation) => FactsOk(cat, rank, s.facts, s.seqNo);
    assert I(INITIAL) by {
      InitialOk(cat, rank);
    }
    forall st, t | I(st) && Apply(cat, st, t).Ok?
      ensures I(Apply(cat, st, t).value)
    {
      TurnKeepsFacts(cat, rank, st, t);
    }
    RunsKeep(cat, I, turns);
  }

  /** The whole history of a run is kept by any continuation of it. */
  lemma {:induction false} RunsOnlyAdd(cat: Catalogue, rank: map<string, nat>, turns: seq<Turn>, more: seq<Turn>)
    requires Valid(cat) && Ranked(cat, rank)
    ensures History(Run(cat, turns).facts, Run(cat, turns + more).facts)
    decreases |more|
  {
    if more == [] {
      assert turns + more == turns;
      HistoryRefl(Run(cat, turns).facts);
    } else {
      var mid := turns + more[..|more| - 1];
      var t := more[|more| - 1];
      assert turns + more == mid + [t];
      RunsOnlyAdd(cat, rank, turns, more[..|more| - 1]);
      ReachableFactsOk(cat, rank, mid);
      RunStep(cat, mid, t);
      AfterKeepsFacts(cat, rank, Run(cat, mid), t);
      HistoryChain(Run(cat, turns).facts, Run(cat, mid).facts, Run(cat, turns + more).facts);
    }
  }

  // ----- authority -----

  /** A claim of the user never confirms a gated value: in every reachable state
      an active confirmed fact whose value needs a signal is authoritative, and
      its source is one the signal policy accepts. */
  lemma GatedFactsAreAuthoritative(cat: Catalogue, rank: map<string, nat>, turns: seq<Turn>, i: nat)
    requires Valid(cat) && Ranked(cat, rank) && i < |Run(cat, turns).facts|
    ensures var f := Run(cat, turns).facts[i];
            f.active && f.confidence == CONFIRMED && NeedsSignal(cat, f.code, f.value) ==>
              f.authoritative && f.source in cat.accepted
  {
    ReachableFactsOk(cat, rank, turns);
    assert Trusted(cat, Run(cat, turns).facts[i]);
  }

  /** A goal that nothing is missing for has every code it needs cleared, and authority comes from accepted sources. */
  lemma CompleteIsCleared(cat: Catalogue, rank: map<string, nat>, st: Conversation, gi: nat)
    requires gi < |st.goals| && Complete(cat, st, gi) && FactsOk(cat, rank, st.facts, st.seqNo)
    ensures forall code | Needs(cat, st.goals, gi, code) :: Cleared(cat, st.facts, OwnerOf(st.goals, gi), code)
    ensures forall f <- st.facts :: f.authoritative ==> f.source in cat.accepted
  {
    MissingExactly(cat, st.facts, st.goals, gi);
    forall f <- st.facts
      ensures f.authoritative ==> f.source in cat.accepted
    {
      assert Trusted(cat, f);
    }
  }

  // ----- the moments of a turn -----

  /** Each state comes from the one before it by a move: one fact recorded, or goals, cases and actions changed. */
  ghost predicate Chain(cat: Catalogue, rank: map<string, nat>, xs: seq<Conversation>) {
    xs != [] && forall k | 0 <= k < |xs| - 1 :: Move(cat, rank, xs[k], xs[k + 1])
  }

  ghost predicate Leads(
    cat: Catalogue, rank: map<string, nat>, xs: seq<Conversation>, first: Conversation, last: Conversation)
  {
    Chain(cat, rank, xs) && xs[0] == first && xs[|xs| - 1] == last
  }

  ghost predicate Leading(cat: Catalogue, rank: map<string, nat>, first: Conversation, last: Conversation) {
    exists xs :: Leads(cat, rank, xs, first, last)
  }

  lemma OneMoreMove(cat: Catalogue, rank: map<string, nat>, first: Conversation, a: Conversation, b: Conversation)
    requires Leading(cat, rank, first, a) && Move(cat, rank, a, b)
    ensures Leading(cat, rank, first, b)
  {
    var xs :| Leads(cat, rank, xs, first, a);
    var ys := xs + [b];
    forall k | 0 <= k < |ys| - 1
      ensures Move(cat, rank, ys[k], ys[k + 1])
    {
      assert ys[k] == xs[k];
      assert k < |xs| - 1 ==> ys[k + 1] == xs[k + 1];
    }
    assert Leads(cat, rank, ys, first, b);
  }

  /** A turn is a chain of moves from the state that has its number to the state it reaches. */
  lemma {:induction false} TurnIsChain(
    cat: Catalogue, rank: map<string, nat>, st: Conversation, t: Turn, next: Conversation)
    returns (xs: seq<Conversation>)
    requires Valid(cat) && Ranked(cat, rank) && Apply(cat, st, t) == Ok(next)
    ensures Leads(cat, rank, xs, Numbered(st), next)
  {
    var P := (s: Conversation) => Leading(cat, rank, Numbered(st), s);
    forall a, b | P(a) && Move(cat, rank, a, b)
      ensures P(b)
    {
      OneMoreMove(cat, rank, Numbered(st), a, b);
    }
    assert P(Numbered(st)) by {
      assert Leads(cat, rank, [Numbered(st)], Numbered(st), Numbered(st));
    }
    TurnMoves(cat, rank, P, st, t);
    assert P(next);
    xs :| Leads(cat, rank, xs, Numbered(st), next);
  }

  lemma {:induction false} ChainKeepsFacts(cat: Catalogue, rank: map<string, nat>, xs: seq<Conversation>, k: nat)
    requires Valid(cat) && Ranked(cat, rank) && Chain(cat, rank, xs) && k < |xs|
    requires FactsOk(cat, rank, xs[0].facts, xs[0].seqNo)
    ensures FactsOk(cat, rank, xs[k].facts, xs[k].seqNo)
    decreases k
  {
    if k > 0 {
      ChainKeepsFacts(cat, rank, xs, k - 1);
      assert Move(cat, rank, xs[k - 1], xs[k - 1 + 1]);
      MoveKeepsFacts(cat, rank, xs[k - 1], xs[k]);
    }
  }

  /** At move k goal i, active and complete there, becomes RESOLVED, and it stays so with its code to the end. */
  ghost predicate ResolvedAt(cat: Catalogue, xs: seq<Conversation>, k: nat, i: nat) {
    && k + 1 < |xs| && i < |xs[k].goals|
    && xs[k].goals[i].status == ACTIVE && Complete(cat, xs[k], i)
    && forall j | k < j < |xs| ::
         i < |xs[j].goals| && xs[j].goals[i].status == RESOLVED && xs[j].goals[i].code == xs[k].goals[i].code
  }

  /** A move that ends with goal i RESOLVED found it so, or found it complete. */
  lemma MoveResolves(cat: Catalogue, rank: map<string, nat>, a: Conversation, b: Conversation, i: nat)
    requires Move(cat, rank, a, b) && i < |b.goals| && b.goals[i].status == RESOLVED
    ensures i < |a.goals| && b.goals[i].code == a.goals[i].code
    ensures a.goals[i].status != RESOLVED ==> a.goals[i].status == ACTIVE && Complete(cat, a, i)
  {
    if FactMove(cat, rank, a, b) {
      assert b.goals == a.goals;
    } else {
      assert i >= |a.goals| ==> GoalBorn(cat, b, i);
      assert GoalMoved(cat, a, a.goals[i], b.goals[i], i);
    }
  }

  lemma {:induction false} LastResolution(
    cat: Catalogue, rank: map<string, nat>, xs: seq<Conversation>, i: nat) returns (k: nat)
    requires Chain(cat, rank, xs)
    requires i < |xs[|xs| - 1].goals| && xs[|xs| - 1].goals[i].status == RESOLVED
    requires i < |xs[0].goals| ==> xs[0].goals[i].status != RESOLVED
    ensures ResolvedAt(cat, xs, k, i)
    decreases |xs|
  {
    var n := |xs| - 1;
    assert Move(cat, rank, xs[n - 1], xs[n - 1 + 1]);
    MoveResolves(cat, rank, xs[n - 1], xs[n], i);
    if xs[n - 1].goals[i].status != RESOLVED {
      k := n - 1;
    } else {
      k := LastResolution(cat, rank, xs[..n], i);
      forall j | k < j < |xs|
        ensures i < |xs[j].goals| && xs[j].goals[i].status == RESOLVED && xs[j].goals[i].code == xs[k].goals[i].code
      {
        assert j < n ==> xs[..n][j] == xs[j];
        assert xs[..n][n - 1] == xs[n - 1];
      }
    }
  }

  /** A goal that a turn leaves RESOLVED, and found otherwise, became so at a moment of the turn at which every
      code it needs was cleared: where its relevance conditions were met, its oldest fact was confirmed, of an
      acceptable value under the rule for it and, where gated, signalled by an accepted source. And the goal does
      not wait for an explicit handoff. */
  lemma {:induction false} ResolvedOnlyWhenCleared(
    cat: Catalogue, rank: map<string, nat>, st: Conversation, t: Turn, next: Conversation, i: nat)
    returns (xs: seq<Conversation>, k: nat)
    requires Valid(cat) && Ranked(cat, rank) && FactsOk(cat, rank, st.facts, st.seqNo)
    requires Apply(cat, st, t) == Ok(next) && i < |next.goals| && next.goals[i].status == RESOLVED
    requires i < |st.goals| ==> st.goals[i].status != RESOLVED
    ensures Leads(cat, rank, xs, Numbered(st), next) && ResolvedAt(cat, xs, k, i)
    ensures FactsOk(cat, rank, xs[k].facts, xs[k].seqNo)
    ensures !GoalOf(cat, next.goals[i].code).explicitHandoff
    ensures forall code | Needs(cat, next.goals, i, code) ::
              Cleared(cat, xs[k].facts, OwnerOf(xs[k].goals, i), code)
    ensures forall f <- xs[k].facts :: f.authoritative ==> f.source in cat.accepted
  {
    xs := TurnIsChain(cat, rank, st, t, next);
    k := LastResolution(cat, rank, xs, i);
    LaterOk(cat, rank, st.facts, st.seqNo);
    ChainKeepsFacts(cat, rank, xs, k);
    CompleteIsCleared(cat, rank, xs[k], i);
    assert xs[|xs| - 1].goals[i].code == xs[k].goals[i].code;
  }

  ghost predicate NoHandoffResolved(cat: Catalogue, st: Conversation) {
    forall i | 0 <= i < |st.goals| && st.goals[i].status == RESOLVED ::
      !GoalOf(cat, st.goals[i].code).explicitHandoff
  }

  lemma TurnResolvesNoHandoff(cat: Catalogue, rank: map<string, nat>, st: Conversation, t: Turn)
    requires Valid(cat) && Ranked(cat, rank) && NoHandoffResolved(cat, st) && Apply(cat, st, t).Ok?
    ensures NoHandoffResolved(cat, Apply(cat, st, t).value)
  {
    var P := (s: Conversation) => NoHandoffResolved(cat, s);
    forall a, b | P(a) && Move(cat, rank, a, b)
      ensures P(b)
    {
      if GoalMove(cat, a, b) {
        forall i | 0 <= i < |b.goals| && b.goals[i].status == RESOLVED
          ensures !GoalOf(cat, b.goals[i].code).explicitHandoff
        {
          assert i >= |a.goals| ==> GoalBorn(cat, b, i);
          assert GoalMoved(cat, a, a.goals[i], b.goals[i], i);
        }
      }
    }
    TurnMoves(cat, rank, P, st, t);
  }

  /** A goal kept open for an explicit handoff is never resolved, in any run. */
  lemma HandoffGoalsStayOpen(cat: Catalogue, rank: map<string, nat>, turns: seq<Turn>)
    requires Valid(cat) && Ranked(cat, rank)
    ensures NoHandoffResolved(cat, Run(cat, turns))
  {
    var I := (s: Conversation) => NoHandoffResolved(cat, s);
    forall st, t | I(st) && Apply(cat, st, t).Ok?
      ensures I(Apply(cat, st, t).value)
    {
      TurnResolvesNoHandoff(cat, rank, st, t);
    }
    RunsKeep(cat, I, turns);
  }

  // ----- one truth after a correction -----

  lemma NoneLive(cat: Catalogue, facts: seq<FactRecord>, key: Key)
    requires forall i | 0 <= i < |facts| :: !IsLive(cat, facts[i], key)
    ensures Live(cat, facts, key) == []
  {
    if Live(cat, facts, key) != [] {
      SomeLive(cat, facts, key);
    }
  }

  lemma SomeLive(cat: Catalogue, facts: seq<FactRecord>, key: Key)
    requires Live(cat, facts, key) != []
    ensures exists i | 0 <= i < |facts| :: IsLive(cat, facts[i], key)
  {
    var i := Live(cat, facts, key)[0];
    assert IsLive(cat, facts[i], key);
  }

  lemma SoleLive(cat: Catalogue, facts: seq<FactRecord>, key: Key, n: nat)
    requires n < |facts| && IsLive(cat, facts[n], key)
    requires forall i | 0 <= i < |facts| && IsLive(cat, facts[i], key) :: i == n
    ensures Live(cat, facts, key) == [n]
  {
    var live := Live(cat, facts, key);
    LiveLists(cat, facts, key);
    assert n in live;
    forall x | 0 <= x < |live|
      ensures live[x] == n
    {
      assert live[x] in live;
    }
    var last := |live| - 1;
    var u, v := live[0], live[last];
    assert last == 0 || u < v;
  }

  /** Recording in correction or derivation mode leaves exactly one live fact in
      the scope key: it has the given value and disputes nothing. */
  lemma CorrectionLeavesOneTruth(
    cat: Catalogue, rank: map<string, nat>, goals: seq<GoalRecord>, a: seq<FactRecord>, now: nat,
    o: Owner, input: FactInput, mode: Mode, derivedFrom: seq<nat>)
    requires Ranked(cat, rank) && FactsOk(cat, rank, a, now)
    requires mode != ASSERT && !FactOf(cat, input.code).repeatable
    requires Record(cat, goals, a, now, o, input, mode, derivedFrom).Ok?
    ensures var b := Record(cat, goals, a, now, o, input, mode, derivedFrom).value;
            exists n | 0 <= n < |b| ::
              && Live(cat, b, KeyFor(cat, input.code, o)) == [n]
              && b[n].value == input.value && b[n].conflictsWith.None?
  {
    AdmittedFit(cat, input, mode);
    var e := Admitted(cat, input, mode).value;
    assert e.value == input.value;
    InsertFates(cat, rank, goals, a, now, o, e, mode, derivedFrom);
    var b := Insert(cat, goals, a, now, o, e, mode, derivedFrom);
    var key := KeyFor(cat, e.code, o);
    var n: nat :| n < |b| && IsLive(cat, b[n], key) && b[n].value == e.value
      && b[n].conflictsWith.None? && forall i | 0 <= i < |b| && IsLive(cat, b[i], key) :: i == n;
    SoleLive(cat, b, key, n);
  }
}
