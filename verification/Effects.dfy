/**
 What one insertion does to the facts already there, under an acyclic
 catalogue: only the facts of its own scope key and facts above it in rank can
 lose their place, and whatever rested on a loser loses it too.
 */
module Effects {
  import opened Basics
  import opened Catalog
  import opened State
  import opened Cascade
  import opened Recording

  /** Fact i is of a declared code and is derived from earlier facts of lower rank. */
  ghost predicate FactRanked(cat: Catalogue, rank: map<string, nat>, facts: seq<FactRecord>, i: nat)
    requires i < |facts|
  {
    && facts[i].code in cat.facts && facts[i].code in rank
    && forall x | x in facts[i].derivedFrom ::
         x < i && facts[x].code in rank && rank[facts[x].code] < rank[facts[i].code]
  }

  ghost predicate FactsRanked(cat: Catalogue, rank: map<string, nat>, facts: seq<FactRecord>) {
    forall i | 0 <= i < |facts| :: FactRanked(cat, rank, facts, i)
  }

  lemma RankedPersists(cat: Catalogue, rank: map<string, nat>, a: seq<FactRecord>, b: seq<FactRecord>)
    requires FactsRanked(cat, rank, a) && SameFacts(a, b)
    ensures FactsRanked(cat, rank, b)
  {
    forall i | 0 <= i < |b|
      ensures FactRanked(cat, rank, b, i)
    {
      assert FactRanked(cat, rank, a, i) && SameFact(a[i], b[i]);
      forall x | x in b[i].derivedFrom
        ensures x < i && b[x].code in rank && rank[b[x].code] < rank[b[i].code]
      {
        assert x in a[i].derivedFrom && SameFact(a[x], b[x]);
      }
    }
  }

  /** The same fact at two moments: what it says and where it came from stay. */
  ghost predicate SameFact(f: FactRecord, g: FactRecord) {
    && g.code == f.code && g.caseId == f.caseId && g.goalId == f.goalId
    && g.value == f.value && g.source == f.source && g.authoritative == f.authoritative
    && g.recordedAt == f.recordedAt && g.derivedFrom == f.derivedFrom
    && (g.active ==> f.active)
  }

  ghost predicate SameFacts(a: seq<FactRecord>, b: seq<FactRecord>) {
    |a| == |b| && forall i | 0 <= i < |a| :: SameFact(a[i], b[i])
  }

  /** What a turn may do to a fact: nothing at all once it is superseded. */
  ghost predicate Evolved(f: FactRecord, g: FactRecord) {
    SameFact(f, g) && (!f.active ==> g == f)
  }

  /** The old facts are a prefix of the new ones, evolved. */
  ghost predicate History(a: seq<FactRecord>, b: seq<FactRecord>) {
    |a| <= |b| && forall i | 0 <= i < |a| :: Evolved(a[i], b[i])
  }

  lemma HistoryChain(a: seq<FactRecord>, b: seq<FactRecord>, c: seq<FactRecord>)
    requires History(a, b) && History(b, c)
    ensures History(a, c)
  {
    forall i | 0 <= i < |a|
      ensures Evolved(a[i], c[i])
    {
      assert Evolved(a[i], b[i]) && Evolved(b[i], c[i]);
    }
  }

  lemma ThinnedIsSame(a: seq<FactRecord>, b: seq<FactRecord>, now: nat)
    requires Thinned(a, b, now)
    ensures SameFacts(a, b)
  {
  }

  /** Fact i is untouched, or was invalidated and ranks above code. */
  ghost predicate Spared(
    rank: map<string, nat>, code: string, a: seq<FactRecord>, b: seq<FactRecord>, i: nat, now: nat)
    requires i < |a| && i < |b|
  {
    || b[i] == a[i]
    || (a[i].active && b[i] == Invalidated(a[i], now)
        && code in rank && a[i].code in rank && rank[code] < rank[a[i].code])
  }

  ghost predicate AllSpared(
    rank: map<string, nat>, code: string, a: seq<FactRecord>, b: seq<FactRecord>, now: nat)
  {
    |a| == |b| && forall i | 0 <= i < |a| :: Spared(rank, code, a, b, i, now)
  }

  lemma {:induction false} SweepClimbs(
    cat: Catalogue, rank: map<string, nat>, goals: seq<GoalRecord>, facts: seq<FactRecord>, now: nat,
    src: nat, p: nat)
    requires Ranked(cat, rank) && FactsRanked(cat, rank, facts)
    requires src < |facts| && p <= 2 * |facts|
    ensures AllSpared(rank, facts[src].code, facts, Sweep(cat, goals, facts, now, src, p), now)
    decreases ActiveSet(facts), 2 * |facts| - p, 1
  {
    if p < 2 * |facts| {
      var next := Strike(cat, goals, facts, now, src, p);
      assert ActiveSet(next) <= ActiveSet(facts);
      StrikeClimbs(cat, rank, goals, facts, now, src, p);
      ThinnedIsSame(facts, next, now);
      RankedPersists(cat, rank, facts, next);
      SweepClimbs(cat, rank, goals, next, now, src, p + 1);
      var r := Sweep(cat, goals, next, now, src, p + 1);
      assert r == Sweep(cat, goals, facts, now, src, p);
      SparedChain(rank, facts[src].code, facts, next, r, now);
    }
  }

  lemma SparedChain(
    rank: map<string, nat>, code: string, a: seq<FactRecord>, b: seq<FactRecord>, c: seq<FactRecord>, now: nat)
    requires AllSpared(rank, code, a, b, now) && AllSpared(rank, code, b, c, now)
    ensures AllSpared(rank, code, a, c, now)
  {
    forall i | 0 <= i < |a|
      ensures Spared(rank, code, a, c, i, now)
    {
      assert Spared(rank, code, a, b, i, now) && Spared(rank, code, b, c, i, now);
    }
  }

  lemma {:induction false} StrikeClimbs(
    cat: Catalogue, rank: map<string, nat>, goals: seq<GoalRecord>, facts: seq<FactRecord>, now: nat,
    src: nat, p: nat)
    requires Ranked(cat, rank) && FactsRanked(cat, rank, facts)
    requires src < |facts| && p < 2 * |facts|
    ensures AllSpared(rank, facts[src].code, facts, Strike(cat, goals, facts, now, src, p), now)
    decreases ActiveSet(facts), 2 * |facts| - p, 0
  {
    if Hit(cat, goals, facts, src, p) {
      var i := At(|facts|, p);
      var marked := facts[i := Invalidated(facts[i], now)];
      assert i in ActiveSet(facts) && i !in ActiveSet(marked);
      assert FactRanked(cat, rank, facts, i) && FactRanked(cat, rank, facts, src);
      assert rank[facts[src].code] < rank[facts[i].code];
      ThinnedIsSame(facts, marked, now);
      RankedPersists(cat, rank, facts, marked);
      SweepClimbs(cat, rank, goals, marked, now, i, 0);
      var r := Sweep(cat, goals, marked, now, i, 0);
      forall j | 0 <= j < |facts|
        ensures Spared(rank, facts[src].code, facts, r, j, now)
      {
        assert Spared(rank, facts[i].code, marked, r, j, now);
      }
    }
  }

  lemma MarkedRanked(
    cat: Catalogue, rank: map<string, nat>, facts: seq<FactRecord>, i: nat, why: Supersession, now: nat,
    successor: Option<nat>)
    requires FactsRanked(cat, rank, facts) && i < |facts|
    ensures FactsRanked(cat, rank, facts[i := Mark(facts[i], why, now, successor)])
  {
    var marked := facts[i := Mark(facts[i], why, now, successor)];
    forall j | 0 <= j < |facts|
      ensures FactRanked(cat, rank, marked, j)
    {
      assert FactRanked(cat, rank, facts, j);
    }
  }

  /** Superseding an active fact: the fact is marked, the rest is spared, the losses are closed. */
  lemma SupersedeSpares(
    cat: Catalogue, rank: map<string, nat>, goals: seq<GoalRecord>, facts: seq<FactRecord>, now: nat,
    i: nat, why: Supersession, successor: Option<nat>)
    requires Ranked(cat, rank) && FactsRanked(cat, rank, facts) && i < |facts|
    ensures var r := Supersede(cat, goals, facts, now, i, why, successor);
            && r[i] == Mark(facts[i], why, now, successor)
            && (forall j | 0 <= j < |facts| && j != i :: Spared(rank, facts[i].code, facts, r, j, now))
            && LossesClosed(cat, goals, facts, r)
            && FactsRanked(cat, rank, r)
  {
    assert FactRanked(cat, rank, facts, i);
    var marked := facts[i := Mark(facts[i], why, now, successor)];
    var r := Supersede(cat, goals, facts, now, i, why, successor);
    MarkedRanked(cat, rank, facts, i, why, now, successor);
    SweepClimbs(cat, rank, goals, marked, now, i, 0);
    SweepCloses(cat, goals, marked, now, i, 0);
    SweepClosesSource(cat, goals, marked, now, i);
    forall j | 0 <= j < |facts| && j != i
      ensures Spared(rank, facts[i].code, facts, r, j, now)
    {
      assert Spared(rank, facts[i].code, marked, r, j, now);
    }
    assert r[i] == marked[i] by {
      assert Spared(rank, facts[i].code, marked, r, i, now);
    }
    ThinnedIsSame(marked, r, now);
    RankedPersists(cat, rank, marked, r);
  }

  /** Every fact named in ids but not kept is marked; the rest is spared. */
  ghost predicate MarkedOrSpared(
    rank: map<string, nat>, code: string, a: seq<FactRecord>, b: seq<FactRecord>, now: nat,
    ids: seq<nat>, keep: Option<nat>, why: Supersession, successor: nat)
  {
    && |a| == |b|
    && forall i | 0 <= i < |a| ::
         if i in ids && keep != Some(i) then b[i] == Mark(a[i], why, now, Some(successor))
         else Spared(rank, code, a, b, i, now)
  }

  lemma {:induction false} SupersedeEachSpares(
    cat: Catalogue, rank: map<string, nat>, goals: seq<GoalRecord>, facts: seq<FactRecord>, now: nat,
    code: string, ids: seq<nat>, keep: Option<nat>, why: Supersession, successor: nat)
    requires Ranked(cat, rank) && FactsRanked(cat, rank, facts)
    requires forall x | 0 <= x < |ids| :: ids[x] < |facts| && facts[ids[x]].code == code
    requires forall x, y | 0 <= x < y < |ids| :: ids[x] < ids[y]
    ensures var r := SupersedeEach(cat, goals, facts, now, ids, keep, why, successor);
            && MarkedOrSpared(rank, code, facts, r, now, ids, keep, why, successor)
            && LossesClosed(cat, goals, facts, r)
            && FactsRanked(cat, rank, r)
    decreases |ids|
  {
    if ids != [] {
      var rest := ids[1..];
      var next := facts;
      if keep != Some(ids[0]) {
        next := Supersede(cat, goals, facts, now, ids[0], why, Some(successor));
        SupersedeSpares(cat, rank, goals, facts, now, ids[0], why, Some(successor));
      }
      forall x | 0 <= x < |rest|
        ensures rest[x] < |next| && next[rest[x]].code == code
      {
        assert rest[x] == ids[x + 1];
      }
      SupersedeEachSpares(cat, rank, goals, next, now, code, rest, keep, why, successor);
      var r := SupersedeEach(cat, goals, next, now, rest, keep, why, successor);
      EachStep(cat, rank, goals, facts, next, r, now, code, ids, keep, why, successor);
      MarkedIsSame(rank, code, next, r, now, rest, keep, why, successor);
      LossesCompose(cat, goals, facts, next, r);
    }
  }

  lemma MarkedIsSame(
    rank: map<string, nat>, code: string, a: seq<FactRecord>, b: seq<FactRecord>, now: nat,
    ids: seq<nat>, keep: Option<nat>, why: Supersession, successor: nat)
    requires MarkedOrSpared(rank, code, a, b, now, ids, keep, why, successor)
    ensures SameFacts(a, b)
  {
    forall i | 0 <= i < |a|
      ensures SameFact(a[i], b[i])
    {
      assert (i in ids && keep != Some(i)) || Spared(rank, code, a, b, i, now);
    }
  }

  lemma LossesCompose(
    cat: Catalogue, goals: seq<GoalRecord>, a: seq<FactRecord>, b: seq<FactRecord>, c: seq<FactRecord>)
    requires |a| == |b| && SameFacts(b, c)
    requires LossesClosed(cat, goals, a, b) && LossesClosed(cat, goals, b, c)
    ensures LossesClosed(cat, goals, a, c)
  {
    forall j | 0 <= j < |c| && a[j].active && !c[j].active
      ensures Closed(cat, goals, c, j)
    {
      if !b[j].active {
        forall i | 0 <= i < |c|
          ensures !Touches(cat, goals, c, j, i)
        {
          assert !Touches(cat, goals, b, j, i);
          assert SameFact(b[i], c[i]) && SameFact(b[j], c[j]);
        }
      }
    }
  }

  lemma EachStep(
    cat: Catalogue, rank: map<string, nat>, goals: seq<GoalRecord>,
    facts: seq<FactRecord>, next: seq<FactRecord>, r: seq<FactRecord>, now: nat,
    code: string, ids: seq<nat>, keep: Option<nat>, why: Supersession, successor: nat)
    requires ids != [] && ids[0] < |facts| == |next| == |r|
    requires forall x | 0 <= x < |ids| :: ids[x] < |facts| && facts[ids[x]].code == code
    requires forall x, y | 0 <= x < y < |ids| :: ids[x] < ids[y]
    requires forall j | 0 <= j < |facts| && j != ids[0] :: Spared(rank, code, facts, next, j, now)
    requires keep != Some(ids[0]) ==> next[ids[0]] == Mark(facts[ids[0]], why, now, Some(successor))
    requires keep == Some(ids[0]) ==> next == facts
    requires MarkedOrSpared(rank, code, next, r, now, ids[1..], keep, why, successor)
    ensures MarkedOrSpared(rank, code, facts, r, now, ids, keep, why, successor)
  {
    var rest := ids[1..];
    assert ids == [ids[0]] + rest;
    forall i | 0 <= i < |facts|
      ensures if i in ids && keep != Some(i) then r[i] == Mark(facts[i], why, now, Some(successor))
              else Spared(rank, code, facts, r, i, now)
    {
      if i in rest {
        assert i != ids[0];
        assert facts[i].code == code;
        assert Spared(rank, code, facts, next, i, now);
      } else if i != ids[0] {
        assert Spared(rank, code, facts, next, i, now) && Spared(rank, code, next, r, i, now);
      } else {
        assert Spared(rank, code, next, r, i, now);
      }
    }
  }
}
