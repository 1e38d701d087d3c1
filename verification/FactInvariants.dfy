/** What holds of the facts in every reachable state, kept by every insertion. */
module FactInvariants {
  import opened Catalog
  import opened State
  import opened Cascade
  import opened Recording
  import opened Effects
  import opened Insertion

  /** An active fact rests on active facts only. */
  ghost predicate Grounded(facts: seq<FactRecord>) {
    forall i | 0 <= i < |facts| :: GroundedAt(facts, i)
  }

  ghost predicate GroundedAt(facts: seq<FactRecord>, i: nat)
    requires i < |facts|
  {
    facts[i].active ==> forall x | x in facts[i].derivedFrom :: x < |facts| && facts[x].active
  }

  /** A gated value is confirmed only with authority, and authority comes from an accepted source. */
  ghost predicate Trusted(cat: Catalogue, f: FactRecord) {
    && f.source in FactOf(cat, f.code).allowedSources
    && (f.authoritative ==> f.source in cat.accepted)
    && (f.confidence == CONFIRMED && NeedsSignal(cat, f.code, f.value) ==> f.authoritative)
  }

  ghost predicate AllTrusted(cat: Catalogue, facts: seq<FactRecord>) {
    forall i | 0 <= i < |facts| :: Trusted(cat, facts[i])
  }

  /** Facts are stored in the order they were recorded, none later than now. */
  ghost predicate Timed(facts: seq<FactRecord>, now: nat) {
    && (forall i, j | 0 <= i <= j < |facts| :: facts[i].recordedAt <= facts[j].recordedAt)
    && (forall i | 0 <= i < |facts| :: Past(facts[i], now))
  }

  ghost predicate Past(f: FactRecord, now: nat) {
    f.recordedAt <= now && (f.supersededAt.Some? ==> f.supersededAt.value <= now)
  }

  /** A successor is a fact of the same scope key, and only a superseded fact has one. */
  ghost predicate Linked(cat: Catalogue, facts: seq<FactRecord>) {
    forall i | 0 <= i < |facts| :: LinkedAt(cat, facts, i)
  }

  ghost predicate LinkedAt(cat: Catalogue, facts: seq<FactRecord>, i: nat)
    requires i < |facts|
  {
    && (facts[i].active ==> facts[i].supersededBy.None? && facts[i].supersededAt.None?)
    && (facts[i].supersededBy.Some? ==>
          facts[i].supersededBy.value < |facts|
          && KeyOf(cat, facts[facts[i].supersededBy.value]) == KeyOf(cat, facts[i]))
  }

  /** h climbs along every successor link. */
  ghost predicate ClimbsLinks(facts: seq<FactRecord>, h: seq<nat>) {
    && |h| == |facts|
    && forall i | 0 <= i < |facts| && facts[i].supersededBy.Some? && facts[i].supersededBy.value < |h| ::
         h[i] < h[facts[i].supersededBy.value]
  }

  /** Following successors never comes back. */
  ghost predicate NoLinkCycle(facts: seq<FactRecord>) {
    exists h :: ClimbsLinks(facts, h)
  }

  ghost predicate FactsOk(cat: Catalogue, rank: map<string, nat>, facts: seq<FactRecord>, now: nat) {
    && FactsRanked(cat, rank, facts)
    && Distinct(cat, facts)
    && Grounded(facts)
    && AllTrusted(cat, facts)
    && Timed(facts, now)
    && Linked(cat, facts)
    && NoLinkCycle(facts)
  }

  /** What the checks before an insertion establish. */
  ghost predicate Fit(cat: Catalogue, e: Entry) {
    && e.code in cat.facts
    && e.source in cat.facts[e.code].allowedSources
    && (e.authoritative ==> e.source in cat.accepted)
    && (NeedsSignal(cat, e.code, e.value) && e.source != DERIVED_RULE && !e.authoritative ==>
          e.confidence == UNCERTAIN)
  }

  /** The premises of a derivation are active and rank below the conclusion. */
  ghost predicate Sound(
    cat: Catalogue, rank: map<string, nat>, facts: seq<FactRecord>, code: string, derivedFrom: seq<nat>)
  {
    code in rank && forall x | x in derivedFrom ::
      x < |facts| && facts[x].active && facts[x].code in rank && rank[facts[x].code] < rank[code]
  }

  lemma AdmittedFit(cat: Catalogue, input: FactInput, mode: Mode)
    ensures Admitted(cat, input, mode).Ok? ==>
              Fit(cat, Admitted(cat, input, mode).value) && Admitted(cat, input, mode).value.code == input.code
  {
  }

  lemma NotAboveItself(rank: map<string, nat>, code: string, a: seq<FactRecord>, b: seq<FactRecord>, i: nat, now: nat)
    requires i < |a| && i < |b| && Spared(rank, code, a, b, i, now)
    requires a[i].code in rank && code in rank && rank[a[i].code] <= rank[code]
    ensures b[i] == a[i]
  {
  }

  lemma InsertKeepsRanked(
    cat: Catalogue, rank: map<string, nat>, goals: seq<GoalRecord>, a: seq<FactRecord>, b: seq<FactRecord>,
    now: nat, o: Owner, e: Entry, mode: Mode, d: seq<nat>)
    requires Inserted(cat, rank, goals, a, b, now, o, e, mode, d)
    requires FactsRanked(cat, rank, a) && e.code in cat.facts && Sound(cat, rank, a, e.code, d)
    ensures FactsRanked(cat, rank, b)
  {
    FatesAreHistory(cat, rank, a, b, now, o, e);
    var old_ := b[..|a|];
    assert SameFacts(a, old_) by {
      forall i | 0 <= i < |a|
        ensures SameFact(a[i], old_[i])
      {
        assert Evolved(a[i], b[i]);
      }
    }
    RankedPersists(cat, rank, a, old_);
    forall i | 0 <= i < |b|
      ensures FactRanked(cat, rank, b, i)
    {
      if i < |a| {
        assert FactRanked(cat, rank, old_, i);
      } else {
        forall x | x in b[i].derivedFrom
          ensures x < i && b[x].code in rank && rank[b[x].code] < rank[b[i].code]
        {
          assert x in d && Evolved(a[x], b[x]);
        }
      }
    }
  }

  lemma InsertKeepsDistinct(
    cat: Catalogue, rank: map<string, nat>, goals: seq<GoalRecord>, a: seq<FactRecord>, b: seq<FactRecord>,
    now: nat, o: Owner, e: Entry, mode: Mode, d: seq<nat>)
    requires Inserted(cat, rank, goals, a, b, now, o, e, mode, d) && Distinct(cat, a)
    ensures Distinct(cat, b)
  {
    FatesAreHistory(cat, rank, a, b, now, o, e);
    NewFactKey(cat, o, e, now, d);
    forall i, j | 0 <= i < j < |b| && b[i].active && b[j].active
      ensures Differ(cat, b[i], b[j])
    {
      assert Evolved(a[i], b[i]);
      if j < |a| {
        assert Evolved(a[j], b[j]) && Differ(cat, a[i], a[j]);
      }
    }
  }

  lemma InsertKeepsGrounded(
    cat: Catalogue, rank: map<string, nat>, goals: seq<GoalRecord>, a: seq<FactRecord>, b: seq<FactRecord>,
    now: nat, o: Owner, e: Entry, mode: Mode, d: seq<nat>)
    requires Inserted(cat, rank, goals, a, b, now, o, e, mode, d)
    requires Grounded(a) && FactsRanked(cat, rank, a) && Sound(cat, rank, a, e.code, d)
    ensures Grounded(b)
  {
    FatesAreHistory(cat, rank, a, b, now, o, e);
    var old_ := b[..|a|];
    forall i | 0 <= i < |b|
      ensures GroundedAt(b, i)
    {
      if b[i].active {
        forall x | x in b[i].derivedFrom
          ensures x < |b| && b[x].active
        {
          if i < |a| {
            assert Evolved(a[i], b[i]) && GroundedAt(a, i);
            assert a[x].active && Touches(cat, goals, old_, x, i);
          } else {
            assert x in d;
            assert FactRanked(cat, rank, a, x) && Fate(cat, rank, a, b, now, o, e, x);
            if !IsLive(cat, a[x], KeyFor(cat, e.code, o)) {
              NotAboveItself(rank, e.code, a, b, x, now);
            }
          }
        }
      }
    }
  }

  lemma InsertKeepsTrust(
    cat: Catalogue, rank: map<string, nat>, goals: seq<GoalRecord>, a: seq<FactRecord>, b: seq<FactRecord>,
    now: nat, o: Owner, e: Entry, mode: Mode, d: seq<nat>)
    requires Valid(cat)
    requires Inserted(cat, rank, goals, a, b, now, o, e, mode, d) && AllTrusted(cat, a) && Fit(cat, e)
    ensures AllTrusted(cat, b)
  {
    FatesAreHistory(cat, rank, a, b, now, o, e);
    GatedNotDerived(cat, e);
    forall i | 0 <= i < |b|
      ensures Trusted(cat, b[i])
    {
      if i < |a| {
        assert Trusted(cat, a[i]) && Evolved(a[i], b[i]) && Fate(cat, rank, a, b, now, o, e, i);
        FateKeepsTrust(cat, rank, a, b, now, o, e, i);
      }
    }
  }

  lemma GatedNotDerived(cat: Catalogue, e: Entry)
    requires Valid(cat) && Fit(cat, e)
    ensures NeedsSignal(cat, e.code, e.value) ==> e.source != DERIVED_RULE
  {
    var def := cat.facts[e.code];
    if NeedsSignal(cat, e.code, e.value) {
      assert def.authoritativeOnly || def.authoritativeValues != {};
    }
  }

  /** No insertion raises the confidence of a gated fact without authority. */
  lemma FateKeepsTrust(
    cat: Catalogue, rank: map<string, nat>, a: seq<FactRecord>, b: seq<FactRecord>,
    now: nat, o: Owner, e: Entry, i: nat)
    requires i < |a| <= |b| && Fate(cat, rank, a, b, now, o, e, i) && Evolved(a[i], b[i])
    requires Fit(cat, e) && (NeedsSignal(cat, e.code, e.value) ==> e.source != DERIVED_RULE)
    requires Trusted(cat, a[i])
    ensures Trusted(cat, b[i])
  {
  }

  lemma InsertKeepsTime(
    cat: Catalogue, rank: map<string, nat>, goals: seq<GoalRecord>, a: seq<FactRecord>, b: seq<FactRecord>,
    now: nat, o: Owner, e: Entry, mode: Mode, d: seq<nat>)
    requires Inserted(cat, rank, goals, a, b, now, o, e, mode, d) && Timed(a, now)
    ensures Timed(b, now)
  {
    FatesAreHistory(cat, rank, a, b, now, o, e);
    forall i | 0 <= i < |b|
      ensures Past(b[i], now)
    {
      if i < |a| {
        assert Past(a[i], now) && Evolved(a[i], b[i]) && Fate(cat, rank, a, b, now, o, e, i);
      }
    }
    forall i, j | 0 <= i <= j < |b|
      ensures b[i].recordedAt <= b[j].recordedAt
    {
      if i < |a| {
        assert Evolved(a[i], b[i]) && Past(a[i], now);
        if j < |a| {
          assert Evolved(a[j], b[j]);
        }
      }
    }
  }

  lemma InsertKeepsLinks(
    cat: Catalogue, rank: map<string, nat>, goals: seq<GoalRecord>, a: seq<FactRecord>, b: seq<FactRecord>,
    now: nat, o: Owner, e: Entry, mode: Mode, d: seq<nat>)
    requires Inserted(cat, rank, goals, a, b, now, o, e, mode, d) && Linked(cat, a)
    ensures Linked(cat, b)
  {
    FatesAreHistory(cat, rank, a, b, now, o, e);
    forall i | 0 <= i < |b|
      ensures LinkedAt(cat, b, i)
    {
      if i < |a| {
        assert LinkedAt(cat, a, i) && Evolved(a[i], b[i]) && Fate(cat, rank, a, b, now, o, e, i);
        if a[i].supersededBy.Some? {
          var t := a[i].supersededBy.value;
          assert Evolved(a[t], b[t]);
        }
      }
    }
  }

  function Bound(h: seq<nat>): (m: nat)
    ensures forall i | 0 <= i < |h| :: h[i] < m
  {
    if h == [] then 0 else var m := Bound(h[1..]); if h[0] < m then m else h[0] + 1
  }

  /** A fact that gets a successor gets a live one, and live facts have none:
      lift all live facts above the rest. */
  lemma InsertKeepsAcyclic(
    cat: Catalogue, rank: map<string, nat>, goals: seq<GoalRecord>, a: seq<FactRecord>, b: seq<FactRecord>,
    now: nat, o: Owner, e: Entry, mode: Mode, d: seq<nat>)
    requires Inserted(cat, rank, goals, a, b, now, o, e, mode, d)
    requires Linked(cat, a) && Linked(cat, b) && NoLinkCycle(a)
    ensures NoLinkCycle(b)
  {
    var h :| ClimbsLinks(a, h);
    var top := Bound(h);
    var g := seq(|b|, i requires 0 <= i < |b| => if b[i].active || i >= |h| then top else h[i]);
    forall i | 0 <= i < |b| && b[i].supersededBy.Some? && b[i].supersededBy.value < |g|
      ensures g[i] < g[b[i].supersededBy.value]
    {
      assert LinkedAt(cat, b, i);
      assert i < |a|;
      assert LinkedAt(cat, a, i) && Fate(cat, rank, a, b, now, o, e, i);
      assert h[i] < top;
      if !a[i].active {
        assert b[i] == a[i];
        assert LinkedAt(cat, a, i);
      }
    }
    assert ClimbsLinks(b, g);
  }

  /** One insertion keeps everything. */
  lemma InsertKeepsFacts(
    cat: Catalogue, rank: map<string, nat>, goals: seq<GoalRecord>, a: seq<FactRecord>, now: nat,
    o: Owner, e: Entry, mode: Mode, d: seq<nat>)
    requires Valid(cat) && Ranked(cat, rank) && FactsOk(cat, rank, a, now)
    requires Fit(cat, e) && Sound(cat, rank, a, e.code, d)
    ensures var b := Insert(cat, goals, a, now, o, e, mode, d);
            FactsOk(cat, rank, b, now) && History(a, b)
  {
    var b := Insert(cat, goals, a, now, o, e, mode, d);
    InsertFates(cat, rank, goals, a, now, o, e, mode, d);
    FatesAreHistory(cat, rank, a, b, now, o, e);
    InsertKeepsRanked(cat, rank, goals, a, b, now, o, e, mode, d);
    InsertKeepsDistinct(cat, rank, goals, a, b, now, o, e, mode, d);
    InsertKeepsGrounded(cat, rank, goals, a, b, now, o, e, mode, d);
    InsertKeepsTrust(cat, rank, goals, a, b, now, o, e, mode, d);
    InsertKeepsTime(cat, rank, goals, a, b, now, o, e, mode, d);
    InsertKeepsLinks(cat, rank, goals, a, b, now, o, e, mode, d);
    InsertKeepsAcyclic(cat, rank, goals, a, b, now, o, e, mode, d);
  }
}
