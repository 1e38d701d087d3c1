/** The summary of one insertion, from which every invariant of the facts follows. */
module Insertion {
  import opened Basics
  import opened Catalog
  import opened State
  import opened Cascade
  import opened Recording
  import opened Effects

  /** A live fact of the scope key has been superseded by this insertion. */
  ghost predicate Replaced(
    cat: Catalogue, a: seq<FactRecord>, b: seq<FactRecord>, i: nat, now: nat, key: Key)
    requires i < |a| && i < |b|
  {
    && a[i].active && !b[i].active && SameFact(a[i], b[i]) && b[i].supersededAt == Some(now)
    && (b[i].confidence == a[i].confidence || b[i].confidence == CONFLICTING)
    && (b[i].supersededBy.Some? ==>
          var t := b[i].supersededBy.value;
          t < |b| && b[t].active && KeyOf(cat, b[t]) == key && (t >= |a| || a[t].active))
  }

  /** What became of old fact i. */
  ghost predicate Fate(
    cat: Catalogue, rank: map<string, nat>, a: seq<FactRecord>, b: seq<FactRecord>, now: nat,
    o: Owner, e: Entry, i: nat)
    requires i < |a| && i < |b|
  {
    var key := KeyFor(cat, e.code, o);
    if !IsLive(cat, a[i], key) then Spared(rank, e.code, a, b, i, now)
    else
      || b[i] == a[i]
      || (b[i] == Rated(a[i], e) && a[i].value == e.value && (e.authoritative ==> a[i].authoritative))
      || (|b| == |a| + 1 && b[i] == a[i].(confidence := CONFLICTING, conflictsWith := Some(|a|)))
      || Replaced(cat, a, b, i, now, key)
  }

  ghost predicate Fates(
    cat: Catalogue, rank: map<string, nat>, a: seq<FactRecord>, b: seq<FactRecord>, now: nat, o: Owner, e: Entry)
  {
    |a| <= |b| && forall i | 0 <= i < |a| :: Fate(cat, rank, a, b, now, o, e, i)
  }

  /** The record an insertion adds, if it adds one. */
  ghost predicate Appended(
    cat: Catalogue, a: seq<FactRecord>, b: seq<FactRecord>, now: nat, o: Owner, e: Entry, derivedFrom: seq<nat>)
    requires |a| < |b|
  {
    var f := b[|a|];
    && f.active && f.supersededBy.None? && f.supersededAt.None? && f.reason.None?
    && SameFact(NewFact(cat, o, e, now, derivedFrom), f)
    && (f.confidence == e.confidence || f.confidence == CONFLICTING)
  }

  /** No two active facts of a scope key have the same value. */
  ghost predicate Distinct(cat: Catalogue, facts: seq<FactRecord>) {
    forall i, j | 0 <= i < j < |facts| && facts[i].active && facts[j].active :: Differ(cat, facts[i], facts[j])
  }

  ghost predicate Differ(cat: Catalogue, f: FactRecord, g: FactRecord) {
    KeyOf(cat, f) == KeyOf(cat, g) ==> f.value != g.value
  }

  /** Everything later proofs use about b := Insert(a, ...). */
  ghost predicate Inserted(
    cat: Catalogue, rank: map<string, nat>, goals: seq<GoalRecord>, a: seq<FactRecord>, b: seq<FactRecord>,
    now: nat, o: Owner, e: Entry, mode: Mode, derivedFrom: seq<nat>)
  {
    var key := KeyFor(cat, e.code, o);
    && |a| <= |b| <= |a| + 1
    && Fates(cat, rank, a, b, now, o, e)
    && LossesClosed(cat, goals, a, b[..|a|])
    && (|b| == |a| + 1 ==>
          && Appended(cat, a, b, now, o, e, derivedFrom)
          && forall i | 0 <= i < |a| && b[i].active && KeyOf(cat, a[i]) == key :: a[i].value != e.value)
    && (mode != ASSERT && !FactOf(cat, e.code).repeatable ==>
          exists n | 0 <= n < |b| ::
            && IsLive(cat, b[n], key) && b[n].value == e.value && b[n].conflictsWith.None?
            && forall i | 0 <= i < |b| && IsLive(cat, b[i], key) :: i == n)
  }

  /** SupersedeEach over the live facts of m, seen from an equal or earlier moment. */
  lemma LiveMarked(
    cat: Catalogue, rank: map<string, nat>, goals: seq<GoalRecord>, m: seq<FactRecord>, now: nat,
    live: seq<nat>, key: Key, keep: Option<nat>, why: Supersession, successor: nat)
    requires Ranked(cat, rank) && FactsRanked(cat, rank, m)
    requires forall x | 0 <= x < |live| :: live[x] < |m| && m[live[x]].code == key.code
    requires forall x, y | 0 <= x < y < |live| :: live[x] < live[y]
    ensures var r := SupersedeEach(cat, goals, m, now, live, keep, why, successor);
            && SameFacts(m, r)
            && (forall i | 0 <= i < |m| ::
                  if i in live && keep != Some(i) then r[i] == Mark(m[i], why, now, Some(successor))
                  else Spared(rank, key.code, m, r, i, now))
            && LossesClosed(cat, goals, m, r)
  {
    SupersedeEachSpares(cat, rank, goals, m, now, key.code, live, keep, why, successor);
    MarkedIsSame(rank, key.code, m, SupersedeEach(cat, goals, m, now, live, keep, why, successor), now,
      live, keep, why, successor);
  }

  /** The list names exactly the live facts under the key, oldest first. */
  ghost predicate Lists(cat: Catalogue, facts: seq<FactRecord>, key: Key, live: seq<nat>) {
    && (forall x | 0 <= x < |live| :: live[x] < |facts| && facts[live[x]].code == key.code)
    && (forall x, y | 0 <= x < y < |live| :: live[x] < live[y])
    && (forall i: nat | i < |facts| :: i in live <==> IsLive(cat, facts[i], key))
  }

  lemma LiveLists(cat: Catalogue, facts: seq<FactRecord>, key: Key)
    ensures Lists(cat, facts, key, Live(cat, facts, key))
  {
  }

  lemma ReaffirmFates(
    cat: Catalogue, rank: map<string, nat>, goals: seq<GoalRecord>, a: seq<FactRecord>, now: nat,
    o: Owner, e: Entry, live: seq<nat>, mode: Mode, same: nat)
    requires Ranked(cat, rank) && FactsRanked(cat, rank, a)
    requires Lists(cat, a, KeyFor(cat, e.code, o), live)
    requires same < |a| && IsLive(cat, a[same], KeyFor(cat, e.code, o)) && a[same].value == e.value
    requires e.authoritative ==> a[same].authoritative
    ensures var b := Reaffirm(cat, goals, a, now, live, same, e, mode);
            && Fates(cat, rank, a, b, now, o, e)
            && LossesClosed(cat, goals, a, b)
            && b[same].active && b[same].conflictsWith.None?
            && (forall x | 0 <= x < |live| && live[x] != same :: !b[live[x]].active)
  {
    var why := ReaffirmReason(e, mode);
    LiveMarked(cat, rank, goals, a, now, live, KeyFor(cat, e.code, o), Some(same), why, same);
    var mid := SupersedeEach(cat, goals, a, now, live, Some(same), why, same);
    var b := Reaffirm(cat, goals, a, now, live, same, e, mode);
    assert mid[same] == a[same] by {
      assert Spared(rank, e.code, a, mid, same, now);
    }
    forall i | 0 <= i < |a|
      ensures Fate(cat, rank, a, b, now, o, e, i)
    {
      ReaffirmFate(cat, rank, a, mid, b, now, o, e, why, same, i);
    }
    assert SameFacts(mid, b);
    LossesCompose(cat, goals, a, mid, b);
    forall x | 0 <= x < |live| && live[x] != same
      ensures !b[live[x]].active
    {
      assert live[x] in live;
    }
  }

  lemma ReaffirmFate(
    cat: Catalogue, rank: map<string, nat>, a: seq<FactRecord>, mid: seq<FactRecord>, b: seq<FactRecord>, now: nat,
    o: Owner, e: Entry, why: Supersession, same: nat, i: nat)
    requires |a| == |mid| && same < |a| && i < |a|
    requires b == mid[same := Rated(mid[same], e)] && mid[same] == a[same]
    requires IsLive(cat, a[same], KeyFor(cat, e.code, o)) && a[same].value == e.value
    requires e.authoritative ==> a[same].authoritative
    requires if IsLive(cat, a[i], KeyFor(cat, e.code, o)) && i != same
             then mid[i] == Mark(a[i], why, now, Some(same))
             else Spared(rank, e.code, a, mid, i, now)
    ensures Fate(cat, rank, a, b, now, o, e, i)
  {
  }

  lemma StartSpares(
    cat: Catalogue, rank: map<string, nat>, goals: seq<GoalRecord>, a: seq<FactRecord>, now: nat, same: nat)
    requires Ranked(cat, rank) && FactsRanked(cat, rank, a) && same < |a|
    ensures var s := Supersede(cat, goals, a, now, same, SYSTEM_REPLACEMENT, None);
            && SameFacts(a, s) && FactsRanked(cat, rank, s) && LossesClosed(cat, goals, a, s)
            && (forall i | 0 <= i < |a| ::
                  if i == same then s[i] == Mark(a[i], SYSTEM_REPLACEMENT, now, None)
                  else Spared(rank, a[same].code, a, s, i, now))
  {
    SupersedeSpares(cat, rank, goals, a, now, same, SYSTEM_REPLACEMENT, None);
    var s := Supersede(cat, goals, a, now, same, SYSTEM_REPLACEMENT, None);
    forall i | 0 <= i < |a|
      ensures SameFact(a[i], s[i])
    {
      assert i == same || Spared(rank, a[same].code, a, s, i, now);
    }
  }

  /** The state after a promoted claim, if any, has been set aside. */
  ghost predicate Started(
    cat: Catalogue, rank: map<string, nat>, goals: seq<GoalRecord>, a: seq<FactRecord>, start: seq<FactRecord>,
    now: nat, code: string, same: Option<nat>)
  {
    && SameFacts(a, start) && FactsRanked(cat, rank, start) && LossesClosed(cat, goals, a, start)
    && (same.Some? ==> same.value < |a| && a[same.value].active)
    && (forall i | 0 <= i < |a| ::
          if same == Some(i) then start[i] == Mark(a[i], SYSTEM_REPLACEMENT, now, None)
          else Spared(rank, code, a, start, i, now))
  }

  lemma CorrectionFates(
    cat: Catalogue, rank: map<string, nat>, goals: seq<GoalRecord>, a: seq<FactRecord>, start: seq<FactRecord>,
    now: nat, o: Owner, e: Entry, live: seq<nat>, same: Option<nat>, why: Supersession, fact: FactRecord)
    requires Ranked(cat, rank) && FactsRanked(cat, rank, a)
    requires Started(cat, rank, goals, a, start, now, e.code, same)
    requires Lists(cat, a, KeyFor(cat, e.code, o), live)
    requires same.Some? ==> IsLive(cat, a[same.value], KeyFor(cat, e.code, o))
    requires fact.active && KeyOf(cat, fact) == KeyFor(cat, e.code, o)
    ensures var mid := SupersedeEach(cat, goals, start, now, live, None, why, |a|);
            && Fates(cat, rank, a, mid + [fact], now, o, e)
            && LossesClosed(cat, goals, a, mid) && SameFacts(start, mid)
            && (forall x | 0 <= x < |live| :: !mid[live[x]].active)
  {
    var key := KeyFor(cat, e.code, o);
    forall x | 0 <= x < |live|
      ensures start[live[x]].code == key.code
    {
      assert SameFact(a[live[x]], start[live[x]]);
    }
    LiveMarked(cat, rank, goals, start, now, live, key, None, why, |a|);
    var mid := SupersedeEach(cat, goals, start, now, live, None, why, |a|);
    forall i | 0 <= i < |a|
      ensures Fate(cat, rank, a, mid + [fact], now, o, e, i)
    {
      CorrectionFate(cat, rank, a, start, mid, now, o, e, same, why, fact, i);
    }
    LossesCompose(cat, goals, a, start, mid);
    forall x | 0 <= x < |live|
      ensures !mid[live[x]].active
    {
      assert live[x] in live;
    }
  }

  lemma CorrectionFate(
    cat: Catalogue, rank: map<string, nat>, a: seq<FactRecord>, start: seq<FactRecord>, mid: seq<FactRecord>,
    now: nat, o: Owner, e: Entry, same: Option<nat>, why: Supersession, fact: FactRecord, i: nat)
    requires |a| == |start| == |mid| && i < |a| && SameFact(a[i], start[i])
    requires same == Some(i) ==> IsLive(cat, a[i], KeyFor(cat, e.code, o))
                                 && start[i] == Mark(a[i], SYSTEM_REPLACEMENT, now, None)
    requires same != Some(i) ==> Spared(rank, e.code, a, start, i, now)
    requires if IsLive(cat, a[i], KeyFor(cat, e.code, o))
             then mid[i] == Mark(start[i], why, now, Some(|a|))
             else Spared(rank, e.code, start, mid, i, now)
    requires fact.active && KeyOf(cat, fact) == KeyFor(cat, e.code, o)
    ensures Fate(cat, rank, a, mid + [fact], now, o, e, i)
  {
  }

  /** The fate of a fact when at most the incumbent is disputed or replaced. */
  lemma IncumbentFate(
    cat: Catalogue, rank: map<string, nat>, a: seq<FactRecord>, start: seq<FactRecord>, mid: seq<FactRecord>,
    now: nat, o: Owner, e: Entry, same: Option<nat>, fact: FactRecord, inc: nat, i: nat)
    requires |a| == |start| == |mid| && i < |a| && inc < |a|
    requires SameFact(a[i], start[i])
    requires same == Some(i) ==> IsLive(cat, a[i], KeyFor(cat, e.code, o))
                                 && start[i] == Mark(a[i], SYSTEM_REPLACEMENT, now, None)
    requires same != Some(i) ==> Spared(rank, e.code, a, start, i, now)
    requires IsLive(cat, a[inc], KeyFor(cat, e.code, o))
    requires i == inc ==>
               || mid[i] == start[i].(confidence := CONFLICTING, conflictsWith := Some(|a|))
               || mid[i] == Mark(start[i], SYSTEM_REPLACEMENT, now, Some(|a|))
    requires i != inc ==> Spared(rank, e.code, start, mid, i, now)
    requires fact.active && KeyOf(cat, fact) == KeyFor(cat, e.code, o)
    ensures Fate(cat, rank, a, mid + [fact], now, o, e, i)
  {
  }

  lemma DisputeFates(
    cat: Catalogue, rank: map<string, nat>, goals: seq<GoalRecord>, a: seq<FactRecord>, start: seq<FactRecord>,
    now: nat, o: Owner, e: Entry, same: Option<nat>, inc: nat, fact: FactRecord)
    requires Ranked(cat, rank) && FactsRanked(cat, rank, a)
    requires Started(cat, rank, goals, a, start, now, e.code, same)
    requires same.Some? ==> IsLive(cat, a[same.value], KeyFor(cat, e.code, o))
    requires inc < |a| && IsLive(cat, a[inc], KeyFor(cat, e.code, o))
    requires fact.active && KeyOf(cat, fact) == KeyFor(cat, e.code, o)
    ensures var disputed := start[inc := start[inc].(confidence := CONFLICTING, conflictsWith := Some(|a|))];
            var mid := Invalidate(cat, goals, disputed, now, inc);
            && Fates(cat, rank, a, mid + [fact], now, o, e)
            && LossesClosed(cat, goals, a, mid) && SameFacts(start, mid)
  {
    var disputed := start[inc := start[inc].(confidence := CONFLICTING, conflictsWith := Some(|a|))];
    var mid := Invalidate(cat, goals, disputed, now, inc);
    assert SameFact(a[inc], start[inc]);
    DisputedSpares(cat, rank, goals, start, now, inc, |a|);
    forall i | 0 <= i < |a|
      ensures Fate(cat, rank, a, mid + [fact], now, o, e, i)
    {
      assert i == inc || Spared(rank, e.code, start, mid, i, now);
      IncumbentFate(cat, rank, a, start, mid, now, o, e, same, fact, inc, i);
    }
    LossesCompose(cat, goals, a, start, mid);
  }

  lemma DisputedSpares(
    cat: Catalogue, rank: map<string, nat>, goals: seq<GoalRecord>, start: seq<FactRecord>, now: nat,
    inc: nat, id: nat)
    requires Ranked(cat, rank) && FactsRanked(cat, rank, start) && inc < |start|
    ensures var disputed := start[inc := start[inc].(confidence := CONFLICTING, conflictsWith := Some(id))];
            var mid := Invalidate(cat, goals, disputed, now, inc);
            && SameFacts(start, mid) && LossesClosed(cat, goals, start, mid)
            && mid[inc] == disputed[inc]
            && (forall i | 0 <= i < |start| && i != inc :: Spared(rank, start[inc].code, start, mid, i, now))
  {
    var disputed := start[inc := start[inc].(confidence := CONFLICTING, conflictsWith := Some(id))];
    var mid := Invalidate(cat, goals, disputed, now, inc);
    assert SameFacts(start, disputed);
    RankedPersists(cat, rank, start, disputed);
    SweepClimbs(cat, rank, goals, disputed, now, inc, 0);
    SweepCloses(cat, goals, disputed, now, inc, 0);
    ThinnedIsSame(disputed, mid, now);
    LossesCompose(cat, goals, start, disputed, mid);
    forall i | 0 <= i < |start|
      ensures if i == inc then mid[i] == disputed[i] else Spared(rank, start[inc].code, start, mid, i, now)
      ensures SameFact(start[i], mid[i])
    {
      assert Spared(rank, start[inc].code, disputed, mid, i, now);
    }
  }

  lemma ReplaceFates(
    cat: Catalogue, rank: map<string, nat>, goals: seq<GoalRecord>, a: seq<FactRecord>, start: seq<FactRecord>,
    now: nat, o: Owner, e: Entry, same: Option<nat>, inc: nat, fact: FactRecord)
    requires Ranked(cat, rank) && FactsRanked(cat, rank, a)
    requires Started(cat, rank, goals, a, start, now, e.code, same)
    requires same.Some? ==> IsLive(cat, a[same.value], KeyFor(cat, e.code, o))
    requires inc < |a| && IsLive(cat, a[inc], KeyFor(cat, e.code, o))
    requires fact.active && KeyOf(cat, fact) == KeyFor(cat, e.code, o)
    ensures var mid := Supersede(cat, goals, start, now, inc, SYSTEM_REPLACEMENT, Some(|a|));
            && Fates(cat, rank, a, mid + [fact], now, o, e)
            && LossesClosed(cat, goals, a, mid) && SameFacts(start, mid)
  {
    var mid := Supersede(cat, goals, start, now, inc, SYSTEM_REPLACEMENT, Some(|a|));
    assert SameFact(a[inc], start[inc]);
    SupersedeSpares(cat, rank, goals, start, now, inc, SYSTEM_REPLACEMENT, Some(|a|));
    forall i | 0 <= i < |a|
      ensures Fate(cat, rank, a, mid + [fact], now, o, e, i) && SameFact(start[i], mid[i])
    {
      assert i == inc || Spared(rank, e.code, start, mid, i, now);
      IncumbentFate(cat, rank, a, start, mid, now, o, e, same, fact, inc, i);
    }
    LossesCompose(cat, goals, a, start, mid);
  }

  lemma NewFactKey(cat: Catalogue, o: Owner, e: Entry, now: nat, derivedFrom: seq<nat>)
    ensures KeyOf(cat, NewFact(cat, o, e, now, derivedFrom)) == KeyFor(cat, e.code, o)
  {
  }

  lemma StartedHolds(
    cat: Catalogue, rank: map<string, nat>, goals: seq<GoalRecord>, a: seq<FactRecord>, now: nat,
    code: string, same: Option<nat>)
    requires Ranked(cat, rank) && FactsRanked(cat, rank, a)
    requires same.Some? ==> same.value < |a| && a[same.value].active && a[same.value].code == code
    ensures var start := if same.Some? then Supersede(cat, goals, a, now, same.value, SYSTEM_REPLACEMENT, None) else a;
            Started(cat, rank, goals, a, start, now, code, same)
  {
    if same.Some? {
      StartSpares(cat, rank, goals, a, now, same.value);
    }
  }

  /** What Admit does, whichever of its cases applies. */
  ghost predicate Admission(
    cat: Catalogue, rank: map<string, nat>, goals: seq<GoalRecord>, a: seq<FactRecord>, b: seq<FactRecord>, now: nat,
    o: Owner, e: Entry, live: seq<nat>, same: Option<nat>, mode: Mode, derivedFrom: seq<nat>)
  {
    && |b| == |a| + 1
    && Fates(cat, rank, a, b, now, o, e)
    && LossesClosed(cat, goals, a, b[..|a|])
    && Appended(cat, a, b, now, o, e, derivedFrom)
    && (same.Some? && same.value < |a| ==> !b[same.value].active)
    && (mode != ASSERT && !FactOf(cat, e.code).repeatable ==>
          b[|a|].conflictsWith.None? && forall x | 0 <= x < |live| && live[x] < |a| :: !b[live[x]].active)
  }

  lemma AdmissionOf(
    cat: Catalogue, rank: map<string, nat>, goals: seq<GoalRecord>, a: seq<FactRecord>,
    start: seq<FactRecord>, mid: seq<FactRecord>, fact: FactRecord, now: nat,
    o: Owner, e: Entry, live: seq<nat>, same: Option<nat>, mode: Mode, derivedFrom: seq<nat>)
    requires Started(cat, rank, goals, a, start, now, e.code, same)
    requires SameFacts(start, mid) && |mid| == |a|
    requires Fates(cat, rank, a, mid + [fact], now, o, e) && LossesClosed(cat, goals, a, mid)
    requires Appended(cat, a, mid + [fact], now, o, e, derivedFrom)
    requires mode != ASSERT && !FactOf(cat, e.code).repeatable ==>
               fact.conflictsWith.None? && forall x | 0 <= x < |live| && live[x] < |a| :: !mid[live[x]].active
    ensures Admission(cat, rank, goals, a, mid + [fact], now, o, e, live, same, mode, derivedFrom)
  {
    var b := mid + [fact];
    assert b[..|a|] == mid;
    if same.Some? {
      assert SameFact(start[same.value], mid[same.value]);
    }
  }

  lemma AdmitFates(
    cat: Catalogue, rank: map<string, nat>, goals: seq<GoalRecord>, a: seq<FactRecord>, now: nat,
    o: Owner, e: Entry, live: seq<nat>, same: Option<nat>, mode: Mode, derivedFrom: seq<nat>)
    requires Ranked(cat, rank) && FactsRanked(cat, rank, a)
    requires Lists(cat, a, KeyFor(cat, e.code, o), live)
    requires same.Some? ==> same.value < |a| && same.value in live && !FactOf(cat, e.code).repeatable
    ensures Admission(cat, rank, goals, a, Admit(cat, goals, a, now, live, same, o, e, mode, derivedFrom),
              now, o, e, live, same, mode, derivedFrom)
  {
    var start := if same.Some? then Supersede(cat, goals, a, now, same.value, SYSTEM_REPLACEMENT, None) else a;
    StartedHolds(cat, rank, goals, a, now, e.code, same);
    NewFactKey(cat, o, e, now, derivedFrom);
    var fact := NewFact(cat, o, e, now, derivedFrom);
    if live == [] || FactOf(cat, e.code).repeatable {
      AdmissionOf(cat, rank, goals, a, a, a, fact, now, o, e, live, same, mode, derivedFrom);
    } else if mode != ASSERT {
      CorrectionFates(cat, rank, goals, a, start, now, o, e, live, same, ReasonOf(e, mode), fact);
      var mid := SupersedeEach(cat, goals, start, now, live, None, ReasonOf(e, mode), |a|);
      AdmissionOf(cat, rank, goals, a, start, mid, fact, now, o, e, live, same, mode, derivedFrom);
    } else {
      assert live[0] in live;
      AssertionFates(cat, rank, goals, a, start, fact, now, o, e, live, same, derivedFrom);
    }
  }

  lemma AssertionFates(
    cat: Catalogue, rank: map<string, nat>, goals: seq<GoalRecord>, a: seq<FactRecord>,
    start: seq<FactRecord>, fact: FactRecord, now: nat,
    o: Owner, e: Entry, live: seq<nat>, same: Option<nat>, derivedFrom: seq<nat>)
    requires Ranked(cat, rank) && FactsRanked(cat, rank, a)
    requires Started(cat, rank, goals, a, start, now, e.code, same)
    requires same.Some? ==> IsLive(cat, a[same.value], KeyFor(cat, e.code, o))
    requires live != [] && live[0] < |a| && IsLive(cat, a[live[0]], KeyFor(cat, e.code, o))
    requires fact == NewFact(cat, o, e, now, derivedFrom)
    ensures var inc := live[0];
            var disputed := start[inc := start[inc].(confidence := CONFLICTING, conflictsWith := Some(|a|))];
            var b := if start[inc].confidence == CONFIRMED
                     then Invalidate(cat, goals, disputed, now, inc)
                            + [fact.(confidence := CONFLICTING, conflictsWith := Some(inc))]
                     else Supersede(cat, goals, start, now, inc, SYSTEM_REPLACEMENT, Some(|a|)) + [fact];
            Admission(cat, rank, goals, a, b, now, o, e, live, same, ASSERT, derivedFrom)
  {
    var inc := live[0];
    NewFactKey(cat, o, e, now, derivedFrom);
    if start[inc].confidence == CONFIRMED {
      var disputed := start[inc := start[inc].(confidence := CONFLICTING, conflictsWith := Some(|a|))];
      var rated := fact.(confidence := CONFLICTING, conflictsWith := Some(inc));
      DisputeFates(cat, rank, goals, a, start, now, o, e, same, inc, rated);
      AdmissionOf(cat, rank, goals, a, start, Invalidate(cat, goals, disputed, now, inc), rated,
        now, o, e, live, same, ASSERT, derivedFrom);
    } else {
      ReplaceFates(cat, rank, goals, a, start, now, o, e, same, inc, fact);
      AdmissionOf(cat, rank, goals, a, start,
        Supersede(cat, goals, start, now, inc, SYSTEM_REPLACEMENT, Some(|a|)), fact,
        now, o, e, live, same, ASSERT, derivedFrom);
    }
  }

  lemma AllSame(
    cat: Catalogue, rank: map<string, nat>, goals: seq<GoalRecord>, a: seq<FactRecord>, now: nat, o: Owner, e: Entry)
    ensures Fates(cat, rank, a, a, now, o, e) && LossesClosed(cat, goals, a, a)
  {
  }

  /** After a correction the only live fact of the key is the one named. */
  lemma OnlyOne(
    cat: Catalogue, a: seq<FactRecord>, b: seq<FactRecord>, key: Key, live: seq<nat>, n: nat)
    requires |a| <= |b| <= |a| + 1 && n < |b| && Lists(cat, a, key, live)
    requires forall i | 0 <= i < |a| :: SameFact(a[i], b[i])
    requires |b| == |a| + 1 ==> n == |a|
    requires forall x | 0 <= x < |live| && live[x] != n :: !b[live[x]].active
    ensures forall i | 0 <= i < |b| && IsLive(cat, b[i], key) :: i == n
  {
    forall i | 0 <= i < |b| && IsLive(cat, b[i], key)
      ensures i == n
    {
      if i < |a| {
        assert SameFact(a[i], b[i]) && i in live;
      }
    }
  }

  lemma FatesAreHistory(
    cat: Catalogue, rank: map<string, nat>, a: seq<FactRecord>, b: seq<FactRecord>, now: nat, o: Owner, e: Entry)
    requires Fates(cat, rank, a, b, now, o, e)
    ensures History(a, b)
  {
    forall i | 0 <= i < |a|
      ensures Evolved(a[i], b[i])
    {
      assert Fate(cat, rank, a, b, now, o, e, i);
    }
  }

  lemma ReaffirmInserted(
    cat: Catalogue, rank: map<string, nat>, goals: seq<GoalRecord>, a: seq<FactRecord>, now: nat,
    o: Owner, e: Entry, live: seq<nat>, same: nat, mode: Mode, derivedFrom: seq<nat>)
    requires Ranked(cat, rank) && FactsRanked(cat, rank, a)
    requires Lists(cat, a, KeyFor(cat, e.code, o), live)
    requires same < |a| && same in live && a[same].value == e.value
    requires e.authoritative ==> a[same].authoritative
    ensures Inserted(cat, rank, goals, a, Reaffirm(cat, goals, a, now, live, same, e, mode), now, o, e, mode,
        derivedFrom)
  {
    var key := KeyFor(cat, e.code, o);
    var b := Reaffirm(cat, goals, a, now, live, same, e, mode);
    ReaffirmFates(cat, rank, goals, a, now, o, e, live, mode, same);
    FatesAreHistory(cat, rank, a, b, now, o, e);
    assert b[..|a|] == b;
    assert Evolved(a[same], b[same]);
    OnlyOne(cat, a, b, key, live, same);
  }

  lemma AdmitInserted(
    cat: Catalogue, rank: map<string, nat>, goals: seq<GoalRecord>, a: seq<FactRecord>, now: nat,
    o: Owner, e: Entry, live: seq<nat>, same: Option<nat>, mode: Mode, derivedFrom: seq<nat>)
    requires Ranked(cat, rank) && FactsRanked(cat, rank, a) && Distinct(cat, a)
    requires Lists(cat, a, KeyFor(cat, e.code, o), live)
    requires same.Some? ==> same.value < |a| && same.value in live && !FactOf(cat, e.code).repeatable
                            && a[same.value].value == e.value
    requires same.None? ==> forall x | 0 <= x < |live| :: a[live[x]].value != e.value
    ensures Inserted(cat, rank, goals, a, Admit(cat, goals, a, now, live, same, o, e, mode, derivedFrom),
              now, o, e, mode, derivedFrom)
  {
    var key := KeyFor(cat, e.code, o);
    var b := Admit(cat, goals, a, now, live, same, o, e, mode, derivedFrom);
    AdmitFates(cat, rank, goals, a, now, o, e, live, same, mode, derivedFrom);
    FatesAreHistory(cat, rank, a, b, now, o, e);
    forall i | 0 <= i < |a| && b[i].active && KeyOf(cat, a[i]) == key
      ensures a[i].value != e.value
    {
      assert Evolved(a[i], b[i]) && i in live;
      if same.Some? {
        assert Differ(cat, a[if i < same.value then i else same.value], a[if i < same.value then same.value else i]);
      }
    }
    NewFactKey(cat, o, e, now, derivedFrom);
    assert IsLive(cat, b[|a|], key);
    if mode != ASSERT && !FactOf(cat, e.code).repeatable {
      OnlyOne(cat, a, b, key, live, |a|);
    }
  }

  lemma InsertFates(
    cat: Catalogue, rank: map<string, nat>, goals: seq<GoalRecord>, a: seq<FactRecord>, now: nat,
    o: Owner, e: Entry, mode: Mode, derivedFrom: seq<nat>)
    requires Ranked(cat, rank) && FactsRanked(cat, rank, a) && Distinct(cat, a)
    ensures Inserted(cat, rank, goals, a, Insert(cat, goals, a, now, o, e, mode, derivedFrom), now, o, e, mode,
        derivedFrom)
  {
    var key := KeyFor(cat, e.code, o);
    var live := Live(cat, a, key);
    LiveLists(cat, a, key);
    var same := WithValue(a, live, e.value);
    if same.Some? && FactOf(cat, e.code).repeatable {
      AllSame(cat, rank, goals, a, now, o, e);
      assert a[..|a|] == a;
    } else if same.Some? && !(e.authoritative && !a[same.value].authoritative) {
      ReaffirmInserted(cat, rank, goals, a, now, o, e, live, same.value, mode, derivedFrom);
    } else {
      AdmitInserted(cat, rank, goals, a, now, o, e, live, same, mode, derivedFrom);
    }
  }
}
