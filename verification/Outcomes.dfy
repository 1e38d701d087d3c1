/** What recording one fact comes to, told from the records before and after it. */
module Outcomes {
  import opened Basics
  import opened Catalog
  import opened State
  import opened Cascade
  import opened Recording
  import opened Effects
  import opened Insertion
  import opened Clearance

  /** The record gave way, in this turn and for this reason, to record successor. */
  ghost predicate Gone(f: FactRecord, g: FactRecord, why: Supersession, now: nat, successor: nat) {
    g == f.(active := false, reason := Some(why), supersededAt := Some(now), supersededBy := Some(successor))
  }

  /** Record i is active, is looked at where e belongs, and says what e says. */
  ghost predicate Says(cat: Catalogue, facts: seq<FactRecord>, o: Owner, e: Entry, i: nat) {
    i < |facts| && Within(cat, facts[i], o, e.code) && facts[i].value == e.value
  }

  /** Record i is what the input says, and needs no more authority for it. */
  ghost predicate Suffices(cat: Catalogue, facts: seq<FactRecord>, o: Owner, e: Entry, i: nat) {
    Says(cat, facts, o, e, i) && (e.authoritative ==> facts[i].authoritative)
  }

  /** Record i stays as the only active one. An uncertain input takes no certainty away, and ends any dispute. */
  ghost predicate Kept(
    cat: Catalogue, a: seq<FactRecord>, b: seq<FactRecord>, now: nat, o: Owner, e: Entry, mode: Mode, i: nat)
    requires i < |a|
  {
    && |b| == |a|
    && b[i] == a[i].(conflictsWith := None,
                     confidence := if e.confidence == UNCERTAIN && a[i].confidence == CONFIRMED then CONFIRMED
                                   else e.confidence)
    && forall j: nat | j < |a| && j != i && Within(cat, a[j], o, e.code) ::
         Gone(a[j], b[j],
           if e.source == USER_CORRECTION then USER_CORRECTED
           else if mode == DERIVE then SYSTEM_REPLACEMENT else CHANGE_OF_MIND, now, i)
  }

  /** The record that is added: what the input says, for its owner, as of now. */
  ghost predicate Fresh(
    cat: Catalogue, f: FactRecord, now: nat, o: Owner, e: Entry, derivedFrom: seq<nat>)
  {
    && Within(cat, f, o, e.code) && f.value == e.value && f.source == e.source && f.authoritative == e.authoritative
    && (FactOf(cat, e.code).scope != CASE ==> f.caseId.None?)
    && (FactOf(cat, e.code).scope != GOAL ==> f.goalId.None?)
    && f.recordedAt == now && f.derivedFrom == derivedFrom
    && f.supersededBy.None? && f.supersededAt.None? && f.reason.None?
  }

  /** Each record where the input belongs gives way to the new one. */
  ghost predicate AllGiveWay(
    cat: Catalogue, a: seq<FactRecord>, b: seq<FactRecord>, now: nat, o: Owner, e: Entry, mode: Mode)
    requires |a| <= |b|
  {
    forall j: nat | j < |a| && Within(cat, a[j], o, e.code) ::
      Gone(a[j], b[j],
        if mode == DERIVE then SYSTEM_REPLACEMENT
        else if e.source == USER_CORRECTION then USER_CORRECTED else CHANGE_OF_MIND, now, |a|)
  }

  /** An assertion leaves all but the oldest of the others as they are. */
  ghost predicate OthersStay(
    cat: Catalogue, a: seq<FactRecord>, b: seq<FactRecord>, o: Owner, e: Entry, inc: nat)
    requires |a| <= |b|
  {
    forall j: nat | j < |a| && j != inc && Within(cat, a[j], o, e.code) && a[j].value != e.value :: b[j] == a[j]
  }

  /** The oldest record and the new one are in dispute: both conflict, and name each other. */
  ghost predicate InDispute(a: seq<FactRecord>, b: seq<FactRecord>, e: Entry, inc: nat)
    requires inc < |a| < |b|
  {
    && b[|a|].confidence == CONFLICTING && b[|a|].conflictsWith == Some(inc)
    && b[inc].confidence == CONFLICTING && b[inc].conflictsWith == Some(|a|)
    && (b[inc].active <==> a[inc].value != e.value)
  }

  /** A record is added. In a correction or a derivation the others give way to it; in an assertion the oldest
      one does, unless it was confirmed, and then the two are in dispute. */
  ghost predicate Added(
    cat: Catalogue, a: seq<FactRecord>, b: seq<FactRecord>, now: nat, o: Owner, e: Entry, mode: Mode,
    derivedFrom: seq<nat>)
  {
    && |b| == |a| + 1
    && Fresh(cat, b[|a|], now, o, e, derivedFrom)
    && if FactOf(cat, e.code).repeatable then
         && b[|a|].confidence == e.confidence && b[|a|].conflictsWith.None?
         && forall j: nat | j < |a| && Within(cat, a[j], o, e.code) :: b[j] == a[j]
       else if mode != ASSERT then
         b[|a|].confidence == e.confidence && b[|a|].conflictsWith.None? && AllGiveWay(cat, a, b, now, o, e, mode)
       else
         && (forall inc: nat | Oldest(cat, a, o, e.code, inc) :: OthersStay(cat, a, b, o, e, inc))
         && (forall inc: nat | Oldest(cat, a, o, e.code, inc) && a[inc].confidence == CONFIRMED ::
               InDispute(a, b, e, inc))
         && ((forall inc: nat | Oldest(cat, a, o, e.code, inc) :: a[inc].confidence != CONFIRMED) ==>
               b[|a|].confidence == e.confidence && b[|a|].conflictsWith.None?)
         && (forall inc: nat | Oldest(cat, a, o, e.code, inc) && a[inc].confidence != CONFIRMED ::
               Gone(a[inc], b[inc], SYSTEM_REPLACEMENT, now, |a|))
  }

  /** The other records stay as they are, or lose their ground: something they rest on is gone. */
  ghost predicate OthersSpared(
    cat: Catalogue, a: seq<FactRecord>, b: seq<FactRecord>, now: nat, o: Owner, code: string)
  {
    && |a| <= |b|
    && forall j: nat | j < |a| && !Within(cat, a[j], o, code) ::
         || b[j] == a[j]
         || (a[j].active
             && b[j] == a[j].(active := false, reason := Some(DEPENDENCY_INVALIDATED), supersededAt := Some(now),
                              supersededBy := None))
  }

  /** What recording e does: a text told again changes nothing, what is known stays, what is not is added. */
  ghost predicate Taken(
    cat: Catalogue, a: seq<FactRecord>, b: seq<FactRecord>, now: nat, o: Owner, e: Entry, mode: Mode,
    derivedFrom: seq<nat>)
  {
    && (forall i: nat | Says(cat, a, o, e, i) && FactOf(cat, e.code).repeatable :: b == a)
    && (forall i: nat | Suffices(cat, a, o, e, i) && !FactOf(cat, e.code).repeatable ::
          Kept(cat, a, b, now, o, e, mode, i))
    && ((forall i: nat | Says(cat, a, o, e, i) ::
           !FactOf(cat, e.code).repeatable && !Suffices(cat, a, o, e, i)) ==>
          Added(cat, a, b, now, o, e, mode, derivedFrom))
    && OthersSpared(cat, a, b, now, o, e.code)
  }

  // ----- the proof -----

  /** The list of live records, which the insertion works on, names the records within, oldest first. */
  ghost predicate Names(cat: Catalogue, a: seq<FactRecord>, o: Owner, code: string, live: seq<nat>) {
    && (forall i: nat :: i in live <==> i < |a| && Within(cat, a[i], o, code))
    && (forall x, y :: 0 <= x < y < |live| ==> live[x] < live[y])
    && (forall i: nat :: Oldest(cat, a, o, code, i) <==> live != [] && live[0] == i)
  }

  lemma LiveNames(cat: Catalogue, a: seq<FactRecord>, o: Owner, code: string)
    ensures Names(cat, a, o, code, Live(cat, a, KeyFor(cat, code, o)))
    ensures Lists(cat, a, KeyFor(cat, code, o), Live(cat, a, KeyFor(cat, code, o)))
  {
    LiveAreWithin(cat, a, o, code);
    LiveIsOldest(cat, a, o, code);
    LiveLists(cat, a, KeyFor(cat, code, o));
  }

  /** No two active records where e belongs say the same. */
  lemma SaysOnce(cat: Catalogue, a: seq<FactRecord>, o: Owner, e: Entry, i: nat, j: nat)
    requires Distinct(cat, a) && Says(cat, a, o, e, i) && Says(cat, a, o, e, j)
    ensures i == j
  {
    assert i < j ==> Differ(cat, a[i], a[j]);
    assert j < i ==> Differ(cat, a[j], a[i]);
  }

  lemma ReaffirmKeeps(
    cat: Catalogue, rank: map<string, nat>, goals: seq<GoalRecord>, a: seq<FactRecord>, now: nat,
    o: Owner, e: Entry, live: seq<nat>, mode: Mode, same: nat)
    requires Ranked(cat, rank) && FactsRanked(cat, rank, a)
    requires Lists(cat, a, KeyFor(cat, e.code, o), live) && Names(cat, a, o, e.code, live)
    requires Suffices(cat, a, o, e, same)
    ensures Kept(cat, a, Reaffirm(cat, goals, a, now, live, same, e, mode), now, o, e, mode, same)
  {
    var why := ReaffirmReason(e, mode);
    LiveMarked(cat, rank, goals, a, now, live, KeyFor(cat, e.code, o), Some(same), why, same);
    var mid := SupersedeEach(cat, goals, a, now, live, Some(same), why, same);
    assert mid[same] == a[same] by {
      assert Spared(rank, e.code, a, mid, same, now);
    }
    forall j: nat | j < |a| && j != same && Within(cat, a[j], o, e.code)
      ensures mid[j] == Mark(a[j], why, now, Some(same))
    {
      assert j in live;
    }
  }

  lemma CorrectionAdds(
    cat: Catalogue, rank: map<string, nat>, goals: seq<GoalRecord>, a: seq<FactRecord>, start: seq<FactRecord>,
    now: nat, o: Owner, e: Entry, live: seq<nat>, same: Option<nat>, mode: Mode)
    requires Ranked(cat, rank) && FactsRanked(cat, rank, a) && mode != ASSERT
    requires Started(cat, rank, goals, a, start, now, e.code, same)
    requires Lists(cat, a, KeyFor(cat, e.code, o), live) && Names(cat, a, o, e.code, live)
    ensures var mid := SupersedeEach(cat, goals, start, now, live, None, ReasonOf(e, mode), |a|);
            |mid| == |a| && forall f :: AllGiveWay(cat, a, mid + [f], now, o, e, mode)
  {
    var why := ReasonOf(e, mode);
    forall x | 0 <= x < |live|
      ensures start[live[x]].code == e.code
    {
      assert SameFact(a[live[x]], start[live[x]]);
    }
    LiveMarked(cat, rank, goals, start, now, live, KeyFor(cat, e.code, o), None, why, |a|);
    var mid := SupersedeEach(cat, goals, start, now, live, None, why, |a|);
    forall j: nat | j < |a| && Within(cat, a[j], o, e.code)
      ensures Gone(a[j], mid[j], why, now, |a|)
    {
      assert j in live;
      StartedWithin(cat, rank, goals, a, start, now, o, e, same, j);
    }
  }

  /** Setting the promoted claim aside leaves the others where the input belongs as they are. */
  lemma StartedWithin(
    cat: Catalogue, rank: map<string, nat>, goals: seq<GoalRecord>, a: seq<FactRecord>, start: seq<FactRecord>,
    now: nat, o: Owner, e: Entry, same: Option<nat>, j: nat)
    requires Started(cat, rank, goals, a, start, now, e.code, same)
    requires j < |a| && Within(cat, a[j], o, e.code)
    ensures start[j] == if same == Some(j) then Mark(a[j], SYSTEM_REPLACEMENT, now, None) else a[j]
  {
    assert same != Some(j) ==> Spared(rank, e.code, a, start, j, now);
  }

  lemma AssertionAdds(
    cat: Catalogue, rank: map<string, nat>, goals: seq<GoalRecord>, a: seq<FactRecord>, start: seq<FactRecord>,
    now: nat, o: Owner, e: Entry, live: seq<nat>, same: Option<nat>, fact: FactRecord)
    requires Ranked(cat, rank) && FactsRanked(cat, rank, a)
    requires Started(cat, rank, goals, a, start, now, e.code, same)
    requires Names(cat, a, o, e.code, live) && live != []
    requires same.Some? ==> Says(cat, a, o, e, same.value)
    requires forall i: nat | Says(cat, a, o, e, i) :: same == Some(i)
    ensures var inc := live[0];
            && inc < |a|
            && var disputed := start[inc := start[inc].(confidence := CONFLICTING, conflictsWith := Some(|a|))];
               var mid := if a[inc].confidence == CONFIRMED then Invalidate(cat, goals, disputed, now, inc)
                          else Supersede(cat, goals, start, now, inc, SYSTEM_REPLACEMENT, Some(|a|));
               && |mid| == |a|
               && OthersStay(cat, a, mid + [fact], o, e, inc)
               && if a[inc].confidence == CONFIRMED then
                    && mid[inc].confidence == CONFLICTING && mid[inc].conflictsWith == Some(|a|)
                    && (mid[inc].active <==> a[inc].value != e.value)
                  else Gone(a[inc], mid[inc], SYSTEM_REPLACEMENT, now, |a|)
  {
    var inc := live[0];
    assert inc in live;
    StartedWithin(cat, rank, goals, a, start, now, o, e, same, inc);
    DisputedSpares(cat, rank, goals, start, now, inc, |a|);
    SupersedeSpares(cat, rank, goals, start, now, inc, SYSTEM_REPLACEMENT, Some(|a|));
    var disputed := start[inc := start[inc].(confidence := CONFLICTING, conflictsWith := Some(|a|))];
    var mid := if a[inc].confidence == CONFIRMED then Invalidate(cat, goals, disputed, now, inc)
               else Supersede(cat, goals, start, now, inc, SYSTEM_REPLACEMENT, Some(|a|));
    forall j: nat | j < |a| && j != inc && Within(cat, a[j], o, e.code) && a[j].value != e.value
      ensures mid[j] == a[j]
    {
      StartedWithin(cat, rank, goals, a, start, now, o, e, same, j);
      assert Spared(rank, start[inc].code, start, mid, j, now);
    }
  }

  lemma AdmitAdds(
    cat: Catalogue, rank: map<string, nat>, goals: seq<GoalRecord>, a: seq<FactRecord>, now: nat,
    o: Owner, e: Entry, live: seq<nat>, same: Option<nat>, mode: Mode, derivedFrom: seq<nat>)
    requires Ranked(cat, rank) && FactsRanked(cat, rank, a)
    requires Lists(cat, a, KeyFor(cat, e.code, o), live) && Names(cat, a, o, e.code, live)
    requires same.Some? ==> Says(cat, a, o, e, same.value) && same.value in live && !FactOf(cat, e.code).repeatable
    requires forall i: nat | Says(cat, a, o, e, i) :: same == Some(i)
    ensures Added(cat, a, Admit(cat, goals, a, now, live, same, o, e, mode, derivedFrom), now, o, e, mode, derivedFrom)
  {
    var start := if same.Some? then Supersede(cat, goals, a, now, same.value, SYSTEM_REPLACEMENT, None) else a;
    StartedHolds(cat, rank, goals, a, now, e.code, same);
    var fact := NewFact(cat, o, e, now, derivedFrom);
    assert Fresh(cat, fact, now, o, e, derivedFrom);
    if live == [] || FactOf(cat, e.code).repeatable {
      assert start == a;
      assert live == [] ==> forall j: nat | j < |a| :: !Within(cat, a[j], o, e.code);
    } else if mode != ASSERT {
      CorrectionAdds(cat, rank, goals, a, start, now, o, e, live, same, mode);
    } else {
      AssertionAdds(cat, rank, goals, a, start, now, o, e, live, same, fact);
      AssertionAdds(cat, rank, goals, a, start, now, o, e, live, same,
        fact.(confidence := CONFLICTING, conflictsWith := Some(live[0])));
      assert live[0] in live;
      StartedWithin(cat, rank, goals, a, start, now, o, e, same, live[0]);
    }
  }

  lemma FatesSpare(
    cat: Catalogue, rank: map<string, nat>, a: seq<FactRecord>, b: seq<FactRecord>, now: nat, o: Owner, e: Entry)
    requires Fates(cat, rank, a, b, now, o, e)
    ensures OthersSpared(cat, a, b, now, o, e.code)
  {
    forall j: nat | j < |a| && !Within(cat, a[j], o, e.code)
      ensures Spared(rank, e.code, a, b, j, now)
    {
      assert Fate(cat, rank, a, b, now, o, e, j);
    }
  }

  lemma OthersAreSpared(
    cat: Catalogue, rank: map<string, nat>, goals: seq<GoalRecord>, a: seq<FactRecord>, now: nat,
    o: Owner, e: Entry, mode: Mode, derivedFrom: seq<nat>)
    requires Ranked(cat, rank) && FactsRanked(cat, rank, a) && Distinct(cat, a)
    ensures OthersSpared(cat, a, Insert(cat, goals, a, now, o, e, mode, derivedFrom), now, o, e.code)
  {
    InsertFates(cat, rank, goals, a, now, o, e, mode, derivedFrom);
    FatesSpare(cat, rank, a, Insert(cat, goals, a, now, o, e, mode, derivedFrom), now, o, e);
  }

  /** Every recording comes to what the records before it and the input decide. */
  lemma InsertTakes(
    cat: Catalogue, rank: map<string, nat>, goals: seq<GoalRecord>, a: seq<FactRecord>, now: nat,
    o: Owner, e: Entry, mode: Mode, derivedFrom: seq<nat>)
    requires Ranked(cat, rank) && FactsRanked(cat, rank, a) && Distinct(cat, a)
    ensures Taken(cat, a, Insert(cat, goals, a, now, o, e, mode, derivedFrom), now, o, e, mode, derivedFrom)
  {
    OthersAreSpared(cat, rank, goals, a, now, o, e, mode, derivedFrom);
    var live := Live(cat, a, KeyFor(cat, e.code, o));
    LiveNames(cat, a, o, e.code);
    var same := WithValue(a, live, e.value);
    forall i: nat | Says(cat, a, o, e, i)
      ensures same == Some(i)
    {
      assert i in live;
      SaysOnce(cat, a, o, e, i, same.value);
    }
    if same.Some? {
      assert same.value in live && Says(cat, a, o, e, same.value);
    }
    if same.Some? && FactOf(cat, e.code).repeatable {
    } else if same.Some? && Suffices(cat, a, o, e, same.value) {
      ReaffirmKeeps(cat, rank, goals, a, now, o, e, live, mode, same.value);
    } else {
      AdmitAdds(cat, rank, goals, a, now, o, e, live, same, mode, derivedFrom);
    }
  }
}
