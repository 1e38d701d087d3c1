/**
 A contradiction keeps both of its branches, except that a claim promoted by an
 authoritative assertion of the same value disputes its own successor.
 */
module Disputes {
  import opened Basics
  import opened Catalog
  import opened State
  import opened Cascade
  import opened Recording
  import opened Effects
  import opened Insertion
  import opened FactInvariants
  import opened Reducer
  import opened Runs
  import opened Inputs

  /** The input comes up against a confirmed fact of its scope key, and becomes a record of its own. */
  predicate Contradicts(cat: Catalogue, a: seq<FactRecord>, o: Owner, e: Entry) {
    var live := Live(cat, a, KeyFor(cat, e.code, o));
    var same := WithValue(a, live, e.value);
    && live != [] && a[live[0]].confidence == CONFIRMED
    && !FactOf(cat, e.code).repeatable
    && (same.Some? ==> e.authoritative && !a[same.value].authoritative)
  }

  /** The first live fact of the scope key. */
  function Incumbent(cat: Catalogue, a: seq<FactRecord>, o: Owner, e: Entry): (inc: nat)
    requires Contradicts(cat, a, o, e)
    ensures inc < |a| && IsLive(cat, a[inc], KeyFor(cat, e.code, o))
  {
    Live(cat, a, KeyFor(cat, e.code, o))[0]
  }

  /**
   * The old branch and the new one name each other and are both rated conflicting.
   * Both stay active exactly when their values differ.
   */
  lemma BothBranchesStayExactly(
    cat: Catalogue, rank: map<string, nat>, goals: seq<GoalRecord>, a: seq<FactRecord>, now: nat,
    o: Owner, e: Entry, derivedFrom: seq<nat>)
    requires Ranked(cat, rank) && FactsRanked(cat, rank, a) && Contradicts(cat, a, o, e)
    ensures var inc := Incumbent(cat, a, o, e);
            var b := Insert(cat, goals, a, now, o, e, ASSERT, derivedFrom);
      && |b| == |a| + 1
      && b[inc].confidence == CONFLICTING && b[inc].conflictsWith == Some(|a|)
      && b[|a|].confidence == CONFLICTING && b[|a|].conflictsWith == Some(inc)
      && b[|a|].active
      && (b[inc].active <==> a[inc].value != e.value)
  {
    var inc := Incumbent(cat, a, o, e);
    var live := Live(cat, a, KeyFor(cat, e.code, o));
    var same := WithValue(a, live, e.value);
    StartedHolds(cat, rank, goals, a, now, e.code, same);
    var start := if same.Some? then Supersede(cat, goals, a, now, same.value, SYSTEM_REPLACEMENT, None) else a;
    IncumbentStarts(cat, rank, a, start, now, o, e, inc, same);
    DisputedSpares(cat, rank, goals, start, now, inc, |a|);
    assert same == Some(inc) <==> a[inc].value == e.value;
  }

  lemma IncumbentStarts(
    cat: Catalogue, rank: map<string, nat>, a: seq<FactRecord>, start: seq<FactRecord>, now: nat,
    o: Owner, e: Entry, inc: nat, same: Option<nat>)
    requires |start| == |a| && inc < |a| && IsLive(cat, a[inc], KeyFor(cat, e.code, o))
    requires if same == Some(inc) then start[inc] == Mark(a[inc], SYSTEM_REPLACEMENT, now, None)
             else Spared(rank, e.code, a, start, inc, now)
    ensures start[inc].confidence == a[inc].confidence
    ensures start[inc].active <==> same != Some(inc)
  {
    assert a[inc].code == e.code;
  }

  /** The claim the first input of the list comes up against, at the same value but with authority. */
  predicate Promotes(cat: Catalogue, st: Conversation, input: FactInput, inc: nat) {
    var live := Live(cat, st.facts, KeyOfInput(cat, st.goals, input.code));
    && live != [] && live[0] == inc && inc < |st.facts|
    && st.facts[inc].confidence == CONFIRMED && !st.facts[inc].authoritative
    && input.authoritative && input.value == st.facts[inc].value && !FactOf(cat, input.code).repeatable
  }

  /**
   * From any reachable state, an answer that promotes a confirmed claim supersedes the claim and
   * leaves it rated conflicting, in conflict with the very record that took its place.
   */
  lemma PromotedClaimDisputesItself(
    cat: Catalogue, rank: map<string, nat>, turns: seq<Turn>, inputs: seq<FactInput>, inc: nat)
    requires Valid(cat) && Ranked(cat, rank) && Apply(cat, Run(cat, turns), Said(Answer(inputs))).Ok?
    requires inputs != [] && Promotes(cat, Run(cat, turns), inputs[0], inc)
    ensures var a, b := Run(cat, turns).facts, Apply(cat, Run(cat, turns), Said(Answer(inputs))).value.facts;
      && inc < |a| < |b|
      && !b[inc].active && b[inc].confidence == CONFLICTING && b[inc].conflictsWith == Some(|a|)
      && b[|a|].code == b[inc].code && b[|a|].value == b[inc].value && b[|a|].authoritative
  {
    ReachableFactsOk(cat, rank, turns);
    PromotionEnds(cat, rank, Run(cat, turns), inputs, inc);
  }

  lemma PromotionEnds(
    cat: Catalogue, rank: map<string, nat>, st: Conversation, inputs: seq<FactInput>, inc: nat)
    requires Valid(cat) && Ranked(cat, rank) && FactsOk(cat, rank, st.facts, st.seqNo)
    requires Apply(cat, st, Said(Answer(inputs))).Ok?
    requires inputs != [] && Promotes(cat, st, inputs[0], inc)
    ensures var a, b := st.facts, Apply(cat, st, Said(Answer(inputs))).value.facts;
      && inc < |a| < |b|
      && !b[inc].active && b[inc].confidence == CONFLICTING && b[inc].conflictsWith == Some(|a|)
      && b[|a|].code == b[inc].code && b[|a|].value == b[inc].value && b[|a|].authoritative
  {
    LaterOk(cat, rank, st.facts, st.seqNo);
    var begun := Numbered(st);
    var last := Apply(cat, st, Said(Answer(inputs))).value;
    var told := TurnTakes(cat, st, Answer(inputs), last);
    var e, next := FirstRecorded(cat, rank, begun, inputs, ASSERT);
    PromotionRecorded(cat, rank, begun, e, inc);
    RecordingKeepsHistory(cat, rank, next, inputs[1..], ASSERT);
    RecordingKeepsHistory(cat, rank, begun, inputs, ASSERT);
    SettlingKeepsHistory(cat, rank, told, ROUNDS);
    HistoryChain(next.facts, told.facts, last.facts);
    assert Evolved(next.facts[inc], last.facts[inc]) && Evolved(next.facts[|st.facts|], last.facts[|st.facts|]);
  }

  lemma PromotionRecorded(cat: Catalogue, rank: map<string, nat>, st: Conversation, e: Entry, inc: nat)
    requires Ranked(cat, rank) && FactsOk(cat, rank, st.facts, st.seqNo)
    requires Promotes(cat, st, FactInput(e.code, e.value, Some(e.source), Some(e.confidence), e.authoritative), inc)
    ensures var a, o := st.facts, OwnerOfInput(cat, st.goals, e.code);
      var b := Insert(cat, st.goals, a, st.seqNo, o, e, ASSERT, []);
      && inc < |a| && |b| == |a| + 1
      && !b[inc].active && b[inc].confidence == CONFLICTING && b[inc].conflictsWith == Some(|a|)
      && b[|a|].code == b[inc].code && b[|a|].value == b[inc].value && b[|a|].authoritative
  {
    var o := OwnerOfInput(cat, st.goals, e.code);
    assert WithValue(st.facts, Live(cat, st.facts, KeyFor(cat, e.code, o)), e.value) == Some(inc);
    BothBranchesStayExactly(cat, rank, st.goals, st.facts, st.seqNo, o, e, []);
    InsertFates(cat, rank, st.goals, st.facts, st.seqNo, o, e, ASSERT, []);
    var b := Insert(cat, st.goals, st.facts, st.seqNo, o, e, ASSERT, []);
    assert Fate(cat, rank, st.facts, b, st.seqNo, o, e, inc);
  }
}
