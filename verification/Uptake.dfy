/**
 What a turn does with the facts it is given: for whom each is recorded, as what,
 and what becomes of what was known.
 */
module Uptake {
  import opened Basics
  import opened Catalog
  import opened State
  import opened Recording
  import opened Effects
  import opened FactInvariants
  import opened Goals
  import opened Reducer
  import opened Runs
  import opened Clearance
  import opened Outcomes
  import opened Inputs

  /** How the facts of a turn are taken: whether they replace or are asserted, and the source and the
      confidence of those that state none; a signal lends its authority. */
  datatype Manner = Manner(mode: Mode, source: Source, confidence: Confidence, authority: bool)

  /** The facts of a turn that are for no goal of its own. */
  function GivenIn(t: Turn): Option<(Manner, seq<FactInput>)> {
    match t
    case Signal(_, inputs) => Some((Manner(SUPERSEDE, SYSTEM, CONFIRMED, true), inputs))
    case Said(Answer(inputs)) => Some((Manner(ASSERT, USER_EXPLICIT, CONFIRMED, false), inputs))
    case Said(Complement(inputs)) => Some((Manner(ASSERT, USER_EXPLICIT, CONFIRMED, false), inputs))
    case Said(Uncertain(inputs)) => Some((Manner(ASSERT, USER_EXPLICIT, UNCERTAIN, false), inputs))
    case Said(Correction(inputs)) => Some((Manner(SUPERSEDE, USER_CORRECTION, CONFIRMED, false), inputs))
    case Said(ChangeOfMind(inputs)) => Some((Manner(SUPERSEDE, USER_EXPLICIT, CONFIRMED, false), inputs))
    case _ => None
  }

  /** The input as it is recorded. A value that needs a signal is uncertain without one, whatever is stated. */
  function Read(cat: Catalogue, m: Manner, x: FactInput): Entry {
    var spec := FactOf(cat, x.code);
    var source := if x.source.Some? then x.source.value else m.source;
    var authority := m.authority || x.authoritative;
    var gated := spec.authoritativeOnly || x.value in spec.authoritativeValues;
    Entry(x.code, x.value, source,
      if gated && !authority && source != DERIVED_RULE then UNCERTAIN
      else if x.confidence.Some? then x.confidence.value else m.confidence,
      authority)
  }

  /** The code is declared, the source may state it, the value is in its domain, and authority comes from an
      accepted source. */
  predicate Allowed(cat: Catalogue, e: Entry) {
    && e.code in cat.facts
    && e.source in cat.facts[e.code].allowedSources
    && (cat.facts[e.code].allowedValues.Some? && e.value.Text? ==>
          e.value.text in cat.facts[e.code].allowedValues.value)
    && (e.authoritative ==> e.source in cat.accepted)
  }

  /** Goal i is open, in the case of the focus if there is one, and declares the code. */
  predicate Takes(cat: Catalogue, goals: seq<GoalRecord>, focus: Option<nat>, code: string, i: nat) {
    && i < |goals| && goals[i].status in {ACTIVE, SUSPENDED, WAITING}
    && (focus.Some? && focus.value < |goals| ==> goals[i].caseId == goals[focus.value].caseId)
    && var def := GoalOf(cat, goals[i].code);
       code in def.required || code in def.optional || code in def.completion
  }

  /** The goal that a fact is for: the focus if it declares the code, else the last open goal of its case that
      does, else the focus. */
  ghost predicate GoesTo(cat: Catalogue, goals: seq<GoalRecord>, focus: Option<nat>, code: string, owner: Option<nat>) {
    && (owner.Some? ==> owner.value < |goals|)
    && if focus.Some? && focus.value < |goals| && Declares(GoalOf(cat, goals[focus.value].code), code) then
         owner == focus
       else
         || (owner.Some? && Takes(cat, goals, focus, code, owner.value)
             && forall i: nat | i > owner.value :: !Takes(cat, goals, focus, code, i))
         || (owner == focus && forall i: nat :: !Takes(cat, goals, focus, code, i))
  }

  /** The goal in context: the last active goal, or without one the last that waits. */
  ghost predicate InContext(goals: seq<GoalRecord>, c: Option<nat>) {
    if c.None? then forall i | 0 <= i < |goals| :: goals[i].status != ACTIVE && goals[i].status != WAITING
    else
      && c.value < |goals|
      && (|| goals[c.value].status == ACTIVE
          || (goals[c.value].status == WAITING && forall i | 0 <= i < |goals| :: goals[i].status != ACTIVE))
      && forall i | c.value < i < |goals| :: goals[i].status != goals[c.value].status
  }

  lemma {:induction false} LastWithIsLast(goals: seq<GoalRecord>, status: GoalStatus, n: nat)
    requires n <= |goals|
    ensures var r := LastWith(goals, status, n);
            r.Some? ==> forall i | r.value < i < n :: goals[i].status != status
  {
    if n > 0 && goals[n - 1].status != status {
      LastWithIsLast(goals, status, n - 1);
    }
  }

  lemma ContextIs(goals: seq<GoalRecord>)
    ensures InContext(goals, ContextGoal(goals))
  {
    LastWithIsLast(goals, ACTIVE, |goals|);
    LastWithIsLast(goals, WAITING, |goals|);
  }

  lemma {:induction false} DeclaringIsLast(
    cat: Catalogue, goals: seq<GoalRecord>, code: string, focus: Option<nat>, n: nat)
    requires n <= |goals| && (focus.Some? ==> focus.value < |goals|)
    ensures var r := DeclaringGoal(cat, goals, code, if focus.Some? then Some(goals[focus.value].caseId) else None, n);
            && (r.Some? ==> Takes(cat, goals, focus, code, r.value))
            && forall i: nat | i < n && (r.Some? ==> i > r.value) :: !Takes(cat, goals, focus, code, i)
  {
    if n > 0 {
      DeclaringIsLast(cat, goals, code, focus, n - 1);
    }
  }

  lemma OwnerGoesTo(cat: Catalogue, goals: seq<GoalRecord>, code: string, focus: Option<nat>)
    requires focus.Some? ==> focus.value < |goals|
    ensures GoesTo(cat, goals, focus, code, OwnerGoal(cat, goals, code, focus))
  {
    DeclaringIsLast(cat, goals, code, focus, |goals|);
  }

  // ----- one input after another -----

  /** For whom an input of the turn is recorded. The goal that a signal names is its focus; without one, all open
      goals that declare the code look for it in one place. */
  ghost predicate IsFor(cat: Catalogue, goals: seq<GoalRecord>, t: Turn, code: string, o: Owner) {
    exists owner: Option<nat> :: IsForGoal(cat, goals, t, code, owner) && o == OwnerFor(goals, owner)
  }

  ghost predicate IsForGoal(cat: Catalogue, goals: seq<GoalRecord>, t: Turn, code: string, owner: Option<nat>) {
    if t.Said? then exists c: Option<nat> :: InContext(goals, c) && GoesTo(cat, goals, c, code, owner)
    else
      && GoesTo(cat, goals, t.goalId, code, owner)
      && owner.Some? && Takes(cat, goals, t.goalId, code, owner.value)
      && (t.goalId.Some? ==> t.goalId.value < |goals| && goals[t.goalId.value].status in {ACTIVE, SUSPENDED, WAITING})
      && (t.goalId.None? ==> forall i: nat | Takes(cat, goals, None, code, i) ::
            KeyFor(cat, code, OwnerOf(goals, i)) == KeyFor(cat, code, OwnerOf(goals, owner.value)))
  }

  /** The records before and after an input. */
  ghost predicate TakenIn(
    cat: Catalogue, st: Conversation, t: Turn, m: Manner, x: FactInput, a: seq<FactRecord>, b: seq<FactRecord>)
  {
    exists o :: IsFor(cat, st.goals, t, x.code, o)
      && Allowed(cat, Read(cat, m, x)) && Taken(cat, a, b, st.seqNo + 1, o, Read(cat, m, x), m.mode, [])
  }

  /** The records from before the first input to after the last. */
  ghost predicate AllTakenIn(
    cat: Catalogue, st: Conversation, t: Turn, m: Manner, inputs: seq<FactInput>, xs: seq<seq<FactRecord>>)
  {
    && |xs| == |inputs| + 1
    && forall k | 0 <= k < |inputs| :: TakenIn(cat, st, t, m, inputs[k], xs[k], xs[k + 1])
  }

  /** At each moment the records are in order, and they are a past of the last ones. */
  ghost predicate AllOk(
    cat: Catalogue, rank: map<string, nat>, now: nat, xs: seq<seq<FactRecord>>, last: seq<FactRecord>)
  {
    forall k | 0 <= k < |xs| :: FactsOk(cat, rank, xs[k], now) && History(xs[k], last)
  }

  lemma OneMoreOk(
    cat: Catalogue, rank: map<string, nat>, now: nat, a: seq<FactRecord>, rest: seq<seq<FactRecord>>,
    last: seq<FactRecord>)
    requires rest != [] && AllOk(cat, rank, now, rest, last)
    requires FactsOk(cat, rank, a, now) && History(a, rest[0])
    ensures AllOk(cat, rank, now, [a] + rest, last)
  {
    HistoryChain(a, rest[0], last);
    var xs := [a] + rest;
    forall k | 0 <= k < |xs|
      ensures FactsOk(cat, rank, xs[k], now) && History(xs[k], last)
    {
      assert k > 0 ==> xs[k] == rest[k - 1];
    }
  }

  lemma OneOk(cat: Catalogue, rank: map<string, nat>, now: nat, a: seq<FactRecord>)
    requires FactsOk(cat, rank, a, now)
    ensures AllOk(cat, rank, now, [a], a)
  {
    HistoryRefl(a);
  }

  /** What is handed to the recording in the name of an input. */
  predicate Dressed(m: Manner, x: FactInput, y: FactInput) {
    && y.code == x.code && y.value == x.value && y.authoritative == (m.authority || x.authoritative)
    && y.source == (if x.source.Some? || y.source.None? then x.source else Some(m.source))
    && y.confidence == (if x.confidence.Some? || y.confidence.None? then x.confidence else Some(m.confidence))
    && (y.source.None? ==> m.source == USER_EXPLICIT) && (y.confidence.None? ==> m.confidence == CONFIRMED)
  }

  lemma DressedIsRead(cat: Catalogue, m: Manner, x: FactInput, y: FactInput, e: Entry)
    requires Dressed(m, x, y) && m.mode != DERIVE && Admitted(cat, y, m.mode) == Ok(e)
    ensures e == Read(cat, m, x) && Allowed(cat, e)
  {
  }

  lemma SpokenFor(cat: Catalogue, goals: seq<GoalRecord>, t: Turn, code: string)
    requires t.Said?
    ensures IsFor(cat, goals, t, code, OwnerOfInput(cat, goals, code))
  {
    var focus := ContextGoal(goals);
    ContextIs(goals);
    OwnerGoesTo(cat, goals, code, focus);
    assert IsForGoal(cat, goals, t, code, OwnerGoal(cat, goals, code, focus));
  }

  lemma RecordedIsTaken(
    cat: Catalogue, rank: map<string, nat>, st: Conversation, t: Turn, m: Manner, x: FactInput, e: Entry,
    o: Owner, a: seq<FactRecord>)
    requires Ranked(cat, rank) && FactsOk(cat, rank, a, st.seqNo + 1)
    requires e == Read(cat, m, x) && Allowed(cat, e) && IsFor(cat, st.goals, t, x.code, o)
    ensures TakenIn(cat, st, t, m, x, a, Insert(cat, st.goals, a, st.seqNo + 1, o, e, m.mode, []))
  {
    InsertTakes(cat, rank, st.goals, a, st.seqNo + 1, o, e, m.mode, []);
  }

  /** What is left to take after the first input. */
  lemma AfterFirst(
    cat: Catalogue, rank: map<string, nat>, mode: Mode, inputs: seq<FactInput>, begun: Conversation,
    told: Conversation)
    returns (e: Entry, next: Conversation)
    requires Valid(cat) && Ranked(cat, rank) && FactsOk(cat, rank, begun.facts, begun.seqNo) && inputs != []
    requires RecordOwned(cat, begun, ContextGoal(begun.goals), inputs, mode) == Ok(told)
    ensures Admitted(cat, inputs[0], mode) == Ok(e)
    ensures next == begun.(facts := Insert(cat, begun.goals, begun.facts, begun.seqNo,
                                      OwnerOfInput(cat, begun.goals, inputs[0].code), e, mode, []))
    ensures FactsOk(cat, rank, next.facts, next.seqNo) && History(begun.facts, next.facts)
    ensures RecordOwned(cat, next, ContextGoal(next.goals), inputs[1..], mode) == Ok(told)
  {
    e, next := FirstRecorded(cat, rank, begun, inputs, mode);
  }

  lemma FirstIsTaken(
    cat: Catalogue, rank: map<string, nat>, st: Conversation, t: Turn, m: Manner, x: FactInput, y: FactInput,
    e: Entry, a: seq<FactRecord>)
    requires Ranked(cat, rank) && FactsOk(cat, rank, a, st.seqNo + 1)
    requires t.Said? && m.mode != DERIVE && Dressed(m, x, y) && Admitted(cat, y, m.mode) == Ok(e)
    ensures TakenIn(cat, st, t, m, x, a,
              Insert(cat, st.goals, a, st.seqNo + 1, OwnerOfInput(cat, st.goals, y.code), e, m.mode, []))
  {
    DressedIsRead(cat, m, x, y, e);
    SpokenFor(cat, st.goals, t, x.code);
    RecordedIsTaken(cat, rank, st, t, m, x, e, OwnerOfInput(cat, st.goals, x.code), a);
  }

  lemma OneMoreTaken(
    cat: Catalogue, st: Conversation, t: Turn, m: Manner, inputs: seq<FactInput>, a: seq<FactRecord>,
    rest: seq<seq<FactRecord>>)
    requires inputs != [] && AllTakenIn(cat, st, t, m, inputs[1..], rest)
    requires TakenIn(cat, st, t, m, inputs[0], a, rest[0])
    ensures AllTakenIn(cat, st, t, m, inputs, [a] + rest)
  {
    var xs := [a] + rest;
    forall k | 0 <= k < |inputs|
      ensures TakenIn(cat, st, t, m, inputs[k], xs[k], xs[k + 1])
    {
      if k > 0 {
        assert inputs[1..][k - 1] == inputs[k] && xs[k] == rest[k - 1] && xs[k + 1] == rest[k];
        assert TakenIn(cat, st, t, m, inputs[1..][k - 1], rest[k - 1], rest[k - 1 + 1]);
      }
    }
  }

  predicate AllDressed(m: Manner, raw: seq<FactInput>, inputs: seq<FactInput>) {
    |inputs| == |raw| && forall i | 0 <= i < |raw| :: Dressed(m, raw[i], inputs[i])
  }

  lemma NothingTaken(
    cat: Catalogue, rank: map<string, nat>, st: Conversation, t: Turn, m: Manner, facts: seq<FactRecord>)
    requires FactsOk(cat, rank, facts, st.seqNo + 1)
    ensures AllTakenIn(cat, st, t, m, [], [facts]) && AllOk(cat, rank, st.seqNo + 1, [facts], facts)
  {
    OneOk(cat, rank, st.seqNo + 1, facts);
  }

  /** The records before and after an input that is recorded for the goal it goes to. */
  ghost predicate Recorded(
    cat: Catalogue, goals: seq<GoalRecord>, now: nat, mode: Mode, y: FactInput, a: seq<FactRecord>, b: seq<FactRecord>)
  {
    exists e :: Admitted(cat, y, mode) == Ok(e)
      && b == Insert(cat, goals, a, now, OwnerOfInput(cat, goals, y.code), e, mode, [])
  }

  ghost predicate AllRecorded(
    cat: Catalogue, goals: seq<GoalRecord>, now: nat, mode: Mode, inputs: seq<FactInput>, xs: seq<seq<FactRecord>>)
  {
    && |xs| == |inputs| + 1
    && forall k | 0 <= k < |inputs| :: Recorded(cat, goals, now, mode, inputs[k], xs[k], xs[k + 1])
  }

  lemma OneMoreRecorded(
    cat: Catalogue, goals: seq<GoalRecord>, now: nat, mode: Mode, inputs: seq<FactInput>, a: seq<FactRecord>,
    rest: seq<seq<FactRecord>>)
    requires inputs != [] && AllRecorded(cat, goals, now, mode, inputs[1..], rest)
    requires Recorded(cat, goals, now, mode, inputs[0], a, rest[0])
    ensures AllRecorded(cat, goals, now, mode, inputs, [a] + rest)
  {
    var xs := [a] + rest;
    forall k | 0 <= k < |inputs|
      ensures Recorded(cat, goals, now, mode, inputs[k], xs[k], xs[k + 1])
    {
      if k > 0 {
        assert inputs[1..][k - 1] == inputs[k] && xs[k] == rest[k - 1] && xs[k + 1] == rest[k];
        assert Recorded(cat, goals, now, mode, inputs[1..][k - 1], rest[k - 1], rest[k - 1 + 1]);
      }
    }
  }

  lemma {:induction false} SpokenAreRecorded(
    cat: Catalogue, rank: map<string, nat>, mode: Mode, inputs: seq<FactInput>, begun: Conversation,
    told: Conversation)
    returns (xs: seq<seq<FactRecord>>)
    requires Valid(cat) && Ranked(cat, rank) && FactsOk(cat, rank, begun.facts, begun.seqNo)
    requires RecordOwned(cat, begun, ContextGoal(begun.goals), inputs, mode) == Ok(told)
    ensures AllRecorded(cat, begun.goals, begun.seqNo, mode, inputs, xs)
    ensures xs[0] == begun.facts && xs[|inputs|] == told.facts && AllOk(cat, rank, begun.seqNo, xs, told.facts)
    decreases |inputs|
  {
    if inputs == [] {
      xs := [begun.facts];
      OneOk(cat, rank, begun.seqNo, begun.facts);
    } else {
      var e, next := AfterFirst(cat, rank, mode, inputs, begun, told);
      var rest := SpokenAreRecorded(cat, rank, mode, inputs[1..], next, told);
      xs := [begun.facts] + rest;
      OneMoreOk(cat, rank, begun.seqNo, begun.facts, rest, told.facts);
      OneMoreRecorded(cat, begun.goals, begun.seqNo, mode, inputs, begun.facts, rest);
    }
  }

  /** What is spoken in a turn, recorded as it is read. */
  lemma RecordedAreTaken(
    cat: Catalogue, rank: map<string, nat>, st: Conversation, t: Turn, m: Manner, raw: seq<FactInput>,
    inputs: seq<FactInput>, xs: seq<seq<FactRecord>>, last: seq<FactRecord>)
    requires Ranked(cat, rank) && t.Said? && m.mode != DERIVE && AllDressed(m, raw, inputs)
    requires AllRecorded(cat, st.goals, st.seqNo + 1, m.mode, inputs, xs) && AllOk(cat, rank, st.seqNo + 1, xs, last)
    ensures AllTakenIn(cat, st, t, m, raw, xs)
  {
    forall k | 0 <= k < |raw|
      ensures TakenIn(cat, st, t, m, raw[k], xs[k], xs[k + 1])
    {
      assert Recorded(cat, st.goals, st.seqNo + 1, m.mode, inputs[k], xs[k], xs[k + 1]);
      var e :| Admitted(cat, inputs[k], m.mode) == Ok(e)
        && xs[k + 1] == Insert(cat, st.goals, xs[k], st.seqNo + 1, OwnerOfInput(cat, st.goals, inputs[k].code), e,
                          m.mode, []);
      FirstIsTaken(cat, rank, st, t, m, raw[k], inputs[k], e, xs[k]);
    }
  }

  // ----- signals -----

  lemma {:induction false} CandidatesAre(cat: Catalogue, goals: seq<GoalRecord>, code: string, k: nat)
    requires k <= |goals|
    ensures forall i: nat :: i in Candidates(cat, goals, code, k) <==> k <= i && Takes(cat, goals, None, code, i)
    decreases |goals| - k
  {
    if k < |goals| {
      CandidatesAre(cat, goals, code, k + 1);
    }
  }

  /** Without ambiguity all candidates look for the code in one place. */
  lemma CandidatesAgree(cat: Catalogue, goals: seq<GoalRecord>, code: string, i: nat, j: nat)
    requires !Ambiguous(cat, goals, code)
    requires Takes(cat, goals, None, code, i) && Takes(cat, goals, None, code, j)
    ensures KeyFor(cat, code, OwnerOf(goals, i)) == KeyFor(cat, code, OwnerOf(goals, j))
  {
    CandidatesAre(cat, goals, code, 0);
    var cs := Candidates(cat, goals, code, 0);
    assert i in cs && j in cs;
  }

  lemma SignalledFor(cat: Catalogue, goals: seq<GoalRecord>, goalId: Option<nat>, all: seq<FactInput>, code: string)
    requires goalId.Some? ==> goalId.value < |goals| && goals[goalId.value].status in OPEN
    requires goalId.None? ==> !Ambiguous(cat, goals, code)
    requires var owner := OwnerGoal(cat, goals, code, goalId);
             owner.Some? && Declares(GoalOf(cat, goals[owner.value].code), code)
    ensures IsFor(cat, goals, Signal(goalId, all), code, OwnerFor(goals, OwnerGoal(cat, goals, code, goalId)))
  {
    var owner := OwnerGoal(cat, goals, code, goalId);
    OwnerGoesTo(cat, goals, code, goalId);
    if goalId.None? {
      forall i: nat | Takes(cat, goals, None, code, i)
        ensures KeyFor(cat, code, OwnerOf(goals, i)) == KeyFor(cat, code, OwnerOf(goals, owner.value))
      {
        CandidatesAgree(cat, goals, code, i, owner.value);
      }
    }
    assert IsForGoal(cat, goals, Signal(goalId, all), code, owner);
  }

  /** What a signal does with one input. */
  lemma SignalIs(cat: Catalogue, st: Conversation, goalId: Option<nat>, x: FactInput, next: Conversation)
    returns (y: FactInput, e: Entry)
    requires goalId.Some? ==> goalId.value < |st.goals|
    requires SignalOne(cat, st, goalId, x) == Ok(next)
    ensures y == x.(source := if x.source.Some? then x.source else Some(SYSTEM), authoritative := true)
    ensures Admitted(cat, y, SUPERSEDE) == Ok(e) && e.code == x.code
    ensures goalId.None? ==> !Ambiguous(cat, st.goals, x.code)
    ensures var owner := OwnerGoal(cat, st.goals, x.code, goalId);
            && owner.Some? && Declares(GoalOf(cat, st.goals[owner.value].code), x.code)
            && next == st.(facts := Insert(cat, st.goals, st.facts, st.seqNo, OwnerOf(st.goals, owner.value), e,
                                      SUPERSEDE, []))
  {
    y := x.(source := if x.source.Some? then x.source else Some(SYSTEM), authoritative := true);
    e := Admitted(cat, y, SUPERSEDE).value;
  }

  lemma SignalKeepsFacts(
    cat: Catalogue, rank: map<string, nat>, goalId: Option<nat>, x: FactInput, begun: Conversation, next: Conversation)
    requires Valid(cat) && Ranked(cat, rank) && FactsOk(cat, rank, begun.facts, begun.seqNo)
    requires goalId.Some? ==> goalId.value < |begun.goals|
    requires SignalOne(cat, begun, goalId, x) == Ok(next)
    ensures FactsOk(cat, rank, next.facts, next.seqNo) && next == begun.(facts := next.facts)
    ensures History(begun.facts, next.facts)
  {
    var y, e := SignalIs(cat, begun, goalId, x, next);
    AdmittedFit(cat, y, SUPERSEDE);
    var o := OwnerFor(begun.goals, OwnerGoal(cat, begun.goals, x.code, goalId));
    InsertKeepsFacts(cat, rank, begun.goals, begun.facts, begun.seqNo, o, e, SUPERSEDE, []);
  }

  lemma SignalIsTaken(
    cat: Catalogue, rank: map<string, nat>, st: Conversation, goalId: Option<nat>, all: seq<FactInput>, m: Manner,
    x: FactInput, begun: Conversation, next: Conversation)
    requires Valid(cat) && Ranked(cat, rank) && FactsOk(cat, rank, begun.facts, begun.seqNo)
    requires begun.goals == st.goals && begun.seqNo == st.seqNo + 1 && m == Manner(SUPERSEDE, SYSTEM, CONFIRMED, true)
    requires goalId.Some? ==> goalId.value < |st.goals| && st.goals[goalId.value].status in OPEN
    requires SignalOne(cat, begun, goalId, x) == Ok(next)
    ensures TakenIn(cat, st, Signal(goalId, all), m, x, begun.facts, next.facts)
  {
    var y, e := SignalIs(cat, begun, goalId, x, next);
    var o := OwnerFor(st.goals, OwnerGoal(cat, st.goals, x.code, goalId));
    DressedIsRead(cat, m, x, y, e);
    SignalledFor(cat, st.goals, goalId, all, x.code);
    RecordedIsTaken(cat, rank, st, Signal(goalId, all), m, x, e, o, begun.facts);
  }

  /** After the first input of a signal the others are left. */
  lemma OthersAreLeft(
    cat: Catalogue, goalId: Option<nat>, inputs: seq<FactInput>, begun: Conversation, told: Conversation)
    returns (next: Conversation)
    requires goalId.Some? ==> goalId.value < |begun.goals|
    requires inputs != [] && SignalFrom(cat, begun, goalId, inputs) == Ok(told)
    ensures SignalOne(cat, begun, goalId, inputs[0]) == Ok(next)
    ensures next == begun.(facts := next.facts) && SignalFrom(cat, next, goalId, inputs[1..]) == Ok(told)
  {
    next := SignalOne(cat, begun, goalId, inputs[0]).value;
  }

  lemma {:induction false} SignalsAreTaken(
    cat: Catalogue, rank: map<string, nat>, st: Conversation, goalId: Option<nat>, all: seq<FactInput>, m: Manner,
    inputs: seq<FactInput>, begun: Conversation, told: Conversation)
    returns (xs: seq<seq<FactRecord>>)
    requires Valid(cat) && Ranked(cat, rank) && FactsOk(cat, rank, begun.facts, begun.seqNo)
    requires begun.goals == st.goals && begun.seqNo == st.seqNo + 1 && m == Manner(SUPERSEDE, SYSTEM, CONFIRMED, true)
    requires goalId.Some? ==> goalId.value < |st.goals| && st.goals[goalId.value].status in OPEN
    requires SignalFrom(cat, begun, goalId, inputs) == Ok(told)
    ensures AllTakenIn(cat, st, Signal(goalId, all), m, inputs, xs)
    ensures xs[0] == begun.facts && xs[|inputs|] == told.facts
    ensures AllOk(cat, rank, st.seqNo + 1, xs, told.facts)
    decreases |inputs|
  {
    if inputs == [] {
      xs := [begun.facts];
      NothingTaken(cat, rank, st, Signal(goalId, all), m, begun.facts);
    } else {
      var next := OthersAreLeft(cat, goalId, inputs, begun, told);
      SignalKeepsFacts(cat, rank, goalId, inputs[0], begun, next);
      SignalIsTaken(cat, rank, st, goalId, all, m, inputs[0], begun, next);
      var rest := SignalsAreTaken(cat, rank, st, goalId, all, m, inputs[1..], next, told);
      xs := [begun.facts] + rest;
      OneMoreOk(cat, rank, st.seqNo + 1, begun.facts, rest, told.facts);
      OneMoreTaken(cat, st, Signal(goalId, all), m, inputs, begun.facts, rest);
    }
  }

  // ----- the turn -----

  lemma DressingIs(t: Turn, m: Manner, raw: seq<FactInput>) returns (inputs: seq<FactInput>)
    requires t.Said? && GivenIn(t) == Some((m, raw))
    ensures AllDressed(m, raw, inputs)
    ensures m.mode != DERIVE && Settles(t.event)
    ensures forall cat, st :: Take(cat, st, t.event) == RecordOwned(cat, st, ContextGoal(st.goals), inputs, m.mode)
  {
    match t.event
    case Correction(facts) => inputs := Sourced(facts, USER_CORRECTION);
    case ChangeOfMind(facts) => inputs := Sourced(facts, USER_EXPLICIT);
    case Uncertain(facts) => inputs := Hedged(facts);
    case _ => inputs := raw;
  }

  lemma SignalTells(cat: Catalogue, st: Conversation, goalId: Option<nat>, inputs: seq<FactInput>, next: Conversation)
    returns (told: Conversation)
    requires Apply(cat, st, Signal(goalId, inputs)) == Ok(next)
    ensures goalId.Some? ==> goalId.value < |st.goals| && st.goals[goalId.value].status in OPEN
    ensures SignalFrom(cat, Numbered(st), goalId, inputs) == Ok(told) && Finish(cat, told, ROUNDS) == Ok(next)
  {
    told := SignalFrom(cat, Numbered(st), goalId, inputs).value;
  }

  lemma LaterHistory(
    cat: Catalogue, rank: map<string, nat>, now: nat, xs: seq<seq<FactRecord>>, told: seq<FactRecord>,
    last: seq<FactRecord>)
    requires AllOk(cat, rank, now, xs, told) && History(told, last)
    ensures AllOk(cat, rank, now, xs, last)
  {
    forall k | 0 <= k < |xs|
      ensures History(xs[k], last)
    {
      HistoryChain(xs[k], told, last);
    }
  }

  lemma RestKeepsHistory(
    cat: Catalogue, rank: map<string, nat>, now: nat, xs: seq<seq<FactRecord>>, told: Conversation,
    next: Conversation)
    requires Valid(cat) && Ranked(cat, rank) && Finish(cat, told, ROUNDS) == Ok(next)
    requires xs != [] && xs[|xs| - 1] == told.facts && told.seqNo == now && AllOk(cat, rank, now, xs, told.facts)
    ensures AllOk(cat, rank, now, xs, next.facts)
  {
    RestAdds(cat, rank, told, next);
    LaterHistory(cat, rank, now, xs, told.facts, next.facts);
  }

  lemma RestAdds(cat: Catalogue, rank: map<string, nat>, told: Conversation, next: Conversation)
    requires Valid(cat) && Ranked(cat, rank) && FactsOk(cat, rank, told.facts, told.seqNo)
    requires Finish(cat, told, ROUNDS) == Ok(next)
    ensures History(told.facts, next.facts)
  {
    SettlingKeepsHistory(cat, rank, told, ROUNDS);
  }

  lemma {:induction false} ToldSpeechTakes(
    cat: Catalogue, rank: map<string, nat>, st: Conversation, t: Turn, m: Manner, raw: seq<FactInput>,
    inputs: seq<FactInput>, begun: Conversation, told: Conversation)
    returns (xs: seq<seq<FactRecord>>)
    requires Valid(cat) && Ranked(cat, rank) && FactsOk(cat, rank, begun.facts, begun.seqNo)
    requires t.Said? && m.mode != DERIVE && AllDressed(m, raw, inputs)
    requires begun.facts == st.facts && begun.goals == st.goals && begun.seqNo == st.seqNo + 1
    requires RecordOwned(cat, begun, ContextGoal(begun.goals), inputs, m.mode) == Ok(told)
    ensures AllTakenIn(cat, st, t, m, raw, xs) && xs[0] == st.facts && xs[|raw|] == told.facts
    ensures AllOk(cat, rank, st.seqNo + 1, xs, told.facts)
  {
    xs := SpokenAreRecorded(cat, rank, m.mode, inputs, begun, told);
    RecordedAreTaken(cat, rank, st, t, m, raw, inputs, xs, told.facts);
  }

  lemma {:induction false} SpokenTurnTakes(
    cat: Catalogue, rank: map<string, nat>, st: Conversation, t: Turn, m: Manner, inputs: seq<FactInput>,
    next: Conversation)
    returns (xs: seq<seq<FactRecord>>)
    requires Valid(cat) && Ranked(cat, rank) && FactsOk(cat, rank, st.facts, st.seqNo + 1)
    requires t.Said? && GivenIn(t) == Some((m, inputs)) && Apply(cat, st, t) == Ok(next)
    ensures AllTakenIn(cat, st, t, m, inputs, xs)
    ensures xs[0] == st.facts && AllOk(cat, rank, st.seqNo + 1, xs, next.facts)
  {
    var dressed := DressingIs(t, m, inputs);
    var told := TurnTakes(cat, st, t.event, next);
    xs := ToldSpeechTakes(cat, rank, st, t, m, inputs, dressed, Numbered(st), told);
    RestKeepsHistory(cat, rank, st.seqNo + 1, xs, told, next);
  }

  lemma {:induction false} ToldSignalTakes(
    cat: Catalogue, rank: map<string, nat>, st: Conversation, goalId: Option<nat>, inputs: seq<FactInput>, m: Manner,
    told: Conversation, next: Conversation)
    returns (xs: seq<seq<FactRecord>>)
    requires Valid(cat) && Ranked(cat, rank) && FactsOk(cat, rank, st.facts, st.seqNo + 1)
    requires goalId.Some? ==> goalId.value < |st.goals| && st.goals[goalId.value].status in OPEN
    requires SignalFrom(cat, Numbered(st), goalId, inputs) == Ok(told) && Finish(cat, told, ROUNDS) == Ok(next)
    requires m == Manner(SUPERSEDE, SYSTEM, CONFIRMED, true)
    ensures AllTakenIn(cat, st, Signal(goalId, inputs), m, inputs, xs)
    ensures xs[0] == st.facts && AllOk(cat, rank, st.seqNo + 1, xs, next.facts)
  {
    xs := SignalsAreTaken(cat, rank, st, goalId, inputs, m, inputs, Numbered(st), told);
    RestKeepsHistory(cat, rank, st.seqNo + 1, xs, told, next);
  }

  lemma {:induction false} SignalTurnTakes(
    cat: Catalogue, rank: map<string, nat>, st: Conversation, goalId: Option<nat>, inputs: seq<FactInput>, m: Manner,
    next: Conversation)
    returns (xs: seq<seq<FactRecord>>)
    requires Valid(cat) && Ranked(cat, rank) && FactsOk(cat, rank, st.facts, st.seqNo + 1)
    requires m == Manner(SUPERSEDE, SYSTEM, CONFIRMED, true) && Apply(cat, st, Signal(goalId, inputs)) == Ok(next)
    ensures AllTakenIn(cat, st, Signal(goalId, inputs), m, inputs, xs)
    ensures xs[0] == st.facts && AllOk(cat, rank, st.seqNo + 1, xs, next.facts)
  {
    var told := SignalTells(cat, st, goalId, inputs, next);
    xs := ToldSignalTakes(cat, rank, st, goalId, inputs, m, told, next);
  }

  /** A turn that gives facts records them one after another, each allowed, for the goal it is for, and with the
      source, the confidence and the authority that the manner of the turn gives it; and what follows in the turn
      takes none of it back. */
  lemma {:induction false} TurnTakesItsFacts(
    cat: Catalogue, rank: map<string, nat>, turns: seq<Turn>, t: Turn, m: Manner, inputs: seq<FactInput>,
    next: Conversation)
    returns (xs: seq<seq<FactRecord>>)
    requires Valid(cat) && Ranked(cat, rank)
    requires GivenIn(t) == Some((m, inputs)) && Apply(cat, Run(cat, turns), t) == Ok(next)
    ensures AllTakenIn(cat, Run(cat, turns), t, m, inputs, xs)
    ensures xs[0] == Run(cat, turns).facts && History(xs[|inputs|], next.facts)
    ensures AllOk(cat, rank, Run(cat, turns).seqNo + 1, xs, next.facts)
  {
    ReachableFactsOk(cat, rank, turns);
    var st := Run(cat, turns);
    LaterOk(cat, rank, st.facts, st.seqNo);
    if t.Said? {
      xs := SpokenTurnTakes(cat, rank, st, t, m, inputs, next);
    } else {
      xs := SignalTurnTakes(cat, rank, st, t.goalId, inputs, m, next);
    }
  }

  // ----- what a signal does -----

  /** A text of the kind that is told again and again, and that was told there. */
  ghost predicate ToldBefore(cat: Catalogue, a: seq<FactRecord>, o: Owner, x: FactInput) {
    && FactOf(cat, x.code).repeatable
    && exists i: nat :: i < |a| && Within(cat, a[i], o, x.code) && a[i].value == x.value
  }

  /** Record n says what the signal says, with authority from an accepted source, and is confirmed unless the
      signal states otherwise. */
  ghost predicate Signalled(cat: Catalogue, b: seq<FactRecord>, o: Owner, x: FactInput, n: nat) {
    && n < |b| && Within(cat, b[n], o, x.code) && b[n].value == x.value
    && b[n].authoritative && b[n].source in cat.accepted
    && (x.confidence.None? ==> b[n].confidence == CONFIRMED)
  }

  /** Goal gi is open and declares the code. It is the goal that is named, or in its case if that one does not
      declare the code; if none is named, the other goals that declare the code look for it in the same place. */
  ghost predicate ForGoal(
    cat: Catalogue, goals: seq<GoalRecord>, goalId: Option<nat>, code: string, o: Owner, gi: nat) {
    && Takes(cat, goals, goalId, code, gi) && o == OwnerOf(goals, gi)
    && (goalId.Some? ==>
          && goalId.value < |goals| && goals[goalId.value].status in {ACTIVE, SUSPENDED, WAITING}
          && (Declares(GoalOf(cat, goals[goalId.value].code), code) ==> gi == goalId.value))
    && (goalId.None? ==> forall i: nat | Takes(cat, goals, None, code, i) ::
          KeyFor(cat, code, OwnerOf(goals, i)) == KeyFor(cat, code, o))
  }

  lemma TakenIsSignalled(
    cat: Catalogue, a: seq<FactRecord>, b: seq<FactRecord>, now: nat, o: Owner, m: Manner, x: FactInput)
    requires m == Manner(SUPERSEDE, SYSTEM, CONFIRMED, true) && Allowed(cat, Read(cat, m, x))
    requires AllTrusted(cat, a) && Taken(cat, a, b, now, o, Read(cat, m, x), SUPERSEDE, [])
    ensures if ToldBefore(cat, a, o, x) then b == a else exists n: nat :: Signalled(cat, b, o, x, n)
  {
    var e := Read(cat, m, x);
    if i: nat :| Says(cat, a, o, e, i) && !FactOf(cat, x.code).repeatable && a[i].authoritative {
      assert Trusted(cat, a[i]) && Suffices(cat, a, o, e, i);
      assert Signalled(cat, b, o, x, i);
    } else if ToldBefore(cat, a, o, x) {
      var i: nat :| i < |a| && Within(cat, a[i], o, x.code) && a[i].value == x.value;
      assert Says(cat, a, o, e, i);
    } else {
      assert Added(cat, a, b, now, o, e, SUPERSEDE, []);
      assert Signalled(cat, b, o, x, |a|);
    }
  }

  /** What record n says, for whom and with what authority, is said so to the end. */
  ghost predicate Lasts(b: seq<FactRecord>, last: seq<FactRecord>, n: nat) {
    && n < |b| && n < |last|
    && last[n].code == b[n].code && last[n].value == b[n].value
    && last[n].caseId == b[n].caseId && last[n].goalId == b[n].goalId
    && last[n].source == b[n].source && last[n].authoritative == b[n].authoritative
  }

  /** Input k is recorded with authority for an open goal that declares it, and so to the end of the turn; it is
      confirmed, unless it states otherwise, and still so once all inputs are in, if no later one is of its code.
      A text that was told before changes nothing. */
  ghost predicate Heard(
    cat: Catalogue, goals: seq<GoalRecord>, goalId: Option<nat>, inputs: seq<FactInput>, xs: seq<seq<FactRecord>>,
    last: seq<FactRecord>, k: nat)
    requires k < |inputs| && |xs| == |inputs| + 1
  {
    var x, a, b, done := inputs[k], xs[k], xs[k + 1], xs[|inputs|];
    exists gi: nat, o :: ForGoal(cat, goals, goalId, x.code, o, gi)
      && if ToldBefore(cat, a, o, x) then b == a
         else exists n: nat :: Signalled(cat, b, o, x, n) && Lasts(b, last, n)
                && (x.confidence.None? && (forall j | k < j < |inputs| :: inputs[j].code != x.code) ==>
                      n < |done| && done[n].confidence == CONFIRMED)
  }

  /** Inputs of other codes leave what a record is rated. */
  lemma {:induction false} OthersKeepRating(
    cat: Catalogue, st: Conversation, t: Turn, m: Manner, inputs: seq<FactInput>, xs: seq<seq<FactRecord>>,
    k: nat, n: nat)
    requires AllTakenIn(cat, st, t, m, inputs, xs) && k <= |inputs| && n < |xs[k]|
    requires forall j | k <= j < |inputs| :: inputs[j].code != xs[k][n].code
    ensures n < |xs[|inputs|]| && xs[|inputs|][n].confidence == xs[k][n].confidence
    decreases |inputs| - k
  {
    if k < |inputs| {
      assert TakenIn(cat, st, t, m, inputs[k], xs[k], xs[k + 1]);
      OthersKeepRating(cat, st, t, m, inputs, xs, k + 1, n);
    }
  }

  lemma InputIsHeard(
    cat: Catalogue, rank: map<string, nat>, st: Conversation, goalId: Option<nat>, inputs: seq<FactInput>, m: Manner,
    xs: seq<seq<FactRecord>>, last: seq<FactRecord>, k: nat)
    requires m == Manner(SUPERSEDE, SYSTEM, CONFIRMED, true) && k < |inputs|
    requires AllTakenIn(cat, st, Signal(goalId, inputs), m, inputs, xs)
    requires AllOk(cat, rank, st.seqNo + 1, xs, last)
    ensures Heard(cat, st.goals, goalId, inputs, xs, last, k)
  {
    var t, x, a, b := Signal(goalId, inputs), inputs[k], xs[k], xs[k + 1];
    assert TakenIn(cat, st, t, m, x, a, b);
    var o :| IsFor(cat, st.goals, t, x.code, o) && Allowed(cat, Read(cat, m, x))
      && Taken(cat, a, b, st.seqNo + 1, o, Read(cat, m, x), SUPERSEDE, []);
    var owner: Option<nat> :| IsForGoal(cat, st.goals, t, x.code, owner) && o == OwnerFor(st.goals, owner);
    assert ForGoal(cat, st.goals, goalId, x.code, o, owner.value);
    TakenIsSignalled(cat, a, b, st.seqNo + 1, o, m, x);
    if !ToldBefore(cat, a, o, x) {
      var n: nat :| Signalled(cat, b, o, x, n);
      assert Evolved(b[n], last[n]) && Lasts(b, last, n);
      if forall j | k < j < |inputs| :: inputs[j].code != x.code {
        OthersKeepRating(cat, st, t, m, inputs, xs, k + 1, n);
      }
    }
  }

  lemma AllAreHeard(
    cat: Catalogue, rank: map<string, nat>, st: Conversation, goalId: Option<nat>, inputs: seq<FactInput>, m: Manner,
    xs: seq<seq<FactRecord>>, last: seq<FactRecord>)
    requires m == Manner(SUPERSEDE, SYSTEM, CONFIRMED, true)
    requires AllTakenIn(cat, st, Signal(goalId, inputs), m, inputs, xs)
    requires AllOk(cat, rank, st.seqNo + 1, xs, last)
    ensures forall k | 0 <= k < |inputs| :: Heard(cat, st.goals, goalId, inputs, xs, last, k)
  {
    forall k | 0 <= k < |inputs|
      ensures Heard(cat, st.goals, goalId, inputs, xs, last, k)
    {
      InputIsHeard(cat, rank, st, goalId, inputs, m, xs, last, k);
    }
  }

  /** A signal is the one way to confirm a gated fact, and it does: from every reachable state each of its inputs
      is recorded with the authority of an accepted source, for an open goal that declares the code. */
  lemma SignalIsHeard(
    cat: Catalogue, rank: map<string, nat>, turns: seq<Turn>, goalId: Option<nat>, inputs: seq<FactInput>,
    next: Conversation)
    returns (xs: seq<seq<FactRecord>>)
    requires Valid(cat) && Ranked(cat, rank) && Apply(cat, Run(cat, turns), Signal(goalId, inputs)) == Ok(next)
    ensures |xs| == |inputs| + 1 && xs[0] == Run(cat, turns).facts
    ensures forall k | 0 <= k < |inputs| :: Heard(cat, Run(cat, turns).goals, goalId, inputs, xs, next.facts, k)
  {
    var m := Manner(SUPERSEDE, SYSTEM, CONFIRMED, true);
    xs := TurnTakesItsFacts(cat, rank, turns, Signal(goalId, inputs), m, inputs, next);
    AllAreHeard(cat, rank, Run(cat, turns), goalId, inputs, m, xs, next.facts);
  }
}
