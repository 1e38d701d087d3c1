/** The laboratory runtime of Motor V2 over one store: each inbound is processed once. */
module MotorRuntime {
  import opened Basics
  import opened MotorStore

  /** What the understanding and the policy found in a turn. */
  type Findings = Ref

  /** The hash of an input covers all of it, so the input stands for its hash. */
  datatype Input = Input(
    conversation: Option<Ref>, inbound: Option<Ref>, instant: nat, known: seq<Known>, messages: Ref)

  /** An id is given, or made from the hash of the input. */
  datatype Name = Given(ref: Ref) | Made(input: Input)

  function ConversationOf(input: Input): Name {
    if input.conversation.Some? then Given(input.conversation.value) else Made(input)
  }

  function InboundOf(input: Input): Name {
    if input.inbound.Some? then Given(input.inbound.value) else Made(input)
  }

  datatype Step = UNDERSTANDING_COMPLETED | POLICY_EVALUATED | TURN_COMMITTED

  datatype Event = Event(sequence: nat, at: nat, step: Step)

  datatype State = State(
    conversation: Name, revision: nat, facts: seq<Fact>, findings: Findings,
    processed: seq<Name>, hashes: map<Name, Input>, audit: seq<Event>)

  datatype Error = OTHER_CONVERSATION | INBOUND_REUSED | REVISION_CONFLICT

  datatype Committed = Committed(duplicate: bool, state: State)

  // ------------------------------------------------------------------ commit

  function WithInbound(s: State, inbound: Name, hash: Input, at: nat): State {
    s.(revision := s.revision + 1,
       processed := if inbound in s.processed then s.processed else s.processed + [inbound],
       hashes := s.hashes[inbound := hash],
       audit := s.audit + [Event(|s.audit| + 1, at, TURN_COMMITTED)])
  }

  function RevisionOf(stored: Option<State>): nat {
    if stored.Some? then stored.value.revision else 0
  }

  function CommitOf(stored: Option<State>, s: State, inbound: Name, hash: Input, at: nat): Result<Committed, Error> {
    if stored.Some? && inbound in stored.value.processed then
      if inbound in stored.value.hashes && stored.value.hashes[inbound] == hash then Ok(Committed(true, stored.value))
      else Err(INBOUND_REUSED)
    else if s.revision != RevisionOf(stored) then Err(REVISION_CONFLICT)
    else Ok(Committed(false, WithInbound(s, inbound, hash, at)))
  }

  /** What the store holds after a call that came out in r. */
  function Kept(stored: Option<State>, r: Result<Committed, Error>): Option<State> {
    if r.Ok? then Some(r.value.state) else stored
  }

  // -------------------------------------------------------------------- turn

  /** The state a turn proposes to the store. */
  function Proposed(stored: Option<State>, input: Input, findings: Findings): State {
    var facts := if stored.Some? then stored.value.facts else [];
    var audit := if stored.Some? then stored.value.audit else [];
    State(
      ConversationOf(input), RevisionOf(stored), UpsertedAll(facts, input.known, input.instant), findings,
      if stored.Some? then stored.value.processed else [],
      if stored.Some? then stored.value.hashes else map[],
      audit + [Event(|audit| + 1, input.instant, UNDERSTANDING_COMPLETED),
               Event(|audit| + 2, input.instant, POLICY_EVALUATED)])
  }

  function TurnOf(stored: Option<State>, input: Input, findings: Findings): Result<Committed, Error> {
    if stored.Some? && stored.value.conversation != ConversationOf(input) then Err(OTHER_CONVERSATION)
    else if stored.Some? && InboundOf(input) in stored.value.processed then
      if InboundOf(input) in stored.value.hashes && stored.value.hashes[InboundOf(input)] == input then
        Ok(Committed(true, stored.value))
      else Err(INBOUND_REUSED)
    else CommitOf(stored, Proposed(stored, input, findings), InboundOf(input), input, input.instant)
  }

  class Store {
    var state: Option<State>

    constructor ()
      ensures state == None
    {
      state := None;
    }

    method Commit(s: State, inbound: Name, hash: Input, at: nat) returns (r: Result<Committed, Error>)
      modifies this
      ensures r == CommitOf(old(state), s, inbound, hash, at)
      ensures state == Kept(old(state), r)
    {
      if state.Some? && inbound in state.value.processed {
        if !(inbound in state.value.hashes && state.value.hashes[inbound] == hash) {
          return Err(INBOUND_REUSED);
        }
        return Ok(Committed(true, state.value));
      }
      var expected := if state.Some? then state.value.revision else 0;
      if s.revision != expected {
        return Err(REVISION_CONFLICT);
      }
      var next := s.(revision := s.revision + 1);
      if inbound !in next.processed {
        next := next.(processed := next.processed + [inbound]);
      }
      next := next.(hashes := next.hashes[inbound := hash]);
      next := next.(audit := next.audit + [Event(|next.audit| + 1, at, TURN_COMMITTED)]);
      state := Some(next);
      r := Ok(Committed(false, next));
    }
  }

  method UpsertEach(first: seq<Fact>, known: seq<Known>, at: nat) returns (facts: seq<Fact>)
    ensures facts == UpsertedAll(first, known, at)
  {
    facts := first;
    var i := 0;
    while i < |known|
      invariant 0 <= i <= |known|
      invariant facts == UpsertedAll(first, known[..i], at)
    {
      facts := Upsert(facts, known[i], at);
      assert known[..i + 1][..i] == known[..i];
      i := i + 1;
    }
    assert known[..i] == known;
  }

  method RunLabCase(store: Store, input: Input, findings: Findings) returns (r: Result<Committed, Error>)
    modifies store
    ensures r == TurnOf(old(store.state), input, findings)
    ensures store.state == Kept(old(store.state), r)
  {
    var prior := store.state;
    if prior.Some? && prior.value.conversation != ConversationOf(input) {
      return Err(OTHER_CONVERSATION);
    }
    if prior.Some? && InboundOf(input) in prior.value.processed {
      if !(InboundOf(input) in prior.value.hashes && prior.value.hashes[InboundOf(input)] == input) {
        return Err(INBOUND_REUSED);
      }
      return Ok(Committed(true, prior.value));
    }
    var facts := UpsertEach(if prior.Some? then prior.value.facts else [], input.known, input.instant);
    var audit := if prior.Some? then prior.value.audit else [];
    var proposed := State(
      ConversationOf(input), if prior.Some? then prior.value.revision else 0, facts, findings,
      if prior.Some? then prior.value.processed else [],
      if prior.Some? then prior.value.hashes else map[],
      audit + [Event(|audit| + 1, input.instant, UNDERSTANDING_COMPLETED),
               Event(|audit| + 2, input.instant, POLICY_EVALUATED)]);
    r := store.Commit(proposed, InboundOf(input), input, input.instant);
  }

  // -------------------------------------------------------------------- runs

  datatype Submission = Submission(input: Input, findings: Findings)

  /** The store after a sequence of submissions, whatever comes of each. */
  function Run(submissions: seq<Submission>): Option<State> {
    if submissions == [] then None
    else
      var before := Run(submissions[..|submissions| - 1]);
      var last := submissions[|submissions| - 1];
      Kept(before, TurnOf(before, last.input, last.findings))
  }

  predicate Numbered(audit: seq<Event>) {
    forall i :: 0 <= i < |audit| ==> audit[i].sequence == i + 1
  }

  predicate NoneTwice(names: seq<Name>) {
    forall i, j :: 0 <= i < j < |names| ==> names[i] != names[j]
  }

  /** What every stored state satisfies. */
  ghost predicate Sound(s: State) {
    && Versioned(s.facts)
    && s.revision == |s.processed|
    && NoneTwice(s.processed)
    && (forall n :: n in s.hashes <==> n in s.processed)
    && Numbered(s.audit)
    && |s.audit| == 3 * s.revision
  }

  lemma OneMoreStep(audit: seq<Event>, at: nat, step: Step)
    requires Numbered(audit)
    ensures Numbered(audit + [Event(|audit| + 1, at, step)])
  {
  }

  lemma TurnIsNumbered(audit: seq<Event>, at: nat)
    requires Numbered(audit)
    ensures var proposed := audit + [Event(|audit| + 1, at, UNDERSTANDING_COMPLETED),
                                     Event(|audit| + 2, at, POLICY_EVALUATED)];
      Numbered(proposed + [Event(|proposed| + 1, at, TURN_COMMITTED)])
  {
    var one := audit + [Event(|audit| + 1, at, UNDERSTANDING_COMPLETED)];
    OneMoreStep(audit, at, UNDERSTANDING_COMPLETED);
    OneMoreStep(one, at, POLICY_EVALUATED);
    var proposed := audit + [Event(|audit| + 1, at, UNDERSTANDING_COMPLETED), Event(|audit| + 2, at, POLICY_EVALUATED)];
    assert proposed == one + [Event(|one| + 1, at, POLICY_EVALUATED)];
    OneMoreStep(proposed, at, TURN_COMMITTED);
  }

  lemma AcceptedIsSound(stored: Option<State>, input: Input, findings: Findings)
    requires stored.Some? ==> Sound(stored.value)
    requires stored.Some? ==> InboundOf(input) !in stored.value.processed
    ensures Sound(WithInbound(Proposed(stored, input, findings), InboundOf(input), input, input.instant))
  {
    var facts := if stored.Some? then stored.value.facts else [];
    var audit := if stored.Some? then stored.value.audit else [];
    UpsertAllKeeps(facts, input.known, input.instant);
    TurnIsNumbered(audit, input.instant);
    var s := WithInbound(Proposed(stored, input, findings), InboundOf(input), input, input.instant);
    assert s.facts == UpsertedAll(facts, input.known, input.instant);
    assert Numbered(s.audit);
  }

  /** A turn keeps the stored state sound, and its own proposal never has a stale revision. */
  lemma TurnKeepsSound(stored: Option<State>, input: Input, findings: Findings)
    requires stored.Some? ==> Sound(stored.value)
    ensures TurnOf(stored, input, findings).Ok? ==> Sound(TurnOf(stored, input, findings).value.state)
    ensures TurnOf(stored, input, findings) != Err(REVISION_CONFLICT)
  {
    if !(stored.Some? && InboundOf(input) in stored.value.processed) {
      AcceptedIsSound(stored, input, findings);
    }
  }

  /** Over every run: versions chained, revision the number of processed inbounds, audit numbered without a gap. */
  lemma {:induction false} RunsAreSound(submissions: seq<Submission>)
    ensures Run(submissions).Some? ==> Sound(Run(submissions).value)
  {
    if submissions != [] {
      var n := |submissions| - 1;
      RunsAreSound(submissions[..n]);
      TurnKeepsSound(Run(submissions[..n]), submissions[n].input, submissions[n].findings);
    }
  }

  /** Nothing that is stored is taken back: facts, processed inbounds, their hashes, the audit. */
  predicate Grows(before: State, after: State) {
    && Extends(before.facts, after.facts)
    && before.conversation == after.conversation
    && before.processed <= after.processed
    && (forall n :: n in before.hashes ==> n in after.hashes && after.hashes[n] == before.hashes[n])
    && before.audit <= after.audit
  }

  lemma TurnGrows(s: State, input: Input, findings: Findings)
    requires Sound(s)
    ensures var after := Kept(Some(s), TurnOf(Some(s), input, findings)); after.Some? && Grows(s, after.value)
  {
    UpsertAllKeeps(s.facts, input.known, input.instant);
  }

  lemma GrowsOn(a: State, b: State, c: State)
    requires Grows(a, b) && Grows(b, c)
    ensures Grows(a, c)
  {
  }

  lemma {:induction false} RunsGrow(submissions: seq<Submission>, m: nat)
    requires m <= |submissions| && Run(submissions[..m]).Some?
    ensures Run(submissions).Some? && Grows(Run(submissions[..m]).value, Run(submissions).value)
    decreases |submissions|
  {
    var n := |submissions| - 1;
    if m == |submissions| {
      assert submissions[..m] == submissions;
    } else {
      var init := submissions[..n];
      assert init[..m] == submissions[..m];
      RunsGrow(init, m);
      RunsAreSound(init);
      TurnGrows(Run(init).value, submissions[n].input, submissions[n].findings);
      GrowsOn(Run(submissions[..m]).value, Run(init).value, Run(submissions).value);
    }
  }

  /** The input was processed in this conversation, and its hash is on record. */
  predicate Holds(stored: Option<State>, input: Input) {
    && stored.Some?
    && stored.value.conversation == ConversationOf(input)
    && InboundOf(input) in stored.value.processed
    && InboundOf(input) in stored.value.hashes
    && stored.value.hashes[InboundOf(input)] == input
  }

  lemma ProcessedHolds(stored: Option<State>, input: Input, findings: Findings)
    requires TurnOf(stored, input, findings).Ok?
    ensures Holds(Kept(stored, TurnOf(stored, input, findings)), input)
  {
  }

  lemma HeldIsDuplicate(stored: Option<State>, input: Input, findings: Findings)
    requires Holds(stored, input)
    ensures TurnOf(stored, input, findings) == Ok(Committed(true, stored.value))
  {
  }

  lemma HeldStays(submissions: seq<Submission>, m: nat, input: Input)
    requires m <= |submissions| && Holds(Run(submissions[..m]), input)
    ensures Holds(Run(submissions), input)
  {
    RunsGrow(submissions, m);
    var s, t := Run(submissions[..m]).value, Run(submissions).value;
    assert s.processed <= t.processed;
    assert forall n :: n in s.processed ==> n in t.processed;
  }

  lemma RunOneMore(submissions: seq<Submission>, last: Submission)
    ensures Run(submissions + [last])
      == Kept(Run(submissions), TurnOf(Run(submissions), last.input, last.findings))
  {
    assert (submissions + [last])[..|submissions|] == submissions;
  }

  lemma RunUpTo(submissions: seq<Submission>, m: nat)
    requires m < |submissions|
    ensures Run(submissions[..m + 1])
      == Kept(Run(submissions[..m]), TurnOf(Run(submissions[..m]), submissions[m].input, submissions[m].findings))
  {
    var upTo := submissions[..m + 1];
    assert upTo[..m] == submissions[..m];
    assert upTo[m] == submissions[m];
  }

  lemma ProcessedStays(submissions: seq<Submission>, m: nat)
    requires m < |submissions|
    requires TurnOf(Run(submissions[..m]), submissions[m].input, submissions[m].findings).Ok?
    ensures Holds(Run(submissions), submissions[m].input)
  {
    RunUpTo(submissions, m);
    ProcessedHolds(Run(submissions[..m]), submissions[m].input, submissions[m].findings);
    HeldStays(submissions, m + 1, submissions[m].input);
  }

  /** Once an input went in, sending it again at any later time returns what is stored and changes nothing. */
  lemma ResubmissionChangesNothing(submissions: seq<Submission>, m: nat, findings: Findings)
    requires m < |submissions|
    requires TurnOf(Run(submissions[..m]), submissions[m].input, submissions[m].findings).Ok?
    ensures Run(submissions).Some?
    ensures TurnOf(Run(submissions), submissions[m].input, findings) == Ok(Committed(true, Run(submissions).value))
    ensures Run(submissions + [Submission(submissions[m].input, findings)]) == Run(submissions)
  {
    var input := submissions[m].input;
    ProcessedStays(submissions, m);
    HeldIsDuplicate(Run(submissions), input, findings);
    RunOneMore(submissions, Submission(input, findings));
  }

  /** The same inbound id with other content is refused at any later time, and changes nothing. */
  lemma ReuseIsRefused(submissions: seq<Submission>, m: nat, input: Input, findings: Findings)
    requires m < |submissions|
    requires TurnOf(Run(submissions[..m]), submissions[m].input, submissions[m].findings).Ok?
    requires InboundOf(input) == InboundOf(submissions[m].input) && input != submissions[m].input
    ensures TurnOf(Run(submissions), input, findings).Err?
    ensures Run(submissions + [Submission(input, findings)]) == Run(submissions)
  {
    ProcessedStays(submissions, m);
    RunOneMore(submissions, Submission(input, findings));
  }

  // -------------------------------------------------- what a stored state tells

  /** A made name covers all of its input. */
  predicate SameInbound(a: Input, b: Input) {
    if a.inbound.Some? then b.inbound == a.inbound else b == a
  }

  predicate SameConversation(a: Input, b: Input) {
    if a.conversation.Some? then b.conversation == a.conversation else b == a
  }

  /** An input of another conversation than the first. */
  predicate Foreign(taken: seq<Submission>, input: Input) {
    taken != [] && !SameConversation(taken[0].input, input)
  }

  predicate Repeated(taken: seq<Submission>, input: Input) {
    exists x <- taken :: SameInbound(x.input, input)
  }

  /** The submissions that went in: those of the first conversation whose inbound is new. */
  function Taken(submissions: seq<Submission>): seq<Submission> {
    if submissions == [] then []
    else
      var n := |submissions| - 1;
      var before, last := Taken(submissions[..n]), submissions[n];
      if Foreign(before, last.input) || Repeated(before, last.input) then before else before + [last]
  }

  function Reports(taken: seq<Submission>): seq<Report> {
    if taken == [] then []
    else
      var n := |taken| - 1;
      Reports(taken[..n]) + Stamped(taken[n].input.known, taken[n].input.instant)
  }

  /** Entry i: its inbound, its content, its three events. */
  predicate EntryTold(s: State, x: Submission, i: nat) {
    && i < |s.processed| && 3 * i + 2 < |s.audit|
    && s.processed[i] == InboundOf(x.input)
    && InboundOf(x.input) in s.hashes && s.hashes[InboundOf(x.input)] == x.input
    && s.audit[3 * i] == Event(3 * i + 1, x.input.instant, UNDERSTANDING_COMPLETED)
    && s.audit[3 * i + 1] == Event(3 * i + 2, x.input.instant, POLICY_EVALUATED)
    && s.audit[3 * i + 2] == Event(3 * i + 3, x.input.instant, TURN_COMMITTED)
  }

  /** The stored state is what the submissions that went in say, and no more. */
  ghost predicate StateTold(stored: Option<State>, taken: seq<Submission>) {
    if taken == [] then stored.None?
    else
      && stored.Some?
      && var s := stored.value;
         && s.conversation == ConversationOf(taken[0].input)
         && s.revision == |s.processed| == |taken| && |s.audit| == 3 * |taken|
         && s.findings == taken[|taken| - 1].findings
         && Told(s.facts, Reports(taken))
         && forall i: nat | i < |taken| :: EntryTold(s, taken[i], i)
  }

  lemma NamesAgree(a: Input, b: Input)
    ensures InboundOf(a) == InboundOf(b) <==> SameInbound(a, b)
    ensures ConversationOf(a) == ConversationOf(b) <==> SameConversation(a, b)
  {
  }

  lemma InboundIsTaken(s: State, taken: seq<Submission>, input: Input)
    requires taken != [] && StateTold(Some(s), taken)
    ensures InboundOf(input) in s.processed <==> Repeated(taken, input)
  {
    if InboundOf(input) in s.processed {
      var i: nat :| i < |s.processed| && s.processed[i] == InboundOf(input);
      assert EntryTold(s, taken[i], i);
      NamesAgree(taken[i].input, input);
    }
    if Repeated(taken, input) {
      var x :| x in taken && SameInbound(x.input, input);
      var i: nat :| i < |taken| && taken[i] == x;
      assert EntryTold(s, taken[i], i);
      NamesAgree(x.input, input);
    }
  }

  /** A submission that goes in adds its own entry. */
  lemma NewEntryTells(stored: Option<State>, taken: seq<Submission>, x: Submission)
    requires StateTold(stored, taken) && (stored.Some? ==> Sound(stored.value))
    requires stored.Some? ==> stored.value.conversation == ConversationOf(x.input)
    requires stored.Some? ==> InboundOf(x.input) !in stored.value.processed
    ensures StateTold(Some(WithInbound(Proposed(stored, x.input, x.findings), InboundOf(x.input), x.input,
                                       x.input.instant)), taken + [x])
  {
    var facts := if stored.Some? then stored.value.facts else [];
    var s := WithInbound(Proposed(stored, x.input, x.findings), InboundOf(x.input), x.input, x.input.instant);
    var n := |taken|;
    assert (taken + [x])[..n] == taken;
    UpsertAllTells(facts, Reports(taken), x.input.known, x.input.instant);
    forall i: nat | i < n + 1
      ensures EntryTold(s, (taken + [x])[i], i)
    {
      if i < n {
        assert EntryTold(stored.value, taken[i], i);
      }
    }
  }

  lemma NewIsTaken(stored: Option<State>, taken: seq<Submission>, x: Submission)
    requires StateTold(stored, taken) && (stored.Some? ==> Sound(stored.value))
    requires !Foreign(taken, x.input) && !Repeated(taken, x.input)
    ensures var r := TurnOf(stored, x.input, x.findings);
      r.Ok? && !r.value.duplicate && StateTold(Some(r.value.state), taken + [x])
  {
    if stored.Some? {
      NamesAgree(taken[0].input, x.input);
      InboundIsTaken(stored.value, taken, x.input);
    }
    NewEntryTells(stored, taken, x);
  }

  lemma RepeatedIsTold(stored: Option<State>, taken: seq<Submission>, x: Submission, i: nat)
    requires StateTold(stored, taken) && !Foreign(taken, x.input)
    requires i < |taken| && SameInbound(taken[i].input, x.input)
    ensures TurnOf(stored, x.input, x.findings)
         == if x.input == taken[i].input then Ok(Committed(true, stored.value)) else Err(INBOUND_REUSED)
  {
    assert EntryTold(stored.value, taken[i], i);
    NamesAgree(taken[0].input, x.input);
    NamesAgree(taken[i].input, x.input);
  }

  /** Over every run the stored state is what the submissions that went in say: their entries in order, the versions
      of each key, the findings of the last. */
  lemma {:induction false} RunsAreTold(submissions: seq<Submission>)
    ensures StateTold(Run(submissions), Taken(submissions))
  {
    if submissions != [] {
      var n := |submissions| - 1;
      var taken, x := Taken(submissions[..n]), submissions[n];
      RunsAreTold(submissions[..n]);
      RunsAreSound(submissions[..n]);
      if Foreign(taken, x.input) {
        NamesAgree(taken[0].input, x.input);
      } else if Repeated(taken, x.input) {
        var y :| y in taken && SameInbound(y.input, x.input);
        var i: nat :| i < |taken| && taken[i] == y;
        RepeatedIsTold(Run(submissions[..n]), taken, x, i);
      } else {
        NewIsTaken(Run(submissions[..n]), taken, x);
      }
    }
  }

  /** What a submission is answered after any run: refused in another conversation, then told as a repetition of
      one that went in, or refused if that had other content, and otherwise taken. */
  lemma AnswersAreTold(submissions: seq<Submission>, x: Submission)
    ensures var taken, r := Taken(submissions), TurnOf(Run(submissions), x.input, x.findings);
      && (Foreign(taken, x.input) ==> r == Err(OTHER_CONVERSATION))
      && (!Foreign(taken, x.input) ==>
            forall i | 0 <= i < |taken| && SameInbound(taken[i].input, x.input) ::
              r == if x.input == taken[i].input then Ok(Committed(true, Run(submissions).value))
                   else Err(INBOUND_REUSED))
      && (!Foreign(taken, x.input) && !Repeated(taken, x.input) ==>
            r.Ok? && !r.value.duplicate && StateTold(Some(r.value.state), taken + [x]))
  {
    var taken := Taken(submissions);
    RunsAreTold(submissions);
    RunsAreSound(submissions);
    if Foreign(taken, x.input) {
      NamesAgree(taken[0].input, x.input);
    } else {
      forall i | 0 <= i < |taken| && SameInbound(taken[i].input, x.input)
        ensures TurnOf(Run(submissions), x.input, x.findings)
             == if x.input == taken[i].input then Ok(Committed(true, Run(submissions).value)) else Err(INBOUND_REUSED)
      {
        RepeatedIsTold(Run(submissions), taken, x, i);
      }
      if !Repeated(taken, x.input) {
        NewIsTaken(Run(submissions), taken, x);
      }
    }
  }

  /** Two commits that started from one state: the second is told what the first stored if it is of the same inbound
      and content, and is refused otherwise. */
  lemma SecondCommit(
    stored: Option<State>, a: State, b: State, first: Name, second: Name, hash: Input, other: Input, at: nat, on: nat)
    requires stored.Some? ==> first !in stored.value.processed && second !in stored.value.processed
    requires a.revision == b.revision == RevisionOf(stored)
    requires a.processed == b.processed == if stored.Some? then stored.value.processed else []
    ensures var r := CommitOf(stored, a, first, hash, at);
      && r.Ok? && !r.value.duplicate
      && CommitOf(Some(r.value.state), b, second, other, on)
           == if first != second then Err(REVISION_CONFLICT)
              else if hash == other then Ok(Committed(true, r.value.state))
              else Err(INBOUND_REUSED)
  {
    var s := CommitOf(stored, a, first, hash, at).value.state;
    assert s.processed[|s.processed| - 1] == first;
  }
}
