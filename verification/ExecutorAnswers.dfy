/**
 What a stored record says of the executor: told from the events of a trace, not
 from the segments that handle them.
 */
module ExecutorAnswers {
  import opened Basics
  import opened ActionGateway

  /** The event tells the invocation that executes q what the executor answered. */
  predicate Meets(s: State, e: Event, q: Request) {
    e.Answered? && e.t < |s.threads| && s.threads[e.t] == Executing(q)
  }

  /** The event completes a digest for the receipt of q. */
  predicate Digests(s: State, e: Event, q: Request) {
    e.Digested? && e.t < |s.threads| && s.threads[e.t].Signing? && s.threads[e.t].q == q
  }

  /** What the executor answered for q in the course of the trace. */
  function Replies(cfg: Config, events: seq<Event>, q: Request): seq<Reply>
    decreases |events|
  {
    if events == [] then []
    else
      var init, e := events[..|events| - 1], events[|events| - 1];
      Replies(cfg, init, q) + (if Meets(Trace(cfg, init), e, q) then [e.reply] else [])
  }

  /** How many digests were completed for the receipt of q. */
  function DigestCount(cfg: Config, events: seq<Event>, q: Request): nat
    decreases |events|
  {
    if events == [] then 0
    else
      var init, e := events[..|events| - 1], events[|events| - 1];
      DigestCount(cfg, init, q) + (if Digests(Trace(cfg, init), e, q) then 1 else 0)
  }

  /** The answer confirms the effect: it is accepted, and gives a reference. */
  predicate Confirms(reply: Reply, reference: string) {
    reply == Answer(true, Some(reference)) && reference != ""
  }

  ghost predicate Confirmed(replies: seq<Reply>) {
    exists reference :: |replies| == 1 && Confirms(replies[0], reference)
  }

  /** Why q is refused without the executor being asked, on its own fields and those of its tool. */
  ghost predicate RefusedFor(cfg: Config, q: Request, reason: Reason) {
    var policy := PolicyOf(q.tool);
    var fits := policy.Some? && q.receiptType == policy.value.receiptType;
    var agreed := fits && (policy.value.requiresConfirmation ==> q.explicitConfirmation);
    match reason
    case RECEIPT_TYPE_MISMATCH => !fits
    case CONFIRMATION_REQUIRED => fits && !agreed
    case EFFECTS_DISABLED => agreed && !(cfg.effects && cfg.executor)
    case _ => false
  }

  /** The receipt for a reference: it binds the request, the instant and the reference. */
  ghost predicate ReceiptFor(cfg: Config, q: Request, reference: string, r: Receipt) {
    && r.integrity == r.body
    && r.body.tool == q.tool && r.body.key == q.key && r.body.payload == q.payload
    && r.body.receiptType == q.receiptType && r.body.issuedAt == cfg.instant && r.body.reference == reference
    && forall c :: c in r.body.claims <==> c in q.claims
  }

  /** The record of q is the one that these answers and this many digests lead to. */
  ghost predicate Tells(cfg: Config, q: Request, r: Record, replies: seq<Reply>, digests: nat) {
    && r.tool == q.tool && (r.sideEffect <==> r.outcome == EXECUTED) && (r.authorized <==> r.outcome == EXECUTED)
    && (r.receipt.Some? <==> r.outcome == EXECUTED)
    && |replies| <= 1
    && match r.outcome
       case EXECUTED =>
         && |replies| == 1 && replies[0].Answer? && replies[0].reference.Some?
         && Confirms(replies[0], replies[0].reference.value) && digests == 4
         && r.reason == VERIFIABLE_REFERENCE && ReceiptFor(cfg, q, replies[0].reference.value, r.receipt.value)
       case PROPOSED =>
         && |replies| == 1 && digests == 0
         && (replies[0].Threw? <==> r.reason == OUTCOME_UNKNOWN)
         && (replies[0].Garbage? <==> r.reason == INVALID_RESULT)
         && (replies[0].Answer? <==> r.reason == NOT_CONFIRMED)
         && (replies[0].Answer? ==>
             !(replies[0].accepted && replies[0].reference.Some? && replies[0].reference.value != ""))
       case DENIED => replies == [] && digests == 0 && RefusedFor(cfg, q, r.reason)
       case REPLAYED => false
  }

  /** An invocation of q that is with the executor, or makes the receipt. */
  ghost predicate PhaseTells(p: Phase, q: Request, replies: seq<Reply>, digests: nat) {
    && (p == Executing(q) ==> replies == [] && digests == 0)
    && (p.Signing? && p.q == q ==>
          |replies| == 1 && Confirms(replies[0], p.reference) && 1 <= p.left && p.left + digests == 4)
  }

  ghost predicate StateTells(cfg: Config, s: State, q: Request, replies: seq<Reply>, digests: nat) {
    && (forall t: nat | t < |s.threads| :: PhaseTells(s.threads[t], q, replies, digests))
    && (q.key in s.calls && s.calls[q.key].request == q ==> Tells(cfg, q, s.calls[q.key].record, replies, digests))
    && (!Bound(s, q.key, q) ==> replies == [] && digests == 0)
  }

  lemma ArrivalTells(cfg: Config, s: State, input: Option<Request>, q: Request, replies: seq<Reply>, digests: nat)
    requires StateTells(cfg, s, q, replies, digests)
    ensures StateTells(cfg, OnArrive(s, input), q, replies, digests)
  {
  }

  lemma HashTells(
    cfg: Config, s: State, t: nat, n: State, q: Request, replies: seq<Reply>, digests: nat)
    requires Consistent(s) && t < |s.threads| && s.threads[t].Hashing? && n == OnHashed(cfg, s, t)
    requires StateTells(cfg, s, q, replies, digests)
    ensures StateTells(cfg, n, q, replies, digests)
  {
    var p := s.threads[t].q;
    assert p == q && n.threads[t] == Executing(q) ==> !Bound(s, q.key, q);
    forall u: nat | u < |n.threads|
      ensures PhaseTells(n.threads[u], q, replies, digests)
    {
      assert PhaseTells(s.threads[u], q, replies, digests);
    }
    assert Bound(s, q.key, q) ==> Bound(n, q.key, q) by {
      if Bound(s, q.key, q) {
        StepKeepsBinding(cfg, s, Hashed(t), n, q.key, q);
      }
    }
  }

  lemma AnswerTellsThreads(
    cfg: Config, s: State, t: nat, reply: Reply, q: Request, replies: seq<Reply>, more: seq<Reply>, digests: nat)
    requires Consistent(s) && t < |s.threads| && s.threads[t].Executing?
    requires StateTells(cfg, s, q, replies, digests)
    requires more == replies + (if s.threads[t] == Executing(q) then [reply] else [])
    ensures forall u: nat | u < |OnAnswered(s, t, reply).threads| ::
              PhaseTells(OnAnswered(s, t, reply).threads[u], q, more, digests)
  {
    var n := OnAnswered(s, t, reply);
    assert ThreadOk(s, t) && PhaseTells(s.threads[t], q, replies, digests);
    forall u: nat | u < |n.threads|
      ensures PhaseTells(n.threads[u], q, more, digests)
    {
      assert PhaseTells(s.threads[u], q, replies, digests) && ThreadOk(s, u);
    }
  }

  lemma AnswerTells(
    cfg: Config, s: State, t: nat, reply: Reply, q: Request, replies: seq<Reply>, digests: nat)
    requires Consistent(s) && t < |s.threads| && s.threads[t].Executing?
    requires StateTells(cfg, s, q, replies, digests)
    ensures StateTells(cfg, OnAnswered(s, t, reply), q,
              replies + (if s.threads[t] == Executing(q) then [reply] else []), digests)
  {
    AnswerTellsThreads(cfg, s, t, reply, q, replies,
      replies + (if s.threads[t] == Executing(q) then [reply] else []), digests);
    assert ThreadOk(s, t) && PhaseTells(s.threads[t], q, replies, digests);
  }

  lemma DigestTells(cfg: Config, s: State, t: nat, q: Request, replies: seq<Reply>, digests: nat)
    requires Consistent(s) && t < |s.threads| && s.threads[t].Signing?
    requires StateTells(cfg, s, q, replies, digests)
    ensures StateTells(cfg, OnDigested(cfg, s, t), q, replies, digests + (if s.threads[t].q == q then 1 else 0))
  {
    var n := OnDigested(cfg, s, t);
    var more := digests + (if s.threads[t].q == q then 1 else 0);
    assert ThreadOk(s, t) && PhaseTells(s.threads[t], q, replies, digests);
    forall u: nat | u < |n.threads|
      ensures PhaseTells(n.threads[u], q, replies, more)
    {
      assert PhaseTells(s.threads[u], q, replies, digests) && ThreadOk(s, u);
    }
  }

  lemma ResumptionTells(cfg: Config, s: State, t: nat, q: Request, replies: seq<Reply>, digests: nat)
    requires Consistent(s) && t < |s.threads|
    requires StateTells(cfg, s, q, replies, digests)
    ensures StateTells(cfg, OnResumed(s, t), q, replies, digests)
  {
    var n := OnResumed(s, t);
    assert ThreadOk(s, t);
    forall u: nat | u < |n.threads|
      ensures PhaseTells(n.threads[u], q, replies, digests)
    {
      assert PhaseTells(s.threads[u], q, replies, digests);
    }
  }

  lemma StepTells(cfg: Config, s: State, e: Event, n: State, q: Request, replies: seq<Reply>, digests: nat)
    requires Consistent(s) && StateTells(cfg, s, q, replies, digests) && n == Next(cfg, s, e)
    ensures StateTells(cfg, n, q,
              replies + (if Meets(s, e, q) then [e.reply] else []), digests + (if Digests(s, e, q) then 1 else 0))
  {
    assert replies + [] == replies;
    match e {
      case Arrive(input) => ArrivalTells(cfg, s, input, q, replies, digests);
      case Hashed(t) => if t < |s.threads| && s.threads[t].Hashing? { HashTells(cfg, s, t, n, q, replies, digests); }
      case Answered(t, reply) =>
        if t < |s.threads| && s.threads[t].Executing? { AnswerTells(cfg, s, t, reply, q, replies, digests); }
      case Digested(t) =>
        if t < |s.threads| && s.threads[t].Signing? { DigestTells(cfg, s, t, q, replies, digests); }
      case Resumed(t) => if t < |s.threads| { ResumptionTells(cfg, s, t, q, replies, digests); }
    }
  }

  lemma {:induction false} TraceTells(cfg: Config, events: seq<Event>, q: Request)
    ensures StateTells(cfg, Trace(cfg, events), q, Replies(cfg, events, q), DigestCount(cfg, events, q))
    decreases |events|
  {
    if events != [] {
      var init, e := events[..|events| - 1], events[|events| - 1];
      TraceTells(cfg, init, q);
      TraceConsistent(cfg, init);
      StepTells(cfg, Trace(cfg, init), e, Trace(cfg, events), q, Replies(cfg, init, q), DigestCount(cfg, init, q));
    }
  }

  /** In every interleaving the record stored for a request tells what the executor answered. It is EXECUTED
      exactly when the answer was accepted with a reference, and its receipt is for that reference; any other
      answer leaves it PROPOSED, with the reason of its kind; without an answer it is DENIED, for the first of
      the three reasons that its fields give. */
  lemma RecordTellsTheAnswer(cfg: Config, events: seq<Event>, key: string)
    requires key in Trace(cfg, events).calls
    ensures var c := Trace(cfg, events).calls[key];
            var replies := Replies(cfg, events, c.request);
            && Tells(cfg, c.request, c.record, replies, DigestCount(cfg, events, c.request))
            && (c.record.outcome == EXECUTED <==> Confirmed(replies))
            && (c.record.outcome == DENIED <==> replies == [])
  {
    TraceConsistent(cfg, events);
    var c := Trace(cfg, events).calls[key];
    assert CallOk(Trace(cfg, events), key);
    TraceTells(cfg, events, c.request);
    var replies := Replies(cfg, events, c.request);
    if c.record.outcome == EXECUTED {
      assert Confirms(replies[0], replies[0].reference.value);
    }
  }

  /** An answer that does not confirm is stored at once, one that does after four digests. */
  lemma AnswersAreStored(cfg: Config, events: seq<Event>, q: Request)
    requires Replies(cfg, events, q) != []
    ensures var s := Trace(cfg, events);
            var stored := q.key in s.calls && s.calls[q.key].request == q;
            && |Replies(cfg, events, q)| == 1
            && (stored <==> (Confirmed(Replies(cfg, events, q)) ==> DigestCount(cfg, events, q) == 4))
  {
    TraceConsistent(cfg, events);
    TraceTells(cfg, events, q);
    var s := Trace(cfg, events);
    var replies := Replies(cfg, events, q);
    if q.key in s.calls && s.calls[q.key].request == q {
      RecordTellsTheAnswer(cfg, events, q.key);
    } else {
      assert Bound(s, q.key, q);
      assert FlightOk(s, q.key);
      var t := s.inflight[q.key].owner;
      assert ThreadOk(s, t) && PhaseTells(s.threads[t], q, replies, DigestCount(cfg, events, q));
      assert Confirms(replies[0], s.threads[t].reference);
    }
  }

  // ----- what is returned -----

  /** The record as a later invocation of the same request gets it: no effect of its own. */
  ghost predicate Replays(r: Record, stored: Record) {
    && r.tool == stored.tool && r.reason == stored.reason && r.receipt == stored.receipt
    && !r.sideEffect && (r.authorized <==> r.receipt.Some?)
    && r.outcome == if r.receipt.Some? then REPLAYED else stored.outcome
  }

  /** The text has a character that is not white space. */
  ghost predicate Says(text: string) {
    exists i | 0 <= i < |text| :: !IsSpace(text[i])
  }

  /** A request in its form: a listed tool, a key, a payload of finite scalars, and claims, each once. */
  ghost predicate WellFormed(q: Request) {
    && !q.tool.Unlisted? && Says(q.key)
    && (forall k :: k in q.payload ==> q.payload[k] != Unfit)
    && |q.claims| >= 1 && (forall c <- q.claims :: Says(c))
    && (forall i, j | 0 <= i < |q.claims| && 0 <= j < |q.claims| && q.claims[i] == q.claims[j] :: i == j)
  }

  lemma AdmittedAre(q: Request)
    ensures Admissible(q) <==> WellFormed(q)
  {
    if WellFormed(q) {
      forall i | 0 <= i < |q.claims|
        ensures !Blank(q.claims[i])
      {
        assert q.claims[i] in q.claims;
      }
    }
  }

  /** What an invocation of q returned, and why. */
  ghost predicate Explained(s: State, q: Request, r: Record) {
    || (!WellFormed(q) && r == Record(q.tool, false, false, DENIED, NOT_ALLOWLISTED, None))
    || (WellFormed(q) && q.key in s.calls && s.calls[q.key].request == q
        && (r == s.calls[q.key].record || Replays(r, s.calls[q.key].record)))
    || (WellFormed(q) && r == Record(q.tool, false, false, DENIED, KEY_REUSED, None)
        && exists other :: other != q && Bound(s, q.key, other))
  }

  ghost predicate ThreadExplained(s: State, t: nat)
    requires t < |s.threads|
  {
    var p := s.threads[t];
    if p.Returned? then Explained(s, p.q, p.record) else !p.Thrown? ==> WellFormed(p.q)
  }

  lemma ExplainedStays(cfg: Config, s: State, e: Event, n: State, q: Request, r: Record)
    requires Consistent(s) && Explained(s, q, r) && n == Next(cfg, s, e)
    ensures Explained(n, q, r)
  {
    if q.key in s.calls {
      CallsStay(cfg, s, e, n, q.key);
    }
    if other :| other != q && Bound(s, q.key, other) {
      StepKeepsBinding(cfg, s, e, n, q.key, other);
    }
  }

  lemma HashedReturn(cfg: Config, s: State, t: nat)
    requires Consistent(s) && t < |s.threads| && s.threads[t].Hashing?
    ensures var p := OnHashed(cfg, s, t).threads[t];
            p.Returned? ==> p.q == s.threads[t].q && Explained(OnHashed(cfg, s, t), p.q, p.record)
  {
    var n := OnHashed(cfg, s, t);
    var q := s.threads[t].q;
    assert ThreadOk(s, t);
    if q.key in s.calls {
      assert n.calls == s.calls;
      if s.calls[q.key].request != q {
        assert Bound(n, q.key, s.calls[q.key].request);
      }
    } else if q.key in s.inflight && s.inflight[q.key].request != q {
      assert Bound(n, q.key, s.inflight[q.key].request);
    }
  }

  lemma ResumedReturn(s: State, t: nat)
    requires Consistent(s) && t < |s.threads| && !s.threads[t].Returned?
    requires !s.threads[t].Thrown? ==> WellFormed(s.threads[t].q)
    ensures var p := OnResumed(s, t).threads[t];
            p.Returned? ==> p.q == s.threads[t].q && Explained(OnResumed(s, t), p.q, p.record)
  {
    assert ThreadOk(s, t);
    if s.threads[t].Joining? {
      var q := s.threads[t].q;
      if q.key in s.inflight && s.inflight[q.key].request == q {
        assert FlightOk(s, q.key) && ThreadOk(s, s.inflight[q.key].owner);
      }
    }
  }

  /** Only its own arrival, its hash or its resumption makes an invocation return. */
  lemma PhaseAfter(cfg: Config, s: State, e: Event, n: State, t: nat)
    requires n == Next(cfg, s, e) && t < |n.threads|
    ensures |s.threads| <= |n.threads|
    ensures t < |s.threads| ==>
      || n.threads[t] == s.threads[t]
      || (e == Hashed(t) && s.threads[t].Hashing?) || e == Resumed(t)
      || (!n.threads[t].Returned? && !n.threads[t].Thrown? && !s.threads[t].Thrown? && n.threads[t].q == s.threads[t].q)
    ensures t >= |s.threads| ==> e.Arrive? && n == OnArrive(s, e.input) && t == |s.threads|
  {
  }

  lemma ArrivalExplained(s: State, input: Option<Request>)
    ensures ThreadExplained(OnArrive(s, input), |s.threads|)
  {
    if input.Some? {
      AdmittedAre(input.value);
    }
  }

  lemma HashedExplains(cfg: Config, s: State, t: nat, n: State)
    requires Consistent(s) && t < |s.threads| && s.threads[t].Hashing? && ThreadExplained(s, t)
    requires n == OnHashed(cfg, s, t)
    ensures t < |n.threads| && ThreadExplained(n, t)
  {
    HashedReturn(cfg, s, t);
  }

  lemma ResumedExplains(s: State, t: nat, n: State)
    requires Consistent(s) && t < |s.threads| && !s.threads[t].Returned? && ThreadExplained(s, t)
    requires n == OnResumed(s, t)
    ensures t < |n.threads| && ThreadExplained(n, t)
  {
    ResumedReturn(s, t);
  }

  lemma NextExplains(cfg: Config, s: State, e: Event, n: State, t: nat)
    requires Consistent(s) && n == Next(cfg, s, e) && t < |n.threads|
    requires t < |s.threads| ==> ThreadExplained(s, t)
    ensures ThreadExplained(n, t)
  {
    PhaseAfter(cfg, s, e, n, t);
    if t >= |s.threads| {
      ArrivalExplained(s, e.input);
    } else if s.threads[t].Returned? {
      ExplainedStays(cfg, s, e, n, s.threads[t].q, s.threads[t].record);
    } else if e == Hashed(t) && s.threads[t].Hashing? {
      HashedExplains(cfg, s, t, n);
    } else if e == Resumed(t) {
      ResumedExplains(s, t, n);
    }
  }

  /** Every return is explained by the request and by what is stored: a request out of form is not on the list,
      the key of another request is refused, and otherwise the stored record comes back, or its replay. */
  lemma {:induction false} ReturnsAreExplained(cfg: Config, events: seq<Event>)
    ensures forall t: nat | t < |Trace(cfg, events).threads| :: ThreadExplained(Trace(cfg, events), t)
    decreases |events|
  {
    if events != [] {
      var init, e := events[..|events| - 1], events[|events| - 1];
      ReturnsAreExplained(cfg, init);
      TraceConsistent(cfg, init);
      var s, n := Trace(cfg, init), Trace(cfg, events);
      forall t: nat | t < |n.threads|
        ensures ThreadExplained(n, t)
      {
        NextExplains(cfg, s, e, n, t);
      }
    }
  }

  /** Two tools never share a receipt type, and only a handoff needs no explicit confirmation. */
  lemma PoliciesDiffer(a: Tool, b: Tool)
    requires PolicyOf(a).Some? && PolicyOf(b).Some?
    ensures PolicyOf(a).value.receiptType == PolicyOf(b).value.receiptType ==> a == b
    ensures PolicyOf(a).value.requiresConfirmation <==> a != HANDOFF_REQUEST
  {
  }
}
