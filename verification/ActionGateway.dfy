/**
 The action gateway as interleaved steps. JavaScript runs one synchronous segment
 at a time, from one await to the next; an invocation is the continuation left at
 its last await. Digests are collision-free: a request stands for its own hash.
 */
module ActionGateway {
  import opened Basics

  datatype Tool =
    | HANDOFF_REQUEST | BOOKING_REQUEST | PAYMENT_REQUEST | DOCUMENT_SUBMIT
    | CONFIRMATION_RECORD | EXECUTION_CONFIRM | RESOLUTION_CONFIRM
    | Unlisted(name: string)

  datatype ReceiptType =
    | HANDOFF_ACCEPTANCE | BOOKING_CONFIRMATION | PAYMENT_CONFIRMATION | DOCUMENT_CONFIRMATION
    | EXPLICIT_USER_CONFIRMATION | EXECUTION_CONFIRMATION | RESOLUTION_CONFIRMATION
    | OtherReceipt(kind: string)

  /** A payload value; Unfit is anything but a finite scalar. */
  datatype Scalar = Null | Text(text: string) | Flag(flag: bool) | Number(number: real) | Unfit

  datatype Request = Request(
    tool: Tool, key: string, payload: map<string, Scalar>, explicitConfirmation: bool,
    receiptType: ReceiptType, claims: seq<string>)

  datatype Policy = Policy(requiresConfirmation: bool, receiptType: ReceiptType)

  function PolicyOf(tool: Tool): Option<Policy> {
    match tool
    case HANDOFF_REQUEST => Some(Policy(false, HANDOFF_ACCEPTANCE))
    case BOOKING_REQUEST => Some(Policy(true, BOOKING_CONFIRMATION))
    case PAYMENT_REQUEST => Some(Policy(true, PAYMENT_CONFIRMATION))
    case DOCUMENT_SUBMIT => Some(Policy(true, DOCUMENT_CONFIRMATION))
    case CONFIRMATION_RECORD => Some(Policy(true, EXPLICIT_USER_CONFIRMATION))
    case EXECUTION_CONFIRM => Some(Policy(true, EXECUTION_CONFIRMATION))
    case RESOLUTION_CONFIRM => Some(Policy(true, RESOLUTION_CONFIRMATION))
    case Unlisted(_) => None
  }

  datatype Outcome = DENIED | PROPOSED | EXECUTED | REPLAYED

  /** Each digest of a receipt stands for what was hashed; integrity covers the rest. */
  datatype Unsigned = Unsigned(
    receiptType: ReceiptType, tool: Tool, key: string, issuedAt: string,
    payload: map<string, Scalar>, reference: string, claims: set<string>)
  datatype Receipt = Receipt(body: Unsigned, integrity: Unsigned)

  datatype Reason =
    | NOT_ALLOWLISTED | KEY_REUSED | RECEIPT_TYPE_MISMATCH | CONFIRMATION_REQUIRED | EFFECTS_DISABLED
    | OUTCOME_UNKNOWN | INVALID_RESULT | NOT_CONFIRMED | VERIFIABLE_REFERENCE

  datatype Record = Record(
    tool: Tool, authorized: bool, sideEffect: bool, outcome: Outcome, reason: Reason, receipt: Option<Receipt>)

  function RecordOf(q: Request, outcome: Outcome, reason: Reason, receipt: Option<Receipt>): Record {
    Record(q.tool, outcome == EXECUTED || outcome == REPLAYED, outcome == EXECUTED, outcome, reason, receipt)
  }

  function Replayed(r: Record): Record {
    r.(authorized := r.receipt.Some?, sideEffect := false, outcome := if r.receipt.Some? then REPLAYED else r.outcome)
  }

  /** White space and line ends, as trim removes them. */
  predicate IsSpace(c: char) {
    var n := c as int;
    || 9 <= n <= 13 || n == 32 || n == 160 || n == 0x1680 || 0x2000 <= n <= 0x200A
    || n == 0x2028 || n == 0x2029 || n == 0x202F || n == 0x205F || n == 0x3000 || n == 0xFEFF
  }

  predicate Blank(s: string) {
    forall i | 0 <= i < |s| :: IsSpace(s[i])
  }

  predicate Admissible(q: Request) {
    && PolicyOf(q.tool).Some? && !Blank(q.key)
    && q.claims != []
    && (forall i | 0 <= i < |q.claims| :: !Blank(q.claims[i]))
    && (forall i, j | 0 <= i < j < |q.claims| :: q.claims[i] != q.claims[j])
    && (forall k | k in q.payload :: q.payload[k] != Unfit)
  }

  // ----- the state -----

  datatype Call = Call(request: Request, record: Record)
  datatype Flight = Flight(request: Request, owner: nat)

  /** Where an invocation is. */
  datatype Phase =
    | Thrown
    | Hashing(q: Request)
    | Joining(q: Request)
    | Executing(q: Request)
    | Signing(q: Request, reference: string, left: nat)
    | Settled(q: Request)
    | Returned(q: Request, record: Record)

  datatype State = State(
    calls: map<string, Call>,
    inflight: map<string, Flight>,
    threads: seq<Phase>,
    executed: seq<Request>)

  const START := State(map[], map[], [], [])

  /** Whether effects are allowed and an executor injected, and the fixed clock. */
  datatype Config = Config(effects: bool, executor: bool, instant: string)

  /** What the executor does: it throws, answers out of form, or answers. */
  datatype Reply = Threw | Garbage | Answer(accepted: bool, reference: Option<string>)

  datatype Event =
    | Arrive(input: Option<Request>)
    | Hashed(t: nat)
    | Answered(t: nat, reply: Reply)
    | Digested(t: nat)
    | Resumed(t: nat)

  /** The digests of a receipt, each an await: payload, receipt id, reference, integrity. */
  const DIGESTS: nat := 4

  // ----- the segments -----

  /** The refusal of executeOnce before it reaches the executor, if it refuses. */
  function Refusal(cfg: Config, q: Request): Option<Reason> {
    var policy := PolicyOf(q.tool);
    if policy.None? || q.receiptType != policy.value.receiptType then
      Some(RECEIPT_TYPE_MISMATCH)
    else if policy.value.requiresConfirmation && !q.explicitConfirmation then Some(CONFIRMATION_REQUIRED)
    else if !cfg.effects || !cfg.executor then Some(EFFECTS_DISABLED)
    else None
  }

  function OnArrive(s: State, input: Option<Request>): (n: State)
    ensures n == s.(threads := n.threads)
  {
    var phase :=
      if input.None? then Thrown
      else if !Admissible(input.value) then
        Returned(input.value, RecordOf(input.value, DENIED, NOT_ALLOWLISTED, None))
      else Hashing(input.value);
    s.(threads := s.threads + [phase])
  }

  /** From the hash to the next await: a prior call, a call in flight, or a new one.
      The executor is called in this very segment, before the flight is noted. */
  function OnHashed(cfg: Config, s: State, t: nat): (n: State)
    requires t < |s.threads| && s.threads[t].Hashing?
    ensures n.executed == s.executed
         || (n.executed == s.executed + [s.threads[t].q] && Refusal(cfg, s.threads[t].q).None?)
    ensures forall key | key in s.calls :: key in n.calls && n.calls[key] == s.calls[key]
  {
    var q := s.threads[t].q;
    if q.key in s.calls then
      var prior := s.calls[q.key];
      s.(threads := s.threads[t :=
        Returned(q, if prior.request != q then RecordOf(q, DENIED, KEY_REUSED, None) else Replayed(prior.record))])
    else if q.key in s.inflight then
      s.(threads := s.threads[t :=
        if s.inflight[q.key].request != q then Returned(q, RecordOf(q, DENIED, KEY_REUSED, None)) else Joining(q)])
    else
      var refusal := Refusal(cfg, q);
      var flying := s.(inflight := s.inflight[q.key := Flight(q, t)]);
      if refusal.Some? then
        flying.(calls := s.calls[q.key := Call(q, RecordOf(q, DENIED, refusal.value, None))],
                threads := s.threads[t := Settled(q)])
      else flying.(executed := s.executed + [q], threads := s.threads[t := Executing(q)])
  }

  function Store(s: State, t: nat, q: Request, record: Record): (n: State)
    requires t < |s.threads|
    ensures n == s.(calls := s.calls[q.key := Call(q, record)], threads := n.threads)
  {
    s.(calls := s.calls[q.key := Call(q, record)], threads := s.threads[t := Settled(q)])
  }

  function OnAnswered(s: State, t: nat, reply: Reply): (n: State)
    requires t < |s.threads| && s.threads[t].Executing?
    ensures n == s.(calls := n.calls, threads := n.threads)
    ensures forall key | key in s.calls && key != s.threads[t].q.key :: key in n.calls && n.calls[key] == s.calls[key]
  {
    var q := s.threads[t].q;
    match reply
    case Threw =>
      Store(s, t, q, RecordOf(q, PROPOSED, OUTCOME_UNKNOWN, None))
    case Garbage => Store(s, t, q, RecordOf(q, PROPOSED, INVALID_RESULT, None))
    case Answer(accepted, reference) =>
      if !accepted || reference.None? || reference.value == "" then
        Store(s, t, q, RecordOf(q, PROPOSED, NOT_CONFIRMED, None))
      else s.(threads := s.threads[t := Signing(q, reference.value, DIGESTS)])
  }

  function ReceiptOf(cfg: Config, q: Request, reference: string): Receipt {
    var body := Unsigned(q.receiptType, q.tool, q.key, cfg.instant, q.payload, reference, set c | c in q.claims);
    Receipt(body, body)
  }

  function OnDigested(cfg: Config, s: State, t: nat): (n: State)
    requires t < |s.threads| && s.threads[t].Signing?
    ensures n == s.(calls := n.calls, threads := n.threads)
    ensures forall key | key in s.calls && key != s.threads[t].q.key :: key in n.calls && n.calls[key] == s.calls[key]
  {
    var q, reference, left := s.threads[t].q, s.threads[t].reference, s.threads[t].left;
    if left > 1 then s.(threads := s.threads[t := Signing(q, reference, left - 1)])
    else
      Store(s, t, q, RecordOf(q, EXECUTED, VERIFIABLE_REFERENCE, Some(ReceiptOf(cfg, q, reference))))
  }

  /** The invocation that executed returns its record and ends the flight; one that
      joined replays the stored record. */
  function OnResumed(s: State, t: nat): (n: State)
    requires t < |s.threads|
    ensures n == s.(inflight := n.inflight, threads := n.threads)
  {
    match s.threads[t]
    case Settled(q) =>
      if q.key !in s.calls then s
      else s.(inflight := s.inflight - {q.key}, threads := s.threads[t := Returned(q, s.calls[q.key].record)])
    case Joining(q) =>
      if q.key !in s.calls then s else s.(threads := s.threads[t := Returned(q, Replayed(s.calls[q.key].record))])
    case _ => s
  }

  /** One event; an event that finds nothing to resume changes nothing. */
  function Next(cfg: Config, s: State, e: Event): State {
    match e
    case Arrive(input) => OnArrive(s, input)
    case Hashed(t) => if t < |s.threads| && s.threads[t].Hashing? then OnHashed(cfg, s, t) else s
    case Answered(t, reply) => if t < |s.threads| && s.threads[t].Executing? then OnAnswered(s, t, reply) else s
    case Digested(t) => if t < |s.threads| && s.threads[t].Signing? then OnDigested(cfg, s, t) else s
    case Resumed(t) => if t < |s.threads| then OnResumed(s, t) else s
  }

  function Trace(cfg: Config, events: seq<Event>): State
    decreases |events|
  {
    if events == [] then START
    else Next(cfg, Trace(cfg, events[..|events| - 1]), events[|events| - 1])
  }

  // ----- what every interleaving keeps -----

  /** An invocation that owns the flight of its key. */
  predicate Owns(p: Phase) {
    p.Executing? || p.Signing? || p.Settled?
  }

  ghost predicate FlightOk(s: State, key: string)
    requires key in s.inflight
  {
    var f := s.inflight[key];
    f.request.key == key && f.owner < |s.threads| && Owns(s.threads[f.owner]) && s.threads[f.owner].q == f.request
  }

  ghost predicate CallOk(s: State, key: string)
    requires key in s.calls
  {
    var c := s.calls[key];
    && c.request.key == key
    && (c.record.sideEffect ==> c.request in s.executed)
    && (c.record.receipt.Some? ==>
          && c.record.sideEffect && c.record.outcome == EXECUTED
          && c.record.receipt.value.body == c.record.receipt.value.integrity
          && c.record.receipt.value.body.key == key && c.record.receipt.value.body.payload == c.request.payload
          && c.record.receipt.value.body.tool == c.request.tool
          && c.record.receipt.value.body.claims == set x | x in c.request.claims)
    && (c.record.sideEffect ==> c.record.receipt.Some?)
  }

  ghost predicate ThreadOk(s: State, t: nat)
    requires t < |s.threads|
  {
    match s.threads[t]
    case Thrown => true
    case Hashing(q) => Admissible(q)
    case Joining(q) =>
      || (q.key in s.calls && s.calls[q.key].request == q)
      || (q.key in s.inflight && s.inflight[q.key].request == q)
    case Executing(q) => Flying(s, t, q) && q.key !in s.calls && q in s.executed
    case Signing(q, _, _) => Flying(s, t, q) && q.key !in s.calls && q in s.executed
    case Settled(q) => Flying(s, t, q) && q.key in s.calls && s.calls[q.key].request == q
    case Returned(q, r) =>
      && (r.sideEffect ==> q.key !in s.inflight && q.key in s.calls && s.calls[q.key] == Call(q, r))
      && (r.receipt.Some? ==>
          q.key in s.calls && s.calls[q.key].request == q && s.calls[q.key].record.receipt == r.receipt)
  }

  ghost predicate Flying(s: State, t: nat, q: Request) {
    q.key in s.inflight && s.inflight[q.key] == Flight(q, t)
  }

  ghost predicate ExecutionOk(s: State, i: nat)
    requires i < |s.executed|
  {
    var q := s.executed[i];
    && Admissible(q)
    && (|| (q.key in s.calls && s.calls[q.key].request == q)
        || (q.key in s.inflight && s.inflight[q.key].request == q))
  }

  /** Two invocations that return the effect of a key are one. */
  ghost predicate EffectOnce(s: State, t: nat, u: nat)
    requires t < |s.threads| && u < |s.threads|
  {
    Effects(s.threads[t]) && Effects(s.threads[u]) && s.threads[t].q.key == s.threads[u].q.key ==> t == u
  }

  predicate Effects(p: Phase) {
    p.Returned? && p.record.sideEffect
  }

  ghost predicate Consistent(s: State) {
    && (forall key | key in s.inflight :: FlightOk(s, key))
    && (forall key | key in s.calls :: CallOk(s, key))
    && (forall t: nat | t < |s.threads| :: ThreadOk(s, t))
    && (forall i: nat | i < |s.executed| :: ExecutionOk(s, i))
    && (forall i, j | 0 <= i < j < |s.executed| :: s.executed[i].key != s.executed[j].key)
    && (forall t: nat, u: nat | t < |s.threads| && u < |s.threads| :: EffectOnce(s, t, u))
  }

  lemma ArriveKeeps(s: State, input: Option<Request>)
    requires Consistent(s)
    ensures Consistent(OnArrive(s, input))
  {
    var n := OnArrive(s, input);
    forall t: nat | t < |n.threads|
      ensures ThreadOk(n, t)
    {
      assert t < |s.threads| ==> ThreadOk(s, t);
    }
    forall key | key in n.inflight
      ensures FlightOk(n, key)
    {
      assert FlightOk(s, key);
    }
    forall key | key in n.calls
      ensures CallOk(n, key)
    {
      assert CallOk(s, key);
    }
    forall i: nat | i < |n.executed|
      ensures ExecutionOk(n, i)
    {
      assert ExecutionOk(s, i);
    }
    forall t: nat, u: nat | t < |n.threads| && u < |n.threads|
      ensures EffectOnce(n, t, u)
    {
      assert t < |s.threads| && u < |s.threads| ==> EffectOnce(s, t, u);
    }
  }

  /** One invocation moves on; the maps and the executor stay. */
  lemma PhaseKeeps(s: State, t: nat, p: Phase)
    requires Consistent(s) && t < |s.threads| && !Effects(p)
    requires ThreadOk(s.(threads := s.threads[t := p]), t)
    requires Owns(s.threads[t]) ==> Owns(p) && p.q == s.threads[t].q
    ensures Consistent(s.(threads := s.threads[t := p]))
  {
    var n := s.(threads := s.threads[t := p]);
    forall u: nat | u < |n.threads|
      ensures ThreadOk(n, u)
    {
      assert ThreadOk(s, u);
    }
    forall key | key in n.inflight
      ensures FlightOk(n, key)
    {
      assert FlightOk(s, key);
    }
    forall key | key in n.calls
      ensures CallOk(n, key)
    {
      assert CallOk(s, key);
    }
    forall i: nat | i < |n.executed|
      ensures ExecutionOk(n, i)
    {
      assert ExecutionOk(s, i);
    }
    forall u: nat, v: nat | u < |n.threads| && v < |n.threads|
      ensures EffectOnce(n, u, v)
    {
      assert EffectOnce(s, u, v);
    }
  }

  /** A new flight, refused at once or handed to the executor. */
  lemma TakeoffKeeps(s: State, t: nat, n: State)
    requires Consistent(s) && t < |s.threads| && s.threads[t].Hashing?
    requires var q := s.threads[t].q;
             && q.key !in s.calls && q.key !in s.inflight
             && n.inflight == s.inflight[q.key := Flight(q, t)]
             && (|| (exists r: Record :: RefusedWith(s, n, t, q, r))
                 || (n.executed == s.executed + [q] && n.calls == s.calls && n.threads == s.threads[t := Executing(q)]))
    ensures Consistent(n)
  {
    var q := s.threads[t].q;
    assert ThreadOk(s, t);
    forall u: nat | u < |n.threads|
      ensures ThreadOk(n, u)
    {
      assert ThreadOk(s, u);
    }
    forall key | key in n.inflight
      ensures FlightOk(n, key)
    {
      assert key == q.key || FlightOk(s, key);
    }
    forall key | key in n.calls
      ensures CallOk(n, key)
    {
      assert key == q.key || CallOk(s, key);
    }
    forall i: nat | i < |n.executed|
      ensures ExecutionOk(n, i)
      ensures forall j: nat | j < i :: n.executed[j].key != n.executed[i].key
    {
      assert i < |s.executed| ==> ExecutionOk(s, i);
      forall j: nat | j < i
        ensures n.executed[j].key != n.executed[i].key
      {
        assert ExecutionOk(s, j);
      }
    }
    forall u: nat, v: nat | u < |n.threads| && v < |n.threads|
      ensures EffectOnce(n, u, v)
    {
      assert EffectOnce(s, u, v);
    }
  }

  ghost predicate RefusedWith(s: State, n: State, t: nat, q: Request, r: Record)
    requires t < |s.threads|
  {
    && !r.sideEffect && r.receipt.None?
    && n.executed == s.executed && n.calls == s.calls[q.key := Call(q, r)] && n.threads == s.threads[t := Settled(q)]
  }

  /** The terminal record of a flight is stored. */
  lemma StoreKeeps(s: State, t: nat, q: Request, r: Record)
    requires Consistent(s) && t < |s.threads| && (s.threads[t].Executing? || s.threads[t].Signing?)
        && s.threads[t].q == q
    requires CallOk(s.(calls := s.calls[q.key := Call(q, r)]), q.key)
    ensures Consistent(Store(s, t, q, r))
  {
    var n := Store(s, t, q, r);
    assert ThreadOk(s, t);
    forall u: nat | u < |n.threads|
      ensures ThreadOk(n, u)
    {
      assert ThreadOk(s, u);
    }
    forall key | key in n.inflight
      ensures FlightOk(n, key)
    {
      assert FlightOk(s, key);
    }
    forall key | key in n.calls
      ensures CallOk(n, key)
    {
      if key == q.key {
        assert CallOk(s.(calls := s.calls[q.key := Call(q, r)]), q.key);
      } else {
        assert CallOk(s, key);
      }
    }
    forall i: nat | i < |n.executed|
      ensures ExecutionOk(n, i)
    {
      assert ExecutionOk(s, i);
    }
    forall u: nat, v: nat | u < |n.threads| && v < |n.threads|
      ensures EffectOnce(n, u, v)
    {
      assert EffectOnce(s, u, v);
    }
  }

  /** The owner returns the terminal record: the only return of the effect of its key. */
  lemma LandKeeps(s: State, t: nat)
    requires Consistent(s) && t < |s.threads| && s.threads[t].Settled?
    ensures Consistent(OnResumed(s, t))
  {
    var n := OnResumed(s, t);
    var q := s.threads[t].q;
    assert ThreadOk(s, t) && CallOk(s, q.key);
    forall u: nat | u < |n.threads|
      ensures ThreadOk(n, u)
    {
      assert ThreadOk(s, u);
      if u != t && Owns(s.threads[u]) {
        assert s.inflight[s.threads[u].q.key].owner == u;
      }
    }
    forall key | key in n.inflight
      ensures FlightOk(n, key)
    {
      assert FlightOk(s, key);
    }
    forall key | key in n.calls
      ensures CallOk(n, key)
    {
      assert CallOk(s, key);
    }
    forall i: nat | i < |n.executed|
      ensures ExecutionOk(n, i)
    {
      assert ExecutionOk(s, i);
    }
    forall u: nat, v: nat | u < |n.threads| && v < |n.threads|
      ensures EffectOnce(n, u, v)
    {
      assert EffectOnce(s, u, v) && ThreadOk(s, u) && ThreadOk(s, v);
    }
  }

  lemma HashedKeeps(cfg: Config, s: State, t: nat)
    requires Consistent(s) && t < |s.threads| && s.threads[t].Hashing?
    ensures Consistent(OnHashed(cfg, s, t))
  {
    var q := s.threads[t].q;
    var n := OnHashed(cfg, s, t);
    if q.key in s.calls || q.key in s.inflight {
      assert q.key in s.calls ==> CallOk(s, q.key);
      PhaseKeeps(s, t, n.threads[t]);
    } else {
      var refusal := Refusal(cfg, q);
      if refusal.Some? {
        assert RefusedWith(s, n, t, q, RecordOf(q, DENIED, refusal.value, None));
      }
      TakeoffKeeps(s, t, n);
    }
  }

  lemma AnsweredKeeps(s: State, t: nat, reply: Reply)
    requires Consistent(s) && t < |s.threads| && s.threads[t].Executing?
    ensures Consistent(OnAnswered(s, t, reply))
  {
    var q := s.threads[t].q;
    var n := OnAnswered(s, t, reply);
    assert ThreadOk(s, t);
    if n.threads[t].Signing? {
      PhaseKeeps(s, t, n.threads[t]);
    } else {
      var r := n.calls[q.key].record;
      StoreKeeps(s, t, q, r);
      assert n == Store(s, t, q, r);
    }
  }

  lemma DigestedKeeps(cfg: Config, s: State, t: nat)
    requires Consistent(s) && t < |s.threads| && s.threads[t].Signing?
    ensures Consistent(OnDigested(cfg, s, t))
  {
    var q, reference, left := s.threads[t].q, s.threads[t].reference, s.threads[t].left;
    assert ThreadOk(s, t);
    if left > 1 {
      PhaseKeeps(s, t, Signing(q, reference, left - 1));
    } else {
      StoreKeeps(s, t, q,
        RecordOf(q, EXECUTED, VERIFIABLE_REFERENCE, Some(ReceiptOf(cfg, q, reference))));
    }
  }

  lemma ResumedKeeps(s: State, t: nat)
    requires Consistent(s) && t < |s.threads|
    ensures Consistent(OnResumed(s, t))
  {
    assert ThreadOk(s, t);
    if s.threads[t].Settled? {
      LandKeeps(s, t);
    } else if s.threads[t].Joining? && s.threads[t].q.key in s.calls {
      var q := s.threads[t].q;
      assert CallOk(s, q.key);
      if q.key in s.inflight {
        assert FlightOk(s, q.key) && ThreadOk(s, s.inflight[q.key].owner);
      }
      PhaseKeeps(s, t, Returned(q, Replayed(s.calls[q.key].record)));
    }
  }

  lemma NextKeeps(cfg: Config, s: State, e: Event)
    requires Consistent(s)
    ensures Consistent(Next(cfg, s, e))
  {
    match e
    case Arrive(input) => ArriveKeeps(s, input);
    case Hashed(t) => if t < |s.threads| && s.threads[t].Hashing? { HashedKeeps(cfg, s, t); }
    case Answered(t, reply) => if t < |s.threads| && s.threads[t].Executing? { AnsweredKeeps(s, t, reply); }
    case Digested(t) => if t < |s.threads| && s.threads[t].Signing? { DigestedKeeps(cfg, s, t); }
    case Resumed(t) => if t < |s.threads| { ResumedKeeps(s, t); }
  }

  lemma {:induction false} TraceConsistent(cfg: Config, events: seq<Event>)
    ensures Consistent(Trace(cfg, events))
    decreases |events|
  {
    if events != [] {
      TraceConsistent(cfg, events[..|events| - 1]);
      NextKeeps(cfg, Trace(cfg, events[..|events| - 1]), events[|events| - 1]);
    }
  }

  // ----- the guarantees -----

  /** In every interleaving the executor runs at most once for each key. */
  lemma ExecutorRunsOncePerKey(cfg: Config, events: seq<Event>, i: nat, j: nat)
    requires i < |Trace(cfg, events).executed| && j < |Trace(cfg, events).executed|
    ensures var done := Trace(cfg, events).executed;
            done[i].key == done[j].key ==> i == j
  {
    TraceConsistent(cfg, events);
    var done := Trace(cfg, events).executed;
    assert i < j ==> done[i].key != done[j].key;
    assert j < i ==> done[j].key != done[i].key;
  }

  lemma CallsStay(cfg: Config, s: State, e: Event, n: State, key: string)
    requires Consistent(s) && key in s.calls && n == Next(cfg, s, e)
    ensures key in n.calls && n.calls[key] == s.calls[key]
  {
    if e.Answered? && e.t < |s.threads| && s.threads[e.t].Executing? {
      assert ThreadOk(s, e.t);
      assert n == OnAnswered(s, e.t, e.reply);
    } else if e.Digested? && e.t < |s.threads| && s.threads[e.t].Signing? {
      assert ThreadOk(s, e.t);
      assert n == OnDigested(cfg, s, e.t);
    }
  }

  /** The stored terminal record of a key never changes. */
  lemma {:induction false} TerminalRecordsStay(cfg: Config, events: seq<Event>, more: seq<Event>, key: string)
    requires key in Trace(cfg, events).calls
    ensures key in Trace(cfg, events + more).calls
    ensures Trace(cfg, events + more).calls[key] == Trace(cfg, events).calls[key]
    decreases |more|
  {
    var all := events + more;
    if more == [] {
      assert all == events;
    } else {
      var earlier := events + more[..|more| - 1];
      assert all[..|all| - 1] == earlier;
      TerminalRecordsStay(cfg, events, more[..|more| - 1], key);
      TraceConsistent(cfg, earlier);
      CallsStay(cfg, Trace(cfg, earlier), all[|all| - 1], Trace(cfg, all), key);
    }
  }

  /** At most one invocation of a key returns a record with the side effect. */
  lemma OneEffectPerKey(cfg: Config, events: seq<Event>, t: nat, u: nat)
    requires t < |Trace(cfg, events).threads| && u < |Trace(cfg, events).threads|
    requires Effects(Trace(cfg, events).threads[t]) && Effects(Trace(cfg, events).threads[u])
    requires Trace(cfg, events).threads[t].q.key == Trace(cfg, events).threads[u].q.key
    ensures t == u
  {
    TraceConsistent(cfg, events);
    assert EffectOnce(Trace(cfg, events), t, u);
  }

  /** The key is taken by q: its call is stored, refused or not, or it is in flight. */
  ghost predicate Bound(s: State, key: string, q: Request) {
    || (key in s.calls && s.calls[key].request == q)
    || (key in s.inflight && s.inflight[key].request == q)
  }

  lemma OneBinding(s: State, key: string, q: Request, r: Request)
    requires Consistent(s) && Bound(s, key, q) && Bound(s, key, r)
    ensures q == r && q.key == key
  {
    if key in s.calls {
      assert CallOk(s, key);
    }
    if key in s.inflight {
      assert FlightOk(s, key);
      assert ThreadOk(s, s.inflight[key].owner);
    }
  }

  lemma StepKeepsBinding(cfg: Config, s: State, e: Event, n: State, key: string, q: Request)
    requires Consistent(s) && Bound(s, key, q) && n == Next(cfg, s, e)
    ensures Bound(n, key, q)
  {
    if key in s.calls {
      OneBinding(s, key, q, s.calls[key].request);
      CallsStay(cfg, s, e, n, key);
    } else {
      assert FlightOk(s, key);
      if e.Hashed? && e.t < |s.threads| && s.threads[e.t].Hashing? {
        assert n == OnHashed(cfg, s, e.t);
      } else if e.Answered? && e.t < |s.threads| && s.threads[e.t].Executing? {
        assert ThreadOk(s, e.t);
        assert n == OnAnswered(s, e.t, e.reply);
      } else if e.Digested? && e.t < |s.threads| && s.threads[e.t].Signing? {
        assert ThreadOk(s, e.t);
        assert n == OnDigested(cfg, s, e.t);
      } else if e.Resumed? && e.t < |s.threads| {
        assert ThreadOk(s, e.t);
        assert n == OnResumed(s, e.t);
      }
    }
  }

  /** A key that is taken stays taken by the same request. */
  lemma {:induction false} BindingStays(
    cfg: Config, events: seq<Event>, more: seq<Event>, key: string, q: Request)
    requires Bound(Trace(cfg, events), key, q)
    ensures Bound(Trace(cfg, events + more), key, q)
    decreases |more|
  {
    var all := events + more;
    if more == [] {
      assert all == events;
    } else {
      var earlier := events + more[..|more| - 1];
      assert all[..|all| - 1] == earlier;
      BindingStays(cfg, events, more[..|more| - 1], key, q);
      TraceConsistent(cfg, earlier);
      StepKeepsBinding(cfg, Trace(cfg, earlier), all[|all| - 1], Trace(cfg, all), key, q);
    }
  }

  /** Once a key is taken, by a request that was executed, refused or is still in
      flight, another request with that key never reaches the executor, and whatever
      is returned for it carries neither the effect nor a receipt. */
  lemma ReuseNeverExecutes(cfg: Config, events: seq<Event>, more: seq<Event>, first: Request, other: Request)
    requires Bound(Trace(cfg, events), first.key, first)
    requires other.key == first.key && other != first
    ensures var s := Trace(cfg, events + more);
            && other !in s.executed
            && forall t: nat | t < |s.threads| && s.threads[t].Returned? && s.threads[t].q == other ::
                 !s.threads[t].record.sideEffect && s.threads[t].record.receipt.None?
  {
    BindingStays(cfg, events, more, first.key, first);
    TraceConsistent(cfg, events + more);
    var s := Trace(cfg, events + more);
    if other in s.executed {
      var i :| 0 <= i < |s.executed| && s.executed[i] == other;
      assert ExecutionOk(s, i);
      OneBinding(s, first.key, first, other);
    }
    forall t: nat | t < |s.threads| && s.threads[t].Returned? && s.threads[t].q == other
      ensures !s.threads[t].record.sideEffect && s.threads[t].record.receipt.None?
    {
      assert ThreadOk(s, t);
      if s.threads[t].record.sideEffect || s.threads[t].record.receipt.Some? {
        OneBinding(s, first.key, first, other);
      }
    }
  }

  /** And the answer it gets is that its key was reused. */
  lemma ReuseIsDenied(
    cfg: Config, events: seq<Event>, more: seq<Event>, first: Request, other: Request, t: nat)
    requires Bound(Trace(cfg, events), first.key, first)
    requires other.key == first.key && other != first
    requires t < |Trace(cfg, events + more).threads| && Trace(cfg, events + more).threads[t] == Hashing(other)
    ensures Trace(cfg, events + more + [Hashed(t)]).threads[t]
         == Returned(other, RecordOf(other, DENIED, KEY_REUSED, None))
  {
    BindingStays(cfg, events, more, first.key, first);
    TraceConsistent(cfg, events + more);
    var s := Trace(cfg, events + more);
    var all := events + more + [Hashed(t)];
    assert all[..|all| - 1] == events + more;
    if other.key in s.calls {
      OneBinding(s, first.key, first, s.calls[other.key].request);
    } else {
      OneBinding(s, first.key, first, s.inflight[other.key].request);
    }
  }

  /** An executed request has taken its key. */
  lemma ExecutedIsBound(cfg: Config, events: seq<Event>, i: nat)
    requires i < |Trace(cfg, events).executed|
    ensures Bound(Trace(cfg, events), Trace(cfg, events).executed[i].key, Trace(cfg, events).executed[i])
  {
    TraceConsistent(cfg, events);
    assert ExecutionOk(Trace(cfg, events), i);
  }

  lemma RefusedNeverExecutes(cfg: Config, s: State, e: Event, n: State)
    requires (forall i: nat | i < |s.executed| :: Refusal(cfg, s.executed[i]).None?) && n == Next(cfg, s, e)
    ensures forall i: nat | i < |n.executed| :: Refusal(cfg, n.executed[i]).None?
  {
    if e.Hashed? && e.t < |s.threads| && s.threads[e.t].Hashing? {
      assert n == OnHashed(cfg, s, e.t);
    } else {
      assert n.executed == s.executed;
    }
  }

  /** Closed by default: only an allow-listed request with the receipt type of its
      tool and, where the tool asks for it, an explicit confirmation is executed,
      and only where effects are allowed and an executor is injected. */
  lemma {:induction false} OnlyAllowedExecutes(cfg: Config, events: seq<Event>, i: nat)
    requires i < |Trace(cfg, events).executed|
    ensures var q := Trace(cfg, events).executed[i];
            && cfg.effects && cfg.executor && Admissible(q)
            && PolicyOf(q.tool).Some? && q.receiptType == PolicyOf(q.tool).value.receiptType
            && (PolicyOf(q.tool).value.requiresConfirmation ==> q.explicitConfirmation)
  {
    AllAllowed(cfg, events);
    TraceConsistent(cfg, events);
    assert ExecutionOk(Trace(cfg, events), i);
    assert Refusal(cfg, Trace(cfg, events).executed[i]).None?;
  }

  lemma {:induction false} AllAllowed(cfg: Config, events: seq<Event>)
    ensures forall i: nat | i < |Trace(cfg, events).executed| :: Refusal(cfg, Trace(cfg, events).executed[i]).None?
    decreases |events|
  {
    if events != [] {
      AllAllowed(cfg, events[..|events| - 1]);
      RefusedNeverExecutes(cfg, Trace(cfg, events[..|events| - 1]), events[|events| - 1], Trace(cfg, events));
    }
  }

  /** A receipt is good if its digest fits and it is the one stored for its key. */
  predicate Verifies(s: State, r: Receipt) {
    r.integrity == r.body && r.body.key in s.calls && s.calls[r.body.key].record.receipt == Some(r)
  }

  /** Exactly the receipts of executed calls verify, each for the request that was
      executed, and what verifies once verifies ever after. */
  lemma OnlyStoredReceiptsVerify(cfg: Config, events: seq<Event>, more: seq<Event>, r: Receipt)
    ensures var s := Trace(cfg, events);
            Verifies(s, r) <==>
              exists key ::
                && key in s.calls && s.calls[key].record.receipt == Some(r)
                && s.calls[key].request in s.executed
    ensures Verifies(Trace(cfg, events), r) ==> Verifies(Trace(cfg, events + more), r)
  {
    TraceConsistent(cfg, events);
    var s := Trace(cfg, events);
    if Verifies(s, r) {
      assert CallOk(s, r.body.key);
      TerminalRecordsStay(cfg, events, more, r.body.key);
    }
    if key :| key in s.calls && s.calls[key].record.receipt == Some(r) && s.calls[key].request in s.executed {
      assert CallOk(s, key);
    }
  }

  /** An invocation that joined a flight never waits in vain: the record is there,
      or the owner of the flight is still at work. */
  lemma JoinersHaveAnOwner(cfg: Config, events: seq<Event>, t: nat)
    requires t < |Trace(cfg, events).threads| && Trace(cfg, events).threads[t].Joining?
    ensures var s := Trace(cfg, events);
            var q := s.threads[t].q;
            || (q.key in s.calls && s.calls[q.key].request == q)
            || exists u: nat :: u < |s.threads| && Owns(s.threads[u]) && s.threads[u].q == q
  {
    TraceConsistent(cfg, events);
    var s := Trace(cfg, events);
    var q := s.threads[t].q;
    assert ThreadOk(s, t);
    if q.key in s.inflight && s.inflight[q.key].request == q {
      assert FlightOk(s, q.key);
      assert Owns(s.threads[s.inflight[q.key].owner]);
    }
  }

  // ----- the object -----

  /** The gateway as the program has it: two maps, changed by the segments between
      awaits. The continuations are those the event loop holds for it. */
  class Gateway {
    const cfg: Config
    var calls: map<string, Call>
    var inflight: map<string, Flight>
    var threads: seq<Phase>
    ghost var executed: seq<Request>

    ghost function View(): State
      reads this
    {
      State(calls, inflight, threads, executed)
    }

    constructor (cfg: Config)
      ensures this.cfg == cfg && View() == START
    {
      this.cfg := cfg;
      calls, inflight, threads, executed := map[], map[], [], [];
    }

    /** From the call to the hash of the request, which the first await awaits. */
    method Invoke(input: Option<Request>) returns (t: nat)
      modifies this
      ensures View() == Next(cfg, old(View()), Arrive(input)) && t == old(|threads|)
    {
      t := |threads|;
      if input.None? {
        threads := threads + [Thrown];
        return;
      }
      var q := input.value;
      if !Admissible(q) {
        threads := threads + [Returned(q, RecordOf(q, DENIED, NOT_ALLOWLISTED, None))];
        return;
      }
      threads := threads + [Hashing(q)];
    }

    /** The executor is called here, if at all, and the flight noted at once. */
    method AfterHash(t: nat)
      requires t < |threads| && threads[t].Hashing?
      modifies this
      ensures View() == Next(cfg, old(View()), Hashed(t))
    {
      var q := threads[t].q;
      if q.key in calls {
        var prior := calls[q.key];
        if prior.request != q {
          threads := threads[t := Returned(q, RecordOf(q, DENIED, KEY_REUSED, None))];
        } else {
          threads := threads[t := Returned(q, Replayed(prior.record))];
        }
        return;
      }
      if q.key in inflight {
        if inflight[q.key].request != q {
          threads := threads[t := Returned(q, RecordOf(q, DENIED, KEY_REUSED, None))];
        } else {
          threads := threads[t := Joining(q)];
        }
        return;
      }
      ExecuteOnce(t, q);
      inflight := inflight[q.key := Flight(q, t)];
    }

    /** The first segment of executeOnce. */
    method ExecuteOnce(t: nat, q: Request)
      requires t < |threads|
      modifies this`calls, this`threads, this`executed
      ensures var refusal := Refusal(cfg, q);
              if refusal.Some? then
                && calls == old(calls)[q.key := Call(q, RecordOf(q, DENIED, refusal.value, None))]
                && threads == old(threads)[t := Settled(q)] && executed == old(executed)
              else executed == old(executed) + [q] && threads == old(threads)[t := Executing(q)] && calls == old(calls)
    {
      var policy := PolicyOf(q.tool);
      var reason := EFFECTS_DISABLED;
      if policy.None? || q.receiptType != policy.value.receiptType {
        reason := RECEIPT_TYPE_MISMATCH;
      } else if policy.value.requiresConfirmation && !q.explicitConfirmation {
        reason := CONFIRMATION_REQUIRED;
      } else if cfg.effects && cfg.executor {
        executed := executed + [q];
        threads := threads[t := Executing(q)];
        return;
      }
      calls := calls[q.key := Call(q, RecordOf(q, DENIED, reason, None))];
      threads := threads[t := Settled(q)];
    }

    method SetCall(t: nat, q: Request, record: Record)
      requires t < |threads|
      modifies this`calls, this`threads
      ensures View() == Store(old(View()), t, q, record)
    {
      calls := calls[q.key := Call(q, record)];
      threads := threads[t := Settled(q)];
    }

    method AfterExecution(t: nat, reply: Reply)
      requires t < |threads| && threads[t].Executing?
      modifies this`calls, this`threads
      ensures View() == Next(cfg, old(View()), Answered(t, reply))
    {
      var q := threads[t].q;
      if reply.Threw? {
        SetCall(t, q, RecordOf(q, PROPOSED, OUTCOME_UNKNOWN, None));
      } else if reply.Garbage? {
        SetCall(t, q, RecordOf(q, PROPOSED, INVALID_RESULT, None));
      } else if !reply.accepted || reply.reference.None? || reply.reference.value == "" {
        SetCall(t, q, RecordOf(q, PROPOSED, NOT_CONFIRMED, None));
      } else {
        threads := threads[t := Signing(q, reply.reference.value, DIGESTS)];
      }
    }

    method AfterDigest(t: nat)
      requires t < |threads| && threads[t].Signing?
      modifies this`calls, this`threads
      ensures View() == Next(cfg, old(View()), Digested(t))
    {
      var q, reference, left := threads[t].q, threads[t].reference, threads[t].left;
      if left > 1 {
        threads := threads[t := Signing(q, reference, left - 1)];
      } else {
        SetCall(t, q,
          RecordOf(q, EXECUTED, VERIFIABLE_REFERENCE, Some(ReceiptOf(cfg, q, reference))));
      }
    }

    /** The promise of executeOnce has resolved for an invocation that awaits it. */
    method AfterResult(t: nat)
      requires t < |threads| && (threads[t].Settled? || threads[t].Joining?) && threads[t].q.key in calls
      modifies this`inflight, this`threads
      ensures View() == Next(cfg, old(View()), Resumed(t))
    {
      var q := threads[t].q;
      var record := calls[q.key].record;
      if threads[t].Settled? {
        inflight := inflight - {q.key};
        threads := threads[t := Returned(q, record)];
      } else {
        threads := threads[t := Returned(q, Replayed(record))];
      }
    }

    method VerifyReceipt(r: Receipt) returns (good: bool)
      ensures good == Verifies(View(), r)
    {
      if r.integrity != r.body || r.body.key !in calls {
        return false;
      }
      good := calls[r.body.key].record.receipt == Some(r);
    }
  }
}
