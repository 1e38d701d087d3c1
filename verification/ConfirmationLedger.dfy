/**
 The single-use confirmation ledger. The file lock makes each operation atomic;
 digests and signatures are collision-free, so what is hashed or signed stands for
 the digest and the signature.
 */
module ConfirmationLedger {
  import opened Basics

  const MAX_LIFETIME: int := 15 * 60 * 1000
  const MAX_SAFE_INTEGER: int := 0x1F_FFFF_FFFF_FFFF

  /** A timestamp text: whole seconds, with or without milliseconds. */
  datatype Stamp = Stamp(second: int, millis: Option<nat>)

  function At(t: Stamp): int {
    1000 * t.second + if t.millis.Some? then t.millis.value else 0
  }

  /** A pseudonymous reference or a digest in its form: the number that its 32 or
      64 hexadecimal digits write. */
  type Ref = nat

  datatype IssueInput = IssueInput(
    confirmationId: Ref, conversation: Ref, actor: Ref, channel: string, action: string,
    inputHash: Ref, version: int, promptEvent: Ref, nonce: Ref, issuedAt: Stamp, expiresAt: Stamp)

  datatype Proposal = Proposal(action: string, conversation: Ref, inputHash: Ref, version: int)

  datatype Challenge = Challenge(input: IssueInput, proposal: Proposal, keyVersion: string)

  datatype EventBody = EventBody(
    eventId: Ref, conversation: Ref, actor: Ref, channel: string,
    replyTo: Option<Ref>, receivedAt: Stamp, content: Ref, keyVersion: string)

  /** A signature that verifies is one over this very body. */
  datatype Signature = SignatureOver(body: EventBody) | Forged

  datatype InboundEvent = InboundEvent(body: EventBody, signature: Option<Signature>)

  /** What the attestation id and its idempotency key are digests of. */
  datatype Identity = Identity(
    confirmationId: Ref, conversation: Ref, actor: Ref, channel: string, action: string,
    inputHash: Ref, version: int, proposal: Proposal, promptEvent: Ref,
    confirmingEvent: Ref, confirmingContent: Ref, confirmedAt: Stamp, nonce: Ref)

  datatype Attestation = Attestation(identity: Identity, keyVersion: string)

  datatype Binding = Binding(content: Ref, confirmationId: Ref, attestation: Identity)

  datatype Ledger = Ledger(
    challenges: map<Ref, Challenge>,
    attestations: map<Identity, Attestation>,
    bindings: map<Ref, Binding>)

  const EMPTY := Ledger(map[], map[], map[])

  datatype Error =
    | InvalidInput | ReusedConfirmation | ReusedNonce
    | ContentMismatch | KeyVersionMismatch | BadSignature | AlreadyConsumed | ReusedEvent
    | NoAttestation | ProposalMismatch

  datatype CommonReason = NOT_AFFIRMATIVE | NO_ACTIVE_CONTEXT | OUT_OF_CONTEXT
  datatype ContextualReason = UNAUTHENTICATED_EVENT | NOT_YET_ACTIVE | EXPIRED

  datatype Evaluation =
    | Common(why: CommonReason)
    | Contextual(confirmationId: Ref, reason: ContextualReason)
    | Authenticated(duplicate: bool, attestation: Attestation)

  datatype AuthorizeInput = AuthorizeInput(
    confirmationId: Ref, attestationId: Identity, conversation: Ref, actor: Ref, channel: string,
    action: string, inputHash: Ref, version: int, proposal: Proposal)

  datatype Authorization = Authorization(challenge: Challenge, attestation: Attestation)

  /** The key version in force, which texts normalise to sim or confirmo, the digest
      of a text, and which texts have the form of a channel and of an action. */
  datatype Config = Config(
    keyVersion: string, affirmative: string -> bool, digest: string -> Ref,
    isChannel: string -> bool, isAction: string -> bool)

  // ----- checks of the input, beyond its form -----

  predicate IsVersion(n: int) {
    1 <= n <= MAX_SAFE_INTEGER
  }

  predicate ValidIssue(cfg: Config, x: IssueInput) {
    && cfg.isChannel(x.channel) && cfg.isAction(x.action) && IsVersion(x.version)
    && 0 < At(x.expiresAt) - At(x.issuedAt) <= MAX_LIFETIME
  }

  predicate ValidAuthorize(cfg: Config, x: AuthorizeInput) {
    cfg.isChannel(x.channel) && cfg.isAction(x.action) && IsVersion(x.version)
  }

  // ----- issuing -----

  function ProposalOf(x: IssueInput): Proposal {
    Proposal(x.action, x.conversation, x.inputHash, x.version)
  }

  function ChallengeFor(cfg: Config, x: IssueInput): Challenge {
    Challenge(x, ProposalOf(x), cfg.keyVersion)
  }

  predicate NonceTaken(l: Ledger, nonce: Ref) {
    exists id | id in l.challenges :: l.challenges[id].input.nonce == nonce
  }

  datatype Issued = Issued(duplicate: bool, challenge: Challenge)

  function Issue(cfg: Config, l: Ledger, x: IssueInput): (Ledger, Result<Issued, Error>) {
    var c := ChallengeFor(cfg, x);
    if !ValidIssue(cfg, x) then (l, Err(InvalidInput))
    else if x.confirmationId in l.challenges then
      (l, if l.challenges[x.confirmationId] != c then Err(ReusedConfirmation) else Ok(Issued(true, c)))
    else if NonceTaken(l, x.nonce) then (l, Err(ReusedNonce))
    else (l.(challenges := l.challenges[x.confirmationId := c]), Ok(Issued(false, c)))
  }

  // ----- confirming -----

  predicate InContext(e: EventBody, c: Challenge) {
    && e.conversation == c.input.conversation && e.actor == c.input.actor && e.channel == c.input.channel
    && e.replyTo == Some(c.input.promptEvent)
  }

  function IdentityFor(c: Challenge, e: EventBody): Identity {
    Identity(c.input.confirmationId, c.input.conversation, c.input.actor, c.input.channel, c.input.action,
      c.input.inputHash, c.input.version, c.proposal, c.input.promptEvent, e.eventId, e.content, e.receivedAt,
      c.input.nonce)
  }

  /** The attestation of a confirmation; a valid ledger has at most one. */
  ghost function AttestationOf(l: Ledger, confirmationId: Ref): (r: Option<Identity>)
    ensures r.Some? ==> r.value in l.attestations && r.value.confirmationId == confirmationId
    ensures r.None? ==> forall k | k in l.attestations :: k.confirmationId != confirmationId
  {
    if k :| k in l.attestations && k.confirmationId == confirmationId then Some(k) else None
  }

  /** What is checked before the lock is taken. */
  function Precheck(cfg: Config, confirmationId: Ref, e: InboundEvent, text: string): Option<Error> {
    if !cfg.isChannel(e.body.channel) then Some(InvalidInput)
    else if e.body.content != cfg.digest(text) then Some(ContentMismatch)
    else if e.body.keyVersion != cfg.keyVersion then Some(KeyVersionMismatch)
    else if e.signature.Some? && e.signature.value != SignatureOver(e.body) then Some(BadSignature)
    else None
  }

  /** Why an event does not confirm a challenge, if it does not. */
  function Shortfall(cfg: Config, l: Ledger, confirmationId: Ref, e: InboundEvent, text: string): Option<Evaluation> {
    if !cfg.affirmative(text) then Some(Common(NOT_AFFIRMATIVE))
    else if confirmationId !in l.challenges then Some(Common(NO_ACTIVE_CONTEXT))
    else
      var c := l.challenges[confirmationId];
      if !InContext(e.body, c) then Some(Common(OUT_OF_CONTEXT))
      else if e.signature.None? then Some(Contextual(confirmationId, UNAUTHENTICATED_EVENT))
      else if At(e.body.receivedAt) < At(c.input.issuedAt) then Some(Contextual(confirmationId, NOT_YET_ACTIVE))
      else if At(e.body.receivedAt) > At(c.input.expiresAt) then Some(Contextual(confirmationId, EXPIRED))
      else None
  }

  predicate BoundElsewhere(l: Ledger, e: EventBody, confirmationId: Ref) {
    && e.eventId in l.bindings
    && (l.bindings[e.eventId].content != e.content || l.bindings[e.eventId].confirmationId != confirmationId)
  }

  ghost function Evaluate(cfg: Config, l: Ledger, confirmationId: Ref, e: InboundEvent, text: string)
    : (Ledger, Result<Evaluation, Error>)
  {
    var bad := Precheck(cfg, confirmationId, e, text);
    if bad.Some? then (l, Err(bad.value))
    else
      var shortfall := Shortfall(cfg, l, confirmationId, e, text);
      if shortfall.Some? then (l, Ok(shortfall.value))
      else
        var existing := AttestationOf(l, confirmationId);
        if existing.Some? then
          (l, if existing.value.confirmingEvent != e.body.eventId || existing.value.confirmingContent != e.body.content
              then Err(AlreadyConsumed) else Ok(Authenticated(true, l.attestations[existing.value])))
        else if BoundElsewhere(l, e.body, confirmationId) then (l, Err(ReusedEvent))
        else
          var id := IdentityFor(l.challenges[confirmationId], e.body);
          var a := Attestation(id, cfg.keyVersion);
          (l.(attestations := l.attestations[id := a],
              bindings := l.bindings[e.body.eventId := Binding(e.body.content, confirmationId, id)]),
           Ok(Authenticated(false, a)))
  }

  // ----- authorising -----

  predicate Matches(x: AuthorizeInput, c: Challenge, k: Identity) {
    && x.conversation == c.input.conversation == k.conversation
    && x.actor == c.input.actor == k.actor
    && x.channel == c.input.channel == k.channel
    && x.action == c.input.action == k.action
    && x.inputHash == c.input.inputHash == k.inputHash
    && x.version == c.input.version == k.version
    && x.proposal == c.proposal == k.proposal
  }

  function Authorize(cfg: Config, l: Ledger, x: AuthorizeInput): Result<Authorization, Error> {
    if !ValidAuthorize(cfg, x) then Err(InvalidInput)
    else if x.confirmationId !in l.challenges || x.attestationId !in l.attestations
            || l.attestations[x.attestationId].identity.confirmationId != x.confirmationId then Err(NoAttestation)
    else
      var c, a := l.challenges[x.confirmationId], l.attestations[x.attestationId];
      if !Matches(x, c, a.identity) then Err(ProposalMismatch) else Ok(Authorization(c, a))
  }

  // ----- runs -----

  datatype Operation =
    | DoIssue(issue: IssueInput)
    | DoEvaluate(confirmationId: Ref, event: InboundEvent, text: string)
    | DoAuthorize(request: AuthorizeInput)

  ghost function Step(cfg: Config, l: Ledger, op: Operation): Ledger {
    match op
    case DoIssue(x) => Issue(cfg, l, x).0
    case DoEvaluate(id, e, text) => Evaluate(cfg, l, id, e, text).0
    case DoAuthorize(_) => l
  }

  ghost function RunFrom(cfg: Config, l: Ledger, ops: seq<Operation>): Ledger
    decreases |ops|
  {
    if ops == [] then l else Step(cfg, RunFrom(cfg, l, ops[..|ops| - 1]), ops[|ops| - 1])
  }

  // ----- what holds of every ledger -----

  /** The version is a safe integer from 1 on, and the window at most fifteen minutes long. */
  ghost predicate InBounds(x: IssueInput) {
    && 1 <= x.version <= 9007199254740991
    && At(x.issuedAt) < At(x.expiresAt) <= At(x.issuedAt) + 900000
  }

  ghost predicate ChallengeOk(l: Ledger, id: Ref)
    requires id in l.challenges
  {
    var x := l.challenges[id].input;
    && x.confirmationId == id && l.challenges[id].proposal == Proposal(x.action, x.conversation, x.inputHash, x.version)
    && InBounds(x)
  }

  /** An attestation agrees with its challenge, falls inside its window, and is the
      one its event is bound to. */
  ghost predicate AttestationOk(l: Ledger, k: Identity)
    requires k in l.attestations
  {
    && l.attestations[k].identity == k
    && k.confirmationId in l.challenges
    && var c := l.challenges[k.confirmationId];
       && k == IdentityFor(c, EventBody(k.confirmingEvent, c.input.conversation, c.input.actor, c.input.channel,
                                Some(c.input.promptEvent), k.confirmedAt, k.confirmingContent, ""))
       && At(c.input.issuedAt) <= At(k.confirmedAt) <= At(c.input.expiresAt)
       && k.confirmingEvent in l.bindings
       && l.bindings[k.confirmingEvent] == Binding(k.confirmingContent, k.confirmationId, k)
  }

  ghost predicate BindingOk(l: Ledger, e: Ref)
    requires e in l.bindings
  {
    l.bindings[e].attestation in l.attestations && l.bindings[e].attestation.confirmingEvent == e
  }

  ghost predicate ChallengesOk(l: Ledger) {
    forall id | id in l.challenges :: ChallengeOk(l, id)
  }

  ghost predicate NoncesDistinct(l: Ledger) {
    forall a, b | a in l.challenges && b in l.challenges
        && l.challenges[a].input.nonce == l.challenges[b].input.nonce ::
      a == b
  }

  ghost predicate AttestationsOk(l: Ledger) {
    forall k | k in l.attestations :: AttestationOk(l, k)
  }

  ghost predicate ConfirmedOnce(l: Ledger) {
    forall j, k | j in l.attestations && k in l.attestations && j.confirmationId == k.confirmationId :: j == k
  }

  ghost predicate BindingsOk(l: Ledger) {
    forall e | e in l.bindings :: BindingOk(l, e)
  }

  ghost predicate Valid(l: Ledger) {
    ChallengesOk(l) && NoncesDistinct(l) && AttestationsOk(l) && ConfirmedOnce(l) && BindingsOk(l)
  }

  /** Nothing is removed or altered. */
  ghost predicate Grown(a: Ledger, b: Ledger) {
    && (forall id | id in a.challenges :: id in b.challenges && b.challenges[id] == a.challenges[id])
    && (forall k | k in a.attestations :: k in b.attestations && b.attestations[k] == a.attestations[k])
    && (forall e | e in a.bindings :: e in b.bindings && b.bindings[e] == a.bindings[e])
  }

  lemma IssueKeeps(cfg: Config, l: Ledger, x: IssueInput)
    requires Valid(l)
    ensures Valid(Issue(cfg, l, x).0) && Grown(l, Issue(cfg, l, x).0)
  {
    if Issue(cfg, l, x).0 != l {
      ChallengeKeeps(l, x.confirmationId, ChallengeFor(cfg, x));
    }
  }

  lemma ChallengeKeeps(l: Ledger, id: Ref, c: Challenge)
    requires Valid(l) && id !in l.challenges && c.input.confirmationId == id && c.proposal == ProposalOf(c.input)
    requires InBounds(c.input)
    requires !NonceTaken(l, c.input.nonce)
    ensures var n := l.(challenges := l.challenges[id := c]);
            Valid(n) && Grown(l, n)
  {
    var n := l.(challenges := l.challenges[id := c]);
    assert ChallengesOk(n) by {
      forall j | j in n.challenges
        ensures ChallengeOk(n, j)
      {
        assert j in l.challenges ==> ChallengeOk(l, j);
      }
    }
    MoreKeeps(l, n);
  }

  /** Old attestations and bindings stay right when the ledger grows. */
  lemma MoreKeeps(l: Ledger, n: Ledger)
    requires AttestationsOk(l) && BindingsOk(l)
    requires Grown(l, n) && n.attestations == l.attestations && n.bindings == l.bindings
    ensures AttestationsOk(n) && BindingsOk(n)
  {
    forall k | k in n.attestations
      ensures AttestationOk(n, k)
    {
      AttestationStays(l, n, k);
    }
    forall e | e in n.bindings
      ensures BindingOk(n, e)
    {
      assert BindingOk(l, e);
    }
  }

  lemma AttestationStays(l: Ledger, n: Ledger, k: Identity)
    requires k in l.attestations && AttestationOk(l, k) && Grown(l, n)
    ensures AttestationOk(n, k)
  {
  }

  /** A new attestation. */
  lemma ConfirmKeeps(cfg: Config, l: Ledger, confirmationId: Ref, e: EventBody, n: Ledger)
    requires Valid(l) && confirmationId in l.challenges && InContext(e, l.challenges[confirmationId])
    requires At(l.challenges[confirmationId].input.issuedAt) <= At(e.receivedAt)
    requires At(e.receivedAt) <= At(l.challenges[confirmationId].input.expiresAt)
    requires AttestationOf(l, confirmationId).None? && !BoundElsewhere(l, e, confirmationId)
    requires var id := IdentityFor(l.challenges[confirmationId], e);
             n == l.(attestations := l.attestations[id := Attestation(id, cfg.keyVersion)],
                     bindings := l.bindings[e.eventId := Binding(e.content, confirmationId, id)])
    ensures Valid(n) && Grown(l, n)
  {
    assert ChallengeOk(l, confirmationId);
    EventIsNew(l, e, confirmationId);
    var id := IdentityFor(l.challenges[confirmationId], e);
    AttestKeeps(l, id, Attestation(id, cfg.keyVersion), n);
  }

  /** n is l with one more attestation, of a fresh confirmation and a fresh event. */
  ghost predicate Attested(l: Ledger, id: Identity, a: Attestation, n: Ledger) {
    && a.identity == id
    && (forall k | k in l.attestations :: k.confirmationId != id.confirmationId)
    && id.confirmingEvent !in l.bindings
    && n.challenges == l.challenges
    && n.attestations == l.attestations[id := a]
    && n.bindings == l.bindings[id.confirmingEvent := Binding(id.confirmingContent, id.confirmationId, id)]
  }

  lemma AttestKeeps(l: Ledger, id: Identity, a: Attestation, n: Ledger)
    requires Valid(l) && Attested(l, id, a, n) && AttestationOk(n, id)
    ensures Valid(n) && Grown(l, n)
  {
    AttestGrows(l, id, a, n);
    AttestKeepsChallenges(l, id, a, n);
    AttestKeepsOnce(l, id, a, n);
    AttestKeepsBindings(l, id, a, n);
    forall k | k in n.attestations
      ensures AttestationOk(n, k)
    {
      if k != id {
        AttestationStays(l, n, k);
      }
    }
  }

  lemma AttestGrows(l: Ledger, id: Identity, a: Attestation, n: Ledger)
    requires Attested(l, id, a, n)
    ensures Grown(l, n)
  {
    assert id !in l.attestations;
  }

  lemma AttestKeepsChallenges(l: Ledger, id: Identity, a: Attestation, n: Ledger)
    requires ChallengesOk(l) && NoncesDistinct(l) && Attested(l, id, a, n)
    ensures ChallengesOk(n) && NoncesDistinct(n)
  {
    forall c | c in n.challenges
      ensures ChallengeOk(n, c)
    {
      assert ChallengeOk(l, c);
    }
  }

  lemma AttestKeepsOnce(l: Ledger, id: Identity, a: Attestation, n: Ledger)
    requires ConfirmedOnce(l) && Attested(l, id, a, n)
    ensures ConfirmedOnce(n)
  {
  }

  lemma AttestKeepsBindings(l: Ledger, id: Identity, a: Attestation, n: Ledger)
    requires BindingsOk(l) && Attested(l, id, a, n)
    ensures BindingsOk(n)
  {
    forall b | b in n.bindings
      ensures BindingOk(n, b)
    {
      assert b in l.bindings ==> BindingOk(l, b);
    }
  }

  lemma BoundIsAttested(l: Ledger, e: Ref)
    requires Valid(l) && e in l.bindings
    ensures l.bindings[e].attestation in l.attestations
    ensures l.bindings[e].attestation.confirmationId == l.bindings[e].confirmationId
  {
    assert BindingOk(l, e);
    assert AttestationOk(l, l.bindings[e].attestation);
  }

  /** An event that could be bound to a fresh confirmation is not bound at all. */
  lemma EventIsNew(l: Ledger, e: EventBody, confirmationId: Ref)
    requires Valid(l) && AttestationOf(l, confirmationId).None? && !BoundElsewhere(l, e, confirmationId)
    ensures e.eventId !in l.bindings
  {
    if e.eventId in l.bindings {
      BoundIsAttested(l, e.eventId);
    }
  }

  lemma EvaluateKeeps(cfg: Config, l: Ledger, id: Ref, e: InboundEvent, text: string)
    requires Valid(l)
    ensures Valid(Evaluate(cfg, l, id, e, text).0) && Grown(l, Evaluate(cfg, l, id, e, text).0)
  {
    var n := Evaluate(cfg, l, id, e, text).0;
    if n != l {
      ConfirmKeeps(cfg, l, id, e.body, n);
    }
  }

  lemma StepKeeps(cfg: Config, l: Ledger, op: Operation)
    requires Valid(l)
    ensures Valid(Step(cfg, l, op)) && Grown(l, Step(cfg, l, op))
  {
    match op
    case DoIssue(x) => IssueKeeps(cfg, l, x);
    case DoEvaluate(id, e, text) => EvaluateKeeps(cfg, l, id, e, text);
    case DoAuthorize(_) =>
  }

  /** Over every sequence of operations challenges and attestations are never
      removed or altered, nonces stay distinct, and confirmations, confirming
      events and attestations correspond one to one. */
  lemma {:induction false} RunsKeep(cfg: Config, l: Ledger, ops: seq<Operation>)
    requires Valid(l)
    ensures Valid(RunFrom(cfg, l, ops)) && Grown(l, RunFrom(cfg, l, ops))
    decreases |ops|
  {
    if ops != [] {
      var mid := RunFrom(cfg, l, ops[..|ops| - 1]);
      RunsKeep(cfg, l, ops[..|ops| - 1]);
      StepKeeps(cfg, mid, ops[|ops| - 1]);
    }
  }

  lemma ReachableIsValid(cfg: Config, ops: seq<Operation>)
    ensures Valid(RunFrom(cfg, EMPTY, ops))
  {
    RunsKeep(cfg, EMPTY, ops);
  }

  /** Two attestations with a confirmation, an event or a nonce in common are one. */
  lemma OneToOne(cfg: Config, ops: seq<Operation>, j: Identity, k: Identity)
    requires var l := RunFrom(cfg, EMPTY, ops);
             j in l.attestations && k in l.attestations
    requires j.confirmationId == k.confirmationId || j.confirmingEvent == k.confirmingEvent || j.nonce == k.nonce
    ensures j == k
  {
    ReachableIsValid(cfg, ops);
    var l := RunFrom(cfg, EMPTY, ops);
    assert AttestationOk(l, j) && AttestationOk(l, k);
  }

  // ----- what an answer means -----

  /** A reason against confirming, whether it holds, and the answer that states it. */
  datatype Objection = Objection(holds: bool, answer: Result<Evaluation, Error>)

  /** The confirmation has an attestation, by another event or for another content. */
  ghost predicate SpentOtherwise(l: Ledger, id: Ref, x: EventBody) {
    exists k :: k in l.attestations && k.confirmationId == id
      && (k.confirmingEvent != x.eventId || k.confirmingContent != x.content)
  }

  /** Everything that speaks against a confirmation, in the order in which it counts. */
  ghost function Objections(cfg: Config, l: Ledger, id: Ref, e: InboundEvent, text: string): (r: seq<Objection>)
    ensures |r| == 12
  {
    var x, known := e.body, id in l.challenges;
    [ Objection(!cfg.isChannel(x.channel), Err(InvalidInput)),
      Objection(x.content != cfg.digest(text), Err(ContentMismatch)),
      Objection(x.keyVersion != cfg.keyVersion, Err(KeyVersionMismatch)),
      Objection(e.signature.Some? && e.signature != Some(SignatureOver(x)), Err(BadSignature)),
      Objection(!cfg.affirmative(text), Ok(Common(NOT_AFFIRMATIVE))),
      Objection(!known, Ok(Common(NO_ACTIVE_CONTEXT))),
      Objection(known && !(&& x.conversation == l.challenges[id].input.conversation
                           && x.actor == l.challenges[id].input.actor
                           && x.channel == l.challenges[id].input.channel
                           && x.replyTo == Some(l.challenges[id].input.promptEvent)), Ok(Common(OUT_OF_CONTEXT))),
      Objection(e.signature == None, Ok(Contextual(id, UNAUTHENTICATED_EVENT))),
      Objection(known && At(x.receivedAt) < At(l.challenges[id].input.issuedAt), Ok(Contextual(id, NOT_YET_ACTIVE))),
      Objection(known && At(l.challenges[id].input.expiresAt) < At(x.receivedAt), Ok(Contextual(id, EXPIRED))),
      Objection(SpentOtherwise(l, id, x), Err(AlreadyConsumed)),
      Objection(x.eventId in l.bindings
                  && (l.bindings[x.eventId].confirmationId != id || l.bindings[x.eventId].content != x.content),
        Err(ReusedEvent)) ]
  }

  /** Objection i holds and none before it does. */
  ghost predicate First(objections: seq<Objection>, i: nat) {
    i < |objections| && objections[i].holds && forall j | 0 <= j < i :: !objections[j].holds
  }

  lemma SpentMeans(l: Ledger, id: Ref, x: EventBody)
    requires Valid(l)
    ensures var k := AttestationOf(l, id);
            && (SpentOtherwise(l, id, x) <==>
                  k.Some? && (k.value.confirmingEvent != x.eventId || k.value.confirmingContent != x.content))
            && (k.Some? && !SpentOtherwise(l, id, x) ==> !BoundElsewhere(l, x, id))
  {
    var k := AttestationOf(l, id);
    if k.Some? {
      assert AttestationOk(l, k.value);
    }
  }

  lemma {:induction false} FirstHolding(against: seq<Objection>, i: nat) returns (first: nat)
    requires i < |against| && against[i].holds
    ensures First(against, first)
    decreases i
  {
    if j: nat :| j < i && against[j].holds {
      first := FirstHolding(against, j);
    } else {
      first := i;
    }
  }

  /** The answer is that of the first objection, and the ledger stays as it is. */
  lemma FirstObjectionAnswers(cfg: Config, l: Ledger, id: Ref, e: InboundEvent, text: string, i: nat)
    requires Valid(l) && First(Objections(cfg, l, id, e, text), i)
    ensures Evaluate(cfg, l, id, e, text) == (l, Objections(cfg, l, id, e, text)[i].answer)
  {
    SpentMeans(l, id, e.body);
    var against := Objections(cfg, l, id, e, text);
    assert against[i].holds;
    assert i > 0 ==> !against[0].holds;
    assert i > 1 ==> !against[1].holds;
    assert i > 2 ==> !against[2].holds;
    assert i > 3 ==> !against[3].holds;
    assert i > 4 ==> !against[4].holds;
    assert i > 5 ==> !against[5].holds;
    assert i > 6 ==> !against[6].holds;
    assert i > 7 ==> !against[7].holds;
    assert i > 8 ==> !against[8].holds;
    assert i > 9 ==> !against[9].holds;
    assert i > 10 ==> !against[10].holds;
  }

  /** An event confirms exactly when nothing speaks against it. */
  lemma ConfirmsExactly(cfg: Config, l: Ledger, id: Ref, e: InboundEvent, text: string)
    requires Valid(l)
    ensures var r := Evaluate(cfg, l, id, e, text).1;
            var against := Objections(cfg, l, id, e, text);
            r.Ok? && r.value.Authenticated? <==> forall i | 0 <= i < |against| :: !against[i].holds
  {
    SpentMeans(l, id, e.body);
    var against := Objections(cfg, l, id, e, text);
    if i: nat :| i < |against| && against[i].holds {
      var first := FirstHolding(against, i);
      FirstObjectionAnswers(cfg, l, id, e, text, first);
    } else {
      assert !against[0].holds && !against[1].holds && !against[2].holds && !against[3].holds;
      assert !against[4].holds && !against[5].holds && !against[6].holds && !against[7].holds;
      assert !against[8].holds && !against[9].holds && !against[10].holds && !against[11].holds;
    }
  }

  /** What an answer AUTHENTICATED hands over is the attestation of the challenge, this event and this content. */
  lemma AttestsThis(cfg: Config, l: Ledger, id: Ref, e: InboundEvent, text: string)
    requires Valid(l)
    requires Evaluate(cfg, l, id, e, text).1.Ok? && Evaluate(cfg, l, id, e, text).1.value.Authenticated?
    ensures var (n, r) := Evaluate(cfg, l, id, e, text);
            var a := r.value.attestation;
            && a.identity in n.attestations && n.attestations[a.identity] == a
            && a.identity.confirmationId == id && a.identity.confirmingEvent == e.body.eventId
            && a.identity.confirmingContent == e.body.content
            && (r.value.duplicate <==> n == l) && (!r.value.duplicate ==> a.identity.confirmedAt == e.body.receivedAt)
  {
    var existing := AttestationOf(l, id);
    if existing.Some? {
      assert AttestationOk(l, existing.value);
    } else {
      EventIsNew(l, e.body, id);
    }
  }

  /** An answer AUTHENTICATED always comes from a signed, affirmative event of the
      conversation, the actor and the channel of the challenge, in reply to its prompt
      and inside its window, and its attestation says what the challenge proposed. */
  lemma AuthenticatedMeans(cfg: Config, l: Ledger, id: Ref, e: InboundEvent, text: string)
    requires Valid(l)
    requires Evaluate(cfg, l, id, e, text).1.Ok? && Evaluate(cfg, l, id, e, text).1.value.Authenticated?
    ensures id in l.challenges
    ensures var c, x := l.challenges[id].input, e.body;
            && x.conversation == c.conversation && x.actor == c.actor && x.channel == c.channel
            && x.replyTo == Some(c.promptEvent)
            && e.signature == Some(SignatureOver(x)) && x.content == cfg.digest(text) && cfg.affirmative(text)
            && At(c.issuedAt) <= At(x.receivedAt) <= At(c.expiresAt)
    ensures var (n, r) := Evaluate(cfg, l, id, e, text);
            var c, k := l.challenges[id], r.value.attestation.identity;
            && k in n.attestations && n.attestations[k] == r.value.attestation
            && k.confirmationId == id && k.confirmingEvent == e.body.eventId && k.confirmingContent == e.body.content
            && k.conversation == c.input.conversation && k.actor == c.input.actor && k.channel == c.input.channel
            && k.action == c.input.action && k.inputHash == c.input.inputHash && k.version == c.input.version
            && k.proposal == Proposal(k.action, k.conversation, k.inputHash, k.version)
            && k.promptEvent == c.input.promptEvent && k.nonce == c.input.nonce
            && (r.value.duplicate <==> n == l) && (!r.value.duplicate ==> k.confirmedAt == e.body.receivedAt)
  {
    AttestsThis(cfg, l, id, e, text);
    assert ChallengeOk(l, id);
    var existing := AttestationOf(l, id);
    if existing.Some? {
      assert AttestationOk(l, existing.value);
    }
  }

  lemma RepeatInLater(
    cfg: Config, n: Ledger, later: Ledger, id: Ref, e: InboundEvent, text: string, a: Attestation)
    requires Valid(later) && Grown(n, later)
    requires Precheck(cfg, id, e, text).None? && Shortfall(cfg, n, id, e, text).None?
    requires a.identity in n.attestations && n.attestations[a.identity] == a && a.identity.confirmationId == id
    requires a.identity.confirmingEvent == e.body.eventId && a.identity.confirmingContent == e.body.content
    ensures Evaluate(cfg, later, id, e, text) == (later, Ok(Authenticated(true, a)))
  {
    assert Shortfall(cfg, later, id, e, text).None?;
    assert AttestationOf(later, id) == Some(a.identity);
  }

  lemma PassedChecks(cfg: Config, l: Ledger, id: Ref, e: InboundEvent, text: string)
    requires Evaluate(cfg, l, id, e, text).1.Ok? && Evaluate(cfg, l, id, e, text).1.value.Authenticated?
    ensures Precheck(cfg, id, e, text).None? && Shortfall(cfg, l, id, e, text).None?
    ensures Shortfall(cfg, Evaluate(cfg, l, id, e, text).0, id, e, text).None?
  {
  }

  lemma RepeatFrom(
    cfg: Config, n: Ledger, id: Ref, e: InboundEvent, text: string, a: Attestation, ops: seq<Operation>)
    requires Valid(n)
    requires Precheck(cfg, id, e, text).None? && Shortfall(cfg, n, id, e, text).None?
    requires a.identity in n.attestations && n.attestations[a.identity] == a && a.identity.confirmationId == id
    requires a.identity.confirmingEvent == e.body.eventId && a.identity.confirmingContent == e.body.content
    ensures var later := RunFrom(cfg, n, ops);
            Evaluate(cfg, later, id, e, text) == (later, Ok(Authenticated(true, a)))
  {
    RunsKeep(cfg, n, ops);
    RepeatInLater(cfg, n, RunFrom(cfg, n, ops), id, e, text, a);
  }

  /** A repeated identical confirmation returns the same attestation and leaves the
      ledger unchanged, however many operations came in between. */
  lemma RepeatIsIdempotent(
    cfg: Config, l: Ledger, id: Ref, e: InboundEvent, text: string, ops: seq<Operation>)
    requires Valid(l)
    requires Evaluate(cfg, l, id, e, text).1.Ok? && Evaluate(cfg, l, id, e, text).1.value.Authenticated?
    ensures var a := Evaluate(cfg, l, id, e, text).1.value.attestation;
            var later := RunFrom(cfg, Evaluate(cfg, l, id, e, text).0, ops);
            Evaluate(cfg, later, id, e, text) == (later, Ok(Authenticated(true, a)))
  {
    var n, a := Evaluate(cfg, l, id, e, text).0, Evaluate(cfg, l, id, e, text).1.value.attestation;
    AttestsThis(cfg, l, id, e, text);
    PassedChecks(cfg, l, id, e, text);
    assert Valid(n) by {
      EvaluateKeeps(cfg, l, id, e, text);
    }
    RepeatFrom(cfg, n, id, e, text, a, ops);
  }

  /** Once a confirmation is consumed, no other event and no other content confirms it. */
  lemma ConsumedOnce(cfg: Config, l: Ledger, id: Ref, e: InboundEvent, text: string, k: Identity)
    requires Valid(l) && k in l.attestations && k.confirmationId == id
    requires k.confirmingEvent != e.body.eventId || k.confirmingContent != e.body.content
    ensures var (n, r) := Evaluate(cfg, l, id, e, text);
            n == l && !(r.Ok? && r.value.Authenticated?)
  {
  }

  /** authorizeWouldCall succeeds exactly for an attestation of the ledger and the
      very proposal it confirmed. */
  lemma AuthorizesExactly(cfg: Config, l: Ledger, x: AuthorizeInput)
    requires Valid(l)
    ensures Authorize(cfg, l, x).Ok? <==>
              && cfg.isChannel(x.channel) && cfg.isAction(x.action) && x.attestationId in l.attestations
              && var k := x.attestationId;
                 && x.confirmationId == k.confirmationId && x.conversation == k.conversation && x.actor == k.actor
                 && x.channel == k.channel && x.action == k.action && x.inputHash == k.inputHash
                 && x.version == k.version && x.proposal == k.proposal
    ensures Authorize(cfg, l, x).Ok? ==> Authorize(cfg, l, x).value.attestation.identity == x.attestationId
  {
    if x.attestationId in l.attestations {
      assert AttestationOk(l, x.attestationId);
      assert ChallengeOk(l, x.attestationId.confirmationId);
    }
  }

  /** A challenge is issued exactly for an input in its form and its bounds whose id and nonce are new, or
      which is the very input of the challenge there is. */
  lemma IssuesExactly(cfg: Config, l: Ledger, x: IssueInput)
    requires Valid(l)
    ensures var (n, r) := Issue(cfg, l, x);
            && (r.Ok? <==>
                  && cfg.isChannel(x.channel) && cfg.isAction(x.action) && InBounds(x)
                  && if x.confirmationId in l.challenges
                     then l.challenges[x.confirmationId].input == x
                          && l.challenges[x.confirmationId].keyVersion == cfg.keyVersion
                     else forall id | id in l.challenges :: l.challenges[id].input.nonce != x.nonce)
            && (r.Ok? ==> x.confirmationId in n.challenges && n.challenges[x.confirmationId] == r.value.challenge)
            && (r.Ok? ==> r.value.challenge.input == x && (r.value.duplicate <==> n == l))
  {
    if x.confirmationId in l.challenges {
      assert ChallengeOk(l, x.confirmationId);
    }
  }

  /** A challenge is issued once: the same input again changes nothing, and another
      input under its id or nonce is refused. */
  lemma IssuedOnce(cfg: Config, l: Ledger, x: IssueInput, y: IssueInput, ops: seq<Operation>)
    requires Valid(l) && Issue(cfg, l, x).1.Ok?
    requires y.confirmationId == x.confirmationId || y.nonce == x.nonce
    ensures var later := RunFrom(cfg, Issue(cfg, l, x).0, ops);
            && Issue(cfg, later, y).0 == later
            && (Issue(cfg, later, y).1.Ok? <==> y == x)
  {
    IssueKeeps(cfg, l, x);
    var n := Issue(cfg, l, x).0;
    RunsKeep(cfg, n, ops);
    IssuedInLater(cfg, RunFrom(cfg, n, ops), x, y);
  }

  lemma IssuedInLater(cfg: Config, later: Ledger, x: IssueInput, y: IssueInput)
    requires Valid(later) && ValidIssue(cfg, x)
    requires x.confirmationId in later.challenges && later.challenges[x.confirmationId] == ChallengeFor(cfg, x)
    requires y.confirmationId == x.confirmationId || y.nonce == x.nonce
    ensures Issue(cfg, later, y).0 == later && (Issue(cfg, later, y).1.Ok? <==> y == x)
  {
    assert y.nonce == x.nonce ==> NonceTaken(later, y.nonce);
    if y.confirmationId in later.challenges {
      assert ChallengeOk(later, y.confirmationId);
    }
  }

  // ----- the object -----

  /** The authority over its ledger. */
  class Authority {
    const cfg: Config
    var challenges: map<Ref, Challenge>
    var attestations: map<Identity, Attestation>
    var bindings: map<Ref, Binding>

    ghost function View(): Ledger
      reads this
    {
      Ledger(challenges, attestations, bindings)
    }

    constructor (cfg: Config)
      ensures this.cfg == cfg && View() == EMPTY && Valid(View())
    {
      this.cfg := cfg;
      challenges, attestations, bindings := map[], map[], map[];
    }

    method IssueChallenge(x: IssueInput) returns (r: Result<Issued, Error>)
      requires Valid(View())
      modifies this`challenges
      ensures (View(), r) == Issue(cfg, old(View()), x) && Valid(View())
    {
      IssueKeeps(cfg, View(), x);
      if !ValidIssue(cfg, x) {
        return Err(InvalidInput);
      }
      var c := ChallengeFor(cfg, x);
      if x.confirmationId in challenges {
        if challenges[x.confirmationId] != c {
          return Err(ReusedConfirmation);
        }
        return Ok(Issued(true, c));
      }
      if exists id | id in challenges :: challenges[id].input.nonce == x.nonce {
        return Err(ReusedNonce);
      }
      challenges := challenges[x.confirmationId := c];
      return Ok(Issued(false, c));
    }

    method FindAttestation(confirmationId: Ref) returns (k: Option<Identity>)
      requires Valid(View())
      ensures k == AttestationOf(View(), confirmationId)
    {
      var left := attestations.Keys;
      while left != {}
        invariant left <= attestations.Keys
        invariant forall j | j in attestations && j !in left :: j.confirmationId != confirmationId
        decreases |left|
      {
        var j :| j in left;
        if j.confirmationId == confirmationId {
          return Some(j);
        }
        left := left - {j};
      }
      k := None;
    }

    method EvaluateConfirmation(confirmationId: Ref, e: InboundEvent, text: string)
      returns (r: Result<Evaluation, Error>)
      requires Valid(View())
      modifies this`attestations, this`bindings
      ensures (View(), r) == Evaluate(cfg, old(View()), confirmationId, e, text) && Valid(View())
    {
      EvaluateKeeps(cfg, View(), confirmationId, e, text);
      var bad := Precheck(cfg, confirmationId, e, text);
      if bad.Some? {
        return Err(bad.value);
      }
      var shortfall := Shortfall(cfg, Ledger(challenges, attestations, bindings), confirmationId, e, text);
      if shortfall.Some? {
        return Ok(shortfall.value);
      }
      var existing := FindAttestation(confirmationId);
      if existing.Some? {
        if existing.value.confirmingEvent != e.body.eventId || existing.value.confirmingContent != e.body.content {
          return Err(AlreadyConsumed);
        }
        return Ok(Authenticated(true, attestations[existing.value]));
      }
      if e.body.eventId in bindings {
        var bound := bindings[e.body.eventId];
        if bound.content != e.body.content || bound.confirmationId != confirmationId {
          return Err(ReusedEvent);
        }
      }
      var a := Attest(confirmationId, e.body);
      return Ok(Authenticated(false, a));
    }

    /** The part that writes: a new attestation and the binding of its event. */
    method Attest(confirmationId: Ref, body: EventBody) returns (a: Attestation)
      requires confirmationId in challenges
      modifies this`attestations, this`bindings
      ensures var id := IdentityFor(challenges[confirmationId], body);
        && a == Attestation(id, cfg.keyVersion)
        && attestations == old(attestations)[id := a]
        && bindings == old(bindings)[body.eventId := Binding(body.content, confirmationId, id)]
    {
      var id := IdentityFor(challenges[confirmationId], body);
      a := Attestation(id, cfg.keyVersion);
      attestations := attestations[id := a];
      bindings := bindings[body.eventId := Binding(body.content, confirmationId, id)];
    }

    method AuthorizeWouldCall(x: AuthorizeInput) returns (r: Result<Authorization, Error>)
      ensures r == Authorize(cfg, View(), x)
    {
      if !ValidAuthorize(cfg, x) {
        return Err(InvalidInput);
      }
      if x.confirmationId !in challenges || x.attestationId !in attestations {
        return Err(NoAttestation);
      }
      var c, a := challenges[x.confirmationId], attestations[x.attestationId];
      if a.identity.confirmationId != x.confirmationId {
        return Err(NoAttestation);
      }
      if !Matches(x, c, a.identity) {
        return Err(ProposalMismatch);
      }
      return Ok(Authorization(c, a));
    }
  }
}
