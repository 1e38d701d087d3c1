/**
 What each event does to goals, cases, questions and facts before the conversation
 settles, told from the states before and after.
 */
module Events {
  import opened Basics
  import opened Catalog
  import opened State
  import opened Recording
  import opened FactInvariants
  import opened Goals
  import opened Reducer
  import opened Moves
  import opened Runs
  import opened Reachable
  import opened Outcomes
  import opened Inputs
  import opened Uptake

  /** How the facts of an event that has a goal of its own are taken. */
  const SPOKEN := Manner(ASSERT, USER_EXPLICIT, CONFIRMED, false)

  /** The facts are recorded one after another for goal gi, from a to b. */
  ghost predicate TakenFor(
    cat: Catalogue, goals: seq<GoalRecord>, now: nat, gi: nat, inputs: seq<FactInput>, a: seq<FactRecord>,
    b: seq<FactRecord>)
    requires gi < |goals|
  {
    exists xs: seq<seq<FactRecord>> :: StepsFor(cat, OwnerOf(goals, gi), now, inputs, xs, a, b)
  }

  ghost predicate StepsFor(
    cat: Catalogue, o: Owner, now: nat, inputs: seq<FactInput>, xs: seq<seq<FactRecord>>, a: seq<FactRecord>,
    b: seq<FactRecord>)
  {
    && |xs| == |inputs| + 1 && xs[0] == a && xs[|inputs|] == b
    && forall k | 0 <= k < |inputs| :: StepFor(cat, o, now, inputs[k], xs[k], xs[k + 1])
  }

  ghost predicate StepFor(
    cat: Catalogue, o: Owner, now: nat, x: FactInput, a: seq<FactRecord>, b: seq<FactRecord>)
  {
    Allowed(cat, Read(cat, SPOKEN, x)) && Taken(cat, a, b, now, o, Read(cat, SPOKEN, x), ASSERT, [])
  }

  lemma {:induction false} RecordedFor(
    cat: Catalogue, rank: map<string, nat>, st: Conversation, gi: nat, inputs: seq<FactInput>, told: Conversation)
    requires Valid(cat) && Ranked(cat, rank) && FactsOk(cat, rank, st.facts, st.seqNo) && gi < |st.goals|
    requires RecordFor(cat, st, gi, inputs) == Ok(told)
    ensures told == st.(facts := told.facts) && FactsOk(cat, rank, told.facts, told.seqNo)
    ensures TakenFor(cat, st.goals, st.seqNo, gi, inputs, st.facts, told.facts)
    decreases |inputs|
  {
    if inputs == [] {
      NothingFor(cat, st.goals, st.seqNo, gi, st.facts);
    } else {
      var next := FirstRecordedFor(cat, rank, st, gi, inputs, told);
      RecordedFor(cat, rank, next, gi, inputs[1..], told);
      OneMoreFor(cat, st.goals, st.seqNo, gi, inputs, st.facts, next.facts, told.facts);
    }
  }

  lemma FirstRecordedFor(
    cat: Catalogue, rank: map<string, nat>, st: Conversation, gi: nat, inputs: seq<FactInput>, told: Conversation)
    returns (next: Conversation)
    requires Valid(cat) && Ranked(cat, rank) && FactsOk(cat, rank, st.facts, st.seqNo) && gi < |st.goals|
    requires inputs != [] && RecordFor(cat, st, gi, inputs) == Ok(told)
    ensures next == st.(facts := next.facts) && FactsOk(cat, rank, next.facts, next.seqNo)
    ensures RecordFor(cat, next, gi, inputs[1..]) == Ok(told)
    ensures StepFor(cat, OwnerOf(st.goals, gi), st.seqNo, inputs[0], st.facts, next.facts)
  {
    var o := OwnerOf(st.goals, gi);
    AdmittedFit(cat, inputs[0], ASSERT);
    var e := Admitted(cat, inputs[0], ASSERT).value;
    next := st.(facts := Insert(cat, st.goals, st.facts, st.seqNo, o, e, ASSERT, []));
    InsertKeepsFacts(cat, rank, st.goals, st.facts, st.seqNo, o, e, ASSERT, []);
    DressedIsRead(cat, SPOKEN, inputs[0], inputs[0], e);
    InsertTakes(cat, rank, st.goals, st.facts, st.seqNo, o, e, ASSERT, []);
  }

  lemma OneMoreStep(
    cat: Catalogue, o: Owner, now: nat, inputs: seq<FactInput>, a: seq<FactRecord>, b: seq<FactRecord>,
    rest: seq<seq<FactRecord>>, c: seq<FactRecord>)
    requires inputs != [] && StepFor(cat, o, now, inputs[0], a, b) && StepsFor(cat, o, now, inputs[1..], rest, b, c)
    ensures StepsFor(cat, o, now, inputs, [a] + rest, a, c)
  {
    var xs := [a] + rest;
    forall k | 0 <= k < |inputs|
      ensures StepFor(cat, o, now, inputs[k], xs[k], xs[k + 1])
    {
      if k > 0 {
        assert inputs[1..][k - 1] == inputs[k] && xs[k] == rest[k - 1] && xs[k + 1] == rest[k];
        assert StepFor(cat, o, now, inputs[1..][k - 1], rest[k - 1], rest[k - 1 + 1]);
      }
    }
  }

  lemma OneMoreFor(
    cat: Catalogue, goals: seq<GoalRecord>, now: nat, gi: nat, inputs: seq<FactInput>, a: seq<FactRecord>,
    b: seq<FactRecord>, c: seq<FactRecord>)
    requires gi < |goals| && inputs != []
    requires StepFor(cat, OwnerOf(goals, gi), now, inputs[0], a, b)
    requires TakenFor(cat, goals, now, gi, inputs[1..], b, c)
    ensures TakenFor(cat, goals, now, gi, inputs, a, c)
  {
    var rest :| StepsFor(cat, OwnerOf(goals, gi), now, inputs[1..], rest, b, c);
    OneMoreStep(cat, OwnerOf(goals, gi), now, inputs, a, b, rest, c);
  }

  lemma NothingFor(cat: Catalogue, goals: seq<GoalRecord>, now: nat, gi: nat, a: seq<FactRecord>)
    requires gi < |goals|
    ensures TakenFor(cat, goals, now, gi, [], a, a)
  {
    assert StepsFor(cat, OwnerOf(goals, gi), now, [], [a], a, a);
  }

  // ----- opening a goal -----

  /** Case c is for the subject, and no case before it is. */
  predicate FirstCaseFor(cases: seq<CaseRecord>, kind: string, ref: string, c: nat) {
    && c < |cases| && cases[c].subjectKind == kind && cases[c].subjectRef == ref
    && forall j | 0 <= j < c :: cases[j].subjectKind != kind || cases[j].subjectRef != ref
  }

  /** A goal that creates a case is in the one case of its subject, which is opened if there is none; the
      reference of a subject without one is made of the code and the number of the turn. */
  ghost predicate InCaseOf(
    cat: Catalogue, code: string, ref: Option<string>, now: nat, a: seq<CaseRecord>, b: seq<CaseRecord>,
    caseId: Option<nat>)
  {
    var def := GoalOf(cat, code);
    var subject := if ref.Some? then ref.value else code + ":" + Numeral(now);
    if !def.createsCase then caseId.None? && b == a
    else
      && caseId.Some? && FirstCaseFor(b, def.caseSubject, subject, caseId.value)
      && if caseId.value < |a| then b == a else b == a + [CaseRecord(def.caseSubject, subject, now)]
  }

  /** The last goal of b is new: active, of this turn, with this parent and this base. */
  ghost predicate Opened(
    cat: Catalogue, st: Conversation, goals: seq<GoalRecord>, code: string, parent: Option<nat>,
    overlayOf: Option<nat>, caseId: Option<nat>)
  {
    && code in cat.goals && code !in st.forbidden && goals != []
    && goals[|goals| - 1] == GoalRecord(code, caseId, ACTIVE, None, parent, overlayOf, cat.goals[code].informational,
                               false, st.seqNo + 1, None, None)
  }

  /** The goal in context is left: it is closed for good, and a parent that is suspended for it is told. */
  ghost predicate Left(a: seq<GoalRecord>, b: seq<GoalRecord>, c: nat, now: nat) {
    && c < |a| && |b| == |a|
    && b[c].status == ABANDONED && b[c].reason == Some("USER_ABANDONED") && b[c].closedAt == Some(now)
    && b[c] == a[c].(status := ABANDONED, reason := b[c].reason, closedAt := b[c].closedAt)
    && forall i | 0 <= i < |a| && i != c ::
         b[i] == if a[c].parent == Some(i) && a[i].status == SUSPENDED
                 then a[i].(reason := Some("BLOCKED_BY_ABANDONED_SUBFLOW")) else a[i]
  }

  /** A new subject: a goal without a parent, in the case of its subject; the goal in context is left if the
      event says so. */
  ghost predicate NewGoalDone(cat: Catalogue, st: Conversation, e: Event, told: Conversation)
    requires e.NewGoal?
  {
    && told.goals != []
    && var n := |told.goals| - 1;
       && n == |st.goals| && Opened(cat, st, told.goals, e.goalCode, None, None, told.goals[n].caseId)
       && InCaseOf(cat, e.goalCode, e.caseRef, st.seqNo + 1, st.cases, told.cases, told.goals[n].caseId)
       && (exists c: Option<nat> :: InContext(st.goals, c)
             && if e.abandonCurrent && c.Some? then Left(st.goals, told.goals[..n], c.value, st.seqNo + 1)
                else told.goals[..n] == st.goals)
       && TakenFor(cat, told.goals, st.seqNo + 1, n, e.facts, st.facts, told.facts)
       && told == st.(seqNo := st.seqNo + 1, goals := told.goals, cases := told.cases, facts := told.facts)
  }

  /** The goal that is recoded: the one in context, or else the last demand that was not abandoned. */
  ghost predicate IsDemand(goals: seq<GoalRecord>, i: nat) {
    exists c: Option<nat> :: InContext(goals, c)
      && if c.Some? then c.value == i
         else
           && i < |goals| && goals[i].status != ABANDONED && goals[i].overlayOf.None?
           && forall j | i < j < |goals| :: goals[j].status == ABANDONED || goals[j].overlayOf.Some?
  }

  /** The demand has another code, and nothing else changes; if it waited or was met, it is open again. */
  ghost predicate ReclassificationDone(cat: Catalogue, st: Conversation, code: string, told: Conversation) {
    exists i: nat :: IsDemand(st.goals, i) && i < |st.goals| && code in cat.goals
      && |told.goals| == |st.goals| && told == st.(seqNo := st.seqNo + 1, goals := st.goals[i := told.goals[i]])
      && var g, h := st.goals[i], told.goals[i];
         && h.code == code && h.informational == cat.goals[code].informational
         && (g.status in {RESOLVED, WAITING} ==> h.status == ACTIVE && h.reason.None? && h.closedAt.None?)
         && (g.status !in {RESOLVED, WAITING} ==>
               h.status == g.status && h.reason == g.reason && h.closedAt == g.closedAt)
         && h == g.(code := h.code, informational := h.informational, status := h.status, reason := h.reason,
                    closedAt := h.closedAt)
  }

  /** A side question: a goal beside the one in context, in its case; the pending question is parked. */
  ghost predicate ParallelQuestionDone(cat: Catalogue, st: Conversation, e: Event, told: Conversation)
    requires e.ParallelQuestion?
  {
    && told.goals != []
    && var n := |told.goals| - 1;
       && n == |st.goals| && told.goals[..n] == st.goals
       && (exists c: Option<nat> :: InContext(st.goals, c)
             && Opened(cat, st, told.goals, e.goalCode, c, None, told.goals[n].caseId)
             && if c.Some? && c.value < n && st.goals[c.value].caseId.Some?
                then told.goals[n].caseId == st.goals[c.value].caseId && told.cases == st.cases
                else InCaseOf(cat, e.goalCode, None, st.seqNo + 1, st.cases, told.cases, told.goals[n].caseId))
       && TakenFor(cat, told.goals, st.seqNo + 1, n, e.facts, st.facts, told.facts)
       && told.pending.None?
       && told.parked == st.parked + (if st.pending.Some? then [st.pending.value] else [])
       && told == st.(seqNo := st.seqNo + 1, goals := told.goals, cases := told.cases, facts := told.facts,
                      pending := None, parked := told.parked)
  }

  /** The last complaint about the base that was not abandoned, if there is one. */
  ghost predicate LastComplaint(goals: seq<GoalRecord>, base: nat, o: Option<nat>) {
    if o.None? then forall i | 0 <= i < |goals| :: !Complains(goals[i], base)
    else
      && o.value < |goals| && Complains(goals[o.value], base)
      && forall i | o.value < i < |goals| :: !Complains(goals[i], base)
  }

  predicate Complains(g: GoalRecord, base: nat) {
    g.code == "GOAL_RECLAMACAO" && g.overlayOf == Some(base) && g.status != ABANDONED
  }

  /** What a complaint is about: the goal in context, or a new one. */
  ghost predicate BaseOf(
    cat: Catalogue, st: Conversation, e: Event, cases: seq<CaseRecord>, goals: seq<GoalRecord>, base: nat)
    requires e.Complaint?
  {
    exists c: Option<nat> :: InContext(st.goals, c)
      && if c.Some? then c.value == base && goals == st.goals && cases == st.cases
         else
           && e.baseGoal.Some? && base == |st.goals| && |goals| == base + 1 && goals[..base] == st.goals
           && Opened(cat, st, goals, e.baseGoal.value, None, None, goals[base].caseId)
           && InCaseOf(cat, e.baseGoal.value, e.caseRef, st.seqNo + 1, st.cases, cases, goals[base].caseId)
  }

  /** The complaint lies over its base, in its case: the one there was, open again if it was met, or a new one. */
  ghost predicate OverlayOf(
    cat: Catalogue, st: Conversation, cases: seq<CaseRecord>, goals: seq<GoalRecord>, base: nat, told: Conversation,
    overlay: nat)
    requires base < |goals|
  {
    exists o: Option<nat> :: LastComplaint(goals, base, o)
      && if o.Some? then
           && overlay == o.value && overlay < |goals| && told.cases == cases && |told.goals| == |goals|
           && told.goals == goals[overlay := told.goals[overlay]]
           && told.goals[overlay] == (if goals[overlay].status == RESOLVED
                then goals[overlay].(status := ACTIVE, reason := None, closedAt := None) else goals[overlay])
         else
           && overlay == |goals| && |told.goals| == overlay + 1 && told.goals[..overlay] == goals
           && Opened(cat, st, told.goals, "GOAL_RECLAMACAO", Some(base), Some(base), told.goals[overlay].caseId)
           && if goals[base].caseId.Some? then told.goals[overlay].caseId == goals[base].caseId && told.cases == cases
              else InCaseOf(cat, "GOAL_RECLAMACAO", None, st.seqNo + 1, cases, told.cases, told.goals[overlay].caseId)
  }

  /** The moments of a complaint: cases and goals once there is a base, and the facts about it. */
  datatype Complaining = Complaining(
    cases: seq<CaseRecord>, goals: seq<GoalRecord>, base: nat, facts: seq<FactRecord>, overlay: nat)

  /** A complaint: the facts about its base are recorded for the base, the others for the complaint itself. */
  ghost predicate ComplaintDone(cat: Catalogue, st: Conversation, e: Event, told: Conversation)
    requires e.Complaint?
  {
    exists m: Complaining :: ComplaintGoes(cat, st, e, m, told)
  }

  ghost predicate ComplaintGoes(cat: Catalogue, st: Conversation, e: Event, m: Complaining, told: Conversation)
    requires e.Complaint?
  {
    && BaseOf(cat, st, e, m.cases, m.goals, m.base) && m.base < |m.goals|
    && TakenFor(cat, m.goals, st.seqNo + 1, m.base, e.baseFacts, st.facts, m.facts)
    && OverlayOf(cat, st, m.cases, m.goals, m.base, told, m.overlay) && m.overlay < |told.goals|
    && TakenFor(cat, told.goals, st.seqNo + 1, m.overlay, e.facts, m.facts, told.facts)
    && told == st.(seqNo := st.seqNo + 1, goals := told.goals, cases := told.cases, facts := told.facts)
  }

  // ----- the proofs -----

  lemma {:induction false} FoundIsFirst(cases: seq<CaseRecord>, kind: string, ref: string, k: nat, r: nat)
    requires k <= |cases| && FindCase(cases, kind, ref, k) == Some(r)
    ensures k <= r < |cases|
    ensures forall j | k <= j < r :: cases[j].subjectKind != kind || cases[j].subjectRef != ref
    decreases |cases| - k
  {
    if !(cases[k].subjectRef == ref && cases[k].subjectKind == kind) {
      FoundIsFirst(cases, kind, ref, k + 1, r);
    }
  }

  /** A goal that is pushed without suspending anything, not into a given case. */
  lemma PushOpens(cat: Catalogue, st: Conversation, left: Conversation, code: string, opts: PushOptions,
    pushed: Conversation)
    requires left.seqNo == st.seqNo + 1 && left.forbidden == st.forbidden && left.cases == st.cases
    requires opts.createdBy.None? && !opts.suspendParent && !opts.returnToParent
    requires Push(cat, left, code, opts) == Ok(pushed)
    ensures pushed == left.(goals := pushed.goals, cases := pushed.cases)
    ensures |pushed.goals| == |left.goals| + 1 && pushed.goals[..|left.goals|] == left.goals
    ensures var n := |left.goals|;
            && Opened(cat, st, pushed.goals, code, opts.parent, opts.overlayOf, pushed.goals[n].caseId)
            && (opts.reuseCase.None? && CaseOfGoal(left.goals, opts.parent).None? ==>
                  InCaseOf(cat, code, opts.caseRef, st.seqNo + 1, st.cases, pushed.cases, pushed.goals[n].caseId))
            && (opts.reuseCase.Some? ==> pushed.goals[n].caseId == opts.reuseCase && pushed.cases == st.cases)
  {
    var def := GoalOf(cat, code);
    var ref := if opts.caseRef.Some? then opts.caseRef.value else AutomaticRef(code, left.seqNo);
    var found := FindCase(left.cases, def.caseSubject, ref, 0);
    if found.Some? {
      FoundIsFirst(left.cases, def.caseSubject, ref, 0, found.value);
    }
  }

  lemma LeavingIs(goals: seq<GoalRecord>, c: nat, now: nat)
    requires c < |goals|
    ensures Left(goals, AbandonByUser(goals, c, now), c, now)
  {
  }

  /** The goal is pushed, after the one in context was left if the event says so; its facts come next. */
  lemma NewGoalPushes(cat: Catalogue, st: Conversation, c: Option<nat>, e: Event, told: Conversation)
    returns (left: seq<GoalRecord>, pushed: Conversation)
    requires e.NewGoal? && (c.Some? ==> c.value < |st.goals|) && OnNewGoal(cat, Numbered(st), c, e) == Ok(told)
    ensures left == if e.abandonCurrent && c.Some? then AbandonByUser(st.goals, c.value, st.seqNo + 1) else st.goals
    ensures pushed == Numbered(st).(goals := pushed.goals, cases := pushed.cases) && |pushed.goals| == |st.goals| + 1
    ensures pushed.goals[..|st.goals|] == left
    ensures var case_ := pushed.goals[|st.goals|].caseId;
            && Opened(cat, st, pushed.goals, e.goalCode, None, None, case_)
            && InCaseOf(cat, e.goalCode, e.caseRef, st.seqNo + 1, st.cases, pushed.cases, case_)
    ensures RecordFor(cat, pushed, |st.goals|, e.facts) == Ok(told)
  {
    left := if e.abandonCurrent && c.Some? then AbandonByUser(st.goals, c.value, st.seqNo + 1) else st.goals;
    var begun := Numbered(st).(goals := left);
    assert left == st.goals ==> begun == Numbered(st);
    var opts := PLAIN.(caseRef := e.caseRef);
    pushed := Push(cat, begun, e.goalCode, opts).value;
    PushOpens(cat, st, begun, e.goalCode, opts, pushed);
  }

  lemma NewGoalIs(
    cat: Catalogue, rank: map<string, nat>, st: Conversation, e: Event, told: Conversation)
    requires Valid(cat) && Ranked(cat, rank) && FactsOk(cat, rank, st.facts, st.seqNo + 1)
    requires e.NewGoal? && OnNewGoal(cat, Numbered(st), ContextGoal(st.goals), e) == Ok(told)
    ensures NewGoalDone(cat, st, e, told)
  {
    var c := ContextGoal(st.goals);
    ContextIs(st.goals);
    var left, pushed := NewGoalPushes(cat, st, c, e, told);
    if e.abandonCurrent && c.Some? {
      LeavingIs(st.goals, c.value, st.seqNo + 1);
    }
    RecordedFor(cat, rank, pushed, |st.goals|, e.facts, told);
  }

  lemma {:induction false} LastDemandIs(goals: seq<GoalRecord>, n: nat)
    requires n <= |goals|
    ensures var r := LastDemand(goals, n);
            r.Some? ==>
              && goals[r.value].status != ABANDONED && goals[r.value].overlayOf.None?
              && forall j | r.value < j < n :: goals[j].status == ABANDONED || goals[j].overlayOf.Some?
  {
    if n > 0 && !(goals[n - 1].status != ABANDONED && goals[n - 1].overlayOf.None?) {
      LastDemandIs(goals, n - 1);
    }
  }

  lemma ReclassificationIs(cat: Catalogue, st: Conversation, code: string, told: Conversation)
    requires OnReclassification(cat, Numbered(st), ContextGoal(st.goals), code) == Ok(told)
    ensures ReclassificationDone(cat, st, code, told)
  {
    var c := ContextGoal(st.goals);
    ContextIs(st.goals);
    LastDemandIs(st.goals, |st.goals|);
    var i := if c.Some? then c.value else LastDemand(st.goals, |st.goals|).value;
    assert IsDemand(st.goals, i);
  }

  lemma ParallelQuestionIs(
    cat: Catalogue, rank: map<string, nat>, st: Conversation, e: Event, told: Conversation)
    requires Valid(cat) && Ranked(cat, rank) && FactsOk(cat, rank, st.facts, st.seqNo + 1)
    requires e.ParallelQuestion? && OnParallelQuestion(cat, Numbered(st), ContextGoal(st.goals), e) == Ok(told)
    ensures ParallelQuestionDone(cat, st, e, told)
  {
    var begun, c := Numbered(st), ContextGoal(st.goals);
    var parked :=
      if begun.pending.Some? then begun.(parked := begun.parked + [begun.pending.value], pending := None) else begun;
    var opts := PushOptions(c, false, false, None, None, None, CaseOfGoal(st.goals, c));
    var pushed := Push(cat, parked, e.goalCode, opts).value;
    PushOpens(cat, st, parked, e.goalCode, opts, pushed);
    RecordedFor(cat, rank, pushed, |st.goals|, e.facts, told);
    ContextIs(st.goals);
  }

  lemma {:induction false} LastOverlayIs(goals: seq<GoalRecord>, base: nat, n: nat)
    requires n <= |goals|
    ensures var r := LastOverlay(goals, base, n);
            && (r.Some? ==> Complains(goals[r.value], base))
            && forall j | (if r.Some? then r.value + 1 else 0) <= j < n :: !Complains(goals[j], base)
  {
    if n > 0 && !Complains(goals[n - 1], base) {
      LastOverlayIs(goals, base, n - 1);
    }
  }

  lemma OverlayIs(cat: Catalogue, st: Conversation, mid: Conversation, base: nat, next: (Conversation, nat))
    requires mid.seqNo == st.seqNo + 1 && mid.forbidden == st.forbidden && base < |mid.goals|
    requires Overlay(cat, mid, base) == Ok(next)
    ensures OverlayOf(cat, st, mid.cases, mid.goals, base, next.0, next.1)
    ensures next.0 == mid.(goals := next.0.goals, cases := next.0.cases)
  {
    LastOverlayIs(mid.goals, base, |mid.goals|);
    var found := LastOverlay(mid.goals, base, |mid.goals|);
    assert LastComplaint(mid.goals, base, found);
    if found.None? {
      var opts := PushOptions(Some(base), false, false, None, Some(base), None, mid.goals[base].caseId);
      PushOpens(cat, st.(cases := mid.cases), mid, COMPLAINT_GOAL, opts, next.0);
    }
  }

  lemma BaseIs(cat: Catalogue, st: Conversation, e: Event, next: (Conversation, nat))
    requires e.Complaint? && ComplaintBase(cat, Numbered(st), ContextGoal(st.goals), e) == Ok(next)
    ensures BaseOf(cat, st, e, next.0.cases, next.0.goals, next.1)
    ensures next.0 == Numbered(st).(goals := next.0.goals, cases := next.0.cases)
  {
    ContextIs(st.goals);
    if ContextGoal(st.goals).None? {
      PushOpens(cat, st, Numbered(st), e.baseGoal.value, PLAIN.(caseRef := e.caseRef), next.0);
    }
  }

  /** First the base and what is said of it; then the overlay and the rest. */
  lemma ComplaintBegins(
    cat: Catalogue, rank: map<string, nat>, st: Conversation, e: Event, told: Conversation)
    returns (base: (Conversation, nat), mid: Conversation, over: (Conversation, nat))
    requires Valid(cat) && Ranked(cat, rank) && FactsOk(cat, rank, st.facts, st.seqNo + 1)
    requires e.Complaint? && OnComplaint(cat, Numbered(st), ContextGoal(st.goals), e) == Ok(told)
    ensures BaseOf(cat, st, e, base.0.cases, base.0.goals, base.1) && base.1 < |base.0.goals|
    ensures base.0 == Numbered(st).(goals := base.0.goals, cases := base.0.cases)
    ensures TakenFor(cat, base.0.goals, st.seqNo + 1, base.1, e.baseFacts, st.facts, mid.facts)
    ensures mid == base.0.(facts := mid.facts) && FactsOk(cat, rank, mid.facts, st.seqNo + 1)
    ensures OverlayOf(cat, st, mid.cases, mid.goals, base.1, over.0, over.1) && over.1 < |over.0.goals|
    ensures over.0 == mid.(goals := over.0.goals, cases := over.0.cases)
    ensures RecordFor(cat, over.0, over.1, e.facts) == Ok(told)
  {
    base := ComplaintBase(cat, Numbered(st), ContextGoal(st.goals), e).value;
    BaseIs(cat, st, e, base);
    mid := RecordFor(cat, base.0, base.1, e.baseFacts).value;
    RecordedFor(cat, rank, base.0, base.1, e.baseFacts, mid);
    over := Overlay(cat, mid, base.1).value;
    OverlayIs(cat, st, mid, base.1, over);
  }

  lemma ComplaintEnds(
    cat: Catalogue, rank: map<string, nat>, st: Conversation, e: Event, m: Complaining, over: Conversation,
    told: Conversation)
    requires Valid(cat) && Ranked(cat, rank) && FactsOk(cat, rank, m.facts, st.seqNo + 1)
    requires e.Complaint? && BaseOf(cat, st, e, m.cases, m.goals, m.base) && m.base < |m.goals|
    requires TakenFor(cat, m.goals, st.seqNo + 1, m.base, e.baseFacts, st.facts, m.facts)
    requires OverlayOf(cat, st, m.cases, m.goals, m.base, over, m.overlay) && m.overlay < |over.goals|
    requires over == Numbered(st).(goals := over.goals, cases := over.cases, facts := m.facts)
    requires RecordFor(cat, over, m.overlay, e.facts) == Ok(told)
    ensures ComplaintGoes(cat, st, e, m, told)
  {
    RecordedFor(cat, rank, over, m.overlay, e.facts, told);
  }

  lemma ComplaintIs(
    cat: Catalogue, rank: map<string, nat>, st: Conversation, e: Event, told: Conversation)
    requires Valid(cat) && Ranked(cat, rank) && FactsOk(cat, rank, st.facts, st.seqNo + 1)
    requires e.Complaint? && OnComplaint(cat, Numbered(st), ContextGoal(st.goals), e) == Ok(told)
    ensures ComplaintDone(cat, st, e, told)
  {
    var base, mid, over := ComplaintBegins(cat, rank, st, e, told);
    var m := Complaining(base.0.cases, base.0.goals, base.1, mid.facts, over.1);
    ComplaintEnds(cat, rank, st, e, m, over.0, told);
  }

  // ----- the turn -----

  /** What an event does before the conversation settles. */
  ghost predicate Done(cat: Catalogue, st: Conversation, e: Event, told: Conversation) {
    match e
    case NewGoal(_, _, _, _) => NewGoalDone(cat, st, e, told)
    case Reclassification(code) => ReclassificationDone(cat, st, code, told)
    case Complaint(_, _, _, _) => ComplaintDone(cat, st, e, told)
    case ParallelQuestion(_, _) => ParallelQuestionDone(cat, st, e, told)
    case HumanRequest => told == st.(seqNo := st.seqNo + 1, pending := None)
    case Social(close) =>
      told == st.(seqNo := st.seqNo + 1, pending := if close then None else told.pending,
                  parked := if close then st.parked else told.parked)
    case _ => told == st.(seqNo := st.seqNo + 1, facts := told.facts)
  }

  lemma EventIs(cat: Catalogue, rank: map<string, nat>, st: Conversation, e: Event, told: Conversation)
    requires Valid(cat) && Ranked(cat, rank) && FactsOk(cat, rank, st.facts, st.seqNo + 1)
    requires Settles(e) && Take(cat, Numbered(st), e) == Ok(told)
    ensures Done(cat, st, e, told)
  {
    match e
    case NewGoal(_, _, _, _) => NewGoalIs(cat, rank, st, e, told);
    case Reclassification(code) => ReclassificationIs(cat, st, code, told);
    case Complaint(_, _, _, _) => ComplaintIs(cat, rank, st, e, told);
    case ParallelQuestion(_, _) => ParallelQuestionIs(cat, rank, st, e, told);
    case _ =>
  }

  /** A turn does what its event says, and then only what settling does: a chain of moves from there to its end. */
  lemma {:induction false} EventIsDone(
    cat: Catalogue, rank: map<string, nat>, turns: seq<Turn>, e: Event, next: Conversation)
    returns (told: Conversation)
    requires Valid(cat) && Ranked(cat, rank) && Apply(cat, Run(cat, turns), Said(e)) == Ok(next)
    ensures Done(cat, Run(cat, turns), e, told) && Leading(cat, rank, told, next)
  {
    var st := Run(cat, turns);
    ReachableFactsOk(cat, rank, turns);
    LaterOk(cat, rank, st.facts, st.seqNo);
    if Settles(e) {
      told := TurnTakes(cat, st, e, next);
      EventIs(cat, rank, st, e, told);
      FinishLeads(cat, rank, told, next);
    } else {
      told := next;
      IdleTurnIs(cat, st, Said(e));
      RefreshKeeps(cat, Numbered(st));
      StayingLeads(cat, rank, next);
    }
  }

  lemma StayingLeads(cat: Catalogue, rank: map<string, nat>, st: Conversation)
    ensures Leading(cat, rank, st, st)
  {
    assert Leads(cat, rank, [st], st, st);
  }

  lemma FinishLeads(cat: Catalogue, rank: map<string, nat>, told: Conversation, next: Conversation)
    requires Valid(cat) && Ranked(cat, rank) && Finish(cat, told, ROUNDS) == Ok(next)
    ensures Leading(cat, rank, told, next)
  {
    var P := (s: Conversation) => Leading(cat, rank, told, s);
    forall a, b {:trigger Settling(cat, rank, a, b)} | P(a) && Settling(cat, rank, a, b)
      ensures P(b)
    {
      OneMoreMove(cat, rank, told, a, b);
    }
    StayingLeads(cat, rank, told);
    FinishMoves(cat, rank, P, told, ROUNDS);
  }
}
