/** What one effect of a relation does, told from the states before and after. */
module RelationEffects {
  import opened Basics
  import opened Catalog
  import opened State
  import opened Recording
  import opened FactInvariants
  import opened Reducer
  import opened Moves
  import opened Runs
  import opened Clearance
  import opened Outcomes
  import opened Events
  import opened RelationsAtRest

  /** The premises of a derivation are the oldest records of the codes it is from, where goal gi looks for them. */
  ghost predicate Premises(cat: Catalogue, facts: seq<FactRecord>, o: Owner, from: seq<string>, ids: seq<nat>) {
    && (forall c, n: nat | c in from && Oldest(cat, facts, o, c, n) :: n in ids)
    && (forall n <- ids :: exists c <- from :: Oldest(cat, facts, o, c, n))
  }

  /** What a relation records: a conclusion, or what the system states, with the authority it claims. */
  function Stated(cat: Catalogue, e: Effect): Entry
    requires e.AssertDerived? || e.RecordSystem?
  {
    match e
    case AssertDerived(code, value, _) => Entry(code, value, DERIVED_RULE, CONFIRMED, false)
    case RecordSystem(code, value, source, authoritative) =>
      var spec := FactOf(cat, code);
      var gated := spec.authoritativeOnly || value in spec.authoritativeValues;
      Entry(code, value, source, if gated && !authoritative && source != DERIVED_RULE then UNCERTAIN else CONFIRMED,
        authoritative)
  }

  /** A subflow is opened last, in the case of the goal, which is suspended for it if the relation says so. */
  ghost predicate SubflowOpened(
    cat: Catalogue, st: Conversation, gi: nat, e: Effect, relation: string, next: Conversation)
    requires gi < |st.goals| && e.PushGoal?
  {
    var n := |st.goals|;
    && e.goalCode in cat.goals && e.goalCode !in st.forbidden
    && |next.goals| == n + 1
    && next.goals[n] == GoalRecord(e.goalCode, next.goals[n].caseId, ACTIVE, None, Some(gi), None,
                          cat.goals[e.goalCode].informational, e.returnToParent, st.seqNo, None, Some(relation))
    && (if st.goals[gi].caseId.Some? then next.goals[n].caseId == st.goals[gi].caseId && next.cases == st.cases
        else InCaseOf(cat, e.goalCode, None, st.seqNo, st.cases, next.cases, next.goals[n].caseId))
    && next.goals[..n] == (if e.suspendParent
         then st.goals[gi := st.goals[gi].(status := SUSPENDED, reason := Some("SUBFLOW:" + e.goalCode))]
         else st.goals)
    && next == st.(goals := next.goals, cases := next.cases)
  }

  /** An open goal of this code in this case. */
  predicate Superfluous(g: GoalRecord, code: string, caseId: Option<nat>) {
    g.code == code && g.caseId == caseId && g.status in {ACTIVE, SUSPENDED, WAITING}
  }

  /** A superfluous subflow that returns to goal i. */
  ghost predicate FreedBy(goals: seq<GoalRecord>, i: nat, code: string, caseId: Option<nat>, j: nat) {
    && j < |goals| && Superfluous(goals[j], code, caseId) && goals[j].parent == Some(i) && goals[j].returnToParent
  }

  /** The superfluous goals are closed, the goals suspended for them go on, and the others stay. */
  ghost predicate Dispensed(
    a: seq<GoalRecord>, b: seq<GoalRecord>, code: string, caseId: Option<nat>, why: string, now: nat)
  {
    |b| == |a| && forall i: nat | i < |a| :: DispensedAt(a, b[i], i, code, caseId, why, now, |a|)
  }

  /** Goal i once the first k goals were looked at. */
  ghost predicate DispensedAt(
    a: seq<GoalRecord>, h: GoalRecord, i: nat, code: string, caseId: Option<nat>, why: string, now: nat, k: nat)
    requires i < |a|
  {
    if Superfluous(a[i], code, caseId) && i < k then
      h == a[i].(status := ABANDONED, reason := Some(why), closedAt := Some(now))
    else if a[i].status == SUSPENDED && (exists j: nat | j < k :: FreedBy(a, i, code, caseId, j)) then
      h == a[i].(status := ACTIVE, reason := None)
    else h == a[i]
  }

  /** What an effect does when it does something. */
  ghost predicate Does(cat: Catalogue, st: Conversation, gi: nat, e: Effect, relation: string, next: Conversation)
    requires gi < |st.goals|
  {
    var o, g := OwnerOf(st.goals, gi), st.goals[gi];
    match e
    case AssertDerived(code, _, from) =>
      && next == st.(facts := next.facts)
      && exists ids :: Premises(cat, st.facts, o, from, ids)
           && Taken(cat, st.facts, next.facts, st.seqNo, o, Stated(cat, e), DERIVE, ids)
    case RecordSystem(code, _, _, _) =>
      && next == st.(facts := next.facts)
      && Taken(cat, st.facts, next.facts, st.seqNo, o, Stated(cat, e), DERIVE, [])
    case PushGoal(_, _, _) => SubflowOpened(cat, st, gi, e, relation, next)
    case SetStatus(status, reason) =>
      next == st.(goals := st.goals[gi := g.(status := status,
                                        reason := if reason.Some? then reason else Some(relation))])
    case RequireAction(action, executor) =>
      next == st.(actions := st.actions + [PendingAction(action, executor, gi, st.seqNo)])
    case SatisfyDependency(dependency, why) =>
      next == st.(goals := next.goals) && Dispensed(st.goals, next.goals, dependency, g.caseId, why, st.seqNo)
    case NoEffect => false
  }

  // ----- the proofs -----

  lemma {:induction false} FactIdsArePremises(cat: Catalogue, facts: seq<FactRecord>, o: Owner, from: seq<string>)
    ensures Premises(cat, facts, o, from, FactIds(cat, facts, o, from))
  {
    if from != [] {
      FactIdsArePremises(cat, facts, o, from[1..]);
      LiveIsOldest(cat, facts, o, from[0]);
      var ids, rest := FactIds(cat, facts, o, from), FactIds(cat, facts, o, from[1..]);
      forall n | n in ids
        ensures exists c <- from :: Oldest(cat, facts, o, c, n)
      {
        if n in rest {
          var c :| c in from[1..] && Oldest(cat, facts, o, c, n);
          assert c in from;
        } else {
          assert Oldest(cat, facts, o, from[0], n);
        }
      }
      forall c, n: nat | c in from && Oldest(cat, facts, o, c, n)
        ensures n in ids
      {
        assert c == from[0] || c in from[1..];
      }
    }
  }

  /** What a relation records, as the recording reads it. */
  function InputOf(e: Effect): FactInput
    requires e.AssertDerived? || e.RecordSystem?
  {
    if e.AssertDerived? then FactInput(e.code, e.value, Some(DERIVED_RULE), None, false)
    else FactInput(e.code, e.value, Some(e.source), None, e.authoritative)
  }

  lemma RecordIs(
    cat: Catalogue, st: Conversation, gi: nat, e: Effect, relation: string, next: Step, ids: seq<nat>)
    requires gi < |st.goals| && ApplyEffect(cat, st, gi, e, relation) == Ok(next) && next.changed
    requires e.AssertDerived? || e.RecordSystem?
    requires ids == if e.AssertDerived? then FactIds(cat, st.facts, OwnerOf(st.goals, gi), e.from) else []
    ensures next.st == st.(facts := next.st.facts)
    ensures Record(cat, st.goals, st.facts, st.seqNo, OwnerOf(st.goals, gi), InputOf(e), DERIVE, ids)
         == Ok(next.st.facts)
  {
  }

  lemma StatementTakes(
    cat: Catalogue, rank: map<string, nat>, goals: seq<GoalRecord>, a: seq<FactRecord>, now: nat, o: Owner, e: Effect,
    ids: seq<nat>, b: seq<FactRecord>)
    requires Ranked(cat, rank) && FactsOk(cat, rank, a, now) && (e.AssertDerived? || e.RecordSystem?)
    requires Record(cat, goals, a, now, o, InputOf(e), DERIVE, ids) == Ok(b)
    ensures Taken(cat, a, b, now, o, Stated(cat, e), DERIVE, ids)
  {
    assert Admitted(cat, InputOf(e), DERIVE) == Ok(Stated(cat, e));
    InsertTakes(cat, rank, goals, a, now, o, Stated(cat, e), DERIVE, ids);
  }

  lemma DerivationDoes(
    cat: Catalogue, rank: map<string, nat>, st: Conversation, gi: nat, e: Effect, relation: string, next: Step)
    requires Ranked(cat, rank) && FactsOk(cat, rank, st.facts, st.seqNo) && gi < |st.goals|
    requires e.AssertDerived? && ApplyEffect(cat, st, gi, e, relation) == Ok(next) && next.changed
    ensures Does(cat, st, gi, e, relation, next.st)
  {
    var o := OwnerOf(st.goals, gi);
    var ids := FactIds(cat, st.facts, o, e.from);
    RecordIs(cat, st, gi, e, relation, next, ids);
    assert Premises(cat, st.facts, o, e.from, ids) by {
      FactIdsArePremises(cat, st.facts, o, e.from);
    }
    StatementTakes(cat, rank, st.goals, st.facts, st.seqNo, o, e, ids, next.st.facts);
  }

  lemma StatementDoes(
    cat: Catalogue, rank: map<string, nat>, st: Conversation, gi: nat, e: Effect, relation: string, next: Step)
    requires Ranked(cat, rank) && FactsOk(cat, rank, st.facts, st.seqNo) && gi < |st.goals|
    requires e.RecordSystem? && ApplyEffect(cat, st, gi, e, relation) == Ok(next) && next.changed
    ensures Does(cat, st, gi, e, relation, next.st)
  {
    RecordIs(cat, st, gi, e, relation, next, []);
    StatementTakes(cat, rank, st.goals, st.facts, st.seqNo, OwnerOf(st.goals, gi), e, [], next.st.facts);
  }

  lemma SubflowDoes(cat: Catalogue, st: Conversation, gi: nat, e: Effect, relation: string, next: Step)
    requires gi < |st.goals| && e.PushGoal? && ApplyEffect(cat, st, gi, e, relation) == Ok(next) && next.changed
    ensures Does(cat, st, gi, e, relation, next.st)
  {
    var def, ref := GoalOf(cat, e.goalCode), AutomaticRef(e.goalCode, st.seqNo);
    var found := FindCase(st.cases, def.caseSubject, ref, 0);
    if found.Some? {
      FoundIsFirst(st.cases, def.caseSubject, ref, 0, found.value);
    }
  }

  lemma DispensingStep(
    a: seq<GoalRecord>, mid: seq<GoalRecord>, next: seq<GoalRecord>, code: string, caseId: Option<nat>, why: string,
    now: nat, k: nat, i: nat)
    requires k < |a| == |mid| && i < |a|
    requires DispensedAt(a, mid[i], i, code, caseId, why, now, k)
    requires DispensedAt(a, mid[k], k, code, caseId, why, now, k)
    requires next == if Superfluous(mid[k], code, caseId) then AbandonOne(mid, k, why, now) else mid
    ensures |next| == |a| && DispensedAt(a, next[i], i, code, caseId, why, now, k + 1)
  {
    assert Superfluous(mid[k], code, caseId) <==> Superfluous(a[k], code, caseId);
    if FreedBy(a, i, code, caseId, k) {
    } else {
      assert (exists j: nat | j < k + 1 :: FreedBy(a, i, code, caseId, j))
        <==> exists j: nat | j < k :: FreedBy(a, i, code, caseId, j);
    }
  }

  lemma {:induction false} AbandoningDispenses(
    a: seq<GoalRecord>, mid: seq<GoalRecord>, code: string, caseId: Option<nat>, why: string, now: nat, k: nat,
    changed: bool)
    requires k <= |a| == |mid|
    requires forall i: nat | i < |a| :: DispensedAt(a, mid[i], i, code, caseId, why, now, k)
    ensures Dispensed(a, AbandonFrom(mid, code, caseId, why, now, k, changed).0, code, caseId, why, now)
    decreases |a| - k
  {
    if k < |a| {
      var next := if Superfluous(mid[k], code, caseId) then AbandonOne(mid, k, why, now) else mid;
      forall i: nat | i < |a|
        ensures DispensedAt(a, next[i], i, code, caseId, why, now, k + 1)
      {
        DispensingStep(a, mid, next, code, caseId, why, now, k, i);
      }
      AbandoningDispenses(a, next, code, caseId, why, now, k + 1,
        changed || Superfluous(mid[k], code, caseId));
    }
  }

  lemma DispensationDoes(cat: Catalogue, st: Conversation, gi: nat, e: Effect, relation: string, next: Step)
    requires gi < |st.goals| && e.SatisfyDependency? && ApplyEffect(cat, st, gi, e, relation) == Ok(next)
    ensures Does(cat, st, gi, e, relation, next.st)
  {
    forall i: nat | i < |st.goals|
      ensures DispensedAt(st.goals, st.goals[i], i, e.dependency, st.goals[gi].caseId, e.why, st.seqNo, 0)
    {
    }
    AbandoningDispenses(st.goals, st.goals, e.dependency, st.goals[gi].caseId, e.why, st.seqNo, 0, false);
  }

  /** An effect is left alone exactly when what it asks for holds already; otherwise it does what it says. */
  lemma EffectDoes(
    cat: Catalogue, rank: map<string, nat>, st: Conversation, gi: nat, e: Effect, relation: string, next: Step)
    requires Ranked(cat, rank) && FactsOk(cat, rank, st.facts, st.seqNo) && gi < |st.goals|
    requires ApplyEffect(cat, st, gi, e, relation) == Ok(next)
    ensures if Achieved(cat, st, gi, e, relation) then next == Step(st, false)
            else next.changed && Does(cat, st, gi, e, relation, next.st)
  {
    if !next.changed {
      EffectIsAchieved(cat, st, gi, e, relation, next);
    } else {
      if Achieved(cat, st, gi, e, relation) {
        AchievedIsLeft(cat, st, gi, e, relation, next);
      }
      match e
      case AssertDerived(_, _, _) => DerivationDoes(cat, rank, st, gi, e, relation, next);
      case RecordSystem(_, _, _, _) => StatementDoes(cat, rank, st, gi, e, relation, next);
      case PushGoal(_, _, _) => SubflowDoes(cat, st, gi, e, relation, next);
      case SatisfyDependency(_, _) => DispensationDoes(cat, st, gi, e, relation, next);
      case _ =>
    }
  }

  // ----- a goal that resolves -----

  /** The states from before the first effect to after the last: each does something, or is left alone because
      what it asks for holds. */
  ghost predicate EffectsRun(
    cat: Catalogue, gi: nat, effects: seq<Effect>, relation: string, ss: seq<Conversation>)
  {
    && |ss| == |effects| + 1
    && forall k | 0 <= k < |effects| ::
         gi < |ss[k].goals| && EffectRuns(cat, ss[k], gi, effects[k], relation, ss[k + 1])
  }

  ghost predicate EffectRuns(
    cat: Catalogue, st: Conversation, gi: nat, e: Effect, relation: string, next: Conversation)
    requires gi < |st.goals|
  {
    if Achieved(cat, st, gi, e, relation) then next == st else Does(cat, st, gi, e, relation, next)
  }

  lemma {:induction false} EffectsDo(
    cat: Catalogue, rank: map<string, nat>, st: Conversation, gi: nat, r: Relation, effects: seq<Effect>,
    changed: bool, last: Step)
    returns (ss: seq<Conversation>)
    requires Valid(cat) && Ranked(cat, rank) && FactsOk(cat, rank, st.facts, st.seqNo) && gi < |st.goals|
    requires r in cat.relations && forall e | e in effects :: e in r.effects || e in r.onChildResolved
    requires ApplyEffects(cat, st, gi, effects, r.code, changed) == Ok(last)
    ensures EffectsRun(cat, gi, effects, r.code, ss) && ss[0] == st && ss[|effects|] == last.st
    decreases |effects|
  {
    if effects == [] {
      ss := [st];
    } else {
      var next := ApplyEffect(cat, st, gi, effects[0], r.code).value;
      EffectDoes(cat, rank, st, gi, effects[0], r.code, next);
      EffectKeepsFacts(cat, rank, st, gi, r, effects[0], next);
      var rest := EffectsDo(cat, rank, next.st, gi, r, effects[1..], changed || next.changed, last);
      ss := [st] + rest;
      OneMoreEffect(cat, gi, effects, r.code, st, rest);
    }
  }

  lemma EffectKeepsFacts(
    cat: Catalogue, rank: map<string, nat>, st: Conversation, gi: nat, r: Relation, e: Effect, next: Step)
    requires Valid(cat) && Ranked(cat, rank) && FactsOk(cat, rank, st.facts, st.seqNo) && gi < |st.goals|
    requires r in cat.relations && (e in r.effects || e in r.onChildResolved)
    requires ApplyEffect(cat, st, gi, e, r.code) == Ok(next)
    ensures FactsOk(cat, rank, next.st.facts, next.st.seqNo)
  {
    var P := (s: Conversation) => FactsOk(cat, rank, s.facts, s.seqNo);
    forall a, b {:trigger Settling(cat, rank, a, b)} | P(a) && Settling(cat, rank, a, b)
      ensures P(b)
    {
      MoveKeepsFacts(cat, rank, a, b);
    }
    EffectMoves(cat, rank, P, st, gi, r, e, r.code);
  }

  lemma OneMoreEffect(
    cat: Catalogue, gi: nat, effects: seq<Effect>, relation: string, st: Conversation, rest: seq<Conversation>)
    requires effects != [] && gi < |st.goals| && EffectsRun(cat, gi, effects[1..], relation, rest)
    requires EffectRuns(cat, st, gi, effects[0], relation, rest[0])
    ensures EffectsRun(cat, gi, effects, relation, [st] + rest)
  {
    var ss := [st] + rest;
    forall k | 0 <= k < |effects|
      ensures gi < |ss[k].goals| && EffectRuns(cat, ss[k], gi, effects[k], relation, ss[k + 1])
    {
      if k > 0 {
        assert effects[1..][k - 1] == effects[k] && ss[k] == rest[k - 1] && ss[k + 1] == rest[k];
        assert EffectRuns(cat, rest[k - 1], gi, effects[1..][k - 1], relation, rest[k - 1 + 1]);
      }
    }
  }

  /** The first relation with the code, whose subflow goal gi is. */
  ghost predicate CreatedBy(cat: Catalogue, g: GoalRecord, k: nat) {
    && k < |cat.relations| && g.createdBy == Some(cat.relations[k].code)
    && forall j | 0 <= j < k :: g.createdBy != Some(cat.relations[j].code)
  }

  lemma {:induction false} FoundRelationIsFirst(relations: seq<Relation>, code: string) returns (k: nat)
    ensures var r := FindRelation(relations, code);
            if r.None? then forall j | 0 <= j < |relations| :: relations[j].code != code
            else k < |relations| && relations[k] == r.value && relations[k].code == code
                 && forall j | 0 <= j < k :: relations[j].code != code
  {
    k := 0;
    if relations != [] && relations[0].code != code {
      k := FoundRelationIsFirst(relations[1..], code);
      k := k + 1;
      assert forall j | 1 <= j < |relations| :: relations[j] == relations[1..][j - 1];
    }
  }

  /** What a goal that resolves does: it is closed, the relation that opened it has its effects on the parent, and
      the parent goes on if it is suspended still and the goal returns to it. */
  ghost predicate Resolves(
    cat: Catalogue, st: Conversation, gi: nat, told: Conversation, next: Conversation)
    requires gi < |st.goals|
  {
    var g := st.goals[gi];
    var closed := st.(goals := st.goals[gi := g.(status := RESOLVED, closedAt := Some(st.seqNo))]);
    && (if g.parent.Some? && g.parent.value < |st.goals| && (exists k: nat :: CreatedBy(cat, g, k)) then
          exists k: nat, ss: seq<Conversation> :: CreatedBy(cat, g, k) && |ss| == |cat.relations[k].onChildResolved| + 1
            && EffectsRun(cat, g.parent.value, cat.relations[k].onChildResolved, cat.relations[k].code, ss)
            && ss[0] == closed && ss[|ss| - 1] == told
        else told == closed)
    && |told.goals| >= |st.goals| && next == told.(goals := next.goals) && |next.goals| == |told.goals|
    && forall i | 0 <= i < |told.goals| ::
         next.goals[i] == if told.goals[gi].parent == Some(i) && told.goals[gi].returnToParent
                             && told.goals[i].status == SUSPENDED
                          then told.goals[i].(status := ACTIVE, reason := None) else told.goals[i]
  }

  lemma ResolvingDoes(
    cat: Catalogue, rank: map<string, nat>, st: Conversation, gi: nat, next: Conversation) returns (told: Conversation)
    requires Valid(cat) && Ranked(cat, rank) && FactsOk(cat, rank, st.facts, st.seqNo) && gi < |st.goals|
    requires ResolveOne(cat, st, gi) == Ok(next)
    ensures Resolves(cat, st, gi, told, next)
  {
    var g, closed := st.goals[gi], MarkResolved(st, gi);
    told := Tell(cat, closed, gi).value;
    var relation := if g.createdBy.Some? then FindRelation(cat.relations, g.createdBy.value) else None;
    if g.createdBy.Some? {
      var k := FoundRelationIsFirst(cat.relations, g.createdBy.value);
      if relation.Some? && g.parent.Some? && g.parent.value < |st.goals| {
        var r := relation.value;
        var step := ApplyEffects(cat, closed, g.parent.value, r.onChildResolved, r.code, false).value;
        var ss := EffectsDo(cat, rank, closed, g.parent.value, r, r.onChildResolved, false, step);
        assert CreatedBy(cat, g, k) && ss[|ss| - 1] == told;
      }
    }
  }
}
