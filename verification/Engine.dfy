/**
 The engine as the program has it: one object whose methods change its fields
 step by step. Every method is proved to do what the reducer specifies.
 */
module Engine {
  import opened Basics
  import opened Catalog
  import opened State
  import opened Goals
  import C = Cascade
  import F = Recording
  import R = Reducer

  class Conversing {
    const cat: Catalogue
    var seqNo: nat
    var cases: seq<CaseRecord>
    var goals: seq<GoalRecord>
    var facts: seq<FactRecord>
    var pending: Option<QuestionRef>
    var parked: seq<QuestionRef>
    var actions: seq<PendingAction>
    var forbidden: set<string>

    function View(): Conversation
      reads this
    {
      Conversation(seqNo, cases, goals, facts, pending, parked, actions, forbidden)
    }

    /** A fresh engine, or the clone of a state. */
    constructor (cat: Catalogue, st: Conversation)
      ensures this.cat == cat && View() == st
    {
      this.cat := cat;
      seqNo, cases, goals, facts := st.seqNo, st.cases, st.goals, st.facts;
      pending, parked, actions, forbidden := st.pending, st.parked, st.actions, st.forbidden;
    }

    // ----- facts -----

    /** The recursion ends because each fact it supersedes leaves the active ones. */
    method Supersede(i: nat, why: Supersession, successor: Option<nat>, ghost alive: set<int>)
      requires i < |facts| && C.ActiveSet(facts) - {i} <= alive
      modifies this`facts
      ensures facts == C.Supersede(cat, goals, old(facts), seqNo, i, why, successor)
      decreases alive, 3
    {
      facts := facts[i := C.Mark(facts[i], why, seqNo, successor)];
      InvalidateDependents(i, alive);
    }

    /** Whatever was derived from the fact, then whatever depends on its code. */
    method InvalidateDependents(src: nat, ghost alive: set<int>)
      requires src < |facts| && C.ActiveSet(facts) <= alive
      modifies this`facts
      ensures facts == C.Invalidate(cat, goals, old(facts), seqNo, src)
      decreases alive, 2
    {
      var n := |facts|;
      Sweep(src, 0, n, alive);
      Sweep(src, n, 2 * n, alive);
    }

    /** One loop over the facts: positions below their number look at derivations,
        the others at dependencies. */
    method Sweep(src: nat, lo: nat, hi: nat, ghost alive: set<int>)
      requires src < |facts| && lo <= hi <= 2 * |facts| && C.ActiveSet(facts) <= alive
      modifies this`facts
      ensures |facts| == old(|facts|) && C.ActiveSet(facts) <= alive
      ensures C.Sweep(cat, goals, facts, seqNo, src, hi) == old(C.Sweep(cat, goals, facts, seqNo, src, lo))
      decreases alive, 1
    {
      ghost var after := C.Sweep(cat, goals, facts, seqNo, src, lo);
      for p := lo to hi
        invariant |facts| == old(|facts|) && C.ActiveSet(facts) <= alive
        invariant C.Sweep(cat, goals, facts, seqNo, src, p) == after
      {
        Strike(src, p, alive);
      }
    }

    /** One step of the two loops. */
    method Strike(src: nat, p: nat, ghost alive: set<int>)
      requires src < |facts| && p < 2 * |facts| && C.ActiveSet(facts) <= alive
      modifies this`facts
      ensures |facts| == old(|facts|) && C.ActiveSet(facts) <= alive
      ensures C.Sweep(cat, goals, facts, seqNo, src, p + 1) == old(C.Sweep(cat, goals, facts, seqNo, src, p))
      decreases alive, 0
    {
      C.StrikeSupersedes(cat, goals, facts, seqNo, src, p);
      if C.Hit(cat, goals, facts, src, p) {
        var i := C.At(|facts|, p);
        Supersede(i, DEPENDENCY_INVALIDATED, None, alive - {i});
      }
    }

    /** The loop that sets every competing value aside. */
    method SupersedeEach(ids: seq<nat>, keep: Option<nat>, why: Supersession, successor: nat)
      requires forall x | 0 <= x < |ids| :: ids[x] < |facts|
      modifies this`facts
      ensures facts == F.SupersedeEach(cat, goals, old(facts), seqNo, ids, keep, why, successor)
    {
      var k := 0;
      while k < |ids|
        invariant k <= |ids| && |facts| == old(|facts|)
        invariant F.SupersedeEach(cat, goals, facts, seqNo, ids[k..], keep, why, successor)
               == old(F.SupersedeEach(cat, goals, facts, seqNo, ids, keep, why, successor))
      {
        assert ids[k..][0] == ids[k] && ids[k..][1..] == ids[k + 1..];
        if keep != Some(ids[k]) {
          Supersede(ids[k], why, Some(successor), C.ActiveSet(facts));
        }
        k := k + 1;
      }
    }

    method RecordFact(goal: Option<nat>, input: F.FactInput, mode: F.Mode, derivedFrom: seq<nat>)
      returns (r: Result<(), Refusal>)
      requires goal.Some? ==> goal.value < |goals|
      modifies this`facts
      ensures var spec := old(F.Record(cat, goals, facts, seqNo, OwnerFor(goals, goal), input, mode, derivedFrom));
              if r.Ok? then spec == Ok(facts) else spec == Err(r.error) && facts == old(facts)
    {
      var owner := OwnerFor(goals, goal);
      var e :- F.Admitted(cat, input, mode);
      var existing := Live(cat, facts, KeyFor(cat, e.code, owner));
      var same := F.WithValue(facts, existing, e.value);
      var repeatable := FactOf(cat, e.code).repeatable;
      if same.Some? && repeatable {
        return Ok(());
      }
      if same.Some? && !(e.authoritative && !facts[same.value].authoritative) {
        SupersedeEach(existing, same, F.ReaffirmReason(e, mode), same.value);
        facts := facts[same.value := F.Rated(facts[same.value], e)];
        return Ok(());
      }
      Admit(existing, same, owner, e, mode, derivedFrom);
      return Ok(());
    }

    /** The part of the recording that pushes a new record. */
    method Admit(
      existing: seq<nat>, same: Option<nat>, owner: Owner, e: F.Entry, mode: F.Mode, derivedFrom: seq<nat>)
      requires same.Some? ==> same.value < |facts|
      requires forall x | 0 <= x < |existing| :: existing[x] < |facts|
      modifies this`facts
      ensures facts == F.Admit(cat, goals, old(facts), seqNo, existing, same, owner, e, mode, derivedFrom)
    {
      if same.Some? {
        Supersede(same.value, SYSTEM_REPLACEMENT, None, C.ActiveSet(facts));
      }
      var fact := F.NewFact(cat, owner, e, seqNo, derivedFrom);
      var id := |facts|;
      if existing != [] && !FactOf(cat, e.code).repeatable {
        var incumbent := existing[0];
        if mode != F.ASSERT {
          SupersedeEach(existing, None, F.ReasonOf(e, mode), id);
        } else if facts[incumbent].confidence == CONFIRMED {
          facts := facts[incumbent := facts[incumbent].(confidence := CONFLICTING, conflictsWith := Some(id))];
          fact := fact.(confidence := CONFLICTING, conflictsWith := Some(incumbent));
          InvalidateDependents(incumbent, C.ActiveSet(facts));
        } else {
          Supersede(incumbent, SYSTEM_REPLACEMENT, Some(id), C.ActiveSet(facts));
        }
      }
      facts := facts + [fact];
    }

    // ----- reading -----

    /** What goal gi misses, in the order of its definition. */
    method MissingOf(gi: nat) returns (out: seq<Missing>)
      requires gi < |goals|
      ensures out == MissingFacts(cat, facts, goals, gi)
    {
      var def := GoalOf(cat, goals[gi].code);
      var owner := OwnerOf(goals, gi);
      var codes := def.required + def.completion;
      out := [];
      for k := 0 to |codes|
        invariant MissingFrom(cat, facts, owner, def, codes, k, out)
            == MissingFrom(cat, facts, owner, def, codes, 0, [])
      {
        if codes[k] in def.completion && out != [] {
          continue;
        }
        var gap := GapOf(cat, facts, owner, def, codes[k]);
        if gap.Some? {
          out := out + [gap.value];
        }
      }
    }

    /** A conflict first; otherwise the first of the lowest priority rank. */
    static method BestOf(missing: seq<Missing>) returns (best: Option<Missing>)
      ensures best == Best(missing)
    {
      if missing == [] {
        return None;
      }
      var conflict := FirstConflicting(missing);
      if conflict.Some? {
        return conflict;
      }
      var lowest := missing[0];
      for k := 0 to |missing|
        invariant Lowest(missing[k..], lowest) == Lowest(missing, missing[0])
      {
        assert missing[k..][0] == missing[k] && missing[k..][1..] == missing[k + 1..];
        if Rank(missing[k].priority) < Rank(lowest.priority) {
          lowest := missing[k];
        }
      }
      best := Some(lowest);
    }

    /** The focus if it declares the fact, else the topmost open goal of its case that does. */
    method OwnerGoalForFact(code: string, focus: Option<nat>) returns (owner: Option<nat>)
      requires focus.Some? ==> focus.value < |goals|
      ensures owner == OwnerGoal(cat, goals, code, focus)
    {
      if focus.Some? && Declares(GoalOf(cat, goals[focus.value].code), code) {
        return focus;
      }
      ghost var caseId := if focus.Some? then Some(goals[focus.value].caseId) else None;
      var n: nat := |goals|;
      while n > 0
        invariant n <= |goals|
        invariant DeclaringGoal(cat, goals, code, caseId, n) == DeclaringGoal(cat, goals, code, caseId, |goals|)
      {
        n := n - 1;
        if goals[n].status !in OPEN {
          continue;
        }
        if focus.Some? && goals[n].caseId != goals[focus.value].caseId {
          continue;
        }
        if Declares(GoalOf(cat, goals[n].code), code) {
          return Some(n);
        }
      }
      owner := focus;
    }

    // ----- goals -----

    method PushGoal(code: string, opts: R.PushOptions) returns (r: Result<(), Refusal>)
      modifies this
      ensures var spec := old(R.Push(cat, View(), code, opts));
              if r.Ok? then spec == Ok(View()) else spec == Err(r.error)
    {
      if code !in cat.goals {
        return Err(UnknownGoal(code));
      }
      if code in forbidden {
        return Err(GoalForbidden(code));
      }
      var def := cat.goals[code];
      var caseId := opts.reuseCase;
      if def.createsCase && opts.reuseCase.None? {
        var ref := if opts.caseRef.Some? then opts.caseRef.value else R.AutomaticRef(code, seqNo);
        caseId := R.FindCase(cases, def.caseSubject, ref, 0);
        if caseId.None? {
          caseId := Some(|cases|);
          cases := cases + [CaseRecord(def.caseSubject, ref, seqNo)];
        }
      } else if caseId.None? {
        caseId := CaseOfGoal(goals, opts.parent);
      }
      var p := opts.parent;
      if p.Some? && p.value < |goals| && opts.suspendParent {
        goals := goals[p.value := goals[p.value].(status := SUSPENDED, reason := Some("SUBFLOW:" + code))];
      }
      goals := goals + [GoalRecord(code, caseId, ACTIVE, None, p, opts.overlayOf,
        def.informational, opts.returnToParent, seqNo, None, opts.createdBy)];
      return Ok(());
    }

    /** Every open goal of the code and case is abandoned, its parent resumed. */
    method SatisfyDependency(dependency: string, caseId: Option<nat>, why: string) returns (changed: bool)
      modifies this`goals
      ensures (goals, changed) == R.AbandonFrom(old(goals), dependency, caseId, why, seqNo, 0, false)
    {
      changed := false;
      var n := |goals|;
      for k := 0 to n
        invariant |goals| == n
        invariant R.AbandonFrom(goals, dependency, caseId, why, seqNo, k, changed)
               == R.AbandonFrom(old(goals), dependency, caseId, why, seqNo, 0, false)
      {
        if !R.Abandons(goals[k], dependency, caseId) {
          continue;
        }
        goals := goals[k := goals[k].(status := ABANDONED, reason := Some(why), closedAt := Some(seqNo))];
        var p := goals[k].parent;
        if p.Some? && p.value < n && goals[p.value].status == SUSPENDED && goals[k].returnToParent {
          goals := goals[p.value := goals[p.value].(status := ACTIVE, reason := None)];
        }
        changed := true;
      }
    }

    method ApplyEffect(gi: nat, e: Effect, relation: string) returns (r: Result<bool, Refusal>)
      requires gi < |goals|
      modifies this
      ensures var spec := old(R.ApplyEffect(cat, View(), gi, e, relation));
              if r.Ok? then spec == Ok(R.Step(View(), r.value)) else spec == Err(r.error)
    {
      var owner := OwnerOf(goals, gi);
      match e {
        case AssertDerived(code, value, from) =>
          if R.AlreadyHolds(cat, facts, owner, code, value) {
            return Ok(false);
          }
          var _ :- RecordFact(Some(gi), F.FactInput(code, value, Some(DERIVED_RULE), None, false), F.DERIVE,
            R.FactIds(cat, facts, owner, from));
          return Ok(true);
        case RecordSystem(code, value, source, authoritative) =>
          if R.AlreadyHolds(cat, facts, owner, code, value) {
            return Ok(false);
          }
          var _ :- RecordFact(Some(gi), F.FactInput(code, value, Some(source), None, authoritative), F.DERIVE, []);
          return Ok(true);
        case PushGoal(code, suspendParent, returnToParent) =>
          if code in forbidden || R.AlreadyPushed(goals, code, relation, goals[gi].caseId) {
            return Ok(false);
          }
          var _ :- this.PushGoal(code,
            R.PushOptions(Some(gi), suspendParent, returnToParent, Some(relation), None, None, goals[gi].caseId));
          return Ok(true);
        case SetStatus(status, reason) =>
          if goals[gi].status == status || goals[gi].status in {RESOLVED, ABANDONED} {
            return Ok(false);
          }
          goals := goals[gi := goals[gi].(status := status, reason := if reason.Some? then reason else Some(relation))];
          return Ok(true);
        case RequireAction(action, executor) =>
          if R.HasAction(actions, action, gi) {
            return Ok(false);
          }
          actions := actions + [PendingAction(action, executor, gi, seqNo)];
          return Ok(true);
        case SatisfyDependency(dependency, why) =>
          var changed := this.SatisfyDependency(dependency, goals[gi].caseId, why);
          return Ok(changed);
        case NoEffect =>
          return Ok(false);
      }
    }

    method ApplyEffects(gi: nat, effects: seq<Effect>, relation: string) returns (r: Result<bool, Refusal>)
      requires gi < |goals|
      modifies this
      ensures var spec := old(R.ApplyEffects(cat, View(), gi, effects, relation, false));
              if r.Ok? then spec == Ok(R.Step(View(), r.value)) else spec == Err(r.error)
    {
      var changed := false;
      ghost var whole := R.ApplyEffects(cat, View(), gi, effects, relation, false);
      for k := 0 to |effects|
        invariant gi < |goals|
        invariant R.ApplyEffects(cat, View(), gi, effects[k..], relation, changed) == whole
      {
        assert effects[k..][0] == effects[k] && effects[k..][1..] == effects[k + 1..];
        var step :- ApplyEffect(gi, effects[k], relation);
        changed := changed || step;
      }
      return Ok(changed);
    }

    // ----- relations -----

    /** One relation, for the goals that match it when its turn comes. The flag
        says whether the pass has changed anything so far. */
    method ApplyRelation(rel: Relation, w: When, before: bool) returns (r: Result<bool, Refusal>)
      modifies this
      ensures var spec := old(R.ApplyTargets(cat, View(), rel, w, R.TargetsFrom(goals, w, 0), before));
              if r.Ok? then spec == Ok(R.Step(View(), r.value)) else spec == Err(r.error)
    {
      var targets := R.TargetsFrom(goals, w, 0);
      var changed := before;
      ghost var whole := R.ApplyTargets(cat, View(), rel, w, targets, before);
      for k := 0 to |targets|
        invariant |old(goals)| <= |goals|
        invariant R.ApplyTargets(cat, View(), rel, w, targets[k..], changed) == whole
      {
        assert targets[k..][0] == targets[k] && targets[k..][1..] == targets[k + 1..];
        if !ConditionsHold(cat, facts, OwnerOf(goals, targets[k]), w.conditions) {
          continue;
        }
        var step :- ApplyEffects(targets[k], rel.effects, rel.code);
        changed := changed || step;
      }
      return Ok(changed);
    }

    method ApplyRelations() returns (r: Result<bool, Refusal>)
      modifies this
      ensures var spec := old(R.RelationsFrom(cat, View(), 0, false));
              if r.Ok? then spec == Ok(R.Step(View(), r.value)) else spec == Err(r.error)
    {
      var changed := false;
      ghost var whole := R.RelationsFrom(cat, View(), 0, false);
      for k := 0 to |cat.relations|
        invariant R.RelationsFrom(cat, View(), k, changed) == whole
      {
        if cat.relations[k].when.None? {
          continue;
        }
        changed :- ApplyRelation(cat.relations[k], cat.relations[k].when.value, changed);
      }
      return Ok(changed);
    }

    /** Goals without a gap are resolved, from the top of the stack. */
    method ResolveCompletedGoals(before: bool) returns (r: Result<bool, Refusal>)
      modifies this
      ensures var spec := old(R.ResolveFrom(cat, View(), |goals|, before));
              if r.Ok? then spec == Ok(R.Step(View(), r.value)) else spec == Err(r.error)
    {
      var changed := before;
      ghost var whole := R.ResolveFrom(cat, View(), |goals|, before);
      for n := |goals| downto 0
        invariant n <= |goals|
        invariant R.ResolveFrom(cat, View(), n, changed) == whole
      {
        changed :- ResolveNext(n, changed);
      }
      return Ok(changed);
    }

    /** One goal of the loop: what is left is the pass over the goals below it. */
    method ResolveNext(n: nat, changed: bool) returns (r: Result<bool, Refusal>)
      requires n < |goals|
      modifies this
      ensures var spec := old(R.ResolveFrom(cat, View(), n + 1, changed));
              if r.Ok? then n <= |goals| && spec == R.ResolveFrom(cat, View(), n, r.value) else spec == Err(r.error)
    {
      R.ResolveFromStep(cat, View(), n + 1, changed);
      var resolved :- ResolveIfComplete(n);
      return Ok(changed || resolved);
    }

    method ResolveIfComplete(gi: nat) returns (r: Result<bool, Refusal>)
      requires gi < |goals|
      modifies this
      ensures var spec := old(R.ResolveAt(cat, View(), gi));
              if r.Ok? then spec == Ok(R.Step(View(), r.value)) else spec == Err(r.error)
    {
      if goals[gi].status != ACTIVE {
        return Ok(false);
      }
      var missing := MissingOf(gi);
      if missing != [] || GoalOf(cat, goals[gi].code).explicitHandoff {
        return Ok(false);
      }
      var _ :- Resolve(gi);
      return Ok(true);
    }

    method Resolve(gi: nat) returns (r: Result<(), Refusal>)
      requires gi < |goals|
      modifies this
      ensures var spec := old(R.ResolveOne(cat, View(), gi));
              if r.Ok? then spec == Ok(View()) else spec == Err(r.error)
    {
      goals := goals[gi := goals[gi].(status := RESOLVED, closedAt := Some(seqNo))];
      var _ :- Tell(gi);
      var p := goals[gi].parent;
      if p.Some? && p.value < |goals| && goals[gi].returnToParent && goals[p.value].status == SUSPENDED {
        goals := goals[p.value := goals[p.value].(status := ACTIVE, reason := None)];
      }
      return Ok(());
    }

    /** The relation that created goal gi has its effects on the parent. */
    method Tell(gi: nat) returns (r: Result<(), Refusal>)
      requires gi < |goals|
      modifies this
      ensures var spec := old(R.Tell(cat, View(), gi));
              if r.Ok? then spec == Ok(View()) else spec == Err(r.error)
    {
      var g := goals[gi];
      if g.createdBy.Some? {
        var relation := R.FindRelation(cat.relations, g.createdBy.value);
        if relation.Some? && g.parent.Some? && g.parent.value < |goals| {
          var _ :- ApplyEffects(g.parent.value, relation.value.onChildResolved, relation.value.code);
        }
      }
      return Ok(());
    }

    /** Passes until one changes nothing; the program allows twelve. */
    method EvaluateRelations(limit: nat) returns (r: Result<(), Refusal>)
      modifies this
      ensures var spec := old(R.Evaluate(cat, View(), limit));
              if r.Ok? then spec == Ok(View()) else spec == Err(r.error)
    {
      ghost var whole := R.Evaluate(cat, View(), limit);
      for i := 0 to limit
        invariant R.Evaluate(cat, View(), limit - i) == whole
      {
        var changed :- ApplyRelations();
        changed :- ResolveCompletedGoals(changed);
        if !changed {
          return Ok(());
        }
      }
      return Err(RelationsDiverge);
    }

    // ----- gaps and settling -----

    method SyncAuthoritativeGaps()
      modifies this
      ensures View() == old(R.SyncFrom(cat, View(), 0))
    {
      ghost var whole := R.SyncFrom(cat, View(), 0);
      var n := |goals|;
      for k := 0 to n
        invariant |goals| == n
        invariant R.SyncFrom(cat, View(), k) == whole
      {
        SyncGap(k);
      }
    }

    /** Goal k waits while an authoritative gap blocks it, and only then. */
    method SyncGap(k: nat)
      requires k < |goals|
      modifies this
      ensures View() == old(R.SyncGoal(cat, View(), k))
    {
      if goals[k].status !in {ACTIVE, WAITING} {
        return;
      }
      var missing := MissingOf(k);
      var gap := BestOf(missing);
      if gap.Some? && gap.value.authoritative && gap.value.code in cat.resolutions {
        var blocking := cat.resolutions[gap.value.code];
        goals := goals[k := goals[k].(status := WAITING, reason := Some("AWAITING:" + blocking.action))];
        actions := R.KeepOnly(actions, k, Some(blocking.action));
        if !R.HasAction(actions, blocking.action, k) {
          actions := actions + [PendingAction(blocking.action, blocking.executor, k, seqNo)];
        }
        if pending.Some? && pending.value.goalId == k && !R.StillValid(cat, View(), pending.value) {
          parked := parked + [pending.value];
          pending := None;
        }
      } else if goals[k].status == WAITING {
        goals := goals[k := goals[k].(status := ACTIVE, reason := None)];
        actions := R.KeepOnly(actions, k, None);
      }
    }

    /** A goal resolved earlier that lost one of its facts in this turn is open again. */
    method ReopenGoals()
      modifies this`goals
      ensures View() == old(R.ReopenFrom(cat, View(), 0))
    {
      ghost var whole := R.ReopenFrom(cat, View(), 0);
      var n := |goals|;
      for k := 0 to n
        invariant |goals| == n
        invariant R.ReopenFrom(cat, View(), k) == whole
      {
        if goals[k].status != RESOLVED {
          continue;
        }
        var missing := MissingOf(k);
        if missing == [] || !exists i | 0 <= i < |facts| :: R.Invalidates(cat, View(), k, facts[i]) {
          continue;
        }
        Reopen(k);
      }
    }

    method Reopen(k: nat)
      requires k < |goals|
      modifies this`goals
      ensures goals == R.ReopenOne(old(goals), k)
    {
      var g := goals[k];
      goals := goals[k := g.(status := ACTIVE, reason := Some("DEPENDENCY_INVALIDATED"), closedAt := None)];
      var p := g.parent;
      if p.Some? && p.value < |goals| && g.returnToParent && goals[p.value].status != ABANDONED {
        goals := goals[p.value :=
            goals[p.value].(status := SUSPENDED, reason := Some("SUBFLOW:" + g.code), closedAt := None)];
      }
    }

    method Round(limit: nat) returns (r: Result<(), Refusal>)
      modifies this
      ensures var spec := old(R.Round(cat, View(), limit));
              if r.Ok? then spec == Ok(View()) else spec == Err(r.error)
    {
      var _ :- EvaluateRelations(limit);
      SyncAuthoritativeGaps();
      return Ok(());
    }

    /** Rounds until one leaves goals, actions and facts as they were. */
    method SettleGoals(limit: nat) returns (r: Result<(), Refusal>)
      modifies this
      ensures var spec := old(R.Settle(cat, View(), limit));
              if r.Ok? then spec == Ok(View()) else spec == Err(r.error)
    {
      ReopenGoals();
      ghost var whole := R.RoundsFrom(cat, View(), limit, limit);
      for i := 0 to limit
        invariant R.RoundsFrom(cat, View(), limit, limit - i) == whole
      {
        var before := View();
        var _ :- Round(limit);
        if R.SameCore(before, View()) {
          return Ok(());
        }
      }
      return Err(GoalsDiverge);
    }

    // ----- the pending question -----

    /** The best question for the goal in context. */
    method NextBestQuestion() returns (r: Result<Option<QuestionRef>, Refusal>)
      ensures r == R.NextQuestion(cat, View())
    {
      var goal := ContextGoal(goals);
      if goal.None? {
        return Ok(None);
      }
      var missing := MissingOf(goal.value);
      var best := BestOf(Askable(cat, missing));
      if best.None? {
        return Ok(None);
      }
      var m := best.value;
      if m.conflicting {
        return Ok(Some(QuestionRef(CONFLICT_QUESTION, m.code, goal.value, m.priority, seqNo)));
      }
      if m.code !in cat.questions {
        return Err(NoQuestion(m.code));
      }
      return Ok(Some(QuestionRef(cat.questions[m.code], m.code, goal.value, m.priority, seqNo)));
    }

    method RefreshPendingQuestion() returns (r: Result<(), Refusal>)
      modifies this`pending, this`parked
      ensures var spec := old(R.Refresh(cat, View()));
              if r.Ok? then spec == Ok(View()) else spec == Err(r.error)
    {
      Withdraw();
      var candidate :- NextBestQuestion();
      if pending.Some? && candidate.Some? {
        var focusChanged := candidate.value.goalId != pending.value.goalId;
        var conflictTakesOver :=
          candidate.value.question == CONFLICT_QUESTION && pending.value.question != CONFLICT_QUESTION;
        if focusChanged || conflictTakesOver {
          parked := parked + [pending.value];
          pending := candidate;
        }
      }
      if pending.None? {
        var _ :- ResumeParked();
      }
      return Ok(());
    }

    /** The pending question leaves the foreground when it no longer belongs there. */
    method Withdraw()
      modifies this`pending, this`parked
      ensures View() == old(R.Withdraw(cat, View()))
    {
      if pending.Some? {
        var q := pending.value;
        if ContextGoal(goals) != Some(q.goalId) || !R.StillValid(cat, View(), q) {
          if R.StillValid(cat, View(), q) {
            parked := parked + [q];
          }
          pending := None;
        }
      }
    }

    /** From the newest parked question down: those of the goal in context are
        taken out, and the first that still holds is resumed. */
    method ResumeParked() returns (r: Result<(), Refusal>)
      requires pending.None?
      modifies this`pending, this`parked
      ensures var spec := old(R.ResumeFrom(cat, View(), |parked|));
              if r.Ok? then spec == Ok(View()) else spec == Err(r.error)
    {
      ghost var whole := R.ResumeFrom(cat, View(), |parked|);
      var context := ContextGoal(goals);
      var n: nat := |parked|;
      while n > 0
        invariant n <= |parked| && pending.None?
        invariant R.ResumeFrom(cat, View(), n) == whole
      {
        n := n - 1;
        var q := parked[n];
        if context != Some(q.goalId) {
          continue;
        }
        var valid := R.StillValid(cat, View(), q);
        parked := parked[..n] + parked[n + 1..];
        if valid {
          pending := Some(q);
          return Ok(());
        }
      }
      pending :- NextBestQuestion();
      return Ok(());
    }

    // ----- turns -----

    method RecordAll(goal: nat, inputs: seq<F.FactInput>) returns (r: Result<(), Refusal>)
      requires goal < |goals|
      modifies this`facts
      ensures var spec := old(R.RecordFor(cat, View(), goal, inputs));
              if r.Ok? then spec == Ok(View()) else spec == Err(r.error)
    {
      ghost var whole := R.RecordFor(cat, View(), goal, inputs);
      for k := 0 to |inputs|
        invariant R.RecordFor(cat, View(), goal, inputs[k..]) == whole
      {
        assert inputs[k..][0] == inputs[k] && inputs[k..][1..] == inputs[k + 1..];
        var _ :- RecordFact(Some(goal), inputs[k], F.ASSERT, []);
      }
      return Ok(());
    }

    /** Each fact goes to the goal that owns it. */
    method RecordOwned(focus: Option<nat>, inputs: seq<F.FactInput>, mode: F.Mode) returns (r: Result<(), Refusal>)
      requires focus.Some? ==> focus.value < |goals|
      modifies this`facts
      ensures var spec := old(R.RecordOwned(cat, View(), focus, inputs, mode));
              if r.Ok? then spec == Ok(View()) else spec == Err(r.error)
    {
      ghost var whole := R.RecordOwned(cat, View(), focus, inputs, mode);
      for k := 0 to |inputs|
        invariant R.RecordOwned(cat, View(), focus, inputs[k..], mode) == whole
      {
        assert inputs[k..][0] == inputs[k] && inputs[k..][1..] == inputs[k + 1..];
        var owner := OwnerGoalForFact(inputs[k].code, focus);
        var _ :- RecordFact(owner, inputs[k], mode, []);
      }
      return Ok(());
    }

    method OnNewGoal(goal: Option<nat>, e: R.Event) returns (r: Result<(), Refusal>)
      requires e.NewGoal? && (goal.Some? ==> goal.value < |goals|)
      modifies this
      ensures var spec := old(R.OnNewGoal(cat, View(), goal, e));
              if r.Ok? then spec == Ok(View()) else spec == Err(r.error)
    {
      if e.abandonCurrent && goal.Some? {
        var g := goals[goal.value];
        goals := goals[goal.value :=
            g.(status := ABANDONED, reason := Some("USER_ABANDONED"), closedAt := Some(seqNo))];
        var p := g.parent;
        if p.Some? && p.value < |goals| && goals[p.value].status == SUSPENDED {
          goals := goals[p.value := goals[p.value].(reason := Some("BLOCKED_BY_ABANDONED_SUBFLOW"))];
        }
      }
      var created := |goals|;
      var _ :- PushGoal(e.goalCode, R.PLAIN.(caseRef := e.caseRef));
      r := RecordAll(created, e.facts);
    }

    method OnReclassification(goal: Option<nat>, code: string) returns (r: Result<(), Refusal>)
      requires goal.Some? ==> goal.value < |goals|
      modifies this`goals
      ensures var spec := old(R.OnReclassification(cat, View(), goal, code));
              if r.Ok? then spec == Ok(View()) else spec == Err(r.error)
    {
      var target := if goal.Some? then goal else R.LastDemand(goals, |goals|);
      if target.None? {
        return Err(NoDemand);
      }
      if code !in cat.goals {
        return Err(UnknownGoal(code));
      }
      goals := goals[target.value := R.Reclassified(cat, goals[target.value], code)];
      return Ok(());
    }

    method OnComplaint(goal: Option<nat>, e: R.Event) returns (r: Result<(), Refusal>)
      requires e.Complaint? && (goal.Some? ==> goal.value < |goals|)
      modifies this
      ensures var spec := old(R.OnComplaint(cat, View(), goal, e));
              if r.Ok? then spec == Ok(View()) else spec == Err(r.error)
    {
      var base := |goals|;
      if goal.Some? {
        base := goal.value;
      } else if e.baseGoal.Some? {
        var _ :- PushGoal(e.baseGoal.value, R.PLAIN.(caseRef := e.caseRef));
      } else {
        return Err(NoSubject);
      }
      var _ :- RecordAll(base, e.baseFacts);
      var overlay :- OverlayOf(base);
      r := RecordAll(overlay, e.facts);
    }

    /** The overlay of a base goal: reused, reopened or pushed. */
    method OverlayOf(base: nat) returns (r: Result<nat, Refusal>)
      requires base < |goals|
      modifies this
      ensures var spec := old(R.Overlay(cat, View(), base));
              if r.Ok? then spec == Ok((View(), r.value)) else spec == Err(r.error)
    {
      var found := R.LastOverlay(goals, base, |goals|);
      if found.None? {
        var overlay := |goals|;
        var _ :- PushGoal(R.COMPLAINT_GOAL,
          R.PushOptions(Some(base), false, false, None, Some(base), None, goals[base].caseId));
        return Ok(overlay);
      }
      if goals[found.value].status == RESOLVED {
        goals := goals[found.value := goals[found.value].(status := ACTIVE, reason := None, closedAt := None)];
      }
      return Ok(found.value);
    }

    method OnParallelQuestion(goal: Option<nat>, e: R.Event) returns (r: Result<(), Refusal>)
      requires e.ParallelQuestion? && (goal.Some? ==> goal.value < |goals|)
      modifies this
      ensures var spec := old(R.OnParallelQuestion(cat, View(), goal, e));
              if r.Ok? then spec == Ok(View()) else spec == Err(r.error)
    {
      if pending.Some? {
        parked := parked + [pending.value];
        pending := None;
      }
      var info := |goals|;
      var _ :- PushGoal(e.goalCode, R.PushOptions(goal, false, false, None, None, None, CaseOfGoal(goals, goal)));
      r := RecordAll(info, e.facts);
    }

    /** The switch over the event, before settling. */
    method Take(e: R.Event) returns (r: Result<(), Refusal>)
      modifies this
      ensures var spec := old(R.Take(cat, View(), e));
              if r.Ok? then spec == Ok(View()) else spec == Err(r.error)
    {
      var goal := ContextGoal(goals);
      match e {
        case Answer(facts) => r := RecordOwned(goal, facts, F.ASSERT);
        case Complement(facts) => r := RecordOwned(goal, facts, F.ASSERT);
        case Correction(facts) => r := RecordOwned(goal, R.Sourced(facts, USER_CORRECTION), F.SUPERSEDE);
        case ChangeOfMind(facts) => r := RecordOwned(goal, R.Sourced(facts, USER_EXPLICIT), F.SUPERSEDE);
        case Uncertain(facts) => r := RecordOwned(goal, R.Hedged(facts), F.ASSERT);
        case NewGoal(_, _, _, _) => r := OnNewGoal(goal, e);
        case Reclassification(code) => r := OnReclassification(goal, code);
        case Complaint(_, _, _, _) => r := OnComplaint(goal, e);
        case ParallelQuestion(_, _) => r := OnParallelQuestion(goal, e);
        case HumanRequest => r := Ok(());
        case Social(_) => r := Ok(());
      }
    }

    /** Settling, then the next question. */
    method Finish(limit: nat) returns (r: Result<(), Refusal>)
      modifies this
      ensures var spec := old(R.Finish(cat, View(), limit));
              if r.Ok? then spec == Ok(View()) else spec == Err(r.error)
    {
      var _ :- SettleGoals(limit);
      r := RefreshPendingQuestion();
    }

    method Say(e: R.Event, limit: nat) returns (r: Result<(), Refusal>)
      modifies this
      ensures var spec := old(R.Say(cat, View(), e, limit));
              if r.Ok? then spec == Ok(View()) else spec == Err(r.error)
    {
      var _ :- Take(e);
      r := Finish(limit);
    }

    /** The switch over the event. */
    method Hear(e: R.Event, limit: nat) returns (r: Result<(), Refusal>)
      modifies this
      ensures var spec := old(R.Hear(cat, View(), e, limit));
              if r.Ok? then spec == Ok(View()) else spec == Err(r.error)
    {
      if e.HumanRequest? || (e.Social? && e.close) {
        pending := None;
        return Ok(());
      }
      if e.Social? {
        r := RefreshPendingQuestion();
      } else {
        r := Say(e, limit);
      }
    }

    method TakeNumber()
      modifies this`seqNo
      ensures View() == R.Numbered(old(View()))
    {
      seqNo := seqNo + 1;
    }

    /** A turn of the conversation. The program works on a clone and drops it when
        an error is thrown, so nothing is said of the fields after a refusal. */
    method ApplyEvent(e: R.Event) returns (r: Result<(), Refusal>)
      modifies this
      ensures var spec := old(R.ApplyEvent(cat, View(), e));
              if r.Ok? then spec == Ok(View()) else spec == Err(r.error)
    {
      TakeNumber();
      r := Hear(e, R.ROUNDS);
    }

    method SignalAll(target: Option<nat>, inputs: seq<F.FactInput>) returns (r: Result<(), Refusal>)
      requires target.Some? ==> target.value < |goals|
      modifies this`facts
      ensures var spec := old(R.SignalFrom(cat, View(), target, inputs));
              if r.Ok? then spec == Ok(View()) else spec == Err(r.error)
    {
      ghost var whole := R.SignalFrom(cat, View(), target, inputs);
      for k := 0 to |inputs|
        invariant R.SignalFrom(cat, View(), target, inputs[k..]) == whole
      {
        assert inputs[k..][0] == inputs[k] && inputs[k..][1..] == inputs[k + 1..];
        var input := inputs[k];
        if target.None? && R.Ambiguous(cat, goals, input.code) {
          return Err(AmbiguousSignal(input.code));
        }
        var owner := OwnerGoalForFact(input.code, target);
        if owner.None? || !Declares(GoalOf(cat, goals[owner.value].code), input.code) {
          return Err(NotInCase(input.code));
        }
        var _ :- RecordFact(owner,
          input.(source := if input.source.Some? then input.source else Some(SYSTEM), authoritative := true),
          F.SUPERSEDE, []);
      }
      return Ok(());
    }

    method Heed(goalId: Option<nat>, inputs: seq<F.FactInput>, limit: nat) returns (r: Result<(), Refusal>)
      modifies this
      ensures var spec := old(R.Heed(cat, View(), goalId, inputs, limit));
              if r.Ok? then spec == Ok(View()) else spec == Err(r.error)
    {
      if goalId.Some? && (goalId.value >= |goals| || goals[goalId.value].status !in OPEN) {
        return Err(NoOpenGoal);
      }
      var _ :- SignalAll(goalId, inputs);
      r := Finish(limit);
    }

    /** The only way to confirm a gated fact. */
    method ApplyAuthoritativeSignal(goalId: Option<nat>, inputs: seq<F.FactInput>) returns (r: Result<(), Refusal>)
      modifies this
      ensures var spec := old(R.ApplySignal(cat, View(), goalId, inputs));
              if r.Ok? then spec == Ok(View()) else spec == Err(r.error)
    {
      TakeNumber();
      r := Heed(goalId, inputs, R.ROUNDS);
    }
  }
}
