/** What a goal still misses, which goal is in focus, and which question comes next. */
module Goals {
  import opened Basics
  import opened Catalog
  import opened State

  datatype Missing = Missing(code: string, priority: Priority, conflicting: bool, authoritative: bool)

  function RuleFor(rules: seq<Rule>, v: Value): Option<Rule> {
    if rules == [] then None
    else if rules[0].value == v then Some(rules[0])
    else RuleFor(rules[1..], v)
  }

  /** A confirmed fact lets its goal go on. */
  predicate Satisfies(cat: Catalogue, facts: seq<FactRecord>, o: Owner, f: FactRecord, code: string) {
    var spec := FactOf(cat, code);
    && f.value !in spec.blockingValues
    && (spec.satisfyingValues.Some? ==> f.value in spec.satisfyingValues.value)
    && (spec.satisfactionRules.Some? ==>
          var rule := RuleFor(spec.satisfactionRules.value, f.value);
          rule.Some? && ConditionsHold(cat, facts, o, rule.value.when))
    && (NeedsSignal(cat, code, f.value) ==> f.authoritative)
  }

  predicate Relevant(cat: Catalogue, facts: seq<FactRecord>, o: Owner, code: string) {
    ConditionsHold(cat, facts, o, FactOf(cat, code).relevantWhen)
  }

  /** What is missing about one code, if anything. */
  function GapOf(cat: Catalogue, facts: seq<FactRecord>, o: Owner, def: GoalDef, code: string): Option<Missing> {
    if !Relevant(cat, facts, o, code) then None
    else
      var live := Live(cat, facts, KeyFor(cat, code, o));
      if live == [] then
        var spec := FactOf(cat, code);
        Some(Missing(code, spec.priority, false, spec.authoritativeOnly || code in def.completion))
      else
        var f := facts[live[0]];
        if f.confidence != CONFIRMED then
          Some(Missing(code, BLOCKING_UNCERTAINTY, f.confidence == CONFLICTING,
            f.confidence == UNCERTAIN && NeedsSignal(cat, code, f.value)))
        else if Satisfies(cat, facts, o, f, code) then None
        else Some(Missing(code, BLOCKING_UNCERTAINTY, false, true))
  }

  /** A completion fact is only looked at once nothing else is missing. */
  function MissingFrom(
    cat: Catalogue, facts: seq<FactRecord>, o: Owner, def: GoalDef, codes: seq<string>, k: nat, out: seq<Missing>)
    : seq<Missing>
    requires k <= |codes|
    decreases |codes| - k
  {
    if k == |codes| then out
    else
      var skipped := codes[k] in def.completion && out != [];
      var gap := if skipped then None else GapOf(cat, facts, o, def, codes[k]);
      MissingFrom(cat, facts, o, def, codes, k + 1, if gap.Some? then out + [gap.value] else out)
  }

  function MissingFacts(cat: Catalogue, facts: seq<FactRecord>, goals: seq<GoalRecord>, gi: nat): seq<Missing>
    requires gi < |goals|
  {
    var def := GoalOf(cat, goals[gi].code);
    MissingFrom(cat, facts, OwnerOf(goals, gi), def, def.required + def.completion, 0, [])
  }

  function FirstConflicting(ms: seq<Missing>): Option<Missing> {
    if ms == [] then None else if ms[0].conflicting then Some(ms[0]) else FirstConflicting(ms[1..])
  }

  function Lowest(ms: seq<Missing>, best: Missing): Missing {
    if ms == [] then best
    else Lowest(ms[1..], if Rank(ms[0].priority) < Rank(best.priority) then ms[0] else best)
  }

  /** A conflict comes first; otherwise the first of the lowest rank. */
  function Best(ms: seq<Missing>): Option<Missing> {
    if ms == [] then None
    else
      var conflict := FirstConflicting(ms);
      if conflict.Some? then conflict else Some(Lowest(ms, ms[0]))
  }

  /** Facts a conversational answer may supply. */
  function Askable(cat: Catalogue, ms: seq<Missing>): seq<Missing> {
    if ms == [] then []
    else
      var rest := Askable(cat, ms[1..]);
      if !ms[0].authoritative && !FactOf(cat, ms[0].code).derived then [ms[0]] + rest else rest
  }

  function LastWith(goals: seq<GoalRecord>, status: GoalStatus, n: nat): (r: Option<nat>)
    requires n <= |goals|
    ensures r.Some? ==> r.value < n && goals[r.value].status == status
    ensures r.None? ==> forall i | 0 <= i < n :: goals[i].status != status
  {
    if n == 0 then None
    else if goals[n - 1].status == status then Some(n - 1)
    else LastWith(goals, status, n - 1)
  }

  function FocusGoal(goals: seq<GoalRecord>): (r: Option<nat>)
    ensures r.Some? ==> r.value < |goals| && goals[r.value].status == ACTIVE
  {
    LastWith(goals, ACTIVE, |goals|)
  }

  function ContextGoal(goals: seq<GoalRecord>): (r: Option<nat>)
    ensures r.Some? ==> r.value < |goals| && goals[r.value].status in {ACTIVE, WAITING}
  {
    if FocusGoal(goals).Some? then FocusGoal(goals) else LastWith(goals, WAITING, |goals|)
  }

  function DeclaringGoal(
    cat: Catalogue, goals: seq<GoalRecord>, code: string, caseId: Option<Option<nat>>, n: nat): (r: Option<nat>)
    requires n <= |goals|
    ensures r.Some? ==> r.value < n && goals[r.value].status in OPEN
    ensures r.Some? && caseId.Some? ==> goals[r.value].caseId == caseId.value
    ensures r.Some? ==> Declares(GoalOf(cat, goals[r.value].code), code)
  {
    if n == 0 then None
    else if goals[n - 1].status in OPEN
            && (caseId.Some? ==> goals[n - 1].caseId == caseId.value)
            && Declares(GoalOf(cat, goals[n - 1].code), code) then Some(n - 1)
    else DeclaringGoal(cat, goals, code, caseId, n - 1)
  }

  /** The goal a fact belongs to: the focus if it declares the fact, else the
      topmost open goal of its case that does, else the focus. */
  function OwnerGoal(cat: Catalogue, goals: seq<GoalRecord>, code: string, focus: Option<nat>): (r: Option<nat>)
    requires focus.Some? ==> focus.value < |goals|
    ensures r.Some? ==> r.value < |goals|
    ensures focus.Some? ==> r.Some? && goals[r.value].caseId == goals[focus.value].caseId
  {
    if focus.Some? && Declares(GoalOf(cat, goals[focus.value].code), code) then focus
    else
      var found := DeclaringGoal(cat, goals, code,
        if focus.Some? then Some(goals[focus.value].caseId) else None, |goals|);
      if found.Some? then found else focus
  }

  function OwnerFor(goals: seq<GoalRecord>, gi: Option<nat>): Owner
    requires gi.Some? ==> gi.value < |goals|
  {
    if gi.Some? then OwnerOf(goals, gi.value) else NOBODY
  }
}
