/** Recording one fact: conflict, correction, promotion by a signal, derivation. */
module Recording {
  import opened Basics
  import opened Catalog
  import opened State
  import opened Cascade

  datatype Mode = ASSERT | SUPERSEDE | DERIVE

  datatype FactInput = FactInput(
    code: string, value: Value, source: Option<Source>, confidence: Option<Confidence>, authoritative: bool)

  /** An input that has passed the checks, at the confidence it deserves. */
  datatype Entry = Entry(code: string, value: Value, source: Source, confidence: Confidence, authoritative: bool)

  function Admitted(cat: Catalogue, input: FactInput, mode: Mode): Result<Entry, Refusal> {
    if input.code !in cat.facts then Err(UnknownFact(input.code))
    else
      var def := cat.facts[input.code];
      var source :=
        if input.source.Some? then input.source.value else if mode == DERIVE then DERIVED_RULE else USER_EXPLICIT;
      if source !in def.allowedSources then Err(SourceNotAllowed(input.code))
      else if def.allowedValues.Some? && input.value.Text? && input.value.text !in def.allowedValues.value then
        Err(ValueOutsideDomain(input.code))
      else if input.authoritative && source !in cat.accepted then Err(SignalNeedsSource(input.code))
      else
        var needsSignal := NeedsSignal(cat, input.code, input.value) && source != DERIVED_RULE;
        var confidence :=
          if needsSignal && !input.authoritative then UNCERTAIN
          else if input.confidence.Some? then input.confidence.value
          else CONFIRMED;
        Ok(Entry(input.code, input.value, source, confidence, input.authoritative))
  }

  function WithValue(facts: seq<FactRecord>, live: seq<nat>, v: Value): (r: Option<nat>)
    requires forall x | 0 <= x < |live| :: live[x] < |facts|
    ensures r.Some? ==> r.value in live && facts[r.value].value == v
    ensures r.None? ==> forall x | 0 <= x < |live| :: facts[live[x]].value != v
  {
    if live == [] then None
    else if facts[live[0]].value == v then Some(live[0])
    else WithValue(facts, live[1..], v)
  }

  function SupersedeEach(
    cat: Catalogue, goals: seq<GoalRecord>, facts: seq<FactRecord>, now: nat,
    ids: seq<nat>, keep: Option<nat>, why: Supersession, successor: nat): (r: seq<FactRecord>)
    requires forall x | 0 <= x < |ids| :: ids[x] < |facts|
    ensures |r| == |facts|
    decreases |ids|
  {
    if ids == [] then facts
    else
      var next :=
        if keep == Some(ids[0]) then facts
        else Supersede(cat, goals, facts, now, ids[0], why, Some(successor));
      SupersedeEach(cat, goals, next, now, ids[1..], keep, why, successor)
  }

  function NewFact(cat: Catalogue, o: Owner, e: Entry, now: nat, derivedFrom: seq<nat>): FactRecord {
    var scope := FactOf(cat, e.code).scope;
    FactRecord(
      e.code,
      if scope == CASE then o.caseId else None,
      if scope == GOAL then o.goalId else None,
      e.value, e.source, e.confidence, true, now, None, None, None, None, e.authoritative, derivedFrom)
  }

  function ReasonOf(e: Entry, mode: Mode): Supersession {
    if mode == DERIVE then SYSTEM_REPLACEMENT
    else if e.source == USER_CORRECTION then USER_CORRECTED
    else CHANGE_OF_MIND
  }

  function ReaffirmReason(e: Entry, mode: Mode): Supersession {
    if e.source == USER_CORRECTION then USER_CORRECTED
    else if mode == DERIVE then SYSTEM_REPLACEMENT
    else CHANGE_OF_MIND
  }

  /** The value is already known: it becomes the only active one. */
  function Reaffirm(
    cat: Catalogue, goals: seq<GoalRecord>, facts: seq<FactRecord>, now: nat,
    live: seq<nat>, same: nat, e: Entry, mode: Mode): (r: seq<FactRecord>)
    requires same < |facts| && forall x | 0 <= x < |live| :: live[x] < |facts|
    ensures |r| == |facts|
  {
    var next := SupersedeEach(cat, goals, facts, now, live, Some(same), ReaffirmReason(e, mode), same);
    next[same := Rated(next[same], e)]
  }

  function Rated(f: FactRecord, e: Entry): FactRecord {
    f.(confidence := if e.confidence != UNCERTAIN || f.confidence != CONFIRMED then e.confidence else f.confidence,
       authoritative := f.authoritative || e.authoritative,
       conflictsWith := None)
  }

  /** The value is new, or a signal promotes it to a record of its own. */
  function Admit(
    cat: Catalogue, goals: seq<GoalRecord>, facts: seq<FactRecord>, now: nat,
    live: seq<nat>, same: Option<nat>, o: Owner, e: Entry, mode: Mode, derivedFrom: seq<nat>): (r: seq<FactRecord>)
    requires same.Some? ==> same.value < |facts|
    requires forall x | 0 <= x < |live| :: live[x] < |facts|
    ensures |r| == |facts| + 1
  {
    var start := if same.Some? then Supersede(cat, goals, facts, now, same.value, SYSTEM_REPLACEMENT, None) else facts;
    var fact := NewFact(cat, o, e, now, derivedFrom);
    var id := |facts|;
    if live == [] || FactOf(cat, e.code).repeatable then start + [fact]
    else if mode != ASSERT then
      SupersedeEach(cat, goals, start, now, live, None, ReasonOf(e, mode), id) + [fact]
    else if start[live[0]].confidence == CONFIRMED then
      var disputed := start[live[0] := start[live[0]].(confidence := CONFLICTING, conflictsWith := Some(id))];
      Invalidate(cat, goals, disputed, now, live[0])
        + [fact.(confidence := CONFLICTING, conflictsWith := Some(live[0]))]
    else Supersede(cat, goals, start, now, live[0], SYSTEM_REPLACEMENT, Some(id)) + [fact]
  }

  function Insert(
    cat: Catalogue, goals: seq<GoalRecord>, facts: seq<FactRecord>, now: nat,
    o: Owner, e: Entry, mode: Mode, derivedFrom: seq<nat>): (r: seq<FactRecord>)
    ensures |facts| <= |r| <= |facts| + 1
  {
    var live := Live(cat, facts, KeyFor(cat, e.code, o));
    var same := WithValue(facts, live, e.value);
    if same.Some? && FactOf(cat, e.code).repeatable then facts
    else if same.Some? && !(e.authoritative && !facts[same.value].authoritative) then
      Reaffirm(cat, goals, facts, now, live, same.value, e, mode)
    else Admit(cat, goals, facts, now, live, same, o, e, mode, derivedFrom)
  }

  function Record(
    cat: Catalogue, goals: seq<GoalRecord>, facts: seq<FactRecord>, now: nat,
    o: Owner, input: FactInput, mode: Mode, derivedFrom: seq<nat>): Result<seq<FactRecord>, Refusal>
  {
    var e :- Admitted(cat, input, mode);
    Ok(Insert(cat, goals, facts, now, o, e, mode, derivedFrom))
  }
}
