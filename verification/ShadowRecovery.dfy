/**
 The replay of an input list by one process that may stop between any two file operations
 and be started again.
 */
module ShadowRecovery {
  import opened Basics
  import opened ShadowStore

  /** Temporary files are left behind by a crash; nothing reads them. */
  datatype Disk = Disk(records: map<Ref, Record>, temporaries: nat, checkpoint: Option<seq<Ref>>)

  /** Where the process stands. i is the line of the input that is next. */
  datatype Phase =
    | Down
    | Listing(i: nat)
    | Listed(i: nat, ids: seq<Ref>)
    | CheckpointPrepared(i: nat, ids: seq<Ref>)
    | Taking(i: nat)
    | Evaluated(i: nat, record: Record)
    | Locked(i: nat, record: Record)
    | RecordPrepared(i: nat, record: Record)
    | Finished
    | Failed

  /** writes is the history of records put in place. */
  datatype State = State(disk: Disk, phase: Phase, writes: seq<Record>)

  const INITIAL := State(Disk(map[], 0, None), Down, [])

  datatype Action = Start | Work(result: Ref) | Crash

  function Prepare(d: Disk): Disk {
    d.(temporaries := d.temporaries + 1)
  }

  /** Renaming uses up the temporary file. */
  function Used(d: Disk): Disk {
    d.(temporaries := if d.temporaries > 0 then d.temporaries - 1 else 0)
  }

  ghost function Working(inputs: seq<Input>, s: State, result: Ref): State {
    var d := s.disk;
    match s.phase
    case Listing(i) => s.(phase := Listed(i, SortedIds(d.records.Keys)))
    case Listed(i, ids) => s.(phase := CheckpointPrepared(i, ids), disk := Prepare(d))
    case CheckpointPrepared(i, ids) => s.(phase := Taking(i), disk := Used(d).(checkpoint := Some(ids)))
    case Taking(i) =>
      if i >= |inputs| then s.(phase := Finished)
      else if inputs[i].eventId !in d.records then
        s.(phase := Evaluated(i, Record(inputs[i].eventId, inputs[i].hash, result)))
      else if Matches(d.records, inputs[i]) then s.(phase := Taking(i + 1))
      else s.(phase := Failed)
    case Evaluated(i, record) =>
      if record.eventId !in d.records then s.(phase := Locked(i, record))
      else if d.records[record.eventId].inputHash == record.inputHash then s.(phase := Taking(i + 1))
      else s.(phase := Failed)
    case Locked(i, record) => s.(phase := RecordPrepared(i, record), disk := Prepare(d))
    case RecordPrepared(i, record) =>
      State(Used(d).(records := d.records[record.eventId := record]), Listing(i + 1), s.writes + [record])
    case _ => s
  }

  predicate Stopped(p: Phase) {
    p.Down? || p.Finished? || p.Failed?
  }

  ghost function After(inputs: seq<Input>, s: State, a: Action): State {
    match a
    case Start => if Stopped(s.phase) then s.(phase := Listing(0)) else s
    case Work(result) => Working(inputs, s, result)
    case Crash => s.(phase := Down)
  }

  ghost function Run(inputs: seq<Input>, s: State, actions: seq<Action>): State {
    if actions == [] then s
    else After(inputs, Run(inputs, s, actions[..|actions| - 1]), actions[|actions| - 1])
  }

  // ---------------------------------------------------------------- invariant

  predicate FromInputs(r: Record, inputs: seq<Input>) {
    exists j :: 0 <= j < |inputs| && inputs[j] == Input(r.eventId, r.inputHash)
  }

  /** Each record on disk was written once, under its own id, for a line of the input. */
  predicate Recorded(inputs: seq<Input>, records: map<Ref, Record>, writes: seq<Record>) {
    && (forall k :: k in records ==> records[k].eventId == k && FromInputs(records[k], inputs) && records[k] in writes)
    && (forall j :: 0 <= j < |writes| ==> writes[j].eventId in records && records[writes[j].eventId] == writes[j])
    && (forall i, j :: 0 <= i < j < |writes| ==> writes[i].eventId != writes[j].eventId)
  }

  predicate Passed(inputs: seq<Input>, records: map<Ref, Record>, i: nat) {
    i <= |inputs| && forall j :: 0 <= j < i ==> Matches(records, inputs[j])
  }

  predicate ForLine(inputs: seq<Input>, i: nat, r: Record) {
    i < |inputs| && inputs[i] == Input(r.eventId, r.inputHash)
  }

  ghost predicate CheckpointIsCurrent(d: Disk) {
    d.checkpoint == Some(SortedIds(d.records.Keys))
  }

  ghost predicate PhaseHolds(inputs: seq<Input>, s: State) {
    var d := s.disk;
    match s.phase
    case Down => true
    case Listing(i) => Passed(inputs, d.records, i)
    case Listed(i, ids) => Passed(inputs, d.records, i) && ids == SortedIds(d.records.Keys)
    case CheckpointPrepared(i, ids) =>
      Passed(inputs, d.records, i) && ids == SortedIds(d.records.Keys) && d.temporaries > 0
    case Taking(i) => Passed(inputs, d.records, i) && CheckpointIsCurrent(d)
    case Evaluated(i, r) =>
      Passed(inputs, d.records, i) && ForLine(inputs, i, r) && r.eventId !in d.records && CheckpointIsCurrent(d)
    case Locked(i, r) => Passed(inputs, d.records, i) && ForLine(inputs, i, r) && r.eventId !in d.records
    case RecordPrepared(i, r) =>
      Passed(inputs, d.records, i) && ForLine(inputs, i, r) && r.eventId !in d.records && d.temporaries > 0
    case Finished => Passed(inputs, d.records, |inputs|) && CheckpointIsCurrent(d)
    case Failed => !Consistent(inputs)
  }

  /** The checkpoint never lists what has no record. */
  predicate CheckpointIsBacked(d: Disk) {
    d.checkpoint.Some? ==> forall x <- d.checkpoint.value :: x in d.records
  }

  ghost predicate Good(inputs: seq<Input>, s: State) {
    && Recorded(inputs, s.disk.records, s.writes)
    && CheckpointIsBacked(s.disk)
    && PhaseHolds(inputs, s)
  }

  lemma WriteIsRecorded(inputs: seq<Input>, records: map<Ref, Record>, writes: seq<Record>, r: Record)
    requires Recorded(inputs, records, writes) && FromInputs(r, inputs) && r.eventId !in records
    ensures Recorded(inputs, records[r.eventId := r], writes + [r])
  {
  }

  lemma MismatchIsInconsistent(inputs: seq<Input>, records: map<Ref, Record>, writes: seq<Record>, i: nat)
    requires Recorded(inputs, records, writes) && i < |inputs|
    requires inputs[i].eventId in records && !Matches(records, inputs[i])
    ensures !Consistent(inputs)
  {
    var r := records[inputs[i].eventId];
    assert FromInputs(r, inputs);
    var j :| 0 <= j < |inputs| && inputs[j] == Input(r.eventId, r.inputHash);
    assert inputs[j].eventId == inputs[i].eventId && inputs[j].hash != inputs[i].hash;
  }

  lemma RenameKeepsGood(inputs: seq<Input>, s: State, result: Ref)
    requires Good(inputs, s) && s.phase.RecordPrepared?
    ensures Good(inputs, Working(inputs, s, result))
  {
    var i, record := s.phase.i, s.phase.record;
    assert FromInputs(record, inputs);
    WriteIsRecorded(inputs, s.disk.records, s.writes, record);
    var t := Working(inputs, s, result);
    forall j | 0 <= j < i + 1
      ensures Matches(t.disk.records, inputs[j])
    {
      assert j < i ==> Matches(s.disk.records, inputs[j]);
    }
  }

  lemma TakingKeepsGood(inputs: seq<Input>, s: State, result: Ref)
    requires Good(inputs, s) && s.phase.Taking?
    ensures Good(inputs, Working(inputs, s, result))
  {
    var i := s.phase.i;
    if i < |inputs| && inputs[i].eventId in s.disk.records && !Matches(s.disk.records, inputs[i]) {
      MismatchIsInconsistent(inputs, s.disk.records, s.writes, i);
    }
  }

  lemma WorkKeepsGood(inputs: seq<Input>, s: State, result: Ref)
    requires Good(inputs, s)
    ensures Good(inputs, Working(inputs, s, result))
  {
    if s.phase.Taking? {
      TakingKeepsGood(inputs, s, result);
    } else if s.phase.RecordPrepared? {
      RenameKeepsGood(inputs, s, result);
    }
  }

  lemma StepKeepsGood(inputs: seq<Input>, s: State, a: Action)
    requires Good(inputs, s)
    ensures Good(inputs, After(inputs, s, a))
  {
    match a
    case Work(result) => WorkKeepsGood(inputs, s, result);
    case _ =>
  }

  lemma {:induction false} RunsKeepGood(inputs: seq<Input>, s: State, actions: seq<Action>)
    requires Good(inputs, s)
    ensures Good(inputs, Run(inputs, s, actions))
  {
    if actions != [] {
      RunsKeepGood(inputs, s, actions[..|actions| - 1]);
      StepKeepsGood(inputs, Run(inputs, s, actions[..|actions| - 1]), actions[|actions| - 1]);
    }
  }

  // ------------------------------------------------------------------- results

  lemma StepKeepsRecords(inputs: seq<Input>, s: State, a: Action)
    requires Good(inputs, s)
    ensures Kept(s.disk.records, After(inputs, s, a).disk.records)
  {
  }

  lemma {:induction false} RecordsStay(inputs: seq<Input>, s: State, actions: seq<Action>)
    requires Good(inputs, s)
    ensures Kept(s.disk.records, Run(inputs, s, actions).disk.records)
  {
    if actions != [] {
      var init := actions[..|actions| - 1];
      RecordsStay(inputs, s, init);
      RunsKeepGood(inputs, s, init);
      StepKeepsRecords(inputs, Run(inputs, s, init), actions[|actions| - 1]);
    }
  }

  /** Whatever the crashes, no record is written twice and none is replaced or lost. */
  lemma RecordsAreWrittenOnce(inputs: seq<Input>, before: seq<Action>, after: seq<Action>)
    ensures var early, late := Run(inputs, INITIAL, before), Run(inputs, INITIAL, before + after);
      && Kept(early.disk.records, late.disk.records)
      && (forall i, j :: 0 <= i < j < |late.writes| ==> late.writes[i].eventId != late.writes[j].eventId)
      && CheckpointIsBacked(late.disk)
  {
    RunsKeepGood(inputs, INITIAL, before);
    RunsKeepGood(inputs, INITIAL, before + after);
    RunInTwo(inputs, INITIAL, before, after);
    RecordsStay(inputs, Run(inputs, INITIAL, before), after);
  }

  function RecordOf(p: Phase): Option<Record> {
    if p.Evaluated? || p.Locked? || p.RecordPrepared? then Some(p.record) else None
  }

  /** A record holds what an operation evaluated for it. */
  lemma {:induction false} RecordsTellResults(inputs: seq<Input>, actions: seq<Action>)
    ensures var s := Run(inputs, INITIAL, actions);
      && (forall w <- s.writes :: Work(w.result) in actions)
      && (forall k :: k in s.disk.records ==> Work(s.disk.records[k].result) in actions)
      && (RecordOf(s.phase).Some? ==> Work(RecordOf(s.phase).value.result) in actions)
  {
    RunsKeepGood(inputs, INITIAL, actions);
    if actions != [] {
      var n := |actions| - 1;
      RecordsTellResults(inputs, actions[..n]);
      assert forall a :: a in actions[..n] ==> a in actions;
      assert actions[n] in actions;
    }
  }

  /** A run that completes leaves what one uninterrupted replay leaves. */
  lemma CompletedHasConverged(inputs: seq<Input>, actions: seq<Action>)
    requires Run(inputs, INITIAL, actions).phase.Finished?
    ensures var d := Run(inputs, INITIAL, actions).disk; Converged(inputs, d.records, d.checkpoint)
    ensures Consistent(inputs)
  {
    RunsKeepGood(inputs, INITIAL, actions);
    var d := Run(inputs, INITIAL, actions).disk;
    forall k | k in d.records
      ensures exists i :: 0 <= i < |inputs| && inputs[i].eventId == k
    {
      assert FromInputs(d.records[k], inputs);
    }
    forall i, j | 0 <= i < |inputs| && 0 <= j < |inputs| && inputs[i].eventId == inputs[j].eventId
      ensures inputs[i].hash == inputs[j].hash
    {
      assert Matches(d.records, inputs[i]) && Matches(d.records, inputs[j]);
    }
  }

  /** Two completed runs agree on ids, hashes and checkpoint, however each was interrupted. */
  lemma CompletedRunsAgree(inputs: seq<Input>, a: seq<Action>, b: seq<Action>)
    requires Run(inputs, INITIAL, a).phase.Finished? && Run(inputs, INITIAL, b).phase.Finished?
    ensures var d, e := Run(inputs, INITIAL, a).disk, Run(inputs, INITIAL, b).disk;
      && d.records.Keys == e.records.Keys
      && (forall k :: k in d.records ==> d.records[k].inputHash == e.records[k].inputHash)
      && d.checkpoint == e.checkpoint
  {
    CompletedHasConverged(inputs, a);
    CompletedHasConverged(inputs, b);
    var d, e := Run(inputs, INITIAL, a).disk, Run(inputs, INITIAL, b).disk;
    ConvergedAgree(inputs, d.records, d.checkpoint, e.records, e.checkpoint);
  }

  /** How many operations are left at most. */
  function Left(inputs: seq<Input>, p: Phase): int {
    match p
    case Down => 0
    case Finished => 0
    case Failed => 0
    case Listing(i) => 8 * (|inputs| - i) + 5
    case Listed(i, _) => 8 * (|inputs| - i) + 4
    case CheckpointPrepared(i, _) => 8 * (|inputs| - i) + 3
    case Taking(i) => 8 * (|inputs| - i) + 1
    case Evaluated(i, _) => 8 * (|inputs| - i)
    case Locked(i, _) => 8 * (|inputs| - i) - 1
    case RecordPrepared(i, _) => 8 * (|inputs| - i) - 2
  }

  lemma WorkGoesOn(inputs: seq<Input>, s: State, result: Ref)
    requires Good(inputs, s) && !Stopped(s.phase)
    ensures var t := Working(inputs, s, result);
      && 0 <= Left(inputs, t.phase) < Left(inputs, s.phase)
      && !t.phase.Down?
  {
  }

  function Works(results: seq<Ref>): (r: seq<Action>)
    ensures |r| == |results|
    ensures forall i :: 0 <= i < |r| ==> r[i] == Work(results[i])
  {
    if results == [] then [] else Works(results[..|results| - 1]) + [Work(results[|results| - 1])]
  }

  lemma {:induction false} UndisturbedWork(inputs: seq<Input>, s: State, results: seq<Ref>)
    requires Good(inputs, s) && !s.phase.Down?
    ensures var t := Run(inputs, s, Works(results));
      && !t.phase.Down?
      && (Stopped(t.phase) || Left(inputs, t.phase) <= Left(inputs, s.phase) - |results|)
  {
    if results != [] {
      var n := |results| - 1;
      var init := results[..n];
      assert Works(results) == Works(init) + [Work(results[n])];
      assert Works(results)[..n] == Works(init);
      UndisturbedWork(inputs, s, init);
      RunsKeepGood(inputs, s, Works(init));
      var before := Run(inputs, s, Works(init));
      if !Stopped(before.phase) {
        WorkGoesOn(inputs, before, results[n]);
      }
    }
  }

  lemma {:induction false} RunInTwo(inputs: seq<Input>, s: State, a: seq<Action>, b: seq<Action>)
    ensures Run(inputs, s, a + b) == Run(inputs, Run(inputs, s, a), b)
  {
    if b == [] {
      assert a + b == a;
    } else {
      var n := |b| - 1;
      assert (a + b)[..|a + b| - 1] == a + b[..n];
      RunInTwo(inputs, s, a, b[..n]);
    }
  }

  lemma CrashAndStart(inputs: seq<Input>, s: State)
    ensures Run(inputs, s, [Crash, Start]) == s.(phase := Listing(0))
  {
    var both := [Crash, Start];
    assert both[..1] == [Crash] && both[..1][..0] == [];
    assert Run(inputs, s, both[..1]) == s.(phase := Down);
  }

  /**
   * After any past, a start and then enough operations without a crash complete the replay
   * exactly when no event id stands in the input with two different contents.
   */
  lemma RestartCompletes(inputs: seq<Input>, past: seq<Action>, results: seq<Ref>)
    requires |results| >= 8 * |inputs| + 5
    ensures var t := Run(inputs, INITIAL, past + [Crash, Start] + Works(results));
      && (t.phase.Finished? <==> Consistent(inputs))
      && (t.phase.Failed? <==> !Consistent(inputs))
  {
    var begun := past + [Crash, Start];
    var s := Run(inputs, INITIAL, begun);
    RunsKeepGood(inputs, INITIAL, begun);
    RunInTwo(inputs, INITIAL, past, [Crash, Start]);
    CrashAndStart(inputs, Run(inputs, INITIAL, past));
    UndisturbedWork(inputs, s, results);
    RunInTwo(inputs, INITIAL, begun, Works(results));
    RunsKeepGood(inputs, s, Works(results));
    var t := Run(inputs, s, Works(results));
    if Left(inputs, t.phase) <= 0 && !Stopped(t.phase) {
      WorkGoesOn(inputs, t, 0);
    }
    if t.phase.Finished? {
      CompletedHasConverged(inputs, begun + Works(results));
    }
  }
}
