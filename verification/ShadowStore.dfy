/**
 The durable shadow store: one file for each record, and a checkpoint rebuilt from them.
 An event id is its rank in the order in which the store lists them.
 */
module ShadowStore {
  import opened Basics

  type Ref = nat

  datatype Input = Input(eventId: Ref, hash: Ref)

  /** The result may differ from one evaluation of the same input to the next. */
  datatype Record = Record(eventId: Ref, inputHash: Ref, result: Ref)

  // ------------------------------------------------------------ ordered listing

  predicate Ascending(s: seq<Ref>) {
    forall i, j :: 0 <= i < j < |s| ==> s[i] < s[j]
  }

  function InsertId(x: Ref, s: seq<Ref>): (r: seq<Ref>)
    ensures forall y :: y in r <==> y == x || y in s
  {
    if s == [] then [x]
    else if x < s[0] then [x] + s
    else if x == s[0] then s
    else
      var rest := InsertId(x, s[1..]);
      assert forall y :: y in rest ==> y in [s[0]] + rest;
      [s[0]] + rest
  }

  lemma {:induction false} InsertAscends(x: Ref, s: seq<Ref>)
    requires Ascending(s)
    ensures Ascending(InsertId(x, s))
  {
    if s != [] && x > s[0] {
      var rest := InsertId(x, s[1..]);
      InsertAscends(x, s[1..]);
      forall j | 0 <= j < |rest|
        ensures s[0] < rest[j]
      {
        assert rest[j] in rest;
      }
    }
  }

  /** The ids of a set in ascending order. */
  ghost function SortedIds(ids: set<Ref>): (r: seq<Ref>)
    ensures forall x :: x in r <==> x in ids
  {
    if ids == {} then []
    else
      var x :| x in ids;
      InsertId(x, SortedIds(ids - {x}))
  }

  lemma {:induction false} SortedIdsAscend(ids: set<Ref>)
    ensures Ascending(SortedIds(ids))
    decreases ids
  {
    if ids != {} {
      var x :| x in ids && SortedIds(ids) == InsertId(x, SortedIds(ids - {x}));
      SortedIdsAscend(ids - {x});
      InsertAscends(x, SortedIds(ids - {x}));
    }
  }

  lemma {:induction false} OneListing(a: seq<Ref>, b: seq<Ref>)
    requires Ascending(a) && Ascending(b) && forall x :: x in a <==> x in b
    ensures a == b
  {
    assert b == [] || b[0] in a;
    if a != [] {
      assert a[0] in b;
      assert a[0] == b[0];
      forall x
        ensures x in a[1..] <==> x in b[1..]
      {
        assert x in a[1..] <==> x in a && x != a[0];
        assert x in b[1..] <==> x in b && x != b[0];
      }
      OneListing(a[1..], b[1..]);
      assert a == [a[0]] + a[1..] && b == [b[0]] + b[1..];
    }
  }

  // ------------------------------------------------------------------ the store

  /** The two files agree with the line they came from. */
  predicate Matches(records: map<Ref, Record>, input: Input) {
    input.eventId in records && records[input.eventId].inputHash == input.hash
  }

  datatype Outcome = Written(record: Record) | Duplicate(record: Record) | Reused

  class Store {
    var records: map<Ref, Record>
    var checkpoint: Option<seq<Ref>>

    /** The checkpoint lists the records there are. */
    ghost predicate Current()
      reads this
    {
      checkpoint == Some(SortedIds(records.Keys))
    }

    constructor ()
      ensures records == map[] && checkpoint == None
    {
      records := map[];
      checkpoint := None;
    }

    /** Directory entries come in any order; the list is one. */
    method List() returns (ids: seq<Ref>)
      ensures ids == SortedIds(records.Keys)
    {
      ids := [];
      var left := records.Keys;
      while left != {}
        invariant left <= records.Keys
        invariant Ascending(ids)
        invariant forall x :: x in ids <==> x in records.Keys - left
        decreases left
      {
        var x :| x in left;
        InsertAscends(x, ids);
        ids := InsertId(x, ids);
        left := left - {x};
      }
      SortedIdsAscend(records.Keys);
      OneListing(ids, SortedIds(records.Keys));
    }

    method RebuildCheckpoint()
      modifies this`checkpoint
      ensures Current()
    {
      var completed := List();
      checkpoint := Some(completed);
    }

    method Get(eventId: Ref) returns (r: Option<Record>)
      ensures r == if eventId in records then Some(records[eventId]) else None
    {
      if eventId in records {
        return Some(records[eventId]);
      }
      return None;
    }

    /** A record is written when there is none, and never replaced. */
    method Commit(eventId: Ref, inputHash: Ref, result: Ref) returns (r: Outcome)
      requires Current()
      modifies this
      ensures Current()
      ensures eventId in old(records) ==> records == old(records)
      ensures eventId in old(records) ==>
        r == if old(records)[eventId].inputHash == inputHash then Duplicate(old(records)[eventId]) else Reused
      ensures eventId !in old(records) ==> r == Written(Record(eventId, inputHash, result))
      ensures eventId !in old(records) ==> records == old(records)[eventId := Record(eventId, inputHash, result)]
    {
      var existing := Get(eventId);
      if existing.Some? {
        if existing.value.inputHash != inputHash {
          return Reused;
        }
        return Duplicate(existing.value);
      }
      var record := Record(eventId, inputHash, result);
      records := records[eventId := record];
      RebuildCheckpoint();
      return Written(record);
    }
  }

  predicate Kept(before: map<Ref, Record>, after: map<Ref, Record>) {
    forall k :: k in before ==> k in after && after[k] == before[k]
  }

  predicate From(records: map<Ref, Record>, before: map<Ref, Record>, inputs: seq<Input>) {
    forall k :: k in records ==> k in before || exists i :: 0 <= i < |inputs| && inputs[i].eventId == k
  }

  /** Records and checkpoint are what the inputs call for, and nothing else. */
  ghost predicate Converged(inputs: seq<Input>, records: map<Ref, Record>, checkpoint: Option<seq<Ref>>) {
    && (forall i :: 0 <= i < |inputs| ==> Matches(records, inputs[i]))
    && From(records, map[], inputs)
    && checkpoint == Some(SortedIds(records.Keys))
  }

  /** Two stores that converged on one input list have the same ids, hashes and checkpoint. */
  lemma ConvergedAgree(
    inputs: seq<Input>, a: map<Ref, Record>, ca: Option<seq<Ref>>, b: map<Ref, Record>, cb: Option<seq<Ref>>)
    requires Converged(inputs, a, ca) && Converged(inputs, b, cb)
    ensures a.Keys == b.Keys && ca == cb
    ensures forall k :: k in a ==> a[k].inputHash == b[k].inputHash
  {
    forall k
      ensures k in a ==> k in b && a[k].inputHash == b[k].inputHash
      ensures k in b ==> k in a
    {
      if k in a {
        var i :| 0 <= i < |inputs| && inputs[i].eventId == k;
        assert Matches(a, inputs[i]) && Matches(b, inputs[i]);
      }
      if k in b {
        var i :| 0 <= i < |inputs| && inputs[i].eventId == k;
        assert Matches(a, inputs[i]);
      }
    }
    assert a.Keys == b.Keys;
  }

  predicate Consistent(inputs: seq<Input>) {
    forall i, j :: 0 <= i < |inputs| && 0 <= j < |inputs| && inputs[i].eventId == inputs[j].eventId
      ==> inputs[i].hash == inputs[j].hash
  }

  /** No line of the input contradicts a record that was there, nor another line. */
  predicate Acceptable(inputs: seq<Input>, records: map<Ref, Record>) {
    && Consistent(inputs)
    && forall i :: 0 <= i < |inputs| && inputs[i].eventId in records ==> Matches(records, inputs[i])
  }

  /** The record is that of line i, the first of its id, as it was evaluated. */
  predicate OfLine(r: Record, inputs: seq<Input>, evaluate: nat -> Ref, i: nat) {
    && i < |inputs| && r == Record(inputs[i].eventId, inputs[i].hash, evaluate(i))
    && forall j :: 0 <= j < i ==> inputs[j].eventId != r.eventId
  }

  ghost predicate Evaluated(
    records: map<Ref, Record>, before: map<Ref, Record>, inputs: seq<Input>, evaluate: nat -> Ref)
  {
    forall k :: k in records && k !in before ==> exists i :: OfLine(records[k], inputs, evaluate, i)
  }

  /**
   * The replay of an input list in one go, on whatever records there are, evaluate being any
   * function of the line. It stops at the first line whose id stands for another content.
   */
  method Replay(store: Store, inputs: seq<Input>, evaluate: nat -> Ref) returns (ok: bool)
    modifies store
    ensures ok <==> Acceptable(inputs, old(store.records))
    ensures Kept(old(store.records), store.records) && From(store.records, old(store.records), inputs)
    ensures Evaluated(store.records, old(store.records), inputs, evaluate)
    ensures store.Current()
    ensures ok ==> forall i :: 0 <= i < |inputs| ==> Matches(store.records, inputs[i])
  {
    ghost var before := store.records;
    store.RebuildCheckpoint();
    var i := 0;
    while i < |inputs|
      invariant 0 <= i <= |inputs|
      invariant store.Current()
      invariant Kept(before, store.records) && From(store.records, before, inputs)
      invariant Evaluated(store.records, before, inputs, evaluate)
      invariant forall j :: 0 <= j < i ==> Matches(store.records, inputs[j])
      invariant forall k :: k in store.records ==> k in before || exists j :: 0 <= j < i && inputs[j].eventId == k
    {
      var input := inputs[i];
      var existing := store.Get(input.eventId);
      if existing.Some? {
        if existing.value.inputHash != input.hash {
          Contradicted(inputs, before, store.records, i);
          return false;
        }
      } else {
        OneMoreEvaluated(store.records, before, inputs, evaluate, i);
        var outcome := store.Commit(input.eventId, input.hash, evaluate(i));
      }
      i := i + 1;
    }
    AllAcceptable(inputs, before, store.records);
    return true;
  }

  lemma OneMoreEvaluated(
    records: map<Ref, Record>, before: map<Ref, Record>, inputs: seq<Input>, evaluate: nat -> Ref, i: nat)
    requires i < |inputs| && inputs[i].eventId !in records && Evaluated(records, before, inputs, evaluate)
    requires forall j :: 0 <= j < i ==> Matches(records, inputs[j])
    ensures Evaluated(
      records[inputs[i].eventId := Record(inputs[i].eventId, inputs[i].hash, evaluate(i))], before, inputs, evaluate)
  {
    var r := Record(inputs[i].eventId, inputs[i].hash, evaluate(i));
    forall j | 0 <= j < i
      ensures inputs[j].eventId != r.eventId
    {
      assert Matches(records, inputs[j]);
    }
    assert OfLine(r, inputs, evaluate, i);
  }

  lemma Contradicted(inputs: seq<Input>, before: map<Ref, Record>, records: map<Ref, Record>, i: nat)
    requires i < |inputs| && Kept(before, records)
    requires forall j :: 0 <= j < i ==> Matches(records, inputs[j])
    requires inputs[i].eventId in before || exists j :: 0 <= j < i && inputs[j].eventId == inputs[i].eventId
    requires inputs[i].eventId in records && !Matches(records, inputs[i])
    ensures !Acceptable(inputs, before)
  {
    if inputs[i].eventId !in before {
      var j :| 0 <= j < i && inputs[j].eventId == inputs[i].eventId;
      assert Matches(records, inputs[j]);
    }
  }

  lemma AllAcceptable(inputs: seq<Input>, before: map<Ref, Record>, records: map<Ref, Record>)
    requires Kept(before, records) && forall i :: 0 <= i < |inputs| ==> Matches(records, inputs[i])
    ensures Acceptable(inputs, before)
  {
    forall a, b | 0 <= a < |inputs| && 0 <= b < |inputs| && inputs[a].eventId == inputs[b].eventId
      ensures inputs[a].hash == inputs[b].hash
    {
      assert Matches(records, inputs[a]) && Matches(records, inputs[b]);
    }
    forall i | 0 <= i < |inputs| && inputs[i].eventId in before
      ensures Matches(before, inputs[i])
    {
      assert Matches(records, inputs[i]);
    }
  }

  /** From an empty store a successful replay converges, and only a contradiction in the input fails. */
  method ReplayFromNothing(inputs: seq<Input>, evaluate: nat -> Ref) returns (store: Store, ok: bool)
    ensures ok <==> Consistent(inputs)
    ensures ok ==> Converged(inputs, store.records, store.checkpoint)
  {
    store := new Store();
    ok := Replay(store, inputs, evaluate);
  }
}
