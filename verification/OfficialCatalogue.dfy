/** Loading the official catalogue: what is not approved does not get in. */
module OfficialCatalogue {
  import opened Basics
  import opened CodePoints
  import opened AuthorityQuery
  import opened AuthorityAnswers

  datatype Source = Source(sourceId: string, approved: bool)

  /** Why a catalogue is refused. A date of another shape is reported with the entry it stands in. */
  datatype Fault =
    | UNSUPPORTED_SCHEMA
    | MISSING_SOURCE(entryId: string)
    | UNDECLARED_KIND(entryId: string)
    | MALFORMED_DATE(entryId: string)

  /** The document as it is written, before any of it is accepted. */
  datatype Document = Document(
    schema: string,
    releaseId: string,
    sources: seq<Source>,
    kinds: map<string, Kind>,
    entries: seq<Entry>)

  const SUPPORTED_SCHEMA := ['1', '.', '0']

  /** Whether each source is approved: the last record of a source is the one that counts. */
  function ApprovalOf(sources: seq<Source>): map<string, bool> {
    if sources == [] then map[]
    else
      var last := sources[|sources| - 1];
      ApprovalOf(sources[..|sources| - 1])[last.sourceId := last.approved]
  }

  function FaultOf(e: Entry, approval: map<string, bool>, kinds: map<string, Kind>): Option<Fault> {
    if e.sourceId !in approval then Some(MISSING_SOURCE(e.entryId))
    else if !approval[e.sourceId] then None
    else if e.kind !in kinds then Some(UNDECLARED_KIND(e.entryId))
    else if !DatesOrAbsent(e.start, e.end) then Some(MALFORMED_DATE(e.entryId))
    else None
  }

  predicate IsApproved(e: Entry, approval: map<string, bool>) {
    e.sourceId in approval && approval[e.sourceId]
  }

  /** The entries whose source is approved, in the order of the document. */
  function Approved(entries: seq<Entry>, approval: map<string, bool>): (r: seq<Entry>)
    ensures forall e :: e in r <==> e in entries && IsApproved(e, approval)
  {
    if entries == [] then []
    else
      var last := entries[|entries| - 1];
      Approved(entries[..|entries| - 1], approval) + (if IsApproved(last, approval) then [last] else [])
  }

  predicate Faultless(entries: seq<Entry>, approval: map<string, bool>, kinds: map<string, Kind>) {
    forall e <- entries :: FaultOf(e, approval, kinds) == None
  }

  /** i is the first place where something is wrong, and that is what is reported. */
  predicate FirstFault(doc: Document, i: nat, fault: Fault) {
    && i < |doc.entries|
    && Faultless(doc.entries[..i], ApprovalOf(doc.sources), doc.kinds)
    && FaultOf(doc.entries[i], ApprovalOf(doc.sources), doc.kinds) == Some(fault)
  }

  /** The first loop: which sources are approved, the last word on each counting. */
  method ReadApprovals(sources: seq<Source>) returns (approval: map<string, bool>)
    ensures approval == ApprovalOf(sources)
  {
    approval := map[];
    var i := 0;
    while i < |sources|
      invariant 0 <= i <= |sources|
      invariant approval == ApprovalOf(sources[..i])
    {
      assert sources[..i + 1][..i] == sources[..i];
      approval := approval[sources[i].sourceId := sources[i].approved];
      i := i + 1;
    }
    assert sources[..i] == sources;
  }

  /**
   * The catalogue is accepted exactly when every entry is in order, and holds the approved entries.
   * Otherwise the first fault is reported.
   */
  method Load(doc: Document) returns (r: Result<Catalogue, Fault>)
    ensures r.Ok? <==> doc.schema == SUPPORTED_SCHEMA && Faultless(doc.entries, ApprovalOf(doc.sources), doc.kinds)
    ensures r.Ok? ==>
      r.value == Catalogue(doc.releaseId, doc.kinds, Approved(doc.entries, ApprovalOf(doc.sources)))
    ensures r.Err? && doc.schema != SUPPORTED_SCHEMA ==> r.error == UNSUPPORTED_SCHEMA
    ensures r.Err? && doc.schema == SUPPORTED_SCHEMA ==> exists i :: FirstFault(doc, i, r.error)
  {
    if doc.schema != SUPPORTED_SCHEMA {
      return Err(UNSUPPORTED_SCHEMA);
    }
    var approval := ReadApprovals(doc.sources);
    var entries: seq<Entry> := [];
    var i := 0;
    while i < |doc.entries|
      invariant 0 <= i <= |doc.entries|
      invariant entries == Approved(doc.entries[..i], approval)
      invariant Faultless(doc.entries[..i], approval, doc.kinds)
    {
      var e := doc.entries[i];
      assert doc.entries[..i + 1] == doc.entries[..i] + [e];
      assert doc.entries[..i + 1][..i] == doc.entries[..i];
      if e.sourceId !in approval {
        assert FirstFault(doc, i, MISSING_SOURCE(e.entryId));
        return Err(MISSING_SOURCE(e.entryId));
      }
      if approval[e.sourceId] {
        if e.kind !in doc.kinds {
          assert FirstFault(doc, i, UNDECLARED_KIND(e.entryId));
          return Err(UNDECLARED_KIND(e.entryId));
        }
        if !DatesOrAbsent(e.start, e.end) {
          assert FirstFault(doc, i, MALFORMED_DATE(e.entryId));
          return Err(MALFORMED_DATE(e.entryId));
        }
        entries := entries + [e];
      }
      i := i + 1;
    }
    assert doc.entries[..i] == doc.entries;
    return Ok(Catalogue(doc.releaseId, doc.kinds, entries));
  }

  /** Record i is the last of its source. */
  predicate LastWord(sources: seq<Source>, id: string, i: nat) {
    && i < |sources| && sources[i].sourceId == id
    && forall j :: i < j < |sources| ==> sources[j].sourceId != id
  }

  lemma {:induction false} ApprovalIs(sources: seq<Source>, id: string)
    ensures id in ApprovalOf(sources) <==> exists i: nat :: LastWord(sources, id, i)
    ensures forall i: nat :: LastWord(sources, id, i) ==>
      id in ApprovalOf(sources) && ApprovalOf(sources)[id] == sources[i].approved
  {
    if sources != [] {
      var n := |sources| - 1;
      var init := sources[..n];
      ApprovalIs(init, id);
      if sources[n].sourceId == id {
        assert LastWord(sources, id, n);
      } else {
        forall i: nat
          ensures LastWord(sources, id, i) <==> LastWord(init, id, i)
        {
          assert i < n ==> init[i] == sources[i];
        }
      }
    }
  }

  /** The source of the entry is listed and, where its last record approves it, the entry is of a declared kind
      and its dates are civil dates. */
  ghost predicate InOrder(e: Entry, doc: Document) {
    exists i: nat :: LastWord(doc.sources, e.sourceId, i)
      && (doc.sources[i].approved ==>
            && e.kind in doc.kinds
            && (e.start.Some? ==> IsCivilDate(e.start.value)) && (e.end.Some? ==> IsCivilDate(e.end.value)))
  }

  /** What is wrong with an entry: its source is not listed, else its kind is not declared, else a date is malformed. */
  lemma FaultsAre(e: Entry, doc: Document)
    ensures var fault := FaultOf(e, ApprovalOf(doc.sources), doc.kinds);
      && (fault.None? <==> InOrder(e, doc))
      && (fault == Some(MISSING_SOURCE(e.entryId)) <==> forall i: nat :: !LastWord(doc.sources, e.sourceId, i))
      && (fault == Some(UNDECLARED_KIND(e.entryId)) ==> e.kind !in doc.kinds)
      && (fault == Some(MALFORMED_DATE(e.entryId)) ==> e.kind in doc.kinds)
  {
    ApprovalIs(doc.sources, e.sourceId);
    var fault := FaultOf(e, ApprovalOf(doc.sources), doc.kinds);
    if i: nat :| LastWord(doc.sources, e.sourceId, i) {
      assert fault.None? ==> InOrder(e, doc);
    }
  }

  /** The entries pass the check exactly when each of them is in order. */
  lemma FaultlessExactly(doc: Document)
    ensures Faultless(doc.entries, ApprovalOf(doc.sources), doc.kinds) <==> forall e <- doc.entries :: InOrder(e, doc)
  {
    forall e
      ensures FaultOf(e, ApprovalOf(doc.sources), doc.kinds) == None <==> InOrder(e, doc)
    {
      FaultsAre(e, doc);
    }
  }

  function CatalogueOf(doc: Document): Catalogue {
    Catalogue(doc.releaseId, doc.kinds, Approved(doc.entries, ApprovalOf(doc.sources)))
  }

  /** Every published value comes from an approved source, from an entry in force on the day. */
  lemma PublishedIsApproved(doc: Document, kind: string, ctx: Context, reference: string)
    requires Query(CatalogueOf(doc), kind, ctx, reference).Available?
    ensures var a := Query(CatalogueOf(doc), kind, ctx, reference);
      && (exists i: nat :: LastWord(doc.sources, a.sourceId, i) && doc.sources[i].approved)
      && InForceOn(reference, a.start, a.end)
  {
    var pool := Pool(CatalogueOf(doc), kind, reference);
    AvailableExactly(pool, ctx);
    var e :| LeastOf(pool, ctx, e) && Decide(pool, ctx) == From(e);
    assert Passes(e, InForce(reference));
    assert e in Select(CatalogueOf(doc).entries, OfKind(kind));
    assert IsApproved(e, ApprovalOf(doc.sources));
    ApprovalIs(doc.sources, e.sourceId);
  }

  lemma {:induction false} ApprovedAlone(entries: seq<Entry>, approval: map<string, bool>)
    requires forall i :: 0 <= i < |entries| ==> IsApproved(entries[i], approval)
    ensures Approved(entries, approval) == entries
  {
    if entries != [] {
      ApprovedAlone(entries[..|entries| - 1], approval);
      assert IsApproved(entries[|entries| - 1], approval);
    }
  }

  /** Taking the unapproved entries out of the document changes nothing that is loaded, so no answer. */
  lemma UnapprovedIsInvisible(doc: Document)
    ensures CatalogueOf(doc.(entries := Approved(doc.entries, ApprovalOf(doc.sources)))) == CatalogueOf(doc)
  {
    var approval := ApprovalOf(doc.sources);
    var loaded := Approved(doc.entries, approval);
    forall i | 0 <= i < |loaded|
      ensures IsApproved(loaded[i], approval)
    {
      assert loaded[i] in loaded;
    }
    ApprovedAlone(loaded, approval);
  }
}
