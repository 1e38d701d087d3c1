/** The authority query: which official entry answers a question about one case. */
module AuthorityQuery {
  import opened Basics
  import opened CodePoints
  import opened JsonText
  import opened CanonicalJson

  /** What the caller knows about the case, field by field. */
  type Context = map<string, string>

  datatype Entry = Entry(
    entryId: string,
    kind: string,
    applicability: map<string, string>,
    value: seq<Member>,
    sourceId: string,
    start: Option<string>,
    end: Option<string>)

  datatype Kind = Kind(needsOfficialSource: bool)

  datatype Catalogue = Catalogue(releaseId: string, kinds: map<string, Kind>, entries: seq<Entry>)

  datatype Reason = UNKNOWN_KIND | NO_OFFICIAL_SOURCE | NOT_IN_FORCE | INCOMPATIBLE_CONTEXT

  datatype Answer =
    | NotAvailable(reason: Reason, context: Context)
    | Conflict(context: Context, entryIds: seq<string>)
    | NeedsContext(context: Context, missing: seq<string>, options: map<string, seq<string>>)
    | Available(value: seq<Member>, applicability: Context, sourceId: string, entryId: string,
                start: Option<string>, end: Option<string>)

  // ------------------------------------------------------ three-way applicability

  /** The context states another value for some criterion of the entry. */
  predicate Excluded(e: Entry, ctx: Context) {
    exists k <- e.applicability.Keys :: k in ctx && ctx[k] != e.applicability[k]
  }

  /** The context states a value for every criterion of the entry. */
  predicate Covered(e: Entry, ctx: Context) {
    forall k <- e.applicability.Keys :: k in ctx
  }

  predicate Determined(e: Entry, ctx: Context) {
    !Excluded(e, ctx) && Covered(e, ctx)
  }

  predicate Candidate(e: Entry, ctx: Context) {
    !Excluded(e, ctx) && !Covered(e, ctx)
  }

  function Specificity(e: Entry): nat {
    |e.applicability|
  }

  /** The tests by which lists of entries are filtered. */
  datatype Test =
    | OfKind(kind: string)
    | InForce(reference: string)
    | IsDetermined(ctx: Context)
    | IsCandidate(ctx: Context)
    | AsSpecificAs(n: nat)

  predicate Passes(e: Entry, t: Test) {
    match t
    case OfKind(kind) => e.kind == kind
    case InForce(reference) => InForceOn(reference, e.start, e.end)
    case IsDetermined(ctx) => Determined(e, ctx)
    case IsCandidate(ctx) => Candidate(e, ctx)
    case AsSpecificAs(n) => Specificity(e) == n
  }

  function Select(s: seq<Entry>, t: Test): (r: seq<Entry>)
    ensures forall e :: e in r <==> e in s && Passes(e, t)
  {
    if s == [] then []
    else
      var last := s[|s| - 1];
      Select(s[..|s| - 1], t) + (if Passes(last, t) then [last] else [])
  }

  function MaxSpecificity(s: seq<Entry>): (n: nat)
    requires s != []
    ensures forall e <- s :: Specificity(e) <= n
    ensures exists e <- s :: Specificity(e) == n
  {
    var last := s[|s| - 1];
    if |s| == 1 then
      assert last in s;
      Specificity(last)
    else
      var n := MaxSpecificity(s[..|s| - 1]);
      if n < Specificity(last) then Specificity(last) else n
  }

  function Finalists(determined: seq<Entry>): (r: seq<Entry>)
    requires determined != []
    ensures r != []
  {
    var n := MaxSpecificity(determined);
    var e :| e in determined && Specificity(e) == n;
    assert e in Select(determined, AsSpecificAs(n));
    Select(determined, AsSpecificAs(n))
  }

  function Signatures(s: seq<Entry>): (r: seq<string>)
    ensures |r| == |s|
    ensures forall i :: 0 <= i < |s| ==> r[i] == Signature(s[i].value)
  {
    if s == [] then [] else Signatures(s[..|s| - 1]) + [Signature(s[|s| - 1].value)]
  }

  function Ids(s: seq<Entry>): (r: seq<string>)
    ensures |r| == |s|
    ensures forall i :: 0 <= i < |s| ==> r[i] == s[i].entryId
  {
    if s == [] then [] else Ids(s[..|s| - 1]) + [s[|s| - 1].entryId]
  }

  /** The entry with the least id; the earlier one on a tie. */
  function LeastId(s: seq<Entry>): (r: Entry)
    requires s != []
    ensures r in s
  {
    if |s| == 1 then s[0]
    else
      var a := LeastId(s[..|s| - 1]);
      var b := s[|s| - 1];
      if Order(a.entryId, b.entryId) <= 0 then a else b
  }

  // ------------------------------------------------------------------ the query

  /** The criteria that some candidate has and the context does not state. */
  function MissingIn(candidates: seq<Entry>, ctx: Context): set<string> {
    set e, k | e in candidates && k in e.applicability && k !in ctx :: k
  }

  /** The values that candidates have for one criterion. */
  function OptionsIn(candidates: seq<Entry>, k: string): set<string> {
    set e | e in candidates && k in e.applicability :: e.applicability[k]
  }

  ghost function OptionList(candidates: seq<Entry>, k: string): seq<string> {
    SortedSet(OptionsIn(candidates, k))
  }

  ghost function AllOptions(candidates: seq<Entry>, missing: seq<string>): map<string, seq<string>> {
    map k | k in missing :: OptionList(candidates, k)
  }

  ghost function Question(candidates: seq<Entry>, ctx: Context): Answer {
    var missing := SortedSet(MissingIn(candidates, ctx));
    NeedsContext(ctx, missing, AllOptions(candidates, missing))
  }

  /** What is said of the most specific determined entries. */
  function Verdict(finalists: seq<Entry>, ctx: Context): Answer
    requires finalists != []
  {
    if |Distinct(Signatures(finalists))| > 1 then Conflict(ctx, Sorted(Ids(finalists)))
    else
      var e := LeastId(finalists);
      Available(e.value, e.applicability, e.sourceId, e.entryId, e.start, e.end)
  }

  /** The answer from the entries of the kind that are in force. */
  ghost function Decide(pool: seq<Entry>, ctx: Context): Answer {
    var determined := Select(pool, IsDetermined(ctx));
    var candidates := Select(pool, IsCandidate(ctx));
    if determined != [] then Verdict(Finalists(determined), ctx)
    else if candidates == [] then NotAvailable(INCOMPATIBLE_CONTEXT, ctx)
    else Question(candidates, ctx)
  }

  function Pool(cat: Catalogue, kind: string, reference: string): seq<Entry> {
    Select(Select(cat.entries, OfKind(kind)), InForce(reference))
  }

  ghost function Query(cat: Catalogue, kind: string, ctx: Context, reference: string): Answer {
    if kind !in cat.kinds then NotAvailable(UNKNOWN_KIND, ctx)
    else if Select(cat.entries, OfKind(kind)) == [] then
      NotAvailable(if cat.kinds[kind].needsOfficialSource then NO_OFFICIAL_SOURCE else NOT_IN_FORCE, ctx)
    else if Pool(cat, kind, reference) == [] then NotAvailable(NOT_IN_FORCE, ctx)
    else Decide(Pool(cat, kind, reference), ctx)
  }

  /** The query as it is computed: one pass sorts the entries into groups, one asks field by field. */
  method Consult(cat: Catalogue, kind: string, ctx: Context, reference: string) returns (r: Answer)
    ensures r == Query(cat, kind, ctx, reference)
  {
    if kind !in cat.kinds {
      return NotAvailable(UNKNOWN_KIND, ctx);
    }
    var ofKind := Select(cat.entries, OfKind(kind));
    if |ofKind| == 0 {
      return NotAvailable(if cat.kinds[kind].needsOfficialSource then NO_OFFICIAL_SOURCE else NOT_IN_FORCE, ctx);
    }
    var pool := Select(ofKind, InForce(reference));
    if |pool| == 0 {
      return NotAvailable(NOT_IN_FORCE, ctx);
    }
    var determined, candidates := Classify(pool, ctx);
    if |determined| > 0 {
      return Verdict(Finalists(determined), ctx);
    }
    if |candidates| == 0 {
      return NotAvailable(INCOMPATIBLE_CONTEXT, ctx);
    }
    r := Ask(candidates, ctx);
  }

  method Classify(pool: seq<Entry>, ctx: Context) returns (determined: seq<Entry>, candidates: seq<Entry>)
    ensures determined == Select(pool, IsDetermined(ctx))
    ensures candidates == Select(pool, IsCandidate(ctx))
  {
    determined, candidates := [], [];
    var i := 0;
    while i < |pool|
      invariant 0 <= i <= |pool|
      invariant determined == Select(pool[..i], IsDetermined(ctx))
      invariant candidates == Select(pool[..i], IsCandidate(ctx))
    {
      assert pool[..i + 1][..i] == pool[..i];
      if !Excluded(pool[i], ctx) {
        if Covered(pool[i], ctx) {
          determined := determined + [pool[i]];
        } else {
          candidates := candidates + [pool[i]];
        }
      }
      i := i + 1;
    }
    assert pool[..i] == pool;
  }

  method Ask(candidates: seq<Entry>, ctx: Context) returns (r: Answer)
    ensures r == Question(candidates, ctx)
  {
    var missing := Sort(MissingIn(candidates, ctx));
    var options: map<string, seq<string>> := map[];
    var i := 0;
    while i < |missing|
      invariant 0 <= i <= |missing|
      invariant forall k :: k in options <==> k in missing[..i]
      invariant forall k :: k in options ==> options[k] == OptionList(candidates, k)
    {
      var sorted := SortOptions(candidates, missing[i]);
      options := options[missing[i] := sorted];
      TakeOneMore(missing, i);
      i := i + 1;
    }
    assert missing[..i] == missing;
    EveryFieldAsked(candidates, missing, options);
    r := NeedsContext(ctx, missing, options);
  }

  method SortOptions(candidates: seq<Entry>, k: string) returns (r: seq<string>)
    ensures r == OptionList(candidates, k)
  {
    r := Sort(OptionsIn(candidates, k));
  }

  lemma EveryFieldAsked(candidates: seq<Entry>, missing: seq<string>, options: map<string, seq<string>>)
    requires forall k :: k in options <==> k in missing
    requires forall k :: k in options ==> options[k] == OptionList(candidates, k)
    ensures options == AllOptions(candidates, missing)
  {
  }

  lemma TakeOneMore(s: seq<string>, i: nat)
    requires i < |s|
    ensures forall k :: k in s[..i + 1] <==> k in s[..i] || k == s[i]
  {
    assert s[..i + 1] == s[..i] + [s[i]];
  }
}
