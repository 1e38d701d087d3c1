/** What the answers of the authority query mean, and that its questions come to an end. */
module AuthorityAnswers {
  import opened CodePoints
  import opened JsonText
  import opened CanonicalJson
  import opened AuthorityQuery

  /** The context states every criterion of the entry, at the value the entry has. */
  predicate Fits(e: Entry, ctx: Context) {
    forall k <- e.applicability.Keys :: k in ctx && ctx[k] == e.applicability[k]
  }

  /** The context states some criterion of the entry at another value. */
  predicate Contradicted(e: Entry, ctx: Context) {
    exists k <- e.applicability.Keys :: k in ctx && ctx[k] != e.applicability[k]
  }

  /** The entry turns on something that the context does not state. */
  predicate MayFit(e: Entry, ctx: Context) {
    !Fits(e, ctx) && !Contradicted(e, ctx)
  }

  /** The three groups of the query are those of entries that fit, may fit, or are contradicted. */
  lemma GroupsAre(ctx: Context)
    ensures forall e :: Determined(e, ctx) <==> Fits(e, ctx)
    ensures forall e :: Excluded(e, ctx) <==> Contradicted(e, ctx)
    ensures forall e :: Candidate(e, ctx) <==> MayFit(e, ctx)
  {
  }

  /** Among the entries of the pool that fit none has more criteria than e. */
  predicate Top(pool: seq<Entry>, ctx: Context, e: Entry) {
    && e in pool && Fits(e, ctx)
    && forall f <- pool :: Fits(f, ctx) ==> |f.applicability| <= |e.applicability|
  }

  /** All most specific determined entries carry one value. */
  predicate Agree(pool: seq<Entry>, ctx: Context) {
    forall e <- pool, f <- pool :: Top(pool, ctx, e) && Top(pool, ctx, f) ==> Alike(e, f)
  }

  predicate SomeDetermined(pool: seq<Entry>, ctx: Context) {
    exists e <- pool :: Fits(e, ctx)
  }

  function From(e: Entry): Answer {
    Available(e.value, e.applicability, e.sourceId, e.entryId, e.start, e.end)
  }

  lemma DeterminedAre(pool: seq<Entry>, ctx: Context)
    ensures forall e :: e in Select(pool, IsDetermined(ctx)) <==> e in pool && Fits(e, ctx)
    ensures forall e :: e in Select(pool, IsCandidate(ctx)) <==> e in pool && MayFit(e, ctx)
  {
    GroupsAre(ctx);
  }

  lemma FinalistsAreTop(pool: seq<Entry>, ctx: Context)
    requires SomeDetermined(pool, ctx)
    ensures Select(pool, IsDetermined(ctx)) != []
    ensures forall e :: e in Finalists(Select(pool, IsDetermined(ctx))) <==> Top(pool, ctx, e)
  {
    var determined := Select(pool, IsDetermined(ctx));
    DeterminedAre(pool, ctx);
    var some :| some in pool && Fits(some, ctx);
    assert some in determined;
    var n := MaxSpecificity(determined);
    var best :| best in determined && Specificity(best) == n;
    forall e
      ensures e in Finalists(determined) <==> Top(pool, ctx, e)
    {
      assert e in Finalists(determined) <==> e in determined && Specificity(e) == n;
      assert Top(pool, ctx, e) ==> |best.applicability| <= |e.applicability|;
    }
  }

  lemma {:induction false} SeveralDistinct(s: seq<string>)
    ensures |Distinct(s)| > 1 <==> !forall a <- s, b <- s :: a == b
  {
    var d := Distinct(s);
    DistinctHasNoRepeats(s);
    if |d| > 1 {
      assert d[0] in s && d[1] in s;
    }
    if a, b :| a in s && b in s && a != b {
      assert a in d && b in d;
    }
  }

  predicate Alike(e: Entry, f: Entry) {
    Signature(e.value) == Signature(f.value)
  }

  lemma SignatureOf(s: seq<Entry>, e: Entry)
    requires e in s
    ensures Signature(e.value) in Signatures(s)
  {
    var i :| 0 <= i < |s| && s[i] == e;
    assert Signatures(s)[i] == Signature(e.value);
  }

  lemma BearerOf(s: seq<Entry>, x: string) returns (e: Entry)
    requires x in Signatures(s)
    ensures e in s && Signature(e.value) == x
  {
    var i :| 0 <= i < |s| && Signatures(s)[i] == x;
    e := s[i];
  }

  lemma SeveralSignatures(s: seq<Entry>)
    ensures |Distinct(Signatures(s))| <= 1 <==> forall e <- s, f <- s :: Alike(e, f)
  {
    var g := Signatures(s);
    SeveralDistinct(g);
    if |Distinct(g)| <= 1 {
      forall e <- s, f <- s
        ensures Alike(e, f)
      {
        SignatureOf(s, e);
        SignatureOf(s, f);
      }
    } else {
      var a, b :| a in g && b in g && a != b;
      var e := BearerOf(s, a);
      var f := BearerOf(s, b);
      assert !Alike(e, f);
    }
  }

  lemma {:induction false} LeastIdIsLeast(s: seq<Entry>)
    requires s != []
    ensures forall e <- s :: Order(LeastId(s).entryId, e.entryId) <= 0
  {
    var r := LeastId(s);
    var last := s[|s| - 1];
    OrderIsFirstDifference(last.entryId, last.entryId);
    if |s| > 1 {
      var init := s[..|s| - 1];
      LeastIdIsLeast(init);
      OrderOpposes(LeastId(init).entryId, last.entryId);
      forall e <- init
        ensures Order(r.entryId, e.entryId) <= 0
      {
        if r == last {
          OrderIsTransitive(last.entryId, LeastId(init).entryId, e.entryId);
        }
      }
      assert s == init + [last];
    }
  }

  predicate LeastOf(pool: seq<Entry>, ctx: Context, e: Entry) {
    Top(pool, ctx, e) && forall f <- pool :: Top(pool, ctx, f) ==> Order(e.entryId, f.entryId) <= 0
  }

  /** The finalists by themselves: they agree when all their values are alike. */
  lemma FinalistsDecide(pool: seq<Entry>, ctx: Context)
    requires SomeDetermined(pool, ctx)
    ensures var s := Finalists(Select(pool, IsDetermined(ctx)));
      && Decide(pool, ctx) == Verdict(s, ctx)
      && (Agree(pool, ctx) <==> |Distinct(Signatures(s))| <= 1)
      && LeastOf(pool, ctx, LeastId(s))
  {
    FinalistsAreTop(pool, ctx);
    var s := Finalists(Select(pool, IsDetermined(ctx)));
    SeveralSignatures(s);
    LeastIdIsLeast(s);
  }

  /** A value is published exactly when the most specific determined entries agree on it. */
  lemma AvailableExactly(pool: seq<Entry>, ctx: Context)
    ensures Decide(pool, ctx).Available? <==> SomeDetermined(pool, ctx) && Agree(pool, ctx)
    ensures Decide(pool, ctx).Available? ==> exists e :: LeastOf(pool, ctx, e) && Decide(pool, ctx) == From(e)
  {
    if SomeDetermined(pool, ctx) {
      FinalistsDecide(pool, ctx);
    } else {
      NoneDetermined(pool, ctx);
    }
  }

  /** Every value in the pool is a JSON object without repeated keys. */
  predicate SoundValues(pool: seq<Entry>) {
    forall e <- pool :: Plain(Object(e.value)) && NoRepeats(Keys(e.value))
  }

  /**
   * What is published is about this case, and has the fields of every most specific entry.
   */
  lemma PublishedIsTheOneValue(pool: seq<Entry>, ctx: Context)
    requires SoundValues(pool) && Decide(pool, ctx).Available?
    ensures var a := Decide(pool, ctx);
      && (forall k <- a.applicability.Keys :: k in ctx && ctx[k] == a.applicability[k])
      && (forall f <- pool :: Top(pool, ctx, f) ==> SameFields(a.value, f.value))
  {
    AvailableExactly(pool, ctx);
    var e :| LeastOf(pool, ctx, e) && Decide(pool, ctx) == From(e);
    forall f <- pool | Top(pool, ctx, f)
      ensures SameFields(e.value, f.value)
    {
      assert Alike(e, f);
      SignatureIffSameFields(e.value, f.value);
    }
  }

  lemma NoneDetermined(pool: seq<Entry>, ctx: Context)
    ensures SomeDetermined(pool, ctx) <==> Select(pool, IsDetermined(ctx)) != []
  {
    var determined := Select(pool, IsDetermined(ctx));
    if determined != [] {
      assert determined[0] in pool;
    }
  }

  predicate TopId(pool: seq<Entry>, ctx: Context, id: string) {
    exists e <- pool :: Top(pool, ctx, e) && e.entryId == id
  }

  /** Sources conflict exactly when those entries disagree, and then each of them is named. */
  lemma ConflictExactly(pool: seq<Entry>, ctx: Context)
    ensures Decide(pool, ctx).Conflict? <==> SomeDetermined(pool, ctx) && !Agree(pool, ctx)
    ensures Decide(pool, ctx).Conflict? ==>
      && Ascending(Decide(pool, ctx).entryIds)
      && forall x :: x in Decide(pool, ctx).entryIds <==> TopId(pool, ctx, x)
  {
    if SomeDetermined(pool, ctx) {
      FinalistsDecide(pool, ctx);
      var s := Finalists(Select(pool, IsDetermined(ctx)));
      SortedAscends(Ids(s));
      FinalistIds(pool, ctx);
    } else {
      NoneDetermined(pool, ctx);
    }
  }

  lemma FinalistIds(pool: seq<Entry>, ctx: Context)
    requires SomeDetermined(pool, ctx)
    ensures Select(pool, IsDetermined(ctx)) != []
    ensures forall x :: x in Ids(Finalists(Select(pool, IsDetermined(ctx)))) <==> TopId(pool, ctx, x)
  {
    FinalistsAreTop(pool, ctx);
    IdsAre(Finalists(Select(pool, IsDetermined(ctx))));
  }

  lemma IdsAre(s: seq<Entry>)
    ensures forall x :: x in Ids(s) <==> exists e <- s :: e.entryId == x
  {
    forall e <- s
      ensures e.entryId in Ids(s)
    {
      var i :| 0 <= i < |s| && s[i] == e;
      assert Ids(s)[i] == e.entryId;
    }
    forall x <- Ids(s)
      ensures exists e <- s :: e.entryId == x
    {
      var i :| 0 <= i < |s| && Ids(s)[i] == x;
      assert s[i] in s;
    }
  }

  /** The context rules out every entry exactly when nothing is available. */
  lemma RefusalExactly(pool: seq<Entry>, ctx: Context)
    ensures Decide(pool, ctx).NotAvailable? <==> forall e <- pool :: Contradicted(e, ctx)
  {
    var determined := Select(pool, IsDetermined(ctx));
    var candidates := Select(pool, IsCandidate(ctx));
    if determined == [] && candidates == [] {
      forall e <- pool
        ensures Contradicted(e, ctx)
      {
        assert e !in determined && e !in candidates;
      }
    } else if determined != [] {
      assert determined[0] in pool && !Contradicted(determined[0], ctx);
    } else {
      assert candidates[0] in pool && !Contradicted(candidates[0], ctx);
    }
  }

  predicate SomeCandidate(pool: seq<Entry>, ctx: Context) {
    exists e <- pool :: MayFit(e, ctx)
  }

  lemma NoCandidate(pool: seq<Entry>, ctx: Context)
    ensures SomeCandidate(pool, ctx) <==> Select(pool, IsCandidate(ctx)) != []
  {
    var candidates := Select(pool, IsCandidate(ctx));
    if candidates != [] {
      assert candidates[0] in pool;
    }
  }

  /** A question is asked exactly when an entry may apply and none is determined. */
  lemma QuestionExactly(pool: seq<Entry>, ctx: Context)
    ensures Decide(pool, ctx).NeedsContext? <==> !SomeDetermined(pool, ctx) && SomeCandidate(pool, ctx)
    ensures Decide(pool, ctx).NeedsContext? ==> Decide(pool, ctx) == Question(Select(pool, IsCandidate(ctx)), ctx)
  {
    if SomeDetermined(pool, ctx) {
      FinalistsDecide(pool, ctx);
    } else {
      NoneDetermined(pool, ctx);
    }
    NoCandidate(pool, ctx);
  }

  /** A candidate turns on criterion k, which the context does not state. */
  predicate Open(pool: seq<Entry>, ctx: Context, k: string) {
    k !in ctx && exists e <- pool :: MayFit(e, ctx) && k in e.applicability
  }

  /** Some candidate has the value v for criterion k. */
  predicate Offered(pool: seq<Entry>, ctx: Context, k: string, v: string) {
    exists e <- pool :: MayFit(e, ctx) && k in e.applicability && e.applicability[k] == v
  }

  lemma MissingIsOpen(pool: seq<Entry>, ctx: Context, k: string)
    ensures k in MissingIn(Select(pool, IsCandidate(ctx)), ctx) <==> Open(pool, ctx, k)
  {
  }

  lemma OptionIsOffered(pool: seq<Entry>, ctx: Context, k: string, v: string)
    ensures v in OptionsIn(Select(pool, IsCandidate(ctx)), k) <==> Offered(pool, ctx, k, v)
  {
  }

  /** The question names the criteria that are open, in order, once each. */
  lemma QuestionMeans(pool: seq<Entry>, ctx: Context)
    requires Decide(pool, ctx).NeedsContext?
    ensures NoRepeats(Decide(pool, ctx).missing) && Ascending(Decide(pool, ctx).missing)
    ensures forall k :: k in Decide(pool, ctx).missing <==> Open(pool, ctx, k)
    ensures forall k :: k in Decide(pool, ctx).options <==> k in Decide(pool, ctx).missing
  {
    QuestionExactly(pool, ctx);
    var missing := MissingIn(Select(pool, IsCandidate(ctx)), ctx);
    SortedSetHas(missing);
    forall k
      ensures k in missing <==> Open(pool, ctx, k)
    {
      MissingIsOpen(pool, ctx, k);
    }
  }

  /** For each it lists the values that candidates have. */
  lemma OptionsMean(pool: seq<Entry>, ctx: Context, k: string)
    requires Decide(pool, ctx).NeedsContext? && k in Decide(pool, ctx).options
    ensures NoRepeats(Decide(pool, ctx).options[k]) && Ascending(Decide(pool, ctx).options[k])
    ensures forall v :: v in Decide(pool, ctx).options[k] <==> Offered(pool, ctx, k, v)
  {
    QuestionExactly(pool, ctx);
    var options := OptionsIn(Select(pool, IsCandidate(ctx)), k);
    SortedSetHas(options);
    forall v
      ensures v in options <==> Offered(pool, ctx, k, v)
    {
      OptionIsOffered(pool, ctx, k, v);
    }
  }

  // ------------------------------------------------------ the whole query

  /** With an entry in force the answer is that of the pool; a pool without one decides nothing. */
  lemma QueryDecides(cat: Catalogue, kind: string, ctx: Context, reference: string)
    ensures var pool := Pool(cat, kind, reference);
      && (kind in cat.kinds && pool != [] ==> Query(cat, kind, ctx, reference) == Decide(pool, ctx))
      && (kind !in cat.kinds || pool == [] ==> Query(cat, kind, ctx, reference).NotAvailable?)
  {
  }

  /** A value is published exactly when the kind is declared and the most specific entries in force agree. */
  lemma QueryPublishes(cat: Catalogue, kind: string, ctx: Context, reference: string)
    ensures var q, pool := Query(cat, kind, ctx, reference), Pool(cat, kind, reference);
      && (q.Available? <==> kind in cat.kinds && SomeDetermined(pool, ctx) && Agree(pool, ctx))
      && (q.Available? ==> exists e :: LeastOf(pool, ctx, e) && q == From(e))
  {
    QueryDecides(cat, kind, ctx, reference);
    AvailableExactly(Pool(cat, kind, reference), ctx);
  }

  /** A conflict is reported exactly when the kind is declared and they disagree. */
  lemma QueryDisputes(cat: Catalogue, kind: string, ctx: Context, reference: string)
    ensures var q, pool := Query(cat, kind, ctx, reference), Pool(cat, kind, reference);
      && (q.Conflict? <==> kind in cat.kinds && SomeDetermined(pool, ctx) && !Agree(pool, ctx))
      && (q.Conflict? ==> Ascending(q.entryIds) && forall x :: x in q.entryIds <==> TopId(pool, ctx, x))
  {
    QueryDecides(cat, kind, ctx, reference);
    ConflictExactly(Pool(cat, kind, reference), ctx);
  }

  /** Nothing of the kind is in the catalogue, in force or not. */
  predicate NothingOf(cat: Catalogue, kind: string) {
    forall e <- cat.entries :: e.kind != kind
  }

  /** When the query has no answer to give, and which of the four reasons it states. */
  lemma QueryRefuses(cat: Catalogue, kind: string, ctx: Context, reference: string)
    ensures var q, pool := Query(cat, kind, ctx, reference), Pool(cat, kind, reference);
      && (q.NotAvailable? <==> kind !in cat.kinds || forall e <- pool :: Contradicted(e, ctx))
      && (q.NotAvailable? ==> match q.reason
            case UNKNOWN_KIND => kind !in cat.kinds
            case NO_OFFICIAL_SOURCE => kind in cat.kinds && cat.kinds[kind].needsOfficialSource && NothingOf(cat, kind)
            case NOT_IN_FORCE =>
              && kind in cat.kinds && !(cat.kinds[kind].needsOfficialSource && NothingOf(cat, kind))
              && forall e <- cat.entries :: e.kind == kind ==> !InForceOn(reference, e.start, e.end)
            case INCOMPATIBLE_CONTEXT => kind in cat.kinds && pool != [])
  {
    QueryDecides(cat, kind, ctx, reference);
    RefusalExactly(Pool(cat, kind, reference), ctx);
    var all := Select(cat.entries, OfKind(kind));
    if all != [] {
      assert all[0] in cat.entries;
    }
  }

  /**
   * Context is asked for exactly when the kind is declared and no entry in force is determined but
   * some still could be. What is asked are the fields they turn on, each with the values they have.
   */
  lemma QueryAsks(cat: Catalogue, kind: string, ctx: Context, reference: string)
    ensures var q, pool := Query(cat, kind, ctx, reference), Pool(cat, kind, reference);
      && (q.NeedsContext? <==> kind in cat.kinds && !SomeDetermined(pool, ctx) && SomeCandidate(pool, ctx))
      && (q.NeedsContext? ==>
            && NoRepeats(q.missing) && Ascending(q.missing)
            && (forall k :: k in q.missing <==> Open(pool, ctx, k))
            && (forall k :: k in q.options <==> k in q.missing)
            && (forall k, v | k in q.options :: v in q.options[k] <==> Offered(pool, ctx, k, v)))
  {
    var q, pool := Query(cat, kind, ctx, reference), Pool(cat, kind, reference);
    QueryDecides(cat, kind, ctx, reference);
    QuestionExactly(pool, ctx);
    if q.NeedsContext? {
      QuestionMeans(pool, ctx);
      forall k, v | k in q.options
        ensures v in q.options[k] <==> Offered(pool, ctx, k, v)
      {
        OptionsMean(pool, ctx, k);
      }
    }
  }

  // ------------------------------------------- the more criteria, the more weight

  /** An entry of the kind, in force on the day of reference, all of whose criteria the context states as they are. */
  predicate Speaks(cat: Catalogue, kind: string, ctx: Context, reference: string, e: Entry) {
    e in cat.entries && e.kind == kind && InForceOn(reference, e.start, e.end) && Fits(e, ctx)
  }

  lemma PoolHolds(cat: Catalogue, kind: string, reference: string)
    ensures forall e :: e in Pool(cat, kind, reference) <==>
      e in cat.entries && e.kind == kind && InForceOn(reference, e.start, e.end)
  {
    var ofKind := Select(cat.entries, OfKind(kind));
    forall e
      ensures e in Pool(cat, kind, reference) <==>
        e in cat.entries && e.kind == kind && InForceOn(reference, e.start, e.end)
    {
      assert e in Pool(cat, kind, reference) <==> e in ofKind && Passes(e, InForce(reference));
      assert e in ofKind <==> e in cat.entries && Passes(e, OfKind(kind));
    }
  }

  /** Some entry with this id speaks, and has at least n criteria. */
  predicate NamedWith(cat: Catalogue, kind: string, ctx: Context, reference: string, id: string, n: nat) {
    exists e <- cat.entries :: Speaks(cat, kind, ctx, reference, e) && e.entryId == id && |e.applicability| >= n
  }

  /**
   * While an entry f speaks, whatever has fewer criteria than f decides nothing. A value that is published
   * is that of an entry with at least as many, and so is each entry that a conflict names.
   */
  lemma MoreCriteriaDecide(cat: Catalogue, kind: string, ctx: Context, reference: string, f: Entry)
    requires kind in cat.kinds && Speaks(cat, kind, ctx, reference, f)
    ensures var q := Query(cat, kind, ctx, reference);
      && (q.Available? || q.Conflict?)
      && (q.Available? ==> exists e <- cat.entries ::
            Speaks(cat, kind, ctx, reference, e) && q == From(e) && |f.applicability| <= |e.applicability|)
      && (q.Conflict? ==> forall id <- q.entryIds :: NamedWith(cat, kind, ctx, reference, id, |f.applicability|))
  {
    var q, pool := Query(cat, kind, ctx, reference), Pool(cat, kind, reference);
    PoolHolds(cat, kind, reference);
    assert f in pool && SomeDetermined(pool, ctx);
    QueryPublishes(cat, kind, ctx, reference);
    QueryDisputes(cat, kind, ctx, reference);
    if q.Available? {
      var e :| LeastOf(pool, ctx, e) && q == From(e);
      assert Speaks(cat, kind, ctx, reference, e);
    } else {
      forall id <- q.entryIds
        ensures NamedWith(cat, kind, ctx, reference, id, |f.applicability|)
      {
        assert TopId(pool, ctx, id);
        var e :| e in pool && Top(pool, ctx, e) && e.entryId == id;
        assert Speaks(cat, kind, ctx, reference, e);
      }
    }
  }
}
