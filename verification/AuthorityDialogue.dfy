/** The answer does not depend on the order of the catalogue, and asking comes to an end. */
module AuthorityDialogue {
  import opened CodePoints
  import opened AuthorityQuery
  import opened AuthorityAnswers

  // ------------------------------------------------------ order of the entries

  predicate UniqueIds(s: seq<Entry>) {
    NoRepeats(Ids(s))
  }

  predicate SameMembers(a: seq<Entry>, b: seq<Entry>) {
    (forall e <- a :: e in b) && (forall e <- b :: e in a)
  }

  lemma IdTellsEntry(s: seq<Entry>, e: Entry, f: Entry)
    requires UniqueIds(s) && e in s && f in s && e.entryId == f.entryId
    ensures e == f
  {
    var i :| 0 <= i < |s| && s[i] == e;
    var j :| 0 <= j < |s| && s[j] == f;
    assert Ids(s)[i] == Ids(s)[j];
  }

  lemma SelectedIds(s: seq<Entry>, t: Test, id: string)
    requires id !in Ids(s)
    ensures id !in Ids(Select(s, t))
  {
    IdsAre(s);
    IdsAre(Select(s, t));
  }

  lemma AppendKeepsUnique(s: seq<Entry>, e: Entry)
    ensures UniqueIds(s + [e]) <==> UniqueIds(s) && e.entryId !in Ids(s)
  {
    assert (s + [e])[..|s|] == s;
    var ids := Ids(s + [e]);
    assert ids == Ids(s) + [e.entryId];
    if UniqueIds(s + [e]) {
      assert forall i :: 0 <= i < |s| ==> ids[i] == Ids(s)[i] && ids[i] != ids[|s|];
    }
  }

  lemma {:induction false} SelectKeepsUnique(s: seq<Entry>, t: Test)
    requires UniqueIds(s)
    ensures UniqueIds(Select(s, t))
  {
    if s != [] {
      var init, last := s[..|s| - 1], s[|s| - 1];
      assert s == init + [last];
      AppendKeepsUnique(init, last);
      SelectKeepsUnique(init, t);
      SelectedIds(init, t, last.entryId);
      AppendKeepsUnique(Select(init, t), last);
    }
  }

  lemma PermutedIsSame(a: seq<Entry>, b: seq<Entry>)
    requires UniqueIds(a) && multiset(a) == multiset(b)
    ensures SameMembers(a, b) && UniqueIds(b)
  {
    forall e
      ensures e in a <==> e in b
    {
      assert e in multiset(a) <==> e in multiset(b);
    }
    forall i, j | 0 <= i < j < |b|
      ensures Ids(b)[i] != Ids(b)[j]
    {
      if Ids(b)[i] == Ids(b)[j] {
        IdTellsEntry(a, b[i], b[j]);
        TwicePresent(b, i, j);
        OncePresent(a, b[i]);
        assert false;
      }
    }
  }

  lemma OncePresent(s: seq<Entry>, e: Entry)
    requires UniqueIds(s)
    ensures multiset(s)[e] <= 1
  {
    forall i, j | 0 <= i < j < |s|
      ensures s[i] != s[j]
    {
      assert Ids(s)[i] != Ids(s)[j];
    }
    NoRepeatsCount(s, e);
  }

  lemma SelectSame(a: seq<Entry>, b: seq<Entry>, t: Test)
    requires SameMembers(a, b) && UniqueIds(a) && UniqueIds(b)
    ensures SameMembers(Select(a, t), Select(b, t)) && UniqueIds(Select(a, t)) && UniqueIds(Select(b, t))
    ensures Select(a, t) == [] <==> Select(b, t) == []
  {
    SelectKeepsUnique(a, t);
    SelectKeepsUnique(b, t);
    if Select(a, t) != [] {
      assert Select(a, t)[0] in Select(b, t);
    }
    if Select(b, t) != [] {
      assert Select(b, t)[0] in Select(a, t);
    }
  }

  lemma TopSame(a: seq<Entry>, b: seq<Entry>, ctx: Context)
    requires SameMembers(a, b)
    ensures SomeDetermined(a, ctx) <==> SomeDetermined(b, ctx)
    ensures forall e :: Top(a, ctx, e) <==> Top(b, ctx, e)
    ensures Agree(a, ctx) <==> Agree(b, ctx)
  {
  }

  lemma DecisionSame(a: seq<Entry>, b: seq<Entry>, ctx: Context)
    requires SameMembers(a, b) && UniqueIds(a) && UniqueIds(b)
    ensures Decide(a, ctx) == Decide(b, ctx)
  {
    TopSame(a, b, ctx);
    if SomeDetermined(a, ctx) {
      if Agree(a, ctx) {
        PublishedSame(a, b, ctx);
      } else {
        ConflictSame(a, b, ctx);
      }
    } else {
      SelectSame(a, b, IsDetermined(ctx));
      SelectSame(a, b, IsCandidate(ctx));
      NoneDetermined(a, ctx);
      QuestionSame(Select(a, IsCandidate(ctx)), Select(b, IsCandidate(ctx)), ctx);
    }
  }

  lemma PublishedSame(a: seq<Entry>, b: seq<Entry>, ctx: Context)
    requires SameMembers(a, b) && UniqueIds(a)
    requires SomeDetermined(a, ctx) && SomeDetermined(b, ctx) && Agree(a, ctx) && Agree(b, ctx)
    ensures Decide(a, ctx) == Decide(b, ctx)
  {
    AvailableExactly(a, ctx);
    AvailableExactly(b, ctx);
    var e :| LeastOf(a, ctx, e) && Decide(a, ctx) == From(e);
    var f :| LeastOf(b, ctx, f) && Decide(b, ctx) == From(f);
    TopSame(a, b, ctx);
    OrderOpposes(e.entryId, f.entryId);
    OrderIsFirstDifference(e.entryId, f.entryId);
    IdTellsEntry(a, e, f);
  }

  lemma ConflictSame(a: seq<Entry>, b: seq<Entry>, ctx: Context)
    requires SameMembers(a, b) && UniqueIds(a) && UniqueIds(b)
    requires SomeDetermined(a, ctx) && SomeDetermined(b, ctx) && !Agree(a, ctx) && !Agree(b, ctx)
    ensures Decide(a, ctx) == Decide(b, ctx)
  {
    FinalistsDecide(a, ctx);
    FinalistsDecide(b, ctx);
    FinalistIds(a, ctx);
    FinalistIds(b, ctx);
    TopSame(a, b, ctx);
    SelectKeepsUnique(a, IsDetermined(ctx));
    SelectKeepsUnique(b, IsDetermined(ctx));
    var da, db := Select(a, IsDetermined(ctx)), Select(b, IsDetermined(ctx));
    SelectKeepsUnique(da, AsSpecificAs(MaxSpecificity(da)));
    SelectKeepsUnique(db, AsSpecificAs(MaxSpecificity(db)));
    forall x
      ensures TopId(a, ctx, x) <==> TopId(b, ctx, x)
    {
    }
    SortedOfSet(Ids(Finalists(da)), Ids(Finalists(db)));
  }

  lemma MissingSame(a: seq<Entry>, b: seq<Entry>, ctx: Context)
    requires SameMembers(a, b)
    ensures MissingIn(a, ctx) == MissingIn(b, ctx)
  {
  }

  lemma OptionsSame(a: seq<Entry>, b: seq<Entry>, k: string)
    requires SameMembers(a, b)
    ensures OptionList(a, k) == OptionList(b, k)
  {
    assert OptionsIn(a, k) == OptionsIn(b, k);
  }

  lemma QuestionSame(a: seq<Entry>, b: seq<Entry>, ctx: Context)
    requires SameMembers(a, b)
    ensures Question(a, ctx) == Question(b, ctx)
  {
    MissingSame(a, b, ctx);
    var missing := SortedSet(MissingIn(a, ctx));
    var options := AllOptions(a, missing);
    forall k
      ensures k in options ==> options[k] == OptionList(b, k)
    {
      OptionsSame(a, b, k);
    }
    EveryFieldAsked(b, missing, options);
  }

  /** No arrangement of the catalogue changes any answer. */
  lemma OrderIsIrrelevant(cat: Catalogue, shuffled: seq<Entry>, kind: string, ctx: Context, reference: string)
    requires UniqueIds(cat.entries) && multiset(shuffled) == multiset(cat.entries)
    ensures Query(cat, kind, ctx, reference) == Query(cat.(entries := shuffled), kind, ctx, reference)
  {
    PermutedIsSame(cat.entries, shuffled);
    SelectSame(cat.entries, shuffled, OfKind(kind));
    var a, b := Select(cat.entries, OfKind(kind)), Select(shuffled, OfKind(kind));
    SelectSame(a, b, InForce(reference));
    DecisionSame(Select(a, InForce(reference)), Select(b, InForce(reference)), ctx);
  }

  // ------------------------------------------------------ specific over general

  lemma FewerCriteria(e: Entry, f: Entry)
    requires e.applicability.Keys < f.applicability.Keys
    ensures |e.applicability| < |f.applicability|
  {
    var k :| k in f.applicability.Keys && k !in e.applicability.Keys;
    FewerLeft(e.applicability.Keys, f.applicability.Keys, k);
    assert |e.applicability.Keys| == |e.applicability| && |f.applicability.Keys| == |f.applicability|;
  }

  /**
   * An entry that speaks to the case is neither published nor named in a conflict while another that
   * speaks has more criteria. In particular a rule gives way to its exceptions.
   */
  lemma GeneralGivesWay(cat: Catalogue, kind: string, ctx: Context, reference: string, e: Entry, f: Entry)
    requires UniqueIds(cat.entries) && kind in cat.kinds
    requires Speaks(cat, kind, ctx, reference, e) && Speaks(cat, kind, ctx, reference, f)
    requires |e.applicability| < |f.applicability| || e.applicability.Keys < f.applicability.Keys
    ensures var q := Query(cat, kind, ctx, reference);
      && (q.Available? ==> q.entryId != e.entryId)
      && (q.Conflict? ==> e.entryId !in q.entryIds)
      && (q.Available? || q.Conflict?)
  {
    if e.applicability.Keys < f.applicability.Keys {
      FewerCriteria(e, f);
    }
    MoreCriteriaDecide(cat, kind, ctx, reference, f);
    forall g <- cat.entries | g.entryId == e.entryId
      ensures g == e
    {
      IdTellsEntry(cat.entries, g, e);
    }
  }

  // ----------------------------------------------------------------- progress

  /** Stating a value that was open rules entries out and never brings one back. */
  lemma AnsweringNarrows(e: Entry, ctx: Context, k: string, v: string)
    requires k !in ctx && MayFit(e, ctx[k := v])
    ensures MayFit(e, ctx)
  {
    var later := ctx[k := v];
    assert forall c <- e.applicability.Keys :: c in ctx ==> c in later && later[c] == ctx[c];
  }

  lemma MatchingStays(e: Entry, ctx: Context, k: string, v: string)
    requires k !in ctx && MayFit(e, ctx) && k in e.applicability && e.applicability[k] == v
    ensures !Contradicted(e, ctx[k := v])
  {
  }

  ghost function MissingSet(pool: seq<Entry>, ctx: Context): set<string> {
    MissingIn(Select(pool, IsCandidate(ctx)), ctx)
  }

  /** An answer that the query itself offered. */
  ghost predicate Answers(pool: seq<Entry>, ctx: Context, k: string, v: string) {
    var a := Decide(pool, ctx);
    a.NeedsContext? && k in a.missing && k in a.options && v in a.options[k]
  }

  /** Giving an offered answer never ends in a refusal, and leaves strictly less to ask. */
  lemma AnsweringProgresses(pool: seq<Entry>, ctx: Context, k: string, v: string)
    requires Answers(pool, ctx, k, v)
    ensures !Decide(pool, ctx[k := v]).NotAvailable?
    ensures MissingSet(pool, ctx[k := v]) <= MissingSet(pool, ctx) - {k}
    ensures k in MissingSet(pool, ctx)
  {
    var later := ctx[k := v];
    QuestionMeans(pool, ctx);
    OptionsMean(pool, ctx, k);
    MissingIsOpen(pool, ctx, k);
    assert Offered(pool, ctx, k, v);
    var e :| e in pool && MayFit(e, ctx) && k in e.applicability && e.applicability[k] == v;
    MatchingStays(e, ctx, k, v);
    RefusalExactly(pool, later);
    forall c <- MissingSet(pool, later)
      ensures c in MissingSet(pool, ctx) && c != k
    {
      MissingIsOpen(pool, later, c);
      var f :| f in pool && MayFit(f, later) && c in f.applicability;
      AnsweringNarrows(f, ctx, k, v);
      MissingIsOpen(pool, ctx, c);
    }
  }

  /** There is always something to ask, and always an answer to choose. */
  lemma EveryQuestionHasAnswers(pool: seq<Entry>, ctx: Context)
    requires Decide(pool, ctx).NeedsContext?
    ensures exists k, v :: Answers(pool, ctx, k, v)
    ensures forall k <- Decide(pool, ctx).missing :: exists v :: Answers(pool, ctx, k, v)
  {
    QuestionExactly(pool, ctx);
    QuestionMeans(pool, ctx);
    forall k <- Decide(pool, ctx).missing
      ensures exists v :: Answers(pool, ctx, k, v)
    {
      OptionsMean(pool, ctx, k);
      assert Open(pool, ctx, k);
      var e :| e in pool && MayFit(e, ctx) && k in e.applicability;
      assert Offered(pool, ctx, k, e.applicability[k]);
      assert Answers(pool, ctx, k, e.applicability[k]);
    }
    var e :| e in pool && MayFit(e, ctx);
    var k :| k in e.applicability && k !in ctx;
    assert Open(pool, ctx, k);
    assert k in Decide(pool, ctx).missing;
  }

  ghost predicate Step(pool: seq<Entry>, before: Context, after: Context) {
    exists k, v :: Answers(pool, before, k, v) && after == before[k := v]
  }

  /** The contexts of a conversation in which every round gives one offered answer. */
  ghost predicate Dialogue(pool: seq<Entry>, contexts: seq<Context>) {
    && contexts != []
    && forall i :: 0 <= i < |contexts| - 1 ==> Step(pool, contexts[i], contexts[i + 1])
  }

  lemma {:induction false} RoundsAreBounded(pool: seq<Entry>, contexts: seq<Context>)
    requires Dialogue(pool, contexts)
    ensures |contexts| - 1 + |MissingSet(pool, contexts[|contexts| - 1])| <= |MissingSet(pool, contexts[0])|
    ensures |contexts| > 1 ==> !Decide(pool, contexts[|contexts| - 1]).NotAvailable?
  {
    var n := |contexts| - 1;
    if n > 0 {
      var init := contexts[..n];
      RoundsAreBounded(pool, init);
      assert Step(pool, contexts[n - 1], contexts[n]);
      var k, v :| Answers(pool, contexts[n - 1], k, v) && contexts[n] == contexts[n - 1][k := v];
      AnsweringProgresses(pool, contexts[n - 1], k, v);
      FewerLeft(MissingSet(pool, contexts[n]), MissingSet(pool, contexts[n - 1]), k);
    }
  }

  lemma FewerLeft(small: set<string>, large: set<string>, k: string)
    requires small <= large - {k} && k in large
    ensures |small| < |large|
  {
    SubsetIsSmaller(small, large - {k});
  }

  lemma {:induction false} SubsetIsSmaller(a: set<string>, b: set<string>)
    requires a <= b
    ensures |a| <= |b|
  {
    if a != {} {
      var x :| x in a;
      SubsetIsSmaller(a - {x}, b - {x});
    }
  }

  /** The same of the whole query: an offered answer is never refused and leaves fewer fields to ask. */
  lemma QueryProgresses(cat: Catalogue, kind: string, ctx: Context, reference: string, k: string, v: string)
    requires Query(cat, kind, ctx, reference).NeedsContext?
    requires k in Query(cat, kind, ctx, reference).missing && k in Query(cat, kind, ctx, reference).options
    requires v in Query(cat, kind, ctx, reference).options[k]
    ensures var next := Query(cat, kind, ctx[k := v], reference);
      && !next.NotAvailable?
      && (next.NeedsContext? ==>
          k !in next.missing && forall c <- next.missing :: c in Query(cat, kind, ctx, reference).missing)
  {
    var pool := Pool(cat, kind, reference);
    assert Answers(pool, ctx, k, v);
    AnsweringProgresses(pool, ctx, k, v);
    ListedIsMissing(pool, ctx);
    ListedIsMissing(pool, ctx[k := v]);
  }

  lemma ListedIsMissing(pool: seq<Entry>, ctx: Context)
    ensures Decide(pool, ctx).NeedsContext? ==>
        forall c :: c in Decide(pool, ctx).missing <==> c in MissingSet(pool, ctx)
  {
    QuestionExactly(pool, ctx);
    SortedSetHas(MissingSet(pool, ctx));
  }

  /** As many fields are listed as are open. */
  lemma MissingCount(pool: seq<Entry>, ctx: Context)
    requires Decide(pool, ctx).NeedsContext?
    ensures |Decide(pool, ctx).missing| == |MissingSet(pool, ctx)|
  {
    QuestionExactly(pool, ctx);
    var missing := MissingSet(pool, ctx);
    SortedSetHas(missing);
    CountOfSet(SortedSet(missing), missing);
  }

  lemma {:induction false} CountOfSet(s: seq<string>, values: set<string>)
    requires NoRepeats(s) && forall x :: x in s <==> x in values
    ensures |s| == |values|
  {
    if s == [] {
      assert values == {};
    } else {
      assert s[0] in values;
      CountOfSet(s[1..], values - {s[0]});
    }
  }

  /**
   * A conversation that begins with a question has at most as many rounds as the fields first listed.
   * When no further round is possible a value is published or a conflict is reported.
   */
  lemma DialogueEnds(pool: seq<Entry>, contexts: seq<Context>)
    requires Dialogue(pool, contexts) && Decide(pool, contexts[0]).NeedsContext?
    ensures |contexts| - 1 <= |Decide(pool, contexts[0]).missing|
    ensures var last := contexts[|contexts| - 1];
      var a := Decide(pool, last);
      && (a.Available? || a.Conflict? <==> !exists k, v :: Answers(pool, last, k, v))
      && (|contexts| - 1 == |Decide(pool, contexts[0]).missing| ==> a.Available? || a.Conflict?)
  {
    var last := contexts[|contexts| - 1];
    RoundsAreBounded(pool, contexts);
    MissingCount(pool, contexts[0]);
    if Decide(pool, last).NeedsContext? {
      EveryQuestionHasAnswers(pool, last);
      var k, v :| Answers(pool, last, k, v);
      AnsweringProgresses(pool, last, k, v);
      assert MissingSet(pool, last) != {};
    }
  }
}
