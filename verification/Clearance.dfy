/**
 When a fact no longer stands in the way of a goal, in terms of the catalogue and
 of the records, and that the goal misses exactly the facts that do.
 */
module Clearance {
  import opened Basics
  import opened Catalog
  import opened State
  import opened Goals

  // ----- what is looked at -----

  /** The record is active, of this code, and recorded where the owner looks for facts of the code: for the
      whole conversation, for his case or for his goal. */
  predicate Within(cat: Catalogue, f: FactRecord, o: Owner, code: string) {
    && f.active && f.code == code
    && match FactOf(cat, code).scope
       case CONVERSATION => true
       case CASE => f.caseId == o.caseId
       case GOAL => f.goalId == o.goalId
  }

  ghost predicate Oldest(cat: Catalogue, facts: seq<FactRecord>, o: Owner, code: string, i: nat) {
    && i < |facts| && Within(cat, facts[i], o, code)
    && forall j | 0 <= j < i :: !Within(cat, facts[j], o, code)
  }

  /** The oldest active fact that the condition names is confirmed and passes its test. */
  ghost predicate Met(cat: Catalogue, facts: seq<FactRecord>, o: Owner, c: Condition) {
    exists i: nat :: Oldest(cat, facts, o, c.fact, i) && facts[i].confidence == CONFIRMED
      && match c.test
         case Present => true
         case Equals(v) => facts[i].value == v
         case OneOf(vs) => facts[i].value in vs
  }

  ghost predicate AllMet(cat: Catalogue, facts: seq<FactRecord>, o: Owner, cs: seq<Condition>) {
    forall c <- cs :: Met(cat, facts, o, c)
  }

  /** The first rule for the value is there, and its conditions are met. */
  ghost predicate RuleMet(cat: Catalogue, facts: seq<FactRecord>, o: Owner, rules: seq<Rule>, v: Value) {
    exists k | 0 <= k < |rules| ::
      rules[k].value == v && (forall j | 0 <= j < k :: rules[j].value != v) && AllMet(cat, facts, o, rules[k].when)
  }

  /** A fact that lets its goal go on: confirmed, of a value that does not block and that satisfies, under the
      rule for that value, and signalled if the value needs a signal. */
  ghost predicate Acceptable(cat: Catalogue, facts: seq<FactRecord>, o: Owner, f: FactRecord) {
    var spec := FactOf(cat, f.code);
    && f.confidence == CONFIRMED
    && f.value !in spec.blockingValues
    && (spec.satisfyingValues.None? || f.value in spec.satisfyingValues.value)
    && (spec.satisfactionRules.None? || RuleMet(cat, facts, o, spec.satisfactionRules.value, f.value))
    && (spec.authoritativeOnly || f.value in spec.authoritativeValues ==> f.authoritative)
  }

  /** If the conditions under which the code matters are met, its oldest fact lets the goal go on. */
  ghost predicate Cleared(cat: Catalogue, facts: seq<FactRecord>, o: Owner, code: string) {
    AllMet(cat, facts, o, FactOf(cat, code).relevantWhen) ==>
      exists i: nat :: Oldest(cat, facts, o, code, i) && Acceptable(cat, facts, o, facts[i])
  }

  // ----- the functions of the reducer look at the same -----

  lemma LiveAreWithin(cat: Catalogue, facts: seq<FactRecord>, o: Owner, code: string)
    ensures var live := Live(cat, facts, KeyFor(cat, code, o));
            && (forall i: nat :: i in live <==> i < |facts| && Within(cat, facts[i], o, code))
            && (forall x, y :: 0 <= x < y < |live| ==> live[x] < live[y])
  {
    var key := KeyFor(cat, code, o);
    forall i: nat | i < |facts|
      ensures IsLive(cat, facts[i], key) <==> Within(cat, facts[i], o, code)
    {
    }
  }

  lemma LiveIsOldest(cat: Catalogue, facts: seq<FactRecord>, o: Owner, code: string)
    ensures var live := Live(cat, facts, KeyFor(cat, code, o));
            && (live == [] <==> forall i | 0 <= i < |facts| :: !Within(cat, facts[i], o, code))
            && (forall i: nat :: Oldest(cat, facts, o, code, i) <==> live != [] && live[0] == i)
  {
    var live := Live(cat, facts, KeyFor(cat, code, o));
    LiveAreWithin(cat, facts, o, code);
    if live != [] {
      FirstIsOldest(cat, facts, o, code, live);
    } else {
      assert forall i: nat | i < |facts| :: Within(cat, facts[i], o, code) ==> i in live;
    }
  }

  lemma FirstIsOldest(cat: Catalogue, facts: seq<FactRecord>, o: Owner, code: string, live: seq<nat>)
    requires live != [] && forall x, y :: 0 <= x < y < |live| ==> live[x] < live[y]
    requires forall i: nat :: i in live <==> i < |facts| && Within(cat, facts[i], o, code)
    ensures forall i: nat :: Oldest(cat, facts, o, code, i) <==> live[0] == i
    ensures live[0] < |facts| && Within(cat, facts[live[0]], o, code)
  {
    assert live[0] in live;
    assert forall x | 0 <= x < |live| :: live[0] <= live[x];
  }

  lemma ConditionIsMet(cat: Catalogue, facts: seq<FactRecord>, o: Owner, c: Condition)
    ensures ConditionHolds(cat, facts, o, c) <==> Met(cat, facts, o, c)
  {
    LiveIsOldest(cat, facts, o, c.fact);
  }

  lemma ConditionsAreMet(cat: Catalogue, facts: seq<FactRecord>, o: Owner, cs: seq<Condition>)
    ensures ConditionsHold(cat, facts, o, cs) <==> AllMet(cat, facts, o, cs)
  {
    forall i | 0 <= i < |cs|
      ensures ConditionHolds(cat, facts, o, cs[i]) <==> Met(cat, facts, o, cs[i])
      ensures cs[i] in cs
    {
      ConditionIsMet(cat, facts, o, cs[i]);
    }
  }

  lemma {:induction false} RuleIsFirst(rules: seq<Rule>, v: Value)
    ensures var r := RuleFor(rules, v);
            if r.None? then forall k | 0 <= k < |rules| :: rules[k].value != v
            else exists k | 0 <= k < |rules| ::
                   rules[k] == r.value && rules[k].value == v && forall j | 0 <= j < k :: rules[j].value != v
  {
    if rules != [] && rules[0].value != v {
      RuleIsFirst(rules[1..], v);
      var r := RuleFor(rules[1..], v);
      if r.Some? {
        var k :| 0 <= k < |rules| - 1 && rules[1..][k] == r.value && rules[1..][k].value == v
          && forall j | 0 <= j < k :: rules[1..][j].value != v;
        forall j | 0 <= j < k + 1
          ensures rules[j].value != v
        {
          assert j > 0 ==> rules[1..][j - 1] == rules[j];
        }
        assert rules[k + 1] == r.value;
      } else {
        forall k | 0 <= k < |rules|
          ensures rules[k].value != v
        {
          assert k > 0 ==> rules[1..][k - 1] == rules[k];
        }
      }
    }
  }

  lemma RuleIsMet(cat: Catalogue, facts: seq<FactRecord>, o: Owner, rules: seq<Rule>, v: Value)
    ensures RuleMet(cat, facts, o, rules, v) <==>
      RuleFor(rules, v).Some? && ConditionsHold(cat, facts, o, RuleFor(rules, v).value.when)
  {
    RuleIsFirst(rules, v);
    var r := RuleFor(rules, v);
    if r.Some? {
      ConditionsAreMet(cat, facts, o, r.value.when);
    }
  }

  lemma SatisfyingIs(cat: Catalogue, facts: seq<FactRecord>, o: Owner, f: FactRecord)
    ensures Acceptable(cat, facts, o, f) <==> f.confidence == CONFIRMED && Satisfies(cat, facts, o, f, f.code)
  {
    var spec := FactOf(cat, f.code);
    if spec.satisfactionRules.Some? {
      RuleIsMet(cat, facts, o, spec.satisfactionRules.value, f.value);
    }
  }

  // ----- what a goal misses -----

  /** What is reported about a code: nothing if it is cleared; else that it was never stated, with the priority
      the catalogue gives it, or that its oldest fact is disputed, is uncertain, or cannot be accepted as it is. */
  lemma GapMeans(cat: Catalogue, facts: seq<FactRecord>, o: Owner, def: GoalDef, code: string)
    ensures var gap, spec := GapOf(cat, facts, o, def, code), FactOf(cat, code);
            && (gap.None? <==> Cleared(cat, facts, o, code))
            && (gap.Some? ==>
                  var m := gap.value;
                  && m.code == code
                  && ((forall i | 0 <= i < |facts| :: !Within(cat, facts[i], o, code)) ==>
                        && m.priority == spec.priority && !m.conflicting
                        && (m.authoritative <==> spec.authoritativeOnly || code in def.completion))
                  && (forall i: nat | Oldest(cat, facts, o, code, i) ::
                        && m.priority == BLOCKING_UNCERTAINTY
                        && (m.conflicting <==> facts[i].confidence == CONFLICTING)
                        && (m.authoritative <==> match facts[i].confidence
                              case CONFIRMED => true
                              case CONFLICTING => false
                              case UNCERTAIN =>
                                spec.authoritativeOnly || facts[i].value in spec.authoritativeValues)))
  {
    ConditionsAreMet(cat, facts, o, FactOf(cat, code).relevantWhen);
    LiveIsOldest(cat, facts, o, code);
    var live := Live(cat, facts, KeyFor(cat, code, o));
    if live != [] {
      SatisfyingIs(cat, facts, o, facts[live[0]]);
    }
  }

  lemma GapIffNotCleared(cat: Catalogue, facts: seq<FactRecord>, o: Owner, def: GoalDef, code: string)
    ensures GapOf(cat, facts, o, def, code).None? <==> Cleared(cat, facts, o, code)
    ensures GapOf(cat, facts, o, def, code).Some? ==> GapOf(cat, facts, o, def, code).value.code == code
  {
    GapMeans(cat, facts, o, def, code);
  }

  /** The list holds the gap of codes[k]. */
  ghost predicate Tells(
    cat: Catalogue, facts: seq<FactRecord>, o: Owner, def: GoalDef, ms: seq<Missing>, code: string) {
    exists m <- ms :: GapOf(cat, facts, o, def, code) == Some(m)
  }

  /** What the list that is built has to do with the codes from k on. */
  ghost predicate Listed(
    cat: Catalogue, facts: seq<FactRecord>, o: Owner, def: GoalDef, codes: seq<string>, k: nat,
    out: seq<Missing>, ms: seq<Missing>)
    requires k <= |codes|
  {
    && out <= ms
    && (forall x | |out| <= x < |ms| ::
          && ms[x].code in codes[k..] && GapOf(cat, facts, o, def, ms[x].code) == Some(ms[x])
          && (ms[x].code in def.completion ==> x == 0))
    && (forall y | k <= y < |codes| && GapOf(cat, facts, o, def, codes[y]).Some? && codes[y] !in def.completion ::
          Tells(cat, facts, o, def, ms, codes[y]))
    && (ms == [] ==> forall y | k <= y < |codes| :: GapOf(cat, facts, o, def, codes[y]).None?)
  }

  lemma {:induction false} ListingIs(
    cat: Catalogue, facts: seq<FactRecord>, o: Owner, def: GoalDef, codes: seq<string>, k: nat, out: seq<Missing>)
    requires k <= |codes|
    ensures Listed(cat, facts, o, def, codes, k, out, MissingFrom(cat, facts, o, def, codes, k, out))
    decreases |codes| - k
  {
    if k < |codes| {
      var skipped := codes[k] in def.completion && out != [];
      var gap := if skipped then None else GapOf(cat, facts, o, def, codes[k]);
      var next := if gap.Some? then out + [gap.value] else out;
      ListingIs(cat, facts, o, def, codes, k + 1, next);
      GapIffNotCleared(cat, facts, o, def, codes[k]);
      ListingStep(cat, facts, o, def, codes, k, out, next, MissingFrom(cat, facts, o, def, codes, k + 1, next));
    }
  }

  lemma ListingStep(
    cat: Catalogue, facts: seq<FactRecord>, o: Owner, def: GoalDef, codes: seq<string>, k: nat,
    out: seq<Missing>, next: seq<Missing>, ms: seq<Missing>)
    requires k < |codes| && Listed(cat, facts, o, def, codes, k + 1, next, ms)
    requires var gap := GapOf(cat, facts, o, def, codes[k]);
             && (gap.Some? ==> gap.value.code == codes[k])
             && next == if gap.Some? && !(codes[k] in def.completion && out != []) then out + [gap.value] else out
    ensures Listed(cat, facts, o, def, codes, k, out, ms)
  {
    var gap := GapOf(cat, facts, o, def, codes[k]);
    assert codes[k..] == [codes[k]] + codes[k + 1..];
    if gap.Some? && codes[k] !in def.completion {
      assert ms[|out|] == gap.value;
      assert Tells(cat, facts, o, def, ms, codes[k]);
    }
  }

  /** Goal gi needs the code to be cleared. */
  predicate Needs(cat: Catalogue, goals: seq<GoalRecord>, gi: nat, code: string)
    requires gi < |goals|
  {
    var def := GoalOf(cat, goals[gi].code);
    code in def.required || code in def.completion
  }

  /** A goal misses nothing but codes it needs that are not cleared. It misses each of these, except that a
      completion code is only missed while nothing before it is; and it misses none exactly when all are cleared. */
  lemma MissingExactly(cat: Catalogue, facts: seq<FactRecord>, goals: seq<GoalRecord>, gi: nat)
    requires gi < |goals|
    ensures var def, o, ms := GoalOf(cat, goals[gi].code), OwnerOf(goals, gi), MissingFacts(cat, facts, goals, gi);
            && (forall m <- ms :: Needs(cat, goals, gi, m.code) && !Cleared(cat, facts, o, m.code))
            && (forall x | 0 <= x < |ms| && ms[x].code in def.completion :: x == 0)
            && (forall code | code in def.required && code !in def.completion ::
                  !Cleared(cat, facts, o, code) <==> exists m <- ms :: m.code == code)
            && (ms == [] <==> forall code | Needs(cat, goals, gi, code) :: Cleared(cat, facts, o, code))
  {
    var def, o, ms := GoalOf(cat, goals[gi].code), OwnerOf(goals, gi), MissingFacts(cat, facts, goals, gi);
    var codes := def.required + def.completion;
    ListingIs(cat, facts, o, def, codes, 0, []);
    assert codes[0..] == codes;
    forall code
      ensures GapOf(cat, facts, o, def, code).None? <==> Cleared(cat, facts, o, code)
      ensures GapOf(cat, facts, o, def, code).Some? ==> GapOf(cat, facts, o, def, code).value.code == code
    {
      GapIffNotCleared(cat, facts, o, def, code);
    }
    forall m <- ms
      ensures GapOf(cat, facts, o, def, m.code) == Some(m) && Needs(cat, goals, gi, m.code)
    {
      var x :| 0 <= x < |ms| && ms[x] == m;
      assert m.code in codes;
    }
    forall code | Needs(cat, goals, gi, code) && !Cleared(cat, facts, o, code)
      ensures ms != [] && (code !in def.completion ==> exists m <- ms :: m.code == code)
    {
      assert code in codes;
      var y :| 0 <= y < |codes| && codes[y] == code;
      assert code !in def.completion ==> Tells(cat, facts, o, def, ms, code);
    }
    assert ms != [] ==> ms[0] in ms;
  }

  /** Each entry of ms after the first n is that of a position of codes from k on, and the positions increase. */
  ghost predicate InOrder(codes: seq<string>, k: nat, n: nat, ms: seq<Missing>, at: seq<nat>) {
    && |ms| == n + |at|
    && (forall x | 0 <= x < |at| :: k <= at[x] < |codes| && codes[at[x]] == ms[n + x].code)
    && (forall x, y | 0 <= x < y < |at| :: at[x] < at[y])
  }

  lemma OneMoreInOrder(codes: seq<string>, k: nat, n: nat, ms: seq<Missing>, rest: seq<nat>)
    requires k < |codes| && n < |ms| && ms[n].code == codes[k] && InOrder(codes, k + 1, n + 1, ms, rest)
    ensures InOrder(codes, k, n, ms, [k] + rest)
  {
    var at := [k] + rest;
    forall x | 0 <= x < |at|
      ensures k <= at[x] < |codes| && codes[at[x]] == ms[n + x].code
    {
      if x > 0 {
        assert at[x] == rest[x - 1] && codes[rest[x - 1]] == ms[n + 1 + (x - 1)].code;
      }
    }
  }

  lemma {:induction false} ListingInOrder(
    cat: Catalogue, facts: seq<FactRecord>, o: Owner, def: GoalDef, codes: seq<string>, k: nat, out: seq<Missing>)
    returns (at: seq<nat>)
    requires k <= |codes|
    ensures var ms := MissingFrom(cat, facts, o, def, codes, k, out);
            out <= ms && InOrder(codes, k, |out|, ms, at)
    decreases |codes| - k
  {
    if k == |codes| {
      at := [];
    } else {
      var skipped := codes[k] in def.completion && out != [];
      var gap := if skipped then None else GapOf(cat, facts, o, def, codes[k]);
      GapIffNotCleared(cat, facts, o, def, codes[k]);
      if gap.Some? {
        at := ListingInOrder(cat, facts, o, def, codes, k + 1, out + [gap.value]);
        OneMoreInOrder(codes, k, |out|, MissingFrom(cat, facts, o, def, codes, k, out), at);
        at := [k] + at;
      } else {
        at := ListingInOrder(cat, facts, o, def, codes, k + 1, out);
      }
    }
  }

  /** What a goal misses is listed in the order of its definition, required codes before completion codes. */
  lemma MissingInOrder(cat: Catalogue, facts: seq<FactRecord>, goals: seq<GoalRecord>, gi: nat) returns (at: seq<nat>)
    requires gi < |goals|
    ensures var def, ms := GoalOf(cat, goals[gi].code), MissingFacts(cat, facts, goals, gi);
            InOrder(def.required + def.completion, 0, 0, ms, at)
  {
    var def := GoalOf(cat, goals[gi].code);
    at := ListingInOrder(cat, facts, OwnerOf(goals, gi), def, def.required + def.completion, 0, []);
  }
}
