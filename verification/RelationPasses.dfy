/** One pass over the relations: which of them act, on which goals, in which order. */
module RelationPasses {
  import opened Basics
  import opened Catalog
  import opened State
  import opened FactInvariants
  import opened Reducer
  import opened Moves
  import opened Runs
  import opened Clearance
  import opened RelationsAtRest
  import opened RelationEffects

  /** A relation acts on goal gi if its conditions are met for it; otherwise nothing happens. */
  ghost predicate Acts(cat: Catalogue, a: Conversation, r: Relation, w: When, gi: nat, b: Conversation) {
    && gi < |a.goals|
    && if AllMet(cat, a.facts, OwnerOf(a.goals, gi), w.conditions) then
         exists ss :: EffectsRun(cat, gi, r.effects, r.code, ss) && ss[0] == a && ss[|r.effects|] == b
       else b == a
  }

  /** It acts on each goal of its code and its statuses, in their order; which these are is settled before. */
  ghost predicate ActsOnAll(
    cat: Catalogue, r: Relation, w: When, targets: seq<nat>, ss: seq<Conversation>, a: Conversation, b: Conversation)
  {
    && |ss| == |targets| + 1 && ss[0] == a && ss[|targets|] == b
    && forall k | 0 <= k < |targets| :: Acts(cat, ss[k], r, w, targets[k], ss[k + 1])
  }

  ghost predicate Ascends(s: seq<nat>) {
    forall x, y | 0 <= x < y < |s| :: s[x] < s[y]
  }

  /** The goals of the code in one of the statuses, in their order. */
  ghost predicate AreTargets(goals: seq<GoalRecord>, w: When, targets: seq<nat>) {
    && (forall i: nat :: i in targets <==> i < |goals| && goals[i].code == w.goalCode && goals[i].status in w.statuses)
    && Ascends(targets)
  }

  ghost predicate RelationRuns(cat: Catalogue, r: Relation, a: Conversation, b: Conversation) {
    if r.when.None? then b == a
    else exists targets, ss ::
      AreTargets(a.goals, r.when.value, targets) && ActsOnAll(cat, r, r.when.value, targets, ss, a, b)
  }

  /** The relations from number k on, each from the state the one before it left. */
  ghost predicate RelationsRun(
    cat: Catalogue, k: nat, ss: seq<Conversation>, a: Conversation, b: Conversation)
    requires k <= |cat.relations|
  {
    && |ss| == |cat.relations| - k + 1 && ss[0] == a && ss[|ss| - 1] == b
    && forall x | 0 <= x < |cat.relations| - k :: RelationRuns(cat, cat.relations[k + x], ss[x], ss[x + 1])
  }

  // ----- the proofs -----

  lemma {:induction false} TargetsAscend(goals: seq<GoalRecord>, w: When, k: nat)
    requires k <= |goals|
    ensures Ascends(TargetsFrom(goals, w, k))
    decreases |goals| - k
  {
    if k < |goals| {
      var rest := TargetsFrom(goals, w, k + 1);
      TargetsAscend(goals, w, k + 1);
      TargetsAre(goals, w, k + 1);
      forall x | 0 <= x < |rest|
        ensures k < rest[x]
      {
        assert rest[x] in rest;
      }
    }
  }

  /** The state after a relation came to goal gi. */
  function Passed(cat: Catalogue, st: Conversation, r: Relation, w: When, gi: nat): Result<Step, Refusal>
    requires gi < |st.goals|
  {
    if ConditionsHold(cat, st.facts, OwnerOf(st.goals, gi), w.conditions) then
      ApplyEffects(cat, st, gi, r.effects, r.code, false)
    else Ok(Step(st, false))
  }

  lemma PassedKeeps(
    cat: Catalogue, rank: map<string, nat>, st: Conversation, r: Relation, w: When, gi: nat, next: Step)
    requires Valid(cat) && Ranked(cat, rank) && FactsOk(cat, rank, st.facts, st.seqNo) && gi < |st.goals|
    requires r in cat.relations && Passed(cat, st, r, w, gi) == Ok(next)
    ensures FactsOk(cat, rank, next.st.facts, next.st.seqNo) && |st.goals| <= |next.st.goals|
  {
    if ConditionsHold(cat, st.facts, OwnerOf(st.goals, gi), w.conditions) {
      EffectsKeepFacts(cat, rank, st, gi, r, next);
    }
  }

  lemma PassedActs(
    cat: Catalogue, rank: map<string, nat>, st: Conversation, r: Relation, w: When, gi: nat, next: Step)
    requires Valid(cat) && Ranked(cat, rank) && FactsOk(cat, rank, st.facts, st.seqNo) && gi < |st.goals|
    requires r in cat.relations && Passed(cat, st, r, w, gi) == Ok(next)
    ensures Acts(cat, st, r, w, gi, next.st)
  {
    ConditionsAreMet(cat, st.facts, OwnerOf(st.goals, gi), w.conditions);
    if ConditionsHold(cat, st.facts, OwnerOf(st.goals, gi), w.conditions) {
      var ss := EffectsDo(cat, rank, st, gi, r, r.effects, false, next);
    }
  }

  lemma EffectsKeepFacts(
    cat: Catalogue, rank: map<string, nat>, st: Conversation, gi: nat, r: Relation, last: Step)
    requires Valid(cat) && Ranked(cat, rank) && FactsOk(cat, rank, st.facts, st.seqNo) && gi < |st.goals|
    requires r in cat.relations && ApplyEffects(cat, st, gi, r.effects, r.code, false) == Ok(last)
    ensures FactsOk(cat, rank, last.st.facts, last.st.seqNo)
  {
    var P := (s: Conversation) => FactsOk(cat, rank, s.facts, s.seqNo);
    forall a, b {:trigger Settling(cat, rank, a, b)} | P(a) && Settling(cat, rank, a, b)
      ensures P(b)
    {
      MoveKeepsFacts(cat, rank, a, b);
    }
    EffectsMove(cat, rank, P, st, gi, r, r.effects, r.code, false);
  }

  lemma FirstTarget(
    cat: Catalogue, st: Conversation, r: Relation, w: When, targets: seq<nat>, changed: bool, last: Step)
    returns (next: Step)
    requires targets != [] && forall x | 0 <= x < |targets| :: targets[x] < |st.goals|
    requires ApplyTargets(cat, st, r, w, targets, changed) == Ok(last)
    ensures Passed(cat, st, r, w, targets[0]) == Ok(next) && |st.goals| <= |next.st.goals|
    ensures ApplyTargets(cat, next.st, r, w, targets[1..], changed || next.changed) == Ok(last)
  {
    next := Passed(cat, st, r, w, targets[0]).value;
  }

  lemma {:induction false} TargetsDo(
    cat: Catalogue, rank: map<string, nat>, st: Conversation, r: Relation, w: When, targets: seq<nat>, changed: bool,
    last: Step)
    returns (ss: seq<Conversation>)
    requires Valid(cat) && Ranked(cat, rank) && FactsOk(cat, rank, st.facts, st.seqNo) && r in cat.relations
    requires forall x | 0 <= x < |targets| :: targets[x] < |st.goals|
    requires ApplyTargets(cat, st, r, w, targets, changed) == Ok(last)
    ensures ActsOnAll(cat, r, w, targets, ss, st, last.st)
    decreases |targets|
  {
    if targets == [] {
      ss := [st];
    } else {
      var next := FirstTarget(cat, st, r, w, targets, changed, last);
      PassedKeeps(cat, rank, st, r, w, targets[0], next);
      var rest := TargetsDo(cat, rank, next.st, r, w, targets[1..], changed || next.changed, last);
      ss := [st] + rest;
      assert ActsOnAll(cat, r, w, targets, ss, st, last.st) by {
        PassedActs(cat, rank, st, r, w, targets[0], next);
        OneMoreTarget(cat, r, w, targets, st, rest, last.st);
      }
    }
  }

  lemma OneMoreTarget(
    cat: Catalogue, r: Relation, w: When, targets: seq<nat>, a: Conversation, rest: seq<Conversation>, b: Conversation)
    requires targets != [] && rest != [] && ActsOnAll(cat, r, w, targets[1..], rest, rest[0], b)
    requires Acts(cat, a, r, w, targets[0], rest[0])
    ensures ActsOnAll(cat, r, w, targets, [a] + rest, a, b)
  {
    var ss := [a] + rest;
    forall k | 0 <= k < |targets|
      ensures Acts(cat, ss[k], r, w, targets[k], ss[k + 1])
    {
      if k > 0 {
        assert targets[1..][k - 1] == targets[k] && ss[k] == rest[k - 1] && ss[k + 1] == rest[k];
        assert Acts(cat, rest[k - 1], r, w, targets[1..][k - 1], rest[k - 1 + 1]);
      }
    }
  }

  lemma FirstRelation(cat: Catalogue, st: Conversation, k: nat, changed: bool, last: Step) returns (next: Step)
    requires k < |cat.relations| && RelationsFrom(cat, st, k, changed) == Ok(last)
    ensures RelationsFrom(cat, next.st, k + 1, next.changed) == Ok(last)
    ensures var r := cat.relations[k];
            if r.when.None? then next == Step(st, changed)
            else ApplyTargets(cat, st, r, r.when.value, TargetsFrom(st.goals, r.when.value, 0), changed) == Ok(next)
  {
    var r := cat.relations[k];
    next := if r.when.None? then Step(st, changed)
            else ApplyTargets(cat, st, r, r.when.value, TargetsFrom(st.goals, r.when.value, 0), changed).value;
  }

  lemma RelationActs(
    cat: Catalogue, rank: map<string, nat>, st: Conversation, k: nat, changed: bool, next: Step)
    requires Valid(cat) && Ranked(cat, rank) && FactsOk(cat, rank, st.facts, st.seqNo) && k < |cat.relations|
    requires var r := cat.relations[k];
             if r.when.None? then next == Step(st, changed)
             else ApplyTargets(cat, st, r, r.when.value, TargetsFrom(st.goals, r.when.value, 0), changed) == Ok(next)
    ensures RelationRuns(cat, cat.relations[k], st, next.st)
  {
    var r := cat.relations[k];
    if r.when.Some? {
      var targets := TargetsFrom(st.goals, r.when.value, 0);
      TargetsAre(st.goals, r.when.value, 0);
      TargetsAscend(st.goals, r.when.value, 0);
      var ss := TargetsDo(cat, rank, st, r, r.when.value, targets, changed, next);
    }
  }

  lemma RelationKeepsFacts(
    cat: Catalogue, rank: map<string, nat>, st: Conversation, k: nat, changed: bool, next: Step)
    requires Valid(cat) && Ranked(cat, rank) && FactsOk(cat, rank, st.facts, st.seqNo) && k < |cat.relations|
    requires var r := cat.relations[k];
             if r.when.None? then next == Step(st, changed)
             else ApplyTargets(cat, st, r, r.when.value, TargetsFrom(st.goals, r.when.value, 0), changed) == Ok(next)
    ensures FactsOk(cat, rank, next.st.facts, next.st.seqNo)
  {
    var r := cat.relations[k];
    var P := (s: Conversation) => FactsOk(cat, rank, s.facts, s.seqNo);
    forall a, b {:trigger Settling(cat, rank, a, b)} | P(a) && Settling(cat, rank, a, b)
      ensures P(b)
    {
      MoveKeepsFacts(cat, rank, a, b);
    }
    if r.when.Some? {
      TargetsMove(cat, rank, P, st, r, r.when.value, TargetsFrom(st.goals, r.when.value, 0), changed);
    }
  }

  lemma OneMoreRelation(
    cat: Catalogue, k: nat, a: Conversation, rest: seq<Conversation>, b: Conversation)
    requires k < |cat.relations| && rest != [] && RelationsRun(cat, k + 1, rest, rest[0], b)
    requires RelationRuns(cat, cat.relations[k], a, rest[0])
    ensures RelationsRun(cat, k, [a] + rest, a, b)
  {
    var ss := [a] + rest;
    forall x | 0 <= x < |cat.relations| - k
      ensures RelationRuns(cat, cat.relations[k + x], ss[x], ss[x + 1])
    {
      if x > 0 {
        assert ss[x] == rest[x - 1] && ss[x + 1] == rest[x];
        assert RelationRuns(cat, cat.relations[k + 1 + (x - 1)], rest[x - 1], rest[x - 1 + 1]);
      }
    }
  }

  /** A pass lets every relation act, one after another, on the goals it is about: on those for which its conditions
      are met when their turn comes, and on no others. */
  lemma {:induction false} RelationsDo(
    cat: Catalogue, rank: map<string, nat>, st: Conversation, k: nat, changed: bool, last: Step)
    returns (ss: seq<Conversation>)
    requires Valid(cat) && Ranked(cat, rank) && FactsOk(cat, rank, st.facts, st.seqNo) && k <= |cat.relations|
    requires RelationsFrom(cat, st, k, changed) == Ok(last)
    ensures RelationsRun(cat, k, ss, st, last.st)
    decreases |cat.relations| - k
  {
    if k == |cat.relations| {
      ss := [st];
    } else {
      var next := FirstRelation(cat, st, k, changed, last);
      RelationKeepsFacts(cat, rank, st, k, changed, next);
      var rest := RelationsDo(cat, rank, next.st, k + 1, next.changed, last);
      ss := [st] + rest;
      assert RelationsRun(cat, k, ss, st, last.st) by {
        RelationActs(cat, rank, st, k, changed, next);
        OneMoreRelation(cat, k, st, rest, last.st);
      }
    }
  }

  // ----- the goals that are complete -----

  /** A goal whose turn it is resolves if it is active, waits for no handoff, and needs nothing that is not cleared. */
  ghost predicate Tries(cat: Catalogue, a: Conversation, gi: nat, b: Conversation) {
    && gi < |a.goals|
    && if && a.goals[gi].status == ACTIVE && !GoalOf(cat, a.goals[gi].code).explicitHandoff
          && forall code | Needs(cat, a.goals, gi, code) :: Cleared(cat, a.facts, OwnerOf(a.goals, gi), code)
       then exists told :: Resolves(cat, a, gi, told, b)
       else b == a
  }

  /** The goals from number n - 1 down to the first, each in the state the one before it left. */
  ghost predicate TriesRun(cat: Catalogue, n: nat, ss: seq<Conversation>, a: Conversation, b: Conversation) {
    && |ss| == n + 1 && ss[0] == a && ss[n] == b
    && forall x | 0 <= x < n :: Tries(cat, ss[x], n - 1 - x, ss[x + 1])
  }

  lemma ResolveAtTries(cat: Catalogue, rank: map<string, nat>, st: Conversation, gi: nat, next: Step)
    requires Valid(cat) && Ranked(cat, rank) && FactsOk(cat, rank, st.facts, st.seqNo) && gi < |st.goals|
    requires ResolveAt(cat, st, gi) == Ok(next)
    ensures Tries(cat, st, gi, next.st)
  {
    MissingExactly(cat, st.facts, st.goals, gi);
    if st.goals[gi].status == ACTIVE && Complete(cat, st, gi) {
      var told := ResolvingDoes(cat, rank, st, gi, next.st);
    }
  }

  lemma ResolveAtKeepsFacts(cat: Catalogue, rank: map<string, nat>, st: Conversation, gi: nat, next: Step)
    requires Valid(cat) && Ranked(cat, rank) && FactsOk(cat, rank, st.facts, st.seqNo) && gi < |st.goals|
    requires ResolveAt(cat, st, gi) == Ok(next)
    ensures FactsOk(cat, rank, next.st.facts, next.st.seqNo)
  {
    var P := (s: Conversation) => FactsOk(cat, rank, s.facts, s.seqNo);
    forall a, b {:trigger Settling(cat, rank, a, b)} | P(a) && Settling(cat, rank, a, b)
      ensures P(b)
    {
      MoveKeepsFacts(cat, rank, a, b);
    }
    ResolveAtMoves(cat, rank, P, st, gi);
  }

  lemma OneMoreTry(cat: Catalogue, n: nat, a: Conversation, rest: seq<Conversation>, b: Conversation)
    requires n > 0 && rest != [] && TriesRun(cat, n - 1, rest, rest[0], b) && Tries(cat, a, n - 1, rest[0])
    ensures TriesRun(cat, n, [a] + rest, a, b)
  {
    var ss := [a] + rest;
    forall x | 0 <= x < n
      ensures Tries(cat, ss[x], n - 1 - x, ss[x + 1])
    {
      if x > 0 {
        assert ss[x] == rest[x - 1] && ss[x + 1] == rest[x];
        assert Tries(cat, rest[x - 1], n - 1 - 1 - (x - 1), rest[x - 1 + 1]);
      }
    }
  }

  lemma NothingTried(cat: Catalogue, st: Conversation)
    ensures TriesRun(cat, 0, [st], st, st)
  {
  }

  lemma FirstTry(cat: Catalogue, rank: map<string, nat>, st: Conversation, n: nat, changed: bool, last: Step)
    returns (next: Conversation, more: bool)
    requires Valid(cat) && Ranked(cat, rank) && FactsOk(cat, rank, st.facts, st.seqNo)
    requires 0 < n <= |st.goals| && ResolveFrom(cat, st, n, changed) == Ok(last)
    ensures Tries(cat, st, n - 1, next) && FactsOk(cat, rank, next.facts, next.seqNo)
    ensures n - 1 <= |next.goals| && ResolveFrom(cat, next, n - 1, more) == Ok(last)
  {
    var step := FirstResolution(cat, st, n, changed, last);
    ResolveAtKeepsFacts(cat, rank, st, n - 1, step);
    ResolveAtTries(cat, rank, st, n - 1, step);
    next, more := step.st, changed || step.changed;
  }

  /** After the relations the pass goes through the goals from the last to the first, and resolves those whose turn
      finds them active and complete. */
  lemma {:induction false} ResolutionsDo(
    cat: Catalogue, rank: map<string, nat>, st: Conversation, n: nat, changed: bool, last: Step)
    returns (ss: seq<Conversation>)
    requires Valid(cat) && Ranked(cat, rank) && FactsOk(cat, rank, st.facts, st.seqNo) && n <= |st.goals|
    requires ResolveFrom(cat, st, n, changed) == Ok(last)
    ensures TriesRun(cat, n, ss, st, last.st)
    decreases n
  {
    if n == 0 {
      ss := [st];
      NothingTried(cat, st);
    } else {
      var next, more := FirstTry(cat, rank, st, n, changed, last);
      var rest := ResolutionsDo(cat, rank, next, n - 1, more, last);
      ss := [st] + rest;
      OneMoreTry(cat, n, st, rest, last.st);
    }
  }

  // ----- the whole evaluation -----

  /** One pass: the relations, then the goals. */
  ghost predicate Passes(cat: Catalogue, a: Conversation, b: Conversation) {
    exists mid, ss, ts :: RelationsRun(cat, 0, ss, a, mid) && TriesRun(cat, |mid.goals|, ts, mid, b)
  }

  /** Passes follow one another, at most twelve, until one changes nothing. */
  ghost predicate Evaluates(cat: Catalogue, ps: seq<Conversation>, a: Conversation, b: Conversation) {
    && 2 <= |ps| && ps[0] == a && ps[|ps| - 1] == b && ps[|ps| - 2] == b
    && forall x | 0 <= x < |ps| - 1 :: Passes(cat, ps[x], ps[x + 1])
  }

  lemma PassDoes(cat: Catalogue, rank: map<string, nat>, st: Conversation, last: Step)
    requires Valid(cat) && Ranked(cat, rank) && FactsOk(cat, rank, st.facts, st.seqNo)
    requires Pass(cat, st) == Ok(last)
    ensures Passes(cat, st, last.st)
  {
    var related := RelationsFrom(cat, st, 0, false).value;
    var ss := RelationsDo(cat, rank, st, 0, false, related);
    RelationsKeepFacts(cat, rank, st, related);
    var ts := ResolutionsDo(cat, rank, related.st, |related.st.goals|, related.changed, last);
  }

  lemma RelationsKeepFacts(cat: Catalogue, rank: map<string, nat>, st: Conversation, last: Step)
    requires Valid(cat) && Ranked(cat, rank) && FactsOk(cat, rank, st.facts, st.seqNo)
    requires RelationsFrom(cat, st, 0, false) == Ok(last)
    ensures FactsOk(cat, rank, last.st.facts, last.st.seqNo)
  {
    var P := (s: Conversation) => FactsOk(cat, rank, s.facts, s.seqNo);
    forall a, b {:trigger Settling(cat, rank, a, b)} | P(a) && Settling(cat, rank, a, b)
      ensures P(b)
    {
      MoveKeepsFacts(cat, rank, a, b);
    }
    RelationsMove(cat, rank, P, st, 0, false);
  }

  lemma PassKeepsFacts(cat: Catalogue, rank: map<string, nat>, st: Conversation, last: Step)
    requires Valid(cat) && Ranked(cat, rank) && FactsOk(cat, rank, st.facts, st.seqNo)
    requires Pass(cat, st) == Ok(last)
    ensures FactsOk(cat, rank, last.st.facts, last.st.seqNo)
  {
    var P := (s: Conversation) => FactsOk(cat, rank, s.facts, s.seqNo);
    forall a, b {:trigger Settling(cat, rank, a, b)} | P(a) && Settling(cat, rank, a, b)
      ensures P(b)
    {
      MoveKeepsFacts(cat, rank, a, b);
    }
    PassMoves(cat, rank, P, st);
  }

  lemma OneMorePass(cat: Catalogue, a: Conversation, rest: seq<Conversation>, b: Conversation)
    requires rest != [] && Evaluates(cat, rest, rest[0], b) && Passes(cat, a, rest[0])
    ensures Evaluates(cat, [a] + rest, a, b)
  {
    var ps := [a] + rest;
    forall x | 0 <= x < |ps| - 1
      ensures Passes(cat, ps[x], ps[x + 1])
    {
      if x > 0 {
        assert ps[x] == rest[x - 1] && ps[x + 1] == rest[x];
        assert Passes(cat, rest[x - 1], rest[x - 1 + 1]);
      }
    }
  }

  lemma LastPass(cat: Catalogue, a: Conversation, b: Conversation)
    requires Passes(cat, a, b) && a == b
    ensures Evaluates(cat, [a, b], a, b)
  {
  }

  lemma FirstPass(cat: Catalogue, st: Conversation, fuel: nat, last: Conversation) returns (next: Step)
    requires Evaluate(cat, st, fuel) == Ok(last)
    ensures Pass(cat, st) == Ok(next)
    ensures next.changed ==> fuel > 0 && Evaluate(cat, next.st, fuel - 1) == Ok(last)
    ensures !next.changed ==> next.st == last == st
  {
    next := Pass(cat, st).value;
  }

  /** The evaluation is a sequence of passes, no more than it is given fuel for, the last of which changes nothing. */
  lemma {:induction false} EvaluationDoes(
    cat: Catalogue, rank: map<string, nat>, st: Conversation, fuel: nat, last: Conversation)
    returns (ps: seq<Conversation>)
    requires Valid(cat) && Ranked(cat, rank) && FactsOk(cat, rank, st.facts, st.seqNo)
    requires Evaluate(cat, st, fuel) == Ok(last)
    ensures Evaluates(cat, ps, st, last) && |ps| <= fuel + 1
    decreases fuel
  {
    var next := FirstPass(cat, st, fuel, last);
    PassDoes(cat, rank, st, next);
    if next.changed {
      PassKeepsFacts(cat, rank, st, next);
      var rest := EvaluationDoes(cat, rank, next.st, fuel - 1, last);
      ps := [st] + rest;
      OneMorePass(cat, st, rest, last);
    } else {
      ps := [st, last];
      LastPass(cat, st, last);
    }
  }
}
