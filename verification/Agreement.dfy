/** Two states that a case cannot tell apart, and what is read alike in both. */
module Agreement {
  import opened Basics
  import opened Catalog
  import opened State
  import opened Goals
  import opened Reducer
  import opened Settled
  import opened Visibility

  function GoalIn(d: nat, goals: seq<GoalRecord>, i: nat): Option<GoalRecord> {
    if InCase(goals, d, i) then Some(goals[i]) else None
  }

  function FactIn(cat: Catalogue, d: nat, goals: seq<GoalRecord>, facts: seq<FactRecord>, i: nat): Option<FactRecord> {
    if i < |facts| && Sees(cat, goals, d, facts[i]) then Some(facts[i]) else None
  }

  function GoalsOf(d: nat, goals: seq<GoalRecord>): (r: set<nat>) {
    set i: nat | i < |goals| && InCase(goals, d, i)
  }

  /** The actions without the moment they were requested. */
  function Bare(actions: seq<PendingAction>): (r: seq<PendingAction>)
    ensures |r| == |actions| && forall i | 0 <= i < |r| :: r[i] == actions[i].(requestedAt := 0)
  {
    seq(|actions|, i requires 0 <= i < |actions| => actions[i].(requestedAt := 0))
  }

  ghost predicate SameGoals(d: nat, a: seq<GoalRecord>, b: seq<GoalRecord>) {
    forall i: nat :: GoalIn(d, a, i) == GoalIn(d, b, i)
  }

  ghost predicate SameFactsIn(cat: Catalogue, d: nat, a: Conversation, b: Conversation) {
    forall i: nat :: FactIn(cat, d, a.goals, a.facts, i) == FactIn(cat, d, b.goals, b.facts, i)
  }

  ghost predicate SameActions(d: nat, a: Conversation, b: Conversation) {
    Bare(ActionsOf(a.actions, GoalsOf(d, a.goals))) == Bare(ActionsOf(b.actions, GoalsOf(d, b.goals)))
  }

  /** Case d sees the same goals and facts in both, and, but for the moment they
      were requested, the same pending actions. */
  ghost predicate Agree(cat: Catalogue, d: nat, a: Conversation, b: Conversation) {
    SameGoals(d, a.goals, b.goals) && SameFactsIn(cat, d, a, b) && SameActions(d, a, b)
  }

  lemma AgreeChain(cat: Catalogue, d: nat, a: Conversation, b: Conversation, c: Conversation)
    requires Agree(cat, d, a, b) && Agree(cat, d, b, c)
    ensures Agree(cat, d, a, c)
  {
    forall i: nat
      ensures GoalIn(d, a.goals, i) == GoalIn(d, c.goals, i)
    {
      assert GoalIn(d, a.goals, i) == GoalIn(d, b.goals, i);
    }
    forall i: nat
      ensures FactIn(cat, d, a.goals, a.facts, i) == FactIn(cat, d, c.goals, c.facts, i)
    {
      assert FactIn(cat, d, a.goals, a.facts, i) == FactIn(cat, d, b.goals, b.facts, i);
    }
  }

  lemma AgreeBack(cat: Catalogue, d: nat, a: Conversation, b: Conversation)
    requires Agree(cat, d, a, b)
    ensures Agree(cat, d, b, a)
  {
  }

  lemma AgreeSelf(cat: Catalogue, d: nat, a: Conversation, b: Conversation)
    requires a.goals == b.goals && a.facts == b.facts && a.actions == b.actions
    ensures Agree(cat, d, a, b)
  {
  }

  lemma SameGoalsIs(d: nat, a: seq<GoalRecord>, b: seq<GoalRecord>, i: nat)
    requires SameGoals(d, a, b)
    ensures InCase(a, d, i) == InCase(b, d, i) && (InCase(a, d, i) ==> a[i] == b[i])
  {
    assert GoalIn(d, a, i) == GoalIn(d, b, i);
  }

  lemma SameCase(d: nat, a: seq<GoalRecord>, b: seq<GoalRecord>)
    requires SameGoals(d, a, b)
    ensures GoalsOf(d, a) == GoalsOf(d, b)
  {
    forall i: nat
      ensures i in GoalsOf(d, a) <==> i in GoalsOf(d, b)
    {
      SameGoalsIs(d, a, b, i);
    }
  }

  // ----- reading facts -----

  ghost predicate Ascending(x: seq<nat>) {
    forall i, j | 0 <= i < j < |x| :: x[i] < x[j]
  }

  lemma TailHas(x: seq<nat>, i: nat)
    requires x != [] && Ascending(x)
    ensures i in x[1..] <==> i in x && i != x[0]
  {
    if i in x && i != x[0] {
      var j :| 0 <= j < |x| && x[j] == i;
      assert x[1..][j - 1] == i;
    }
  }

  /** An ascending list is determined by its elements. */
  lemma {:induction false} SameList(x: seq<nat>, y: seq<nat>)
    requires Ascending(x) && Ascending(y) && forall i: nat :: i in x <==> i in y
    ensures x == y
    decreases |x|
  {
    var first := if y == [] then 0 else y[0];
    assert y == [] || first in y;
    if x != [] {
      assert x[0] in y;
      assert x[0] == first;
      forall i: nat
        ensures i in x[1..] <==> i in y[1..]
      {
        TailHas(x, i);
        TailHas(y, i);
      }
      SameList(x[1..], y[1..]);
    }
  }

  lemma LiveWithin(cat: Catalogue, d: nat, a: Conversation, b: Conversation, key: Key, i: nat)
    requires SameGoals(d, a.goals, b.goals) && SameFactsIn(cat, d, a, b) && KeySeen(a.goals, d, key)
    requires i in Live(cat, a.facts, key)
    ensures i in Live(cat, b.facts, key) && i < |a.facts| && i < |b.facts| && b.facts[i] == a.facts[i]
  {
    assert IsLive(cat, a.facts[i], key);
    assert FactIn(cat, d, a.goals, a.facts, i) == FactIn(cat, d, b.goals, b.facts, i);
    assert IsLive(cat, b.facts[i], key);
  }

  lemma SeenBoth(d: nat, a: seq<GoalRecord>, b: seq<GoalRecord>, key: Key)
    requires SameGoals(d, a, b)
    ensures KeySeen(a, d, key) == KeySeen(b, d, key)
  {
    if key.GoalKey? && key.goalId.Some? {
      SameGoalsIs(d, a, b, key.goalId.value);
    }
  }

  /** The live facts under a key that d sees are the same in both. */
  lemma LiveAgree(cat: Catalogue, d: nat, a: Conversation, b: Conversation, key: Key)
    requires SameGoals(d, a.goals, b.goals) && SameFactsIn(cat, d, a, b) && KeySeen(a.goals, d, key)
    ensures Live(cat, a.facts, key) == Live(cat, b.facts, key)
    ensures forall x | x in Live(cat, a.facts, key) :: x < |a.facts| && x < |b.facts| && b.facts[x] == a.facts[x]
  {
    var x, y := Live(cat, a.facts, key), Live(cat, b.facts, key);
    SeenBoth(d, a.goals, b.goals, key);
    forall i | i in x
      ensures i in y && i < |a.facts| && i < |b.facts| && b.facts[i] == a.facts[i]
    {
      LiveWithin(cat, d, a, b, key, i);
    }
    forall i | i in y
      ensures i in x
    {
      LiveWithin(cat, d, b, a, key, i);
    }
    SameList(x, y);
  }

  lemma OwnKeySeen(cat: Catalogue, d: nat, goals: seq<GoalRecord>, gi: nat, code: string)
    requires InCase(goals, d, gi)
    ensures KeySeen(goals, d, KeyFor(cat, code, OwnerOf(goals, gi)))
  {
  }

  /** Reading on behalf of goal gi of case d, in agreeing states. */
  ghost predicate Readers(cat: Catalogue, d: nat, a: Conversation, b: Conversation, gi: nat) {
    SameGoals(d, a.goals, b.goals) && SameFactsIn(cat, d, a, b) && InCase(a.goals, d, gi) && InCase(b.goals, d, gi)
  }

  lemma FirstAgrees(cat: Catalogue, d: nat, a: Conversation, b: Conversation, gi: nat, code: string)
    requires Readers(cat, d, a, b, gi)
    ensures OwnerOf(a.goals, gi) == OwnerOf(b.goals, gi)
    ensures var key := KeyFor(cat, code, OwnerOf(a.goals, gi));
            var live := Live(cat, a.facts, key);
            && Live(cat, b.facts, key) == live
            && (live != [] ==> live[0] < |a.facts| && live[0] < |b.facts| && b.facts[live[0]] == a.facts[live[0]])
  {
    SameGoalsIs(d, a.goals, b.goals, gi);
    OwnKeySeen(cat, d, a.goals, gi, code);
    LiveAgree(cat, d, a, b, KeyFor(cat, code, OwnerOf(a.goals, gi)));
  }

  lemma ConditionsAgree(cat: Catalogue, d: nat, a: Conversation, b: Conversation, gi: nat, cs: seq<Condition>)
    requires Readers(cat, d, a, b, gi)
    ensures ConditionsHold(cat, a.facts, OwnerOf(a.goals, gi), cs)
         == ConditionsHold(cat, b.facts, OwnerOf(b.goals, gi), cs)
  {
    forall i | 0 <= i < |cs|
      ensures ConditionHolds(cat, a.facts, OwnerOf(a.goals, gi), cs[i])
           == ConditionHolds(cat, b.facts, OwnerOf(b.goals, gi), cs[i])
    {
      FirstAgrees(cat, d, a, b, gi, cs[i].fact);
    }
  }

  lemma SatisfiesAgree(cat: Catalogue, d: nat, a: Conversation, b: Conversation, gi: nat, f: FactRecord, code: string)
    requires Readers(cat, d, a, b, gi)
    ensures Satisfies(cat, a.facts, OwnerOf(a.goals, gi), f, code)
        == Satisfies(cat, b.facts, OwnerOf(b.goals, gi), f, code)
  {
    var spec := FactOf(cat, code);
    if spec.satisfactionRules.Some? {
      var rule := RuleFor(spec.satisfactionRules.value, f.value);
      if rule.Some? {
        ConditionsAgree(cat, d, a, b, gi, rule.value.when);
      }
    }
  }

  lemma GapAgrees(cat: Catalogue, d: nat, a: Conversation, b: Conversation, gi: nat, def: GoalDef, code: string)
    requires Readers(cat, d, a, b, gi)
    ensures GapOf(cat, a.facts, OwnerOf(a.goals, gi), def, code) == GapOf(cat, b.facts, OwnerOf(b.goals, gi), def, code)
  {
    var o := OwnerOf(a.goals, gi);
    FirstAgrees(cat, d, a, b, gi, code);
    ConditionsAgree(cat, d, a, b, gi, FactOf(cat, code).relevantWhen);
    var live := Live(cat, a.facts, KeyFor(cat, code, o));
    if live != [] {
      SatisfiesAgree(cat, d, a, b, gi, a.facts[live[0]], code);
    }
  }

  lemma {:induction false} MissingFromAgrees(
    cat: Catalogue, d: nat, a: Conversation, b: Conversation, gi: nat, def: GoalDef,
    codes: seq<string>, k: nat, out: seq<Missing>)
    requires Readers(cat, d, a, b, gi) && k <= |codes|
    ensures MissingFrom(cat, a.facts, OwnerOf(a.goals, gi), def, codes, k, out)
         == MissingFrom(cat, b.facts, OwnerOf(b.goals, gi), def, codes, k, out)
    decreases |codes| - k
  {
    if k < |codes| {
      GapAgrees(cat, d, a, b, gi, def, codes[k]);
      var skipped := codes[k] in def.completion && out != [];
      var gap := if skipped then None else GapOf(cat, a.facts, OwnerOf(a.goals, gi), def, codes[k]);
      MissingFromAgrees(cat, d, a, b, gi, def, codes, k + 1, if gap.Some? then out + [gap.value] else out);
    }
  }

  /** A goal of case d misses the same facts in both. */
  lemma MissingAgrees(cat: Catalogue, d: nat, a: Conversation, b: Conversation, gi: nat)
    requires Readers(cat, d, a, b, gi)
    ensures MissingFacts(cat, a.facts, a.goals, gi) == MissingFacts(cat, b.facts, b.goals, gi)
    ensures Complete(cat, a, gi) == Complete(cat, b, gi)
    ensures Blocking(cat, a.facts, a.goals, gi) == Blocking(cat, b.facts, b.goals, gi)
  {
    SameGoalsIs(d, a.goals, b.goals, gi);
    var def := GoalOf(cat, a.goals[gi].code);
    MissingFromAgrees(cat, d, a, b, gi, def, def.required + def.completion, 0, []);
  }

  // ----- framing -----

  /** Facts kept, none added in sight, the same goals. */
  lemma KeptAgree(cat: Catalogue, d: nat, goals: seq<GoalRecord>, a: seq<FactRecord>, b: seq<FactRecord>)
    requires AllKept(cat, goals, d, a, b)
    requires forall i | |a| <= i < |b| :: !Sees(cat, goals, d, b[i])
    ensures forall i: nat :: FactIn(cat, d, goals, a, i) == FactIn(cat, d, goals, b, i)
  {
    forall i: nat
      ensures FactIn(cat, d, goals, a, i) == FactIn(cat, d, goals, b, i)
    {
      if i < |a| {
        assert Kept(cat, goals, d, a[i], b[i]);
      }
    }
  }

  /** Goals that d does not have may change; the facts stay. */
  lemma GoalsAgree(cat: Catalogue, d: nat, a: Conversation, b: Conversation)
    requires SameGoals(d, a.goals, b.goals) && a.facts == b.facts
    requires ActionsOf(a.actions, GoalsOf(d, a.goals)) == ActionsOf(b.actions, GoalsOf(d, a.goals))
    ensures Agree(cat, d, a, b)
  {
    SameCase(d, a.goals, b.goals);
    forall i: nat
      ensures FactIn(cat, d, a.goals, a.facts, i) == FactIn(cat, d, b.goals, b.facts, i)
    {
      if i < |a.facts| {
        SeenBoth(d, a.goals, b.goals, KeyOf(cat, a.facts[i]));
      }
    }
  }

  // ----- actions -----

  lemma HasActionAgrees(x: seq<PendingAction>, y: seq<PendingAction>, who: set<nat>, action: string, gi: nat)
    requires Bare(ActionsOf(x, who)) == Bare(ActionsOf(y, who)) && gi in who && HasAction(x, action, gi)
    ensures HasAction(y, action, gi)
  {
    var i :| 0 <= i < |x| && x[i].action == action && x[i].goalId == gi;
    var u, v := ActionsOf(x, who), ActionsOf(y, who);
    assert x[i] in u;
    var j :| 0 <= j < |u| && u[j] == x[i];
    assert Bare(u)[j] == Bare(v)[j];
    assert v[j] in y;
    var k :| 0 <= k < |y| && y[k] == v[j];
    assert y[k].action == action;
  }

  lemma {:induction false} KeepOnlyInside(actions: seq<PendingAction>, gi: nat, action: Option<string>, who: set<nat>)
    ensures ActionsOf(KeepOnly(actions, gi, action), who) == KeepOnly(ActionsOf(actions, who), gi, action)
  {
    if actions != [] {
      KeepOnlyInside(actions[1..], gi, action, who);
      var rest := KeepOnly(actions[1..], gi, action);
      var mine := ActionsOf(actions[1..], who);
      assert ([actions[0]] + rest)[1..] == rest;
      assert ([actions[0]] + mine)[1..] == mine;
    }
  }

  lemma {:induction false} KeepOnlyBare(x: seq<PendingAction>, gi: nat, action: Option<string>)
    ensures KeepOnly(Bare(x), gi, action) == Bare(KeepOnly(x, gi, action))
  {
    if x != [] {
      KeepOnlyBare(x[1..], gi, action);
      assert Bare(x)[1..] == Bare(x[1..]);
      var rest := KeepOnly(x[1..], gi, action);
      assert Bare([x[0]] + rest) == [Bare(x)[0]] + Bare(rest);
    }
  }

  lemma KeepOnlyAgrees(x: seq<PendingAction>, y: seq<PendingAction>, gi: nat, action: Option<string>, who: set<nat>)
    requires Bare(ActionsOf(x, who)) == Bare(ActionsOf(y, who))
    ensures Bare(ActionsOf(KeepOnly(x, gi, action), who)) == Bare(ActionsOf(KeepOnly(y, gi, action), who))
  {
    KeepOnlyInside(x, gi, action, who);
    KeepOnlyInside(y, gi, action, who);
    KeepOnlyBare(ActionsOf(x, who), gi, action);
    KeepOnlyBare(ActionsOf(y, who), gi, action);
  }

  lemma BareAppend(p: seq<PendingAction>, u: PendingAction)
    ensures Bare(p + [u]) == Bare(p) + [u.(requestedAt := 0)]
  {
  }

  lemma AppendAgrees(x: seq<PendingAction>, y: seq<PendingAction>, u: PendingAction, v: PendingAction, who: set<nat>)
    requires Bare(ActionsOf(x, who)) == Bare(ActionsOf(y, who)) && u.(requestedAt := 0) == v.(requestedAt := 0)
    ensures Bare(ActionsOf(x + [u], who)) == Bare(ActionsOf(y + [v], who))
  {
    ActionsOfAppend(x, u, who);
    ActionsOfAppend(y, v, who);
    var p, q := ActionsOf(x, who), ActionsOf(y, who);
    BareAppend(p, u);
    BareAppend(q, v);
    if u.goalId !in who {
      assert p + [] == p && q + [] == q;
    }
  }

  lemma AwaitAgrees(
    x: seq<PendingAction>, y: seq<PendingAction>, gi: nat, r: Resolution, m: nat, n: nat, who: set<nat>)
    requires Bare(ActionsOf(x, who)) == Bare(ActionsOf(y, who)) && gi in who
    ensures Bare(ActionsOf(Await(x, gi, r, m), who)) == Bare(ActionsOf(Await(y, gi, r, n), who))
  {
    KeepOnlyAgrees(x, y, gi, Some(r.action), who);
    var p, q := KeepOnly(x, gi, Some(r.action)), KeepOnly(y, gi, Some(r.action));
    if HasAction(p, r.action, gi) {
      HasActionAgrees(p, q, who, r.action, gi);
    } else {
      if HasAction(q, r.action, gi) {
        HasActionAgrees(q, p, who, r.action, gi);
        assert false;
      }
      AppendAgrees(p, q, PendingAction(r.action, r.executor, gi, m), PendingAction(r.action, r.executor, gi, n), who);
    }
  }
}
