/** What is said about one case changes nothing in another. */
module Isolation {
  import opened Basics
  import opened Catalog
  import opened State
  import opened Recording
  import opened FactInvariants
  import opened Goals
  import opened Reducer
  import opened Moves
  import opened Runs
  import opened Settled
  import opened Reachable
  import opened Visibility
  import opened Agreement
  import opened Frames
  import opened Growth
  import opened Lockstep

  // ----- a pass over the relations -----

  lemma {:induction false} TargetsFromAre(goals: seq<GoalRecord>, w: When, k: nat)
    requires k <= |goals|
    ensures var r := TargetsFrom(goals, w, k);
            && Ascending(r)
            && forall t :: t in r <==> k <= t < |goals| && goals[t].code == w.goalCode && goals[t].status in w.statuses
    decreases |goals| - k
  {
    if k < |goals| {
      TargetsFromAre(goals, w, k + 1);
      var rest := TargetsFrom(goals, w, k + 1);
      forall i | 0 <= i < |rest|
        ensures k < rest[i]
      {
        assert rest[i] in rest;
      }
    }
  }

  lemma TargetsAlike(d: nat, a: seq<GoalRecord>, b: seq<GoalRecord>, who: set<nat>, w: When)
    requires SameGoals(d, a, b) && GoalsOf(d, a) == who && GoalsOf(d, b) == who
    ensures Those(TargetsFrom(a, w, 0), who) == Those(TargetsFrom(b, w, 0), who)
  {
    TargetsFromAre(a, w, 0);
    TargetsFromAre(b, w, 0);
    var x, y := Those(TargetsFrom(a, w, 0), who), Those(TargetsFrom(b, w, 0), who);
    ThoseAscend(TargetsFrom(a, w, 0), who);
    ThoseAscend(TargetsFrom(b, w, 0), who);
    forall t: nat
      ensures t in x <==> t in y
    {
      if t in who {
        SameGoalsIs(d, a, b, t);
      }
    }
    SameList(x, y);
  }

  lemma {:induction false} RelationsAgree(
    cat: Catalogue, rank: map<string, nat>, d: nat, P: Conversation -> bool, a: Conversation, b: Conversation,
    who: set<nat>, k: nat, c: bool, c': bool)
    requires World(cat, rank, d, P) && Twins(cat, d, P, a, b, who) && k <= |cat.relations|
    requires RelationsFrom(cat, a, k, c).Ok? && RelationsFrom(cat, b, k, c').Ok?
    requires Inert(a, RelationsFrom(cat, a, k, c).value.st)
    ensures Twins(cat, d, P, RelationsFrom(cat, a, k, c).value.st, RelationsFrom(cat, b, k, c').value.st, who)
    decreases |cat.relations| - k
  {
    if k < |cat.relations| {
      if cat.relations[k].when.None? {
        RelationsAgree(cat, rank, d, P, a, b, who, k + 1, c, c');
      } else {
        var w := cat.relations[k].when.value;
        var x, y := TargetsFrom(a.goals, w, 0), TargetsFrom(b.goals, w, 0);
        var s := ApplyTargets(cat, a, cat.relations[k], w, x, c).value;
        var t := ApplyTargets(cat, b, cat.relations[k], w, y, c').value;
        RelationsInert(cat, a, k, c, w, s);
        TargetsAlike(d, a.goals, b.goals, who, w);
        TargetsAgree(cat, rank, d, P, a, b, who, cat.relations[k], w, x, y, c, c');
        RelationsAgree(cat, rank, d, P, s.st, t.st, who, k + 1, s.changed, t.changed);
      }
    }
  }

  lemma RelationsInert(cat: Catalogue, a: Conversation, k: nat, c: bool, w: When, s: Step)
    requires k < |cat.relations| && cat.relations[k].when == Some(w) && RelationsFrom(cat, a, k, c).Ok?
    requires ApplyTargets(cat, a, cat.relations[k], w, TargetsFrom(a.goals, w, 0), c) == Ok(s)
    requires Inert(a, RelationsFrom(cat, a, k, c).value.st)
    ensures Inert(a, s.st) && Inert(s.st, RelationsFrom(cat, s.st, k + 1, s.changed).value.st)
  {
    TargetsGrow(cat, a, cat.relations[k], w, TargetsFrom(a.goals, w, 0), c);
    RelationsGrow(cat, s.st, k + 1, s.changed);
    GrowsChain(a, s.st, RelationsFrom(cat, s.st, k + 1, s.changed).value.st);
  }

  /** An inert pass resolves nothing in a, so b resolves nothing in d. */
  lemma ResolveAgrees(
    cat: Catalogue, rank: map<string, nat>, d: nat, P: Conversation -> bool, a: Conversation, b: Conversation,
    who: set<nat>, c: bool, c': bool)
    requires World(cat, rank, d, P) && Twins(cat, d, P, a, b, who)
    requires ResolveFrom(cat, a, |a.goals|, c).Ok? && ResolveFrom(cat, b, |b.goals|, c').Ok?
    requires Inert(a, ResolveFrom(cat, a, |a.goals|, c).value.st)
    ensures Twins(cat, d, P,
              ResolveFrom(cat, a, |a.goals|, c).value.st, ResolveFrom(cat, b, |b.goals|, c').value.st, who)
  {
    var last := ResolveFrom(cat, a, |a.goals|, c).value;
    InertResolvesNothing(cat, a, |a.goals|, c, last, 0);
    forall i: nat | i < |b.goals| && InCase(b.goals, d, i)
      ensures !(b.goals[i].status == ACTIVE && Complete(cat, b, i))
    {
      InertResolvesNothing(cat, a, |a.goals|, c, last, i);
      SameGoalsIs(d, a.goals, b.goals, i);
      MissingAgrees(cat, d, a, b, i);
    }
    ResolveSpares(cat, rank, d, P, b, |b.goals|, c', ResolveFrom(cat, b, |b.goals|, c').value);
    ResolveMoves(cat, rank, P, b, |b.goals|, c', ResolveFrom(cat, b, |b.goals|, c').value);
    TwinsRight(cat, d, P, a, b, who, ResolveFrom(cat, b, |b.goals|, c').value.st);
  }

  lemma PassAgrees(
    cat: Catalogue, rank: map<string, nat>, d: nat, P: Conversation -> bool, a: Conversation, b: Conversation,
    who: set<nat>)
    requires World(cat, rank, d, P) && Twins(cat, d, P, a, b, who)
    requires Pass(cat, a).Ok? && Pass(cat, b).Ok? && Inert(a, Pass(cat, a).value.st)
    ensures Twins(cat, d, P, Pass(cat, a).value.st, Pass(cat, b).value.st, who)
  {
    var s, t := RelationsFrom(cat, a, 0, false).value, RelationsFrom(cat, b, 0, false).value;
    RelationsGrow(cat, a, 0, false);
    ResolveGrows(cat, s.st, |s.st.goals|, s.changed, Pass(cat, a).value);
    GrowsChain(a, s.st, Pass(cat, a).value.st);
    RelationsAgree(cat, rank, d, P, a, b, who, 0, false, false);
    ResolveAgrees(cat, rank, d, P, s.st, t.st, who, s.changed, t.changed);
  }

  /** After its first pass an evaluation goes on from there, or is there. */
  lemma EvaluateUnfolds(cat: Catalogue, st: Conversation, fuel: nat, r: Conversation)
    requires Evaluate(cat, st, fuel) == Ok(r)
    ensures fuel > 0 && Pass(cat, st).Ok?
    ensures var s := Pass(cat, st).value;
            && Evaluate(cat, s.st, if s.changed then fuel - 1 else fuel) == Ok(r)
            && (!s.changed ==> s.st == r)
            && (Inert(st, r) ==> Inert(st, s.st) && Inert(s.st, r))
  {
    PassGrows(cat, st);
    var s := Pass(cat, st).value;
    if s.changed {
      EvaluateGrows(cat, s.st, fuel - 1);
      GrowsChain(st, s.st, r);
    }
  }

  /** The two evaluations may take a different number of passes: the one that
      has come to rest stays where it is. */
  lemma {:induction false} EvaluateAgrees(
    cat: Catalogue, rank: map<string, nat>, d: nat, P: Conversation -> bool, a: Conversation, b: Conversation,
    who: set<nat>, m: nat, n: nat, x: Conversation, y: Conversation)
    requires World(cat, rank, d, P) && Twins(cat, d, P, a, b, who)
    requires Evaluate(cat, a, m) == Ok(x) && Evaluate(cat, b, n) == Ok(y) && Inert(a, x)
    ensures Twins(cat, d, P, x, y, who)
    decreases m + n
  {
    EvaluateUnfolds(cat, a, m, x);
    EvaluateUnfolds(cat, b, n, y);
    PassAgrees(cat, rank, d, P, a, b, who);
    var s, t := Pass(cat, a).value, Pass(cat, b).value;
    if s.changed || t.changed {
      EvaluateAgrees(cat, rank, d, P, s.st, t.st, who,
        if s.changed then m - 1 else m, if t.changed then n - 1 else n, x, y);
    }
  }

  // ----- gap checks -----

  lemma SyncGoalAgrees(cat: Catalogue, d: nat, a: Conversation, b: Conversation, k: nat)
    requires Agree(cat, d, a, b) && InCase(a.goals, d, k) && InCase(b.goals, d, k)
    ensures Agree(cat, d, SyncGoal(cat, a, k), SyncGoal(cat, b, k))
  {
    SameGoalsIs(d, a.goals, b.goals, k);
    SameCase(d, a.goals, b.goals);
    MissingAgrees(cat, d, a, b, k);
    SyncGoalIs(cat, a, k);
    SyncGoalIs(cat, b, k);
    var who := GoalsOf(d, a.goals);
    var g := a.goals[k];
    var blocking := Blocking(cat, a.facts, a.goals, k);
    var s, t := SyncGoal(cat, a, k), SyncGoal(cat, b, k);
    if g.status in {ACTIVE, WAITING} && (blocking.Some? || g.status == WAITING) {
      if blocking.Some? {
        AwaitAgrees(a.actions, b.actions, k, blocking.value, a.seqNo, b.seqNo, who);
      } else {
        KeepOnlyAgrees(a.actions, b.actions, k, None, who);
      }
      SetAgrees(cat, d, a, b, k, s.goals[k], s.actions, t.actions);
      SameCoreAgrees(cat, d, a.(goals := a.goals[k := s.goals[k]], actions := s.actions), s,
        b.(goals := b.goals[k := s.goals[k]], actions := t.actions), t);
    }
  }

  lemma SameCoreAgrees(cat: Catalogue, d: nat, a: Conversation, a': Conversation, b: Conversation, b': Conversation)
    requires Agree(cat, d, a, b) && SameCore(a, a') && SameCore(b, b')
    ensures Agree(cat, d, a', b')
  {
    AgreeSelf(cat, d, a', a);
    AgreeSelf(cat, d, b, b');
    AgreeChain(cat, d, a', a, b);
    AgreeChain(cat, d, a', b, b');
  }

  lemma {:induction false} SyncAgrees(cat: Catalogue, d: nat, a: Conversation, b: Conversation, k: nat)
    requires Agree(cat, d, a, b) && k <= |a.goals| <= |b.goals|
    ensures Agree(cat, d, SyncFrom(cat, a, k), SyncFrom(cat, b, k))
    decreases |a.goals| - k
  {
    if k == |a.goals| {
      forall i: nat | k <= i
        ensures !InCase(b.goals, d, i)
      {
        SameGoalsIs(d, a.goals, b.goals, i);
      }
      SyncSpares(cat, d, b, k);
      AgreeChain(cat, d, a, b, SyncFrom(cat, b, k));
    } else {
      var s, t := SyncGoal(cat, a, k), SyncGoal(cat, b, k);
      OutsideStays(cat, d, a, b, k);
      if InCase(a.goals, d, k) {
        SyncGoalAgrees(cat, d, a, b, k);
      } else {
        SyncGoalSpares(cat, d, a, k);
        SyncGoalSpares(cat, d, b, k);
        AgreeBack(cat, d, a, s);
        AgreeChain(cat, d, s, a, b);
        AgreeChain(cat, d, s, b, t);
      }
      SyncAgrees(cat, d, s, t, k + 1);
    }
  }

  // ----- rounds -----

  lemma FixedIsInert(cat: Catalogue, a: Conversation, limit: nat)
    requires Fixed(cat, a, limit)
    ensures Inert(a, Evaluate(cat, a, limit).value)
  {
    SyncStays(cat, Evaluate(cat, a, limit).value, 0);
  }

  lemma RefFreeRests(cat: Catalogue, d: nat, a: Conversation, b: Conversation)
    requires RefFree(cat, d, a) && SameBase(a, b)
    ensures RefFree(cat, d, b)
  {
  }

  /** A round of b beside a settled a. */
  lemma RoundAgrees(
    cat: Catalogue, rank: map<string, nat>, d: nat, P: Conversation -> bool, a: Conversation, b: Conversation,
    who: set<nat>, limit: nat)
    requires World(cat, rank, d, P) && Twins(cat, d, P, a, b, who) && |a.goals| <= |b.goals|
    requires Fixed(cat, a, limit) && Round(cat, b, limit).Ok?
    ensures var r := Round(cat, b, limit).value;
            Twins(cat, d, P, a, r, who) && |a.goals| <= |r.goals|
  {
    var s, t := Evaluate(cat, a, limit).value, Evaluate(cat, b, limit).value;
    FixedIsInert(cat, a, limit);
    EvaluateAgrees(cat, rank, d, P, a, b, who, limit, limit, s, t);
    SyncAgrees(cat, d, s, t, 0);
    var r := Round(cat, b, limit).value;
    SameCoreAgrees(cat, d, SyncFrom(cat, s, 0), a, r, r);
    RefFreeRests(cat, d, t, r);
    RoundMoves(cat, rank, P, b, limit);
    SameCase(d, a.goals, r.goals);
  }

  /** What every round keeps, settling keeps. */
  lemma {:induction false} RoundsKeep(
    cat: Catalogue, Q: Conversation -> bool, st: Conversation, limit: nat, fuel: nat)
    requires forall s :: Q(s) && Round(cat, s, limit).Ok? ==> Q(Round(cat, s, limit).value)
    requires Q(st) && RoundsFrom(cat, st, limit, fuel).Ok?
    ensures Q(RoundsFrom(cat, st, limit, fuel).value)
    decreases fuel
  {
    var r := Round(cat, st, limit).value;
    if !SameCore(st, r) {
      RoundsKeep(cat, Q, r, limit, fuel - 1);
    }
  }

  // ----- the moment an action was requested -----

  ghost predicate SameKey(x: PendingAction, y: PendingAction) {
    x.action == y.action && x.goalId == y.goalId
  }

  /** Every action is an old one, or of a key that no old one has. */
  ghost predicate Loyal(old_: seq<PendingAction>, actions: seq<PendingAction>) {
    forall x | x in actions :: x in old_ || forall y | y in old_ :: !SameKey(x, y)
  }

  /** The old actions of goals from k on are all there. */
  ghost predicate Present(old_: seq<PendingAction>, actions: seq<PendingAction>, k: nat) {
    forall y | y in old_ && y.goalId >= k :: y in actions
  }

  lemma {:induction false} KeepOnlyHas(actions: seq<PendingAction>, gi: nat, action: Option<string>)
    ensures forall x | x in actions && (x.goalId != gi || Some(x.action) == action) ::
        x in KeepOnly(actions, gi, action)
    ensures forall x | x in KeepOnly(actions, gi, action) :: x in actions
  {
    if actions != [] {
      KeepOnlyHas(actions[1..], gi, action);
    }
  }

  lemma AwaitLoyal(old_: seq<PendingAction>, actions: seq<PendingAction>, k: nat, r: Resolution, now: nat)
    requires Loyal(old_, actions) && Present(old_, actions, k)
    ensures Loyal(old_, Await(actions, k, r, now)) && Present(old_, Await(actions, k, r, now), k + 1)
  {
    var kept := KeepOnly(actions, k, Some(r.action));
    KeepOnlyHas(actions, k, Some(r.action));
    var x := PendingAction(r.action, r.executor, k, now);
    if !HasAction(kept, r.action, k) {
      forall y | y in old_
        ensures !SameKey(x, y)
      {
      }
    }
  }

  lemma {:induction false} SyncLoyal(cat: Catalogue, st: Conversation, k: nat, old_: seq<PendingAction>)
    requires k <= |st.goals| && Loyal(old_, st.actions) && Present(old_, st.actions, k)
    ensures Loyal(old_, SyncFrom(cat, st, k).actions)
    decreases |st.goals| - k
  {
    if k < |st.goals| {
      SyncGoalIs(cat, st, k);
      KeepOnlyHas(st.actions, k, None);
      var blocking := Blocking(cat, st.facts, st.goals, k);
      if blocking.Some? {
        AwaitLoyal(old_, st.actions, k, blocking.value, st.seqNo);
      }
      SyncLoyal(cat, SyncGoal(cat, st, k), k + 1, old_);
    }
  }

  /** Within a round an action keeps its moment: it is never taken away and requested again. */
  lemma RoundLoyal(cat: Catalogue, st: Conversation, limit: nat)
    requires Round(cat, st, limit).Ok? && UniqueActions(Evaluate(cat, st, limit).value.actions)
    ensures Loyal(st.actions, Round(cat, st, limit).value.actions)
  {
    var e := Evaluate(cat, st, limit).value;
    forall x | x in e.actions
      ensures x in st.actions || forall y | y in st.actions :: !SameKey(x, y)
    {
      var i :| 0 <= i < |e.actions| && e.actions[i] == x;
      if i >= |st.actions| {
        forall y | y in st.actions
          ensures !SameKey(x, y)
        {
          var j :| 0 <= j < |st.actions| && st.actions[j] == y;
          assert e.actions[j] == y;
        }
      }
    }
    SyncLoyal(cat, e, 0, st.actions);
  }

  lemma LoyalIsExact(old_: seq<PendingAction>, actions: seq<PendingAction>, who: set<nat>)
    requires UniqueActions(old_) && Loyal(old_, actions)
    requires Bare(ActionsOf(actions, who)) == Bare(ActionsOf(old_, who))
    ensures ActionsOf(actions, who) == ActionsOf(old_, who)
  {
    var x, y := ActionsOf(actions, who), ActionsOf(old_, who);
    forall i | 0 <= i < |x|
      ensures x[i] == y[i]
    {
      assert Bare(x)[i] == Bare(y)[i];
      assert x[i] in actions && y[i] in old_;
      assert SameKey(x[i], y[i]);
      assert x[i] in old_;
      var p :| 0 <= p < |old_| && old_[p] == x[i];
      var q :| 0 <= q < |old_| && old_[q] == y[i];
      assert p == q;
    }
  }

  /** Settling beside a settled state leaves case d as that state has it. */
  ghost predicate Untouched(cat: Catalogue, d: nat, a: Conversation, b: Conversation) {
    && SameGoals(d, a.goals, b.goals) && SameFactsIn(cat, d, a, b)
    && ActionsOf(a.actions, GoalsOf(d, a.goals)) == ActionsOf(b.actions, GoalsOf(d, b.goals))
  }

  lemma RoundUntouched(
    cat: Catalogue, rank: map<string, nat>, d: nat, P: Conversation -> bool, a: Conversation, b: Conversation,
    who: set<nat>, limit: nat)
    requires World(cat, rank, d, P) && Twins(cat, d, P, a, b, who) && |a.goals| <= |b.goals|
    requires forall s :: P(s) ==> UniqueActions(s.actions)
    requires ActionsOf(a.actions, who) == ActionsOf(b.actions, who)
    requires Fixed(cat, a, limit) && Round(cat, b, limit).Ok?
    ensures var r := Round(cat, b, limit).value;
            && Twins(cat, d, P, a, r, who) && |a.goals| <= |r.goals|
            && ActionsOf(a.actions, who) == ActionsOf(r.actions, who)
  {
    RoundAgrees(cat, rank, d, P, a, b, who, limit);
    EvaluateMoves(cat, rank, P, b, limit);
    RoundLoyal(cat, b, limit);
    LoyalIsExact(b.actions, Round(cat, b, limit).value.actions, who);
  }

  lemma RoundsUntouched(
    cat: Catalogue, rank: map<string, nat>, d: nat, P: Conversation -> bool, a: Conversation, b: Conversation,
    who: set<nat>, limit: nat, fuel: nat)
    requires World(cat, rank, d, P) && Twins(cat, d, P, a, b, who) && |a.goals| <= |b.goals|
    requires forall s :: P(s) ==> UniqueActions(s.actions)
    requires ActionsOf(a.actions, who) == ActionsOf(b.actions, who)
    requires Fixed(cat, a, limit) && RoundsFrom(cat, b, limit, fuel).Ok?
    ensures Untouched(cat, d, a, RoundsFrom(cat, b, limit, fuel).value)
  {
    var Q := (s: Conversation) =>
      Twins(cat, d, P, a, s, who) && |a.goals| <= |s.goals| && ActionsOf(a.actions, who) == ActionsOf(s.actions, who);
    forall s | Q(s) && Round(cat, s, limit).Ok?
      ensures Q(Round(cat, s, limit).value)
    {
      RoundUntouched(cat, rank, d, P, a, s, who, limit);
    }
    RoundsKeep(cat, Q, b, limit, fuel);
  }

  // ----- what is said -----

  /** The facts an event of the conversation records, and how. */
  function Spoken(e: Event): Option<(seq<FactInput>, Mode)> {
    match e
    case Answer(facts) => Some((facts, ASSERT))
    case Complement(facts) => Some((facts, ASSERT))
    case Correction(facts) => Some((Sourced(facts, USER_CORRECTION), SUPERSEDE))
    case ChangeOfMind(facts) => Some((Sourced(facts, USER_EXPLICIT), SUPERSEDE))
    case Uncertain(facts) => Some((Hedged(facts), ASSERT))
    case _ => None
  }

  lemma {:induction false} RecordOwnedSpares(
    cat: Catalogue, rank: map<string, nat>, d: nat, P: Conversation -> bool, st: Conversation,
    focus: nat, inputs: seq<FactInput>, mode: Mode)
    requires World(cat, rank, d, P) && P(st) && focus < |st.goals| && !InCase(st.goals, d, focus)
    requires forall i | 0 <= i < |inputs| :: FactOf(cat, inputs[i].code).scope != CONVERSATION
    requires RecordOwned(cat, st, Some(focus), inputs, mode).Ok?
    ensures Agree(cat, d, st, RecordOwned(cat, st, Some(focus), inputs, mode).value)
    decreases |inputs|
  {
    if inputs == [] {
      AgreeSelf(cat, d, st, st);
    } else {
      var gi := OwnerGoal(cat, st.goals, inputs[0].code, Some(focus)).value;
      var facts := Record(cat, st.goals, st.facts, st.seqNo, OwnerOf(st.goals, gi), inputs[0], mode, []).value;
      var next := st.(facts := facts);
      assert Shaped(cat, rank, d, st);
      RecordSpares(cat, d, st, gi, inputs[0], mode, []);
      RecordMoves(cat, rank, P, st, OwnerOf(st.goals, gi), inputs[0], mode, []);
      RecordOwnedSpares(cat, rank, d, P, next, focus, inputs[1..], mode);
      AgreeChain(cat, d, st, next, RecordOwned(cat, next, Some(focus), inputs[1..], mode).value);
    }
  }

  // ----- every reachable state -----

  lemma LaterShaped(cat: Catalogue, rank: map<string, nat>, d: nat, st: Conversation)
    requires Shaped(cat, rank, d, st)
    ensures Shaped(cat, rank, d, Numbered(st))
  {
    LaterOk(cat, rank, st.facts, st.seqNo);
  }

  lemma TurnShaped(cat: Catalogue, rank: map<string, nat>, d: nat, st: Conversation, t: Turn)
    requires Valid(cat) && Ranked(cat, rank) && NoBroadcast(cat)
    requires Shaped(cat, rank, d, st) && Apply(cat, st, t).Ok?
    ensures Shaped(cat, rank, d, Apply(cat, st, t).value)
  {
    var P := (s: Conversation) => Shaped(cat, rank, d, s);
    ShapedIsStable(cat, rank, d, P);
    LaterShaped(cat, rank, d, st);
    TurnMoves(cat, rank, P, st, t);
  }

  lemma RunsShaped(cat: Catalogue, rank: map<string, nat>, d: nat, turns: seq<Turn>)
    requires Valid(cat) && Ranked(cat, rank) && NoBroadcast(cat)
    ensures Shaped(cat, rank, d, Run(cat, turns))
  {
    var I := (s: Conversation) => Shaped(cat, rank, d, s);
    assert I(INITIAL) by {
      InitialOk(cat, rank);
    }
    forall st, t | I(st) && Apply(cat, st, t).Ok?
      ensures I(Apply(cat, st, t).value)
    {
      TurnShaped(cat, rank, d, st, t);
    }
    RunsKeep(cat, I, turns);
  }

  /** Settling what was recorded for another case. */
  lemma SettleUntouched(
    cat: Catalogue, rank: map<string, nat>, d: nat, P: Conversation -> bool, a: Conversation, b: Conversation,
    limit: nat)
    requires World(cat, rank, d, P) && P(a) && P(b)
    requires forall s :: P(s) ==> UniqueActions(s.actions)
    requires Agree(cat, d, a, b) && a.forbidden == b.forbidden && a.actions == b.actions && |a.goals| == |b.goals|
    requires RefFree(cat, d, b) && NoFreshLoss(cat, d, b) && Fixed(cat, a, limit)
    requires Settle(cat, b, limit).Ok?
    ensures Untouched(cat, d, a, Settle(cat, b, limit).value)
  {
    assert Shaped(cat, rank, d, b);
    var r := ReopenFrom(cat, b, 0);
    ReopenSpares(cat, d, b, 0);
    ReopenMoves(cat, rank, P, b, 0);
    ReopenKeeps(cat, b, 0);
    RefFreeRests(cat, d, b, r);
    AgreeChain(cat, d, a, b, r);
    SameCase(d, a.goals, r.goals);
    RoundsUntouched(cat, rank, d, P, a, r, GoalsOf(d, a.goals), limit, limit);
  }

  lemma {:induction false} ReopenKeeps(cat: Catalogue, st: Conversation, k: nat)
    requires k <= |st.goals|
    ensures var r := ReopenFrom(cat, st, k);
            r == st.(goals := r.goals) && |r.goals| == |st.goals|
    decreases |st.goals| - k
  {
    if k < |st.goals| {
      if MustReopen(cat, st, k) {
        ReopenKeeps(cat, st.(goals := ReopenOne(st.goals, k)), k + 1);
      } else {
        ReopenKeeps(cat, st, k + 1);
      }
    }
  }

  lemma NothingFresh(cat: Catalogue, rank: map<string, nat>, d: nat, st: Conversation)
    requires FactsOk(cat, rank, st.facts, st.seqNo)
    ensures NoFreshLoss(cat, d, Numbered(st))
  {
    forall i: nat | i < |st.facts| && Sees(cat, st.goals, d, st.facts[i])
      ensures st.facts[i].supersededAt != Some(Numbered(st).seqNo)
    {
      assert Past(st.facts[i], st.seqNo);
    }
  }

  ghost predicate NotOfConversation(cat: Catalogue, inputs: seq<FactInput>) {
    forall i | 0 <= i < |inputs| :: FactOf(cat, inputs[i].code).scope != CONVERSATION
  }

  /** The turn, from a settled state of the past a and the present st. */
  lemma TurnUntouched(
    cat: Catalogue, rank: map<string, nat>, d: nat, P: Conversation -> bool, a: Conversation, st: Conversation,
    e: Event, focus: nat, limit: nat)
    requires World(cat, rank, d, P) && P(a) && P(Numbered(st)) && limit == ROUNDS
    requires forall s :: P(s) ==> UniqueActions(s.actions)
    requires st == a.(seqNo := st.seqNo) && FactsOk(cat, rank, st.facts, st.seqNo) && Fixed(cat, a, limit)
    requires Spoken(e).Some? && NotOfConversation(cat, Spoken(e).value.0)
    requires ContextGoal(st.goals) == Some(focus) && !InCase(st.goals, d, focus)
    requires RefFree(cat, d, Numbered(st)) && Apply(cat, st, Said(e)).Ok?
    ensures Untouched(cat, d, st, Apply(cat, st, Said(e)).value)
  {
    TurnIs(cat, st, Said(e));
    var (inputs, mode) := Spoken(e).value;
    var now := Numbered(st);
    var told := Told(cat, st, Said(e)).value;
    assert RecordOwned(cat, now, Some(focus), inputs, mode) == Ok(told);
    RecordOwnedSpares(cat, rank, d, P, now, focus, inputs, mode);
    RecordOwnedMoves(cat, rank, P, now, Some(focus), inputs, mode);
    NothingFresh(cat, rank, d, st);
    FreshLossStays(cat, d, now, told);
    AgreeSelf(cat, d, a, now);
    AgreeChain(cat, d, a, now, told);
    SettleUntouched(cat, rank, d, P, a, told, limit);
    RefreshKeeps(cat, Settle(cat, told, limit).value);
  }

  /** Case isolation. From any reachable state, what is answered, complemented,
      corrected, reconsidered or doubted about the case of the goal in context
      leaves every goal, fact and pending action of any other case as it was,
      and adds none, even though relations and gap checks have run over all
      goals. The facts must not be of the whole conversation, and relations must
      write none that is. If some goal has no case, the reference of the other
      case must not be one that this turn would give to a case of its kind that
      a relation opens. */
  lemma CasesAreIsolated(cat: Catalogue, rank: map<string, nat>, turns: seq<Turn>, e: Event, d: nat)
    requires Valid(cat) && Ranked(cat, rank) && NoBroadcast(cat)
    requires var st := Run(cat, turns);
             && Spoken(e).Some? && NotOfConversation(cat, Spoken(e).value.0)
             && ContextGoal(st.goals).Some? && !InCase(st.goals, d, ContextGoal(st.goals).value)
             && RefFree(cat, d, Numbered(st))
             && Apply(cat, st, Said(e)).Ok?
    ensures Untouched(cat, d, Run(cat, turns), Apply(cat, Run(cat, turns), Said(e)).value)
  {
    var st := Run(cat, turns);
    RunsRest(cat, rank, turns, ROUNDS);
    RunsShaped(cat, rank, d, turns);
    var n: nat :| RestedAt(cat, rank, st, n, ROUNDS);
    var a := st.(seqNo := n);
    var P := (s: Conversation) => Shaped(cat, rank, d, s) && UniqueActions(s.actions);
    BothStable(cat, rank, d, P);
    LaterShaped(cat, rank, d, st);
    assert Shaped(cat, rank, d, a);
    TurnUntouched(cat, rank, d, P, a, st, e, ContextGoal(st.goals).value, ROUNDS);
  }

  lemma BothStable(cat: Catalogue, rank: map<string, nat>, d: nat, P: Conversation -> bool)
    requires Valid(cat) && Ranked(cat, rank) && NoBroadcast(cat)
    requires forall s :: P(s) <==> Shaped(cat, rank, d, s) && UniqueActions(s.actions)
    ensures Stable(cat, rank, P)
  {
    var X := (s: Conversation) => Shaped(cat, rank, d, s);
    var Y := (s: Conversation) => UniqueActions(s.actions);
    ShapedIsStable(cat, rank, d, X);
    UniqueIsStable(cat, rank, Y);
    forall a, b | P(a) && Move(cat, rank, a, b)
      ensures P(b)
    {
      assert X(a) && Y(a);
      assert X(b) && Y(b);
    }
  }
}
