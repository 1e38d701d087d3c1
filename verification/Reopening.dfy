/** Which resolved goals a turn opens again, and what becomes of the goals they return to. */
module Reopening {
  import opened Basics
  import opened Catalog
  import opened State
  import opened Reducer
  import opened Moves
  import opened Runs
  import opened Reachable
  import opened Clearance
  import opened Subflows
  import opened Events

  /** Record f was lost in this turn where goal i looks for it, and the goal declares its code. */
  predicate Lost(cat: Catalogue, st: Conversation, i: nat, f: FactRecord)
    requires i < |st.goals|
  {
    var def := GoalOf(cat, st.goals[i].code);
    && f.supersededAt == Some(st.seqNo)
    && (f.code in def.required || f.code in def.optional || f.code in def.completion)
    && match FactOf(cat, f.code).scope
       case CONVERSATION => true
       case CASE => f.caseId == st.goals[i].caseId
       case GOAL => f.goalId == Some(i)
  }

  /** A resolved goal that lost a fact in this turn and needs a code that is no longer cleared. */
  ghost predicate Reopens(cat: Catalogue, st: Conversation, i: nat) {
    && i < |st.goals| && st.goals[i].status == RESOLVED
    && (exists f <- st.facts :: Lost(cat, st, i, f))
    && (exists code :: Needs(cat, st.goals, i, code) && !Cleared(cat, st.facts, OwnerOf(st.goals, i), code))
  }

  lemma ReopensIs(cat: Catalogue, st: Conversation, i: nat)
    requires i < |st.goals|
    ensures MustReopen(cat, st, i) <==> Reopens(cat, st, i)
  {
    MissingExactly(cat, st.facts, st.goals, i);
    forall f
      ensures Invalidates(cat, st, i, f) <==> Lost(cat, st, i, f)
    {
    }
    if MustReopen(cat, st, i) {
      var k :| 0 <= k < |st.facts| && Invalidates(cat, st, i, st.facts[k]);
      assert Lost(cat, st, i, st.facts[k]);
    }
  }

  /** The goals that are opened again. */
  ghost function Reopened(cat: Catalogue, st: Conversation): (r: set<nat>)
    ensures forall i: nat :: i in r <==> Reopens(cat, st, i)
  {
    set i: nat | i < |st.goals| && Reopens(cat, st, i)
  }

  /** Subflow j is one of those, and returns to goal i, which was not abandoned. */
  predicate Recalls(goals: seq<GoalRecord>, open: set<nat>, i: nat, j: nat) {
    && j in open && j < |goals| && goals[j].parent == Some(i) && goals[j].returnToParent
    && i < |goals| && goals[i].status != ABANDONED
  }

  /** Of the first k goals j is the last that recalls goal i. */
  ghost predicate LastRecall(goals: seq<GoalRecord>, open: set<nat>, i: nat, j: nat, k: nat) {
    j < k && Recalls(goals, open, i, j) && forall x: nat | j < x < k :: !Recalls(goals, open, i, x)
  }

  /** What goal i is once the first k goals were looked at: suspended for the last of its subflows that is opened
      again, or else opened again itself, or else as it was. */
  ghost predicate After(goals: seq<GoalRecord>, open: set<nat>, g: GoalRecord, i: nat, k: nat)
    requires i < |goals|
  {
    && (forall j: nat | LastRecall(goals, open, i, j, k) ::
          g == goals[i].(status := SUSPENDED, reason := Some("SUBFLOW:" + goals[j].code), closedAt := None))
    && ((forall j: nat | j < k :: !Recalls(goals, open, i, j)) ==>
          g == if i < k && i in open
               then goals[i].(status := ACTIVE, reason := Some("DEPENDENCY_INVALIDATED"), closedAt := None)
               else goals[i])
    && (g.status == ABANDONED <==> goals[i].status == ABANDONED)
    && g == goals[i].(status := g.status, reason := g.reason, closedAt := g.closedAt)
  }

  ghost predicate AllAfter(goals: seq<GoalRecord>, open: set<nat>, next: seq<GoalRecord>, k: nat) {
    |next| == |goals| && forall i: nat | i < |goals| :: After(goals, open, next[i], i, k)
  }

  /** The goal whose turn it is was not touched: only later goals recall it. */
  lemma Untouched(goals: seq<GoalRecord>, open: set<nat>, next: seq<GoalRecord>, k: nat)
    requires ParentsFirst(goals) && k < |goals| && AllAfter(goals, open, next, k)
    ensures next[k] == goals[k]
  {
    assert After(goals, open, next[k], k, k);
  }

  lemma SameReopens(cat: Catalogue, st: Conversation, goals: seq<GoalRecord>, k: nat)
    requires k < |st.goals| == |goals| && goals[k] == st.goals[k]
    ensures Reopens(cat, st.(goals := goals), k) <==> Reopens(cat, st, k)
  {
    var s := st.(goals := goals);
    assert OwnerOf(goals, k) == OwnerOf(st.goals, k);
    forall f
      ensures Lost(cat, s, k, f) <==> Lost(cat, st, k, f)
    {
    }
    forall code
      ensures Needs(cat, goals, k, code) <==> Needs(cat, st.goals, k, code)
    {
    }
  }

  /** A goal that goal k recalls, and goal k when it is opened again. */
  lemma TouchedAfter(goals: seq<GoalRecord>, open: set<nat>, mid: seq<GoalRecord>, k: nat, i: nat)
    requires ParentsFirst(goals) && k < |goals| == |mid| && i < |goals| && After(goals, open, mid[i], i, k)
    requires mid[k] == goals[k] && k in open && goals[k].status != ABANDONED
    requires i == k || Recalls(goals, open, i, k)
    ensures After(goals, open, ReopenOne(mid, k)[i], i, k + 1)
  {
    if i != k {
      assert LastRecall(goals, open, i, k, k + 1);
    }
  }

  /** Any other goal. */
  lemma SparedAfter(goals: seq<GoalRecord>, open: set<nat>, g: GoalRecord, k: nat, i: nat)
    requires k < |goals| && i < |goals| && After(goals, open, g, i, k)
    requires !Recalls(goals, open, i, k) && (i == k ==> k !in open)
    ensures After(goals, open, g, i, k + 1)
  {
    forall j: nat
      ensures LastRecall(goals, open, i, j, k + 1) <==> LastRecall(goals, open, i, j, k)
    {
    }
  }

  lemma StepAfter(
    goals: seq<GoalRecord>, open: set<nat>, mid: seq<GoalRecord>, next: seq<GoalRecord>, k: nat, i: nat)
    requires ParentsFirst(goals) && k < |goals| == |mid| && i < |goals| && After(goals, open, mid[i], i, k)
    requires k in open ==> goals[k].status != ABANDONED
    requires mid[k] == goals[k] && next == if k in open then ReopenOne(mid, k) else mid
    ensures After(goals, open, next[i], i, k + 1)
  {
    if k in open && (i == k || Recalls(goals, open, i, k)) {
      TouchedAfter(goals, open, mid, k, i);
    } else {
      assert next[i] == mid[i];
      SparedAfter(goals, open, mid[i], k, i);
    }
  }

  lemma NextAfter(goals: seq<GoalRecord>, open: set<nat>, mid: seq<GoalRecord>, next: seq<GoalRecord>, k: nat)
    requires ParentsFirst(goals) && k < |goals| && AllAfter(goals, open, mid, k) && mid[k] == goals[k]
    requires k in open ==> goals[k].status == RESOLVED
    requires next == if k in open then ReopenOne(mid, k) else mid
    ensures AllAfter(goals, open, next, k + 1)
  {
    forall i: nat | i < |goals|
      ensures After(goals, open, next[i], i, k + 1)
    {
      StepAfter(goals, open, mid, next, k, i);
    }
  }

  /** The goals of the set, one after another. */
  function ReopenAll(goals: seq<GoalRecord>, open: set<nat>, k: nat): (r: seq<GoalRecord>)
    requires k <= |goals|
    ensures |r| == |goals|
    decreases |goals| - k
  {
    if k == |goals| then goals else ReopenAll(if k in open then ReopenOne(goals, k) else goals, open, k + 1)
  }

  lemma ReopenAllStep(
    start: seq<GoalRecord>, open: set<nat>, goals: seq<GoalRecord>, k: nat, last: seq<GoalRecord>)
    returns (next: seq<GoalRecord>)
    requires ParentsFirst(start) && k < |start| == |goals| && AllAfter(start, open, goals, k)
    requires forall i: nat | i < |start| && i in open :: start[i].status == RESOLVED
    requires last == ReopenAll(goals, open, k)
    ensures AllAfter(start, open, next, k + 1) && |next| == |start| && last == ReopenAll(next, open, k + 1)
  {
    next := if k in open then ReopenOne(goals, k) else goals;
    Untouched(start, open, goals, k);
    NextAfter(start, open, goals, next, k);
  }

  lemma {:induction false} ReopenAllIs(
    start: seq<GoalRecord>, open: set<nat>, goals: seq<GoalRecord>, k: nat, last: seq<GoalRecord>)
    requires ParentsFirst(start) && k <= |start| == |goals| && AllAfter(start, open, goals, k)
    requires forall i: nat | i < |start| && i in open :: start[i].status == RESOLVED
    requires last == ReopenAll(goals, open, k)
    ensures AllAfter(start, open, last, |start|)
    decreases |start| - k
  {
    if k < |start| {
      var next := ReopenAllStep(start, open, goals, k, last);
      ReopenAllIs(start, open, next, k + 1, last);
    }
  }

  lemma LaterAreAsBefore(start: seq<GoalRecord>, goals: seq<GoalRecord>, k: nat)
    requires ParentsFirst(start) && k < |start| == |goals| && forall j | k <= j < |start| :: goals[j] == start[j]
    ensures forall j | k < j < |start| :: ReopenOne(goals, k)[j] == start[j]
  {
  }

  /** Whether a goal is opened again does not depend on those that were before it. */
  lemma {:induction false} ReopeningIs(
    cat: Catalogue, st: Conversation, open: set<nat>, goals: seq<GoalRecord>, k: nat)
    requires ParentsFirst(st.goals) && k <= |st.goals| == |goals| && open == Reopened(cat, st)
    requires forall j | k <= j < |goals| :: goals[j] == st.goals[j]
    ensures ReopenFrom(cat, st.(goals := goals), k) == st.(goals := ReopenAll(goals, open, k))
    decreases |st.goals| - k
  {
    if k < |st.goals| {
      SameReopens(cat, st, goals, k);
      ReopensIs(cat, st.(goals := goals), k);
      LaterAreAsBefore(st.goals, goals, k);
      ReopeningIs(cat, st, open, if k in open then ReopenOne(goals, k) else goals, k + 1);
    }
  }

  /** Before anything else a turn opens again exactly the resolved goals that lost a fact in it and now need one,
      and suspends for each the goal that it returns to. */
  lemma ReopensExactly(cat: Catalogue, st: Conversation)
    requires ParentsFirst(st.goals)
    ensures AllAfter(st.goals, Reopened(cat, st), ReopenFrom(cat, st, 0).goals, |st.goals|)
  {
    assert st == st.(goals := st.goals);
    ReopeningIs(cat, st, Reopened(cat, st), st.goals, 0);
    ReopenAllIs(st.goals, Reopened(cat, st), st.goals, 0, ReopenAll(st.goals, Reopened(cat, st), 0));
  }

  lemma RestLeads(
    cat: Catalogue, rank: map<string, nat>, begun: Conversation, settled: Conversation, next: Conversation)
    requires Valid(cat) && Ranked(cat, rank)
    requires RoundsFrom(cat, begun, ROUNDS, ROUNDS) == Ok(settled) && Refresh(cat, settled) == Ok(next)
    ensures Leading(cat, rank, begun, next)
  {
    var P := (s: Conversation) => Leading(cat, rank, begun, s);
    forall a, b {:trigger Settling(cat, rank, a, b)} | P(a) && Settling(cat, rank, a, b)
      ensures P(b)
    {
      OneMoreMove(cat, rank, begun, a, b);
    }
    StayingLeads(cat, rank, begun);
    RoundsMove(cat, rank, P, begun, ROUNDS, ROUNDS);
    RefreshMoves(cat, rank, P, settled);
  }

  lemma RunsOpenParentsFirst(cat: Catalogue, rank: map<string, nat>, turns: seq<Turn>)
    requires Valid(cat) && Ranked(cat, rank)
    ensures ParentsFirst(Run(cat, turns).goals)
  {
    var P := (s: Conversation) => ParentsFirst(s.goals);
    ParentsFirstIsStable(cat, rank, P);
    forall st, t | P(st) && Apply(cat, st, t).Ok?
      ensures P(Apply(cat, st, t).value)
    {
      TurnMoves(cat, rank, P, st, t);
    }
    RunsKeep(cat, P, turns);
  }

  /** In a turn that settles there is a moment, once what was said is taken in, at which exactly the resolved goals
      that lost a fact in the turn and now need one are opened again; what follows is a chain of moves, in which a
      goal only resolves when it is complete. */
  lemma {:induction false} TurnReopens(
    cat: Catalogue, rank: map<string, nat>, turns: seq<Turn>, t: Turn, next: Conversation)
    returns (told: Conversation, begun: Conversation)
    requires Valid(cat) && Ranked(cat, rank) && TurnSettles(t) && Apply(cat, Run(cat, turns), t) == Ok(next)
    ensures Told(cat, Run(cat, turns), t) == Ok(told) && begun == told.(goals := begun.goals)
    ensures AllAfter(told.goals, Reopened(cat, told), begun.goals, |told.goals|)
    ensures Leading(cat, rank, begun, next)
  {
    var st := Run(cat, turns);
    TurnIs(cat, st, t);
    told := Told(cat, st, t).value;
    begun := ReopenFrom(cat, told, 0);
    RunsOpenParentsFirst(cat, rank, turns);
    var P := (s: Conversation) => ParentsFirst(s.goals);
    ParentsFirstIsStable(cat, rank, P);
    ToldMoves(cat, rank, P, st, t);
    ReopensExactly(cat, told);
    OnlyReopens(cat, told, 0);
    RestLeads(cat, rank, begun, Settle(cat, told, ROUNDS).value, next);
  }

  lemma {:induction false} OnlyReopens(cat: Catalogue, st: Conversation, k: nat)
    requires k <= |st.goals|
    ensures ReopenFrom(cat, st, k) == st.(goals := ReopenFrom(cat, st, k).goals)
    decreases |st.goals| - k
  {
    if k < |st.goals| {
      OnlyReopens(cat, if MustReopen(cat, st, k) then st.(goals := ReopenOne(st.goals, k)) else st, k + 1);
    }
  }
}
