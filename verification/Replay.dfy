/** What the store shows after the operations between two states. */
module Replay {
  import opened Basics
  import opened Catalog
  import opened State
  import opened Persistence
  import opened Tables

  // ----- what a store shows -----

  /** The pending row is the pending question, the parked rows are the parked questions, each with its place in
      the list; closed rows are history. */
  ghost predicate ShowsQuestions(t: map<QuestionKey, QuestionRow>, st: Conversation) {
    && (st.pending.Some? ==> Held(t, st.pending.value, PENDING, None))
    && (forall i | 0 <= i < |st.parked| :: Held(t, st.parked[i], PARKED, Some(i + 1)))
    && (forall key | key in t && t[key].state == PENDING :: Asks(st.pending, key))
    && (forall key | key in t && t[key].state == PARKED :: IndexOf(st.parked, key).Some?)
  }

  ghost predicate Held(t: map<QuestionKey, QuestionRow>, q: QuestionRef, state: QuestionState, order: Option<nat>) {
    var key := KeyOfQuestion(q);
    key in t && t[key] == QuestionRow(q.question, q.priority, state, order)
  }

  ghost predicate ShowsActions(t: map<ActionKey, ActionRow>, st: Conversation) {
    && (forall a | a in st.actions :: Opened(t, a))
    && (forall key | key in t && t[key].open :: HasKey(st.actions, key))
  }

  ghost predicate Opened(t: map<ActionKey, ActionRow>, a: PendingAction) {
    var key := KeyOfAction(a);
    key in t && t[key] == ActionRow(a.executor, true)
  }

  /** No row was asked for later than turn n. */
  ghost predicate NotAfter(s: Store, n: nat) {
    && (forall key | key in s.questions :: key.askedAt <= n)
    && (forall key | key in s.actions :: key.requestedAt <= n)
  }

  ghost predicate Shows(s: Store, st: Conversation, subject: string -> string) {
    ShowsRecords(s, st, subject) && ShowsQuestions(s.questions, st) && ShowsActions(s.actions, st)
  }

  // ----- questions -----

  ghost predicate DistinctKeys(parked: seq<QuestionRef>) {
    forall i, j | 0 <= i < j < |parked| :: KeyOfQuestion(parked[i]) != KeyOfQuestion(parked[j])
  }

  /** How the questions of a turn follow from those before it. */
  ghost predicate QuestionsFollow(prev: Conversation, next: Conversation, now: nat) {
    && DistinctKeys(prev.parked) && DistinctKeys(next.parked)
    && (prev.pending.Some? ==> IndexOf(prev.parked, KeyOfQuestion(prev.pending.value)).None?)
    && (next.pending.Some? ==> IndexOf(next.parked, KeyOfQuestion(next.pending.value)).None?)
    && (forall q | q in next.parked :: q in prev.parked || prev.pending == Some(q))
    && (next.pending.Some? ==>
          next.pending == prev.pending || next.pending.value in prev.parked || next.pending.value.askedAt == now)
  }

  /** A question has its place in the list under its key. */
  lemma PlaceOf(parked: seq<QuestionRef>, i: nat)
    requires DistinctKeys(parked) && i < |parked|
    ensures IndexOf(parked, KeyOfQuestion(parked[i])) == Some(i)
  {
    var at := IndexOf(parked, KeyOfQuestion(parked[i]));
    assert parked[i] in parked;
  }

  predicate Dropped(next: Conversation, key: QuestionKey) {
    IndexOf(next.parked, key).None? && !Asks(next.pending, key)
  }

  /** Parked question k is cancelled, if it has to be. */
  lemma CancelDoes(s: Store, call: Call, prev: Conversation, next: Conversation, k: nat) returns (mid: Store)
    requires k < |prev.parked| && DistinctKeys(prev.parked)
    requires forall j | k <= j < |prev.parked| :: Held(s.questions, prev.parked[j], PARKED, Some(j + 1))
    ensures PerformAll(s, call, CancelOps(prev, next, k)) == PerformAll(mid, call, CancelOps(prev, next, k + 1))
    ensures var key := KeyOfQuestion(prev.parked[k]);
            && key in s.questions
            && mid == s.(questions := if Dropped(next, key)
                 then s.questions[key := s.questions[key].(state := CANCELLED, order := None)] else s.questions)
    ensures forall j | k + 1 <= j < |prev.parked| :: Held(mid.questions, prev.parked[j], PARKED, Some(j + 1))
  {
    var key := KeyOfQuestion(prev.parked[k]);
    assert Held(s.questions, prev.parked[k], PARKED, Some(k + 1));
    mid := s;
    if !Dropped(next, key) {
      assert CancelOps(prev, next, k) == CancelOps(prev, next, k + 1);
    } else {
      FirstThen(s, call, CloseQuestion(key, CANCELLED), CancelOps(prev, next, k + 1));
      mid := Perform(s, call, CloseQuestion(key, CANCELLED)).value;
    }
    forall j | k + 1 <= j < |prev.parked|
      ensures Held(mid.questions, prev.parked[j], PARKED, Some(j + 1))
    {
      assert Held(s.questions, prev.parked[j], PARKED, Some(j + 1));
    }
  }

  lemma {:induction false} CancelsDo(
    s: Store, call: Call, prev: Conversation, next: Conversation, k: nat)
    returns (r: Store)
    requires k <= |prev.parked| && DistinctKeys(prev.parked)
    requires forall j | k <= j < |prev.parked| :: Held(s.questions, prev.parked[j], PARKED, Some(j + 1))
    ensures PerformAll(s, call, CancelOps(prev, next, k)) == Ok(r)
    ensures r == s.(questions := r.questions) && r.questions.Keys == s.questions.Keys
    ensures forall key | key in s.questions ::
              r.questions[key] == if IndexOf(prev.parked[k..], key).Some? && Dropped(next, key)
                                  then s.questions[key].(state := CANCELLED, order := None) else s.questions[key]
    decreases |prev.parked| - k
  {
    r := s;
    if k < |prev.parked| {
      assert prev.parked[k..][0] == prev.parked[k] && prev.parked[k..][1..] == prev.parked[k + 1..];
      var mid := CancelDoes(s, call, prev, next, k);
      r := CancelsDo(mid, call, prev, next, k + 1);
      TailHasNot(prev.parked, k);
    }
  }

  lemma TailHasNot(parked: seq<QuestionRef>, k: nat)
    requires k < |parked| && DistinctKeys(parked)
    ensures IndexOf(parked[k + 1..], KeyOfQuestion(parked[k])).None?
  {
    var rest := parked[k + 1..];
    forall i | 0 <= i < |rest|
      ensures KeyOfQuestion(rest[i]) != KeyOfQuestion(parked[k])
    {
      assert rest[i] == parked[k + 1 + i];
    }
  }

  /** The pending question, if it goes among the parked ones, at its place there. */
  ghost predicate Shelved(t: map<QuestionKey, QuestionRow>, prev: Conversation, next: Conversation) {
    prev.pending.Some? && IndexOf(next.parked, KeyOfQuestion(prev.pending.value)).Some? ==>
      Held(t, prev.pending.value, PARKED, Some(IndexOf(next.parked, KeyOfQuestion(prev.pending.value)).value + 1))
  }

  /** The questions once the pending one has left, if it has to. */
  ghost predicate Left(t: map<QuestionKey, QuestionRow>, prev: Conversation, next: Conversation) {
    && (forall i | 0 <= i < |prev.parked| :: Held(t, prev.parked[i], PARKED, Some(i + 1)))
    && (prev.pending.Some? && Asks(next.pending, KeyOfQuestion(prev.pending.value)) ==>
        Held(t, prev.pending.value, PENDING, None))
    && Shelved(t, prev, next)
    && (forall key | key in t && t[key].state == PENDING ::
          Asks(prev.pending, key) && Asks(next.pending, key))
    && (forall key | key in t && t[key].state == PARKED ::
          IndexOf(prev.parked, key).Some? || (Asks(prev.pending, key) && IndexOf(next.parked, key).Some?))
  }

  lemma LeaveDo(s: Store, call: Call, prev: Conversation, next: Conversation) returns (r: Store)
    requires ShowsQuestions(s.questions, prev) && QuestionsFollow(prev, next, call.now)
    ensures PerformAll(s, call, LeaveOps(prev, next)) == Ok(r)
    ensures r == s.(questions := r.questions) && r.questions.Keys == s.questions.Keys
    ensures Left(r.questions, prev, next)
  {
    r := s;
    if prev.pending.Some? && !Asks(next.pending, KeyOfQuestion(prev.pending.value)) {
      var key := KeyOfQuestion(prev.pending.value);
      assert Held(s.questions, prev.pending.value, PENDING, None);
      var at := IndexOf(next.parked, key);
      var op := if at.Some? then ParkQuestion(key, at.value + 1) else CloseQuestion(key, ANSWERED);
      assert LeaveOps(prev, next) == [op] + [];
      FirstThen(s, call, op, []);
      r := Perform(s, call, op).value;
      LeftAfter(s.questions, prev, next, key,
        if at.Some? then PARKED else ANSWERED, if at.Some? then Some(at.value + 1) else None);
    }
  }

  lemma LeftAfter(
    t: map<QuestionKey, QuestionRow>, prev: Conversation, next: Conversation, key: QuestionKey, state: QuestionState,
    order: Option<nat>)
    requires ShowsQuestions(t, prev) && Asks(prev.pending, key) && !Asks(next.pending, key) && key in t
    requires IndexOf(prev.parked, key).None?
    requires state == if IndexOf(next.parked, key).Some? then PARKED else ANSWERED
    requires IndexOf(next.parked, key).Some? ==> order == Some(IndexOf(next.parked, key).value + 1)
    ensures Left(t[key := t[key].(state := state, order := order)], prev, next)
  {
    var r := t[key := t[key].(state := state, order := order)];
    forall i | 0 <= i < |prev.parked|
      ensures Held(r, prev.parked[i], PARKED, Some(i + 1))
    {
      assert Held(t, prev.parked[i], PARKED, Some(i + 1));
      assert prev.parked[i] in prev.parked;
    }
  }

  /** The questions once those neither parked nor asked any more are cancelled. */
  ghost predicate Cleaned(t: map<QuestionKey, QuestionRow>, prev: Conversation, next: Conversation) {
    && (forall i | 0 <= i < |prev.parked| && !Dropped(next, KeyOfQuestion(prev.parked[i])) ::
          Held(t, prev.parked[i], PARKED, Some(i + 1)))
    && (prev.pending.Some? && Asks(next.pending, KeyOfQuestion(prev.pending.value)) ==>
        Held(t, prev.pending.value, PENDING, None))
    && Shelved(t, prev, next)
    && (forall key | key in t && t[key].state == PENDING ::
          Asks(prev.pending, key) && Asks(next.pending, key))
    && (forall key | key in t && t[key].state == PARKED :: !Dropped(next, key))
  }

  lemma CleanDo(s: Store, call: Call, prev: Conversation, next: Conversation) returns (r: Store)
    requires Left(s.questions, prev, next) && QuestionsFollow(prev, next, call.now)
    ensures PerformAll(s, call, CancelOps(prev, next, 0)) == Ok(r)
    ensures r == s.(questions := r.questions) && r.questions.Keys == s.questions.Keys
    ensures Cleaned(r.questions, prev, next)
  {
    assert prev.parked[0..] == prev.parked;
    r := CancelsDo(s, call, prev, next, 0);
    forall i | 0 <= i < |prev.parked| && !Dropped(next, KeyOfQuestion(prev.parked[i]))
      ensures Held(r.questions, prev.parked[i], PARKED, Some(i + 1))
    {
      assert Held(s.questions, prev.parked[i], PARKED, Some(i + 1));
    }
  }

  /** The place under which the store keeps a question that is parked in next. */
  function StoredPlace(prev: Conversation, next: Conversation, q: QuestionRef): Option<nat> {
    var at := IndexOf(if prev.pending == Some(q) then next.parked else prev.parked, KeyOfQuestion(q));
    if at.Some? then Some(at.value + 1) else None
  }

  /** The questions of next, parked ones at the places they were given when they were parked. */
  ghost predicate Placed(t: map<QuestionKey, QuestionRow>, prev: Conversation, next: Conversation) {
    && (next.pending.Some? ==> Held(t, next.pending.value, PENDING, None))
    && (forall i | 0 <= i < |next.parked| ::
          Held(t, next.parked[i], PARKED, StoredPlace(prev, next, next.parked[i])))
    && (forall key | key in t && t[key].state == PENDING :: Asks(next.pending, key))
    && (forall key | key in t && t[key].state == PARKED :: IndexOf(next.parked, key).Some?)
  }

  lemma EnterDo(s: Store, call: Call, prev: Conversation, next: Conversation) returns (r: Store)
    requires Cleaned(s.questions, prev, next) && QuestionsFollow(prev, next, call.now)
    requires forall key | key in s.questions :: key.askedAt < call.now
    requires prev.pending.Some? ==> prev.pending.value.askedAt < call.now
    requires forall i | 0 <= i < |prev.parked| :: prev.parked[i].askedAt < call.now
    requires next.pending.Some? ==> next.pending.value.goalId in s.goals
    ensures PerformAll(s, call, EnterOps(prev, next)) == Ok(r)
    ensures r == s.(questions := r.questions) && forall key | key in r.questions :: key.askedAt <= call.now
    ensures Placed(r.questions, prev, next)
  {
    r := s;
    if next.pending.Some? && !Asks(prev.pending, KeyOfQuestion(next.pending.value)) {
      var q := next.pending.value;
      var key := KeyOfQuestion(q);
      var op := EnterOps(prev, next)[0];
      assert EnterOps(prev, next) == [op] + [];
      if IndexOf(prev.parked, key).Some? {
        assert q in prev.parked;
        var i :| 0 <= i < |prev.parked| && prev.parked[i] == q;
        assert Held(s.questions, q, PARKED, Some(i + 1));
      }
      assert Perform(s, call, op).Ok?;
      FirstThen(s, call, op, []);
      r := Perform(s, call, op).value;
      assert Held(r.questions, q, PENDING, None);
    }
    EnterPlaces(s, call.now, prev, next, r);
  }

  lemma EnterPlaces(s: Store, now: nat, prev: Conversation, next: Conversation, r: Store)
    requires Cleaned(s.questions, prev, next) && QuestionsFollow(prev, next, now)
    requires prev.pending.Some? ==> prev.pending.value.askedAt < now
    requires forall i | 0 <= i < |prev.parked| :: prev.parked[i].askedAt < now
    requires if next.pending.Some? && !Asks(prev.pending, KeyOfQuestion(next.pending.value))
             then && Held(r.questions, next.pending.value, PENDING, None)
                  && r.questions == s.questions[KeyOfQuestion(next.pending.value) :=
                       QuestionRow(next.pending.value.question, next.pending.value.priority, PENDING, None)]
             else r == s
    ensures Placed(r.questions, prev, next)
  {
    forall i | 0 <= i < |next.parked|
      ensures Held(r.questions, next.parked[i], PARKED, StoredPlace(prev, next, next.parked[i]))
    {
      KeptPlace(s.questions, now, prev, next, i);
      assert next.parked[i] in next.parked;
    }
    if next.pending.Some? && Asks(prev.pending, KeyOfQuestion(next.pending.value)) {
      assert next.pending == prev.pending;
    }
  }

  lemma KeptPlace(t: map<QuestionKey, QuestionRow>, now: nat, prev: Conversation, next: Conversation, i: nat)
    requires Cleaned(t, prev, next) && QuestionsFollow(prev, next, now) && i < |next.parked|
    ensures Held(t, next.parked[i], PARKED, StoredPlace(prev, next, next.parked[i]))
  {
    var q := next.parked[i];
    assert q in next.parked;
    PlaceOf(next.parked, i);
    if prev.pending != Some(q) {
      var j :| 0 <= j < |prev.parked| && prev.parked[j] == q;
      PlaceOf(prev.parked, j);
    }
  }

  lemma QuestionsDo(s: Store, call: Call, prev: Conversation, next: Conversation) returns (r: Store)
    requires ShowsQuestions(s.questions, prev) && QuestionsFollow(prev, next, call.now)
    requires forall key | key in s.questions :: key.askedAt < call.now
    requires next.pending.Some? ==> next.pending.value.goalId in s.goals
    ensures PerformAll(s, call, QuestionOps(prev, next)) == Ok(r)
    ensures r == s.(questions := r.questions) && forall key | key in r.questions :: key.askedAt <= call.now
    ensures Placed(r.questions, prev, next)
  {
    forall i | 0 <= i < |prev.parked|
      ensures prev.parked[i].askedAt < call.now
    {
      assert Held(s.questions, prev.parked[i], PARKED, Some(i + 1));
    }
    var left := LeaveDo(s, call, prev, next);
    var clean := CleanDo(left, call, prev, next);
    assert clean.questions.Keys == s.questions.Keys;
    r := EnterDo(clean, call, prev, next);
    PerformJoin(s, call, LeaveOps(prev, next), CancelOps(prev, next, 0));
    PerformJoin(s, call, LeaveOps(prev, next) + CancelOps(prev, next, 0), EnterOps(prev, next));
  }

  /** A parked question that was parked before has not moved up the list. */
  predicate InPlace(prev: Conversation, next: Conversation, i: nat)
    requires i < |next.parked|
  {
    prev.pending == Some(next.parked[i]) || (i < |prev.parked| && prev.parked[i] == next.parked[i])
  }

  lemma InPlaceIs(now: nat, prev: Conversation, next: Conversation, i: nat)
    requires QuestionsFollow(prev, next, now) && i < |next.parked|
    ensures InPlace(prev, next, i) <==> StoredPlace(prev, next, next.parked[i]) == Some(i + 1)
  {
    var q := next.parked[i];
    assert q in next.parked;
    PlaceOf(next.parked, i);
    if prev.pending != Some(q) {
      var j :| 0 <= j < |prev.parked| && prev.parked[j] == q;
      PlaceOf(prev.parked, j);
      if i < |prev.parked| {
        PlaceOf(prev.parked, i);
      }
    }
  }

  lemma PlacedIsShown(t: map<QuestionKey, QuestionRow>, now: nat, prev: Conversation, next: Conversation)
    requires Placed(t, prev, next) && QuestionsFollow(prev, next, now)
    ensures ShowsQuestions(t, next) <==> forall i | 0 <= i < |next.parked| :: InPlace(prev, next, i)
  {
    forall i | 0 <= i < |next.parked|
      ensures Held(t, next.parked[i], PARKED, Some(i + 1)) <==> InPlace(prev, next, i)
    {
      InPlaceIs(now, prev, next, i);
      assert Held(t, next.parked[i], PARKED, StoredPlace(prev, next, next.parked[i]));
    }
  }

  // ----- actions -----

  ghost predicate ActionsFollow(prev: Conversation, next: Conversation, now: nat) {
    && UniqueActions(prev.actions) && UniqueActions(next.actions)
    && (forall a | a in next.actions :: a in prev.actions || a.requestedAt == now)
  }

  /** Action rows after the closings from k on. */
  ghost predicate ClosedAt(s: Store, r: Store, prev: Conversation, next: Conversation, k: nat, key: ActionKey)
    requires k <= |prev.actions|
  {
    && (key in r.actions <==> key in s.actions)
    && (key in s.actions ==>
          r.actions[key] == if HasKey(prev.actions[k..], key) && !HasKey(next.actions, key)
                            then s.actions[key].(open := false) else s.actions[key])
  }

  lemma HeadOrTail(actions: seq<PendingAction>, k: nat, key: ActionKey)
    requires k < |actions| && UniqueActions(actions)
    ensures HasKey(actions[k..], key) <==> key == KeyOfAction(actions[k]) || HasKey(actions[k + 1..], key)
    ensures !HasKey(actions[k + 1..], KeyOfAction(actions[k]))
  {
    var rest := actions[k..];
    assert rest[0] == actions[k] && rest[1..] == actions[k + 1..];
    if HasKey(rest, key) {
      var i :| 0 <= i < |rest| && KeyOfAction(rest[i]) == key;
      assert i == 0 || rest[1..][i - 1] == rest[i];
    }
    if HasKey(rest[1..], key) {
      var i :| 0 <= i < |rest[1..]| && KeyOfAction(rest[1..][i]) == key;
      assert rest[i + 1] == rest[1..][i];
    }
    forall i | 0 <= i < |rest[1..]|
      ensures KeyOfAction(rest[1..][i]) != KeyOfAction(actions[k])
    {
      assert rest[1..][i] == actions[k + 1 + i];
    }
  }

  lemma {:induction false} ClosesDo(
    s: Store, call: Call, prev: Conversation, next: Conversation, k: nat)
    returns (r: Store)
    requires k <= |prev.actions| && UniqueActions(prev.actions)
    requires forall j | k <= j < |prev.actions| :: Opened(s.actions, prev.actions[j])
    ensures PerformAll(s, call, CloseOps(prev, next, k)) == Ok(r)
    ensures r == s.(actions := r.actions)
    ensures forall key :: ClosedAt(s, r, prev, next, k, key)
    decreases |prev.actions| - k
  {
    r := s;
    if k < |prev.actions| {
      var mid := CloseDoes(s, call, prev, next, k);
      r := ClosesDo(mid, call, prev, next, k + 1);
      forall key
        ensures ClosedAt(s, r, prev, next, k, key)
      {
        assert ClosedAt(mid, r, prev, next, k + 1, key);
        HeadOrTail(prev.actions, k, key);
      }
    }
  }

  lemma CloseDoes(s: Store, call: Call, prev: Conversation, next: Conversation, k: nat) returns (mid: Store)
    requires k < |prev.actions| && UniqueActions(prev.actions)
    requires forall j | k <= j < |prev.actions| :: Opened(s.actions, prev.actions[j])
    ensures PerformAll(s, call, CloseOps(prev, next, k)) == PerformAll(mid, call, CloseOps(prev, next, k + 1))
    ensures mid == s.(actions := mid.actions)
    ensures var key := KeyOfAction(prev.actions[k]);
            && key in s.actions
            && mid.actions == if HasKey(next.actions, key) then s.actions
                              else s.actions[key := s.actions[key].(open := false)]
    ensures forall j | k + 1 <= j < |prev.actions| :: Opened(mid.actions, prev.actions[j])
  {
    var key := KeyOfAction(prev.actions[k]);
    assert Opened(s.actions, prev.actions[k]);
    mid := s;
    if HasKey(next.actions, key) {
      assert CloseOps(prev, next, k) == CloseOps(prev, next, k + 1);
    } else {
      FirstThen(s, call, CloseAction(key), CloseOps(prev, next, k + 1));
      mid := Perform(s, call, CloseAction(key)).value;
    }
    forall j | k + 1 <= j < |prev.actions|
      ensures Opened(mid.actions, prev.actions[j])
    {
      assert Opened(s.actions, prev.actions[j]);
    }
  }

  /** Before the openings from k on: what is open is in next, the kept actions
      and those opened so far. */
  ghost predicate Opening(t: map<ActionKey, ActionRow>, now: nat, prev: Conversation, next: Conversation, k: nat) {
    && k <= |next.actions|
    && (forall a | a in next.actions && HasKey(prev.actions, KeyOfAction(a)) :: Opened(t, a))
    && (forall j | 0 <= j < k :: Opened(t, next.actions[j]))
    && (forall key | key in t && t[key].open ::
          HasKey(next.actions, key) && (HasKey(prev.actions, key) || HasKey(next.actions[..k], key)))
    && (forall key | key in t :: key.requestedAt <= now && (key.requestedAt < now || HasKey(next.actions[..k], key)))
  }

  lemma {:induction false} OpensDo(
    s: Store, call: Call, prev: Conversation, next: Conversation, k: nat)
    returns (r: Store)
    requires Opening(s.actions, call.now, prev, next, k) && ActionsFollow(prev, next, call.now)
    requires forall i | 0 <= i < |next.actions| :: next.actions[i].goalId in s.goals
    ensures PerformAll(s, call, OpenOps(prev, next, k)) == Ok(r)
    ensures r == s.(actions := r.actions) && Opening(r.actions, call.now, prev, next, |next.actions|)
    decreases |next.actions| - k
  {
    r := s;
    if k < |next.actions| {
      var mid := OpenDoes(s, call, prev, next, k);
      r := OpensDo(mid, call, prev, next, k + 1);
    }
  }

  lemma PrefixHas(actions: seq<PendingAction>, k: nat, key: ActionKey)
    requires k < |actions|
    ensures HasKey(actions[..k + 1], key) <==> HasKey(actions[..k], key) || key == KeyOfAction(actions[k])
  {
    var a, b := actions[..k + 1], actions[..k];
    if HasKey(a, key) {
      var i :| 0 <= i < |a| && KeyOfAction(a[i]) == key;
      assert i == k || b[i] == a[i];
    }
    if HasKey(b, key) {
      var i :| 0 <= i < |b| && KeyOfAction(b[i]) == key;
      assert a[i] == b[i];
    }
    assert a[k] == actions[k];
  }

  lemma OpenDoes(s: Store, call: Call, prev: Conversation, next: Conversation, k: nat) returns (mid: Store)
    requires Opening(s.actions, call.now, prev, next, k) && ActionsFollow(prev, next, call.now) && k < |next.actions|
    requires next.actions[k].goalId in s.goals
    ensures PerformAll(s, call, OpenOps(prev, next, k)) == PerformAll(mid, call, OpenOps(prev, next, k + 1))
    ensures mid == s.(actions := mid.actions) && Opening(mid.actions, call.now, prev, next, k + 1)
  {
    var a := next.actions[k];
    var key := KeyOfAction(a);
    mid := s;
    if HasKey(prev.actions, key) {
      assert OpenOps(prev, next, k) == OpenOps(prev, next, k + 1);
    } else {
      MayOpen(s, call.now, prev, next, k);
      var op := OpenAction(key, a.executor);
      FirstThen(s, call, op, OpenOps(prev, next, k + 1));
      mid := Perform(s, call, op).value;
    }
    forall x | x in next.actions && HasKey(prev.actions, KeyOfAction(x))
      ensures Opened(mid.actions, x)
    {
      assert Opened(s.actions, x);
    }
    forall j | 0 <= j < k + 1
      ensures Opened(mid.actions, next.actions[j])
    {
      assert j < k ==> Opened(s.actions, next.actions[j]);
    }
    forall x | x in mid.actions
      ensures mid.actions[x].open ==>
          HasKey(next.actions, x) && (HasKey(prev.actions, x) || HasKey(next.actions[..k + 1], x))
      ensures x.requestedAt <= call.now && (x.requestedAt < call.now || HasKey(next.actions[..k + 1], x))
    {
      PrefixHas(next.actions, k, x);
    }
  }

  /** An action that is new in next can be opened: its key is fresh, and no other
      action of its goal and code is open. */
  lemma MayOpen(s: Store, now: nat, prev: Conversation, next: Conversation, k: nat)
    requires Opening(s.actions, now, prev, next, k) && ActionsFollow(prev, next, now) && k < |next.actions|
    requires !HasKey(prev.actions, KeyOfAction(next.actions[k]))
    ensures var a := next.actions[k];
            && a.requestedAt == now && KeyOfAction(a) !in s.actions && !HasOpen(s, a.goalId, a.action)
  {
    var a := next.actions[k];
    forall i | 0 <= i < |prev.actions|
      ensures prev.actions[i] != a
    {
      assert KeyOfAction(prev.actions[i]) != KeyOfAction(a);
    }
    forall i | 0 <= i < k
      ensures KeyOfAction(next.actions[..k][i]) != KeyOfAction(a)
    {
      assert next.actions[..k][i] == next.actions[i];
    }
    forall key | key in s.actions && s.actions[key].open
      ensures !(key.goalId == a.goalId && key.action == a.action)
    {
      var i :| 0 <= i < |next.actions| && KeyOfAction(next.actions[i]) == key;
      assert i == k || next.actions[i].action != a.action || next.actions[i].goalId != a.goalId;
    }
  }

  lemma ActionsDo(s: Store, call: Call, prev: Conversation, next: Conversation) returns (r: Store)
    requires ShowsActions(s.actions, prev) && ActionsFollow(prev, next, call.now)
    requires forall key | key in s.actions :: key.requestedAt < call.now
    requires forall i | 0 <= i < |next.actions| :: next.actions[i].goalId in s.goals
    ensures PerformAll(s, call, CloseOps(prev, next, 0) + OpenOps(prev, next, 0)) == Ok(r)
    ensures r == s.(actions := r.actions) && forall key | key in r.actions :: key.requestedAt <= call.now
    ensures ShowsActions(r.actions, next)
  {
    assert prev.actions[0..] == prev.actions;
    var mid := ClosesDo(s, call, prev, next, 0);
    PerformJoin(s, call, CloseOps(prev, next, 0), OpenOps(prev, next, 0));
    ClosedOpens(s, mid, call.now, prev, next);
    r := OpensDo(mid, call, prev, next, 0);
    assert next.actions[..|next.actions|] == next.actions;
    forall a | a in next.actions
      ensures Opened(r.actions, a)
    {
      var i :| 0 <= i < |next.actions| && next.actions[i] == a;
      assert Opened(r.actions, next.actions[i]);
    }
  }

  lemma ClosedOpens(s: Store, mid: Store, now: nat, prev: Conversation, next: Conversation)
    requires ShowsActions(s.actions, prev) && ActionsFollow(prev, next, now)
    requires forall key | key in s.actions :: key.requestedAt < now
    requires forall key :: ClosedAt(s, mid, prev, next, 0, key)
    ensures Opening(mid.actions, now, prev, next, 0)
  {
    assert prev.actions[0..] == prev.actions;
    forall a | a in next.actions && HasKey(prev.actions, KeyOfAction(a))
      ensures Opened(mid.actions, a)
    {
      var i :| 0 <= i < |prev.actions| && KeyOfAction(prev.actions[i]) == KeyOfAction(a);
      var j :| 0 <= j < |next.actions| && next.actions[j] == a;
      assert HasKey(next.actions, KeyOfAction(a));
      assert Opened(s.actions, prev.actions[i]);
      assert ClosedAt(s, mid, prev, next, 0, KeyOfAction(a));
      SameRecord(prev, next, now, i, a);
    }
    forall key | key in mid.actions
      ensures key.requestedAt < now
      ensures mid.actions[key].open ==> HasKey(next.actions, key) && HasKey(prev.actions, key)
    {
      assert ClosedAt(s, mid, prev, next, 0, key);
    }
  }

  lemma SameRecord(prev: Conversation, next: Conversation, now: nat, i: nat, a: PendingAction)
    requires ActionsFollow(prev, next, now) && i < |prev.actions| && a in next.actions
    requires KeyOfAction(prev.actions[i]) == KeyOfAction(a) && prev.actions[i].requestedAt < now
    ensures prev.actions[i] == a
  {
    var j :| 0 <= j < |prev.actions| && prev.actions[j] == a;
    assert i == j;
  }

  // ----- the whole transition -----

  /** What any turn does to the records that were there, whatever it does to them. */
  ghost predicate GoalKept(g: GoalRecord, h: GoalRecord) {
    h == g.(code := h.code, informational := h.informational, status := h.status, reason := h.reason,
         closedAt := h.closedAt)
  }

  ghost predicate FactKept(f: FactRecord, h: FactRecord, now: nat) {
    && h == f.(confidence := h.confidence, conflictsWith := h.conflictsWith, active := h.active,
               supersededBy := h.supersededBy, supersededAt := h.supersededAt, reason := h.reason)
    && (!f.active ==> h == f)
    && (f.active && h.active ==>
          h.supersededBy == f.supersededBy && h.supersededAt == f.supersededAt && h.reason == f.reason)
    && (f.active && !h.active ==> h.supersededAt == Some(now))
  }

  ghost predicate FactNew(h: FactRecord, now: nat) {
    h.recordedAt == now && (h.active ==> h.supersededBy.None? && h.supersededAt.None? && h.reason.None?)
  }

  /** next continues prev at turn now: records are only added, what identifies the old ones stays, and whatever
      is named is there. Goal codes may be rewritten, facts re-rated or lost. */
  ghost predicate Continues(prev: Conversation, next: Conversation, now: nat) {
    && prev.seqNo < now
    && prev.cases <= next.cases && (forall i | |prev.cases| <= i < |next.cases| :: next.cases[i].openedAt == now)
    && |prev.goals| <= |next.goals| && (forall i | 0 <= i < |prev.goals| :: GoalKept(prev.goals[i], next.goals[i]))
    && (forall i | |prev.goals| <= i < |next.goals| :: next.goals[i].openedAt == now)
    && |prev.facts| <= |next.facts| && (forall i | 0 <= i < |prev.facts| :: FactKept(prev.facts[i], next.facts[i], now))
    && (forall i | |prev.facts| <= i < |next.facts| :: FactNew(next.facts[i], now))
    && QuestionsFollow(prev, next, now)
    && ActionsFollow(prev, next, now)
    && Referenced(next)
  }

  lemma ContinuesRecords(prev: Conversation, next: Conversation, now: nat)
    requires Continues(prev, next, now)
    ensures RecordsFollow(prev, next, now)
  {
    forall i | 0 <= i < |prev.facts|
      ensures FactStays(prev.facts[i], next.facts[i])
    {
      assert FactKept(prev.facts[i], next.facts[i], now) && FactRefers(next, i);
    }
  }

  /** The moment of closing that the store derives from the status. */
  predicate ClosedAsStored(g: GoalRecord, h: GoalRecord, now: nat) {
    h.closedAt == if SameStatus(g, h) then g.closedAt else if h.status in {RESOLVED, ABANDONED} then Some(now) else None
  }

  /** Goal i keeps its code, and closes when its status does. */
  ghost predicate GoalExpressed(prev: Conversation, next: Conversation, now: nat, i: nat)
    requires i < |next.goals|
  {
    var h := next.goals[i];
    if i < |prev.goals| then
      && h.code == prev.goals[i].code && h.informational == prev.goals[i].informational
      && ClosedAsStored(prev.goals[i], h, now)
    else h.closedAt == if h.status in {RESOLVED, ABANDONED} then Some(now) else None
  }

  /** Fact i was not recorded and superseded at once, nor re-rated and superseded. */
  ghost predicate FactExpressed(prev: Conversation, next: Conversation, i: nat)
    requires i < |next.facts|
  {
    var h := next.facts[i];
    if i < |prev.facts| then
      prev.facts[i].active && !h.active ==>
        h.confidence == prev.facts[i].confidence && h.conflictsWith == prev.facts[i].conflictsWith
    else h.active
  }

  /** The transitions the operations can express. */
  ghost predicate Expressible(prev: Conversation, next: Conversation, now: nat) {
    && (forall i: nat | i < |next.goals| :: GoalExpressed(prev, next, now, i))
    && (forall i: nat | i < |next.facts| :: FactExpressed(prev, next, i))
    && (forall i: nat | i < |next.parked| :: InPlace(prev, next, i))
  }

  lemma GoalIsShown(now: nat, prev: Conversation, next: Conversation, i: nat)
    requires Continues(prev, next, now) && i < |next.goals|
    ensures MovedRows(prev, next, now)[i] == next.goals[i] <==> GoalExpressed(prev, next, now, i)
  {
    if i < |prev.goals| {
      assert GoalKept(prev.goals[i], next.goals[i]);
    }
  }

  lemma FactIsShown(now: nat, prev: Conversation, next: Conversation, i: nat)
    requires Continues(prev, next, now) && i < |next.facts|
    ensures RecordedRows(prev, next, now)[i] == RowOf(next.facts[i]) <==> FactExpressed(prev, next, i)
  {
    if i < |prev.facts| {
      assert FactKept(prev.facts[i], next.facts[i], now);
    } else {
      assert FactNew(next.facts[i], now);
    }
  }

  lemma RecordsAreShown(r: Store, now: nat, prev: Conversation, next: Conversation, subject: string -> string)
    requires Continues(prev, next, now) && Recorded(r, now, prev, next, subject)
    ensures ShowsRecords(r, next, subject) <==>
      && (forall i: nat | i < |next.goals| :: GoalExpressed(prev, next, now, i))
      && (forall i: nat | i < |next.facts| :: FactExpressed(prev, next, i))
  {
    forall i: nat | i < |next.goals|
      ensures r.goals[i] == next.goals[i] <==> GoalExpressed(prev, next, now, i)
    {
      GoalIsShown(now, prev, next, i);
    }
    forall i: nat | i < |next.facts|
      ensures r.facts[i] == RowOf(next.facts[i]) <==> FactExpressed(prev, next, i)
    {
      FactIsShown(now, prev, next, i);
    }
  }

  lemma LikeShows(s: Store, a: Store, prev: Conversation, now: nat)
    requires a.questions == s.questions && a.actions == s.actions
    requires ShowsQuestions(s.questions, prev) && ShowsActions(s.actions, prev) && NotAfter(s, prev.seqNo)
        && prev.seqNo < now
    ensures ShowsQuestions(a.questions, prev) && ShowsActions(a.actions, prev)
    ensures forall key | key in a.questions :: key.askedAt < now
    ensures forall key | key in a.actions :: key.requestedAt < now
  {
  }

  function RestOps(prev: Conversation, next: Conversation): seq<Op> {
    QuestionOps(prev, next) + (CloseOps(prev, next, 0) + OpenOps(prev, next, 0))
  }

  /** Once the records are in, questions and actions always go through. */
  lemma RestDoes(a: Store, call: Call, prev: Conversation, next: Conversation) returns (r: Store)
    requires ShowsQuestions(a.questions, prev) && ShowsActions(a.actions, prev) && Continues(prev, next, call.now)
    requires forall key | key in a.questions :: key.askedAt < call.now
    requires forall key | key in a.actions :: key.requestedAt < call.now
    requires Holds(a.goals, MovedRows(prev, next, call.now))
    ensures PerformAll(a, call, RestOps(prev, next)) == Ok(r)
    ensures r == a.(questions := r.questions, actions := r.actions) && NotAfter(r, call.now)
    ensures Placed(r.questions, prev, next) && ShowsActions(r.actions, next)
  {
    var b := QuestionsDo(a, call, prev, next);
    r := ActionsDo(b, call, prev, next);
    PerformJoin(a, call, QuestionOps(prev, next), CloseOps(prev, next, 0) + OpenOps(prev, next, 0));
  }

  lemma {:induction false} RecordsComeFirst(
    s: Store, call: Call, prev: Conversation, next: Conversation, subject: string -> string,
    mid: Result<Store, Fault>)
    requires Shows(s, prev, subject) && Guarded(s) && Continues(prev, next, call.now)
    requires mid == PerformAll(s, call, RecordOps(prev, next, subject))
    ensures mid.Ok? <==> Acceptable(prev, next, subject, call.covered)
    ensures mid.Ok? ==>
      && mid.value == s.(cases := mid.value.cases, goals := mid.value.goals, facts := mid.value.facts)
      && Recorded(mid.value, call.now, prev, next, subject)
  {
    ContinuesRecords(prev, next, call.now);
    RecordsDo(s, call, prev, next, subject, mid);
  }

  lemma {:induction false} RestFollows(
    s: Store, a: Store, call: Call, prev: Conversation, next: Conversation, subject: string -> string,
    done: Result<Store, Fault>)
    requires Shows(s, prev, subject) && NotAfter(s, prev.seqNo) && Continues(prev, next, call.now)
    requires a == s.(cases := a.cases, goals := a.goals, facts := a.facts)
    requires Recorded(a, call.now, prev, next, subject)
    requires done == PerformAll(a, call, RestOps(prev, next))
    ensures done.Ok? && NotAfter(done.value, call.now) && Recorded(done.value, call.now, prev, next, subject)
    ensures Placed(done.value.questions, prev, next) && ShowsActions(done.value.actions, next)
  {
    LikeShows(s, a, prev, call.now);
    var r := RestDoes(a, call, prev, next);
  }

  lemma RecordsThenRest(s: Store, call: Call, prev: Conversation, next: Conversation, subject: string -> string)
    ensures PerformAll(s, call, Diff(prev, next, subject))
         == var mid := PerformAll(s, call, RecordOps(prev, next, subject));
            if mid.Ok? then PerformAll(mid.value, call, RestOps(prev, next)) else mid
  {
    Regrouped(RecordOps(prev, next, subject), QuestionOps(prev, next), CloseOps(prev, next, 0), OpenOps(prev, next, 0));
    PerformJoin(s, call, RecordOps(prev, next, subject), RestOps(prev, next));
  }

  lemma Regrouped(records: seq<Op>, questions: seq<Op>, closings: seq<Op>, openings: seq<Op>)
    ensures ((records + questions) + closings) + openings == records + (questions + (closings + openings))
  {
  }

  /** The operations between two states go through if and only if they meet what a caller can test. Then cases,
      the pending question and the actions are those of next, and the records as the operations can say. */
  lemma {:induction false} ReplayDoes(
    s: Store, call: Call, prev: Conversation, next: Conversation, subject: string -> string,
    done: Result<Store, Fault>)
    requires Shows(s, prev, subject) && NotAfter(s, prev.seqNo) && Guarded(s) && Continues(prev, next, call.now)
    requires done == PerformAll(s, call, Diff(prev, next, subject))
    ensures done.Ok? <==> Acceptable(prev, next, subject, call.covered)
    ensures done.Ok? ==>
      && NotAfter(done.value, call.now) && Recorded(done.value, call.now, prev, next, subject)
      && Placed(done.value.questions, prev, next) && ShowsActions(done.value.actions, next)
  {
    var mid := PerformAll(s, call, RecordOps(prev, next, subject));
    RecordsThenRest(s, call, prev, next, subject);
    RecordsComeFirst(s, call, prev, next, subject, mid);
    if mid.Ok? {
      RestFollows(s, mid.value, call, prev, next, subject, done);
    }
  }

  /** Replay. The operations from prev to next go through exactly if they are acceptable, and the store then
      shows next exactly if the operations can express it. */
  lemma {:induction false} ReplayRebuildsExactly(
    s: Store, call: Call, prev: Conversation, next: Conversation, subject: string -> string,
    done: Result<Store, Fault>)
    requires Shows(s, prev, subject) && NotAfter(s, prev.seqNo) && Guarded(s) && Continues(prev, next, call.now)
    requires done == PerformAll(s, call, Diff(prev, next, subject))
    ensures done.Ok? <==> Acceptable(prev, next, subject, call.covered)
    ensures done.Ok? ==>
      && Guarded(done.value) && NotAfter(done.value, call.now)
      && (Shows(done.value, next, subject) <==> Expressible(prev, next, call.now))
  {
    ReplayDoes(s, call, prev, next, subject, done);
    if done.Ok? {
      RecordsAreShown(done.value, call.now, prev, next, subject);
      PlacedIsShown(done.value.questions, call.now, prev, next);
      OperationsKeepGuarded(s, call, Diff(prev, next, subject));
    }
  }

  // ----- the commit -----

  /** The links that the store checks at the end of a transaction. */
  ghost predicate LinksHold(facts: map<nat, FactRow>) {
    forall i | i in facts :: Refers(facts[i].supersededBy, facts) && Refers(facts[i].conflictsWith, facts)
  }

  /** The operations, and then the comparison with the state that the caller declares to have reached. */
  ghost function Commit(s: Store, call: Call, prev: Conversation, next: Conversation, subject: string -> string)
    : Result<Store, Fault>
  {
    var r :- PerformAll(s, call, Diff(prev, next, subject));
    if !Shows(r, next, subject) then Err(StateMismatch)
    else if !LinksHold(r.facts) then Err(DanglingReference)
    else Ok(r)
  }

  lemma LinksAreThere(r: Store, next: Conversation, subject: string -> string)
    requires Shows(r, next, subject) && Referenced(next)
    ensures LinksHold(r.facts)
  {
    forall i | i in r.facts
      ensures Refers(r.facts[i].supersededBy, r.facts) && Refers(r.facts[i].conflictsWith, r.facts)
    {
      assert FactRefers(next, i) && r.facts[i] == FactRows(next)[i];
    }
  }

  /** A transition is committed if and only if it is acceptable and the operations can express it; the store then
      shows the new state. Otherwise it is refused as a whole. */
  lemma CommitsExactly(s: Store, call: Call, prev: Conversation, next: Conversation, subject: string -> string)
    requires Shows(s, prev, subject) && NotAfter(s, prev.seqNo) && Guarded(s) && Continues(prev, next, call.now)
    ensures var done := Commit(s, call, prev, next, subject);
      && (done.Ok? <==> Acceptable(prev, next, subject, call.covered) && Expressible(prev, next, call.now))
      && (done.Ok? ==> Shows(done.value, next, subject) && NotAfter(done.value, call.now) && Guarded(done.value))
  {
    var done := PerformAll(s, call, Diff(prev, next, subject));
    ReplayRebuildsExactly(s, call, prev, next, subject, done);
    if done.Ok? && Shows(done.value, next, subject) {
      LinksAreThere(done.value, next, subject);
    }
  }

  // ----- what the tables tell -----

  /** Two records that differ at most as null and the empty text do. */
  ghost predicate SameButNull(f: FactRecord, h: FactRecord) {
    f.(value := h.value) == h && (f.value == h.value || {f.value, h.value} == {Null, Text("")})
  }

  lemma RowsAreOne<T>(t: map<nat, T>, xs: seq<T>, ys: seq<T>)
    requires Holds(t, xs) && Holds(t, ys)
    ensures xs == ys
  {
    assert |xs| !in t && |ys| !in t;
  }

  lemma RecordsTold(s: Store, a: Conversation, b: Conversation, subject: string -> string)
    requires ShowsRecords(s, a, subject) && ShowsRecords(s, b, subject)
    requires forall x, y :: subject(x) == subject(y) ==> x == y
    ensures a.cases == b.cases && a.goals == b.goals
    ensures |a.facts| == |b.facts| && forall i | 0 <= i < |a.facts| :: SameButNull(a.facts[i], b.facts[i])
  {
    RowsAreOne(s.cases, CaseRows(a, subject), CaseRows(b, subject));
    RowsAreOne(s.goals, a.goals, b.goals);
    RowsAreOne(s.facts, FactRows(a), FactRows(b));
    forall i | 0 <= i < |a.cases|
      ensures a.cases[i] == b.cases[i]
    {
      assert CaseRows(a, subject)[i] == CaseRows(b, subject)[i];
    }
    forall i | 0 <= i < |a.facts|
      ensures SameButNull(a.facts[i], b.facts[i])
    {
      assert FactRows(a)[i] == FactRows(b)[i];
    }
  }

  lemma PlaceTold(t: map<QuestionKey, QuestionRow>, a: Conversation, b: Conversation, i: nat)
    requires ShowsQuestions(t, a) && ShowsQuestions(t, b) && i < |a.parked|
    ensures i < |b.parked| && b.parked[i] == a.parked[i]
  {
    assert Held(t, a.parked[i], PARKED, Some(i + 1));
    var j := IndexOf(b.parked, KeyOfQuestion(a.parked[i])).value;
    assert Held(t, b.parked[j], PARKED, Some(j + 1));
  }

  /** A question one state holds is held by the other, in the same place. */
  lemma QuestionsTold(t: map<QuestionKey, QuestionRow>, a: Conversation, b: Conversation)
    requires ShowsQuestions(t, a) && ShowsQuestions(t, b)
    ensures a.pending.Some? ==> b.pending == a.pending
    ensures |a.parked| <= |b.parked| && forall i | 0 <= i < |a.parked| :: b.parked[i] == a.parked[i]
  {
    if a.pending.Some? {
      assert t[KeyOfQuestion(a.pending.value)].state == PENDING;
    }
    if a.parked != [] {
      PlaceTold(t, a, b, |a.parked| - 1);
    }
    forall i | 0 <= i < |a.parked|
      ensures b.parked[i] == a.parked[i]
    {
      PlaceTold(t, a, b, i);
    }
  }

  lemma ActionsTold(t: map<ActionKey, ActionRow>, a: Conversation, b: Conversation, x: PendingAction)
    requires ShowsActions(t, a) && ShowsActions(t, b) && x in a.actions
    ensures x in b.actions
  {
    assert Opened(t, x);
    var i :| 0 <= i < |b.actions| && KeyOfAction(b.actions[i]) == KeyOfAction(x);
    assert Opened(t, b.actions[i]);
  }

  /** The tables tell the state: those that show two states show states that agree, but for null instead of the
      empty text and for the order of the actions. */
  lemma StoreTells(s: Store, a: Conversation, b: Conversation, subject: string -> string)
    requires Shows(s, a, subject) && Shows(s, b, subject)
    requires forall x, y :: subject(x) == subject(y) ==> x == y
    ensures a.cases == b.cases && a.goals == b.goals && a.pending == b.pending && a.parked == b.parked
    ensures |a.facts| == |b.facts| && forall i | 0 <= i < |a.facts| :: SameButNull(a.facts[i], b.facts[i])
    ensures forall x :: x in a.actions <==> x in b.actions
  {
    RecordsTold(s, a, b, subject);
    QuestionsTold(s.questions, a, b);
    QuestionsTold(s.questions, b, a);
    forall x
      ensures x in a.actions <==> x in b.actions
    {
      if x in a.actions {
        ActionsTold(s.actions, a, b, x);
      }
      if x in b.actions {
        ActionsTold(s.actions, b, a, x);
      }
    }
  }
}
