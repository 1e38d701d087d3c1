# Conversation domain: a verified model

The repository answers citizens of a cemetery authority. Its hard core is a deterministic
reducer over cases, goals, versioned facts, questions and administrative actions, with
around it a bridge to the database, two exactly-once protocols, a query over official
knowledge, and two small stores. This project models that core in Dafny and proves what
it is relied on for: who may confirm what, what a correction may touch, when a goal may
wait or resolve, what history is kept, what is done at most once, and that asking and
replaying come to an end.

`dafny verify dfyconfig.toml` checks everything.

## How it is laid out

| modules | what they hold |
|---|---|
| Basics | Option, Result, numerals |
| Catalog, State | the catalogue as a parameter, the conversation as a value |
| Cascade, Recording, Goals, Reducer | the reducer as functions: supersession, recording a fact, missing facts, relations, settling, questions, events and signals |
| Engine | the same as a class whose methods change fields in loops, each proved equal to its function |
| Effects, Insertion, FactInvariants, Outcomes | what one recording does to the records, and what it keeps |
| Clearance, Moves, Runs | what a goal misses, the steps a turn is made of, what every run keeps |
| Uptake, Events, RetoldText | what a turn takes in, from every reachable state, and what each event does |
| Inputs, Disputes, Examples | recording a list of inputs and what a turn makes of it, when both branches of a contradiction stay, small concrete runs |
| Settled, Questions, Reachable, Asking, Gaps | the fixpoint of settling, waiting goals, the pending question, over all reachable states |
| Completion, Subflows, Reopening, RelationsAtRest, RelationEffects, RelationPasses | that complete goals resolve and suspended ones are held up, what is opened again, that relations are kept |
| Visibility, Agreement, Frames, Growth, Lockstep, Isolation, CaseTakeover | case isolation: a turn is run beside the settled state it started from, and both agree on every other case; and the run that breaks it when a case carries the wrong reference |
| Persistence, Tables, Replay, TurnReplay, Identifiers | the operations between two states, the store with its constraints, and the exact condition under which it takes a turn and shows the state |
| StoreGaps, Refusals, MovedQuestion | the turns it refuses, in general and on concrete runs |
| ActionGateway, ExecutorAnswers | the idempotent executor as interleaved segments between awaits, the class, and what its records tell of the executor |
| ConfirmationLedger | the single-use confirmation ledger and the class |
| CodePoints, JsonText, CanonicalJson | text order, sorting, dates, JSON text and a reader for it, the canonical text |
| AuthorityQuery, AuthorityAnswers, AuthorityDialogue, OfficialCatalogue | the query, what its answers mean, that asking ends, loading the catalogue |
| MotorStore, MotorRuntime | versioned facts and replay in Motor V2 |
| ShadowStore, ShadowRecovery | the shadow store, and its replay under crashes and restarts |

A method of a class works as the program does, on fields and in loops, and is proved equal
to a function of the old state; the theorems are about that function, and about all states
that any sequence of turns can reach.

## What is taken for granted

The reducer theorems hold for every catalogue that satisfies two predicates, each about
the JSON documents alone. `Catalog.Valid`: effects name declared facts and goals, no
relation marks a goal RESOLVED, and a gated fact does not accept the source DERIVED_RULE.
`Catalog.Ranked`: `depends_on` together with the `from` lists of relations is acyclic.
Three more are asked for by single theorems. `Frames.NoBroadcast`, for case isolation:
relations write no conversation-scoped fact. `Completion.WaitsForGapsOnly` and
`Subflows.SuspendsForSubflows`: relations make no goal wait, and suspend one only for a
subflow that returns to it. The static validation
(santana-conversation-domain/engine/validate.ts:95-182) establishes the first in part; the
documents in the repository have the rest.

The loops that give up after twelve rounds are modelled with the limit and the error; no
claim is made that they converge. Theorems about the end of a turn speak of turns that
return normally.

Clocks, the outcome of an executor, of the understanding and of an evaluation are
parameters. A digest is taken to be collision-free: what is hashed stands for its digest.

## Where the code and its documentation part

* A claim that is asserted again, with authority and the same value, is superseded and at
  the same time disputed by its successor (engine.ts:343-398). The comment promises that
  the claim is superseded and its history kept. `Disputes.BothBranchesStayExactly` says
  exactly when this happens, and `Disputes.PromotedClaimDisputesItself` what such a turn
  ends with.
* A signal confirms what it states, except a text of a repeatable fact that was told before:
  the record there is returned as it is (engine.ts:337-339). `Uptake.SignalIsHeard` has the
  exception, `RetoldText.RetoldTextStaysAClaim` a run of it.
* `diffTransition` is introduced as the difference of two states. Five differences have no
  operation: the new code of a reclassified goal, the end of a fact that was recorded in the
  same turn, the new rating of a fact that is superseded in the same turn, a closing time
  that the status does not tell (a goal resolved again in the turn that reopened it, or
  abandoned by a relation without being closed), and the place of a parked question that moves
  up the list. The commit compares states and refuses such a turn, so that nothing is stored
  of it. `Replay.ReplayRebuildsExactly` has the exact condition; `StoreGaps` and `MovedQuestion`
  show the refusals for turns of a run.
* The tables admit less than the reducer reaches: a second active value of a repeatable fact
  in a case, a dispute over an authoritative fact, an overlay over a goal met in the same
  turn, a resolved goal that is open again. `Replay.CommitsExactly` has the exact condition
  for these and for the former together; `Refusals` has runs for the first three.
* The signature of a value in the authority query sorts its own keys, not those of nested
  objects, although canonical text elsewhere sorts both
  (`CanonicalJson.SignatureIffSameFields`).

## Model

| member | source | states |
|---|---|---|
| Isolation.CasesAreIsolated | santana-conversation-domain/engine/engine.ts:997-1032 | from any reachable state an answer, complement, correction, change of mind or doubt whose facts are not conversation-scoped, with the goal in context in one case, leaves every goal, fact and pending action of every other case unchanged, after relations and gaps have run over all goals; the other case must not carry the very reference under which a relation would open one in this turn for a goal without a case |
| CaseTakeover.CaseIsTakenOver | santana-conversation-domain/engine/engine.ts:428-446 | that condition is needed, even when the goal in context has a case: on a run of two turns every other hypothesis holds, and the answer of the third completes a child whose parent has no case, and puts a goal into a case the answer does not speak of |
| Isolation.RunsShaped | santana-conversation-domain/engine/engine.ts:420-484 | in every reachable state a goal is in the case of its parent when that has one, and a derived fact visible to a case has premises that case sees too: what isolation rests on |
| Cascade.SupersessionIsLeast | santana-conversation-domain/engine/engine.ts:275-305 | superseding an active fact takes away exactly the least set that holds it and whatever active fact rests on a member by derivation or by dependency in the same scope; the recursion ends because each call takes an active fact away |
| Cascade.LostExactly | santana-conversation-domain/engine/engine.ts:275-305 | superseding an active fact takes away exactly those active facts that rest on it, directly or through others, as a premise or by a dependency in scope |
| Cascade.SweepCloses | santana-conversation-domain/engine/engine.ts:283-305 | afterwards nothing active rests on any fact the sweep took away |
| Effects.SupersedeSpares | santana-conversation-domain/engine/engine.ts:275-305 | under an acyclic catalogue the cascade marks the superseded fact and touches besides only facts that rank above its code |
| Insertion.InsertFates | santana-conversation-domain/engine/engine.ts:333-407 | what one recording does to every old fact: untouched, re-rated, disputed, replaced, or invalidated because it depends on one that was; and what the new record holds |
| FactInvariants.InsertKeepsFacts | santana-conversation-domain/engine/engine.ts:333-407 | one recording keeps: premises of active facts active, no two active facts of a scope key with one value, gated values confirmed only with authority, time order, successor links in the same scope key and acyclic |
| FactInvariants.InsertKeepsAcyclic | santana-conversation-domain/engine/engine.ts:275-281 | successor links never form a cycle, although some point backwards: a fact that gets a successor gets a live one |
| Runs.RunsKeep | santana-conversation-domain/engine/engine.ts:1084-1088 | the induction over runs: what every successful turn keeps, every reachable state has |
| Runs.ReachableFactsOk | santana-conversation-domain/engine/engine.ts:333-407 | all of that holds in every reachable state, for every catalogue that is valid and acyclic |
| Runs.MoveKeepsFacts | santana-conversation-domain/engine/engine.ts:307-408 | every single step of a turn keeps the facts in order and only adds to their history |
| Runs.TurnKeepsFacts | santana-conversation-domain/engine/engine.ts:882-1037 | across a turn the old facts are a prefix of the new ones with code, value, source, scope, authority and origin unchanged, and a superseded fact never changes again |
| Runs.RunsOnlyAdd | santana-conversation-domain/engine/engine.ts:1084-1088 | the same between any two moments of a run |
| Runs.GatedFactsAreAuthoritative | santana-conversation-domain/engine/catalog.ts:248-252 | in every reachable state an active CONFIRMED fact whose code and value need a signal is authoritative and comes from an accepted source |
| Runs.TurnIsChain | santana-conversation-domain/engine/engine.ts:882-1063 | a turn is a chain of moves from the state with its number to the state it reaches, each one whole recording with its cascade, or one change of goals, cases, questions and actions |
| Runs.ResolvedOnlyWhenCleared | santana-conversation-domain/engine/engine.ts:663-734 | a goal that a turn leaves RESOLVED and found otherwise became so at a moment of that chain, and stayed so to its end; at that moment every code it needs was cleared, in the words of the catalogue, and all authority came from accepted sources |
| Clearance.MissingExactly | santana-conversation-domain/engine/engine.ts:663-705 | a goal misses only codes it needs that are not cleared, and each of these, except that a completion code is missed only while nothing before it is; it misses none exactly when all are cleared. A code is cleared if, where its relevance conditions are met, its oldest record in scope is confirmed, of a value that does not block and satisfies, under the first rule for that value, and with authority where gated |
| Clearance.GapMeans | santana-conversation-domain/engine/engine.ts:663-705 | what is reported of a code that is not cleared: never stated, with the priority of the catalogue, or disputed, uncertain, or confirmed but not acceptable; and which of these need a signal |
| Clearance.MissingInOrder | santana-conversation-domain/engine/engine.ts:663-669 | missing facts are listed in the order of the definition, required before completion codes |
| Completion.ActiveGoalsLackSomething | santana-conversation-domain/engine/engine.ts:605-653 | the converse over runs: if no relation makes a goal wait, an ACTIVE goal without explicit handoff needs, in every reachable state, some code that is not cleared |
| Subflows.SuspendedIsHeldUp | santana-conversation-domain/engine/engine.ts:707-734 | if relations suspend goals only for subflows that return, in every reachable state each SUSPENDED goal is held up by a subflow that is open or that the citizen left: none is left suspended when its subflow resolves or becomes superfluous |
| Reopening.TurnReopens | santana-conversation-domain/engine/engine.ts:625-644 | once what was said is taken in, exactly the resolved goals that lost a declared fact in this turn and now need a code that is not cleared are opened again, and each parent they return to is suspended for the last of them; what follows only resolves complete goals |
| RelationsAtRest.RelationsAreKept | santana-conversation-domain/engine/engine.ts:605-622 | in every reachable state every relation is kept: for each goal it applies to, by code, status and conditions, what each effect asks for holds |
| RelationEffects.EffectDoes | santana-conversation-domain/engine/engine.ts:486-603 | an effect is left alone exactly when what it asks for holds; otherwise it records, opens, sets, requires or dispenses what it says, told from the states before and after |
| RelationPasses.RelationsDo | santana-conversation-domain/engine/engine.ts:605-620 | one pass lets the relations act in their order, each on the goals of its code and statuses in theirs, and on those only for which its conditions are met when their turn comes |
| RelationPasses.ResolutionsDo | santana-conversation-domain/engine/engine.ts:707-734 | after them the pass goes through the goals from the last to the first, and resolves exactly those whose turn finds them active, without explicit handoff, and with every code they need cleared |
| RelationPasses.EvaluationDoes | santana-conversation-domain/engine/engine.ts:605-622 | the evaluation is a sequence of passes, at most twelve, the last of which changes nothing |
| RelationEffects.ResolvingDoes | santana-conversation-domain/engine/engine.ts:716-731 | a goal that resolves is closed with the number of the turn, the relation that opened it has its effects on the parent, and the parent goes on if it is suspended still |
| Runs.HandoffGoalsStayOpen | santana-conversation-domain/engine/engine.ts:707-734 | no goal whose completion is an explicit handoff is RESOLVED in any reachable state |
| Runs.CorrectionLeavesOneTruth | santana-conversation-domain/engine/engine.ts:355-389 | recording a non-repeatable fact in SUPERSEDE or DERIVE mode leaves exactly one active fact in its scope key, with the given value and no conflict link |
| Outcomes.InsertTakes | santana-conversation-domain/engine/engine.ts:333-407 | what one recording comes to, for every mode: a repeated text changes nothing; a known value becomes the only active record, ending any dispute; a new one is added, and the others give way, stay, or are put in dispute with it; all other records stay or lose their ground |
| Uptake.TurnTakesItsFacts | santana-conversation-domain/engine/engine.ts:997-1063 | from every reachable state an answer, complement, doubt, correction, change of mind or signal records its facts one after another, each allowed by the catalogue, for the goal in context, the last open goal of its case that declares it, or the goal that is named, with the source, confidence and authority of that kind of turn; and the rest of the turn takes none back |
| Uptake.SignalIsHeard | santana-conversation-domain/engine/engine.ts:1039-1063 | from every reachable state each input of a signal is recorded with the authority of an accepted source, for an open goal that declares it, in the case of the goal that is named, if one is; confirmed, unless it states otherwise, once all inputs are in. The one exception is a text that was told there before, which changes nothing |
| RetoldText.RetoldTextStaysAClaim | santana-conversation-domain/engine/engine.ts:337-339 | the exception is met: on a run a signal repeats a text, and no record has authority afterwards |
| Events.EventIsDone | santana-conversation-domain/engine/engine.ts:882-1037 | what each event does to goals, cases, questions and facts before the conversation settles: which goal is opened, left, recoded, overlaid or asked beside, in which case, and for which goal its facts are recorded; the rest of the turn is a chain of moves from there |
| Disputes.BothBranchesStayExactly | santana-conversation-domain/engine/engine.ts:333-403 | when an assertion contradicts a confirmed fact, both records are CONFLICTING and name each other; both stay active if and only if the values differ |
| Disputes.PromotedClaimDisputesItself | santana-conversation-domain/engine/engine.ts:343-398 | from any reachable state, an answer that asserts a confirmed claim again, with authority and the same value, leaves at the end of the turn the claim superseded and rated CONFLICTING, in conflict with the record that took its place |
| Examples.ProofDisputesClaim | santana-conversation-domain/engine/engine.ts:343-398 | it happens: a claim, then a document for the same value |
| Settled.RoundsEndFixed | santana-conversation-domain/engine/engine.ts:645-653 | when the loop over rounds returns, one more round changes no goal, fact or pending action |
| Reachable.TurnEndsAtRest | santana-conversation-domain/engine/engine.ts:645-653 | every turn that settles and returns normally ends in such a state, whatever questions it then asks |
| Settled.AwaitIsOne | santana-conversation-domain/engine/engine.ts:787-805 | a goal that begins to wait keeps exactly one pending action, the one for its gap |
| Reachable.WaitingIsAGap | santana-conversation-domain/engine/engine.ts:778-811 | in every reachable state an ACTIVE or WAITING goal is WAITING if and only if its best missing fact is authoritative with a declared resolution, and then it has exactly one pending action, the one for that gap |
| Gaps.WaitsForTheFirst | santana-conversation-domain/engine/engine.ts:778-811 | the same in the words of the catalogue: an ACTIVE or WAITING goal is WAITING if and only if the missing fact that comes first needs a signal and a resolution is declared for it, and it then has exactly one pending action, that of the resolution |
| Gaps.BestComesFirst | santana-conversation-domain/engine/engine.ts:736-747 | the best missing fact is the first in conflict or, without any, the first of the lowest priority class |
| Gaps.WaitingParks | santana-conversation-domain/engine/engine.ts:794-805 | the pending question of a goal that begins to wait is parked exactly when it can no longer be asked |
| Questions.BestIs | santana-conversation-domain/engine/engine.ts:736-747 | the best missing fact is a missing one; a conflict when there is one, otherwise one whose priority class no other precedes |
| Questions.StillValidIs | santana-conversation-domain/engine/engine.ts:813-817 | a question is still valid exactly when its goal is active or waiting and misses its fact, and neither a signal nor a derivation has to supply it |
| Questions.RefreshInPlace | santana-conversation-domain/engine/engine.ts:819-855 | after a refresh the pending question, if any, belongs to the goal in context and asks a fact it may ask |
| Questions.RefreshKeepsOthers | santana-conversation-domain/engine/engine.ts:819-855 | a refresh never drops or reorders parked questions of goals other than the one in context |
| Asking.RefreshAsks | santana-conversation-domain/engine/engine.ts:819-855 | which question a refresh ends with: the pending one unless a conflict takes its place, else the last parked one that fits, else a new one for the most urgent fact; what leaves the foreground and may still be asked is parked |
| Asking.TurnEndsAsking | santana-conversation-domain/engine/engine.ts:882-1037 | every turn but a farewell and a call for a person ends with a question pending if and only if there is something to ask about the goal in context |
| Reachable.PendingQuestionIsInPlace | santana-conversation-domain/engine/engine.ts:749-773 | in every reachable state the pending question belongs to the goal in context and asks a fact that goal misses now, neither an authoritative gap nor derived |
| Reachable.TurnKeepsOthersParked | santana-conversation-domain/engine/engine.ts:819-855 | no turn drops or reorders a parked question, except those of the goal in context at its end |
| Moves.TurnMoves | santana-conversation-domain/engine/engine.ts:882-1063 | a whole turn is made of admissible steps: one recording with sound premises, or one step that resolves only complete goals, opens goals in the case of their parent and keeps the facts |
| Moves.RecordMoves | santana-conversation-domain/engine/engine.ts:307-408 | recording one fact is such a step |
| Moves.ResolveMoves | santana-conversation-domain/engine/engine.ts:707-734 | the pass over completed goals is made of such steps, the effects on parents included |
| Engine.Conversing.Supersede | santana-conversation-domain/engine/engine.ts:275-281 | the recursive supersession on the fields, equal to the least-set cascade |
| Engine.Conversing.InvalidateDependents | santana-conversation-domain/engine/engine.ts:283-305 | the two loops over the facts, equal to the sweep of the specification |
| Engine.Conversing.SupersedeEach | santana-conversation-domain/engine/engine.ts:374-384 | the loop that sets every competing value aside |
| Engine.Conversing.RecordFact | santana-conversation-domain/engine/engine.ts:307-408 | one recording on the fields: its facts or its refusal are those of the specification for which the history theorems hold |
| Engine.Conversing.MissingOf | santana-conversation-domain/engine/engine.ts:663-705 | the list a loop fills is the list of missing facts, in order |
| Engine.Conversing.BestOf | santana-conversation-domain/engine/engine.ts:736-747 | the loop finds the best missing fact |
| Engine.Conversing.OwnerGoalForFact | santana-conversation-domain/engine/engine.ts:1065-1082 | the goal a fact is recorded for |
| Engine.Conversing.PushGoal | santana-conversation-domain/engine/engine.ts:420-484 | a pushed goal, its case and the suspended parent |
| Engine.Conversing.SatisfyDependency | santana-conversation-domain/engine/engine.ts:573-593 | open goals of the code and case are abandoned, their parents resumed |
| Engine.Conversing.ApplyEffects | santana-conversation-domain/engine/engine.ts:486-603 | the effects of a relation on a goal, with the flag that something changed |
| Engine.Conversing.ApplyRelations | santana-conversation-domain/engine/engine.ts:608-618 | the relations of one pass, each for the goals that match it when its turn comes |
| Engine.Conversing.ResolveCompletedGoals | santana-conversation-domain/engine/engine.ts:707-734 | complete goals are resolved from the top of the stack down |
| Engine.Conversing.EvaluateRelations | santana-conversation-domain/engine/engine.ts:605-623 | passes until one changes nothing, at most twelve |
| Engine.Conversing.SyncAuthoritativeGaps | santana-conversation-domain/engine/engine.ts:778-811 | each active or waiting goal waits exactly while a gap blocks it |
| Engine.Conversing.ReopenGoals | santana-conversation-domain/engine/engine.ts:628-644 | goals that lost a declared fact in this turn are open again |
| Engine.Conversing.SettleGoals | santana-conversation-domain/engine/engine.ts:625-654 | rounds until one changes nothing, at most twelve |
| Engine.Conversing.NextBestQuestion | santana-conversation-domain/engine/engine.ts:749-773 | the question for the goal in context |
| Engine.Conversing.RefreshPendingQuestion | santana-conversation-domain/engine/engine.ts:819-855 | the pending and the parked questions after a refresh |
| Engine.Conversing.OnNewGoal | santana-conversation-domain/engine/engine.ts:906-922 | a new goal, the current one abandoned if so asked |
| Engine.Conversing.OnReclassification | santana-conversation-domain/engine/engine.ts:924-946 | the goal in context, or the latest demand, gets the new code |
| Engine.Conversing.OnComplaint | santana-conversation-domain/engine/engine.ts:948-979 | the base goal and its overlay, reused, reopened or pushed |
| Engine.Conversing.OnParallelQuestion | santana-conversation-domain/engine/engine.ts:981-995 | the pending question is parked and an informational goal pushed |
| Engine.Conversing.ApplyEvent | santana-conversation-domain/engine/engine.ts:882-1037 | a whole turn on the fields comes out as the reducer function on the state before it, or is refused with the same reason |
| Engine.Conversing.ApplyAuthoritativeSignal | santana-conversation-domain/engine/engine.ts:1039-1063 | the same for an authoritative signal |
| Persistence.DiffTransition | santana-conversation-domain/engine/persistence.ts:137-292 | the loops build exactly the operation list that the replay theorems are about, in the order emitted |
| Persistence.DiffQuestions | santana-conversation-domain/engine/persistence.ts:226-272 | the current question leaves before another enters |
| Persistence.DiffCancelled | santana-conversation-domain/engine/persistence.ts:249-253 | the parked questions that are neither parked nor asked any more, cancelled |
| Persistence.PerformKeepsGuarded | database/migrations/0020_5b4b_conversation_persistence.sql:89-153 | no operation that is taken leaves two open goals of one code in a case, two active undisputed facts of one code in a case, authority that is not confirmed and from outside, a superseded fact without time or reason, or a fact in another case than its goal |
| Tables.RecordsDo | database/migrations/0020_5b4b_conversation_persistence.sql:524-611 | the operations on cases, goals and facts are taken if and only if subjects are new, overlays lie over open goals, no goal or fact has a rival when it is written, closed goals keep their status, authority is confirmed and covered by a signal; each test reads only the two states |
| Replay.ReplayDoes | database/migrations/0020_5b4b_conversation_persistence.sql:524-658 | so are all operations of the transition: no key is taken, no row or reference is missing, never a second pending question or open action; questions, actions and cases are then those of the new state, the records what the operations can say |
| Replay.ReplayRebuildsExactly | santana-conversation-domain/engine/persistence.ts:137-292 | and the store then shows the new state if and only if no goal was rewritten, goals close when their status does, no fact was superseded in the turn that recorded or re-rated it, and no parked question moved up the list |
| Replay.StoreTells | database/migrations/0020_5b4b_conversation_persistence.sql:402-460 | the tables tell the state: two states that one store shows agree in cases, goals, facts, the pending question, the list of parked ones and the pending actions, but for null instead of empty text and for the order of the actions |
| Replay.CommitsExactly | database/migrations/0020_5b4b_conversation_persistence.sql:662-747 | a transition is committed if and only if both hold, and the store then shows exactly the state that was declared; everything else is refused as a whole |
| TurnReplay.TurnContinues | santana-conversation-domain/engine/engine.ts:882-1063 | every successful turn from a reachable state only adds records, keeps what identifies the old ones, and names only what is there: the premises of replay |
| TurnReplay.RunsAreStorable | santana-conversation-domain/engine/engine.ts:1084-1088 | in every reachable state cases, goals, facts, questions and actions refer to what is there, no subject has two cases, and question and action keys are distinct, none from the future |
| TurnReplay.RunsFitCases | santana-conversation-domain/engine/engine.ts:428-446 | with a subject text that tells subjects apart no case of a run is refused |
| TurnReplay.TurnReplays | database/migrations/0020_5b4b_conversation_persistence.sql:662-747 | for every turn from every reachable state, with or without a signal, the exact condition under which it is committed |
| TurnReplay.RunReplays | database/migrations/0020_5b4b_conversation_persistence.sql:662-747 | a run is rebuilt from an empty store if and only if each of its transitions meets the condition |
| StoreGaps.OtherTurnsKeepCodes | santana-conversation-domain/engine/engine.ts:882-1063 | every turn but a reclassification leaves the codes of all goals as they were |
| StoreGaps.ReclassificationRecodes | santana-conversation-domain/engine/engine.ts:924-946 | a reclassification gives its goal the new code to the end of the turn, and no other goal another |
| StoreGaps.CodesReplayExactly | santana-conversation-domain/engine/persistence.ts:175-185 | the codes after a turn are those the store has if and only if the turn does not reclassify a goal to another code |
| StoreGaps.ReclassificationIsRefused | database/migrations/0020_5b4b_conversation_persistence.sql:730-735 | a reclassification to another code is never committed: the table would keep the code the goal had |
| StoreGaps.CorrectedAtOnceIsRefused | database/migrations/0020_5b4b_conversation_persistence.sql:730-735 | a correction that gives a code a new value and then another is never committed: the fact of the first is superseded, and the table would have it active |
| StoreGaps.CorrectedAtOnceHappens | santana-conversation-domain/engine/persistence.ts:207-224 | it happens, on the first turn of a conversation |
| StoreGaps.DisputedAndReplacedIsRefused | database/migrations/0020_5b4b_conversation_persistence.sql:730-735 | an answer that contradicts a confirmed fact and then gives a third value is never committed: the fact is CONFLICTING and superseded, and the table would keep its old rating |
| StoreGaps.DisputedAndReplacedHappens | santana-conversation-domain/engine/persistence.ts:190-204 | it happens, on the second turn of a conversation |
| StoreGaps.ClosingTimeIsRefused | database/migrations/0020_5b4b_conversation_persistence.sql:559-567 | a turn after which a goal has a closing time other than the one the operation on its status yields is never committed |
| StoreGaps.ResolvedAgainIsRefused | santana-conversation-domain/engine/engine.ts:628-644 | it happens from a stored state, although no code changes and every fact is as the operations can say: a goal resolved, reopened and resolved again in one turn |
| StoreGaps.AbandonedUnclosedIsRefused | santana-conversation-domain/engine/engine.ts:551-560 | it happens in another way: a relation abandons a goal without a closing time |
| StoreGaps.StoredRunIsOrderly | database/migrations/0020_5b4b_conversation_persistence.sql:89-153 | a run that is stored ends with one open goal of a code in a case, one active undisputed fact of a code in a case, and confirmed authority |
| StoreGaps.DisorderIsRefused | database/migrations/0020_5b4b_conversation_persistence.sql:89-153 | a turn that ends otherwise is never committed |
| MovedQuestion.MovedQuestionIsRefused | santana-conversation-domain/engine/persistence.ts:226-247 | it happens from a stored state, although every goal and fact is as the operations can say: a parked question moves up the list, and the place it was given when it was parked stays |
| Refusals.SecondTextIsRefused | database/migrations/0020_5b4b_conversation_persistence.sql:151-153 | it happens from a stored state, although the operations can express the turn: a complement with a second text of a repeatable fact of a case |
| Refusals.ContradictedProofIsRefused | database/migrations/0020_5b4b_conversation_persistence.sql:147-148 | likewise: an answer that contradicts what a document proved, and so disputes an authoritative fact |
| Refusals.ComplaintOverMetGoalIsRefused | database/migrations/0020_5b4b_conversation_persistence.sql:362-376 | likewise: a complaint whose base goal is opened and met in the same turn |
| Identifiers.IdMap.UuidFor | santana-conversation-domain/engine/persistence.ts:40-50 | a known key keeps its identifier and no counter moves; a new one gets the number after the last of its kind; no other identifier or counter changes |
| Identifiers.TextDetermines | santana-conversation-domain/engine/persistence.ts:40-50 | within one conversation the text of an identifier tells its kind and number, padding included |
| Identifiers.Injective | santana-conversation-domain/engine/persistence.ts:33-50 | two names never share an identifier |
| ActionGateway.TraceConsistent | santana-conversation-domain/motor-v2/action_gateway.ts:64-196 | in every interleaving of any invocations at their awaits, calls, flights, executions and returned records fit together |
| ActionGateway.ExecutorRunsOncePerKey | santana-conversation-domain/motor-v2/action_gateway.ts:106-127 | in every interleaving the executor runs at most once for each idempotency key |
| ActionGateway.TerminalRecordsStay | santana-conversation-domain/motor-v2/action_gateway.ts:194-195 | the stored terminal record of a key never changes |
| ActionGateway.OneEffectPerKey | santana-conversation-domain/motor-v2/action_gateway.ts:212-228 | at most one returned record of a key has the side effect |
| ActionGateway.ReuseNeverExecutes | santana-conversation-domain/motor-v2/action_gateway.ts:107-120 | once a key is taken, by a request that was executed, refused or is still in flight, another request with that key is never executed, and what is returned for it carries neither the effect nor a receipt |
| ActionGateway.ReuseIsDenied | santana-conversation-domain/motor-v2/action_gateway.ts:107-120 | and what it is told at the lookup is that its key was reused |
| ActionGateway.BindingStays | santana-conversation-domain/motor-v2/action_gateway.ts:106-127 | a key stays taken by the same request, whatever events follow |
| ActionGateway.OnlyAllowedExecutes | santana-conversation-domain/motor-v2/action_gateway.ts:130-147 | only an allow-listed request with the receipt type of its tool and, where asked for, an explicit confirmation is executed, and only if effects are allowed |
| ActionGateway.OnlyStoredReceiptsVerify | santana-conversation-domain/motor-v2/action_gateway.ts:198-203 | a receipt verifies exactly when it is the stored one of an executed request, and does so ever after |
| ActionGateway.JoinersHaveAnOwner | santana-conversation-domain/motor-v2/action_gateway.ts:114-127 | an invocation that joined a flight never waits in vain: the record is stored or the owner is still at work |
| ExecutorAnswers.RecordTellsTheAnswer | santana-conversation-domain/motor-v2/action_gateway.ts:130-196 | in every interleaving the stored record of a request tells what the executor answered for it: EXECUTED if and only if an accepted answer with a reference met it and the four digests are made, with a receipt for that reference; PROPOSED with the reason of its kind for any other answer; DENIED for the first applicable reason without one |
| ExecutorAnswers.AnswersAreStored | santana-conversation-domain/motor-v2/action_gateway.ts:147-195 | an answer that does not confirm is stored at once, and one that does exactly when its four digests are made |
| ExecutorAnswers.ReturnsAreExplained | santana-conversation-domain/motor-v2/action_gateway.ts:84-128 | every record returned is the stored one, its replay without effect, the refusal of a malformed request, or that of a key another request has taken |
| ExecutorAnswers.PoliciesDiffer | santana-conversation-domain/motor-v2/action_gateway.ts:26-43 | no two tools share a receipt type, and only a handoff needs no explicit confirmation |
| ActionGateway.Gateway.Invoke | santana-conversation-domain/motor-v2/action_gateway.ts:64-105 | the segment up to the first await: refused by shape, or waiting for the hash |
| ActionGateway.Gateway.AfterHash | santana-conversation-domain/motor-v2/action_gateway.ts:106-127 | the segment that looks up calls and flights, calls the executor and notes the flight, equal to the step of the state machine |
| ActionGateway.Gateway.AfterExecution | santana-conversation-domain/motor-v2/action_gateway.ts:147-170 | the segment after the executor answered |
| ActionGateway.Gateway.AfterDigest | santana-conversation-domain/motor-v2/action_gateway.ts:171-196 | the segment that builds the receipt and stores the terminal record |
| ActionGateway.Gateway.AfterResult | santana-conversation-domain/motor-v2/action_gateway.ts:121-127 | the owner returns and ends the flight; a joined invocation replays |
| ActionGateway.Gateway.VerifyReceipt | santana-conversation-domain/motor-v2/action_gateway.ts:198-203 | the answer on the maps is that of the specification |
| ConfirmationLedger.RunsKeep | phase18b/confirmation/authority.ts:601-801 | over every sequence of operations challenges and attestations are never removed or altered, nonces stay distinct, and confirmations, confirming events and attestations correspond one to one |
| ConfirmationLedger.ReachableIsValid | phase18b/confirmation/authority.ts:578-598 | every ledger that operations can reach has each challenge and attestation under its own id, agrees with itself, and confirms each challenge at most once |
| ConfirmationLedger.OneToOne | phase18b/confirmation/authority.ts:701-757 | two attestations with a confirmation, an event or a nonce in common are one |
| ConfirmationLedger.AuthenticatedMeans | phase18b/confirmation/authority.ts:675-757 | AUTHENTICATED is answered only for a signed affirmative event of the conversation, actor and channel of its challenge, in reply to its prompt and inside its window, and the attestation repeats what the challenge proposed, with this event and content |
| ConfirmationLedger.ConfirmsExactly | phase18b/confirmation/authority.ts:651-757 | an event confirms exactly when none of twelve objections holds, each stated on the fields of the event, the challenge and the ledger |
| ConfirmationLedger.FirstObjectionAnswers | phase18b/confirmation/authority.ts:651-731 | otherwise the answer is that of the first objection that holds, and the ledger stays as it is |
| ConfirmationLedger.RepeatIsIdempotent | phase18b/confirmation/authority.ts:690-712 | a repeated identical confirmation returns the same attestation and leaves the ledger unchanged, however many operations came between |
| ConfirmationLedger.ConsumedOnce | phase18b/confirmation/authority.ts:690-712 | a consumed confirmation is confirmed by no other event and no other content |
| ConfirmationLedger.AuthorizesExactly | phase18b/confirmation/authority.ts:761-801 | authorizeWouldCall succeeds exactly for an attestation of the ledger and the very proposal it confirmed |
| ConfirmationLedger.IssuesExactly | phase18b/confirmation/authority.ts:601-637 | a challenge is issued exactly for an input in form whose window is at most fifteen minutes and whose id and nonce are new, or which repeats the challenge there is |
| ConfirmationLedger.IssuedOnce | phase18b/confirmation/authority.ts:601-637 | the same challenge issued again changes nothing; another input under its id or nonce is refused |
| ConfirmationLedger.Authority.IssueChallenge | phase18b/confirmation/authority.ts:601-649 | the ledger and the answer after the locked operation are those of the specification |
| ConfirmationLedger.Authority.EvaluateConfirmation | phase18b/confirmation/authority.ts:651-759 | the same for a confirmation, with its reasons in the order they are tested |
| ConfirmationLedger.Authority.AuthorizeWouldCall | phase18b/confirmation/authority.ts:761-801 | the same for an authorization, which writes nothing |
| CodePoints.CompareByCodePoint | santana-authority-gateway/canonico.ts:17-27 | the index loop returns the sign of the specification |
| CodePoints.OrderIsFirstDifference | santana-authority-gateway/canonico.ts:17-27 | the sign is that of the first code point in which the texts part, a proper prefix coming first; 0 exactly for equal texts |
| CodePoints.OrderOpposes | santana-authority-gateway/canonico.ts:17-27 | comparing the other way round gives the opposite sign |
| CodePoints.OrderIsTransitive | santana-authority-gateway/canonico.ts:17-27 | the order is transitive, strictly so if one step is strict |
| CodePoints.SortedAscends | santana-authority-gateway/canonico.ts:29-31 | the sorted list is ascending and has the same members and length |
| CodePoints.SortIsUnique | santana-authority-gateway/canonico.ts:29-31 | there is one ascending arrangement of given texts, so every correct sort agrees |
| CodePoints.Sort | santana-authority-gateway/canonico.ts:29-31 | sorting the members of a set gives one list whatever order they come in |
| CodePoints.DatesOrderAsText | santana-authority-gateway/canonico.ts:49-60 | text order on dates of the shape YYYY-MM-DD is the order of year, month and day |
| CodePoints.InForceIsAClosedPeriod | santana-authority-gateway/canonico.ts:69-78 | an entry is in force exactly from its first to its last day, both included, an absent end not limiting |
| JsonText.StringifyIsRead | santana-authority-gateway/canonico.ts:41-46 | a reader for the compact text recovers every value, escapes included |
| JsonText.QuotedIsRead | santana-authority-gateway/canonico.ts:42-45 | a quoted text is read back, whatever follows |
| JsonText.StringifyIsInjective | santana-authority-gateway/canonico.ts:42-42 | different values have different texts |
| CanonicalJson.CanonicalIsNormalText | santana-authority-gateway/canonico.ts:41-46 | the canonical text is the text of the value with the members of every object in key order |
| CanonicalJson.CanonicalIsRead | santana-authority-gateway/canonico.ts:41-46 | reading a canonical text gives the value with its keys in order |
| CanonicalJson.PrintAlikeIffSame | santana-authority-gateway/canonico.ts:33-46 | two values print alike exactly when they are equal up to the order of their keys |
| CanonicalJson.SignatureIffSameFields | santana-authority-gateway/consulta.ts:53-56 | two signatures agree exactly when the values have the same fields in any order; inside a field the order of keys counts |
| AuthorityQuery.Consult | santana-authority-gateway/consulta.ts:58-187 | the query as it is computed, with its two loops, gives the answer of the specification |
| AuthorityQuery.Classify | santana-authority-gateway/consulta.ts:99-108 | one pass sorts the entries in force into determined and candidate ones, dropping the excluded |
| AuthorityQuery.Ask | santana-authority-gateway/consulta.ts:157-187 | the missing fields and, for each, its options |
| AuthorityAnswers.AvailableExactly | santana-authority-gateway/consulta.ts:110-142 | a value is published exactly when some entry in force is determined and all most specific determined entries agree; it is then that of the least entry id among them |
| AuthorityAnswers.PublishedIsTheOneValue | santana-authority-gateway/consulta.ts:110-142 | what is published fits the context in every criterion and has the fields of every most specific entry |
| AuthorityAnswers.ConflictExactly | santana-authority-gateway/consulta.ts:114-127 | a conflict is reported exactly when those entries disagree, and names each of them in order |
| AuthorityAnswers.RefusalExactly | santana-authority-gateway/consulta.ts:144-153 | the context is called incompatible exactly when it excludes every entry in force |
| AuthorityAnswers.QuestionMeans | santana-authority-gateway/consulta.ts:157-163 | the listed fields are those on which a candidate turns and which the context does not state, sorted, once each |
| AuthorityAnswers.OptionsMean | santana-authority-gateway/consulta.ts:165-176 | the options of a field are the values candidates have for it, sorted, once each |
| AuthorityAnswers.QueryPublishes | santana-authority-gateway/consulta.ts:58-142 | the query publishes a value exactly when the kind is declared, some entry in force is determined and all most specific determined ones agree; it is then that of the least entry id among them |
| AuthorityAnswers.QueryDisputes | santana-authority-gateway/consulta.ts:58-127 | the query reports a conflict exactly when the kind is declared and those entries disagree, and names each of them in order |
| AuthorityAnswers.QueryRefuses | santana-authority-gateway/consulta.ts:58-153 | the query has no answer exactly when the kind is undeclared or the context excludes every entry in force, and which of the four reasons it then states |
| AuthorityAnswers.QueryAsks | santana-authority-gateway/consulta.ts:58-187 | the query asks exactly when the kind is declared and no entry in force is determined but some could still be; it lists the fields they turn on, each with the values they have |
| AuthorityAnswers.PoolHolds | santana-authority-gateway/consulta.ts:70-97 | the entries the query decides by are those of the kind that are in force on the day |
| AuthorityAnswers.MoreCriteriaDecide | santana-authority-gateway/consulta.ts:110-142 | while an entry in force fits the context, what is published or named in a conflict has at least as many criteria as it |
| AuthorityDialogue.OrderIsIrrelevant | santana-authority-gateway/consulta.ts:58-187 | no permutation of the catalogue entries changes any answer, given unique entry ids |
| AuthorityDialogue.GeneralGivesWay | santana-authority-gateway/consulta.ts:110-142 | an entry is neither published nor named in a conflict while another that fits has more criteria, in particular all of its and one more |
| AuthorityDialogue.AnsweringProgresses | santana-authority-gateway/consulta.ts:99-186 | giving an offered option for a listed field is never refused and leaves strictly fewer fields open |
| AuthorityDialogue.QueryProgresses | santana-authority-gateway/consulta.ts:58-187 | the same of the whole query |
| AuthorityDialogue.EveryQuestionHasAnswers | santana-authority-gateway/consulta.ts:157-176 | every listed field has an option, and some field is listed |
| AuthorityDialogue.DialogueEnds | santana-authority-gateway/consulta.ts:99-186 | a conversation of offered answers has at most as many rounds as fields were first listed, and one that cannot go on has ended in a value or a conflict |
| OfficialCatalogue.Load | santana-authority-gateway/catalogo/carregar.ts:154-240 | a document is accepted exactly when its schema is supported and every entry is in order, and then holds the approved entries in order; otherwise the first fault is reported |
| OfficialCatalogue.FaultlessExactly | santana-authority-gateway/catalogo/carregar.ts:171-240 | an entry passes exactly when its source is listed and, where the last record of the source approves it, its kind is declared and its dates are civil dates |
| OfficialCatalogue.PublishedIsApproved | santana-authority-gateway/catalogo/carregar.ts:206-208 | every published value comes from an approved source and is in force on the day asked about |
| OfficialCatalogue.UnapprovedIsInvisible | santana-authority-gateway/catalogo/carregar.ts:206-208 | taking the unapproved entries out of the document changes nothing that is loaded |
| MotorStore.Upsert | santana-conversation-domain/motor-v2/store.ts:38-55 | the search from the end and the update of the copied list give the facts of the specification |
| MotorStore.UpsertVersions | santana-conversation-domain/motor-v2/store.ts:38-55 | a recording adds at most one version to its key, closing the last one, and leaves other keys alone |
| MotorStore.UpsertKeepsVersions | santana-conversation-domain/motor-v2/store.ts:38-55 | the versions of each key stay 1 to n with only the last active and each of the others naming the next |
| MotorStore.UpsertIsCurrent | santana-conversation-domain/motor-v2/store.ts:38-55 | the last version then has the value and the source just recorded |
| MotorStore.UpsertAllKeeps | santana-conversation-domain/motor-v2/runtime.ts:265-277 | recording a whole list keeps the versions and changes of earlier facts only whether they are active and what replaced them |
| MotorStore.UpsertAllTells | santana-conversation-domain/motor-v2/runtime.ts:265-277 | the versions of each key are the reports of it that say something else than the one before, in order, each with its value, source, turn and time |
| MotorStore.IdsDiffer | santana-conversation-domain/motor-v2/store.ts:46-53 | no two facts share an id |
| MotorRuntime.Store.Commit | santana-conversation-domain/motor-v2/store.ts:64-95 | the state kept and the answer of a commit: duplicate, refused, or one revision further |
| MotorRuntime.RunLabCase | santana-conversation-domain/motor-v2/runtime.ts:205-307 | the state kept and the answer of a turn, on the duplicate path and on the processing path |
| MotorRuntime.TurnKeepsSound | santana-conversation-domain/motor-v2/runtime.ts:205-307 | a turn keeps the stored state sound and never meets a revision conflict of its own making |
| MotorRuntime.RunsAreSound | santana-conversation-domain/motor-v2/runtime.ts:278-307 | over every sequential run versions are chained, the revision is the number of processed inbounds, none is processed twice, and audit numbers run without a gap |
| MotorRuntime.RunsGrow | santana-conversation-domain/motor-v2/store.ts:64-95 | nothing stored is taken back: facts, processed inbounds, their hashes, the audit |
| MotorRuntime.RunsAreTold | santana-conversation-domain/motor-v2/runtime.ts:205-307 | after every run the stored state is told by the submissions that went in, those of the first conversation with a new inbound: processed ids, content, three audit events each, the versions of each key, the findings of the last |
| MotorRuntime.AnswersAreTold | santana-conversation-domain/motor-v2/runtime.ts:205-248 | what a submission is answered after any run: refused in another conversation; told what is stored if the same went in before; refused if that had other content; otherwise taken |
| MotorRuntime.SecondCommit | santana-conversation-domain/motor-v2/store.ts:64-83 | of two commits that started from one state the second is told what the first stored if it is of the same inbound and content, refused for reuse if the content differs, and for its revision otherwise |
| MotorRuntime.ResubmissionChangesNothing | santana-conversation-domain/motor-v2/runtime.ts:216-248 | a processed input sent again at any later time returns the stored state and changes nothing |
| MotorRuntime.ReuseIsRefused | santana-conversation-domain/motor-v2/runtime.ts:216-219 | the id of a processed inbound with other content is refused at any later time and changes nothing |
| ShadowStore.Store.List | phase18/shadow/store.ts:143-151 | whatever order the directory is read in, the list is one |
| ShadowStore.Store.RebuildCheckpoint | phase18/shadow/store.ts:153-166 | the checkpoint lists the records there are |
| ShadowStore.Store.Commit | phase18/shadow/store.ts:106-141 | a record is written when there is none and never replaced; reuse with other content is refused |
| ShadowStore.Replay | phase18/shadow/run_shadow.ts:446-473 | an uninterrupted replay over any store succeeds exactly when no line contradicts a record that was there or another line; records are kept, a new one is that of the first line of its id as evaluated, and the checkpoint is current either way |
| ShadowStore.ReplayFromNothing | phase18/shadow/run_shadow.ts:446-473 | from an empty store it succeeds exactly when no event id stands for two contents, and then has converged |
| ShadowStore.ConvergedAgree | phase18/shadow/store.ts:153-166 | two converged stores have the same ids, input hashes and checkpoint |
| ShadowRecovery.RunsKeepGood | phase18/shadow/run_shadow.ts:454-473 | every schedule of steps, crashes and starts keeps: records come from the input and were written once, passed lines have their record, and what each phase relies on |
| ShadowRecovery.RecordsAreWrittenOnce | phase18/shadow/store.ts:106-141 | under any schedule no record is written twice, replaced or lost, and the checkpoint never lists what has no record |
| ShadowRecovery.RecordsTellResults | phase18/shadow/run_shadow.ts:446-473 | under any schedule a record holds what an operation evaluated |
| ShadowRecovery.CompletedHasConverged | phase18/shadow/run_shadow.ts:454-473 | a run that completes has converged, like an uninterrupted one |
| ShadowRecovery.CompletedRunsAgree | phase18/shadow/run_shadow.ts:454-473 | two completed runs agree on ids, hashes and checkpoint however each was interrupted |
| ShadowRecovery.RestartCompletes | phase18/shadow/store.ts:50-61 | after any past, a start and eight operations for each line and five more without a crash complete the replay if and only if no event id stands for two contents |

## Left out

- The handoff model, the event log, topics (`origin_topic`, `current_topic`), documents, requests and process sessions: each claim is settled by reading one table or one assignment.
- String formats of record ids inside the reducer: ids are positions, and `stack_index`, the same number, has no field.
- `forbidden_goals` is a field that only a caller sets; the reducer reads it and never writes it.
- Numbers are reals: NaN and negative zero as fact values are not modelled.
- The state of the fields after a refused turn: the program drops the clone, so the methods of Engine.Conversing promise nothing about them.
- Isolation.CasesAreIsolated: requires, when some goal has no case, that the other case does not carry a reference that a relation would make in this turn for a case it opens; the code gives no such guarantee, and CaseTakeover.CaseIsTakenOver shows a run on which the case is taken over.
- Convergence of the twelve-round loops for an arbitrary catalogue: the code gives up with an error there.
- Replay.ReplayRebuildsExactly: the value null is stored as empty text and compared so.
- Replay.StoreTells: a row holds the premises of a fact as a list; the table of derivations holds them as a set.
- Database checks that names belong to enumerations and texts to formats, column by column; session status, revision and catalogue checks, idempotency keys, rollback, grants.
- `canonicalState` and its digest: equal digests are taken to mean that the tables show the declared state; the text itself, with its separators and its numerals, is not modelled.
- Identifier kinds outside the five that `uuidFor` is called with.
- The SQL of 0020_5b4b_conversation_persistence.sql is read as an interpreter of operations with the constraints, triggers and indexes of its tables; the order in which one operation with two faults is told of them is not.
- SHA-256, HMAC and FNV themselves: digests are injective, signatures verify only for the body they were made over.
- Failure of the cryptographic calls inside the gateway, its runtime checks of JavaScript shapes beyond the ones stated, and tool names inherited from object prototypes.
- In the ledger: field formats appear as types, the normalisation of the confirming text and its digest are parameters, tampering with the file is excluded, and the file lock makes each operation one step.
- In the authority query: `release_id` and the requested type are echoed unchanged and have no field; the `in` operator on names inherited from object prototypes; applicability values are texts.
- In the canonical text: lone surrogates, and the numerals JSON.stringify chooses for a number, which stand for the number.
- `escrita.ts`, `caso.ts` and `argumentos.ts` of the authority gateway, the release digest and the file cache of the catalogue: straight-line guards and plumbing.
- Motor V2: understanding, policy, tracks and reply texts are one parameter; input validation and state hashes are not modelled; commits are sequential, since two that overlap at their awaits can both pass the revision check.
- MotorStore.IdsDiffer: a fact id stands for the tuple key, turn, version, value; that the program joins these with colons before hashing is not modelled.
- The shadow store: one process and one cohort; two processes can write checkpoints in the wrong order, since the rebuild holds no lock on the store. Reads of damaged record files, directory permissions and the limit on the number of cases, which only shortens the input.
- Edge functions, HTTP and database clients, message delivery, language-model providers, text classification, benchmarks and review packs: input, output and reporting.
