/**
 The catalogue of the conversation domain, as the reducer sees it. The JSON
 documents are a parameter of the model; what the static validation promises
 about them is the predicate Valid.
 */
module Catalog {
  import opened Basics

  datatype Scope = CONVERSATION | CASE | GOAL
  datatype Source = USER_EXPLICIT | USER_CORRECTION | DOCUMENT | SYSTEM | DERIVED_RULE
  datatype Confidence = CONFIRMED | UNCERTAIN | CONFLICTING
  datatype GoalStatus = ACTIVE | SUSPENDED | WAITING | RESOLVED | ABANDONED
  datatype Executor = BY_SYSTEM | BY_HUMAN | BY_EITHER
  datatype Priority =
    | FLOW_BRANCH
    | PREREQUISITE
    | BLOCKING_UNCERTAINTY
    | DEPENDENCY
    | NEXT_ACTION_DATA
    | ADMINISTRATIVE

  datatype Value = Text(text: string) | Flag(flag: bool) | Number(number: real) | Null

  datatype Test = Present | Equals(value: Value) | OneOf(values: set<Value>)
  datatype Condition = Condition(fact: string, test: Test)
  datatype Rule = Rule(value: Value, when: seq<Condition>)

  datatype FactDef = FactDef(
    scope: Scope,
    allowedValues: Option<set<string>>,
    priority: Priority,
    relevantWhen: seq<Condition>,
    dependsOn: set<string>,
    derived: bool,
    allowedSources: set<Source>,
    authoritativeOnly: bool,
    authoritativeValues: set<Value>,
    blockingValues: set<Value>,
    satisfyingValues: Option<set<Value>>,
    satisfactionRules: Option<seq<Rule>>,
    repeatable: bool)

  datatype GoalDef = GoalDef(
    createsCase: bool,
    caseSubject: string,
    informational: bool,
    explicitHandoff: bool,
    required: seq<string>,
    completion: seq<string>,
    optional: seq<string>)

  /** An effect whose mandatory field is missing does nothing: that is NoEffect,
      and so is the declarative require_facts_in_current_goal. */
  datatype Effect =
    | AssertDerived(code: string, value: Value, from: seq<string>)
    | RecordSystem(code: string, value: Value, source: Source, authoritative: bool)
    | PushGoal(goalCode: string, suspendParent: bool, returnToParent: bool)
    | SetStatus(status: GoalStatus, reason: Option<string>)
    | RequireAction(action: string, executor: Executor)
    | SatisfyDependency(dependency: string, why: string)
    | NoEffect

  datatype When = When(goalCode: string, statuses: set<GoalStatus>, conditions: seq<Condition>)
  datatype Relation = Relation(
    code: string, when: Option<When>, effects: seq<Effect>, onChildResolved: seq<Effect>)
  datatype Resolution = Resolution(action: string, executor: Executor)

  datatype Catalogue = Catalogue(
    facts: map<string, FactDef>,
    goals: map<string, GoalDef>,
    relations: seq<Relation>,
    resolutions: map<string, Resolution>,
    questions: map<string, string>,
    accepted: set<Source>)

  const OPEN: set<GoalStatus> := {ACTIVE, SUSPENDED, WAITING}

  const CONFLICT_QUESTION := "Q_CONFLICT_CONFIRM"

  function Rank(p: Priority): nat {
    match p
    case FLOW_BRANCH => 1
    case PREREQUISITE => 2
    case BLOCKING_UNCERTAINTY => 3
    case DEPENDENCY => 4
    case NEXT_ACTION_DATA => 5
    case ADMINISTRATIVE => 6
  }

  const UNDECLARED_FACT :=
    FactDef(CONVERSATION, None, ADMINISTRATIVE, [], {}, false, {}, false, {}, {}, None, None, false)

  const UNDECLARED_GOAL := GoalDef(false, "GENERIC", false, false, [], [], [])

  /** The program throws on an undeclared code. The operations that take a code
      from outside test for it first; codes already in a state are declared. */
  function FactOf(cat: Catalogue, code: string): FactDef {
    if code in cat.facts then cat.facts[code] else UNDECLARED_FACT
  }

  function GoalOf(cat: Catalogue, code: string): GoalDef {
    if code in cat.goals then cat.goals[code] else UNDECLARED_GOAL
  }

  /** A fact that only an external signal may confirm, at this value. */
  predicate NeedsSignal(cat: Catalogue, code: string, value: Value) {
    var def := FactOf(cat, code);
    def.authoritativeOnly || value in def.authoritativeValues
  }

  predicate Declares(def: GoalDef, code: string) {
    code in def.required || code in def.optional || code in def.completion
  }

  ghost predicate EffectValid(cat: Catalogue, e: Effect) {
    match e
    case AssertDerived(code, _, from) =>
      code in cat.facts && forall x | x in from :: x in cat.facts
    case RecordSystem(code, _, _, _) => code in cat.facts
    case PushGoal(code, _, _) => code in cat.goals
    case SetStatus(status, _) => status != RESOLVED
    case _ => true
  }

  /** What the static validation of the documents establishes, with two facts of
      the shipped documents it does not test: no relation marks a goal RESOLVED,
      and a gated fact does not accept the source DERIVED_RULE. */
  ghost predicate Valid(cat: Catalogue) {
    && (forall r | r in cat.relations ::
          && (forall e | e in r.effects :: EffectValid(cat, e))
          && (forall e | e in r.onChildResolved :: EffectValid(cat, e)))
    && (forall code | code in cat.facts ::
          cat.facts[code].authoritativeOnly || cat.facts[code].authoritativeValues != {} ==>
            DERIVED_RULE !in cat.facts[code].allowedSources)
  }

  /** Every dependency edge, declared by a fact or by the from list of a
      relation, climbs in rank: the catalogue is acyclic. */
  ghost predicate Ranked(cat: Catalogue, rank: map<string, nat>) {
    && (forall code | code in cat.facts :: code in rank)
    && (forall code, x | code in cat.facts && x in cat.facts[code].dependsOn ::
          x in rank && rank[x] < rank[code])
    && (forall r, e | r in cat.relations && (e in r.effects || e in r.onChildResolved) && e.AssertDerived? ::
          e.code in rank && forall x | x in e.from :: x in rank && rank[x] < rank[e.code])
  }
}
