/** The independent re-check of a checkpointed plan against the current manifest. */
module PlanValidation {
  import opened Collections
  import opened PlanModel
  import opened TopologicalOrder
  import opened CriticalPath

  datatype ParameterKind = Boolean | Integer | Number | Enum | Identifier | Resource

  datatype Parameter = Parameter(
    kind: ParameterKind,
    required: bool,
    allowedValues: set<string>,
    resourceTypes: set<string>,
    minimum: Option<real>,
    maximum: Option<real>)

  /** Parameter names are unique in a manifest entry, so they key a map. */
  datatype Capability = Capability(
    version: string,
    parameters: map<string, Parameter>,
    codes: set<string>,
    maxTimeout: int)

  /** Capability and resource identifiers are unique in a bundle, so they key maps. */
  datatype Bundle = Bundle(capabilities: map<string, Capability>, resourceTypes: map<string, string>)

  // ---- what a manifest may hold ------------------------------------------------------------

  /** The constraints of a parameter kind. */
  predicate ParameterFine(p: Parameter) {
    && |p.allowedValues| <= 32 && |p.resourceTypes| <= 16
    && match p.kind
       case Enum => p.allowedValues != {} && p.resourceTypes == {} && p.minimum.None? && p.maximum.None?
                    && forall v :: v in p.allowedValues ==> IsIdentifier(v)
       case Resource => p.resourceTypes != {} && p.allowedValues == {} && p.minimum.None? && p.maximum.None?
       case Integer => p.allowedValues == {} && p.resourceTypes == {} && BoundsFine(p)
       case Number => p.allowedValues == {} && p.resourceTypes == {} && BoundsFine(p)
       case _ => p.allowedValues == {} && p.resourceTypes == {} && p.minimum.None? && p.maximum.None?
  }

  predicate BoundsFine(p: Parameter) {
    p.minimum.Some? && p.maximum.Some? ==> p.minimum.value <= p.maximum.value
  }

  predicate CapabilityFine(c: Capability) {
    && |c.parameters| <= 12 && 1 <= |c.codes| <= 8 && 1 <= c.maxTimeout <= 600
    && forall name :: name in c.parameters ==> ParameterFine(c.parameters[name])
  }

  /** The record bounds of a manifest and its resources; what follows does not depend on them. */
  predicate BundleFine(b: Bundle) {
    && 1 <= |b.capabilities| <= 16 && |b.resourceTypes| <= 32
    && forall id :: id in b.capabilities ==> CapabilityFine(b.capabilities[id])
  }

  // ---- arguments --------------------------------------------------------------------------

  predicate IsAlphanumeric(c: char) {
    'A' <= c <= 'Z' || 'a' <= c <= 'z' || '0' <= c <= '9'
  }

  /** One to 128 characters, the first alphanumeric, the rest alphanumeric or one of . _ @ - */
  predicate IsIdentifier(s: string) {
    && 1 <= |s| <= 128
    && IsAlphanumeric(s[0])
    && forall i :: 0 <= i < |s| ==> IsAlphanumeric(s[i]) || s[i] in {'.', '_', '@', '-'}
  }

  predicate InBounds(x: real, p: Parameter) {
    (p.minimum.Some? ==> x >= p.minimum.value) && (p.maximum.Some? ==> x <= p.maximum.value)
  }

  predicate ArgumentFits(value: Scalar, p: Parameter, resourceTypes: map<string, string>) {
    match p.kind
    case Boolean => value.BoolValue?
    case Integer => value.IntValue? && InBounds(value.i as real, p)
    case Number => (value.IntValue? && InBounds(value.i as real, p)) || (value.FloatValue? && InBounds(value.r, p))
    case Enum => value.TextValue? && value.s in p.allowedValues
    case Identifier => value.TextValue? && IsIdentifier(value.s)
    case Resource => value.TextValue? && value.s in resourceTypes && resourceTypes[value.s] in p.resourceTypes
  }

  function Names(arguments: seq<Argument>): seq<string> {
    seq(|arguments|, i requires 0 <= i < |arguments| => arguments[i].name)
  }

  predicate NamesFit(arguments: seq<Argument>, capability: Capability) {
    && Distinct(Names(arguments))
    && (forall i :: 0 <= i < |arguments| ==> arguments[i].name in capability.parameters)
    && (forall name :: name in capability.parameters && capability.parameters[name].required ==> name in Names(arguments))
  }

  /** The first argument that does not fit decides the error. */
  function ArgumentsCheck(arguments: seq<Argument>, capability: Capability, resourceTypes: map<string, string>): (r: Result<()>)
    requires forall i :: 0 <= i < |arguments| ==> arguments[i].name in capability.parameters
    ensures r.Ok? <==> forall i :: 0 <= i < |arguments| ==>
              ArgumentFits(arguments[i].value, capability.parameters[arguments[i].name], resourceTypes)
  {
    if arguments == [] then Ok(())
    else
      var p := capability.parameters[arguments[0].name];
      if !ArgumentFits(arguments[0].value, p, resourceTypes) then
        Err(if p.kind.Resource? then PlanResourceUnknown else PlanArgumentInvalid)
      else
        assert arguments == [arguments[0]] + arguments[1..];
        ArgumentsCheck(arguments[1..], capability, resourceTypes)
  }

  /** One action against its capability: version and timeout, then names, then values. */
  function ContractCheck(action: PlanAction, capability: Capability, resourceTypes: map<string, string>): Result<()> {
    if action.capabilityVersion != capability.version || !(1 <= action.timeout <= capability.maxTimeout) then
      Err(PlanCapabilityInvalid)
    else if !NamesFit(action.arguments, capability) then
      Err(PlanArgumentInvalid)
    else
      ArgumentsCheck(action.arguments, capability, resourceTypes)
  }

  // ---- actions ------------------------------------------------------------------------------

  /** Canonical content of an action: arguments sorted by their distinct names and sorted
      dependencies are multisets, and the timeout is left out. */
  datatype Fingerprint = Fingerprint(
    capabilityId: string,
    capabilityVersion: string,
    arguments: multiset<Argument>,
    dependencies: multiset<Id>)

  function FingerprintOf(a: PlanAction): Fingerprint {
    Fingerprint(a.capabilityId, a.capabilityVersion, multiset(a.arguments), multiset(a.dependencies))
  }

  /** The verdict on the action at position k, given the ones before it. */
  function ActionCheck(actions: seq<PlanAction>, k: nat, bundle: Bundle): Result<()>
    requires k < |actions|
  {
    var a := actions[k];
    if a.capabilityId !in bundle.capabilities then Err(PlanCapabilityUnknown)
    else
      var contract := ContractCheck(a, bundle.capabilities[a.capabilityId], bundle.resourceTypes);
      if contract.Err? then contract
      else if exists j :: 0 <= j < k && FingerprintOf(actions[j]) == FingerprintOf(a) then Err(PlanActionDuplicate)
      else Ok(())
  }

  predicate ActionsFine(actions: seq<PlanAction>, bundle: Bundle) {
    forall k :: 0 <= k < |actions| ==> ActionCheck(actions, k, bundle).Ok?
  }

  // ---- criteria -----------------------------------------------------------------------------

  function Pairs(criteria: seq<Criterion>): seq<(Id, string)> {
    seq(|criteria|, i requires 0 <= i < |criteria| => (criteria[i].actionId, criteria[i].code))
  }

  function CoveredIds(criteria: seq<Criterion>): set<Id> {
    set i | 0 <= i < |criteria| :: criteria[i].actionId
  }

  /** The criterion names an action of the plan and a code that action's capability declares. */
  predicate CriterionDeclared(c: Criterion, byId: map<Id, PlanAction>, bundle: Bundle) {
    && c.actionId in byId
    && byId[c.actionId].capabilityId in bundle.capabilities
    && c.code in bundle.capabilities[byId[c.actionId].capabilityId].codes
  }

  predicate CriteriaFine(plan: Plan, bundle: Bundle) {
    && (forall i :: 0 <= i < |plan.criteria| ==> CriterionDeclared(plan.criteria[i], ById(plan.actions), bundle))
    && Distinct(Pairs(plan.criteria))
    && CoveredIds(plan.criteria) == SetOf(ActionIds(plan.actions))
  }

  // ---- the whole check --------------------------------------------------------------------

  predicate IdsDistinct(plan: Plan) {
    Distinct(ActionIds(plan.actions)) && Distinct(CriterionIds(plan.criteria))
  }

  ghost predicate Ordered(plan: Plan) {
    DependenciesKnown(plan.actions) && Acyclic(GraphOf(plan.actions))
  }

  ghost predicate WithinBudget(plan: Plan, s: ValidationSettings) {
    CountsWithin(plan, s) && CriticalPathWithin(plan, s)
  }

  /** The plans the validator lets through. */
  ghost predicate Accepted(plan: Plan, bundle: Bundle, s: ValidationSettings) {
    && IdsDistinct(plan)
    && Ordered(plan)
    && WithinBudget(plan, s)
    && ActionsFine(plan.actions, bundle)
    && CriteriaFine(plan, bundle)
  }

  /** Which error a rejected plan gets: the first failing stage decides. */
  ghost predicate RejectedWith(plan: Plan, bundle: Bundle, s: ValidationSettings, e: ErrorCode) {
    if !IdsDistinct(plan) then e == PlanActionDuplicate
    else if !DependenciesKnown(plan.actions) then e == PlanDependencyInvalid
    else if !Acyclic(GraphOf(plan.actions)) then e == PlanDependencyCycle
    else if !WithinBudget(plan, s) then e == PlanBudgetExceeded
    else if !ActionsFine(plan.actions, bundle) then FirstFault(plan.actions, bundle, e)
    else !CriteriaFine(plan, bundle) && e == PlanVerificationInvalid
  }

  ghost predicate FirstFault(actions: seq<PlanAction>, bundle: Bundle, e: ErrorCode) {
    exists k :: 0 <= k < |actions|
      && (forall j :: 0 <= j < k ==> ActionCheck(actions, j, bundle).Ok?)
      && ActionCheck(actions, k, bundle) == Err(e)
  }

  method ValidatePlan(plan: Plan, bundle: Bundle, s: ValidationSettings) returns (r: Result<()>)
    ensures r.Ok? <==> Accepted(plan, bundle, s)
    ensures r.Err? ==> RejectedWith(plan, bundle, s, r.error)
  {
    DistinctCardinality(ActionIds(plan.actions));
    DistinctCardinality(CriterionIds(plan.criteria));
    if |ActionIds(plan.actions)| != |SetOf(ActionIds(plan.actions))|
       || |CriterionIds(plan.criteria)| != |SetOf(CriterionIds(plan.criteria))|
    {
      return Err(PlanActionDuplicate);
    }
    var order := TopologicalSort(plan.actions);
    if order.Err? {
      return Err(order.error);
    }
    var budget := ValidateBudgets(plan, order.value, s);
    if budget.Err? {
      return Err(budget.error);
    }
    r := ValidateActions(plan.actions, bundle);
    if r.Err? {
      return;
    }
    r := ValidateCriteria(plan, bundle);
  }

  /** The loop over the actions, collecting fingerprints. */
  method ValidateActions(actions: seq<PlanAction>, bundle: Bundle) returns (r: Result<()>)
    ensures r.Ok? <==> ActionsFine(actions, bundle)
    ensures r.Err? ==> FirstFault(actions, bundle, r.error)
  {
    var fingerprints: set<Fingerprint> := {};
    for k := 0 to |actions|
      invariant forall j :: 0 <= j < k ==> ActionCheck(actions, j, bundle).Ok?
      invariant fingerprints == set j | 0 <= j < k :: FingerprintOf(actions[j])
    {
      var action := actions[k];
      if action.capabilityId !in bundle.capabilities {
        assert ActionCheck(actions, k, bundle) == Err(PlanCapabilityUnknown);
        return Err(PlanCapabilityUnknown);
      }
      var contract := ContractCheck(action, bundle.capabilities[action.capabilityId], bundle.resourceTypes);
      if contract.Err? {
        assert ActionCheck(actions, k, bundle) == contract;
        return contract;
      }
      var fingerprint := FingerprintOf(action);
      if fingerprint in fingerprints {
        assert ActionCheck(actions, k, bundle) == Err(PlanActionDuplicate);
        return Err(PlanActionDuplicate);
      }
      fingerprints := fingerprints + {fingerprint};
    }
    return Ok(());
  }

  lemma CoveredNext(criteria: seq<Criterion>, k: nat)
    requires k < |criteria|
    ensures CoveredIds(criteria[..k + 1]) == CoveredIds(criteria[..k]) + {criteria[k].actionId}
  {
    forall id ensures id in CoveredIds(criteria[..k + 1]) <==> id in CoveredIds(criteria[..k]) || id == criteria[k].actionId {
      if id in CoveredIds(criteria[..k]) {
        var i :| 0 <= i < k && criteria[..k][i].actionId == id;
        assert criteria[..k + 1][i].actionId == id;
      }
      if id == criteria[k].actionId { assert criteria[..k + 1][k].actionId == id; }
    }
  }

  /** The loop over the criteria, collecting pairs and covered actions. */
  method ValidateCriteria(plan: Plan, bundle: Bundle) returns (r: Result<()>)
    ensures r == if CriteriaFine(plan, bundle) then Ok(()) else Err(PlanVerificationInvalid)
  {
    var byId := ById(plan.actions);
    ghost var pairs := Pairs(plan.criteria);
    var seen: set<(Id, string)> := {};
    var covered: set<Id> := {};
    for k := 0 to |plan.criteria|
      invariant forall j :: 0 <= j < k ==> CriterionDeclared(plan.criteria[j], byId, bundle)
      invariant seen == SetOf(pairs[..k])
      invariant Distinct(pairs[..k])
      invariant covered == CoveredIds(plan.criteria[..k])
    {
      var criterion := plan.criteria[k];
      var pair := (criterion.actionId, criterion.code);
      PrefixNext(pairs, k);
      if !CriterionDeclared(criterion, byId, bundle) || pair in seen {
        if pair in seen {
          ghost var j :| 0 <= j < k && pairs[..k][j] == pair;
          assert pairs[j] == pairs[k];
        }
        return Err(PlanVerificationInvalid);
      }
      seen := seen + {pair};
      covered := covered + {criterion.actionId};
      CoveredNext(plan.criteria, k);
    }
    TakeAll(pairs);
    TakeAll(plan.criteria);
    if covered != SetOf(ActionIds(plan.actions)) {
      return Err(PlanVerificationInvalid);
    }
    return Ok(());
  }
}
