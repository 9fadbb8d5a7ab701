/** Plans, capability manifests and error codes shared by the plan pipeline. */
module PlanModel {
  import opened Collections

  /** The value of a 24-digit lower-case hexadecimal digest.  Strings of one length over
      0-9a-f compare exactly like the numbers they write, so sorting is unaffected. */
  type Id = int

  /** JSON scalars; the four constructors never compare equal, as their JSON texts differ. */
  datatype Scalar = BoolValue(b: bool) | IntValue(i: int) | FloatValue(r: real) | TextValue(s: string)

  datatype Argument = Argument(name: string, value: Scalar)

  datatype PlanAction = PlanAction(
    id: Id,
    capabilityId: string,
    capabilityVersion: string,
    arguments: seq<Argument>,
    dependencies: seq<Id>,
    timeout: int)

  datatype Criterion = Criterion(id: Id, actionId: Id, code: string)

  datatype Plan = Plan(
    objective: string,
    assumptions: seq<string>,
    actions: seq<PlanAction>,
    criteria: seq<Criterion>,
    warnings: seq<string>)

  datatype ErrorCode =
    | PlanModelOutputInvalid
    | PlanDependencyInvalid
    | PlanDependencyCycle
    | PlanBudgetExceeded
    | PlanActionDuplicate
    | PlanCapabilityUnknown
    | PlanCapabilityInvalid
    | PlanArgumentInvalid
    | PlanResourceUnknown
    | PlanVerificationInvalid
    | RevisionModelOutputInvalid
    | RevisionExecutedActionChanged
    | RevisionDependencyInvalid
    | DispatchContractInvalid
    | DispatchPlanComplete
    | DispatchDependenciesUnsatisfied
    | DispatchApprovalInvalid
    | PolicyAssessmentInvalid

  datatype Result<+T> = Ok(value: T) | Err(error: ErrorCode)

  function ActionIds(actions: seq<PlanAction>): seq<Id> {
    seq(|actions|, i requires 0 <= i < |actions| => actions[i].id)
  }

  function CriterionIds(criteria: seq<Criterion>): seq<Id> {
    seq(|criteria|, i requires 0 <= i < |criteria| => criteria[i].id)
  }

  function IdOf(a: PlanAction): Id { a.id }

  function ById(actions: seq<PlanAction>): (m: map<Id, PlanAction>)
    ensures forall id :: id in m ==> m[id] in actions && m[id].id == id
    ensures forall a :: a in actions ==> a.id in m
  {
    KeyedBy(IdOf, actions)
  }
}
