/** A model's plan draft with local step labels: its check and its projection to content-derived ids. */
module PlanDrafting {
  import opened Collections
  import opened PlanModel
  import opened PlanValidation

  datatype ModelAction = ModelAction(
    stepId: string,
    capabilityId: string,
    capabilityVersion: string,
    arguments: seq<Argument>,
    dependsOn: seq<string>,
    timeout: int)

  datatype ModelCriterion = ModelCriterion(stepId: string, code: string)

  datatype ModelDraft = ModelDraft(
    objective: string,
    assumptions: seq<string>,
    actions: seq<ModelAction>,
    criteria: seq<ModelCriterion>,
    warnings: seq<string>)

  datatype DraftSettings = DraftSettings(maxActions: int, maxCriteria: int, maxArguments: int)

  const DEFAULT_DRAFT_SETTINGS := DraftSettings(8, 16, 64)

  function Steps(actions: seq<ModelAction>): seq<string> {
    seq(|actions|, i requires 0 <= i < |actions| => actions[i].stepId)
  }

  function ModelArgumentCount(a: ModelAction): int { |a.arguments| }

  // ---- the check of a draft ---------------------------------------------------------------

  /** Field bounds that parsing the model's JSON enforces. */
  predicate WellTyped(d: ModelDraft) {
    && 1 <= |d.actions| <= 8
    && 1 <= |d.criteria| <= 16
    && |d.assumptions| <= 3 && |d.warnings| <= 3
    && forall i :: 0 <= i < |d.actions| ==>
         |d.actions[i].arguments| <= 12 && |d.actions[i].dependsOn| <= 8 && 1 <= d.actions[i].timeout <= 600
  }

  predicate HeaderFine(d: ModelDraft, intent: string, s: DraftSettings) {
    && d.objective == intent
    && |d.actions| <= s.maxActions
    && |d.criteria| <= s.maxCriteria
    && Total(ModelArgumentCount, d.actions) <= s.maxArguments
    && Distinct(d.assumptions) && Distinct(d.warnings)
  }

  datatype ModelFingerprint = ModelFingerprint(
    capabilityId: string,
    capabilityVersion: string,
    arguments: multiset<Argument>,
    dependencies: multiset<string>)

  function ModelFingerprintOf(a: ModelAction): ModelFingerprint {
    ModelFingerprint(a.capabilityId, a.capabilityVersion, multiset(a.arguments), multiset(a.dependsOn))
  }

  /** One action against its capability and the labels seen so far. */
  predicate StepFine(a: ModelAction, seen: set<string>, bundle: Bundle) {
    && a.capabilityId in bundle.capabilities
    && var capability := bundle.capabilities[a.capabilityId];
    && a.capabilityVersion == capability.version
    && a.stepId !in seen
    && Distinct(a.dependsOn)
    && SetOf(a.dependsOn) <= seen
    && a.timeout <= capability.maxTimeout
    && NamesFit(a.arguments, capability)
    && forall i :: 0 <= i < |a.arguments| ==>
         ArgumentFits(a.arguments[i].value, capability.parameters[a.arguments[i].name], bundle.resourceTypes)
  }

  predicate StepsFine(actions: seq<ModelAction>, bundle: Bundle) {
    && (forall k :: 0 <= k < |actions| ==> StepFine(actions[k], SetOf(Steps(actions)[..k]), bundle))
    && forall j, k :: 0 <= j < k < |actions| ==> ModelFingerprintOf(actions[j]) != ModelFingerprintOf(actions[k])
  }

  /** The first action with this label, as next(...) finds it. */
  function FirstStep(actions: seq<ModelAction>, step: string): (k: nat)
    requires step in Steps(actions)
    ensures k < |actions| && actions[k].stepId == step
  {
    if actions[0].stepId == step then 0
    else
      assert Steps(actions) == [actions[0].stepId] + Steps(actions[1..]);
      1 + FirstStep(actions[1..], step)
  }

  predicate ModelCriterionDeclared(c: ModelCriterion, actions: seq<ModelAction>, bundle: Bundle) {
    && c.stepId in Steps(actions)
    && actions[FirstStep(actions, c.stepId)].capabilityId in bundle.capabilities
    && c.code in bundle.capabilities[actions[FirstStep(actions, c.stepId)].capabilityId].codes
  }

  function CoveredSteps(criteria: seq<ModelCriterion>): set<string> {
    set i | 0 <= i < |criteria| :: criteria[i].stepId
  }

  predicate ModelCriteriaFine(d: ModelDraft, bundle: Bundle) {
    && (forall i :: 0 <= i < |d.criteria| ==> ModelCriterionDeclared(d.criteria[i], d.actions, bundle))
    && Distinct(d.criteria)
    && CoveredSteps(d.criteria) == SetOf(Steps(d.actions))
  }

  predicate ModelAccepted(d: ModelDraft, intent: string, bundle: Bundle, s: DraftSettings) {
    && WellTyped(d)
    && HeaderFine(d, intent, s)
    && StepsFine(d.actions, bundle)
    && ModelCriteriaFine(d, bundle)
  }

  /** The loop over the actions, collecting labels and fingerprints. */
  method ValidateSteps(actions: seq<ModelAction>, bundle: Bundle) returns (ok: bool, seenSteps: set<string>)
    ensures ok <==> StepsFine(actions, bundle)
    ensures ok ==> seenSteps == SetOf(Steps(actions))
  {
    ghost var steps := Steps(actions);
    seenSteps := {};
    var fingerprints: set<ModelFingerprint> := {};
    for k := 0 to |actions|
      invariant seenSteps == SetOf(steps[..k])
      invariant fingerprints == set j | 0 <= j < k :: ModelFingerprintOf(actions[j])
      invariant forall j :: 0 <= j < k ==> StepFine(actions[j], SetOf(steps[..j]), bundle)
      invariant forall i, j :: 0 <= i < j < k ==> ModelFingerprintOf(actions[i]) != ModelFingerprintOf(actions[j])
    {
      var action := actions[k];
      assert steps[..k + 1] == steps[..k] + [action.stepId];
      if !StepFine(action, seenSteps, bundle) {
        return false, seenSteps;
      }
      var fingerprint := ModelFingerprintOf(action);
      if fingerprint in fingerprints {
        return false, seenSteps;
      }
      fingerprints := fingerprints + {fingerprint};
      seenSteps := seenSteps + {action.stepId};
    }
    assert steps[..|actions|] == steps;
    ok := true;
  }

  /** The loop over the criteria, collecting pairs and covered labels. */
  method ValidateModelCriteria(d: ModelDraft, bundle: Bundle, seenSteps: set<string>) returns (ok: bool)
    requires seenSteps == SetOf(Steps(d.actions))
    ensures ok <==> ModelCriteriaFine(d, bundle)
  {
    var criterionPairs: set<ModelCriterion> := {};
    var coveredSteps: set<string> := {};
    for k := 0 to |d.criteria|
      invariant forall j :: 0 <= j < k ==> ModelCriterionDeclared(d.criteria[j], d.actions, bundle)
      invariant criterionPairs == SetOf(d.criteria[..k]) && Distinct(d.criteria[..k])
      invariant coveredSteps == CoveredSteps(d.criteria[..k])
    {
      var criterion := d.criteria[k];
      assert d.criteria[..k + 1] == d.criteria[..k] + [criterion];
      if !ModelCriterionDeclared(criterion, d.actions, bundle) || criterion in criterionPairs {
        return false;
      }
      criterionPairs := criterionPairs + {criterion};
      coveredSteps := coveredSteps + {criterion.stepId};
    }
    assert d.criteria[..|d.criteria|] == d.criteria;
    ok := coveredSteps == seenSteps;
  }

  method ValidateModelPlan(d: ModelDraft, intent: string, bundle: Bundle, s: DraftSettings) returns (r: Result<ModelDraft>)
    ensures r == if ModelAccepted(d, intent, bundle, s) then Ok(d) else Err(PlanModelOutputInvalid)
  {
    if !WellTyped(d) || !HeaderFine(d, intent, s) {
      return Err(PlanModelOutputInvalid);
    }
    var stepsOk, seenSteps := ValidateSteps(d.actions, bundle);
    if !stepsOk {
      return Err(PlanModelOutputInvalid);
    }
    var criteriaOk := ValidateModelCriteria(d, bundle, seenSteps);
    return if criteriaOk then Ok(d) else Err(PlanModelOutputInvalid);
  }

  // ---- the projection -----------------------------------------------------------------------

  /** What identifies an action: everything it does, its dependencies by their own ids, its timeout. */
  datatype SemanticKey = SemanticKey(
    capabilityId: string,
    capabilityVersion: string,
    arguments: multiset<Argument>,
    dependencies: multiset<Id>,
    timeout: int)

  /** The two kinds of text that are hashed to an identifier. */
  datatype StableKey =
    | ActionKey(taskId: string, key: SemanticKey)
    | CriterionKey(taskId: string, actionId: Id, code: string)

  /** The truncated digest, an arbitrary function of the text. */
  type Digest = StableKey -> Id

  type LabelMap = map<string, Id>

  function Resolve(ids: LabelMap, labels: seq<string>): seq<Id>
    requires SetOf(labels) <= ids.Keys
  {
    seq(|labels|, i requires 0 <= i < |labels| => assert labels[i] in SetOf(labels); ids[labels[i]])
  }

  function KeyOf(a: ModelAction, ids: LabelMap): SemanticKey
    requires SetOf(a.dependsOn) <= ids.Keys
  {
    SemanticKey(a.capabilityId, a.capabilityVersion, multiset(a.arguments), multiset(Resolve(ids, a.dependsOn)), a.timeout)
  }

  function ProjectAction(digest: Digest, taskId: string, a: ModelAction, ids: LabelMap): PlanAction
    requires SetOf(a.dependsOn) <= ids.Keys
  {
    PlanAction(digest(ActionKey(taskId, KeyOf(a, ids))), a.capabilityId, a.capabilityVersion,
               a.arguments, Resolve(ids, a.dependsOn), a.timeout)
  }

  /** Every listed dependency is the label of an earlier action. */
  predicate LabelsResolved(actions: seq<ModelAction>) {
    forall k :: 0 <= k < |actions| ==> SetOf(actions[k].dependsOn) <= SetOf(Steps(actions)[..k])
  }

  /** The dictionary from label to action id after these actions. */
  function LabelIds(digest: Digest, taskId: string, actions: seq<ModelAction>): (ids: LabelMap)
    requires LabelsResolved(actions)
    ensures ids.Keys == SetOf(Steps(actions))
  {
    if actions == [] then map[]
    else
      var n := |actions| - 1;
      PrefixResolved(actions, n);
      var before := LabelIds(digest, taskId, actions[..n]);
      assert Steps(actions) == Steps(actions)[..n] + [actions[n].stepId];
      before[actions[n].stepId := digest(ActionKey(taskId, KeyOf(actions[n], before)))]
  }

  lemma PrefixResolved(actions: seq<ModelAction>, k: nat)
    requires LabelsResolved(actions) && k <= |actions|
    ensures LabelsResolved(actions[..k]) && Steps(actions[..k]) == Steps(actions)[..k]
  {
    var prefix := actions[..k];
    assert Steps(prefix) == Steps(actions)[..k];
    forall j | 0 <= j < |prefix| ensures SetOf(prefix[j].dependsOn) <= SetOf(Steps(prefix)[..j]) {
      assert Steps(prefix)[..j] == Steps(actions)[..j];
    }
  }

  /** Each action resolved against the dictionary of the actions before it. */
  function ProjectActions(digest: Digest, taskId: string, actions: seq<ModelAction>): (r: seq<PlanAction>)
    requires LabelsResolved(actions)
    ensures |r| == |actions|
  {
    if actions == [] then []
    else
      var n := |actions| - 1;
      PrefixResolved(actions, n);
      ProjectActions(digest, taskId, actions[..n])
        + [ProjectAction(digest, taskId, actions[n], LabelIds(digest, taskId, actions[..n]))]
  }

  predicate CriteriaResolved(d: ModelDraft) {
    forall i :: 0 <= i < |d.criteria| ==> d.criteria[i].stepId in Steps(d.actions)
  }

  function ProjectCriterion(digest: Digest, taskId: string, c: ModelCriterion, ids: LabelMap): Criterion
    requires c.stepId in ids
  {
    Criterion(digest(CriterionKey(taskId, ids[c.stepId], c.code)), ids[c.stepId], c.code)
  }

  function Projected(digest: Digest, taskId: string, d: ModelDraft): Plan
    requires LabelsResolved(d.actions) && CriteriaResolved(d)
  {
    var ids := LabelIds(digest, taskId, d.actions);
    Plan(d.objective, d.assumptions, ProjectActions(digest, taskId, d.actions),
         seq(|d.criteria|, i requires 0 <= i < |d.criteria| =>
           assert d.criteria[i].stepId in SetOf(Steps(d.actions)); ProjectCriterion(digest, taskId, d.criteria[i], ids)),
         d.warnings)
  }

  /** Compile a draft: grow the label dictionary action by action, then translate the criteria. */
  method ProjectPlan(digest: Digest, taskId: string, d: ModelDraft) returns (plan: Plan)
    requires LabelsResolved(d.actions) && CriteriaResolved(d)
    ensures plan == Projected(digest, taskId, d)
  {
    var actionIds: LabelMap := map[];
    var actions: seq<PlanAction> := [];
    for k := 0 to |d.actions|
      invariant LabelsResolved(d.actions[..k])
      invariant actionIds == LabelIds(digest, taskId, d.actions[..k])
      invariant actions == ProjectActions(digest, taskId, d.actions[..k])
    {
      PrefixResolved(d.actions, k);
      PrefixResolved(d.actions, k + 1);
      assert d.actions[..k + 1][..k] == d.actions[..k];
      var projected := ProjectAction(digest, taskId, d.actions[k], actionIds);
      actionIds := actionIds[d.actions[k].stepId := projected.id];
      actions := actions + [projected];
    }
    assert d.actions[..|d.actions|] == d.actions;
    var criteria := seq(|d.criteria|, i requires 0 <= i < |d.criteria| =>
      assert d.criteria[i].stepId in SetOf(Steps(d.actions)); ProjectCriterion(digest, taskId, d.criteria[i], actionIds));
    plan := Plan(d.objective, d.assumptions, actions, criteria, d.warnings);
  }

  lemma AcceptedResolves(d: ModelDraft, intent: string, bundle: Bundle, s: DraftSettings)
    requires ModelAccepted(d, intent, bundle, s)
    ensures LabelsResolved(d.actions) && CriteriaResolved(d) && Distinct(Steps(d.actions))
  {
    forall i, j | 0 <= i < j < |d.actions| ensures Steps(d.actions)[i] != Steps(d.actions)[j] {
      assert StepFine(d.actions[j], SetOf(Steps(d.actions)[..j]), bundle);
      assert Steps(d.actions)[i] in Steps(d.actions)[..j];
    }
    forall k | 0 <= k < |d.actions| ensures SetOf(d.actions[k].dependsOn) <= SetOf(Steps(d.actions)[..k]) {
      assert StepFine(d.actions[k], SetOf(Steps(d.actions)[..k]), bundle);
    }
  }
}
