/** Compiling a checked draft yields a plan that the independent validator accepts. */
module ProjectionTheorems {
  import opened Collections
  import opened PlanModel
  import opened TopologicalOrder
  import opened CriticalPath
  import opened PlanValidation
  import opened PlanDrafting

  // ---- the label dictionary solves the key equations --------------------------------------------

  lemma EarlierLabels(actions: seq<ModelAction>, k: nat)
    requires LabelsResolved(actions) && k < |actions|
    ensures SetOf(actions[k].dependsOn) <= SetOf(Steps(actions)[..k]) <= SetOf(Steps(actions))
  {
  }

  /** The semantic key of the action at position k, with every label resolved. */
  function KeyAt(digest: Digest, taskId: string, actions: seq<ModelAction>, k: nat): SemanticKey
    requires LabelsResolved(actions) && k < |actions|
  {
    EarlierLabels(actions, k);
    KeyOf(actions[k], LabelIds(digest, taskId, actions))
  }

  lemma ResolveAgrees(a: ModelAction, ids: LabelMap, ids': LabelMap)
    requires SetOf(a.dependsOn) <= ids.Keys && SetOf(a.dependsOn) <= ids'.Keys
    requires forall l :: l in a.dependsOn ==> ids[l] == ids'[l]
    ensures Resolve(ids, a.dependsOn) == Resolve(ids', a.dependsOn)
  {
  }

  /** The last step does not touch the ids of labels that an earlier step can use. */
  lemma EarlierIdsStay(digest: Digest, taskId: string, actions: seq<ModelAction>, k: nat)
    requires LabelsResolved(actions) && Distinct(Steps(actions)) && k < |actions|
    requires LabelsResolved(actions[..|actions| - 1])
    ensures var before := LabelIds(digest, taskId, actions[..|actions| - 1]);
            SetOf(actions[k].dependsOn) <= before.Keys
            && forall l :: l in actions[k].dependsOn ==> LabelIds(digest, taskId, actions)[l] == before[l]
  {
    var n := |actions| - 1;
    PrefixResolved(actions, n);
    forall l | l in SetOf(actions[k].dependsOn) ensures l in Steps(actions[..n]) && l != Steps(actions)[n] {
      var j :| 0 <= j < k && Steps(actions)[..k][j] == l;
      assert Steps(actions)[j] == l && Steps(actions)[..n][j] == l;
    }
    assert forall l :: l in actions[k].dependsOn ==> l in SetOf(actions[k].dependsOn);
  }

  /** The id at position k is in the dictionary under its label, and everything the action needs is too. */
  predicate IdAt(digest: Digest, taskId: string, actions: seq<ModelAction>, k: nat)
    requires LabelsResolved(actions) && k < |actions|
  {
    var ids := LabelIds(digest, taskId, actions);
    && actions[k].stepId in ids
    && ids[actions[k].stepId] == digest(ActionKey(taskId, KeyAt(digest, taskId, actions, k)))
    && SetOf(actions[k].dependsOn) <= ids.Keys
    && ProjectActions(digest, taskId, actions)[k] == ProjectAction(digest, taskId, actions[k], ids)
  }

  lemma IdOfLast(digest: Digest, taskId: string, actions: seq<ModelAction>)
    requires LabelsResolved(actions) && Distinct(Steps(actions)) && actions != []
    ensures IdAt(digest, taskId, actions, |actions| - 1)
  {
    var n := |actions| - 1;
    PrefixResolved(actions, n);
    EarlierLabels(actions, n);
    EarlierIdsStay(digest, taskId, actions, n);
    ResolveAgrees(actions[n], LabelIds(digest, taskId, actions[..n]), LabelIds(digest, taskId, actions));
  }

  lemma IdOfEarlier(digest: Digest, taskId: string, actions: seq<ModelAction>, k: nat)
    requires LabelsResolved(actions) && Distinct(Steps(actions)) && k < |actions| - 1
    requires LabelsResolved(actions[..|actions| - 1]) && IdAt(digest, taskId, actions[..|actions| - 1], k)
    ensures IdAt(digest, taskId, actions, k)
  {
    var n := |actions| - 1;
    EarlierLabels(actions, k);
    EarlierIdsStay(digest, taskId, actions, k);
    ResolveAgrees(actions[k], LabelIds(digest, taskId, actions[..n]), LabelIds(digest, taskId, actions));
    assert Steps(actions)[k] != Steps(actions)[n];
  }

  /** Later entries never overwrite earlier ones, so each label keeps the id its action was given. */
  lemma {:induction false} LabelIdAt(digest: Digest, taskId: string, actions: seq<ModelAction>, k: nat)
    requires LabelsResolved(actions) && Distinct(Steps(actions)) && k < |actions|
    ensures IdAt(digest, taskId, actions, k)
    decreases |actions|
  {
    var n := |actions| - 1;
    if k < n {
      PrefixResolved(actions, n);
      assert forall i :: 0 <= i < n ==> Steps(actions[..n])[i] == Steps(actions)[i];
      LabelIdAt(digest, taskId, actions[..n], k);
      IdOfEarlier(digest, taskId, actions, k);
    } else {
      IdOfLast(digest, taskId, actions);
    }
  }

  // ---- injectivity ------------------------------------------------------------------------------

  /** No two different action keys of the draft share a digest. */
  ghost predicate ActionKeysCollisionFree(digest: Digest, taskId: string, actions: seq<ModelAction>)
    requires LabelsResolved(actions)
  {
    forall i, j :: 0 <= i < |actions| && 0 <= j < |actions|
      && digest(ActionKey(taskId, KeyAt(digest, taskId, actions, i))) == digest(ActionKey(taskId, KeyAt(digest, taskId, actions, j)))
      ==> KeyAt(digest, taskId, actions, i) == KeyAt(digest, taskId, actions, j)
  }

  ghost predicate InjectiveOn(ids: LabelMap, labels: set<string>) {
    labels <= ids.Keys && forall a, b :: a in labels && b in labels && ids[a] == ids[b] ==> a == b
  }

  /** Under an injective dictionary, equal resolved dependencies come from equal labels. */
  lemma ResolveInjective(ids: LabelMap, labels: set<string>, a: seq<string>, b: seq<string>)
    requires InjectiveOn(ids, labels) && SetOf(a) <= labels && SetOf(b) <= labels
    requires Distinct(a) && Distinct(b)
    requires multiset(Resolve(ids, a)) == multiset(Resolve(ids, b))
    ensures multiset(a) == multiset(b)
  {
    ResolveIncluded(ids, labels, a, b);
    ResolveIncluded(ids, labels, b, a);
    assert SetOf(a) == SetOf(b);
    SameElementsSameMultiset(a, b);
  }

  lemma ResolveIncluded(ids: LabelMap, labels: set<string>, a: seq<string>, b: seq<string>)
    requires InjectiveOn(ids, labels) && SetOf(a) <= labels && SetOf(b) <= labels
    requires multiset(Resolve(ids, a)) == multiset(Resolve(ids, b))
    ensures SetOf(a) <= SetOf(b)
  {
    forall l | l in SetOf(a) ensures l in SetOf(b) {
      var i :| 0 <= i < |a| && a[i] == l;
      assert Resolve(ids, a)[i] in multiset(Resolve(ids, a));
      assert Resolve(ids, a)[i] in Resolve(ids, b);
      var j :| 0 <= j < |b| && Resolve(ids, b)[j] == Resolve(ids, a)[i];
      assert b[j] in SetOf(b) && ids[b[j]] == ids[a[i]];
    }
  }

  /** Distinct steps, each depending on earlier steps without repetition. */
  predicate ResolvableSteps(actions: seq<ModelAction>) {
    && LabelsResolved(actions)
    && Distinct(Steps(actions))
    && forall k :: 0 <= k < |actions| ==> Distinct(actions[k].dependsOn)
  }

  /** No two steps do the same thing after the same steps. */
  predicate ProperSteps(actions: seq<ModelAction>) {
    && ResolvableSteps(actions)
    && forall j, k :: 0 <= j < k < |actions| ==> ModelFingerprintOf(actions[j]) != ModelFingerprintOf(actions[k])
  }

  lemma ExtendInjective(ids: LabelMap, labels: set<string>, x: string)
    requires InjectiveOn(ids, labels) && x in ids && forall a :: a in labels ==> ids[a] != ids[x]
    ensures InjectiveOn(ids, labels + {x})
  {
  }

  /** Strong induction along the draft: the first k labels get different ids. */
  lemma {:induction false} LabelsInjective(digest: Digest, taskId: string, actions: seq<ModelAction>, k: nat)
    requires ProperSteps(actions) && ActionKeysCollisionFree(digest, taskId, actions) && k <= |actions|
    ensures InjectiveOn(LabelIds(digest, taskId, actions), SetOf(Steps(actions)[..k]))
  {
    if k > 0 {
      LabelsInjective(digest, taskId, actions, k - 1);
      NextLabelFresh(digest, taskId, actions, k - 1);
    }
  }

  lemma NextLabelFresh(digest: Digest, taskId: string, actions: seq<ModelAction>, k: nat)
    requires ProperSteps(actions) && ActionKeysCollisionFree(digest, taskId, actions) && k < |actions|
    requires InjectiveOn(LabelIds(digest, taskId, actions), SetOf(Steps(actions)[..k]))
    ensures InjectiveOn(LabelIds(digest, taskId, actions), SetOf(Steps(actions)[..k + 1]))
  {
    var ids, steps := LabelIds(digest, taskId, actions), Steps(actions);
    assert steps[k] in SetOf(steps);
    forall a | a in SetOf(steps[..k]) ensures a in ids && ids[a] != ids[steps[k]] {
      var i := LabelBefore(steps, k, a);
      LabelsApart(digest, taskId, actions, i, k);
    }
    ExtendInjective(ids, SetOf(steps[..k]), steps[k]);
    PrefixNext(steps, k);
  }

  lemma LabelBefore(steps: seq<string>, k: nat, a: string) returns (i: nat)
    requires k <= |steps| && a in SetOf(steps[..k])
    ensures i < k && steps[i] == a
  {
    i :| 0 <= i < k && steps[..k][i] == a;
  }

  lemma LabelsApart(digest: Digest, taskId: string, actions: seq<ModelAction>, i: nat, k: nat)
    requires ProperSteps(actions) && ActionKeysCollisionFree(digest, taskId, actions) && i < k < |actions|
    requires InjectiveOn(LabelIds(digest, taskId, actions), SetOf(Steps(actions)[..k]))
    requires actions[i].stepId in LabelIds(digest, taskId, actions) && actions[k].stepId in LabelIds(digest, taskId, actions)
    ensures LabelIds(digest, taskId, actions)[actions[i].stepId] != LabelIds(digest, taskId, actions)[actions[k].stepId]
  {
    var ids := LabelIds(digest, taskId, actions);
    if ids[actions[i].stepId] == ids[actions[k].stepId] {
      SameIdSameFingerprint(digest, taskId, actions, i, k);
    }
  }

  lemma SameIdSameFingerprint(digest: Digest, taskId: string, actions: seq<ModelAction>, i: nat, k: nat)
    requires ResolvableSteps(actions) && ActionKeysCollisionFree(digest, taskId, actions) && i < k < |actions|
    requires InjectiveOn(LabelIds(digest, taskId, actions), SetOf(Steps(actions)[..k]))
    requires actions[i].stepId in LabelIds(digest, taskId, actions) && actions[k].stepId in LabelIds(digest, taskId, actions)
    requires LabelIds(digest, taskId, actions)[actions[i].stepId] == LabelIds(digest, taskId, actions)[actions[k].stepId]
    ensures ModelFingerprintOf(actions[i]) == ModelFingerprintOf(actions[k])
  {
    LabelIdAt(digest, taskId, actions, i);
    LabelIdAt(digest, taskId, actions, k);
    assert KeyAt(digest, taskId, actions, i) == KeyAt(digest, taskId, actions, k);
    EarlierLabels(actions, i);
    EarlierLabels(actions, k);
    var steps := Steps(actions);
    assert steps[..i] == steps[..k][..i];
    assert SetOf(steps[..i]) <= SetOf(steps[..k]);
    ResolveInjective(LabelIds(digest, taskId, actions), SetOf(steps[..k]), actions[i].dependsOn, actions[k].dependsOn);
  }

  lemma StepIdsInjective(digest: Digest, taskId: string, actions: seq<ModelAction>)
    requires ProperSteps(actions) && ActionKeysCollisionFree(digest, taskId, actions)
    ensures InjectiveOn(LabelIds(digest, taskId, actions), SetOf(Steps(actions)))
  {
    LabelsInjective(digest, taskId, actions, |actions|);
    assert Steps(actions)[..|actions|] == Steps(actions);
  }

  /** The compiled actions have distinct ids exactly when no two keys of the draft collide. */
  lemma DistinctIdsIffCollisionFree(digest: Digest, taskId: string, actions: seq<ModelAction>)
    requires ProperSteps(actions)
    ensures Distinct(ActionIds(ProjectActions(digest, taskId, actions))) <==> ActionKeysCollisionFree(digest, taskId, actions)
  {
    var projected, ids := ProjectActions(digest, taskId, actions), LabelIds(digest, taskId, actions);
    forall k | 0 <= k < |actions|
      ensures ActionIds(projected)[k] == digest(ActionKey(taskId, KeyAt(digest, taskId, actions, k)))
      ensures actions[k].stepId in ids && ActionIds(projected)[k] == ids[actions[k].stepId]
    {
      LabelIdAt(digest, taskId, actions, k);
    }
    if ActionKeysCollisionFree(digest, taskId, actions) {
      StepIdsInjective(digest, taskId, actions);
      forall i, j | 0 <= i < j < |actions| ensures ActionIds(projected)[i] != ActionIds(projected)[j] {
        assert Steps(actions)[i] in SetOf(Steps(actions)) && Steps(actions)[j] in SetOf(Steps(actions));
        assert Steps(actions)[i] != Steps(actions)[j];
      }
    }
    if Distinct(ActionIds(projected)) {
      forall i, j | 0 <= i < |actions| && 0 <= j < |actions| && ActionIds(projected)[i] == ActionIds(projected)[j]
        ensures KeyAt(digest, taskId, actions, i) == KeyAt(digest, taskId, actions, j)
      {
        assert i == j;
      }
    }
  }

  // ---- validity is preserved --------------------------------------------------------------------

  /** Everything a checked draft knows about its steps. */
  predicate CheckedSteps(actions: seq<ModelAction>, bundle: Bundle) {
    StepsFine(actions, bundle) && forall k :: 0 <= k < |actions| ==> actions[k].timeout >= 1
  }

  lemma CheckedStepsProper(actions: seq<ModelAction>, bundle: Bundle)
    requires StepsFine(actions, bundle)
    ensures ProperSteps(actions)
  {
    var steps := Steps(actions);
    forall k | 0 <= k < |actions|
      ensures SetOf(actions[k].dependsOn) <= SetOf(steps[..k]) && Distinct(actions[k].dependsOn)
      ensures steps[k] !in SetOf(steps[..k])
    {
      assert StepFine(actions[k], SetOf(steps[..k]), bundle);
    }
    forall i, j | 0 <= i < j < |actions| ensures steps[i] != steps[j] {
      assert steps[i] in steps[..j];
    }
  }

  lemma ResolveDistinct(ids: LabelMap, labels: set<string>, a: seq<string>)
    requires InjectiveOn(ids, labels) && SetOf(a) <= labels && Distinct(a)
    ensures Distinct(Resolve(ids, a))
  {
    forall i, j | 0 <= i < j < |a| ensures Resolve(ids, a)[i] != Resolve(ids, a)[j] {
      assert a[i] in SetOf(a) && a[j] in SetOf(a);
    }
  }

  /** The compiled list keeps dependencies first. */
  lemma ProjectedListedInOrder(digest: Digest, taskId: string, actions: seq<ModelAction>)
    requires ProperSteps(actions) && ActionKeysCollisionFree(digest, taskId, actions)
    ensures ListedInOrder(ProjectActions(digest, taskId, actions))
  {
    var projected, ids := ProjectActions(digest, taskId, actions), LabelIds(digest, taskId, actions);
    DistinctIdsIffCollisionFree(digest, taskId, actions);
    StepIdsInjective(digest, taskId, actions);
    forall k | 0 <= k < |actions|
      ensures Distinct(projected[k].dependencies)
      ensures SetOf(projected[k].dependencies) <= SetOf(ActionIds(projected)[..k])
    {
      LabelIdAt(digest, taskId, actions, k);
      EarlierLabels(actions, k);
      ResolveDistinct(ids, SetOf(Steps(actions)), actions[k].dependsOn);
      forall d | d in projected[k].dependencies ensures d in ActionIds(projected)[..k] {
        var i :| 0 <= i < |actions[k].dependsOn| && projected[k].dependencies[i] == d;
        assert actions[k].dependsOn[i] in SetOf(actions[k].dependsOn);
        var j :| 0 <= j < k && Steps(actions)[..k][j] == actions[k].dependsOn[i];
        LabelIdAt(digest, taskId, actions, j);
        assert ActionIds(projected)[..k][j] == d;
      }
    }
  }

  lemma ProjectedActionsFine(digest: Digest, taskId: string, actions: seq<ModelAction>, bundle: Bundle)
    requires CheckedSteps(actions, bundle) && LabelsResolved(actions) && ActionKeysCollisionFree(digest, taskId, actions)
    ensures ActionsFine(ProjectActions(digest, taskId, actions), bundle)
  {
    CheckedStepsProper(actions, bundle);
    var projected := ProjectActions(digest, taskId, actions);
    forall k | 0 <= k < |actions| ensures ActionCheck(projected, k, bundle).Ok? {
      ProjectedContract(digest, taskId, actions, k, bundle);
      forall j | 0 <= j < k ensures FingerprintOf(projected[j]) != FingerprintOf(projected[k]) {
        ProjectedFingerprintsDiffer(digest, taskId, actions, j, k);
      }
    }
  }

  lemma ProjectedContract(digest: Digest, taskId: string, actions: seq<ModelAction>, k: nat, bundle: Bundle)
    requires CheckedSteps(actions, bundle) && ProperSteps(actions) && k < |actions|
    ensures var a := ProjectActions(digest, taskId, actions)[k];
            a.capabilityId in bundle.capabilities
            && ContractCheck(a, bundle.capabilities[a.capabilityId], bundle.resourceTypes).Ok?
  {
    LabelIdAt(digest, taskId, actions, k);
    assert StepFine(actions[k], SetOf(Steps(actions)[..k]), bundle);
  }

  lemma ProjectedFingerprintsDiffer(digest: Digest, taskId: string, actions: seq<ModelAction>, j: nat, k: nat)
    requires ProperSteps(actions) && ActionKeysCollisionFree(digest, taskId, actions) && j < k < |actions|
    ensures FingerprintOf(ProjectActions(digest, taskId, actions)[j]) != FingerprintOf(ProjectActions(digest, taskId, actions)[k])
  {
    LabelIdAt(digest, taskId, actions, j);
    LabelIdAt(digest, taskId, actions, k);
    EarlierLabels(actions, j);
    EarlierLabels(actions, k);
    StepIdsInjective(digest, taskId, actions);
    var ids := LabelIds(digest, taskId, actions);
    if multiset(Resolve(ids, actions[j].dependsOn)) == multiset(Resolve(ids, actions[k].dependsOn)) {
      ResolveInjective(ids, SetOf(Steps(actions)), actions[j].dependsOn, actions[k].dependsOn);
      assert ModelFingerprintOf(actions[j]) != ModelFingerprintOf(actions[k]);
    }
  }

  /** The id of an action is the id of its label. */
  lemma ProjectedByLabel(digest: Digest, taskId: string, actions: seq<ModelAction>, step: string)
    requires ProperSteps(actions) && ActionKeysCollisionFree(digest, taskId, actions) && step in Steps(actions)
    ensures step in LabelIds(digest, taskId, actions)
    ensures var id := LabelIds(digest, taskId, actions)[step];
            var byId := ById(ProjectActions(digest, taskId, actions));
            id in byId && byId[id].capabilityId == actions[FirstStep(actions, step)].capabilityId
  {
    var projected, k := ProjectActions(digest, taskId, actions), FirstStep(actions, step);
    LabelIdAt(digest, taskId, actions, k);
    DistinctIdsIffCollisionFree(digest, taskId, actions);
    UniqueById(projected, projected[k]);
  }

  lemma ProjectedCriteriaFine(digest: Digest, taskId: string, d: ModelDraft, bundle: Bundle)
    requires ProperSteps(d.actions) && ActionKeysCollisionFree(digest, taskId, d.actions)
    requires ModelCriteriaFine(d, bundle) && CriteriaResolved(d)
    ensures CriteriaFine(Projected(digest, taskId, d), bundle)
  {
    var plan, ids := Projected(digest, taskId, d), LabelIds(digest, taskId, d.actions);
    StepIdsInjective(digest, taskId, d.actions);
    forall i | 0 <= i < |d.criteria| ensures CriterionDeclared(plan.criteria[i], ById(plan.actions), bundle) {
      assert ModelCriterionDeclared(d.criteria[i], d.actions, bundle);
      ProjectedByLabel(digest, taskId, d.actions, d.criteria[i].stepId);
    }
    forall i, j | 0 <= i < j < |d.criteria| ensures Pairs(plan.criteria)[i] != Pairs(plan.criteria)[j] {
      assert d.criteria[i].stepId in SetOf(Steps(d.actions)) && d.criteria[j].stepId in SetOf(Steps(d.actions));
      assert d.criteria[i] != d.criteria[j];
    }
    ProjectedCoverage(digest, taskId, d);
  }

  lemma ProjectedCoverage(digest: Digest, taskId: string, d: ModelDraft)
    requires ProperSteps(d.actions) && CriteriaResolved(d)
    requires CoveredSteps(d.criteria) == SetOf(Steps(d.actions))
    ensures CoveredIds(Projected(digest, taskId, d).criteria) == SetOf(ActionIds(Projected(digest, taskId, d).actions))
  {
    var plan, ids := Projected(digest, taskId, d), LabelIds(digest, taskId, d.actions);
    forall k | 0 <= k < |d.actions|
      ensures Steps(d.actions)[k] in ids && ActionIds(plan.actions)[k] == ids[Steps(d.actions)[k]]
    {
      LabelIdAt(digest, taskId, d.actions, k);
    }
    var actionIds := ActionIds(plan.actions);
    forall i | 0 <= i < |d.criteria| ensures plan.criteria[i].actionId in actionIds {
      var k := FirstStep(d.actions, d.criteria[i].stepId);
      assert Steps(d.actions)[k] == d.criteria[i].stepId;
      assert actionIds[k] == plan.criteria[i].actionId;
    }
    forall k | 0 <= k < |d.actions| ensures actionIds[k] in CoveredIds(plan.criteria) {
      var i := CriterionOfStep(d, k);
      assert plan.criteria[i].actionId == actionIds[k];
    }
  }

  lemma CriterionOfStep(d: ModelDraft, k: nat) returns (i: nat)
    requires CoveredSteps(d.criteria) == SetOf(Steps(d.actions)) && k < |d.actions|
    ensures i < |d.criteria| && d.criteria[i].stepId == Steps(d.actions)[k]
  {
    assert Steps(d.actions)[k] in SetOf(Steps(d.actions));
    i :| 0 <= i < |d.criteria| && d.criteria[i].stepId == Steps(d.actions)[k];
  }

  lemma {:induction false} ProjectedArguments(digest: Digest, taskId: string, actions: seq<ModelAction>)
    requires LabelsResolved(actions)
    ensures Total(ArgumentCount, ProjectActions(digest, taskId, actions)) == Total(ModelArgumentCount, actions)
  {
    if actions != [] {
      var n := |actions| - 1;
      PrefixResolved(actions, n);
      ProjectedArguments(digest, taskId, actions[..n]);
      var projected := ProjectActions(digest, taskId, actions);
      assert projected[..n] == ProjectActions(digest, taskId, actions[..n]);
    }
  }

  /** No two different criterion texts of the draft share a digest. */
  ghost predicate CriterionKeysCollisionFree(digest: Digest, taskId: string, d: ModelDraft)
    requires LabelsResolved(d.actions) && CriteriaResolved(d)
  {
    var criteria := Projected(digest, taskId, d).criteria;
    forall i, j :: 0 <= i < |criteria| && 0 <= j < |criteria| && criteria[i].id == criteria[j].id
      ==> CriterionKey(taskId, criteria[i].actionId, criteria[i].code) == CriterionKey(taskId, criteria[j].actionId, criteria[j].code)
  }

  lemma DistinctCriteriaIffCollisionFree(digest: Digest, taskId: string, d: ModelDraft)
    requires ProperSteps(d.actions) && CriteriaResolved(d) && Distinct(d.criteria)
    requires ActionKeysCollisionFree(digest, taskId, d.actions)
    ensures Distinct(CriterionIds(Projected(digest, taskId, d).criteria)) <==> CriterionKeysCollisionFree(digest, taskId, d)
  {
    var plan := Projected(digest, taskId, d);
    StepIdsInjective(digest, taskId, d.actions);
    var ids := CriterionIds(plan.criteria);
    if CriterionKeysCollisionFree(digest, taskId, d) {
      forall i, j | 0 <= i < j < |ids| ensures ids[i] != ids[j] {
        assert d.criteria[i].stepId in SetOf(Steps(d.actions)) && d.criteria[j].stepId in SetOf(Steps(d.actions));
        assert d.criteria[i] != d.criteria[j];
      }
    }
    if Distinct(ids) {
      forall i, j | 0 <= i < |ids| && 0 <= j < |ids| && plan.criteria[i].id == plan.criteria[j].id ensures i == j {
        assert ids[i] == ids[j];
      }
    }
  }

  /** The validator's limits are no narrower than what drafting lets through; its edge limit only
      has to hold the n(n-1)/2 edges that an acyclic plan of n actions can have. */
  predicate SettingsCover(ds: DraftSettings, vs: ValidationSettings) {
    && 1 <= ds.maxActions <= vs.maxActions
    && ds.maxCriteria <= vs.maxCriteria
    && ds.maxArguments <= vs.maxArguments
    && ds.maxActions * (ds.maxActions - 1) <= 2 * vs.maxEdges
  }

  lemma TriangleMonotone(n: int, m: int)
    requires 1 <= n <= m
    ensures n * (n - 1) <= m * (m - 1)
  {
    assert m * (m - 1) - n * (n - 1) == (m - n) * (m + n - 1);
  }

  lemma ProjectedCounts(digest: Digest, taskId: string, d: ModelDraft, intent: string, bundle: Bundle,
                        ds: DraftSettings, vs: ValidationSettings)
    requires ModelAccepted(d, intent, bundle, ds) && SettingsCover(ds, vs)
    requires LabelsResolved(d.actions) && CriteriaResolved(d)
    requires ListedInOrder(ProjectActions(digest, taskId, d.actions))
    ensures CountsWithin(Projected(digest, taskId, d), vs)
       <==> Total(TimeoutOf, Projected(digest, taskId, d).actions) <= vs.maxTotalTimeout
  {
    DraftSizes(d, intent, bundle, ds, vs);
    EdgesCovered(ProjectActions(digest, taskId, d.actions), ds.maxActions, vs.maxEdges);
    PlanCounts(digest, taskId, d, vs);
  }

  lemma PlanCounts(digest: Digest, taskId: string, d: ModelDraft, vs: ValidationSettings)
    requires LabelsResolved(d.actions) && CriteriaResolved(d)
    requires 0 < |d.actions| <= vs.maxActions && 0 < |d.criteria| <= vs.maxCriteria
    requires Total(ModelArgumentCount, d.actions) <= vs.maxArguments
    requires Total(DependencyCount, ProjectActions(digest, taskId, d.actions)) <= vs.maxEdges
    ensures CountsWithin(Projected(digest, taskId, d), vs)
       <==> Total(TimeoutOf, Projected(digest, taskId, d).actions) <= vs.maxTotalTimeout
  {
    ProjectedArguments(digest, taskId, d.actions);
    CountsOf(Projected(digest, taskId, d), vs);
  }

  lemma DraftSizes(d: ModelDraft, intent: string, bundle: Bundle, ds: DraftSettings, vs: ValidationSettings)
    requires ModelAccepted(d, intent, bundle, ds) && SettingsCover(ds, vs)
    ensures 0 < |d.actions| <= vs.maxActions && 0 < |d.criteria| <= vs.maxCriteria
    ensures Total(ModelArgumentCount, d.actions) <= vs.maxArguments
  {
  }

  lemma CountsOf(plan: Plan, vs: ValidationSettings)
    requires 0 < |plan.actions| <= vs.maxActions && 0 < |plan.criteria| <= vs.maxCriteria
    requires Total(ArgumentCount, plan.actions) <= vs.maxArguments && Total(DependencyCount, plan.actions) <= vs.maxEdges
    ensures CountsWithin(plan, vs) <==> Total(TimeoutOf, plan.actions) <= vs.maxTotalTimeout
  {
  }

  lemma EdgesCovered(actions: seq<PlanAction>, most: int, edges: int)
    requires ListedInOrder(actions) && 1 <= |actions| <= most && most * (most - 1) <= 2 * edges
    ensures Total(DependencyCount, actions) <= edges
  {
    ListedEdgeBound(actions);
    TriangleMonotone(|actions|, most);
  }

  /** The draft's texts do not collide under this digest. */
  ghost predicate CollisionFree(digest: Digest, taskId: string, d: ModelDraft)
    requires LabelsResolved(d.actions) && CriteriaResolved(d)
  {
    ActionKeysCollisionFree(digest, taskId, d.actions) && CriterionKeysCollisionFree(digest, taskId, d)
  }

  /** The two limits that drafting itself does not check. */
  ghost predicate TimeoutsWithin(plan: Plan, vs: ValidationSettings) {
    Total(TimeoutOf, plan.actions) <= vs.maxTotalTimeout && CriticalPathWithin(plan, vs)
  }

  lemma ProjectedShape(digest: Digest, taskId: string, d: ModelDraft)
    requires ProperSteps(d.actions) && CriteriaResolved(d) && Distinct(d.criteria)
    requires ActionKeysCollisionFree(digest, taskId, d.actions)
    ensures ListedInOrder(ProjectActions(digest, taskId, d.actions))
    ensures Ordered(Projected(digest, taskId, d))
    ensures IdsDistinct(Projected(digest, taskId, d)) <==> CriterionKeysCollisionFree(digest, taskId, d)
  {
    DistinctCriteriaIffCollisionFree(digest, taskId, d);
    ProjectedListedInOrder(digest, taskId, d.actions);
    ListedIsExtension(ProjectActions(digest, taskId, d.actions));
    ListedKnown(ProjectActions(digest, taskId, d.actions));
  }

  lemma ProjectedContent(digest: Digest, taskId: string, d: ModelDraft, intent: string, bundle: Bundle, ds: DraftSettings)
    requires ModelAccepted(d, intent, bundle, ds) && CriteriaResolved(d)
    requires ProperSteps(d.actions) && ActionKeysCollisionFree(digest, taskId, d.actions)
    ensures ActionsFine(Projected(digest, taskId, d).actions, bundle)
    ensures CriteriaFine(Projected(digest, taskId, d), bundle)
  {
    ProjectedActionsFine(digest, taskId, d.actions, bundle);
    ProjectedCriteriaFine(digest, taskId, d, bundle);
  }

  /** Main result, for all settings: whatever drafting accepts, the independent validator accepts after
      projection, exactly unless digests collide or a budget of the validator is exceeded. */
  lemma ProjectionPreservesValidity(digest: Digest, taskId: string, d: ModelDraft, intent: string, bundle: Bundle,
                                    ds: DraftSettings, vs: ValidationSettings)
    requires ModelAccepted(d, intent, bundle, ds)
    ensures LabelsResolved(d.actions) && CriteriaResolved(d)
    ensures Accepted(Projected(digest, taskId, d), bundle, vs)
       <==> CollisionFree(digest, taskId, d) && WithinBudget(Projected(digest, taskId, d), vs)
  {
    AcceptedResolves(d, intent, bundle, ds);
    CheckedStepsProper(d.actions, bundle);
    DistinctIdsIffCollisionFree(digest, taskId, d.actions);
    if ActionKeysCollisionFree(digest, taskId, d.actions) {
      ProjectedShape(digest, taskId, d);
      ProjectedContent(digest, taskId, d, intent, bundle, ds);
    }
  }

  /** With budgets no narrower than drafting's own, only the total and the critical-path timeout are left. */
  lemma OnlyTimeoutsReject(digest: Digest, taskId: string, d: ModelDraft, intent: string, bundle: Bundle,
                           ds: DraftSettings, vs: ValidationSettings)
    requires ModelAccepted(d, intent, bundle, ds) && SettingsCover(ds, vs)
    ensures LabelsResolved(d.actions) && CriteriaResolved(d)
    ensures Accepted(Projected(digest, taskId, d), bundle, vs)
       <==> CollisionFree(digest, taskId, d) && TimeoutsWithin(Projected(digest, taskId, d), vs)
  {
    ProjectionPreservesValidity(digest, taskId, d, intent, bundle, ds, vs);
    if ActionKeysCollisionFree(digest, taskId, d.actions) {
      CheckedStepsProper(d.actions, bundle);
      ProjectedListedInOrder(digest, taskId, d.actions);
      ProjectedCounts(digest, taskId, d, intent, bundle, ds, vs);
    }
  }

  /** With both default settings the edge budget of 32 is never what rejects a compiled draft. */
  lemma DefaultProjection(digest: Digest, taskId: string, d: ModelDraft, intent: string, bundle: Bundle)
    requires ModelAccepted(d, intent, bundle, DEFAULT_DRAFT_SETTINGS)
    ensures LabelsResolved(d.actions) && CriteriaResolved(d)
    ensures Accepted(Projected(digest, taskId, d), bundle, DEFAULT_SETTINGS)
       <==> CollisionFree(digest, taskId, d) && TimeoutsWithin(Projected(digest, taskId, d), DEFAULT_SETTINGS)
  {
    OnlyTimeoutsReject(digest, taskId, d, intent, bundle, DEFAULT_DRAFT_SETTINGS, DEFAULT_SETTINGS);
  }
}
