/** Concrete inputs for what runs can and cannot achieve: drafts of up to four file actions. */
module Scenarios {
  import opened Collections
  import opened PlanModel
  import opened TopologicalOrder
  import opened CriticalPath
  import opened PlanValidation
  import opened PlanDrafting
  import opened ProjectionTheorems
  import opened Verification
  import opened Dispatch
  import opened Workflow
  import opened WorkflowSafety
  import opened WorkflowResponse
  import opened WorkflowRuns
  import opened WorkflowLiveness

  const TASK := "tsk_00112233445566778899aabbccddeeff"
  const THREAD := "thr_00112233445566778899aabbccddeeff"
  const INTENT := "modify_project"

  /** Names of different lengths. */
  function StepName(i: nat): string {
    if i == 0 then "step_copy" else if i == 1 then "step_rename" else if i == 2 then "step_archive" else "step_compress"
  }

  function CapabilityName(i: nat): string {
    if i == 0 then "files.copy" else if i == 1 then "files.rename" else if i == 2 then "files.archive" else "files.compress"
  }

  function Code(i: nat): string {
    "check_" + seq(i + 1, _ => 'a')
  }

  const CODES := set i | 0 <= i < 8 :: Code(i)
  const CAPABILITY := Capability("1.0.0", map[], CODES, 600)
  const BUNDLE := Bundle(map["files.copy" := CAPABILITY, "files.rename" := CAPABILITY, "files.archive" := CAPABILITY,
                             "files.compress" := CAPABILITY], map[])

  /** Tells the texts of these drafts apart. */
  function SmallDigest(): Digest {
    (k: StableKey) => match k
      case ActionKey(_, key) => |key.capabilityId|
      case CriterionKey(_, actionId, code) => 100 * |code| + actionId
  }

  /** Default settings, and verification configured with this many revisions. */
  function EnvOf(maxRevision: nat): Env {
    Env(Identity(TASK, THREAD, "actor_main", "dev_desktop"), INTENT, SmallDigest(), DEFAULT_DRAFT_SETTINGS, DEFAULT_SETTINGS, 5,
        maxRevision)
  }

  function FileStep(i: nat): ModelAction {
    ModelAction(StepName(i), CapabilityName(i), "1.0.0", [], [], 60)
  }

  /** The first k criteria check the first step; each other step has one. */
  function FileCriterion(k: nat, i: nat): ModelCriterion {
    if i < k then ModelCriterion(StepName(0), Code(i)) else ModelCriterion(StepName(i - k + 1), Code(0))
  }

  function FilesDraft(n: nat, k: nat): ModelDraft
    requires 1 <= n <= 4 && 1 <= k <= 8
  {
    ModelDraft(INTENT, [], seq(n, i requires 0 <= i => FileStep(i)), seq(k + n - 1, i requires 0 <= i => FileCriterion(k, i)), [])
  }

  // ---- the manifest is one the code accepts ---------------------------------------------------------------------

  lemma CodesAreFew()
    ensures 1 <= |CODES| <= 8
  {
    var codes := seq(8, i requires 0 <= i => Code(i));
    forall i | 0 <= i < 8 ensures Code(i) in codes { assert codes[i] == Code(i); }
    assert CODES == SetOf(codes);
    DistinctCardinality(codes);
    assert Code(0) in CODES;
  }

  lemma BundleIsFine()
    ensures BundleFine(BUNDLE)
  {
    CodesAreFew();
    assert CapabilityFine(CAPABILITY);
    var ids := ["files.copy", "files.rename", "files.archive", "files.compress"];
    assert SetOf(ids) == BUNDLE.capabilities.Keys;
    DistinctCardinality(ids);
    assert "files.copy" in BUNDLE.capabilities.Keys;
  }

  // ---- planning accepts the drafts ------------------------------------------------------------------------------

  lemma NamesDiffer(i: nat, j: nat)
    requires i < j < 4
    ensures StepName(i) != StepName(j) && |CapabilityName(i)| != |CapabilityName(j)|
  {
    assert |StepName(i)| != |StepName(j)|;
  }

  lemma StepsAccepted(n: nat, k: nat)
    requires 1 <= n <= 4 && 1 <= k <= 8
    ensures StepsFine(FilesDraft(n, k).actions, BUNDLE)
  {
    var actions := FilesDraft(n, k).actions;
    assert Names([]) == [];
    forall i | 0 <= i < n ensures StepFine(actions[i], SetOf(Steps(actions)[..i]), BUNDLE) {
      forall j | 0 <= j < i ensures Steps(actions)[..i][j] != actions[i].stepId { NamesDiffer(j, i); }
    }
    forall i, j | 0 <= i < j < n ensures ModelFingerprintOf(actions[i]) != ModelFingerprintOf(actions[j]) {
      NamesDiffer(i, j);
    }
  }

  lemma CriteriaDiffer(k: nat, i: nat, j: nat)
    requires 1 <= k <= 8 && i < j < k + 3
    ensures FileCriterion(k, i) != FileCriterion(k, j)
  {
    if j < k {
      assert |Code(i)| != |Code(j)|;
    } else {
      NamesDiffer(if i < k then 0 else i - k + 1, j - k + 1);
    }
  }

  lemma CriteriaAccepted(n: nat, k: nat)
    requires 1 <= n <= 4 && 1 <= k <= 8
    ensures ModelCriteriaFine(FilesDraft(n, k), BUNDLE)
  {
    var d := FilesDraft(n, k);
    forall i | 0 <= i < |d.criteria| ensures ModelCriterionDeclared(d.criteria[i], d.actions, BUNDLE) {
      var j := if i < k then 0 else i - k + 1;
      assert Steps(d.actions)[j] == d.criteria[i].stepId;
      assert Code(if i < k then i else 0) in CODES;
    }
    forall i, j | 0 <= i < j < |d.criteria| ensures d.criteria[i] != d.criteria[j] {
      CriteriaDiffer(k, i, j);
    }
    StepsCovered(n, k);
  }

  lemma StepsCovered(n: nat, k: nat)
    requires 1 <= n <= 4 && 1 <= k <= 8
    ensures CoveredSteps(FilesDraft(n, k).criteria) == SetOf(Steps(FilesDraft(n, k).actions))
  {
    var d := FilesDraft(n, k);
    var steps := Steps(d.actions);
    forall i | 0 <= i < |d.criteria| ensures d.criteria[i].stepId in steps {
      assert steps[if i < k then 0 else i - k + 1] == d.criteria[i].stepId;
    }
    forall j | 0 <= j < n ensures steps[j] in CoveredSteps(d.criteria) {
      assert d.criteria[if j == 0 then 0 else k + j - 1].stepId == steps[j];
    }
  }

  lemma DraftAccepted(n: nat, k: nat)
    requires 1 <= n <= 4 && 1 <= k <= 8
    ensures ModelAccepted(FilesDraft(n, k), INTENT, BUNDLE, DEFAULT_DRAFT_SETTINGS)
    ensures LabelsResolved(FilesDraft(n, k).actions) && CriteriaResolved(FilesDraft(n, k))
  {
    StepsAccepted(n, k);
    CriteriaAccepted(n, k);
    TotalOf(ModelArgumentCount, FilesDraft(n, k).actions, 0);
    AcceptedResolves(FilesDraft(n, k), INTENT, BUNDLE, DEFAULT_DRAFT_SETTINGS);
  }

  lemma {:induction false} TotalOf<T>(f: T -> int, s: seq<T>, v: int)
    requires forall i :: 0 <= i < |s| ==> f(s[i]) == v
    ensures Total(f, s) == |s| * v
  {
    if s != [] { TotalOf(f, s[..|s| - 1], v); }
  }

  // ---- and the validator accepts their plans --------------------------------------------------------------------------

  function FileAction(i: nat): PlanAction {
    PlanAction(|CapabilityName(i)|, CapabilityName(i), "1.0.0", [], [], 60)
  }

  /** Without dependencies a label is looked up nowhere. */
  lemma FreeAction(i: nat, ids: LabelMap)
    ensures KeyOf(FileStep(i), ids) == SemanticKey(CapabilityName(i), "1.0.0", multiset{}, multiset{}, 60)
    ensures ProjectAction(SmallDigest(), TASK, FileStep(i), ids) == FileAction(i)
  {
    assert Resolve(ids, []) == [];
  }

  lemma ActionAt(n: nat, k: nat, i: nat)
    requires 1 <= n <= 4 && 1 <= k <= 8 && i < n && LabelsResolved(FilesDraft(n, k).actions)
    ensures var d := FilesDraft(n, k);
            && ProjectActions(SmallDigest(), TASK, d.actions)[i] == FileAction(i)
            && StepName(i) in LabelIds(SmallDigest(), TASK, d.actions)
            && LabelIds(SmallDigest(), TASK, d.actions)[StepName(i)] == |CapabilityName(i)|
            && KeyAt(SmallDigest(), TASK, d.actions, i) == SemanticKey(CapabilityName(i), "1.0.0", multiset{}, multiset{}, 60)
  {
    var actions := FilesDraft(n, k).actions;
    DraftAccepted(n, k);
    AcceptedResolves(FilesDraft(n, k), INTENT, BUNDLE, DEFAULT_DRAFT_SETTINGS);
    LabelIdAt(SmallDigest(), TASK, actions, i);
    FreeAction(i, LabelIds(SmallDigest(), TASK, actions));
  }

  function CheckOf(i: nat, code: string): Criterion {
    Criterion(100 * |code| + |CapabilityName(i)|, |CapabilityName(i)|, code)
  }

  function FileCheck(k: nat, i: nat): Criterion {
    if i < k then CheckOf(0, Code(i)) else CheckOf(i - k + 1, Code(0))
  }

  function FileCriteria(n: nat, k: nat): seq<Criterion>
    requires 1 <= n <= 4 && 1 <= k <= 8
  {
    seq(k + n - 1, i requires 0 <= i => FileCheck(k, i))
  }

  lemma CriterionAt(n: nat, k: nat, i: nat)
    requires 1 <= n <= 4 && 1 <= k <= 8 && i < k + n - 1
    requires LabelsResolved(FilesDraft(n, k).actions) && CriteriaResolved(FilesDraft(n, k))
    ensures Projected(SmallDigest(), TASK, FilesDraft(n, k)).criteria[i] == FileCheck(k, i)
  {
    var j := if i < k then 0 else i - k + 1;
    ActionAt(n, k, j);
    CheckAt(LabelIds(SmallDigest(), TASK, FilesDraft(n, k).actions), j, Code(if i < k then i else 0));
  }

  lemma CheckAt(ids: LabelMap, j: nat, code: string)
    requires StepName(j) in ids && ids[StepName(j)] == |CapabilityName(j)|
    ensures ProjectCriterion(SmallDigest(), TASK, ModelCriterion(StepName(j), code), ids) == CheckOf(j, code)
  {
  }

  /** What the drafts compile to. */
  lemma Compiled(n: nat, k: nat)
    requires 1 <= n <= 4 && 1 <= k <= 8 && LabelsResolved(FilesDraft(n, k).actions) && CriteriaResolved(FilesDraft(n, k))
    ensures Projected(SmallDigest(), TASK, FilesDraft(n, k)).actions == seq(n, i requires 0 <= i => FileAction(i))
    ensures Projected(SmallDigest(), TASK, FilesDraft(n, k)).criteria == FileCriteria(n, k)
  {
    var plan := Projected(SmallDigest(), TASK, FilesDraft(n, k));
    forall i | 0 <= i < n ensures plan.actions[i] == FileAction(i) { ActionAt(n, k, i); }
    forall i | 0 <= i < k + n - 1 ensures plan.criteria[i] == FileCheck(k, i) { CriterionAt(n, k, i); }
  }

  lemma ActionKeyAt(n: nat, k: nat, i: nat)
    requires 1 <= n <= 4 && 1 <= k <= 8 && i < n && LabelsResolved(FilesDraft(n, k).actions)
    ensures KeyAt(SmallDigest(), TASK, FilesDraft(n, k).actions, i).capabilityId == CapabilityName(i)
  {
    ActionAt(n, k, i);
  }

  lemma ActionKeysApart(n: nat, k: nat)
    requires 1 <= n <= 4 && 1 <= k <= 8 && LabelsResolved(FilesDraft(n, k).actions)
    ensures ActionKeysCollisionFree(SmallDigest(), TASK, FilesDraft(n, k).actions)
  {
    var actions := FilesDraft(n, k).actions;
    forall i, j | 0 <= i < n && 0 <= j < n
                  && KeyAt(SmallDigest(), TASK, actions, i) != KeyAt(SmallDigest(), TASK, actions, j)
      ensures |KeyAt(SmallDigest(), TASK, actions, i).capabilityId| != |KeyAt(SmallDigest(), TASK, actions, j).capabilityId|
    {
      ActionKeyAt(n, k, i);
      ActionKeyAt(n, k, j);
      if i < j { NamesDiffer(i, j); } else { NamesDiffer(j, i); }
    }
  }

  /** The id of a criterion of these drafts determines its action and code. */
  predicate FromCode(c: Criterion) {
    c.id == 100 * |c.code| + c.actionId && 0 <= c.actionId < 100 && |c.code| >= 7 && c.code == Code(|c.code| - 7)
  }

  lemma IdDetermines(a: Criterion, b: Criterion)
    requires FromCode(a) && FromCode(b) && a.id == b.id
    ensures a.actionId == b.actionId && a.code == b.code
  {
    assert |a.code| == |b.code|;
  }

  lemma CheckFromCode(k: nat, i: nat)
    ensures FromCode(FileCheck(k, i))
  {
  }

  lemma IdsDetermine(criteria: seq<Criterion>)
    requires forall i :: 0 <= i < |criteria| ==> FromCode(criteria[i])
    ensures forall i, j :: 0 <= i < |criteria| && 0 <= j < |criteria| && criteria[i].id == criteria[j].id ==>
              criteria[i].actionId == criteria[j].actionId && criteria[i].code == criteria[j].code
  {
    forall i, j | 0 <= i < |criteria| && 0 <= j < |criteria| && criteria[i].id == criteria[j].id
      ensures criteria[i].actionId == criteria[j].actionId && criteria[i].code == criteria[j].code
    {
      IdDetermines(criteria[i], criteria[j]);
    }
  }

  lemma CriterionKeysApart(n: nat, k: nat)
    requires 1 <= n <= 4 && 1 <= k <= 8 && LabelsResolved(FilesDraft(n, k).actions) && CriteriaResolved(FilesDraft(n, k))
    ensures CriterionKeysCollisionFree(SmallDigest(), TASK, FilesDraft(n, k))
  {
    var criteria := Projected(SmallDigest(), TASK, FilesDraft(n, k)).criteria;
    forall i | 0 <= i < |criteria| ensures FromCode(criteria[i]) {
      CriterionAt(n, k, i);
      CheckFromCode(k, i);
    }
    IdsDetermine(criteria);
  }

  lemma FreeLink(byId: map<Id, PlanAction>, chain: seq<Id>, i: nat)
    requires Chain(byId, chain) && 0 < i < |chain|
    ensures byId[chain[i]].dependencies != []
  {
    assert chain[i - 1] in byId[chain[i]].dependencies;
  }

  /** No chain of actions without dependencies has a second action. */
  lemma ShortChain(actions: seq<PlanAction>, chain: seq<Id>)
    requires (forall a :: a in actions ==> a.dependencies == [] && a.timeout == 60) && Chain(ById(actions), chain)
    ensures Cost(ById(actions), chain) == 60
  {
    var byId, last := ById(actions), |chain| - 1;
    assert byId[chain[last]] in actions;
    if last > 0 { FreeLink(byId, chain, last); }
    assert chain[..0] == [];
  }

  lemma ChainsInTime(plan: Plan)
    requires forall a :: a in plan.actions ==> a.dependencies == [] && a.timeout == 60
    ensures CriticalPathWithin(plan, DEFAULT_SETTINGS)
  {
    forall chain | RootedChain(ById(plan.actions), chain) ensures Cost(ById(plan.actions), chain) <= 900 {
      ShortChain(plan.actions, chain);
    }
  }

  lemma InTime(n: nat, k: nat)
    requires 1 <= n <= 4 && 1 <= k <= 8 && LabelsResolved(FilesDraft(n, k).actions) && CriteriaResolved(FilesDraft(n, k))
    ensures TimeoutsWithin(Projected(SmallDigest(), TASK, FilesDraft(n, k)), DEFAULT_SETTINGS)
  {
    var plan := Projected(SmallDigest(), TASK, FilesDraft(n, k));
    Compiled(n, k);
    TotalOf(TimeoutOf, plan.actions, 60);
    ChainsInTime(plan);
  }

  /** Every one of these drafts is accepted, by planning and by validation. */
  lemma DraftIsViable(maxRevision: nat, n: nat, k: nat)
    requires 1 <= n <= 4 && 1 <= k <= 8
    ensures Viable(EnvOf(maxRevision), FilesDraft(n, k), BUNDLE)
  {
    DraftAccepted(n, k);
    ActionKeysApart(n, k);
    CriterionKeysApart(n, k);
    InTime(n, k);
    DefaultProjection(SmallDigest(), TASK, FilesDraft(n, k), INTENT, BUNDLE);
  }

  // ---- what becomes of them -----------------------------------------------------------------------------------------------

  /** Three actions can be carried out. */
  lemma ThreeActionsSucceed() returns (trace: seq<State>)
    ensures Viable(EnvOf(2), FilesDraft(3, 1), BUNDLE)
    ensures CarriesOut(EnvOf(2), trace, FilesDraft(3, 1))
  {
    DraftIsViable(2, 3, 1);
    trace := Completes(EnvOf(2), FilesDraft(3, 1), BUNDLE);
  }

  /** Four, which every check accepts, never can. */
  lemma FourActionsNever(trace: seq<State>)
    ensures Viable(EnvOf(2), FilesDraft(4, 1), BUNDLE)
    ensures !CarriesOut(EnvOf(2), trace, FilesDraft(4, 1))
  {
    DraftIsViable(2, 4, 1);
    CarriedOutExactly(EnvOf(2), FilesDraft(4, 1), BUNDLE);
  }

  /** Nine criteria with eight references each: the run succeeds and no response holds them all. */
  lemma SuccessWithoutResponse() returns (trace: seq<State>)
    ensures Run(EnvOf(2), trace)
    ensures var s := trace[|trace| - 1]; s.node.ResponseNode? && s.status.Succeeded? && !Renderable(s)
  {
    DraftIsViable(2, 2, 8);
    trace := Succeeds(EnvOf(2), FilesDraft(2, 8), BUNDLE, 8);
  }

  /** With no revision configured and one timed-out probe the run fails and renders no response. */
  lemma FailureWithoutResponse() returns (trace: seq<State>)
    ensures Run(EnvOf(0), trace)
    ensures var s := trace[|trace| - 1]; s.node.ResponseNode? && s.status.RunFailed? && BoundConflict(EnvOf(0), s) && !Renderable(s)
  {
    DraftIsViable(0, 1, 1);
    trace := FailsUnrendered(EnvOf(0), FilesDraft(1, 1), BUNDLE);
  }

  lemma RenamingContinues()
    requires LabelsResolved(FilesDraft(1, 1).actions) && CriteriaResolved(FilesDraft(1, 1))
    requires LabelsResolved(FilesDraft(2, 1).actions) && CriteriaResolved(FilesDraft(2, 1))
    ensures Continues(Projected(SmallDigest(), TASK, FilesDraft(1, 1)), Projected(SmallDigest(), TASK, FilesDraft(2, 1)))
  {
    Compiled(1, 1);
    Compiled(2, 1);
    assert FileCriteria(2, 1) == FileCriteria(1, 1) + [FileCriteria(2, 1)[1]];
    assert multiset(FileCriteria(2, 1)) == multiset(FileCriteria(1, 1)) + multiset{FileCriteria(2, 1)[1]};
  }

  /** The copy runs and its probe times out; the revision adds the rename; policy denies the new plan. */
  lemma DenialWithoutResponse() returns (trace: seq<State>)
    ensures Run(EnvOf(2), trace)
    ensures var s := trace[|trace| - 1]; s.node.ResponseNode? && s.status.Denied? && s.revision == 1 && !Renderable(s)
  {
    DraftIsViable(2, 1, 1);
    DraftIsViable(2, 2, 1);
    RenamingContinues();
    trace := DeniedUnrendered(EnvOf(2), FilesDraft(1, 1), FilesDraft(2, 1), BUNDLE);
  }

  /** Both actions must be asked, both pauses are approved, and the rename has no next step. */
  lemma RenameIsStuck() returns (trace: seq<State>)
    ensures Run(EnvOf(2), trace)
    ensures var s := trace[|trace| - 1];
            && s.node.DispatchNode? && s.plan.Some? && SelectAction(s.plan.value, s.results) == Ok(FileAction(1))
            && s.pending.Resolved? && s.pending.result.outcome.OutcomeApproved? && s.pending.result.actionId == FileAction(0).id
            && forall input :: Step(EnvOf(2), s, input).None?
  {
    DraftIsViable(2, 2, 1);
    Compiled(2, 1);
    trace := SecondAskIsStuck(EnvOf(2), FilesDraft(2, 1), BUNDLE);
  }
}
