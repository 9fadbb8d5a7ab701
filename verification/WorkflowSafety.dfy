/** What every run keeps: results are unique, executed work is immutable and ran after its dependencies. */
module WorkflowSafety {
  import opened Collections
  import opened PlanModel
  import opened TopologicalOrder
  import opened CriticalPath
  import opened PlanValidation
  import opened PlanDrafting
  import opened Policy
  import opened Verification
  import opened Dispatch
  import opened Revision
  import opened Workflow
  import opened WorkflowBounds

  /** Fields a node leaves alone. */
  lemma StepFrame(env: Env, s: State, input: Input)
    requires Step(env, s, input).Some?
    ensures var s' := Step(env, s, input).value;
            && (!s.node.PlanNode? && !s.node.ReviseNode? ==> s'.plan == s.plan)
            && (!s.node.CollectNode? ==> s'.results == s.results)
            && (!s.node.ContextNode? ==> s'.errors == s.errors)
            && (!s.node.VerifyNode? ==> s'.entries == s.entries)
            && (!s.node.DispatchNode? ==> s'.dispatches == s.dispatches)
            && (!s.node.ResumeNode? ==> s'.resolutions == s.resolutions)
            && (!s.node.PolicyNode? && !s.node.ReviseNode? ==> s'.decisions == s.decisions)
            && (!s.node.PauseNode? && !s.node.ResumeNode? && !s.node.ReviseNode? ==> s'.pending == s.pending)
  {
  }

  // ---- results ---------------------------------------------------------------------------------------

  predicate ResultsFit(s: State) {
    && Distinct(ResultIds(s.results))
    && (s.plan.None? ==> s.results == [])
    && (s.plan.Some? ==> SetOf(ResultIds(s.results)) <= SetOf(ActionIds(s.plan.value.actions)))
  }

  lemma ResultAppended(plan: Plan, results: seq<ActionResult>, r: ActionResult)
    requires Distinct(ResultIds(results)) && SetOf(ResultIds(results)) <= SetOf(ActionIds(plan.actions))
    requires r.actionId !in ResultByAction(results) && r.actionId in ActionIds(plan.actions)
    ensures Distinct(ResultIds(results + [r])) && SetOf(ResultIds(results + [r])) <= SetOf(ActionIds(plan.actions))
  {
    var before, after := ResultIds(results), ResultIds(results + [r]);
    assert after == before + [r.actionId];
    forall i | 0 <= i < |before| ensures before[i] != r.actionId {
      assert results[i].actionId in ResultByAction(results);
    }
    assert SetOf(after) == SetOf(before) + {r.actionId};
  }

  /** What a collect step can do to the results. */
  predicate Collected(env: Env, s: State, results: seq<ActionResult>) {
    || results == s.results
    || (|results| == |s.results| + 1 && results == s.results + [results[|s.results|]]
        && var r := results[|s.results|];
           r.actionId !in ResultByAction(s.results) && r.actionId in s.dispatches
           && s.plan.Some? && r.actionId in ActionIds(s.plan.value.actions)
           && ResultTimely(env, r, s.dispatches[r.actionId]))
  }

  /** The result belongs to this dispatch, and a success arrived within its lease. */
  predicate ResultTimely(env: Env, r: ActionResult, d: DispatchRecord) {
    && r.dispatchId == DispatchId(env.identity.taskId, r.actionId)
    && d.queuedAt <= r.completedAt
    && (r.outcome.ActionSucceeded? ==> r.completedAt <= d.leaseExpiresAt)
  }

  lemma CollectEffect(env: Env, s: State, result: ExecutorResult, collectedAt: int)
    requires CollectStep(env, s, result, collectedAt).Some?
    ensures Collected(env, s, CollectStep(env, s, result, collectedAt).value.results)
  {
    assert s.results + [] == s.results;
  }

  lemma ReviseEffect(env: Env, s: State, draft: ModelDraft, bundle: Bundle) returns (candidate: Plan)
    requires ReviseStep(env, s, draft, bundle).Some?
    ensures LabelsResolved(draft.actions) && CriteriaResolved(draft)
    ensures candidate == Projected(env.digest, env.identity.taskId, draft)
    ensures var s' := ReviseStep(env, s, draft, bundle).value;
            && s'.plan.Some? && s.plan.Some?
            && MergeExecutedPlan(candidate, s.plan.value, s.results) == Ok(s'.plan.value)
            && RevisionAccepted(s'.plan.value, s.plan.value, s.results, bundle, env.validation)
            && s'.results == s.results && s'.node.ValidateNode? && s'.pending.NoApproval? && s'.revision == s.revision + 1
  {
    AcceptedResolves(draft, env.intent, bundle, env.drafts);
    candidate := Projected(env.digest, env.identity.taskId, draft);
  }

  lemma ResultsFitKept(env: Env, s: State, input: Input)
    requires Shape(s) && ResultsFit(s) && Step(env, s, input).Some?
    ensures ResultsFit(Step(env, s, input).value)
  {
    StepFrame(env, s, input);
    var s' := Step(env, s, input).value;
    if s.node.CollectNode? {
      CollectEffect(env, s, input.result, input.collectedAt);
      if s'.results != s.results { ResultAppended(s.plan.value, s.results, s'.results[|s.results|]); }
    } else if s.node.ReviseNode? {
      var candidate := ReviseEffect(env, s, input.draft, input.bundle);
      KeptIds(s'.plan.value, s.plan.value, s.results);
    }
  }

  // ---- plans -------------------------------------------------------------------------------------------

  ghost predicate Sound(plan: Plan) {
    && Distinct(ActionIds(plan.actions)) && Distinct(CriterionIds(plan.criteria))
    && Closed(GraphOf(plan.actions)) && Acyclic(GraphOf(plan.actions))
    && CoveredIds(plan.criteria) == SetOf(ActionIds(plan.actions))
  }

  /** From validation on the plan is sound. */
  ghost predicate PlanSound(s: State) {
    s.plan.Some? && !s.node.ValidateNode? ==> Sound(s.plan.value)
  }

  lemma AcceptedIsSound(plan: Plan, bundle: Bundle, v: ValidationSettings)
    requires Accepted(plan, bundle, v)
    ensures Sound(plan)
  {
  }

  lemma PlanSoundKept(env: Env, s: State, input: Input)
    requires Shape(s) && PlanSound(s) && Step(env, s, input).Some?
    ensures PlanSound(Step(env, s, input).value)
  {
    StepFrame(env, s, input);
    StepFollowsEdge(env, s, input);
    if s.node.ValidateNode? { AcceptedIsSound(s.plan.value, input.bundle, env.validation); }
  }

  // ---- no waiting action depends on a failure ------------------------------------------------------------

  predicate BeforeDispatch(n: Node) {
    n.ValidateNode? || n.PolicyNode? || n.PauseNode? || n.ResumeNode? || n.DispatchNode?
  }

  predicate Clear(s: State) {
    BeforeDispatch(s.node) && s.plan.Some? ==> PendingClear(s.plan.value.actions, s.results)
  }

  lemma ClearKept(env: Env, s: State, input: Input)
    requires Shape(s) && ResultsFit(s) && Clear(s) && Step(env, s, input).Some?
    ensures Clear(Step(env, s, input).value)
  {
    StepFrame(env, s, input);
    StepFollowsEdge(env, s, input);
    if s.node.ReviseNode? {
      var candidate := ReviseEffect(env, s, input.draft, input.bundle);
      AcceptedRevisionIsClear(Step(env, s, input).value.plan.value.actions, s.results);
    }
  }

  // ---- dispatches ----------------------------------------------------------------------------------------

  /** The stored request was made after all its dependencies had succeeded, and not against a denial. */
  predicate DispatchFine(id: Id, r: DispatchRecord, succeeded: set<Id>) {
    && r.request.content.id == id && !r.request.decision.decision.Deny?
    && r.request.decision.actionId == id
    && forall d :: d in r.request.content.dependencies ==> d in succeeded
  }

  predicate DispatchesFine(s: State) {
    forall id :: id in s.dispatches ==> DispatchFine(id, s.dispatches[id], SucceededIds(s.results))
  }

  predicate ResultsDispatched(env: Env, s: State) {
    forall i :: 0 <= i < |s.results| ==>
      s.results[i].actionId in s.dispatches && ResultTimely(env, s.results[i], s.dispatches[s.results[i].actionId])
  }

  /** A lease lasts as long as the action may run, and the grace time. */
  predicate LeasesFine(env: Env, s: State) {
    forall id :: id in s.dispatches ==>
      s.dispatches[id].leaseExpiresAt == s.dispatches[id].queuedAt + s.dispatches[id].request.content.timeout + env.grace
  }

  lemma SucceededGrows(results: seq<ActionResult>, more: seq<ActionResult>)
    ensures SucceededIds(results) <= SucceededIds(results + more)
  {
    forall id | id in SucceededIds(results) ensures id in SucceededIds(results + more) {
      var i :| 0 <= i < |results| && results[i].outcome.ActionSucceeded? && results[i].actionId == id;
      assert (results + more)[i] == results[i];
    }
  }

  /** A dispatch step stores the request it built, or finds it stored already. */
  lemma DispatchEffect(env: Env, s: State, now: int) returns (action: PlanAction, request: DispatchRequest)
    requires DispatchStep(env, s, now).Some?
    ensures s.plan.Some? && action in s.plan.value.actions && request.content == ContentOf(action) && request.identity == env.identity
    ensures SetOf(action.dependencies) <= SucceededIds(s.results)
    ensures request.decision in s.decisions && request.decision.actionId == action.id && !request.decision.decision.Deny?
    ensures request.decision.decision.Ask? <==> request.approval.Some?
    ensures request.approval.Some? ==>
              && s.pending.Resolved? && request.approval == Some(s.pending.result) && s.pending.result.outcome.OutcomeApproved?
              && s.pending.result.actionId == action.id
              && s.pending.result.digest == DigestAction(env.identity, action, request.decision, SortedCodes(s.plan.value, action.id))
              && request.codes == SortedCodes(s.plan.value, action.id)
    ensures var store := DispatchStep(env, s, now).value.dispatches;
            && (forall id :: id in s.dispatches ==> id in store && store[id] == s.dispatches[id])
            && (forall id :: id in store ==> id in s.dispatches || (id == action.id && store[id].request == request))
            && (LeasesFine(env, s) ==> LeasesFine(env, DispatchStep(env, s, now).value))
  {
    var approval := if s.pending.Resolved? then Some(s.pending.result) else None;
    request := BuildDispatch(env.identity, s.plan.value, s.decisions, s.results, approval).value;
    action := DispatchGuarantees(env.identity, s.plan.value, s.decisions, s.results, approval);
    BuiltCodes(env.identity, s.plan.value, s.decisions, s.results, approval);
  }

  lemma NewDispatchFine(action: PlanAction, request: DispatchRequest, succeeded: set<Id>)
    requires request.content == ContentOf(action) && SetOf(action.dependencies) <= succeeded
    requires request.decision.actionId == action.id && !request.decision.decision.Deny?
    ensures forall r: DispatchRecord :: r.request == request ==> DispatchFine(action.id, r, succeeded)
  {
    forall d | d in multiset(action.dependencies) ensures d in succeeded {
      assert d in SetOf(action.dependencies);
    }
  }

  lemma DispatchesFineKept(env: Env, s: State, input: Input)
    requires Shape(s) && DispatchesFine(s) && Step(env, s, input).Some?
    ensures DispatchesFine(Step(env, s, input).value)
  {
    StepFrame(env, s, input);
    var s' := Step(env, s, input).value;
    if s.node.CollectNode? {
      CollectEffect(env, s, input.result, input.collectedAt);
      if s'.results != s.results { SucceededGrows(s.results, [s'.results[|s.results|]]); }
    } else if s.node.DispatchNode? {
      var action, request := DispatchEffect(env, s, input.now);
      NewDispatchFine(action, request, SucceededIds(s.results));
    }
  }

  lemma ResultsDispatchedKept(env: Env, s: State, input: Input)
    requires Shape(s) && ResultsDispatched(env, s) && Step(env, s, input).Some?
    ensures ResultsDispatched(env, Step(env, s, input).value)
  {
    StepFrame(env, s, input);
    if s.node.CollectNode? {
      CollectEffect(env, s, input.result, input.collectedAt);
    } else if s.node.DispatchNode? {
      var action, request := DispatchEffect(env, s, input.now);
    }
  }

  lemma LeasesFineKept(env: Env, s: State, input: Input)
    requires Shape(s) && LeasesFine(env, s) && Step(env, s, input).Some?
    ensures LeasesFine(env, Step(env, s, input).value)
  {
    StepFrame(env, s, input);
    if s.node.DispatchNode? {
      var action, request := DispatchEffect(env, s, input.now);
    }
  }

  // ---- content addressing ------------------------------------------------------------------------------------

  function KeyOfContent(c: ActionContent): SemanticKey {
    SemanticKey(c.capabilityId, c.capabilityVersion, c.arguments, c.dependencies, c.timeout)
  }

  /** The id is the digest of the content. */
  predicate Addressed(env: Env, c: ActionContent) {
    c.id == env.digest(ActionKey(env.identity.taskId, KeyOfContent(c)))
  }

  predicate PlanAddressed(env: Env, s: State) {
    && (s.plan.Some? ==> forall a :: a in s.plan.value.actions ==> Addressed(env, ContentOf(a)))
    && forall id :: id in s.dispatches ==> Addressed(env, s.dispatches[id].request.content)
  }

  lemma {:induction false} ProjectedAddressed(env: Env, actions: seq<ModelAction>)
    requires LabelsResolved(actions)
    ensures forall a :: a in ProjectActions(env.digest, env.identity.taskId, actions) ==> Addressed(env, ContentOf(a))
  {
    if actions != [] {
      PrefixResolved(actions, |actions| - 1);
      ProjectedAddressed(env, actions[..|actions| - 1]);
    }
  }

  lemma PlanAddressedKept(env: Env, s: State, input: Input)
    requires Shape(s) && PlanAddressed(env, s) && Step(env, s, input).Some?
    ensures PlanAddressed(env, Step(env, s, input).value)
  {
    StepFrame(env, s, input);
    if s.node.PlanNode? {
      AcceptedResolves(input.draft, env.intent, input.bundle, env.drafts);
      ProjectedAddressed(env, input.draft.actions);
    } else if s.node.ReviseNode? {
      var candidate := ReviseEffect(env, s, input.draft, input.bundle);
      ProjectedAddressed(env, input.draft.actions);
      forall a | a in Step(env, s, input).value.plan.value.actions ensures Addressed(env, ContentOf(a)) {
        MergedFrom(candidate, s.plan.value, s.results, a);
      }
    } else if s.node.DispatchNode? {
      var action, request := DispatchEffect(env, s, input.now);
    }
  }

  // ---- one result per turn ---------------------------------------------------------------------------------------

  predicate AfterCollect(n: Node) {
    n.VerifyNode? || n.ReviseNode? || n.ResponseNode? || n.EndNode?
  }

  predicate FewResults(s: State) {
    |s.results| <= s.revision + if AfterCollect(s.node) then 1 else 0
  }

  lemma FewResultsKept(env: Env, s: State, input: Input)
    requires Shape(s) && FewResults(s) && Step(env, s, input).Some?
    ensures FewResults(Step(env, s, input).value)
  {
    StepFrame(env, s, input);
    StepFollowsEdge(env, s, input);
    if s.node.CollectNode? {
      CollectEffect(env, s, input.result, input.collectedAt);
    }
  }

  // ---- the invariant ------------------------------------------------------------------------------------------------

  ghost predicate Invariant(env: Env, s: State) {
    && Shape(s) && ResultsFit(s) && PlanSound(s) && Clear(s)
    && DispatchesFine(s) && ResultsDispatched(env, s) && LeasesFine(env, s) && PlanAddressed(env, s) && FewResults(s)
  }

  lemma InvariantKept(env: Env, s: State, s': State)
    requires Invariant(env, s) && Next(env, s, s')
    ensures Invariant(env, s')
  {
    var input :| Step(env, s, input) == Some(s');
    ShapeKept(env, s, input);
    ResultsFitKept(env, s, input);
    PlanSoundKept(env, s, input);
    ClearKept(env, s, input);
    DispatchesFineKept(env, s, input);
    ResultsDispatchedKept(env, s, input);
    LeasesFineKept(env, s, input);
    PlanAddressedKept(env, s, input);
    FewResultsKept(env, s, input);
  }

  lemma InvariantStarts(env: Env, status: Status)
    requires status.Created? || status.Planning?
    ensures Invariant(env, Start(status))
  {
  }

  lemma {:induction false} RunInvariant(env: Env, trace: seq<State>, i: nat)
    requires Run(env, trace) && i < |trace|
    ensures Invariant(env, trace[i])
  {
    if i == 0 {
      InvariantStarts(env, trace[0].status);
    } else {
      RunInvariant(env, trace, i - 1);
      InvariantKept(env, trace[i - 1], trace[i]);
    }
  }

  // ---- executed work is immutable --------------------------------------------------------------------------------------

  /** Everything executed in s is still there in s', as it was. */
  predicate Preserved(s: State, s': State) {
    && s.results <= s'.results
    && (s.results != [] ==> s.plan.Some? && s'.plan.Some? && ExecutedKept(s'.plan.value, s.plan.value, s.results))
  }

  lemma KeptReflexive(plan: Plan, results: seq<ActionResult>)
    requires SetOf(ResultIds(results)) <= SetOf(ActionIds(plan.actions))
    ensures ExecutedKept(plan, plan, results)
  {
    IdsCardinality(plan.actions);
    forall i | 0 <= i < |results| ensures KeptAction(plan, plan, results[i].actionId) {
      assert ResultIds(results)[i] in SetOf(ResultIds(results));
    }
  }

  lemma StepPreserves(env: Env, s: State, s': State)
    requires Shape(s) && ResultsFit(s) && Next(env, s, s')
    ensures Preserved(s, s')
  {
    var input :| Step(env, s, input) == Some(s');
    StepFrame(env, s, input);
    if s.node.ReviseNode? {
      var candidate := ReviseEffect(env, s, input.draft, input.bundle);
    } else if s.plan.Some? {
      if s.node.CollectNode? { CollectEffect(env, s, input.result, input.collectedAt); }
      KeptReflexive(s.plan.value, s.results);
    }
  }

  lemma PreservedTransitive(a: State, b: State, c: State)
    requires Preserved(a, b) && Preserved(b, c)
    ensures Preserved(a, c)
  {
    forall i | 0 <= i < |a.results| ensures KeptAction(c.plan.value, a.plan.value, a.results[i].actionId) {
      assert b.results[i] == a.results[i];
      assert KeptAction(b.plan.value, a.plan.value, a.results[i].actionId);
      assert KeptAction(c.plan.value, b.plan.value, b.results[i].actionId);
    }
  }

  lemma SelfPreserved(s: State)
    requires ResultsFit(s)
    ensures Preserved(s, s)
  {
    if s.plan.Some? { KeptReflexive(s.plan.value, s.results); }
  }

  lemma RunStepPreserves(env: Env, trace: seq<State>, j: nat)
    requires Run(env, trace) && 0 < j < |trace|
    ensures Preserved(trace[j - 1], trace[j])
  {
    RunInvariant(env, trace, j - 1);
    StepPreserves(env, trace[j - 1], trace[j]);
  }

  lemma RunResultsFit(env: Env, trace: seq<State>, i: nat)
    requires Run(env, trace) && i < |trace|
    ensures ResultsFit(trace[i])
  {
    RunInvariant(env, trace, i);
  }

  /** Each state preserves the one before. */
  predicate PreservesStepwise(trace: seq<State>) {
    && (forall i :: 0 <= i < |trace| ==> ResultsFit(trace[i]))
    && forall i :: 0 < i < |trace| ==> Preserved(trace[i - 1], trace[i])
  }

  lemma RunPreservesStepwise(env: Env, trace: seq<State>)
    requires Run(env, trace)
    ensures PreservesStepwise(trace)
  {
    forall i | 0 <= i < |trace| ensures ResultsFit(trace[i]) { RunResultsFit(env, trace, i); }
    forall i | 0 < i < |trace| ensures Preserved(trace[i - 1], trace[i]) { RunStepPreserves(env, trace, i); }
  }

  lemma {:induction false} PreservedAlong(trace: seq<State>, i: nat, j: nat)
    requires PreservesStepwise(trace) && i <= j < |trace|
    ensures Preserved(trace[i], trace[j])
    decreases j
  {
    if i == j {
      SelfPreserved(trace[i]);
    } else {
      PreservedAlong(trace, i, j - 1);
      PreservedTransitive(trace[i], trace[j - 1], trace[j]);
    }
  }

  lemma RunPreserves(env: Env, trace: seq<State>, i: nat, j: nat)
    requires Run(env, trace) && i <= j < |trace|
    ensures Preserved(trace[i], trace[j])
  {
    RunPreservesStepwise(env, trace);
    PreservedAlong(trace, i, j);
  }

  // ---- the main theorems -------------------------------------------------------------------------------------------------

  predicate InPlan(s: State, a: PlanAction) {
    s.plan.Some? && a in s.plan.value.actions
  }

  function DigestOfContent(env: Env, c: ActionContent): Id {
    env.digest(ActionKey(env.identity.taskId, KeyOfContent(c)))
  }

  /** No two different action texts in the plans of this run share a digest. */
  ghost predicate TextsApart(env: Env, trace: seq<State>) {
    forall i, j, a, b :: 0 <= i < |trace| && 0 <= j < |trace| && InPlan(trace[i], a) && InPlan(trace[j], b)
      && DigestOfContent(env, ContentOf(a)) == DigestOfContent(env, ContentOf(b))
      ==> KeyOfContent(ContentOf(a)) == KeyOfContent(ContentOf(b))
  }

  lemma StepDispatches(env: Env, s: State, input: Input, id: Id)
    requires Step(env, s, input).Some? && id in Step(env, s, input).value.dispatches
    ensures (id in s.dispatches && Step(env, s, input).value.dispatches[id] == s.dispatches[id])
         || exists a :: InPlan(s, a) && Step(env, s, input).value.dispatches[id].request.content == ContentOf(a)
  {
    if s.node.DispatchNode? {
      var action, request := DispatchEffect(env, s, input.now);
      assert InPlan(s, action);
    } else {
      StepFrame(env, s, input);
    }
  }

  lemma NextDispatches(env: Env, s: State, s': State, id: Id)
    requires Next(env, s, s') && id in s'.dispatches
    ensures (id in s.dispatches && s'.dispatches[id] == s.dispatches[id])
         || exists a :: InPlan(s, a) && s'.dispatches[id].request.content == ContentOf(a)
  {
    var input :| Step(env, s, input) == Some(s');
    StepDispatches(env, s, input, id);
  }

  /** A stored dispatch was there a step before, or is of an action of the plan a step before. */
  ghost predicate DispatchesTraced(trace: seq<State>) {
    && trace != [] && trace[0].dispatches == map[]
    && forall i, id :: 0 < i < |trace| && id in trace[i].dispatches ==> StoredBy(trace[i - 1], trace[i].dispatches[id], id)
  }

  ghost predicate StoredBy(s: State, d: DispatchRecord, id: Id) {
    (id in s.dispatches && s.dispatches[id] == d) || exists a :: InPlan(s, a) && d.request.content == ContentOf(a)
  }

  lemma RunDispatchesTraced(env: Env, trace: seq<State>)
    requires Run(env, trace)
    ensures DispatchesTraced(trace)
  {
    forall i, id | 0 < i < |trace| && id in trace[i].dispatches
      ensures StoredBy(trace[i - 1], trace[i].dispatches[id], id)
    {
      NextDispatches(env, trace[i - 1], trace[i], id);
    }
  }

  /** Every stored dispatch is of an action some plan of the run held. */
  lemma {:induction false} DispatchOrigin(trace: seq<State>, i: nat, id: Id) returns (j: nat, a: PlanAction)
    requires DispatchesTraced(trace) && i < |trace| && id in trace[i].dispatches
    ensures j <= i && InPlan(trace[j], a) && trace[i].dispatches[id].request.content == ContentOf(a)
  {
    assert StoredBy(trace[i - 1], trace[i].dispatches[id], id);
    if id in trace[i - 1].dispatches && trace[i].dispatches[id] == trace[i - 1].dispatches[id] {
      j, a := DispatchOrigin(trace, i - 1, id);
    } else {
      j := i - 1;
      a :| InPlan(trace[j], a) && trace[i].dispatches[id].request.content == ContentOf(a);
    }
  }

  /** In a run whose texts do not collide, a dispatch is of exactly the action a later plan has under its id. */
  lemma SameIdSameContent(env: Env, trace: seq<State>, i: nat, a: PlanAction)
    requires Run(env, trace) && i < |trace| && TextsApart(env, trace)
    requires InPlan(trace[i], a) && a.id in trace[i].dispatches
    ensures trace[i].dispatches[a.id].request.content == ContentOf(a)
  {
    RunDispatchesTraced(env, trace);
    var j, b := DispatchOrigin(trace, i, a.id);
    RunAddressed(env, trace, i);
    RunAddressed(env, trace, j);
    RunDispatchIds(env, trace, i, a.id);
  }

  lemma RunAddressed(env: Env, trace: seq<State>, i: nat)
    requires Run(env, trace) && i < |trace|
    ensures forall a :: InPlan(trace[i], a) ==> a.id == DigestOfContent(env, ContentOf(a))
  {
    RunInvariant(env, trace, i);
  }

  lemma RunDispatchIds(env: Env, trace: seq<State>, i: nat, id: Id)
    requires Run(env, trace) && i < |trace| && id in trace[i].dispatches
    ensures trace[i].dispatches[id].request.content.id == id
    ensures forall d :: d in trace[i].dispatches[id].request.content.dependencies ==> d in SucceededIds(trace[i].results)
  {
    RunInvariant(env, trace, i);
  }

  lemma ResultHasDispatch(env: Env, trace: seq<State>, i: nat, id: Id)
    requires Run(env, trace) && i < |trace| && id in ResultIds(trace[i].results)
    ensures id in trace[i].dispatches
  {
    RunInvariant(env, trace, i);
    var k :| 0 <= k < |trace[i].results| && trace[i].results[k].actionId == id;
    assert trace[i].results[k].actionId in trace[i].dispatches;
  }

  /** Executed work: at any two points of a run, the earlier results are a prefix of the later ones, no
      action has two results, and each executed action is in the later plan unchanged and with the same
      criteria. */
  lemma ExecutedWorkIsImmutable(env: Env, trace: seq<State>, i: nat, j: nat, k: nat)
    requires Run(env, trace) && i <= j < |trace| && k < |trace[i].results|
    ensures trace[i].results <= trace[j].results
    ensures Distinct(ResultIds(trace[j].results))
    ensures trace[i].plan.Some? && trace[j].plan.Some?
    ensures KeptAction(trace[j].plan.value, trace[i].plan.value, trace[i].results[k].actionId)
  {
    RunPreserves(env, trace, i, j);
    RunInvariant(env, trace, j);
  }

  /** The plan checks the action with this criterion. */
  predicate CheckedWith(plan: Plan, actionId: Id, criterionId: Id, code: string) {
    exists c :: 0 <= c < |plan.criteria| && plan.criteria[c] == Criterion(criterionId, actionId, code)
  }

  lemma SameChecks(p: Plan, q: Plan, actionId: Id, criterionId: Id, code: string)
    requires CriteriaOfAction(p.criteria, actionId) == CriteriaOfAction(q.criteria, actionId)
    ensures CheckedWith(p, actionId, criterionId, code) ==> CheckedWith(q, actionId, criterionId, code)
  {
    if CheckedWith(p, actionId, criterionId, code) {
      assert (criterionId, code) in CriteriaOfAction(q.criteria, actionId);
      var c :| 0 <= c < |q.criteria| && q.criteria[c].actionId == actionId && (q.criteria[c].id, q.criteria[c].code) == (criterionId, code);
      assert q.criteria[c] == Criterion(criterionId, actionId, code);
    }
  }

  lemma KeptInPlan(s: State, t: State, id: Id)
    requires s.plan.Some? && t.plan.Some? && KeptAction(t.plan.value, s.plan.value, id)
    requires Distinct(ActionIds(s.plan.value.actions)) && Distinct(ActionIds(t.plan.value.actions))
    ensures exists a :: InPlan(s, a) && InPlan(t, a) && a.id == id
    ensures forall a: PlanAction :: a.id == id ==> (InPlan(s, a) <==> InPlan(t, a))
    ensures forall c, code :: CheckedWith(s.plan.value, id, c, code) <==> CheckedWith(t.plan.value, id, c, code)
  {
    var kept := ById(s.plan.value.actions)[id];
    assert InPlan(s, kept) && InPlan(t, kept);
    forall a: PlanAction | a.id == id ensures InPlan(s, a) <==> InPlan(t, a) {
      if InPlan(s, a) { SameAction(s.plan.value.actions, a, kept); }
      if InPlan(t, a) { SameAction(t.plan.value.actions, a, kept); }
    }
    forall c, code ensures CheckedWith(s.plan.value, id, c, code) <==> CheckedWith(t.plan.value, id, c, code) {
      SameChecks(s.plan.value, t.plan.value, id, c, code);
      SameChecks(t.plan.value, s.plan.value, id, c, code);
    }
  }

  lemma RunPlanDistinct(env: Env, trace: seq<State>, i: nat)
    requires Run(env, trace) && i < |trace| && trace[i].plan.Some? && !trace[i].node.ValidateNode?
    ensures Distinct(ActionIds(trace[i].plan.value.actions))
  {
    RunInvariant(env, trace, i);
  }

  /** In the words of the plans: between any two points of a run that are not at validation, the plans list the same
      action under the id of an executed one, and check it with the same criteria. */
  lemma ExecutedActionsStay(env: Env, trace: seq<State>, i: nat, j: nat, k: nat)
    requires Run(env, trace) && i <= j < |trace| && k < |trace[i].results|
    requires !trace[i].node.ValidateNode? && !trace[j].node.ValidateNode?
    ensures trace[i].plan.Some? && trace[j].plan.Some?
    ensures var id := trace[i].results[k].actionId;
            && (exists a :: InPlan(trace[i], a) && InPlan(trace[j], a) && a.id == id)
            && (forall a: PlanAction :: a.id == id ==> (InPlan(trace[i], a) <==> InPlan(trace[j], a)))
            && forall c, code :: CheckedWith(trace[i].plan.value, id, c, code) <==> CheckedWith(trace[j].plan.value, id, c, code)
  {
    ExecutedWorkIsImmutable(env, trace, i, j, k);
    RunPlanDistinct(env, trace, i);
    RunPlanDistinct(env, trace, j);
    KeptInPlan(trace[i], trace[j], trace[i].results[k].actionId);
  }

  /** Every executed action, as it was dispatched, ran after everything it depends on had succeeded. */
  lemma DispatchedAfterDependencies(env: Env, trace: seq<State>, i: nat, id: Id)
    requires Run(env, trace) && i < |trace| && id in ResultIds(trace[i].results)
    ensures id in trace[i].dispatches && trace[i].dispatches[id].request.content.id == id
    ensures forall d :: d in trace[i].dispatches[id].request.content.dependencies ==> d in SucceededIds(trace[i].results)
  {
    ResultHasDispatch(env, trace, i, id);
    RunDispatchIds(env, trace, i, id);
  }

  /** So, unless two action texts of this very run collide, every executed action of the current plan has
      all it depends on among the succeeded results. */
  lemma DependenciesSucceeded(env: Env, trace: seq<State>, i: nat, a: PlanAction)
    requires Run(env, trace) && i < |trace| && TextsApart(env, trace)
    requires InPlan(trace[i], a) && a.id in ResultIds(trace[i].results)
    ensures SetOf(a.dependencies) <= SucceededIds(trace[i].results)
  {
    DispatchedAfterDependencies(env, trace, i, a.id);
    SameIdSameContent(env, trace, i, a);
    forall d | d in SetOf(a.dependencies) ensures d in SucceededIds(trace[i].results) {
      assert d in trace[i].dispatches[a.id].request.content.dependencies;
    }
  }

  /** Every result of a run answers a dispatch of the run, and a success was complete before its lease ran
      out: queuing time, the action's time-out and the grace time. */
  lemma SuccessIsTimely(env: Env, trace: seq<State>, i: nat, k: nat)
    requires Run(env, trace) && i < |trace| && k < |trace[i].results|
    ensures trace[i].results[k].actionId in trace[i].dispatches
    ensures var r := trace[i].results[k];
            var d := trace[i].dispatches[r.actionId];
            && r.dispatchId == DispatchId(env.identity.taskId, r.actionId)
            && d.queuedAt <= r.completedAt
            && (r.outcome.ActionSucceeded? ==> r.completedAt <= d.queuedAt + d.request.content.timeout + env.grace)
  {
    RunInvariant(env, trace, i);
    assert ResultTimely(env, trace[i].results[k], trace[i].dispatches[trace[i].results[k].actionId]);
  }

  /** Progress: at every dispatch of every run, selection finds an action exactly when one has no
      result, and otherwise reports a complete plan. */
  lemma DispatchSelects(env: Env, trace: seq<State>, i: nat)
    requires Run(env, trace) && i < |trace| && trace[i].node.DispatchNode?
    ensures trace[i].plan.Some?
    ensures var selected := SelectAction(trace[i].plan.value, trace[i].results);
            && (selected.Ok? <==> SetOf(ActionIds(trace[i].plan.value.actions)) != SetOf(ResultIds(trace[i].results)))
            && (selected.Err? ==> selected.error == DispatchPlanComplete)
  {
    RunInvariant(env, trace, i);
    SelectionProgress(trace[i].plan.value, trace[i].results);
  }
}
