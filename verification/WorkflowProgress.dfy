/** What it takes, exactly, for a run to go on from each gate: none of its internal checks ever stops it. */
module WorkflowProgress {
  import opened Collections
  import opened PlanModel
  import opened TopologicalOrder
  import opened CriticalPath
  import opened PlanValidation
  import opened PlanDrafting
  import opened Policy
  import opened Verification
  import opened Dispatch
  import opened Revision
  import opened Workflow
  import opened WorkflowBounds
  import opened WorkflowSafety
  import opened WorkflowApproval
  import opened WorkflowOutcome
  import opened WorkflowManifest

  // ---- the context -------------------------------------------------------------------------------------------

  predicate NoErrorsYet(s: State) {
    s.node.NormalizeNode? || s.node.ContextNode? ==> s.errors == []
  }

  lemma NoErrorsNext(env: Env, s: State, s': State)
    requires NoErrorsYet(s) && Next(env, s, s')
    ensures NoErrorsYet(s')
  {
    var input :| Step(env, s, input) == Some(s');
    StepFrame(env, s, input);
    StepFollowsEdge(env, s, input);
  }

  lemma RunNoErrorsNext(env: Env, trace: seq<State>, i: nat)
    requires Run(env, trace) && i + 1 < |trace| && NoErrorsYet(trace[i])
    ensures NoErrorsYet(trace[i + 1])
  {
    NoErrorsNext(env, trace[i], trace[i + 1]);
  }

  lemma StartsWithoutErrors(env: Env, trace: seq<State>)
    requires Run(env, trace)
    ensures NoErrorsYet(trace[0])
  {
  }

  lemma {:induction false} RunNoErrors(env: Env, trace: seq<State>, i: nat)
    requires Run(env, trace) && i < |trace|
    ensures NoErrorsYet(trace[i])
  {
    if i == 0 {
      StartsWithoutErrors(env, trace);
    } else {
      RunNoErrors(env, trace, i - 1);
      RunNoErrorsNext(env, trace, i - 1);
    }
  }

  /** Where only optional context is missing the run goes on, and its error codes name exactly what could not be
      loaded. */
  lemma ContextIsTold(env: Env, trace: seq<State>, i: nat, projectLoaded: bool, memoryLoaded: bool)
    requires Run(env, trace) && i < |trace| && trace[i].node.ContextNode?
    ensures var next := ContextStep(trace[i], projectLoaded, memoryLoaded);
            && next.Some? && next.value.node.IntentNode?
            && ("project_context_unavailable" in next.value.errors <==> !projectLoaded)
            && ("memory_context_unavailable" in next.value.errors <==> !memoryLoaded)
            && |next.value.errors| <= 2
  {
    RunShape(env, trace, i);
    RunNoErrors(env, trace, i);
    assert PROJECT_UNAVAILABLE[0] != MEMORY_UNAVAILABLE[0];
  }

  // ---- the evaluation ----------------------------------------------------------------------------------------

  lemma ValidatedHasActions(env: Env, s: State)
    requires PlanValidated(env, s) && s.plan.Some? && !s.node.ValidateNode?
    ensures s.plan.value.actions != []
  {
    var bundle :| Accepted(s.plan.value, bundle, env.validation);
  }

  /** At most 16 pieces of advice, each about the whole plan or an action of it. */
  predicate AdvicePlaced(advice: Assessment, actions: seq<PlanAction>) {
    |advice| <= 16
    && forall k :: 0 <= k < |advice| ==>
         advice[k].actionId.None? || exists j :: 0 <= j < |actions| && advice[k].actionId == Some(actions[j].id)
  }

  lemma KnownIsPlaced(advice: Assessment, actions: seq<PlanAction>)
    ensures AdviceKnown(advice, actions) <==> AdvicePlaced(advice, actions)
  {
    forall k | 0 <= k < |advice| && advice[k].actionId.Some?
      ensures advice[k].actionId.value in ActionIds(actions)
         <==> exists j :: 0 <= j < |actions| && advice[k].actionId == Some(actions[j].id)
    {
      if j :| 0 <= j < |actions| && advice[k].actionId == Some(actions[j].id) { assert ActionIds(actions)[j] == actions[j].id; }
    }
  }

  /** Policy goes on exactly with a valid snapshot and advice about the plan: denied to the response, otherwise to
      the pause or the dispatch. */
  lemma PolicyGoesOn(env: Env, trace: seq<State>, i: nat, snapshot: Snapshot, advice: Assessment)
    requires Run(env, trace) && i < |trace| && trace[i].node.PolicyNode?
    ensures trace[i].plan.Some?
    ensures PolicyStep(env, trace[i], snapshot, advice).Some?
       <==> SnapshotValid(snapshot) && AdvicePlaced(advice, trace[i].plan.value.actions)
    ensures PolicyStep(env, trace[i], snapshot, advice).Some? ==>
              var s' := PolicyStep(env, trace[i], snapshot, advice).value;
              && (s'.status.Denied? <==> s'.node.ResponseNode?) && (s'.status.AwaitingApproval? <==> s'.node.PauseNode?)
              && (s'.status.Executing? <==> s'.node.DispatchNode?)
              && (s'.status.Denied? <==> !NoDenial(s'.decisions))
              && (s'.status.AwaitingApproval? <==> NoDenial(s'.decisions) && SomeAsk(s'.decisions))
  {
    RunShape(env, trace, i);
    RunValidated(env, trace, i);
    ValidatedHasActions(env, trace[i]);
    PolicyFromShape(env, trace[i], snapshot, advice);
    KnownIsPlaced(advice, trace[i].plan.value.actions);
  }

  lemma PolicyFromShape(env: Env, s: State, snapshot: Snapshot, advice: Assessment)
    requires Shape(s) && s.node.PolicyNode? && s.plan.value.actions != []
    ensures PolicyStep(env, s, snapshot, advice).Some? <==> SnapshotValid(snapshot) && AdviceKnown(advice, s.plan.value.actions)
    ensures PolicyStep(env, s, snapshot, advice).Some? ==>
              var s' := PolicyStep(env, s, snapshot, advice).value;
              && (s'.status.Denied? <==> s'.node.ResponseNode?) && (s'.status.AwaitingApproval? <==> s'.node.PauseNode?)
              && (s'.status.Executing? <==> s'.node.DispatchNode?)
              && (s'.status.Denied? <==> !NoDenial(s'.decisions))
              && (s'.status.AwaitingApproval? <==> NoDenial(s'.decisions) && SomeAsk(s'.decisions))
  {
  }

  // ---- decisions are those of one evaluation of the plan --------------------------------------------------------

  /** From the evaluation to the collection the decisions are those of the current plan under one snapshot. */
  ghost predicate Evaluated(env: Env, s: State) {
    s.node.PauseNode? || s.node.ResumeNode? || s.node.DispatchNode? || s.node.CollectNode? ==>
      && s.plan.Some? && s.plan.value.actions != []
      && exists snapshot, advice :: SnapshotValid(snapshot) && s.decisions == Decide(env.identity.taskId, snapshot, advice, s.plan.value.actions)
  }

  lemma EvaluatedByPolicy(env: Env, s: State, snapshot: Snapshot, advice: Assessment)
    requires PolicyStep(env, s, snapshot, advice).Some?
    ensures Evaluated(env, PolicyStep(env, s, snapshot, advice).value)
  {
  }

  lemma EvaluatedNext(env: Env, s: State, s': State)
    requires Evaluated(env, s) && Next(env, s, s')
    ensures Evaluated(env, s')
  {
    var input :| Step(env, s, input) == Some(s');
    StepFrame(env, s, input);
    StepFollowsEdge(env, s, input);
    if s.node.PolicyNode? { EvaluatedByPolicy(env, s, input.snapshot, input.advice); }
  }

  lemma RunEvaluatedNext(env: Env, trace: seq<State>, i: nat)
    requires Run(env, trace) && i + 1 < |trace| && Evaluated(env, trace[i])
    ensures Evaluated(env, trace[i + 1])
  {
    EvaluatedNext(env, trace[i], trace[i + 1]);
  }

  lemma StartsUnevaluated(env: Env, trace: seq<State>)
    requires Run(env, trace)
    ensures Evaluated(env, trace[0])
  {
  }

  lemma {:induction false} RunEvaluated(env: Env, trace: seq<State>, i: nat)
    requires Run(env, trace) && i < |trace|
    ensures Evaluated(env, trace[i])
  {
    if i == 0 {
      StartsUnevaluated(env, trace);
    } else {
      RunEvaluated(env, trace, i - 1);
      RunEvaluatedNext(env, trace, i - 1);
    }
  }

  /** One decision for each action, in plan order, all under one snapshot. */
  predicate OnePerAction(decisions: seq<PolicyDecision>, actions: seq<PlanAction>) {
    && |decisions| == |actions|
    && (forall i :: 0 <= i < |actions| ==> decisions[i].actionId == actions[i].id && (decisions[i].freshApproval <==> decisions[i].decision.Ask?))
    && (forall i, j :: 0 <= i < |decisions| && 0 <= j < |decisions| ==>
          decisions[i].referenceId == decisions[j].referenceId && decisions[i].version == decisions[j].version)
  }

  lemma DecidesOnePerAction(taskId: string, snapshot: Snapshot, advice: Assessment, actions: seq<PlanAction>)
    ensures OnePerAction(Decide(taskId, snapshot, advice, actions), actions)
  {
    var decisions := Decide(taskId, snapshot, advice, actions);
    forall i | 0 <= i < |actions|
      ensures decisions[i] == ProjectDecision(taskId, snapshot, actions[i], FinalVerdict(snapshot, advice, actions, actions[i])) {}
  }

  lemma EvaluatedOnePerAction(env: Env, s: State)
    requires Evaluated(env, s) && (s.node.PauseNode? || s.node.ResumeNode? || s.node.DispatchNode? || s.node.CollectNode?)
    ensures s.plan.Some? && s.plan.value.actions != [] && OnePerAction(s.decisions, s.plan.value.actions)
  {
    var snapshot, advice :| SnapshotValid(snapshot) && s.decisions == Decide(env.identity.taskId, snapshot, advice, s.plan.value.actions);
    DecidesOnePerAction(env.identity.taskId, snapshot, advice, s.plan.value.actions);
  }

  lemma OnePerActionIds(decisions: seq<PolicyDecision>, actions: seq<PlanAction>)
    requires OnePerAction(decisions, actions)
    ensures DecisionIds(decisions) == ActionIds(actions)
  {
  }

  lemma DecisionAt(decisions: seq<PolicyDecision>, actions: seq<PlanAction>, i: nat)
    requires OnePerAction(decisions, actions) && Distinct(ActionIds(actions)) && i < |actions|
    ensures actions[i].id in DecisionByAction(decisions) && DecisionByAction(decisions)[actions[i].id] == decisions[i]
  {
    OnePerActionIds(decisions, actions);
    assert decisions[i].actionId in DecisionByAction(decisions);
    var d := DecisionByAction(decisions)[actions[i].id];
    var j :| 0 <= j < |decisions| && decisions[j] == d;
    assert DecisionIds(decisions)[j] == DecisionIds(decisions)[i];
  }

  // ---- the pause ---------------------------------------------------------------------------------------------------

  lemma CodesOfCovered(plan: Plan, id: Id)
    requires id in CoveredIds(plan.criteria)
    ensures SortedCodes(plan, id) != []
  {
    var i :| 0 <= i < |plan.criteria| && plan.criteria[i].actionId == id;
    CodesAreOfCriteria(plan.criteria, id, plan.criteria[i].code);
    SortByMultiset(TextLeq, CodesFor(plan.criteria, id));
  }

  lemma PauseContractHolds(plan: Plan, decisions: seq<PolicyDecision>)
    requires OnePerAction(decisions, plan.actions) && plan.actions != [] && Distinct(ActionIds(plan.actions))
    requires NoDenial(decisions) && SomeAsk(decisions)
    ensures PauseContract(plan, decisions)
  {
    OnePerActionIds(decisions, plan.actions);
  }

  lemma SomeActionAsks(actions: seq<PlanAction>, decisions: seq<PolicyDecision>) returns (k: nat)
    requires OnePerAction(decisions, actions) && Distinct(ActionIds(actions)) && SomeAsk(decisions)
    requires forall a :: a in actions ==> a.id in DecisionByAction(decisions)
    ensures k < |actions| && FirstAsk(actions, DecisionByAction(decisions)) == Some(actions[k])
  {
    k := FirstAskAt(actions, DecisionByAction(decisions));
    var i :| 0 <= i < |decisions| && decisions[i].decision.Ask?;
    DecisionAt(decisions, actions, i);
  }

  lemma PauseAsks(identity: Identity, plan: Plan, decisions: seq<PolicyDecision>)
    requires OnePerAction(decisions, plan.actions) && plan.actions != [] && Distinct(ActionIds(plan.actions))
    requires CoveredIds(plan.criteria) == SetOf(ActionIds(plan.actions)) && NoDenial(decisions) && SomeAsk(decisions)
    ensures PauseRequest(identity, plan, decisions).Ok?
  {
    PauseContractHolds(plan, decisions);
    DecisionsCover(plan, decisions);
    var k := SomeActionAsks(plan.actions, decisions);
    assert ActionIds(plan.actions)[k] == plan.actions[k].id;
    CodesOfCovered(plan, plan.actions[k].id);
  }

  /** A run that must ask always can: the pause goes on exactly with a deadline after the moment it asks. */
  lemma PauseGoesOn(env: Env, trace: seq<State>, i: nat, issuedAt: int, expiresAt: int, answered: ApprovalRequest, approve: bool)
    requires Run(env, trace) && i < |trace| && trace[i].node.PauseNode?
    ensures PauseStep(env, trace[i], issuedAt, expiresAt, answered, approve).Some? <==> issuedAt < expiresAt
  {
    RunInvariant(env, trace, i);
    RunEvaluated(env, trace, i);
    RunAuthorized(env, trace, i);
    PauseFromShape(env, trace[i], issuedAt, expiresAt, answered, approve);
  }

  lemma PauseFromShape(env: Env, s: State, issuedAt: int, expiresAt: int, answered: ApprovalRequest, approve: bool)
    requires Shape(s) && PlanSound(s) && Evaluated(env, s) && Authorized(s) && s.node.PauseNode?
    ensures PauseStep(env, s, issuedAt, expiresAt, answered, approve).Some? <==> issuedAt < expiresAt
  {
    EvaluatedOnePerAction(env, s);
    PauseAsks(env.identity, s.plan.value, s.decisions);
  }

  // ---- the answer ----------------------------------------------------------------------------------------------------

  /** What an answer may say, and when: an expiry at or after the deadline, a decision only before it. */
  predicate AnswerInTime(checkpoint: Checkpoint, outcome: ApprovalOutcome, decidedAt: int) {
    && (decidedAt >= checkpoint.expiresAt <==> outcome.OutcomeExpired?)
    && (outcome.OutcomeApproved? ==> checkpoint.approve) && (outcome.OutcomeDenied? ==> !checkpoint.approve)
  }

  /** A paused run goes on exactly with an answer to its own request, in time, that does not contradict one already
      kept; an approval leads to the dispatch, a denial or an expiry to the response. */
  lemma AnswerGoesOn(env: Env, trace: seq<State>, i: nat, resolutionId: string, outcome: ApprovalOutcome, decidedAt: int)
    requires Run(env, trace) && i < |trace| && trace[i].node.ResumeNode?
    ensures trace[i].pending.Paused?
    ensures var s, checkpoint, next := trace[i], trace[i].pending.checkpoint, ResumeStep(env, trace[i], resolutionId, outcome, decidedAt);
            && (next.Some? <==>
                  && checkpoint.answered == checkpoint.request && AnswerInTime(checkpoint, outcome, decidedAt)
                  && (checkpoint.request in s.resolutions ==>
                        s.resolutions[checkpoint.request] == Resolution(checkpoint, resolutionId, outcome, decidedAt)))
            && (next.Some? ==>
                  && (next.value.node.DispatchNode? <==> outcome.OutcomeApproved?) && (next.value.status.Executing? <==> outcome.OutcomeApproved?)
                  && (next.value.status.Denied? <==> outcome.OutcomeDenied?) && (next.value.status.Expired? <==> outcome.OutcomeExpired?)
                  && (next.value.node.ResponseNode? <==> !outcome.OutcomeApproved?))
  {
    RunShape(env, trace, i);
    RunApproval(env, trace, i);
    AnswerFromShape(env, trace[i], resolutionId, outcome, decidedAt);
  }

  lemma AnswerFromShape(env: Env, s: State, resolutionId: string, outcome: ApprovalOutcome, decidedAt: int)
    requires Shape(s) && PendingFine(env, s) && s.node.ResumeNode?
    ensures s.pending.Paused?
    ensures var checkpoint, next := s.pending.checkpoint, ResumeStep(env, s, resolutionId, outcome, decidedAt);
            && (next.Some? <==>
                  && checkpoint.answered == checkpoint.request && AnswerInTime(checkpoint, outcome, decidedAt)
                  && (checkpoint.request in s.resolutions ==>
                        s.resolutions[checkpoint.request] == Resolution(checkpoint, resolutionId, outcome, decidedAt)))
            && (next.Some? ==>
                  && (next.value.node.DispatchNode? <==> outcome.OutcomeApproved?) && (next.value.status.Executing? <==> outcome.OutcomeApproved?)
                  && (next.value.status.Denied? <==> outcome.OutcomeDenied?) && (next.value.status.Expired? <==> outcome.OutcomeExpired?)
                  && (next.value.node.ResponseNode? <==> !outcome.OutcomeApproved?))
  {
    var first := PauseFacts(env.identity, s.plan.value, s.decisions);
    assert ResolutionValid(Resolution(s.pending.checkpoint, resolutionId, outcome, decidedAt))
      <==> AnswerInTime(s.pending.checkpoint, outcome, decidedAt);
  }

  // ---- the dispatch ---------------------------------------------------------------------------------------------------

  /** The approval a dispatch is offered. */
  function OfferedApproval(s: State): Option<ApprovalResult> {
    if s.pending.Resolved? then Some(s.pending.result) else None
  }

  lemma RelationsHold(env: Env, s: State)
    requires PlanSound(s) && ResultsFit(s) && Evaluated(env, s) && Permitted(s) && s.node.DispatchNode?
    ensures s.plan.Some? && RelationsFine(s.plan.value, s.decisions, s.results)
  {
    EvaluatedOnePerAction(env, s);
    OnePerActionIds(s.decisions, s.plan.value.actions);
  }

  lemma SelectedIndex(plan: Plan, results: seq<ActionResult>) returns (k: nat)
    requires SelectAction(plan, results).Ok?
    ensures k < |plan.actions| && plan.actions[k] == SelectAction(plan, results).value
  {
    var action := SelectAction(plan, results).value;
    k :| 0 <= k < |plan.actions| && plan.actions[k] == action;
  }

  lemma SelectedAt(env: Env, s: State, k: nat)
    requires PlanSound(s) && Evaluated(env, s) && s.node.DispatchNode? && s.plan.Some? && k < |s.plan.value.actions|
    ensures k < |s.decisions| == |s.plan.value.actions|
    ensures s.plan.value.actions[k].id in DecisionByAction(s.decisions)
    ensures DecisionByAction(s.decisions)[s.plan.value.actions[k].id] == s.decisions[k]
    ensures SortedCodes(s.plan.value, s.plan.value.actions[k].id) != []
  {
    EvaluatedOnePerAction(env, s);
    DecisionAt(s.decisions, s.plan.value.actions, k);
    assert ActionIds(s.plan.value.actions)[k] == s.plan.value.actions[k].id;
    CodesOfCovered(s.plan.value, s.plan.value.actions[k].id);
  }

  lemma SelectedProof(env: Env, s: State, k: nat)
    requires PlanSound(s) && ResultsFit(s) && Evaluated(env, s) && Permitted(s) && PendingFine(env, s) && ResolutionsFine(s)
    requires s.node.DispatchNode? && s.plan.Some? && k < |s.plan.value.actions| == |s.decisions|
    requires SelectAction(s.plan.value, s.results) == Ok(s.plan.value.actions[k])
    requires s.plan.value.actions[k].id in DecisionByAction(s.decisions)
    requires DecisionByAction(s.decisions)[s.plan.value.actions[k].id] == s.decisions[k]
    requires SortedCodes(s.plan.value, s.plan.value.actions[k].id) != []
    ensures BuildDispatch(env.identity, s.plan.value, s.decisions, s.results, OfferedApproval(s)).Ok?
       <==> s.decisions[k].decision.Allow? || (s.pending.Resolved? && s.pending.result.actionId == s.plan.value.actions[k].id)
  {
    RelationsHold(env, s);
    var action := s.plan.value.actions[k];
    DispatchIsProof(env.identity, s.plan.value, s.decisions, s.results, OfferedApproval(s), action);
    assert !s.decisions[k].decision.Deny?;
    if s.decisions[k].decision.Ask? {
      assert SomeAsk(s.decisions);
      var request := PauseRequest(env.identity, s.plan.value, s.decisions).value;
      assert ResolutionFine(request, s.resolutions[request]);
      ApprovalReachesOnlyFirstAsk(env.identity, s.plan.value, s.decisions, s.results, s.resolutions[request], action);
    }
  }

  /** The action at k is next, and is allowed or the one the approval was given for. */
  predicate MayRun(s: State, k: nat)
    requires s.plan.Some?
  {
    && k < |s.plan.value.actions| && k < |s.decisions| && SelectAction(s.plan.value, s.results) == Ok(s.plan.value.actions[k])
    && (s.decisions[k].decision.Allow? || (s.pending.Resolved? && s.pending.result.actionId == s.plan.value.actions[k].id))
  }

  lemma BuildSelects(env: Env, s: State)
    requires s.plan.Some? && BuildDispatch(env.identity, s.plan.value, s.decisions, s.results, OfferedApproval(s)).Ok?
    ensures SelectAction(s.plan.value, s.results).Ok?
  {
  }

  /** At a dispatch every check of the state holds, and a request is built exactly if an action is left to do and
      that action is allowed, or is the one the approval was given for. */
  lemma DispatchGoesOn(env: Env, trace: seq<State>, i: nat)
    requires Run(env, trace) && i < |trace| && trace[i].node.DispatchNode?
    ensures trace[i].plan.Some? && RelationsFine(trace[i].plan.value, trace[i].decisions, trace[i].results)
    ensures BuildDispatch(env.identity, trace[i].plan.value, trace[i].decisions, trace[i].results, OfferedApproval(trace[i])).Ok?
       <==> exists k :: 0 <= k < |trace[i].plan.value.actions| && MayRun(trace[i], k)
  {
    RunInvariant(env, trace, i);
    RunEvaluated(env, trace, i);
    RunAuthorized(env, trace, i);
    RunApproval(env, trace, i);
    DispatchFromState(env, trace[i]);
  }

  /** What the invariants say about a run that stands at a dispatch. */
  ghost predicate AtDispatchGate(env: Env, s: State) {
    && s.node.DispatchNode? && s.plan.Some? && PlanSound(s) && ResultsFit(s) && Evaluated(env, s) && Permitted(s)
    && PendingFine(env, s) && ResolutionsFine(s)
  }

  lemma MayRunBuilds(env: Env, s: State, k: nat)
    requires AtDispatchGate(env, s) && k < |s.plan.value.actions| && SelectAction(s.plan.value, s.results) == Ok(s.plan.value.actions[k])
    ensures BuildDispatch(env.identity, s.plan.value, s.decisions, s.results, OfferedApproval(s)).Ok? <==> MayRun(s, k)
  {
    SelectedAt(env, s, k);
    SelectedProof(env, s, k);
  }

  lemma DispatchFromState(env: Env, s: State)
    requires AtDispatchGate(env, s)
    ensures RelationsFine(s.plan.value, s.decisions, s.results)
    ensures BuildDispatch(env.identity, s.plan.value, s.decisions, s.results, OfferedApproval(s)).Ok?
       <==> exists k :: 0 <= k < |s.plan.value.actions| && MayRun(s, k)
  {
    RelationsHold(env, s);
    BuiltMayRun(env, s);
    if k :| 0 <= k < |s.plan.value.actions| && MayRun(s, k) { MayRunBuilds(env, s, k); }
  }

  lemma BuiltMayRun(env: Env, s: State)
    requires AtDispatchGate(env, s)
    ensures BuildDispatch(env.identity, s.plan.value, s.decisions, s.results, OfferedApproval(s)).Ok? ==>
              exists k :: 0 <= k < |s.plan.value.actions| && MayRun(s, k)
  {
    if BuildDispatch(env.identity, s.plan.value, s.decisions, s.results, OfferedApproval(s)).Ok? {
      BuildSelects(env, s);
      var k := SelectedIndex(s.plan.value, s.results);
      MayRunBuilds(env, s, k);
    }
  }

  // ---- the result, the verification and the revision ------------------------------------------------------------------

  /** The report is of a dispatched action of the plan, of this task and desktop, in the order of time. */
  predicate ReportFits(env: Env, s: State, report: ExecutorResult, collectedAt: int)
    requires s.plan.Some?
  {
    && report.identity == env.identity && report.actionId in s.dispatches && report.identity == s.dispatches[report.actionId].request.identity
    && (exists k :: 0 <= k < |s.plan.value.actions| && s.plan.value.actions[k].id == report.actionId)
    && s.dispatches[report.actionId].queuedAt <= report.startedAt <= report.completedAt <= collectedAt
  }

  /** What the collection records for a report. */
  function Collection(env: Env, s: State, report: ExecutorResult): ActionResult
    requires report.actionId in s.dispatches
  {
    ActionResult(report.actionId, DispatchId(env.identity.taskId, report.actionId), report.receiptId,
                 CollectedOutcome(report, s.dispatches[report.actionId]), report.completedAt)
  }

  lemma DispatchIdsDistinct(env: Env, s: State)
    requires ResultsFit(s) && ResultsDispatched(env, s)
    ensures Distinct(DispatchIds(s.results))
  {
    forall i, j | 0 <= i < j < |s.results| ensures DispatchIds(s.results)[i] != DispatchIds(s.results)[j] {
      assert ResultIds(s.results)[i] != ResultIds(s.results)[j];
      assert ResultTimely(env, s.results[i], s.dispatches[s.results[i].actionId]);
      assert ResultTimely(env, s.results[j], s.dispatches[s.results[j].actionId]);
    }
  }

  lemma ListedId(actions: seq<PlanAction>, id: Id)
    ensures id in ActionIds(actions) <==> exists k :: 0 <= k < |actions| && actions[k].id == id
  {
    if k :| 0 <= k < |actions| && actions[k].id == id { assert ActionIds(actions)[k] == id; }
  }

  lemma DispatchesHaveIds(s: State)
    requires DispatchesFine(s)
    ensures forall id :: id in s.dispatches ==> s.dispatches[id].request.content.id == id
  {
    forall id | id in s.dispatches ensures s.dispatches[id].request.content.id == id {
      assert DispatchFine(id, s.dispatches[id], SucceededIds(s.results));
    }
  }

  /** No result of the action is kept but this one. */
  predicate KeptAs(results: seq<ActionResult>, r: ActionResult) {
    forall q :: q in results && q.actionId == r.actionId ==> q == r
  }

  /** A run that waits for a result goes on exactly with a fitting report that does not contradict a result already
      kept, as long as the executor has not used a receipt twice. */
  lemma CollectGoesOn(env: Env, trace: seq<State>, i: nat, report: ExecutorResult, collectedAt: int)
    requires Run(env, trace) && i < |trace| && trace[i].node.CollectNode?
    ensures trace[i].plan.Some?
    ensures CollectStep(env, trace[i], report, collectedAt).Some?
       <==> && Distinct(ReceiptIds(trace[i].results)) && ReportFits(env, trace[i], report, collectedAt)
            && KeptAs(trace[i].results, Collection(env, trace[i], report))
  {
    RunInvariant(env, trace, i);
    RunEvaluated(env, trace, i);
    EvaluatedOnePerAction(env, trace[i]);
    CollectFromState(env, trace[i], report, collectedAt);
  }

  lemma KeptResult(results: seq<ActionResult>, id: Id, r: ActionResult)
    requires Distinct(ResultIds(results))
    requires r.actionId == id
    ensures id in ResultByAction(results) ==> (ResultByAction(results)[id] == r <==> KeptAs(results, r))
    ensures id !in ResultByAction(results) ==> forall q :: q in results ==> q.actionId != id
  {
    if id in ResultByAction(results) {
      var kept := ResultByAction(results)[id];
      var i :| 0 <= i < |results| && results[i] == kept;
      forall q | q in results && q.actionId == id ensures q == kept {
        var j :| 0 <= j < |results| && results[j] == q;
        assert ResultIds(results)[i] == ResultIds(results)[j];
      }
    }
  }

  lemma ResultStateHolds(env: Env, s: State)
    requires ResultsFit(s) && PlanSound(s) && ResultsDispatched(env, s) && s.node.CollectNode? && s.plan.Some? && s.plan.value.actions != []
    ensures ResultStateFine(s.plan.value, s.results) <==> Distinct(ReceiptIds(s.results))
  {
    DispatchIdsDistinct(env, s);
  }

  lemma FitsCorrelates(env: Env, s: State, report: ExecutorResult, collectedAt: int)
    requires DispatchesFine(s) && s.plan.Some?
    ensures ReportFits(env, s, report, collectedAt)
       <==> && report.identity == env.identity && report.actionId in ActionIds(s.plan.value.actions)
            && report.actionId in s.dispatches && Correlated(report, s.dispatches[report.actionId], collectedAt)
  {
    DispatchesHaveIds(s);
    ListedId(s.plan.value.actions, report.actionId);
  }

  lemma CollectFromState(env: Env, s: State, report: ExecutorResult, collectedAt: int)
    requires Shape(s) && ResultsFit(s) && PlanSound(s) && DispatchesFine(s) && ResultsDispatched(env, s) && s.node.CollectNode?
    requires s.plan.value.actions != []
    ensures CollectStep(env, s, report, collectedAt).Some?
       <==> && Distinct(ReceiptIds(s.results)) && ReportFits(env, s, report, collectedAt)
            && KeptAs(s.results, Collection(env, s, report))
  {
    ResultStateHolds(env, s);
    FitsCorrelates(env, s, report, collectedAt);
    if report.actionId in s.dispatches { KeptResult(s.results, report.actionId, Collection(env, s, report)); }
  }

  /** A verification is stored exactly if it is of this task, thread, revision and plan, is a valid record of valid
      observations, and follows from them. */
  lemma VerifyGoesOn(env: Env, trace: seq<State>, i: nat, criteria: seq<Observation>, a: Aggregate)
    requires Run(env, trace) && i < |trace| && trace[i].node.VerifyNode? && env.maxRevision <= 2
    ensures trace[i].plan.Some?
    ensures VerifyStep(env, trace[i], criteria, a).Some?
       <==> && a.verification == VerificationId(env.identity.taskId, env.identity.threadId, trace[i].revision, trace[i].plan.value)
            && a.taskId == env.identity.taskId && a.threadId == env.identity.threadId && a.revision == trace[i].revision
            && Verification.AggregateValid(a) && (forall k :: 0 <= k < |criteria| ==> ObservationValid(criteria[k]))
            && SemanticsValid(a, criteria, trace[i].plan.value, trace[i].results, env.maxRevision)
  {
    RunInvariant(env, trace, i);
    RunEvidence(env, trace, i);
    RunValidated(env, trace, i);
    ValidatedHasActions(env, trace[i]);
    VerifyFromState(env, trace[i], criteria, a);
  }

  lemma VerifyFromState(env: Env, s: State, criteria: seq<Observation>, a: Aggregate)
    requires Shape(s) && ResultsFit(s) && PlanSound(s) && s.node.VerifyNode? && s.revision <= env.maxRevision && s.plan.value.actions != []
    ensures VerifyStep(env, s, criteria, a).Some? <==> VerifiedBy(env, s, criteria, a)
  {
    if VerifiedBy(env, s, criteria, a) { VerifiedSteps(env, s, criteria, a); }
  }

  /** A revision goes on exactly with an accepted draft that contradicts no executed action and merges to an accepted
      revision. */
  lemma RevisionGoesOn(env: Env, trace: seq<State>, i: nat, draft: ModelDraft, bundle: Bundle)
    requires Run(env, trace) && i < |trace| && trace[i].node.ReviseNode? && env.maxRevision <= 2
    requires ModelAccepted(draft, env.intent, bundle, env.drafts)
    ensures trace[i].plan.Some? && LabelsResolved(draft.actions) && CriteriaResolved(draft)
    ensures var plan, results := trace[i].plan.value, trace[i].results;
            var merged := MergeExecutedPlan(Projected(env.digest, env.identity.taskId, draft), plan, results);
            (ReviseStep(env, trace[i], draft, bundle).Some? <==>
              merged.Ok? && RevisionAccepted(merged.value, plan, results, bundle, env.validation))
  {
    AcceptedResolves(draft, env.intent, bundle, env.drafts);
    RevisionNeverRefused(env, trace, i);
  }

  lemma NextRevises(env: Env, s: State, s': State)
    requires Next(env, s, s') && s.node.ReviseNode?
    ensures s.plan.Some? && s'.plan.Some? && s'.plan.value != s.plan.value && s'.plan.value.objective == s.plan.value.objective
    ensures s'.node.ValidateNode? && s'.status.Planning? && s'.revision == s.revision + 1
    ensures s'.decisions == [] && s'.pending.NoApproval? && s'.results == s.results && s'.dispatches == s.dispatches
  {
    var input :| Step(env, s, input) == Some(s');
    var candidate := ReviseEffect(env, s, input.draft, input.bundle);
    StepFrame(env, s, input);
  }

  /** A revision always changes the plan, for the same objective, and takes back decisions and approval. */
  lemma RevisionChanges(env: Env, trace: seq<State>, i: nat)
    requires Run(env, trace) && i + 1 < |trace| && trace[i].node.ReviseNode?
    ensures trace[i].plan.Some? && trace[i + 1].plan.Some?
    ensures trace[i + 1].plan.value != trace[i].plan.value && trace[i + 1].plan.value.objective == trace[i].plan.value.objective
    ensures trace[i + 1].node.ValidateNode? && trace[i + 1].status.Planning? && trace[i + 1].revision == trace[i].revision + 1
    ensures trace[i + 1].decisions == [] && trace[i + 1].pending.NoApproval? && trace[i + 1].results == trace[i].results
  {
    NextRevises(env, trace[i], trace[i + 1]);
  }
}
