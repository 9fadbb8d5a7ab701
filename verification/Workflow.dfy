/** The control graph of a run: one node at a time reads the shared state and returns the next one. */
module Workflow {
  import opened Collections
  import opened PlanModel
  import opened CriticalPath
  import opened PlanValidation
  import opened PlanDrafting
  import opened Policy
  import opened Verification
  import opened Dispatch
  import opened Revision

  datatype Node =
    | NormalizeNode | ContextNode | IntentNode | PlanNode | ValidateNode | PolicyNode | PauseNode | ResumeNode
    | DispatchNode | CollectNode | VerifyNode | ReviseNode | ResponseNode | EndNode

  datatype Status =
    | Created | Planning | AwaitingApproval | Executing | Verifying
    | Succeeded | PartiallySucceeded | RunFailed | Denied | Expired

  predicate Terminal(s: Status) {
    s.Succeeded? || s.PartiallySucceeded? || s.RunFailed? || s.Denied? || s.Expired?
  }

  datatype Pending = NoApproval | Paused(checkpoint: Checkpoint) | Resolved(result: ApprovalResult)

  /** The shared state, with the two durable stores a run writes: the first dispatch of each action and
      the one resolution of each approval request.  Errors are the codes the context node appends. */
  datatype State = State(
    node: Node, status: Status, plan: Option<Plan>, decisions: seq<PolicyDecision>, pending: Pending,
    results: seq<ActionResult>, entries: seq<Entry>, revision: nat,
    dispatches: map<Id, DispatchRecord>, resolutions: map<ApprovalRequest, Resolution>, errors: seq<string>)

  /** What stays fixed during a run. */
  datatype Env = Env(
    identity: Identity, intent: string, digest: Digest, drafts: DraftSettings, validation: ValidationSettings,
    grace: nat, maxRevision: nat)

  /** What the outside world contributes to one step. */
  datatype Input =
    | Proceed
    | Context(projectLoaded: bool, memoryLoaded: bool)
    | Draft(draft: ModelDraft, bundle: Bundle)
    | Manifest(bundle: Bundle)
    | PolicyData(snapshot: Snapshot, advice: Assessment)
    | Answer(issuedAt: int, expiresAt: int, answered: ApprovalRequest, approve: bool)
    | Decision(resolutionId: string, outcome: ApprovalOutcome, decidedAt: int)
    | Clock(now: int)
    | Receipt(result: ExecutorResult, collectedAt: int)
    | Probes(criteria: seq<Observation>, aggregate: Aggregate)

  function Start(status: Status): State {
    State(NormalizeNode, status, None, [], NoApproval, [], [], 0, map[], map[], [])
  }

  // ---- routers ------------------------------------------------------------------------------------

  function RouteAfterPolicy(status: Status): Option<Node> {
    if status.AwaitingApproval? then Some(PauseNode)
    else if status.Executing? then Some(DispatchNode)
    else if status.Denied? then Some(ResponseNode)
    else None
  }

  function RouteAfterApproval(status: Status): Option<Node> {
    if status.Executing? then Some(DispatchNode)
    else if status.Denied? || status.Expired? then Some(ResponseNode)
    else None
  }

  function RouteAfterVerification(status: Status): Option<Node> {
    if status.Planning? then Some(ReviseNode)
    else if Terminal(status) then Some(ResponseNode)
    else None
  }

  function Routed(s: State, node: Option<Node>): Option<State> {
    if node.Some? then Some(s.(node := node.value)) else None
  }

  // ---- nodes --------------------------------------------------------------------------------------

  function PrepareStep(s: State): Option<State> {
    match s.node
    case NormalizeNode => if s.status.Created? || s.status.Planning? then Some(s.(status := Planning, node := ContextNode)) else None
    case IntentNode => if s.status.Planning? then Some(s.(node := PlanNode)) else None
    case _ => None
  }

  const PROJECT_UNAVAILABLE := "project_context_unavailable"
  const MEMORY_UNAVAILABLE := "memory_context_unavailable"

  /** Project and memory references are optional: each that cannot be loaded leaves an error code. */
  function ContextStep(s: State, projectLoaded: bool, memoryLoaded: bool): Option<State> {
    if !s.status.Planning? then None
    else
      var missing := (if projectLoaded then [] else [PROJECT_UNAVAILABLE]) + (if memoryLoaded then [] else [MEMORY_UNAVAILABLE]);
      Some(s.(errors := s.errors + missing, node := IntentNode))
  }

  function PlanStep(env: Env, s: State, draft: ModelDraft, bundle: Bundle): Option<State> {
    if !s.status.Planning? || s.plan.Some? || !ModelAccepted(draft, env.intent, bundle, env.drafts) then None
    else
      AcceptedResolves(draft, env.intent, bundle, env.drafts);
      Some(s.(plan := Some(Projected(env.digest, env.identity.taskId, draft)), node := ValidateNode))
  }

  ghost function ValidateStep(env: Env, s: State, bundle: Bundle): Option<State> {
    if !s.status.Planning? || s.plan.None? || !Accepted(s.plan.value, bundle, env.validation) then None
    else Some(s.(node := PolicyNode))
  }

  function PolicyStatus(w: WorkflowStatus): Status {
    match w case StatusDenied => Denied case StatusAwaitingApproval => AwaitingApproval case StatusExecuting => Executing
  }

  predicate AdviceKnown(advice: Assessment, actions: seq<PlanAction>) {
    |advice| <= 16
    && forall k :: 0 <= k < |advice| && advice[k].actionId.Some? ==> advice[k].actionId.value in ActionIds(actions)
  }

  function PolicyStep(env: Env, s: State, snapshot: Snapshot, advice: Assessment): Option<State> {
    if !s.status.Planning? || s.plan.None? || s.decisions != [] || s.plan.value.actions == []
       || !SnapshotValid(snapshot) || !AdviceKnown(advice, s.plan.value.actions)
    then None
    else
      var decisions := Decide(env.identity.taskId, snapshot, advice, s.plan.value.actions);
      var status := PolicyStatus(StatusOf(decisions));
      Routed(s.(decisions := decisions, status := status), RouteAfterPolicy(status))
  }

  function PauseStep(env: Env, s: State, issuedAt: int, expiresAt: int, answered: ApprovalRequest, approve: bool): Option<State> {
    if !s.status.AwaitingApproval? || !s.pending.NoApproval? || s.plan.None? || expiresAt <= issuedAt then None
    else
      var request := PauseRequest(env.identity, s.plan.value, s.decisions);
      if request.Err? then None
      else Some(s.(pending := Paused(Checkpoint(request.value, issuedAt, expiresAt, answered, approve)), node := ResumeNode))
  }

  function ApprovalStatus(outcome: ApprovalOutcome): Status {
    match outcome case OutcomeApproved => Executing case OutcomeDenied => Denied case OutcomeExpired => Expired
  }

  /** The approval store keeps the first resolution of a request. */
  function ResumeStep(env: Env, s: State, resolutionId: string, outcome: ApprovalOutcome, decidedAt: int): Option<State> {
    if !s.status.AwaitingApproval? || !s.pending.Paused? || s.pending.checkpoint.request.identity != env.identity
       || s.pending.checkpoint.answered != s.pending.checkpoint.request
    then None
    else
      var request := s.pending.checkpoint.request;
      var claimed := Resolution(s.pending.checkpoint, resolutionId, outcome, decidedAt);
      if !ResolutionValid(claimed) || (request in s.resolutions && s.resolutions[request] != claimed) then None
      else
        var status := ApprovalStatus(outcome);
        Routed(s.(pending := Resolved(ResultOf(claimed)), status := status, resolutions := s.resolutions[request := claimed]),
               RouteAfterApproval(status))
  }

  function DispatchStep(env: Env, s: State, now: int): Option<State> {
    if !s.status.Executing? || s.plan.None? || s.pending.Paused? then None
    else
      var approval := if s.pending.Resolved? then Some(s.pending.result) else None;
      var request := BuildDispatch(env.identity, s.plan.value, s.decisions, s.results, approval);
      if request.Err? then None
      else
        var store := CreateOrGetDispatch(s.dispatches, request.value, now, env.grace);
        if store.None? then None else Some(s.(dispatches := store.value, node := CollectNode))
  }

  function CollectStep(env: Env, s: State, result: ExecutorResult, collectedAt: int): Option<State> {
    if !s.status.Executing? || s.plan.None? then None
    else
      var delta := CollectDelta(s.dispatches, env.identity, s.plan.value, s.results, result, collectedAt);
      if delta.None? then None
      else Some(s.(results := s.results + delta.value, status := Verifying, node := VerifyNode))
  }

  function VerifiedStatus(t: TaskStatus): Status {
    match t
    case StatusPlanning => Planning
    case StatusSucceeded => Succeeded
    case StatusPartial => PartiallySucceeded
    case StatusFailed => RunFailed
  }

  function CriterionEntries(criteria: seq<Observation>): seq<Entry> {
    seq(|criteria|, i requires 0 <= i < |criteria| => CriterionEntry(criteria[i]))
  }

  function VidOf(env: Env, s: State): VerificationId
    requires s.plan.Some?
  {
    VerificationId(env.identity.taskId, env.identity.threadId, s.revision, s.plan.value)
  }

  /** What every path of verification requires of the record it projects. */
  predicate VerifiedBy(env: Env, s: State, criteria: seq<Observation>, a: Aggregate)
    requires s.plan.Some?
  {
    && a.verification == VidOf(env, s) && a.revision == s.revision
    && a.taskId == env.identity.taskId && a.threadId == env.identity.threadId
    && Verification.AggregateValid(a)
    && (forall i :: 0 <= i < |criteria| ==> ObservationValid(criteria[i]))
    && SemanticsValid(a, criteria, s.plan.value, s.results, env.maxRevision)
  }

  function VerifyStep(env: Env, s: State, criteria: seq<Observation>, a: Aggregate): Option<State> {
    if !s.status.Verifying? || s.revision > env.maxRevision || s.plan.None? || s.plan.value.actions == []
       || !Distinct(ActionIds(s.plan.value.actions)) || !Distinct(ResultIds(s.results))
       || !(SetOf(ResultIds(s.results)) <= SetOf(ActionIds(s.plan.value.actions)))
       || !VerifiedBy(env, s, criteria, a)
    then None
    else
      var status := VerifiedStatus(StatusFor(a));
      Routed(s.(entries := s.entries + CriterionEntries(criteria) + [AggregateEntry(a)], status := status),
             RouteAfterVerification(status))
  }

  /** What a revision requires of the state before it looks at a model plan. */
  predicate RevisionState(env: Env, s: State) {
    && s.status.Planning? && s.revision < 2 && s.plan.Some?
    && s.plan.value.objective == env.intent
    && Distinct(ResultIds(s.results)) && SetOf(ResultIds(s.results)) <= SetOf(ActionIds(s.plan.value.actions))
  }

  /** A recoverable verification of the current revision is what triggers a revision. */
  predicate RevisionTriggered(s: State)
    requires s.plan.Some?
  {
    var evidence := EvidenceFor(s.entries, s.revision, s.plan.value, s.results);
    evidence.Some? && evidence.value.Evidence? && evidence.value.aggregate.recoverable
  }

  ghost function ReviseStep(env: Env, s: State, draft: ModelDraft, bundle: Bundle): Option<State> {
    if !RevisionState(env, s) || !RevisionTriggered(s) || !ModelAccepted(draft, env.intent, bundle, env.drafts) then None
    else
      AcceptedResolves(draft, env.intent, bundle, env.drafts);
      var merged := MergeExecutedPlan(Projected(env.digest, env.identity.taskId, draft), s.plan.value, s.results);
      if merged.Err? || !RevisionAccepted(merged.value, s.plan.value, s.results, bundle, env.validation) then None
      else Some(s.(plan := Some(merged.value), revision := s.revision + 1, decisions := [], pending := NoApproval,
                   status := Planning, node := ValidateNode))
  }

  function LastAggregate(entries: seq<Entry>): Option<Aggregate> {
    if entries == [] then None
    else if entries[|entries| - 1].AggregateEntry? then Some(entries[|entries| - 1].a)
    else LastAggregate(entries[..|entries| - 1])
  }

  /** The evidence a final response must find. */
  predicate SupportsResponse(s: State) {
    && Terminal(s.status)
    && var last := LastAggregate(s.entries);
    && (last.Some? ==> s.plan.Some? && SemanticsValid(last.value, FinalCriteria(s), s.plan.value, s.results, 2))
    && (s.status.Succeeded? ==> last.Some? && last.value.outcome.OutcomeSucceeded?)
    && (s.status.PartiallySucceeded? ==> last.Some? && last.value.outcome.OutcomePartial?)
  }

  /** The observations a response speaks about: those of the last verification. */
  function FinalCriteria(s: State): seq<Observation> {
    var last := LastAggregate(s.entries);
    if last.Some? then CriteriaOfPass(s.entries, last.value.verification) else []
  }

  function EvidenceIds(observations: seq<Observation>): set<string> {
    set i, k | 0 <= i < |observations| && 0 <= k < |observations[i].evidence| :: observations[i].evidence[k]
  }

  function ObservedReasons(observations: seq<Observation>): set<string> {
    set i | 0 <= i < |observations| && observations[i].reason.Some? :: observations[i].reason.value
  }

  function DenyReasons(decisions: seq<PolicyDecision>): set<string> {
    set i, k | 0 <= i < |decisions| && decisions[i].decision.Deny? && 0 <= k < |decisions[i].reasons| :: decisions[i].reasons[k]
  }

  const APPROVAL_DENIED := "approval_denied"
  const APPROVAL_EXPIRED := "approval_expired"

  function RefusalCodes(s: State): set<string> {
    (if s.pending.Resolved? && s.pending.result.outcome.OutcomeDenied? then {APPROVAL_DENIED} else {})
    + (if s.pending.Resolved? && s.pending.result.outcome.OutcomeExpired? then {APPROVAL_EXPIRED} else {})
    + (if s.status.Expired? then {APPROVAL_EXPIRED} else {})
  }

  /** What a response reports as unresolved. */
  function IssueCodes(s: State): set<string> {
    ObservedReasons(FinalCriteria(s)) + DenyReasons(s.decisions) + RefusalCodes(s) + SetOf(s.errors)
  }

  /** The length limits of the three lists of a response. */
  predicate FitsResponse(s: State) {
    |EvidenceIds(FinalCriteria(s))| <= 64 && |SetOf(ReceiptIds(s.results))| <= 16 && |IssueCodes(s)| <= 64
  }

  predicate Renderable(s: State) {
    SupportsResponse(s) && FitsResponse(s)
  }

  function ResponseStep(s: State): Option<State> {
    if Renderable(s) then Some(s.(node := EndNode)) else None
  }

  // ---- runs ---------------------------------------------------------------------------------------

  /** One node transition; None when the node raises an error or the input is not for this node. */
  ghost function Step(env: Env, s: State, input: Input): Option<State> {
    match s.node
    case ContextNode => if input.Context? then ContextStep(s, input.projectLoaded, input.memoryLoaded) else None
    case PlanNode => if input.Draft? then PlanStep(env, s, input.draft, input.bundle) else None
    case ValidateNode => if input.Manifest? then ValidateStep(env, s, input.bundle) else None
    case PolicyNode => if input.PolicyData? then PolicyStep(env, s, input.snapshot, input.advice) else None
    case PauseNode => if input.Answer? then PauseStep(env, s, input.issuedAt, input.expiresAt, input.answered, input.approve) else None
    case ResumeNode => if input.Decision? then ResumeStep(env, s, input.resolutionId, input.outcome, input.decidedAt) else None
    case DispatchNode => if input.Clock? then DispatchStep(env, s, input.now) else None
    case CollectNode => if input.Receipt? then CollectStep(env, s, input.result, input.collectedAt) else None
    case VerifyNode => if input.Probes? then VerifyStep(env, s, input.criteria, input.aggregate) else None
    case ReviseNode => if input.Draft? then ReviseStep(env, s, input.draft, input.bundle) else None
    case ResponseNode => if input.Proceed? then ResponseStep(s) else None
    case EndNode => None
    case _ => if input.Proceed? then PrepareStep(s) else None
  }

  ghost predicate Next(env: Env, s: State, s': State) {
    exists input :: Step(env, s, input) == Some(s')
  }

  /** A run from the start, one entry per visited state. */
  ghost predicate Run(env: Env, trace: seq<State>) {
    && trace != []
    && (trace[0] == Start(Created) || trace[0] == Start(Planning))
    && forall i :: 0 < i < |trace| ==> Next(env, trace[i - 1], trace[i])
  }
}
