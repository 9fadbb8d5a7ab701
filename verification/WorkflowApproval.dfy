/** What every run keeps about approvals: which resolution stands behind each dispatched action. */
module WorkflowApproval {
  import opened Collections
  import opened PlanModel
  import opened PlanValidation
  import opened Policy
  import opened Verification
  import opened Dispatch
  import opened Revision
  import opened Workflow
  import opened WorkflowBounds
  import opened WorkflowSafety

  /** The digest that binds a dispatched request. */
  function DigestOf(r: DispatchRequest): ActionDigest {
    ActionDigest(r.identity, r.content, SortBy(TextLeq, r.codes), r.decision.decisionId, r.decision.decision, r.decision.risk,
                 r.decision.referenceId, r.decision.version)
  }

  /** The resolution of a request for exactly this dispatch, approved strictly before it expired. */
  predicate Backs(request: ApprovalRequest, r: Resolution, d: DispatchRequest) {
    && r.checkpoint.request == request
    && r.outcome.OutcomeApproved? && r.decidedAt < r.checkpoint.expiresAt && r.checkpoint.approve
    && r.checkpoint.answered == request
    && d.approval == Some(ResultOf(r))
    && request.identity == d.identity && request.actionId == d.content.id && request.digest == DigestOf(d)
  }

  predicate Backed(d: DispatchRequest, resolutions: map<ApprovalRequest, Resolution>) {
    exists request :: request in resolutions && Backs(request, resolutions[request], d)
  }

  predicate ResolutionFine(request: ApprovalRequest, r: Resolution) {
    r.checkpoint.request == request && r.checkpoint.answered == request && ResolutionValid(r)
  }

  predicate ResolutionsFine(s: State) {
    forall request :: request in s.resolutions ==> ResolutionFine(request, s.resolutions[request])
  }

  /** The approval in the state always belongs to the current plan and its current decisions. */
  predicate PendingFine(env: Env, s: State) {
    !s.pending.NoApproval? ==>
      && s.plan.Some?
      && PauseRequest(env.identity, s.plan.value, s.decisions).Ok?
      && var request := PauseRequest(env.identity, s.plan.value, s.decisions).value;
         && (s.pending.Paused? ==> s.pending.checkpoint.request == request)
         && (s.pending.Resolved? ==> request in s.resolutions && ResultOf(s.resolutions[request]) == s.pending.result)
  }

  predicate AsksBacked(s: State) {
    forall id :: id in s.dispatches && s.dispatches[id].request.decision.decision.Ask? ==>
      Backed(s.dispatches[id].request, s.resolutions)
  }

  predicate ApprovalInvariant(env: Env, s: State) {
    ResolutionsFine(s) && PendingFine(env, s) && AsksBacked(s)
  }

  lemma ResumeEffect(env: Env, s: State, resolutionId: string, outcome: ApprovalOutcome, decidedAt: int)
    requires ResumeStep(env, s, resolutionId, outcome, decidedAt).Some?
    ensures s.pending.Paused?
    ensures var s', request := ResumeStep(env, s, resolutionId, outcome, decidedAt).value, s.pending.checkpoint.request;
            && (forall r :: r in s.resolutions ==> r in s'.resolutions && s'.resolutions[r] == s.resolutions[r])
            && (forall r :: r in s'.resolutions ==> r in s.resolutions || r == request)
            && request in s'.resolutions && ResolutionFine(request, s'.resolutions[request])
            && s'.pending == Resolved(ResultOf(s'.resolutions[request]))
  {
  }

  lemma ResolutionsFineKept(env: Env, s: State, input: Input)
    requires ResolutionsFine(s) && Step(env, s, input).Some?
    ensures ResolutionsFine(Step(env, s, input).value)
  {
    StepFrame(env, s, input);
    if s.node.ResumeNode? { ResumeEffect(env, s, input.resolutionId, input.outcome, input.decidedAt); }
  }

  lemma PendingFineKept(env: Env, s: State, input: Input)
    requires Shape(s) && PendingFine(env, s) && Step(env, s, input).Some?
    ensures PendingFine(env, Step(env, s, input).value)
  {
    StepFrame(env, s, input);
    if s.node.ResumeNode? {
      ResumeEffect(env, s, input.resolutionId, input.outcome, input.decidedAt);
    } else if s.node.ReviseNode? {
      var candidate := ReviseEffect(env, s, input.draft, input.bundle);
    }
  }

  lemma BackedGrows(d: DispatchRequest, resolutions: map<ApprovalRequest, Resolution>, more: map<ApprovalRequest, Resolution>)
    requires Backed(d, resolutions) && forall r :: r in resolutions ==> r in more && more[r] == resolutions[r]
    ensures Backed(d, more)
  {
    var request :| request in resolutions && Backs(request, resolutions[request], d);
    assert Backs(request, more[request], d);
  }

  lemma DispatchIsBacked(env: Env, s: State, now: int) returns (action: PlanAction, request: DispatchRequest)
    requires ApprovalInvariant(env, s) && DispatchStep(env, s, now).Some?
    ensures request.decision.decision.Ask? ==> Backed(request, s.resolutions)
    ensures var store := DispatchStep(env, s, now).value.dispatches;
            && (forall id :: id in s.dispatches ==> id in store && store[id] == s.dispatches[id])
            && (forall id :: id in store ==> id in s.dispatches || (id == action.id && store[id].request == request))
  {
    action, request := DispatchEffect(env, s, now);
    if request.approval.Some? {
      var asked := PauseRequest(env.identity, s.plan.value, s.decisions).value;
      var first := PauseFacts(env.identity, s.plan.value, s.decisions);
      assert ResolutionFine(asked, s.resolutions[asked]);
      assert Backs(asked, s.resolutions[asked], request);
    }
  }

  lemma AsksBackedKept(env: Env, s: State, input: Input)
    requires Shape(s) && ApprovalInvariant(env, s) && Step(env, s, input).Some?
    ensures AsksBacked(Step(env, s, input).value)
  {
    StepFrame(env, s, input);
    var s' := Step(env, s, input).value;
    if s.node.DispatchNode? {
      var action, request := DispatchIsBacked(env, s, input.now);
    } else if s.node.ResumeNode? {
      ResumeEffect(env, s, input.resolutionId, input.outcome, input.decidedAt);
      forall id | id in s'.dispatches && s'.dispatches[id].request.decision.decision.Ask?
        ensures Backed(s'.dispatches[id].request, s'.resolutions)
      {
        BackedGrows(s.dispatches[id].request, s.resolutions, s'.resolutions);
      }
    }
  }

  lemma ApprovalKept(env: Env, s: State, s': State)
    requires Shape(s) && ApprovalInvariant(env, s) && Next(env, s, s')
    ensures ApprovalInvariant(env, s')
  {
    var input :| Step(env, s, input) == Some(s');
    ResolutionsFineKept(env, s, input);
    PendingFineKept(env, s, input);
    AsksBackedKept(env, s, input);
  }

  lemma {:induction false} RunApproval(env: Env, trace: seq<State>, i: nat)
    requires Run(env, trace) && i < |trace|
    ensures ApprovalInvariant(env, trace[i])
  {
    if i == 0 {
      ApprovalStarts(env, trace[0].status);
    } else {
      RunApproval(env, trace, i - 1);
      RunShape(env, trace, i - 1);
      RunStepApproval(env, trace, i);
    }
  }

  lemma ApprovalStarts(env: Env, status: Status)
    ensures ApprovalInvariant(env, Start(status))
  {
  }

  lemma RunStepApproval(env: Env, trace: seq<State>, i: nat)
    requires Run(env, trace) && 0 < i < |trace| && Shape(trace[i - 1]) && ApprovalInvariant(env, trace[i - 1])
    ensures ApprovalInvariant(env, trace[i])
  {
    ApprovalKept(env, trace[i - 1], trace[i]);
  }

  /** In every run, every dispatched action whose decision was to ask carries an approval resolved as
      approved strictly before its expiry, for exactly the identity, content, verification codes and
      policy decision that were dispatched. */
  lemma DispatchedAsksAreApproved(env: Env, trace: seq<State>, i: nat, id: Id)
    requires Run(env, trace) && i < |trace|
    requires id in trace[i].dispatches && trace[i].dispatches[id].request.decision.decision.Ask?
    ensures Backed(trace[i].dispatches[id].request, trace[i].resolutions)
  {
    RunApproval(env, trace, i);
  }

  /** No approval crosses a plan change: from a revision to the next pause there is none, and one in the
      state always answers the request of the current plan and decisions. */
  lemma ApprovalBelongsToPlan(env: Env, trace: seq<State>, i: nat)
    requires Run(env, trace) && i < |trace|
    ensures trace[i].node.ValidateNode? || trace[i].node.PolicyNode? || trace[i].node.PauseNode? ==> trace[i].pending.NoApproval?
    ensures trace[i].pending.Resolved? ==>
              && trace[i].plan.Some?
              && PauseRequest(env.identity, trace[i].plan.value, trace[i].decisions).Ok?
              && trace[i].pending.result.digest == PauseRequest(env.identity, trace[i].plan.value, trace[i].decisions).value.digest
  {
    RunApproval(env, trace, i);
    RunShape(env, trace, i);
    var s := trace[i];
    if s.pending.Resolved? {
      var request := PauseRequest(env.identity, s.plan.value, s.decisions).value;
      assert ResolutionFine(request, s.resolutions[request]);
    }
  }

  /** A limit of the pause: it always asks for the first action in plan order that needs asking, even
      one that has run.  Once that one has its result, a run that selects another action to be asked can
      take no further step. */
  lemma LaterAskIsStuck(env: Env, trace: seq<State>, i: nat, action: PlanAction, input: Input)
    requires Run(env, trace) && i < |trace| && trace[i].node.DispatchNode? && trace[i].plan.Some?
    requires PauseRequest(env.identity, trace[i].plan.value, trace[i].decisions).Ok?
    requires PauseRequest(env.identity, trace[i].plan.value, trace[i].decisions).value.actionId in ResultIds(trace[i].results)
    requires SelectAction(trace[i].plan.value, trace[i].results) == Ok(action)
    requires action.id in DecisionByAction(trace[i].decisions) && DecisionByAction(trace[i].decisions)[action.id].decision.Ask?
    ensures Step(env, trace[i], input).None?
  {
    RunApproval(env, trace, i);
    if input.Clock? {
      StuckDispatch(env, trace[i], input.now, action);
    }
  }

  lemma StuckDispatch(env: Env, s: State, now: int, action: PlanAction)
    requires PendingFine(env, s) && ResolutionsFine(s) && s.plan.Some?
    requires PauseRequest(env.identity, s.plan.value, s.decisions).Ok?
    requires PauseRequest(env.identity, s.plan.value, s.decisions).value.actionId in ResultIds(s.results)
    requires SelectAction(s.plan.value, s.results) == Ok(action)
    requires action.id in DecisionByAction(s.decisions) && DecisionByAction(s.decisions)[action.id].decision.Ask?
    ensures DispatchStep(env, s, now).None?
  {
    assert Ready(action, s.results);
    var request := PauseRequest(env.identity, s.plan.value, s.decisions).value;
    if s.pending.Resolved? { assert ResolutionFine(request, s.resolutions[request]); }
  }

  // ---- who may reach a dispatch ----------------------------------------------------------------------

  predicate NoDenial(decisions: seq<PolicyDecision>) {
    forall i :: 0 <= i < |decisions| ==> !decisions[i].decision.Deny?
  }

  predicate SomeAsk(decisions: seq<PolicyDecision>) {
    exists i :: 0 <= i < |decisions| && decisions[i].decision.Ask?
  }

  /** Nothing is denied, and if anything must be asked an approval has been given. */
  predicate Permitted(s: State) {
    && NoDenial(s.decisions)
    && if SomeAsk(s.decisions) then s.pending.Resolved? && s.pending.result.outcome.OutcomeApproved? else s.pending.NoApproval?
  }

  predicate Refused(s: State) {
    (s.node.ResponseNode? || s.node.EndNode?) && (s.status.Denied? || s.status.Expired?)
  }

  /** Nodes from dispatch on are permitted; a refusal names who refused. */
  predicate Authorized(s: State) {
    && (s.node.PauseNode? || s.node.ResumeNode? ==> NoDenial(s.decisions) && SomeAsk(s.decisions))
    && (s.node.DispatchNode? || s.node.CollectNode? || AfterCollect(s.node) ==> Refused(s) || Permitted(s))
    && (Refused(s) && s.status.Denied? ==>
          || (!NoDenial(s.decisions) && s.pending.NoApproval?)
          || (NoDenial(s.decisions) && s.pending.Resolved? && s.pending.result.outcome.OutcomeDenied?))
    && (Refused(s) && s.status.Expired? ==> NoDenial(s.decisions) && s.pending.Resolved? && s.pending.result.outcome.OutcomeExpired?)
  }

  lemma PolicyAuthorizes(env: Env, s: State, snapshot: Snapshot, advice: Assessment)
    requires s.node.PolicyNode? && s.pending.NoApproval? && PolicyStep(env, s, snapshot, advice).Some?
    ensures Authorized(PolicyStep(env, s, snapshot, advice).value)
  {
  }

  lemma ResumeAuthorizes(env: Env, s: State, resolutionId: string, outcome: ApprovalOutcome, decidedAt: int)
    requires s.node.ResumeNode? && Authorized(s) && ResumeStep(env, s, resolutionId, outcome, decidedAt).Some?
    ensures Authorized(ResumeStep(env, s, resolutionId, outcome, decidedAt).value)
  {
  }

  lemma VerifyAuthorizes(env: Env, s: State, criteria: seq<Observation>, a: Aggregate)
    requires s.node.VerifyNode? && Authorized(s) && VerifyStep(env, s, criteria, a).Some?
    ensures Authorized(VerifyStep(env, s, criteria, a).value)
  {
  }

  lemma AuthorizedKept(env: Env, s: State, input: Input)
    requires Shape(s) && Authorized(s) && Step(env, s, input).Some?
    ensures Authorized(Step(env, s, input).value)
  {
    if s.node.PolicyNode? {
      PolicyAuthorizes(env, s, input.snapshot, input.advice);
    } else if s.node.ResumeNode? {
      ResumeAuthorizes(env, s, input.resolutionId, input.outcome, input.decidedAt);
    } else if s.node.VerifyNode? {
      VerifyAuthorizes(env, s, input.criteria, input.aggregate);
    } else {
      StepFrame(env, s, input);
      StepFollowsEdge(env, s, input);
      QuietAuthorized(s, Step(env, s, input).value);
    }
  }

  /** The other nodes leave decisions, approval and final status alone. */
  lemma QuietAuthorized(s: State, s': State)
    requires Authorized(s) && Edge(s.node, s'.node) && !s.node.PolicyNode? && !s.node.ResumeNode? && !s.node.VerifyNode?
    requires !s.node.ReviseNode? ==> s'.decisions == s.decisions
    requires !s.node.ReviseNode? && !s.node.PauseNode? ==> s'.pending == s.pending
    requires s.node.ResponseNode? ==> s'.status == s.status
    ensures Authorized(s')
  {
  }

  lemma AuthorizedStarts(status: Status)
    ensures Authorized(Start(status)) && NothingDispatched(Start(status))
  {
  }

  lemma AuthorizedNext(env: Env, s: State, s': State)
    requires Shape(s) && Authorized(s) && Next(env, s, s')
    ensures Authorized(s')
  {
    var input :| Step(env, s, input) == Some(s');
    AuthorizedKept(env, s, input);
  }

  lemma {:induction false} RunAuthorized(env: Env, trace: seq<State>, i: nat)
    requires Run(env, trace) && i < |trace|
    ensures Authorized(trace[i])
  {
    if i == 0 {
      AuthorizedStarts(trace[0].status);
    } else {
      RunAuthorized(env, trace, i - 1);
      RunShape(env, trace, i - 1);
      RunStepAuthorized(env, trace, i);
    }
  }

  lemma RunStepAuthorized(env: Env, trace: seq<State>, i: nat)
    requires Run(env, trace) && 0 < i < |trace| && Shape(trace[i - 1]) && Authorized(trace[i - 1])
    ensures Authorized(trace[i])
  {
    AuthorizedNext(env, trace[i - 1], trace[i]);
  }

  /** A run reaches a dispatch only if no decision denies and, when any decision is to ask, an approval has
      been given; and it ends as denied or expired only if policy denied, or the user denied or did not
      answer in time. */
  lemma DispatchIsPermitted(env: Env, trace: seq<State>, i: nat)
    requires Run(env, trace) && i < |trace|
    ensures trace[i].node.DispatchNode? ==> Permitted(trace[i])
    ensures trace[i].node.ResponseNode? && trace[i].status.Expired? ==>
              trace[i].pending.Resolved? && trace[i].pending.result.outcome.OutcomeExpired?
    ensures trace[i].node.ResponseNode? && trace[i].status.Denied? ==>
              (NoDenial(trace[i].decisions) <==> trace[i].pending.Resolved? && trace[i].pending.result.outcome.OutcomeDenied?)
  {
    RunAuthorized(env, trace, i);
  }

  /** Before its first dispatch, and when refused without a revision, a run has dispatched nothing. */
  predicate NothingDispatched(s: State) {
    s.revision == 0 && (Refused(s) || BeforeDispatch(s.node) || s.plan.None?) ==> s.dispatches == map[] && s.results == []
  }

  lemma NothingDispatchedKept(env: Env, s: State, input: Input)
    requires Shape(s) && NothingDispatched(s) && Step(env, s, input).Some?
    ensures NothingDispatched(Step(env, s, input).value)
  {
    if s.node.VerifyNode? {
      VerifiedNotRefused(env, s, input.criteria, input.aggregate);
    } else {
      QuietNothingStep(env, s, input);
    }
  }

  lemma QuietNothingStep(env: Env, s: State, input: Input)
    requires Shape(s) && NothingDispatched(s) && !s.node.VerifyNode? && Step(env, s, input).Some?
    ensures NothingDispatched(Step(env, s, input).value)
  {
    StepFrame(env, s, input);
    StepFollowsEdge(env, s, input);
    QuietNothing(s, Step(env, s, input).value);
  }

  lemma QuietNothing(s: State, s': State)
    requires Shape(s) && NothingDispatched(s) && !s.node.VerifyNode?
    requires Transition(s.node, s.revision, s'.node, s'.revision)
    requires !s.node.DispatchNode? ==> s'.dispatches == s.dispatches
    requires !s.node.CollectNode? ==> s'.results == s.results
    requires !s.node.PlanNode? && !s.node.ReviseNode? ==> s'.plan == s.plan
    requires s.node.ResponseNode? ==> s'.status == s.status
    ensures NothingDispatched(s')
  {
  }

  lemma VerifiedNotRefused(env: Env, s: State, criteria: seq<Observation>, a: Aggregate)
    requires s.node.VerifyNode? && VerifyStep(env, s, criteria, a).Some?
    ensures !Refused(VerifyStep(env, s, criteria, a).value)
  {
  }

  lemma NothingDispatchedNext(env: Env, s: State, s': State)
    requires Shape(s) && NothingDispatched(s) && Next(env, s, s')
    ensures NothingDispatched(s')
  {
    var input :| Step(env, s, input) == Some(s');
    NothingDispatchedKept(env, s, input);
  }

  lemma {:induction false} RunNothingDispatched(env: Env, trace: seq<State>, i: nat)
    requires Run(env, trace) && i < |trace|
    ensures NothingDispatched(trace[i])
  {
    if i == 0 {
      AuthorizedStarts(trace[0].status);
    } else {
      RunNothingDispatched(env, trace, i - 1);
      RunShape(env, trace, i - 1);
      RunStepNothing(env, trace, i);
    }
  }

  lemma RunStepNothing(env: Env, trace: seq<State>, i: nat)
    requires Run(env, trace) && 0 < i < |trace| && Shape(trace[i - 1]) && NothingDispatched(trace[i - 1])
    ensures NothingDispatched(trace[i])
  {
    NothingDispatchedNext(env, trace[i - 1], trace[i]);
  }

  /** A run refused without a revision has run nothing. */
  lemma RefusedRunsNothing(env: Env, trace: seq<State>, i: nat)
    requires Run(env, trace) && i < |trace| && trace[i].revision == 0
    requires trace[i].node.ResponseNode? && (trace[i].status.Denied? || trace[i].status.Expired?)
    ensures trace[i].dispatches == map[] && trace[i].results == []
  {
    RunNothingDispatched(env, trace, i);
  }
}
