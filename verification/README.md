# JARVIS task engine: a verified model

This project models the deterministic core of a policy-governed task engine and proves what it is for.
A model draft with step labels is compiled to a plan with content-derived identifiers, re-checked by an
independent validator, judged by policy, paused for approval, dispatched one action at a time, verified
against evidence and revised at most twice.  Around it stand an append-only task log with a live stream,
session establishment, the resource lifecycle of the backend, and the policy overlays of the desktop.
`dafny verify dfyconfig.toml` checks the whole project.

## How it is laid out

- Plan pipeline: `PlanModel`, `TopologicalOrder`, `CriticalPath`, `PlanValidation`, `PlanDrafting`, with
  `ProjectionTheorems` (an accepted draft compiles to a valid plan), `PlanInvariance` (labels and
  listing order do not matter) and `PlanContent` (what compiled and accepted plans say, step by step).
- One run of the control graph: `Policy`, `Dispatch`, `Verification`, `Revision`, `Response` hold the
  nodes; `Workflow` puts them together as one state machine whose inputs are arbitrary model drafts,
  manifests, policy snapshots, advice, approval answers, executor results, probe verdicts and clocks.
  `WorkflowBounds`, `WorkflowSafety`, `WorkflowApproval`, `WorkflowOutcome`, `WorkflowVerdict`,
  `WorkflowManifest` and `WorkflowResponse` prove what all runs keep, and `WorkflowProgress` what it takes to go
  on from each gate.  `PolicyMeaning` says what an evaluation decides in terms of the rules and the advice.
  `WorkflowRuns` builds runs node by node, `WorkflowLiveness` says what the runs of any accepted draft can achieve
  and which limits they can meet, and `Scenarios` gives concrete inputs.
- Durable log and live stream: `TaskLog`, `TaskRepository`, `TaskDecisions` (what each operation does and who
  decided what), `LiveStream` (nothing wrong is sent), `StreamCompleteness` (nothing is missing).
- Sessions: `SessionAuthority` (the two stores), `SessionEstablishment` (all interleavings of concurrent
  establishments), `SessionProvenance` (where every grant comes from), `RequestNonces`, `Base64Url`.
- `Lifecycle` (start, re-check, drain, close) and `PolicyOverlay` (desktop overlays, signed layout).
- `Collections` holds sequence, set and order facts.

Code that changes state step by step is written as classes and methods with loops, each tied to a
specification function or an outright property; code made of expressions is written as functions.
A lock-protected body is one atomic step, and steps of different connections or establishments
interleave freely.

## Modelling choices

- Hashes.  An action id is the value of an arbitrary function of its canonical text; the theorems say
  where distinct texts must have distinct values and, for id distinctness, that this is exactly what
  is needed.  Approval digests, decision, dispatch, verification and observation ids are the
  structured texts themselves.  Identifiers of one fixed length compare like the numbers they write.
- Stores the engine calls (dispatches, approvals) return the first record of a key on every later
  call.  A stored verification or revision passes the same checks as a fresh one, and those checks,
  with the revision its identifier was made from, are what the corresponding step requires.
- Manifests.  The theorems hold for all manifests; `PlanValidation.BundleFine` states the bounds of the record,
  which the concrete manifest keeps.
- Random identifiers (session and challenge ids, task and event ids) are inputs required not to have
  been used before.
- JSON texts sorted by distinct argument names are compared as multisets.

## Findings

- One action runs per turn and there is one turn more than there may be revisions
  (backend/src/jarvis/graph/builder.py:219-254, backend/src/jarvis/graph/revision.py:345-359).  An accepted
  plan is carried out by some run exactly if it has no more actions than turns, three with the default settings
  (`WorkflowLiveness.CarriedOutExactly`); drafts may have eight (`Scenarios.FourActionsNever`).
- The approval pause always asks for the first ask action in plan order, also when it has already run
  (backend/src/jarvis/graph/approval.py:284-293).  A later ask action is then never dispatched
  (`WorkflowApproval.LaterAskIsStuck`, `Dispatch.ApprovalReachesOnlyFirstAsk`), which can happen to every
  accepted draft of two actions (`WorkflowLiveness.SecondAskIsStuck`, `Scenarios.RenameIsStuck`).
- A response holds at most 64 evidence references (backend/src/jarvis/graph/response.py:88), but 16 criteria
  with 8 references each (backend/src/jarvis/graph/verification.py:242-245) may name 128.  A run that proves
  enough of them succeeds and renders no response (`WorkflowResponse.ResponseAfterVerification`,
  `WorkflowLiveness.Succeeds`, `Scenarios.SuccessWithoutResponse`).  The limits on receipts and issue codes are
  never reached.
- A run denied, or whose approval expired, after a revision renders a response only if the revision kept
  criteria and number of actions, because the old evidence is checked against the revised plan
  (backend/src/jarvis/graph/response.py:236-246; `WorkflowResponse.ResponseAfterDenial`,
  `WorkflowLiveness.DeniedUnrendered`, `Scenarios.DenialWithoutResponse`).
- Verification may be configured for fewer than two revisions
  (backend/src/jarvis/graph/verification.py:427-428), but the response always checks under two
  (backend/src/jarvis/graph/response.py:239-243), so a run can end in evidence the response refuses
  (`WorkflowOutcome.BoundMatters`, `WorkflowResponse.ResponseAfterVerification`,
  `WorkflowLiveness.FailsUnrendered`, `Scenarios.FailureWithoutResponse`).
- A request nonce is remembered until the whole-second expiry of the token
  (backend/src/jarvis/security/desktop_auth.py:325-334), while the session lasts to the fraction of a second: in
  between a nonce is accepted again (`RequestNonces.AuthenticatedAgain`, exact;
  `RequestNonces.HalfSecondAuthenticatesTwice`).
- A full queue is emptied for an event of one task, and only that task's client is told to start over
  (backend/src/jarvis/websocket/session.py:148-160).  Events of other tasks that waited are lost without a word
  until their next event shows a gap (`StreamCompleteness.OverflowSilencesOthers`; exactly when a message is lost:
  `StreamCompleteness.LostExactly`; delivery otherwise: `StreamCompleteness.PublishedArrives`).
- With the default budgets the edge budget (backend/src/jarvis/graph/validation.py:43) never rejects a plan
  (`ProjectionTheorems.DefaultProjection`).

## Model

| member | source | states |
|---|---|---|
| TopologicalOrder.TopologicalSort | backend/src/jarvis/graph/validation.py:241-277 | succeeds exactly when the listed dependencies are known and distinct, the ids are distinct and the dependency graph has no cycle; the error says which failed; the result is a permutation of the actions and the first linear extension in dictionary order of ids |
| TopologicalOrder.DrainWorklist | backend/src/jarvis/graph/validation.py:241-277 | the outer worklist loop empties the ready list keeping the greedy prefix, the unmet dependency sets and the ready set exact |
| TopologicalOrder.Release | backend/src/jarvis/graph/validation.py:265-274 | the inner loop removes one finished action from every dependency set and queues exactly the actions that became ready |
| TopologicalOrder.GreedyIsLeast | backend/src/jarvis/graph/validation.py:241-277 | always taking the smallest ready id gives an order no other linear extension precedes |
| TopologicalOrder.StuckMeansCycle | backend/src/jarvis/graph/validation.py:241-277 | if every remaining id waits for a remaining one, a closed walk exists (pigeonhole on a long walk) |
| TopologicalOrder.ExtensionAcyclic | backend/src/jarvis/graph/validation.py:241-277 | a graph with a linear extension has no cycle |
| TopologicalOrder.Incomplete | backend/src/jarvis/graph/validation.py:275-277 | a worklist that runs dry early proves a repeated id or a cycle |
| TopologicalOrder.OrderIndependence | backend/src/jarvis/graph/validation.py:241-277 | listing the same actions in another order gives the same sorted result |
| CriticalPath.FillLongestPaths | backend/src/jarvis/graph/validation.py:300-308 | filling the table in topological order gives every action its own timeout plus the maximum over its dependencies |
| CriticalPath.ValidateBudgets | backend/src/jarvis/graph/validation.py:280-310 | accepts exactly the plans within the five count budgets whose every dependency chain from a root stays within the critical-path limit |
| CriticalPath.TableBoundsChains | backend/src/jarvis/graph/validation.py:300-310 | no rooted chain costs more than the table entry of its last action |
| CriticalPath.TableAttained | backend/src/jarvis/graph/validation.py:300-310 | some rooted chain costs exactly the table entry, so the entry is the maximum |
| CriticalPath.EveryChainWithin | backend/src/jarvis/graph/validation.py:300-310 | once timeouts are not negative, limiting rooted chains limits all chains |
| CriticalPath.EdgeBound | backend/src/jarvis/graph/validation.py:285-299 | an acyclic plan of n actions lists at most n(n-1)/2 dependencies |
| PlanValidation.ValidatePlan | backend/src/jarvis/graph/validation.py:313-365 | accepts exactly the plans meeting all five stages and otherwise reports the error of the first stage that fails |
| PlanValidation.ValidateActions | backend/src/jarvis/graph/validation.py:337-348 | accepts exactly when every action fits its capability and repeats no earlier one; otherwise the first fault decides the error |
| PlanValidation.ValidateCriteria | backend/src/jarvis/graph/validation.py:350-365 | accepts exactly when criteria are declared, distinct per action and code, and cover every action |
| PlanValidation.ArgumentsCheck | backend/src/jarvis/graph/validation.py:149-187 | passes exactly when every argument fits its parameter kind, bounds and resource type |
| PlanDrafting.ValidateModelPlan | backend/src/jarvis/graph/plan.py:604-712 | accepts exactly the drafts that meet header, step and criterion rules, and returns them unchanged |
| PlanDrafting.ValidateSteps | backend/src/jarvis/graph/plan.py:640-689 | the step loop accepts exactly when each step fits the manifest, depends only on earlier distinct steps and repeats no earlier step |
| PlanDrafting.ValidateModelCriteria | backend/src/jarvis/graph/plan.py:690-712 | the criterion loop accepts exactly declared, distinct criteria that cover every step |
| PlanDrafting.ProjectPlan | backend/src/jarvis/graph/plan.py:720-780 | the loop that grows the label dictionary builds the specified projection |
| ProjectionTheorems.LabelsInjective | backend/src/jarvis/graph/plan.py:720-751 | without digest collisions different step labels get different action ids (strong induction over the dependency order) |
| ProjectionTheorems.DistinctIdsIffCollisionFree | backend/src/jarvis/graph/plan.py:715-751 | the projected action ids are distinct exactly when the action keys of the draft do not collide |
| ProjectionTheorems.ProjectedListedInOrder | backend/src/jarvis/graph/plan.py:720-751 | a projection lists every action after its dependencies |
| ProjectionTheorems.ProjectedCoverage | backend/src/jarvis/graph/plan.py:752-780 | coverage of steps becomes coverage of actions |
| ProjectionTheorems.ProjectionPreservesValidity | backend/src/jarvis/graph/plan.py:604-780 | whatever the settings of either side, an accepted draft projects to a plan the independent validator accepts under the same manifest exactly when keys do not collide and the plan fits the validator's budgets |
| ProjectionTheorems.OnlyTimeoutsReject | backend/src/jarvis/graph/validation.py:280-310 | with validator budgets no narrower than those of drafting only collisions, the total timeout and the critical path can reject the projection |
| ProjectionTheorems.DefaultProjection | backend/src/jarvis/graph/validation.py:37-47 | with the default budgets only collisions, the total timeout and the critical path can reject the projection: the edge budget of 32 never does |
| PlanContent.StepsBecomeActions | backend/src/jarvis/graph/plan.py:720-751 | each step becomes, at its place, an action with the same capability, arguments and time-out whose dependencies are the ids of the earlier actions with the listed labels |
| PlanContent.CriteriaBecomeCriteria | backend/src/jarvis/graph/plan.py:752-780 | each criterion keeps its code and names the action of its step; objective, assumptions and warnings are copied |
| PlanContent.AcceptedDraftMeans | backend/src/jarvis/graph/plan.py:604-712 | an accepted draft asks for the intent within its limits, keeps step by step and parameter by parameter to the manifest, waits only for earlier steps, repeats no work, and covers every step with declared codes |
| PlanContent.AcceptedMeans | backend/src/jarvis/graph/validation.py:313-365 | in an accepted plan every action keeps to its capability parameter by parameter, is covered by a criterion with a declared code and is listed once, and all count budgets hold |
| PlanContent.MisfitDecides | backend/src/jarvis/graph/validation.py:149-219 | the first argument that does not fit decides the error: an unknown resource for a resource parameter, an invalid argument otherwise |
| PlanContent.FaultNamed | backend/src/jarvis/graph/validation.py:190-348 | unknown capability, wrong version or time-out, and repeated work are reported exactly when they are the first fault of the action |
| PlanInvariance.AlphaInvariance | backend/src/jarvis/graph/plan.py:720-780 | an injective renaming of step labels leaves the projected plan identical |
| PlanInvariance.ReorderingInvariance | backend/src/jarvis/graph/plan.py:726-751 | permuting the arguments and listed dependencies of steps leaves all action and criterion ids unchanged |
| PlanInvariance.ListingInvariance | backend/src/jarvis/graph/plan.py:720-751 | listing the steps in another order compiles each step to the same action |
| Policy.MutableDecision.Tighten | backend/src/jarvis/graph/policy.py:409-429 | one in-place tightening is the specified lattice step on decision, risk, reasons and grant |
| Policy.ApplyAggregateRules | backend/src/jarvis/graph/policy.py:465-486 | the rule loop leaves every decision tightened by exactly the sorted rules that match its plan |
| Policy.ApplySecurityAssessment | backend/src/jarvis/graph/policy.py:565-597 | the advice loop leaves every decision tightened by exactly the sorted advice that targets it |
| Policy.EvaluatePolicy | backend/src/jarvis/graph/policy.py:616-672 | the mutable evaluation returns the specified final verdict of every action with the workflow status, and refuses advice for unknown actions |
| Policy.FinalVerdictClosed | backend/src/jarvis/graph/policy.py:388-486 | final risk is the maximum of all applicable risks; final decision the maximum of all applicable decisions and the floor for that risk and base grant; the grant survives exactly an allow |
| Policy.OrderFree | backend/src/jarvis/graph/policy.py:465-597 | decision, risk, grant and recorded reasons of an action stay the same when action rules, aggregate rules, advice and plan actions are all listed in other orders |
| Policy.NeverLooserThanBaseline | backend/src/jarvis/graph/policy.py:432-597 | rules and advice never lower the risk or loosen the decision of the baseline |
| Policy.MoreActionsTighten | backend/src/jarvis/graph/policy.py:465-486 | adding actions to a plan, at any positions, never loosens the verdict of an action already in it |
| Policy.ProjectionNeverFails | backend/src/jarvis/graph/policy.py:189-236 | every projected decision meets the record contract, with at most 33 distinct reasons out of the 40 allowed |
| Policy.SortedApplicable | backend/src/jarvis/graph/policy.py:465-597 | sorting rules and advice before applying them applies each exactly as often |
| PolicyMeaning.UnruledIsDenied | backend/src/jarvis/graph/policy.py:432-462 | an action without a rule for its capability and version is denied at R4 without a grant, whatever the plan and the advice |
| PolicyMeaning.RuleAloneDecides | backend/src/jarvis/graph/policy.py:432-597 | a rule nothing else speaks against gives exactly its decision, risk, reason and grant |
| PolicyMeaning.AllowedExactly | backend/src/jarvis/graph/policy.py:388-486 | an action is allowed exactly if its rule allows it, no aggregate rule is reached, and advice about it allows at no more than R1, or R2 under a grant; the grant is that of the rule exactly then |
| PolicyMeaning.DeniedExactly | backend/src/jarvis/graph/policy.py:388-486 | an action is denied exactly if it has no rule, its rule denies, or a reached aggregate rule or advice about it denies or puts it at R4 |
| PolicyMeaning.RiskReaches | backend/src/jarvis/graph/policy.py:409-429 | the risk reaches a tier exactly if there is no rule, or the rule, a reached aggregate rule or advice about the action does |
| PolicyMeaning.ReasonsCited | backend/src/jarvis/graph/policy.py:409-486 | the reasons start with that of the rule, include every reached aggregate rule and name nothing that does not speak about the action |
| PolicyMeaning.PlanDecided | backend/src/jarvis/graph/policy.py:600-672 | decision by decision as above; the run is stopped exactly if some action is barred and goes on unasked exactly if every action is free |
| PolicyMeaning.DecisionIdBinds | backend/src/jarvis/graph/policy.py:489-541 | two decisions with one id agree in task, action, decision, risk, reasons, grant and snapshot |
| Dispatch.FirstReady | backend/src/jarvis/graph/dispatch.py:403-421 | the first action in plan order without a result whose dependencies all succeeded, or none exactly when no action is ready |
| Dispatch.SelectionProgress | backend/src/jarvis/graph/dispatch.py:403-421 | in an acyclic plan whose waiting actions depend on no failure, selection succeeds exactly when an action is waiting, and otherwise only ever reports completion |
| Dispatch.DispatchGuarantees | backend/src/jarvis/graph/dispatch.py:378-464 | a built request is for a waiting action of the plan with all dependencies succeeded, under a decision that is not a denial, and carries an approval exactly when the decision is to ask |
| Dispatch.ApprovalBinds | backend/src/jarvis/graph/approval.py:296-342 | one approval opens two dispatches only if identity, action content, verification codes and policy decision are the same |
| Dispatch.ApprovalReachesOnlyFirstAsk | backend/src/jarvis/graph/approval.py:284-293 | an approval obtained for a plan opens the dispatch of a selected ask action exactly when that is the first ask action in plan order |
| Dispatch.PauseFacts | backend/src/jarvis/graph/approval.py:225-411 | a pause requests approval of one ask action of the plan, with the digest of exactly its content and decision |
| Dispatch.DispatchNeeds | backend/src/jarvis/graph/dispatch.py:378-400 | whatever state it is given, a request is only built with one decision per action, no denial, and at most one result for each action of the plan |
| Dispatch.PauseNeeds | backend/src/jarvis/graph/approval.py:225-281 | whatever state it is given, an approval is only asked for with one decision per action, none a denial, some to ask afresh, all under one policy |
| Dispatch.PauseAsksFirst | backend/src/jarvis/graph/approval.py:284-342 | the pause asks for the first action in plan order whose decision is to ask, with its content and the codes of its own criteria |
| Verification.FreshAccepted | backend/src/jarvis/graph/verification.py:781-919 | a fresh aggregate passes the semantic validator exactly when the criterion ids of the plan are distinct |
| Verification.FreshAggregateValid | backend/src/jarvis/graph/verification.py:306-345 | a fresh aggregate meets its own record contract |
| Verification.OneObservationEach | backend/src/jarvis/graph/verification.py:794-832 | in accepted evidence every criterion has exactly one observation (pigeonhole) |
| Verification.AcceptedAgree | backend/src/jarvis/graph/verification.py:794-919 | two accepted aggregates of one revision over the same observations in any order differ at most in identity and time, and give the same status |
| Verification.ObservationOrderIrrelevant | backend/src/jarvis/graph/verification.py:794-870 | the validator does not depend on the order of observations |
| Verification.SuccessIsProved | backend/src/jarvis/graph/verification.py:222-303 | a succeeded aggregate has for every criterion a passed observation with evidence from a probe that is not the system |
| Verification.ValidateCheckpointReplay | backend/src/jarvis/graph/verification.py:547-613 | the replay scan finds nothing, refuses, or returns the one aggregate exactly as the three conditions say |
| Verification.ReplayAgrees | backend/src/jarvis/graph/verification.py:547-613 | a replayed aggregate gives the status of every accepted aggregate over its observations, in whatever order |
| Verification.OutcomeByCounts | backend/src/jarvis/graph/verification.py:781-919 | an accepted aggregate counts each verdict exactly; success, partial, failed and uncertain follow from the counts, and recoverable from what may be retried and the revisions left |
| Verification.VerdictFromProbe | backend/src/jarvis/graph/verification.py:656-778 | a verdict comes from a probe that answered this criterion for this result and pass, dated after both; without result, probe or answer the criterion stays uncertain and retryable |
| Revision.MergeKeepsExecuted | backend/src/jarvis/graph/revision.py:583-624 | whatever the model proposes, a merge that succeeds keeps every executed action unchanged and with the same criteria |
| Revision.MergedFrom | backend/src/jarvis/graph/revision.py:583-624 | a merged plan holds exactly the executed actions of the plan and the other actions of the candidate |
| Revision.MergeIdempotent | backend/src/jarvis/graph/revision.py:583-624 | merging a merged plan again changes nothing |
| Revision.AcceptedRevisionIsClear | backend/src/jarvis/graph/revision.py:560-570 | the revision rule on unsuccessful dependencies is exactly what selection needs |
| Revision.RevisionProgress | backend/src/jarvis/graph/revision.py:521-570 | after an accepted revision, or a validated plan with no results, selection finds an action unless all have results |
| Revision.LoadVerification | backend/src/jarvis/graph/revision.py:290-331 | the two loops return the aggregate of the current revision with the observations of its pass, re-checked under two revisions |
| WorkflowBounds.StepFollowsEdge | backend/src/jarvis/graph/builder.py:219-254 | every step follows an edge of the compiled graph, and only a revision below two raises the revision count |
| WorkflowBounds.RunsAreShort | backend/src/jarvis/graph/builder.py:219-254 | every run has at most 28 steps and two revisions and enters each node of the loop at most three times |
| WorkflowBounds.ResponseIsTerminal | backend/src/jarvis/graph/builder.py:98-130 | a run at the response node carries a terminal status |
| WorkflowSafety.InvariantKept | backend/src/jarvis/graph/builder.py:219-254 | every node keeps the run invariant: shape, unique results of the plan, a sound plan, no waiting action on a failure, dispatches after their dependencies, content-addressed actions, one result per turn |
| WorkflowSafety.ExecutedWorkIsImmutable | backend/src/jarvis/graph/revision.py:521-559 | at any two points of a run earlier results are a prefix of later ones, no action has two, and each executed action stays in the plan with the same content and criteria |
| WorkflowSafety.ExecutedActionsStay | backend/src/jarvis/graph/revision.py:521-559 | between any two points of a run past validation the plans list the same action under the id of an executed one and check it with the same criteria |
| WorkflowSafety.DispatchedAfterDependencies | backend/src/jarvis/graph/dispatch.py:403-421 | in every run each executed action, as it was dispatched, has all its dependencies among the succeeded results |
| WorkflowSafety.DependenciesSucceeded | backend/src/jarvis/graph/dispatch.py:403-421 | in a run in whose plans no two action texts share a digest, every executed action of the current plan has all its dependencies among the succeeded results |
| WorkflowSafety.SuccessIsTimely | backend/src/jarvis/graph/action_result.py:148-180 | every result of a run answers one of its dispatches, and a success was complete within queuing time, time-out and grace |
| WorkflowSafety.DispatchSelects | backend/src/jarvis/graph/dispatch.py:403-421 | at every dispatch of every run selection finds an action or reports a complete plan; unsatisfied dependencies never occur |
| WorkflowApproval.DispatchedAsksAreApproved | backend/src/jarvis/graph/dispatch.py:424-464 | in every run each dispatched ask action carries an approval resolved as approved strictly before expiry for exactly its identity, content, codes and decision |
| WorkflowApproval.ApprovalBelongsToPlan | backend/src/jarvis/graph/revision.py:675-682 | no approval crosses a plan change: none is held from a revision to the next pause, and a held one answers the request of the current plan and decisions |
| WorkflowApproval.DispatchIsPermitted | backend/src/jarvis/graph/approval_resume.py:281-289 | a run reaches a dispatch only if no decision denies and, when any is to ask, an approval was given; it ends denied or expired only if policy denied, or the user denied or did not answer in time |
| WorkflowApproval.RefusedRunsNothing | backend/src/jarvis/graph/policy.py:600-613 | a run refused without a revision has dispatched and run nothing |
| WorkflowApproval.LaterAskIsStuck | backend/src/jarvis/graph/approval.py:284-293 | once the first ask action in plan order has run, a run that selects another ask action can take no further step |
| WorkflowOutcome.BoundMatters | backend/src/jarvis/graph/verification.py:812-822 | evidence made under a smaller revision bound is refused under a bound of two exactly when only the smaller bound is used up and every issue is retryable |
| WorkflowOutcome.EvidenceFitsOtherPlan | backend/src/jarvis/graph/verification.py:794-870 | evidence for one plan is accepted for another exactly when criteria by id and the number of actions agree |
| WorkflowOutcome.PassFound | backend/src/jarvis/graph/verification.py:958-1110 | looking up a pass by its id, or its aggregate by revision, finds exactly what that pass appended |
| WorkflowOutcome.RevisionNeverRefused | backend/src/jarvis/graph/revision.py:334-418 | a run that reaches the revision node passes every state and evidence check made there before the model is asked |
| WorkflowOutcome.SuccessIsBacked | backend/src/jarvis/graph/response.py:177-247 | a run that answers with success has every criterion of its final plan proved by a real probe on its action result |
| WorkflowOutcome.SuccessHasFewActions | backend/src/jarvis/graph/builder.py:219-254 | a run succeeds only with a final plan of at most one action more than there may be revisions, all executed |
| WorkflowOutcome.FreshPassIsTaken | backend/src/jarvis/graph/verification.py:958-1110 | a fresh pass over the criteria of a sound plan is accepted by the verification node, whatever the probes answered |
| WorkflowVerdict.StatusTellsVerdicts | backend/src/jarvis/graph/verification.py:537-544 | in every run the status after a verification says exactly what was observed: revise, succeeded, partially succeeded or failed by which verdicts there are, what may be retried and the revisions left |
| WorkflowVerdict.PartialIsBacked | backend/src/jarvis/graph/verification.py:781-791 | a run that answers with partial success has one criterion proved and one refuted by a real probe, each on the receipt of its action result |
| WorkflowVerdict.EveryEndIsExplained | backend/src/jarvis/graph/response.py:249-282 | a run that does not succeed reports why: the reason of a criterion that did not pass, all reasons of a denied action, or the code of a refused or expired approval; one that succeeds reports only context that could not be loaded |
| WorkflowVerdict.ResultsAreReports | backend/src/jarvis/graph/action_result.py:148-180 | every result of a run is what the executor reported for its dispatch, except that a report after queuing time, time-out and grace, or of a longer run than allowed, is recorded as uncertain |
| WorkflowProgress.ContextIsTold | backend/src/jarvis/graph/context.py:276-311 | where only optional context is missing the run goes on, and its error codes name exactly what could not be loaded |
| WorkflowProgress.PolicyGoesOn | backend/src/jarvis/graph/policy.py:600-672 | a run at the evaluation goes on exactly with a valid snapshot and advice about its plan, to the response, the pause or the dispatch by what was decided |
| WorkflowProgress.PauseGoesOn | backend/src/jarvis/graph/approval.py:225-411 | a run that must ask always can: no contract check of the pause ever stops it, only a deadline that is not ahead |
| WorkflowProgress.AnswerGoesOn | backend/src/jarvis/graph/approval_resume.py:168-289 | a paused run goes on exactly with a timely answer to its own request that contradicts none already kept: approved to the dispatch, denied or expired to the response |
| WorkflowProgress.DispatchGoesOn | backend/src/jarvis/graph/dispatch.py:378-464 | at a dispatch every check of the state holds, and a request is built exactly if the next action is allowed or is the one the approval was given for |
| WorkflowProgress.CollectGoesOn | backend/src/jarvis/graph/action_result.py:223-340 | a run that waits for a result goes on exactly with a report of a dispatched action of its plan, of its identity and in the order of time, that contradicts no kept result, as long as no receipt was used twice |
| WorkflowProgress.VerifyGoesOn | backend/src/jarvis/graph/verification.py:922-955 | a verification is stored exactly if it is of this task, thread, revision and plan, is a valid record of valid observations and follows from them |
| WorkflowProgress.RevisionGoesOn | backend/src/jarvis/graph/revision.py:521-624 | with an accepted draft a revision goes on exactly if the draft contradicts no executed action and merges to an accepted revision |
| WorkflowProgress.RevisionChanges | backend/src/jarvis/graph/revision.py:521-559 | a revision always changes the plan, for the same objective, and takes back decisions and approval |
| WorkflowManifest.DispatchedKeepsToManifest | backend/src/jarvis/graph/validation.py:190-219 | whatever a run has dispatched is an action of a plan that some manifest accepted: declared capability and version, time-out within its limit, every required argument, no undeclared one, each value suitable |
| WorkflowManifest.DispatchStores | backend/src/jarvis/graph/dispatch.py:661-709 | a dispatch step leaves exactly the request it built in the store, with its lease if new; another request for the action stops the run |
| WorkflowResponse.FewDenyReasons | backend/src/jarvis/graph/policy.py:432-597 | the denials of one evaluation of at most 8 actions name at most 40 different reasons together |
| WorkflowResponse.RunCodes | backend/src/jarvis/graph/response.py:256-282 | in every run the decisions carry at most 40 different denial reasons, the errors are at most the two of context loading, and a validated plan has at most 8 actions |
| WorkflowResponse.FewIssues | backend/src/jarvis/graph/response.py:256-282 | under that invariant and with at most 16 final criteria the issue codes of a response are at most 64 |
| WorkflowResponse.ResponseAfterVerification | backend/src/jarvis/graph/response.py:218-335 | after a verification the response is rendered exactly unless its observations name more than 64 pieces of evidence or a configured bound below two is used up with only retryable issues; the limits on receipts and issue codes never bind |
| WorkflowResponse.ResponseAfterDenial | backend/src/jarvis/graph/response.py:218-335 | after a denial or expiry the response is rendered always without a revision, and after one exactly when the revised plan has the criteria and the number of actions of the verified one and the evidence has at most 64 references |
| Response.LoadEvidence | backend/src/jarvis/graph/response.py:177-291 | refuses exactly the states that support no response; otherwise gives the last verification and, in ascending order without repetition, exactly the evidence of its observations, the receipts of the results and the unresolved issues |
| Response.RenderFinalResponse | backend/src/jarvis/graph/response.py:310-335 | renders exactly from renderable states a valid record with those lists and the summary of the status, or of an uncertain outcome |
| Response.LengthsDecide | backend/src/jarvis/graph/response.py:72-119 | of the rules of the response record only the three lengths can fail: the loaded lists are always sorted and without repetition |
| Response.SortedTexts | backend/src/jarvis/graph/response.py:285-291 | lists the elements of a set of texts in ascending order, each once |
| WorkflowRuns.ReachesNext | backend/src/jarvis/graph/builder.py:219-254 | a run that has reached a state goes on to every state one step further |
| WorkflowRuns.ReachesRan | backend/src/jarvis/graph/dispatch.py:378-464 | a run at a dispatch that selects an action and is not stopped can dispatch it and collect its success |
| WorkflowRuns.ReachesTimedOut | backend/src/jarvis/graph/verification.py:958-1110 | a run at verification can store a pass in which every probe timed out; it is sent to revision exactly while revisions are left, and fails otherwise |
| WorkflowRuns.ReachesPassed | backend/src/jarvis/graph/verification.py:958-1110 | a run whose criteria all concern executed actions can store a pass in which every criterion passed, with up to eight references each, and succeeds |
| WorkflowLiveness.SelectsInOrder | backend/src/jarvis/graph/dispatch.py:403-421 | the actions of a compiled draft are selected in the order they are listed, as long as each succeeds |
| WorkflowLiveness.AcceptedReordered | backend/src/jarvis/graph/validation.py:313-365 | the validator looks neither at warnings nor at the order of criteria |
| WorkflowLiveness.MergesOnCourse | backend/src/jarvis/graph/revision.py:583-624 | offering the same draft again with other warnings merges to a plan with the same actions in the same order and the same criteria |
| WorkflowLiveness.Advance | backend/src/jarvis/graph/builder.py:219-254 | for every accepted draft some run has carried out its first n actions when the n-th revision is made |
| WorkflowLiveness.CarriedOutExactly | backend/src/jarvis/graph/builder.py:219-254 | an accepted draft has a run that executes all its actions and responds with success exactly if it has at most one action more than there may be revisions |
| WorkflowLiveness.Succeeds | backend/src/jarvis/graph/response.py:88-90 | every accepted draft with few enough actions has, for each number of references per criterion, a run that succeeds; its response is rendered exactly if the references are at most 64 together |
| WorkflowLiveness.FailsUnrendered | backend/src/jarvis/graph/response.py:236-246 | with fewer than two revisions configured every accepted draft that needs them all has a run that fails after nothing but time-outs and renders no response |
| WorkflowLiveness.DeniedUnrendered | backend/src/jarvis/graph/response.py:236-246 | for every two accepted drafts that share their first action but not their number of actions there is a run that revises one to the other, is denied by policy and renders no response |
| WorkflowLiveness.SecondAskIsStuck | backend/src/jarvis/graph/approval.py:284-293 | every accepted draft of two or more actions has a run, with every request approved in time, that stands at the second dispatch without a next step for any input |
| Scenarios.BundleIsFine | backend/src/jarvis/graph/plan.py:97-206 | the manifest of the concrete drafts keeps all record bounds |
| Scenarios.DraftIsViable | backend/src/jarvis/graph/plan.py:604-780 | every concrete draft of one to four actions and up to eleven criteria is accepted by planning and validation with default settings |
| Scenarios.ThreeActionsSucceed | backend/src/jarvis/graph/builder.py:219-254 | a draft of three actions is carried out |
| Scenarios.FourActionsNever | backend/src/jarvis/graph/builder.py:219-254 | an accepted draft of four actions is carried out by no run |
| Scenarios.SuccessWithoutResponse | backend/src/jarvis/graph/response.py:88-90 | a run that succeeds with nine criteria proved by eight references each and renders no response |
| Scenarios.FailureWithoutResponse | backend/src/jarvis/graph/response.py:236-246 | a run, with no revision configured, that fails after one timed-out probe and renders no response |
| Scenarios.DenialWithoutResponse | backend/src/jarvis/graph/response.py:236-246 | a run that copies, times out, is revised to rename as well, is denied by policy and renders no response |
| Scenarios.RenameIsStuck | backend/src/jarvis/graph/approval.py:284-293 | a run with two actions to be asked and both pauses approved that stands at the second dispatch without a next step |
| TaskLog.AppendNumbered | backend/src/jarvis/tasks/repository.py:160-196 | appending keeps each task numbered 1..n exactly when the new sequence number is the next one |
| TaskLog.PageIsSlice | backend/src/jarvis/tasks/repository.py:160-196 | a page is the next slice of the task's events, its cursor their last number, and it says exactly whether more follow |
| TaskLog.FollowPages | backend/src/jarvis/tasks/repository.py:160-196 | following next_cursor with any page size returns every later event once, in order, even with appends between pages |
| TaskRepository.HistoryConsistent | backend/src/jarvis/tasks/repository.py:86-139 | over every history of operations the store stays consistent: numbered events, one task per idempotency scope, one outbox record per event |
| TaskRepository.CreationIdempotent | backend/src/jarvis/tasks/repository.py:102-139 | repeating a creation later changes nothing and returns the first task, or a conflict if the payload differs |
| TaskRepository.CancelledOnce | backend/src/jarvis/tasks/repository.py:216-292 | over every history each task gets at most one cancellation event |
| TaskRepository.DecidedAtMostOncePerPut | backend/src/jarvis/tasks/repository.py:294-375 | over every history an approval is decided at most once each time it is put |
| TaskRepository.HistoryLogs | backend/src/jarvis/tasks/repository.py:86-139 | the logs of a history are numbered and only ever extended, as paging assumes |
| TaskDecisions.DecisionTakenExactly | backend/src/jarvis/tasks/repository.py:294-318 | a decision is taken exactly for a pending, unexpired approval of the caller with the right digest; otherwise the answer says which failed and nothing changes |
| TaskDecisions.DecisionMeans | backend/src/jarvis/tasks/repository.py:319-375 | an approval leaves the record approved and the task executing, a denial the record denied and the task denied, nothing pending, and everything else as it was |
| TaskDecisions.DecisionIsTold | backend/src/jarvis/tasks/repository.py:335-364 | the decision is the next event of its task, word for word, and the outbox announces that event |
| TaskDecisions.DecisionHasAuthor | backend/src/jarvis/tasks/repository.py:294-375 | in every history whatever is on record as approved or denied was decided so by its owner, before it expired and for exactly its content |
| TaskDecisions.CancellationExactly | backend/src/jarvis/tasks/repository.py:216-250 | a cancellation is created exactly by the owner of a task that has none and is in one of the six statuses that have not ended; anything else changes nothing |
| TaskDecisions.CancellationMeans | backend/src/jarvis/tasks/repository.py:251-292 | a created cancellation marks the task, appends the next event with the status it interrupts, is announced and kept |
| TaskDecisions.CreationMeans | backend/src/jarvis/tasks/repository.py:102-139 | a new task stands as it was given, visible to its owner, and nothing else changes |
| TaskDecisions.ProjectionMeans | backend/src/jarvis/tasks/repository.py:145-158 | a projection is replaced exactly under the same owner and creation time; a pending approval of the owner makes exactly its task wait for it; neither touches the log |
| TaskRepository.InMemoryTaskRepository.CreateOrGetTask | backend/src/jarvis/tasks/repository.py:102-139 | the method's new fields and reply are those of the specified operation |
| TaskRepository.InMemoryTaskRepository.ListEvents | backend/src/jarvis/tasks/repository.py:160-196 | returns the specified page for the owner and nothing for others |
| TaskRepository.InMemoryTaskRepository.CancelTask | backend/src/jarvis/tasks/repository.py:216-292 | the method's new fields and reply are those of the specified operation |
| TaskRepository.InMemoryTaskRepository.DecideOnApproval | backend/src/jarvis/tasks/repository.py:294-375 | the method's new fields and reply are those of the specified operation |
| TaskRepository.InMemoryTaskRepository.ReplaceTaskProjection | backend/src/jarvis/tasks/repository.py:145-158 | the method's new fields are those of the specified operation |
| TaskRepository.InMemoryTaskRepository.PutApproval | backend/src/jarvis/tasks/repository.py:377-402 | the method's new fields are those of the specified operation |
| LiveStream.InMemoryTaskEventBroker.Publish | backend/src/jarvis/websocket/session.py:139-160 | every subscribed mailbox gets the event, or is emptied to one resync request and stops following the task; the others stay as they were |
| LiveStream.InMemoryTaskEventBroker.PutOrResync | backend/src/jarvis/websocket/session.py:143-160 | one mailbox is offered the event as specified |
| LiveStream.InMemoryTaskEventBroker.Register | backend/src/jarvis/websocket/session.py:115-122 | adds one empty mailbox |
| LiveStream.InMemoryTaskEventBroker.Subscribe | backend/src/jarvis/websocket/session.py:129-132 | adds the task to one mailbox |
| LiveStream.InMemoryTaskEventBroker.Unsubscribe | backend/src/jarvis/websocket/session.py:134-137 | removes the task from one mailbox |
| LiveStream.StepKeeps | backend/src/jarvis/websocket/session.py:276-448 | every atomic step of the world and of the session loop keeps the stream invariant |
| LiveStream.StreamRefinesLog | backend/src/jarvis/websocket/session.py:202-225 | in every interleaving the event frames after a subscription at cursor a are exactly events a+1, a+2, ... of the durable log, and a resync names the exact position reached |
| LiveStream.ReplayNeverDenied | backend/src/jarvis/websocket/session.py:202-225 | once the first page was accepted no later page of the same replay is refused |
| LiveStream.ResyncThenResume | backend/src/jarvis/websocket/session.py:327-366 | resubscribing at the cursor a resync reported loses and repeats nothing |
| LiveStream.CommitKeeps | backend/src/jarvis/tasks/service.py:260-326 | committing an event, with its publication still to come, keeps the stream invariant of every connection |
| StreamCompleteness.ReplayIsComplete | backend/src/jarvis/websocket/session.py:202-225 | a subscription is acknowledged only after every event of the task up to the end of the log at the last fetched page was sent, at a cursor not behind that end |
| StreamCompleteness.PublishedArrives | backend/src/jarvis/websocket/session.py:139-160 | while a connection follows a task and throws no message away, every event published for it waits, has reached the client, or belongs to a replay that will not end before it, in whatever order events are published |
| StreamCompleteness.OfferedExactly | backend/src/jarvis/websocket/session.py:139-160 | an event of a followed task is queued last while there is room; otherwise the order to resynchronise is all that waits and that task alone is followed no longer; other events pass by |
| StreamCompleteness.OverflowIsTold | backend/src/jarvis/websocket/session.py:148-160 | after an overflow the order to resynchronise waits for the connection as long as it compares events of that task with a cursor |
| StreamCompleteness.LostExactly | backend/src/jarvis/websocket/session.py:148-160 | a message that waits is lost exactly when another message overflows the full queue, or when it is in hand and a wait is cancelled or a subscription refused |
| StreamCompleteness.OverflowSilencesOthers | backend/src/jarvis/websocket/session.py:148-160 | a run in which an overflow caused by one task throws away the waiting event of another, whose client is left behind and told nothing |
| StreamCompleteness.ProcessedExactly | backend/src/jarvis/websocket/session.py:402-448 | the next event is sent, an older one dropped, and the client told to start over exactly for an event further ahead or an overflow, at its own position |
| StreamCompleteness.PageRefusedExactly | backend/src/jarvis/websocket/session.py:327-366 | a subscription is refused exactly for a negative cursor, a task of somebody else or one without events, and leaves nothing behind |
| StreamCompleteness.WithinLimits | backend/src/jarvis/websocket/session.py:73-83 | subscriptions never exceed the limit of the connection, nor waiting messages the queue |
| StreamCompleteness.SubscriptionsExactly | backend/src/jarvis/websocket/session.py:306-400 | an unsubscription leaves nothing of the task behind; a subscription is taken up exactly while there is room or the task is subscribed already |
| SessionAuthority.InMemorySessionChallengeStore.Issue | backend/src/jarvis/security/session_auth.py:170-187 | drops expired challenges, refuses collisions and exhausted limits, and keeps both limits |
| SessionAuthority.InMemorySessionChallengeStore.Consume | backend/src/jarvis/security/session_auth.py:193-203 | removes exactly the challenge whose nonce matches, once |
| SessionAuthority.InMemorySessionAuthority.RotateSession | backend/src/jarvis/security/session_auth.py:227-281 | rotates exactly for the active device, actor and expected epoch; the prior session is always found; the new state is the specified one |
| SessionAuthority.RotateKeepsFine | backend/src/jarvis/security/session_auth.py:227-281 | a rotation keeps at most one active session per device, on record and with the device epoch |
| SessionAuthority.OneActiveSession | backend/src/jarvis/security/session_auth.py:227-281 | two active sessions of a device are the same session |
| SessionEstablishment.GrantsAreUnique | backend/src/jarvis/security/session_auth.py:347-465 | in every interleaving no two grants share a challenge and no two grants of a device share an epoch |
| SessionEstablishment.GrantsAreBound | backend/src/jarvis/security/session_auth.py:347-465 | every grant is for the device, actor and backend of its challenge, and its lifetime starts while that challenge was live |
| SessionEstablishment.ActiveSessionsAreUnique | backend/src/jarvis/security/session_auth.py:227-281 | in every interleaving a device has at most one active session, with the device epoch |
| SessionEstablishment.OnlyLatestGrantPasses | backend/src/jarvis/security/desktop_auth.py:382-420 | in every interleaving a grant passes request validation exactly while it is its device's latest |
| SessionProvenance.GrantStory | backend/src/jarvis/security/session_auth.py:347-465 | behind every grant stands one attempt that loaded its challenge, was checked with a valid proof, consumed the challenge and only then rotated; the grant says what that proof says, for the next epoch of the device |
| SessionProvenance.InvalidProofNeverGrants | backend/src/jarvis/security/session_auth.py:400-402 | an attempt whose proof was invalid is closed from then on, and no grant of the run is its |
| SessionProvenance.ChallengesForActive | backend/src/jarvis/security/session_auth.py:309-344 | challenges are only stored for active devices, with their actor, this backend and the configured lifetime |
| SessionProvenance.IssuedExactly | backend/src/jarvis/security/session_auth.py:170-187 | a challenge is stored exactly for an active device while there is room; expired ones are forgotten, the others kept |
| SessionProvenance.StagesExactly | backend/src/jarvis/security/session_auth.py:353-407 | exactly what lets an attempt past loading, the check of its proof and the consumption of its challenge |
| SessionProvenance.OnlyGrantedClaimsPass | backend/src/jarvis/security/desktop_auth.py:382-420 | whatever claims a request carries, they pass the checks on device and session exactly if they say what the latest grant of their device says |
| SessionProvenance.RotationKeeps | backend/src/jarvis/security/session_auth.py:227-281 | a rotation drops exactly sessions that are over, revokes exactly the active one of its device, and leaves all others alone |
| SessionProvenance.HonestAttemptSucceeds | backend/src/jarvis/security/session_auth.py:309-465 | a device that gets a challenge, answers in time with a valid proof and is not overtaken gets the next epoch in the newest grant |
| RequestNonces.InMemoryNonceStore.Consume | backend/src/jarvis/security/desktop_auth.py:165-182 | accepts exactly nonces not remembered, and forgets expired ones |
| RequestNonces.DesktopSessionAuthenticator.Authenticate | backend/src/jarvis/security/desktop_auth.py:284-346 | accepts exactly a timely token of a live session that passes every other check and whose nonce is not remembered, and leaves the store as specified |
| RequestNonces.AuthenticatedAgain | backend/src/jarvis/security/desktop_auth.py:315-334 | a nonce that was authenticated in a session is authenticated again exactly between the whole second of the token expiry and the expiry of the session |
| RequestNonces.AuthenticatedExactly | backend/src/jarvis/security/desktop_auth.py:284-346 | an attempt is authenticated exactly if admitted, the session lasts, and no earlier attempt with its nonce was authenticated whose token has not run out; the leeway never decides |
| RequestNonces.WholeSecondsAuthenticateOnce | backend/src/jarvis/security/desktop_auth.py:315-334 | a session that expires on a whole second authenticates each nonce at most once |
| RequestNonces.AcceptedOnceUntilExpiry | backend/src/jarvis/security/desktop_auth.py:157-182 | a nonce of a session is accepted again only after the expiry it was accepted with |
| Base64Url.DecodeIffEncoded | backend/src/jarvis/security/session_auth.py:586-607 | strict decoding accepts exactly the encodings of that many bytes and gives those bytes back |
| Base64Url.EncodeInjective | backend/src/jarvis/security/session_auth.py:586-589 | an encoding determines its bytes |
| Base64Url.StrayBitsRefused | backend/src/jarvis/security/session_auth.py:598-607 | of two texts that unpack to the same byte only the one without stray bits is accepted |
| Lifecycle.ApplicationRuntime.Start | backend/src/jarvis/runtime/lifecycle.py:173-213 | from a stopped runtime: ready with six active resources exactly when all came up, otherwise failed with everything made closed in reverse and the first failure named; in other states nothing changes |
| Lifecycle.ApplicationRuntime.BringUp | backend/src/jarvis/runtime/lifecycle.py:187-201 | the start loop makes resources in order up to the first that does not come up |
| Lifecycle.ApplicationRuntime.RefreshReadiness | backend/src/jarvis/runtime/lifecycle.py:215-247 | work is accepted exactly when all six answer ready; the first failure is named; a cancellation leaves the verdict |
| Lifecycle.ApplicationRuntime.Shutdown | backend/src/jarvis/runtime/lifecycle.py:249-286 | stops intake, closes everything, and ends stopped or failed exactly as drain and closes went |
| Lifecycle.ApplicationRuntime.CloseAll | backend/src/jarvis/runtime/lifecycle.py:288-303 | closes every active resource last first, whatever raises, and collects the failures |
| Lifecycle.ClosedOnceOrOpen | backend/src/jarvis/runtime/lifecycle.py:288-303 | every resource ever created is created once and closed once or still active |
| Lifecycle.NothingLeaks | backend/src/jarvis/runtime/lifecycle.py:173-303 | with nothing active every resource ever created has been closed exactly once |
| Lifecycle.ClosedInReverse | backend/src/jarvis/runtime/lifecycle.py:288-303 | when a resource is closed everything created after it has been closed already |
| Lifecycle.StartMeans | backend/src/jarvis/runtime/lifecycle.py:187-213 | a start succeeds exactly if every resource was made, started and found ready, and then knows the health each check gave |
| Lifecycle.RefreshConcludes | backend/src/jarvis/runtime/lifecycle.py:215-247 | work is accepted exactly if every probe answered ready; otherwise the first that did not is named, with its code or that of a raised check |
| Lifecycle.FirstCloseFailure | backend/src/jarvis/runtime/lifecycle.py:288-303 | the first close failure reported is that of the youngest resource whose close raises |
| PolicyOverlay.ApplyTighteningOverlay | desktop/src/Jarvis.Security/Policy/PolicyBaselineLoader.cs:256-295 | accepts exactly overlays for the right baseline that name known keys and relax none; the result is the pointwise minimum on the same keys; the first rule by key decides the error |
| PolicyOverlay.ApplyOverlays | desktop/src/Jarvis.Security/Policy/PolicyBaselineLoader.cs:62-95 | baseline, admin and user overlay load exactly when each tightens what came before, to the pointwise minimum of all three |
| PolicyOverlay.UserAfterAdmin | desktop/src/Jarvis.Security/Policy/PolicyBaselineLoader.cs:66-86 | a user overlay that fits the baseline is accepted after the admin overlay exactly when it is at least as strict wherever both speak |
| PolicyOverlay.KeysSpelled | desktop/src/Jarvis.Security/Policy/PolicyBaselineLoader.cs:448-452 | a key is a small letter followed by 2 to 127 small letters, digits, underscores, dots or hyphens |
| PolicyOverlay.StrictestWins | desktop/src/Jarvis.Security/Policy/PolicyBaselineLoader.cs:66-86 | in what is loaded a denial anywhere denies, only three allowances allow, and an overlay that does not mention a key has no say in it |
| PolicyOverlay.SmallestRefusalDecides | desktop/src/Jarvis.Security/Policy/PolicyBaselineLoader.cs:256-295 | of the rules that cannot be applied the one with the smallest key decides the error: malformed or unknown key, or a relaxation |
| PolicyOverlay.BuildSignatureMessage | desktop/src/Jarvis.Security/Policy/PolicyBaselineLoader.cs:405-430 | the moving-offset copies fill the buffer with domain, version, zero, key id, zero, payload |
| PolicyOverlay.LayoutInjective | desktop/src/Jarvis.Security/Policy/PolicyBaselineLoader.cs:405-430 | without zero bytes in version and key id equal messages have equal parts |
| PolicyOverlay.LayoutAmbiguousWithZero | desktop/src/Jarvis.Security/Policy/PolicyBaselineLoader.cs:405-430 | with a zero byte in the key id different parts share a message |

## Left out

- WorkflowSafety.DependenciesSucceeded: assumes that no two action texts in the plans of that very run share a digest, which the code does not check either; WorkflowSafety.DispatchedAfterDependencies needs no assumption.
- TaskRepository.HistoryConsistent: operations draw unused task and event ids, as UUIDs do; a repeated id is not modelled.
- LiveStream.StreamRefinesLog: safety only; delivery is claimed by StreamCompleteness.PublishedArrives as long as no message is thrown away.
- SessionEstablishment.GrantsAreUnique: new session and challenge ids are unused; the signature check is an arbitrary verdict and contract ranges are not negotiated.
- Lifecycle.ApplicationRuntime.RefreshReadiness: resources are identified by order of creation; time-outs are one of the ways a check raises.
- Scope corrections of a revision: no node of the compiled graph passes one, so only revisions triggered by verification are modelled.
- The audit-only members of records that no check relates: event ids, attempt ids, artifact references, error codes, resource lists, previews and request sizes.
- Capacity limits of the dispatch store and interrupt payload sizes: further reasons for a node to raise, which only removes runs.
- Cancellation of a run by the caller: the task status becomes cancelled outside the graph.
- The wording of the response summaries, the response id, and the store of rendered responses.
- RequestNonces.AuthenticatedAgain: one clock serves token, session and nonce checks, and the token library's expiry test is modelled by its rule.
- Intent and normalization nodes, and the references that context loading returns: bounded checks that pass their input on.
- Prompts, the model gateway, retry text and the two-attempt loop around it: a draft is an arbitrary input.
- Specialist runs: a simpler ordered run over the same kind of graph.
- Regular expressions of fields other than identifiers and capability keys, Unicode and JSON formatting.
- The test hook `append_event_for_test` (backend/src/jarvis/tasks/repository.py:198-214): it refuses an unknown task, any number but the next and a repeated event id, so it keeps the numbering; it writes no outbox record, so log and outbox would no longer match.
- Connection limits and frame rate limits of the live registry, idle time-outs and heartbeats.
- HTTP routes, settings, health endpoints, token encoding and signature arithmetic.
- Reading, size limits, versions and the signature check of packaged policy documents.
