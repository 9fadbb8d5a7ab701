/** Choosing and dispatching the next action, the approval it may need, and collecting its result. */
module Dispatch {
  import opened Collections
  import opened PlanModel
  import opened TopologicalOrder
  import opened PlanValidation
  import opened Policy
  import opened Verification

  datatype Identity = Identity(taskId: string, threadId: string, actorId: string, deviceId: string)

  function DecisionIds(decisions: seq<PolicyDecision>): seq<Id> {
    seq(|decisions|, i requires 0 <= i < |decisions| => decisions[i].actionId)
  }

  function DecidedAction(d: PolicyDecision): Id { d.actionId }

  function DecisionByAction(decisions: seq<PolicyDecision>): (m: map<Id, PolicyDecision>)
    ensures forall id :: id in m ==> m[id] in decisions && m[id].actionId == id
    ensures forall i :: 0 <= i < |decisions| ==> decisions[i].actionId in m
  {
    KeyedBy(DecidedAction, decisions)
  }

  // ---- which action is next ---------------------------------------------------------------------

  function SucceededIds(results: seq<ActionResult>): set<Id> {
    set i | 0 <= i < |results| && results[i].outcome.ActionSucceeded? :: results[i].actionId
  }

  /** Without a result, and everything it depends on succeeded. */
  predicate Ready(action: PlanAction, results: seq<ActionResult>) {
    action.id !in ResultIds(results) && SetOf(action.dependencies) <= SucceededIds(results)
  }

  function FirstReady(actions: seq<PlanAction>, results: seq<ActionResult>): (r: Option<PlanAction>)
    ensures r.Some? ==> r.value in actions && Ready(r.value, results)
    ensures r.None? <==> forall i :: 0 <= i < |actions| ==> !Ready(actions[i], results)
  {
    if actions == [] then None
    else if Ready(actions[0], results) then Some(actions[0])
    else
      assert actions == [actions[0]] + actions[1..];
      FirstReady(actions[1..], results)
  }

  /** The first ready action in plan order, or why there is none. */
  function SelectAction(plan: Plan, results: seq<ActionResult>): Result<PlanAction> {
    var ready := FirstReady(plan.actions, results);
    if ready.Some? then Ok(ready.value)
    else if |ResultByAction(results)| == |plan.actions| then Err(DispatchPlanComplete)
    else Err(DispatchDependenciesUnsatisfied)
  }

  /** Decisions cover the plan one to one without a denial; results name distinct actions of it. */
  predicate RelationsFine(plan: Plan, decisions: seq<PolicyDecision>, results: seq<ActionResult>) {
    && plan.actions != [] && Distinct(ActionIds(plan.actions))
    && Distinct(DecisionIds(decisions)) && SetOf(DecisionIds(decisions)) == SetOf(ActionIds(plan.actions))
    && (forall i :: 0 <= i < |decisions| ==> !decisions[i].decision.Deny?)
    && Distinct(ResultIds(results)) && SetOf(ResultIds(results)) <= SetOf(ActionIds(plan.actions))
  }

  /** No action that still waits depends on one that ended without success. */
  predicate PendingClear(actions: seq<PlanAction>, results: seq<ActionResult>) {
    forall i :: 0 <= i < |actions| && actions[i].id !in ResultIds(results) ==>
      forall d :: d in actions[i].dependencies ==> d in ResultIds(results) ==> d in SucceededIds(results)
  }

  lemma UnmetDependency(action: PlanAction, results: seq<ActionResult>) returns (d: Id)
    requires action.id !in ResultIds(results)
    ensures Ready(action, results) || (d in SetOf(action.dependencies) && d !in SucceededIds(results))
  {
    var unmet := SetOf(action.dependencies) - SucceededIds(results);
    if |unmet| > 0 {
      d := AnElement(unmet);
    } else {
      d := 0;
      forall x | x in SetOf(action.dependencies) ensures x in SucceededIds(results) {
        assert x !in unmet;
      }
    }
  }

  /** A waiting action with no way to start waits for an action that itself has no result. */
  lemma BlockedByWaiting(actions: seq<PlanAction>, results: seq<ActionResult>, i: nat) returns (d: Id)
    requires PendingClear(actions, results) && FirstReady(actions, results).None?
    requires i < |actions| && actions[i].id !in ResultIds(results)
    ensures d in SetOf(actions[i].dependencies) && d !in ResultIds(results)
  {
    assert !Ready(actions[i], results);
    d := UnmetDependency(actions[i], results);
    assert d in actions[i].dependencies;
  }

  lemma GraphAt(actions: seq<PlanAction>, id: Id) returns (i: nat)
    requires Distinct(ActionIds(actions)) && id in GraphOf(actions)
    ensures i < |actions| && actions[i].id == id && GraphOf(actions)[id] == SetOf(actions[i].dependencies)
  {
    var action := ById(actions)[id];
    i :| 0 <= i < |actions| && actions[i] == action;
  }

  lemma GraphKeys(actions: seq<PlanAction>)
    ensures GraphOf(actions).Keys == SetOf(ActionIds(actions))
  {
    IdsCardinality(actions);
  }

  lemma WaitingOnWaiting(actions: seq<PlanAction>, results: seq<ActionResult>, waiting: set<Id>, k: Id)
    requires Distinct(ActionIds(actions)) && Closed(GraphOf(actions))
    requires PendingClear(actions, results) && FirstReady(actions, results).None?
    requires waiting == GraphOf(actions).Keys - SetOf(ResultIds(results)) && k in waiting
    ensures GraphOf(actions)[k] * waiting != {}
  {
    var i := GraphAt(actions, k);
    var d := BlockedByWaiting(actions, results, i);
    assert d in GraphOf(actions)[k] * waiting;
  }

  lemma AllWaitingOnWaiting(actions: seq<PlanAction>, results: seq<ActionResult>, waiting: set<Id>)
    requires Distinct(ActionIds(actions)) && Closed(GraphOf(actions))
    requires PendingClear(actions, results) && FirstReady(actions, results).None?
    requires waiting == GraphOf(actions).Keys - SetOf(ResultIds(results))
    ensures forall k :: k in waiting ==> GraphOf(actions)[k] * waiting != {}
  {
    forall k | k in waiting ensures GraphOf(actions)[k] * waiting != {} {
      WaitingOnWaiting(actions, results, waiting, k);
    }
  }

  lemma NoneWaiting(g: Graph, waiting: set<Id>)
    requires Acyclic(g) && waiting <= g.Keys
    requires forall k :: k in waiting ==> g[k] * waiting != {}
    ensures waiting == {}
  {
    if |waiting| > 0 { StuckMeansCycle(g, waiting); }
  }

  lemma AllDoneWhenNoneReady(actions: seq<PlanAction>, results: seq<ActionResult>)
    requires Distinct(ActionIds(actions)) && Closed(GraphOf(actions)) && Acyclic(GraphOf(actions))
    requires PendingClear(actions, results) && FirstReady(actions, results).None?
    ensures SetOf(ActionIds(actions)) <= SetOf(ResultIds(results))
  {
    GraphKeys(actions);
    var g := GraphOf(actions);
    var waiting := g.Keys - SetOf(ResultIds(results));
    AllWaitingOnWaiting(actions, results, waiting);
    NoneWaiting(g, waiting);
  }

  lemma ReadyIsWaiting(actions: seq<PlanAction>, results: seq<ActionResult>)
    requires FirstReady(actions, results).Some?
    ensures FirstReady(actions, results).value.id in SetOf(ActionIds(actions)) - SetOf(ResultIds(results))
  {
    var a := FirstReady(actions, results).value;
    var i :| 0 <= i < |actions| && actions[i] == a;
    assert ActionIds(actions)[i] == a.id;
  }

  lemma {:induction false} ResultKeys(results: seq<ActionResult>)
    ensures ResultByAction(results).Keys == SetOf(ResultIds(results))
    ensures Distinct(ResultIds(results)) ==> |ResultByAction(results)| == |results|
  {
    var m, ids := ResultByAction(results), ResultIds(results);
    forall x ensures x in m <==> x in ids {
      if x in m {
        var k :| 0 <= k < |results| && results[k] == m[x];
        assert ids[k] == x;
      }
      if x in ids {
        var k :| 0 <= k < |ids| && ids[k] == x;
        assert results[k].actionId in m;
      }
    }
    assert m.Keys == SetOf(ids);
    DistinctCardinality(ids);
  }

  /** Progress: when no waiting action depends on a failure, the selection of an acyclic plan finds
      an action exactly when one is waiting, and otherwise reports completion; unsatisfied
      dependencies never stop a run. */
  lemma SelectionProgress(plan: Plan, results: seq<ActionResult>)
    requires Distinct(ActionIds(plan.actions)) && Closed(GraphOf(plan.actions)) && Acyclic(GraphOf(plan.actions))
    requires PendingClear(plan.actions, results) && SetOf(ResultIds(results)) <= SetOf(ActionIds(plan.actions))
    ensures SelectAction(plan, results).Ok? <==> SetOf(ActionIds(plan.actions)) != SetOf(ResultIds(results))
    ensures SelectAction(plan, results).Err? ==> SelectAction(plan, results) == Err(DispatchPlanComplete)
  {
    if FirstReady(plan.actions, results).Some? {
      ReadyIsWaiting(plan.actions, results);
    } else {
      AllDoneWhenNoneReady(plan.actions, results);
      ResultKeys(results);
      DistinctCardinality(ActionIds(plan.actions));
    }
  }

  // ---- approval ---------------------------------------------------------------------------------

  /** Everything an action does, free of listing order. */
  datatype ActionContent = ActionContent(
    id: Id, capabilityId: string, capabilityVersion: string,
    arguments: multiset<Argument>, dependencies: multiset<Id>, timeout: int)

  function ContentOf(a: PlanAction): ActionContent {
    ActionContent(a.id, a.capabilityId, a.capabilityVersion, multiset(a.arguments), multiset(a.dependencies), a.timeout)
  }

  /** The text hashed to an approval digest. */
  datatype ActionDigest = ActionDigest(
    identity: Identity, content: ActionContent, codes: seq<string>,
    decisionId: DecisionKey, decision: DecisionKind, risk: RiskTier, referenceId: string, version: string)

  function DigestAction(identity: Identity, action: PlanAction, decision: PolicyDecision, codes: seq<string>): ActionDigest {
    ActionDigest(identity, ContentOf(action), SortBy(TextLeq, codes), decision.decisionId, decision.decision, decision.risk,
                 decision.referenceId, decision.version)
  }

  function CodesFor(criteria: seq<Criterion>, actionId: Id): seq<string> {
    if criteria == [] then []
    else
      var rest := CodesFor(criteria[..|criteria| - 1], actionId);
      if criteria[|criteria| - 1].actionId == actionId then rest + [criteria[|criteria| - 1].code] else rest
  }

  function SortedCodes(plan: Plan, actionId: Id): seq<string> {
    SortBy(TextLeq, CodesFor(plan.criteria, actionId))
  }

  /** The first action of the plan, in plan order, whose decision is to ask. */
  function FirstAsk(actions: seq<PlanAction>, decisions: map<Id, PolicyDecision>): (r: Option<PlanAction>)
    requires forall a :: a in actions ==> a.id in decisions
    ensures r.Some? ==> r.value in actions && decisions[r.value.id].decision.Ask?
  {
    if actions == [] then None
    else if decisions[actions[0].id].decision.Ask? then Some(actions[0])
    else
      assert actions == [actions[0]] + actions[1..];
      FirstAsk(actions[1..], decisions)
  }

  datatype ApprovalOutcome = OutcomeApproved | OutcomeDenied | OutcomeExpired

  /** The persisted request; its id is determined by task, action and digest. */
  datatype ApprovalRequest = ApprovalRequest(identity: Identity, actionId: Id, digest: ActionDigest)

  /** A paused run: the persisted request with its times, and what the desktop answered. */
  datatype Checkpoint = Checkpoint(
    request: ApprovalRequest, issuedAt: int, expiresAt: int, answered: ApprovalRequest, approve: bool)

  datatype Resolution = Resolution(checkpoint: Checkpoint, resolutionId: string, outcome: ApprovalOutcome, decidedAt: int)

  /** The record validator: expired only at or after the deadline, decided only before it. */
  predicate ResolutionValid(r: Resolution) {
    if r.outcome.OutcomeExpired? then r.decidedAt >= r.checkpoint.expiresAt
    else r.decidedAt < r.checkpoint.expiresAt && r.outcome == if r.checkpoint.approve then OutcomeApproved else OutcomeDenied
  }

  datatype ApprovalResult = ApprovalResult(
    threadId: string, actionId: Id, digest: ActionDigest, resolutionId: string, outcome: ApprovalOutcome, decidedAt: int)

  function ResultOf(r: Resolution): ApprovalResult {
    ApprovalResult(r.checkpoint.request.identity.threadId, r.checkpoint.request.actionId, r.checkpoint.request.digest,
                   r.resolutionId, r.outcome, r.decidedAt)
  }

  /** The state a pause accepts: one decision per action, none denied, at least one to ask. */
  predicate PauseContract(plan: Plan, decisions: seq<PolicyDecision>) {
    && plan.actions != []
    && Distinct(DecisionIds(decisions)) && SetOf(DecisionIds(decisions)) == SetOf(ActionIds(plan.actions))
    && (forall i :: 0 <= i < |decisions| ==> !decisions[i].decision.Deny?)
    && (exists i :: 0 <= i < |decisions| && decisions[i].decision.Ask?)
    && (forall i :: 0 <= i < |decisions| && decisions[i].decision.Ask? ==> decisions[i].freshApproval)
    && (forall i, j :: 0 <= i < |decisions| && 0 <= j < |decisions| ==>
          decisions[i].referenceId == decisions[j].referenceId && decisions[i].version == decisions[j].version)
  }

  lemma DecisionsCover(plan: Plan, decisions: seq<PolicyDecision>)
    requires SetOf(DecisionIds(decisions)) == SetOf(ActionIds(plan.actions))
    ensures forall a :: a in plan.actions ==> a.id in DecisionByAction(decisions)
  {
    forall a | a in plan.actions ensures a.id in DecisionByAction(decisions) {
      var i :| 0 <= i < |plan.actions| && plan.actions[i] == a;
      assert ActionIds(plan.actions)[i] in SetOf(DecisionIds(decisions));
      var j :| 0 <= j < |decisions| && DecisionIds(decisions)[j] == a.id;
      assert decisions[j].actionId in DecisionByAction(decisions);
    }
  }

  /** What a pause asks approval for. */
  function PauseRequest(identity: Identity, plan: Plan, decisions: seq<PolicyDecision>): Result<ApprovalRequest> {
    if !PauseContract(plan, decisions) then Err(DispatchContractInvalid)
    else
      DecisionsCover(plan, decisions);
      var byAction := DecisionByAction(decisions);
      var selected := FirstAsk(plan.actions, byAction);
      if selected.None? then Err(DispatchContractInvalid)
      else
        var codes := SortedCodes(plan, selected.value.id);
        if codes == [] then Err(DispatchContractInvalid)
        else Ok(ApprovalRequest(identity, selected.value.id, DigestAction(identity, selected.value, byAction[selected.value.id], codes)))
  }

  /** The proof an action needs: none when allowed, an approval of exactly this content when asked. */
  function ApprovalProof(action: PlanAction, decision: PolicyDecision, approval: Option<ApprovalResult>,
                         identity: Identity, codes: seq<string>): Result<Option<ApprovalResult>> {
    if decision.decision.Allow? then Ok(None)
    else if !decision.decision.Ask? || approval.None? || !approval.value.outcome.OutcomeApproved?
            || approval.value.threadId != identity.threadId || approval.value.actionId != action.id
            || approval.value.digest != DigestAction(identity, action, decision, codes)
    then Err(DispatchApprovalInvalid)
    else Ok(approval)
  }

  // ---- dispatch -----------------------------------------------------------------------------------

  datatype DispatchRequest = DispatchRequest(
    identity: Identity, content: ActionContent, codes: seq<string>, decision: PolicyDecision, approval: Option<ApprovalResult>)

  datatype DispatchRecord = DispatchRecord(request: DispatchRequest, queuedAt: int, leaseExpiresAt: int)

  /** The next request of a run, or the error that stops it. */
  function BuildDispatch(identity: Identity, plan: Plan, decisions: seq<PolicyDecision>, results: seq<ActionResult>,
                         approval: Option<ApprovalResult>): Result<DispatchRequest> {
    if !RelationsFine(plan, decisions, results) then Err(DispatchContractInvalid)
    else
      var selected := SelectAction(plan, results);
      if selected.Err? then Err(selected.error)
      else
        var action := selected.value;
        DecisionsCover(plan, decisions);
        assert action in plan.actions;
        var decision := DecisionByAction(decisions)[action.id];
        var codes := SortedCodes(plan, action.id);
        if codes == [] then Err(DispatchContractInvalid)
        else
          var proof := ApprovalProof(action, decision, approval, identity, codes);
          if proof.Err? then Err(proof.error)
          else Ok(DispatchRequest(identity, ContentOf(action), codes, decision, proof.value))
  }

  /** The dispatch store keeps the first request of an action; a different one conflicts. */
  function CreateOrGetDispatch(store: map<Id, DispatchRecord>, request: DispatchRequest, queuedAt: int, graceSeconds: nat)
    : Option<map<Id, DispatchRecord>>
  {
    if request.content.id in store then
      if store[request.content.id].request == request then Some(store) else None
    else
      Some(store[request.content.id := DispatchRecord(request, queuedAt, queuedAt + request.content.timeout + graceSeconds)])
  }

  // ---- collecting a result --------------------------------------------------------------------------

  datatype ExecutorResult = ExecutorResult(
    identity: Identity, actionId: Id, receiptId: string, outcome: ActionOutcome, startedAt: int, completedAt: int)

  /** A result after the lease, or one that ran longer than allowed, is uncertain whatever it claims. */
  function CollectedOutcome(c: ExecutorResult, d: DispatchRecord): ActionOutcome {
    if c.completedAt > d.leaseExpiresAt || c.completedAt - c.startedAt > d.request.content.timeout
    then ActionUncertain else c.outcome
  }

  predicate Correlated(c: ExecutorResult, d: DispatchRecord, collectedAt: int) {
    && c.identity == d.request.identity && c.actionId == d.request.content.id
    && d.queuedAt <= c.startedAt <= c.completedAt <= collectedAt
  }

  function ReceiptIds(results: seq<ActionResult>): seq<string> {
    seq(|results|, i requires 0 <= i < |results| => results[i].receiptId)
  }

  function DispatchIds(results: seq<ActionResult>): seq<DispatchId> {
    seq(|results|, i requires 0 <= i < |results| => results[i].dispatchId)
  }

  predicate ResultStateFine(plan: Plan, results: seq<ActionResult>) {
    && plan.actions != [] && Distinct(ActionIds(plan.actions))
    && Distinct(ResultIds(results)) && Distinct(ReceiptIds(results)) && Distinct(DispatchIds(results))
    && SetOf(ResultIds(results)) <= SetOf(ActionIds(plan.actions))
  }

  /** What collecting appends to the results: one new result, nothing on a replay, or an error. */
  function CollectDelta(store: map<Id, DispatchRecord>, identity: Identity, plan: Plan, results: seq<ActionResult>,
                        c: ExecutorResult, collectedAt: int): Option<seq<ActionResult>> {
    if !ResultStateFine(plan, results) || c.identity != identity || c.actionId !in ActionIds(plan.actions)
       || c.actionId !in store || !Correlated(c, store[c.actionId], collectedAt)
    then None
    else
      var r := ActionResult(c.actionId, DispatchId(identity.taskId, c.actionId), c.receiptId,
                            CollectedOutcome(c, store[c.actionId]), c.completedAt);
      if c.actionId in ResultByAction(results) then
        if ResultByAction(results)[c.actionId] == r then Some([]) else None
      else Some([r])
  }

  // ---- what one dispatch guarantees -----------------------------------------------------------------

  /** A built request is for a waiting action of the plan whose dependencies all succeeded, under a
      decision that is not a denial; if the decision is to ask, it carries an approval of exactly
      this identity, content, set of codes and decision. */
  lemma DispatchGuarantees(identity: Identity, plan: Plan, decisions: seq<PolicyDecision>, results: seq<ActionResult>,
                           approval: Option<ApprovalResult>) returns (action: PlanAction)
    requires BuildDispatch(identity, plan, decisions, results, approval).Ok?
    ensures var request := BuildDispatch(identity, plan, decisions, results, approval).value;
            && action in plan.actions && request.content == ContentOf(action) && request.identity == identity
            && action.id !in ResultIds(results)
            && SetOf(action.dependencies) <= SucceededIds(results)
            && request.decision in decisions && request.decision.actionId == action.id && !request.decision.decision.Deny?
            && (request.decision.decision.Ask? <==> request.approval.Some?)
            && (request.approval.Some? ==>
                  && request.approval == approval && approval.value.outcome.OutcomeApproved?
                  && approval.value.actionId == action.id && approval.value.threadId == identity.threadId
                  && approval.value.digest == DigestAction(identity, action, request.decision, SortedCodes(plan, action.id)))
  {
    action := SelectAction(plan, results).value;
    DecisionsCover(plan, decisions);
    var decision := DecisionByAction(decisions)[action.id];
    var i :| 0 <= i < |decisions| && decisions[i] == decision;
    assert !decisions[i].decision.Deny?;
  }

  /** The plan has an action with this id. */
  predicate Listed(plan: Plan, id: Id) {
    exists k :: 0 <= k < |plan.actions| && plan.actions[k].id == id
  }

  predicate Decides(decisions: seq<PolicyDecision>, id: Id) {
    exists i :: 0 <= i < |decisions| && decisions[i].actionId == id
  }

  /** One decision for each action of the plan, and each of them one action. */
  predicate OneToOne(plan: Plan, decisions: seq<PolicyDecision>) {
    && (forall i, j :: 0 <= i < j < |decisions| ==> decisions[i].actionId != decisions[j].actionId)
    && (forall i :: 0 <= i < |decisions| ==> Listed(plan, decisions[i].actionId))
    && (forall k :: 0 <= k < |plan.actions| ==> Decides(decisions, plan.actions[k].id))
  }

  lemma ListedInPlan(plan: Plan, id: Id)
    requires id in ActionIds(plan.actions)
    ensures Listed(plan, id)
  {
    var k :| 0 <= k < |plan.actions| && ActionIds(plan.actions)[k] == id;
    assert plan.actions[k].id == id;
  }

  lemma CoveredOneToOne(plan: Plan, decisions: seq<PolicyDecision>)
    requires Distinct(DecisionIds(decisions)) && SetOf(DecisionIds(decisions)) == SetOf(ActionIds(plan.actions))
    ensures OneToOne(plan, decisions)
  {
    var ids, actions := DecisionIds(decisions), ActionIds(plan.actions);
    forall i, j | 0 <= i < j < |decisions| ensures decisions[i].actionId != decisions[j].actionId { assert ids[i] != ids[j]; }
    forall i | 0 <= i < |decisions| ensures Listed(plan, decisions[i].actionId) {
      assert ids[i] in SetOf(actions);
      ListedInPlan(plan, ids[i]);
    }
    forall k | 0 <= k < |plan.actions| ensures Decides(decisions, plan.actions[k].id) {
      assert actions[k] in SetOf(ids);
      var i :| 0 <= i < |ids| && ids[i] == actions[k];
      assert decisions[i].actionId == plan.actions[k].id;
    }
  }

  /** At most one result for each action, all of the plan. */
  predicate ResultsBelong(plan: Plan, results: seq<ActionResult>) {
    && (forall i, j :: 0 <= i < j < |results| ==> results[i].actionId != results[j].actionId)
    && (forall i :: 0 <= i < |results| ==> Listed(plan, results[i].actionId))
  }

  lemma ResultsOfPlan(plan: Plan, results: seq<ActionResult>)
    requires Distinct(ResultIds(results)) && SetOf(ResultIds(results)) <= SetOf(ActionIds(plan.actions))
    ensures ResultsBelong(plan, results)
  {
    forall i, j | 0 <= i < j < |results| ensures results[i].actionId != results[j].actionId {
      assert ResultIds(results)[i] != ResultIds(results)[j];
    }
    forall i | 0 <= i < |results| ensures Listed(plan, results[i].actionId) {
      assert ResultIds(results)[i] in SetOf(ActionIds(plan.actions));
      ListedInPlan(plan, results[i].actionId);
    }
  }

  /** Whatever state it is given, a request is only built with one decision for each action of a plan that lists each
      action once, no denial among them, and at most one result for each action. */
  lemma DispatchNeeds(identity: Identity, plan: Plan, decisions: seq<PolicyDecision>, results: seq<ActionResult>, approval: Option<ApprovalResult>)
    requires BuildDispatch(identity, plan, decisions, results, approval).Ok?
    ensures plan.actions != [] && OneToOne(plan, decisions) && ResultsBelong(plan, results)
    ensures forall i, j :: 0 <= i < j < |plan.actions| ==> plan.actions[i].id != plan.actions[j].id
    ensures forall i :: 0 <= i < |decisions| ==> !decisions[i].decision.Deny?
  {
    CoveredOneToOne(plan, decisions);
    ResultsOfPlan(plan, results);
    forall i, j | 0 <= i < j < |plan.actions| ensures plan.actions[i].id != plan.actions[j].id {
      assert ActionIds(plan.actions)[i] != ActionIds(plan.actions)[j];
    }
  }

  /** And an approval is only asked for with one decision for each action, none of them a denial, some of them to ask
      afresh, all under one policy. */
  lemma PauseNeeds(identity: Identity, plan: Plan, decisions: seq<PolicyDecision>)
    requires PauseRequest(identity, plan, decisions).Ok?
    ensures plan.actions != [] && OneToOne(plan, decisions)
    ensures forall i :: 0 <= i < |decisions| ==> !decisions[i].decision.Deny?
    ensures exists i :: 0 <= i < |decisions| && decisions[i].decision.Ask?
    ensures forall i :: 0 <= i < |decisions| && decisions[i].decision.Ask? ==> decisions[i].freshApproval
    ensures forall i, j :: 0 <= i < |decisions| && 0 <= j < |decisions| ==>
              decisions[i].referenceId == decisions[j].referenceId && decisions[i].version == decisions[j].version
  {
    CoveredOneToOne(plan, decisions);
  }

  lemma BuiltCodes(identity: Identity, plan: Plan, decisions: seq<PolicyDecision>, results: seq<ActionResult>,
                   approval: Option<ApprovalResult>)
    requires BuildDispatch(identity, plan, decisions, results, approval).Ok?
    ensures var request := BuildDispatch(identity, plan, decisions, results, approval).value;
            request.codes == SortedCodes(plan, request.content.id)
  {
  }

  /** An approval binds: it opens dispatch for no other identity, content, codes or decision. */
  lemma ApprovalBinds(a: PlanAction, b: PlanAction, da: PolicyDecision, db: PolicyDecision, ia: Identity, ib: Identity,
                      ca: seq<string>, cb: seq<string>, approval: ApprovalResult)
    requires da.decision.Ask? && db.decision.Ask?
    requires ApprovalProof(a, da, Some(approval), ia, ca).Ok? && ApprovalProof(b, db, Some(approval), ib, cb).Ok?
    ensures ia == ib && ContentOf(a) == ContentOf(b) && multiset(ca) == multiset(cb)
    ensures da.decisionId == db.decisionId && da.risk == db.risk && da.version == db.version
  {
    SortByMultiset(TextLeq, ca);
    SortByMultiset(TextLeq, cb);
  }

  lemma PauseFacts(identity: Identity, plan: Plan, decisions: seq<PolicyDecision>) returns (first: PlanAction)
    requires PauseRequest(identity, plan, decisions).Ok?
    ensures first in plan.actions && first.id in DecisionByAction(decisions)
    ensures PauseRequest(identity, plan, decisions).value
         == ApprovalRequest(identity, first.id,
              DigestAction(identity, first, DecisionByAction(decisions)[first.id], SortedCodes(plan, first.id)))
  {
    DecisionsCover(plan, decisions);
    first := FirstAsk(plan.actions, DecisionByAction(decisions)).value;
  }

  /** The position of the first action whose decision is to ask. */
  lemma {:induction false} FirstAskAt(actions: seq<PlanAction>, decisions: map<Id, PolicyDecision>) returns (k: nat)
    requires forall a :: a in actions ==> a.id in decisions
    ensures FirstAsk(actions, decisions).None? <==> forall j :: 0 <= j < |actions| ==> !decisions[actions[j].id].decision.Ask?
    ensures FirstAsk(actions, decisions).Some? ==>
              && k < |actions| && FirstAsk(actions, decisions).value == actions[k]
              && forall j :: 0 <= j < k ==> !decisions[actions[j].id].decision.Ask?
  {
    k := 0;
    if actions != [] && !decisions[actions[0].id].decision.Ask? {
      assert actions == [actions[0]] + actions[1..];
      k := FirstAskAt(actions[1..], decisions);
      k := k + 1;
    }
  }

  /** The codes that go with an action are those of its criteria, each as often. */
  lemma {:induction false} CodesAreOfCriteria(criteria: seq<Criterion>, actionId: Id, code: string)
    ensures code in CodesFor(criteria, actionId)
       <==> exists i :: 0 <= i < |criteria| && criteria[i].actionId == actionId && criteria[i].code == code
  {
    if criteria != [] {
      var n := |criteria| - 1;
      CodesAreOfCriteria(criteria[..n], actionId, code);
      assert forall i :: 0 <= i < n ==> criteria[..n][i] == criteria[i];
    }
  }

  /** A pause asks for the first action of the plan whose decision is to ask, with the codes of its criteria. */
  lemma PauseAsksFirst(identity: Identity, plan: Plan, decisions: seq<PolicyDecision>) returns (k: nat)
    requires PauseRequest(identity, plan, decisions).Ok?
    ensures forall a :: a in plan.actions ==> a.id in DecisionByAction(decisions)
    ensures k < |plan.actions| && PauseRequest(identity, plan, decisions).value.actionId == plan.actions[k].id
    ensures DecisionByAction(decisions)[plan.actions[k].id].decision.Ask?
    ensures forall j :: 0 <= j < k ==> !DecisionByAction(decisions)[plan.actions[j].id].decision.Ask?
    ensures PauseRequest(identity, plan, decisions).value.digest.content == ContentOf(plan.actions[k])
    ensures forall code :: code in PauseRequest(identity, plan, decisions).value.digest.codes ==>
              exists i :: 0 <= i < |plan.criteria| && plan.criteria[i].actionId == plan.actions[k].id && plan.criteria[i].code == code
  {
    DecisionsCover(plan, decisions);
    k := FirstAskAt(plan.actions, DecisionByAction(decisions));
    forall code | code in PauseRequest(identity, plan, decisions).value.digest.codes
      ensures exists i :: 0 <= i < |plan.criteria| && plan.criteria[i].actionId == plan.actions[k].id && plan.criteria[i].code == code
    {
      DigestedCode(plan, plan.actions[k].id, code);
    }
  }

  lemma DigestedCode(plan: Plan, actionId: Id, code: string)
    requires code in SortBy(TextLeq, SortedCodes(plan, actionId))
    ensures exists i :: 0 <= i < |plan.criteria| && plan.criteria[i].actionId == actionId && plan.criteria[i].code == code
  {
    SortByMultiset(TextLeq, SortedCodes(plan, actionId));
    SortByMultiset(TextLeq, CodesFor(plan.criteria, actionId));
    assert code in multiset(CodesFor(plan.criteria, actionId));
    CodesAreOfCriteria(plan.criteria, actionId, code);
  }

  lemma DispatchIsProof(identity: Identity, plan: Plan, decisions: seq<PolicyDecision>, results: seq<ActionResult>,
                        approval: Option<ApprovalResult>, action: PlanAction)
    requires RelationsFine(plan, decisions, results) && SelectAction(plan, results) == Ok(action)
    requires SortedCodes(plan, action.id) != [] && action.id in DecisionByAction(decisions)
    ensures BuildDispatch(identity, plan, decisions, results, approval).Ok?
       <==> ApprovalProof(action, DecisionByAction(decisions)[action.id], approval, identity, SortedCodes(plan, action.id)).Ok?
  {
  }

  lemma SameAction(actions: seq<PlanAction>, a: PlanAction, b: PlanAction)
    requires Distinct(ActionIds(actions)) && a in actions && b in actions && a.id == b.id
    ensures a == b
  {
    UniqueById(actions, a);
    UniqueById(actions, b);
  }

  /** What happens to a selected action that must be asked: an approval from a pause over the same
      plan and decisions opens it exactly when it is the first ask of the plan. */
  lemma ApprovalReachesOnlyFirstAsk(identity: Identity, plan: Plan, decisions: seq<PolicyDecision>, results: seq<ActionResult>,
                                    resolution: Resolution, action: PlanAction)
    requires RelationsFine(plan, decisions, results) && SelectAction(plan, results) == Ok(action)
    requires PauseRequest(identity, plan, decisions) == Ok(resolution.checkpoint.request) && resolution.outcome.OutcomeApproved?
    requires SortedCodes(plan, action.id) != [] && action.id in DecisionByAction(decisions)
    requires DecisionByAction(decisions)[action.id].decision.Ask?
    ensures BuildDispatch(identity, plan, decisions, results, Some(ResultOf(resolution))).Ok?
       <==> action.id == resolution.checkpoint.request.actionId
  {
    var first := PauseFacts(identity, plan, decisions);
    DispatchIsProof(identity, plan, decisions, results, Some(ResultOf(resolution)), action);
    if action.id == first.id { SameAction(plan.actions, action, first); }
  }
}
