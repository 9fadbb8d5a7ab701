/** What each operation of the task repository does, in terms of what is stored, and who decided what. */
module TaskDecisions {
  import opened Collections
  import opened TaskLog
  import opened TaskRepository

  /** Every task has a projection with its owner, and every approval belongs to a task. */
  predicate Linked(s: Store) {
    && s.projections.Keys == s.tasks.Keys
    && (forall t :: t in s.tasks ==> s.projections[t].actorId == s.tasks[t].actorId && s.projections[t].deviceId == s.tasks[t].deviceId)
    && (forall a :: a in s.approvals ==> s.approvals[a].approvalId == a && s.approvals[a].taskId in s.tasks)
  }

  /** What the lemmas below ask of a store holds in every history. */
  lemma HistoryLinked(ops: seq<Op>, stores: seq<Store>, i: nat)
    requires History(ops, stores) && i <= |ops|
    ensures Linked(stores[i]) && Numbered(stores[i].events)
  {
    HistoryConsistent(ops, stores, i);
    ConsistentIsLinked(stores[i]);
  }

  lemma ConsistentIsLinked(s: Store)
    requires Consistent(s)
    ensures Linked(s) && Numbered(s.events)
  {
  }

  // ---- deciding on an approval -----------------------------------------------------------------------------

  /** The approval exists and is the caller's. */
  predicate Visible(s: Store, approvalId: string, actorId: string, deviceId: string) {
    approvalId in s.approvals && s.approvals[approvalId].actorId == actorId && s.approvals[approvalId].deviceId == deviceId
  }

  /** Only this approval, the projection of its task, the log and the outbox change. */
  predicate DecisionFrame(s: Store, s': Store, approvalId: string)
    requires approvalId in s.approvals
  {
    var t := s.approvals[approvalId].taskId;
    && s'.tasks == s.tasks && s'.byIdempotency == s.byIdempotency && s'.cancellations == s.cancellations
    && s'.approvals.Keys == s.approvals.Keys && s'.projections.Keys == s.projections.Keys
    && (forall a :: a in s.approvals && a != approvalId ==> s'.approvals[a] == s.approvals[a])
    && (forall u :: u in s.projections && u != t ==> s'.projections[u] == s.projections[u])
    && |s'.events| == |s.events| + 1 && s'.events[..|s.events|] == s.events
    && |s'.outbox| == |s.outbox| + 1 && s'.outbox[..|s.outbox|] == s.outbox
  }

  /** The next event of the task tells the decision, and the outbox announces that event. */
  predicate DecisionTold(s: Store, s': Store, approvalId: string, decision: Decision, at: int)
    requires approvalId in s.approvals && |s'.events| == |s.events| + 1 && |s'.outbox| == |s.outbox| + 1
  {
    var a, e, o := s.approvals[approvalId], s'.events[|s.events|], s'.outbox[|s.outbox|];
    && e.taskId == a.taskId && e.sequence == |EventsOf(s.events, a.taskId)| + 1
    && e.eventType == "approval.decided" && e.occurredAt == at
    && e.data == map["approval_id" := approvalId, "action_id" := a.actionId, "decision" := DecisionText(decision)]
    && o.aggregateId == a.taskId && o.eventSequence == e.sequence && o.eventType == "graph.approval.decided"
  }

  function DecisionText(d: Decision): string {
    match d case Approve => "approve" case Deny => "deny"
  }

  /** The answer to each kind of decision, and that a refused one changes nothing. */
  lemma DecisionTakenExactly(s: Store, approvalId: string, actorId: string, deviceId: string, actionDigest: string,
                             decision: Decision, stamp: Stamp)
    requires Linked(s)
    ensures var (s', r) := Apply(s, Decide(approvalId, actorId, deviceId, actionDigest, decision, stamp));
            && (r.Decided? <==>
                  && Visible(s, approvalId, actorId, deviceId) && s.approvals[approvalId].status.Pending?
                  && stamp.at < s.approvals[approvalId].expiresAt && s.approvals[approvalId].actionDigest == actionDigest)
            && (r.NotVisible? <==> !Visible(s, approvalId, actorId, deviceId))
            && (r.ApprovalConsumed? <==> Visible(s, approvalId, actorId, deviceId) && !s.approvals[approvalId].status.Pending?)
            && (r.ApprovalExpired? <==>
                  && Visible(s, approvalId, actorId, deviceId) && s.approvals[approvalId].status.Pending?
                  && stamp.at >= s.approvals[approvalId].expiresAt)
            && (r.Decided? || r.NotVisible? || r.ApprovalConsumed? || r.ApprovalExpired? || r.ApprovalDigestMismatch?)
            && (!r.Decided? ==> s' == s)
  {
  }

  /** An approval approves and a denial denies: the record keeps the decision, the task goes on exactly after an
      approval and is denied exactly after a denial, and nothing is pending any more. */
  lemma DecisionMeans(s: Store, approvalId: string, actorId: string, deviceId: string, actionDigest: string,
                      decision: Decision, stamp: Stamp)
    requires Linked(s) && Apply(s, Decide(approvalId, actorId, deviceId, actionDigest, decision, stamp)).1.Decided?
    ensures approvalId in s.approvals && s.approvals[approvalId].taskId in s.projections
    ensures var s', a := Apply(s, Decide(approvalId, actorId, deviceId, actionDigest, decision, stamp)).0, s.approvals[approvalId];
            && DecisionFrame(s, s', approvalId)
            && var b, p := s'.approvals[approvalId], s'.projections[a.taskId];
               && (b.status.ApprovalApproved? <==> decision.Approve?) && (b.status.ApprovalDenied? <==> decision.Deny?)
               && b.decision == Some(decision) && b.decidedAt == Some(stamp.at)
               && b == a.(status := b.status, decision := b.decision, decidedAt := b.decidedAt)
               && (p.status.Executing? <==> decision.Approve?) && (p.status.Denied? <==> decision.Deny?)
               && p.pendingApproval.None? && p.updatedAt == stamp.at
               && p == s.projections[a.taskId].(status := p.status, pendingApproval := None, updatedAt := stamp.at)
  {
    DecisionFramed(s, approvalId, actorId, deviceId, actionDigest, decision, stamp);
  }

  lemma DecisionFramed(s: Store, approvalId: string, actorId: string, deviceId: string, actionDigest: string,
                       decision: Decision, stamp: Stamp)
    requires Linked(s) && Apply(s, Decide(approvalId, actorId, deviceId, actionDigest, decision, stamp)).1.Decided?
    ensures approvalId in s.approvals && s.approvals[approvalId].taskId in s.projections
    ensures DecisionFrame(s, Apply(s, Decide(approvalId, actorId, deviceId, actionDigest, decision, stamp)).0, approvalId)
  {
  }

  /** And the log tells it: the decision is the next event of its task, and the outbox announces it. */
  lemma DecisionIsTold(s: Store, approvalId: string, actorId: string, deviceId: string, actionDigest: string,
                       decision: Decision, stamp: Stamp)
    requires Linked(s) && Numbered(s.events)
    requires Apply(s, Decide(approvalId, actorId, deviceId, actionDigest, decision, stamp)).1.Decided?
    ensures approvalId in s.approvals
    ensures var s' := Apply(s, Decide(approvalId, actorId, deviceId, actionDigest, decision, stamp)).0;
            && |s'.events| == |s.events| + 1 && |s'.outbox| == |s.outbox| + 1
            && DecisionTold(s, s', approvalId, decision, stamp.at)
  {
    LastSequenceIsCount(s.events, s.approvals[approvalId].taskId);
  }

  // ---- who decided ---------------------------------------------------------------------------------------------

  /** The operation is this decision, made by the owner in time and on the right content. */
  predicate DecidedBy(op: Op, a: ApprovalRecord) {
    && op.Decide? && op.approvalId == a.approvalId && op.actorId == a.actorId && op.deviceId == a.deviceId
    && op.actionDigest == a.actionDigest && op.stamp.at < a.expiresAt
    && a.decision == Some(op.decision) && a.decidedAt == Some(op.stamp.at)
    && (a.status.ApprovalApproved? <==> op.decision.Approve?) && (a.status.ApprovalDenied? <==> op.decision.Deny?)
  }

  lemma StepDecides(s: Store, op: Op, approvalId: string)
    requires Linked(s) && approvalId in Apply(s, op).0.approvals && !Apply(s, op).0.approvals[approvalId].status.Pending?
    ensures || (approvalId in s.approvals && s.approvals[approvalId] == Apply(s, op).0.approvals[approvalId])
            || (DecidedBy(op, Apply(s, op).0.approvals[approvalId]) && Apply(s, op).1.Decided?)
  {
  }

  lemma HistoryStepDecides(ops: seq<Op>, stores: seq<Store>, n: nat, approvalId: string)
    requires History(ops, stores) && n < |ops| && approvalId in stores[n + 1].approvals
    requires !stores[n + 1].approvals[approvalId].status.Pending?
    ensures || (approvalId in stores[n].approvals && stores[n].approvals[approvalId] == stores[n + 1].approvals[approvalId])
            || (DecidedBy(ops[n], stores[n + 1].approvals[approvalId]) && Apply(stores[n], ops[n]).1.Decided?)
  {
    HistoryLinked(ops, stores, n);
    assert Step(ops, stores, n);
    StepDecides(stores[n], ops[n], approvalId);
  }

  /** Whatever is on record as approved or denied was decided so by its owner, before it expired and for exactly
      its content, in one operation of the history. */
  lemma {:induction false} DecisionHasAuthor(ops: seq<Op>, stores: seq<Store>, n: nat, approvalId: string) returns (j: nat)
    requires History(ops, stores) && n <= |ops| && approvalId in stores[n].approvals
    requires !stores[n].approvals[approvalId].status.Pending?
    ensures j < n && DecidedBy(ops[j], stores[n].approvals[approvalId]) && Apply(stores[j], ops[j]).1.Decided?
  {
    HistoryStepDecides(ops, stores, n - 1, approvalId);
    if DecidedBy(ops[n - 1], stores[n].approvals[approvalId]) && Apply(stores[n - 1], ops[n - 1]).1.Decided? {
      j := n - 1;
    } else {
      j := DecisionHasAuthor(ops, stores, n - 1, approvalId);
    }
  }

  // ---- cancelling ------------------------------------------------------------------------------------------------

  /** The owner creates a cancellation exactly of a task that has none and has not ended; the task is then marked,
      with the next event saying where it stood.  Everything else leaves the store as it is. */
  lemma CancellationExactly(s: Store, taskId: string, actorId: string, deviceId: string, stamp: Stamp)
    requires Linked(s)
    ensures var (s', r) := Apply(s, Cancel(taskId, actorId, deviceId, stamp));
            && (r.Cancellation? && r.cancellation.created <==>
                  && taskId in s.tasks && s.tasks[taskId].actorId == actorId && s.tasks[taskId].deviceId == deviceId
                  && taskId !in s.cancellations
                  && s.projections[taskId].status in
                       {Created, Planning, CancellationRequested, AwaitingApproval, Executing, Verifying})
            && (r.NotVisible? <==> !(taskId in s.tasks && s.tasks[taskId].actorId == actorId && s.tasks[taskId].deviceId == deviceId))
            && (r.NotVisible? || r.Cancellation?)
            && (r.Cancellation? && !r.cancellation.created ==>
                  && s' == s
                  && (taskId !in s.cancellations ==> !r.cancellation.requested && r.cancellation.status == s.projections[taskId].status)
                  && (taskId in s.cancellations ==> r.cancellation == s.cancellations[taskId].(created := false)))
            && (r.NotVisible? ==> s' == s)
  {
  }

  lemma CancellationMeans(s: Store, taskId: string, actorId: string, deviceId: string, stamp: Stamp)
    requires Linked(s) && Numbered(s.events) && Apply(s, Cancel(taskId, actorId, deviceId, stamp)).1.Cancellation?
    requires Apply(s, Cancel(taskId, actorId, deviceId, stamp)).1.cancellation.created
    ensures taskId in s.projections
    ensures var (s', r) := Apply(s, Cancel(taskId, actorId, deviceId, stamp));
            && s'.tasks == s.tasks && s'.byIdempotency == s.byIdempotency && s'.approvals == s.approvals
            && s'.projections == s.projections[taskId := s.projections[taskId].(status := CancellationRequested, updatedAt := stamp.at)]
            && |s'.events| == |s.events| + 1 && s'.events[..|s.events|] == s.events
            && |s'.outbox| == |s.outbox| + 1 && s'.outbox[..|s.outbox|] == s.outbox
            && var e, o := s'.events[|s.events|], s'.outbox[|s.outbox|];
               && e.taskId == taskId && e.sequence == |EventsOf(s.events, taskId)| + 1 && e.eventType == "task.cancellation_requested"
               && e.data == map["previous_status" := StatusName(s.projections[taskId].status)]
               && o.aggregateId == taskId && o.eventSequence == e.sequence && o.eventType == "graph.task.cancel.requested"
               && taskId in s'.cancellations && s'.cancellations[taskId] == r.cancellation
               && r.cancellation.event == Some(e) && r.cancellation.status == CancellationRequested && r.cancellation.requested
  {
    LastSequenceIsCount(s.events, taskId);
  }

  /** The names of the statuses differ, so an event tells where the task stood. */
  lemma StatusNamesDiffer(a: TaskStatus, b: TaskStatus)
    ensures StatusName(a) == StatusName(b) ==> a == b
  {
    assert |StatusName(a)| != |StatusName(b)| || StatusName(a)[0] != StatusName(b)[0] || a == b;
  }

  // ---- creating, projecting, asking ----------------------------------------------------------------------------------

  /** A creation is new exactly if its scope is; otherwise it changes nothing, and conflicts exactly if the request
      differs. */
  lemma CreationExactly(s: Store, b: CreationBundle)
    ensures var (s', r) := Apply(s, Create(b));
            && (r.TaskCreation? && r.creation.created ==> ScopeOf(b.task) !in s.byIdempotency)
            && (ScopeOf(b.task) !in s.byIdempotency ==> r.TaskCreation? && r.creation == CreationOutcome(b.task, b.event, b.outbox, true))
            && (r.IdempotencyConflict? <==>
                  ScopeOf(b.task) in s.byIdempotency && s.byIdempotency[ScopeOf(b.task)].task.requestHash != b.task.requestHash)
            && (ScopeOf(b.task) in s.byIdempotency ==> s' == s)
  {
  }

  /** A new task stands as it was given, visible to its owner, and nothing else changes. */
  lemma CreationMeans(s: Store, b: CreationBundle)
    requires Linked(s) && FreshBundle(s, b) && ScopeOf(b.task) !in s.byIdempotency
    ensures var s' := Apply(s, Create(b)).0;
            && s'.tasks == s.tasks[b.task.taskId := b.task] && s'.events == s.events + [b.event] && s'.outbox == s.outbox + [b.outbox]
            && s'.approvals == s.approvals && s'.cancellations == s.cancellations
            && s'.projections.Keys == s.projections.Keys + {b.task.taskId}
            && (forall t :: t in s.projections ==> s'.projections[t] == s.projections[t])
            && Owns(s', b.task.taskId, b.task.actorId, b.task.deviceId)
            && var p := s'.projections[b.task.taskId];
               && p.status == b.task.status && p.pendingApproval.None? && p.createdAt == b.task.createdAt && p.result.None?
  {
  }

  lemma CreationIsFirst(s: Store, b: CreationBundle)
    requires FreshBundle(s, b) && ScopeOf(b.task) !in s.byIdempotency
    requires forall i :: 0 <= i < |s.events| ==> s.events[i].taskId in s.tasks
    ensures EventsOf(Apply(s, Create(b)).0.events, b.task.taskId) == [b.event]
  {
    EventsAppend(s.events, b.event, b.task.taskId);
    NoEventsOfUnknownTask(s.events, b.task.taskId);
  }

  /** A projection is replaced exactly if the task is known and keeps its owner and creation time; an approval is
      asked for exactly if it is pending and belongs to the owner of a known task, which then waits for it.  Both
      leave the log alone. */
  lemma ProjectionMeans(s: Store, p: Projection, a: ApprovalRecord)
    requires Linked(s)
    ensures var (s', r) := Apply(s, Replace(p));
            && (r.Done? <==> p.taskId in s.tasks && s.tasks[p.taskId].actorId == p.actorId && s.tasks[p.taskId].deviceId == p.deviceId
                             && s.projections[p.taskId].createdAt == p.createdAt)
            && (r.Done? ==> s' == s.(projections := s.projections[p.taskId := p])) && (!r.Done? ==> r.Rejected? && s' == s)
    ensures var (s', r) := Apply(s, Put(a));
            && (r.Done? <==> a.taskId in s.tasks && s.tasks[a.taskId].actorId == a.actorId && s.tasks[a.taskId].deviceId == a.deviceId
                             && a.status.Pending?)
            && (!r.Done? ==> r.Rejected? && s' == s)
            && (r.Done? ==>
                  && s'.approvals == s.approvals[a.approvalId := a] && s'.events == s.events && s'.outbox == s.outbox && s'.tasks == s.tasks
                  && s'.cancellations == s.cancellations && s'.byIdempotency == s.byIdempotency
                  && (forall t :: t in s.projections && t != a.taskId ==> t in s'.projections && s'.projections[t] == s.projections[t])
                  && s'.projections[a.taskId].status.AwaitingApproval?
                  && s'.projections[a.taskId].pendingApproval == Some(PendingApproval(a.approvalId, a.actionId, "R2", a.expiresAt)))
  {
  }
}
