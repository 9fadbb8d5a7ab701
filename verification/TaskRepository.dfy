/** The in-memory task repository: tasks, events, outbox, cancellations and approvals under one lock. */
module TaskRepository {
  import opened Collections
  import opened TaskLog

  datatype TaskStatus =
    | Created | Planning | CancellationRequested | AwaitingApproval | Executing | Verifying
    | Succeeded | PartiallySucceeded | Failed | Cancelled | Denied | Expired

  datatype Scope = Scope(actorId: string, deviceId: string, idempotencyKey: string)

  datatype TaskRecord = TaskRecord(
    taskId: string, actorId: string, deviceId: string, status: TaskStatus,
    idempotencyKey: string, requestHash: string, createdAt: int)

  datatype OutboxRecord = OutboxRecord(
    outboxId: string, eventType: string, aggregateId: string, occurredAt: int, correlationId: string, eventSequence: int)

  datatype CreationBundle = CreationBundle(task: TaskRecord, event: TaskEvent, outbox: OutboxRecord)

  datatype CreationOutcome = CreationOutcome(task: TaskRecord, event: TaskEvent, outbox: OutboxRecord, created: bool)

  datatype PendingApproval = PendingApproval(approvalId: string, actionId: string, riskTier: string, expiresAt: int)

  datatype Projection = Projection(
    taskId: string, actorId: string, deviceId: string, status: TaskStatus,
    pendingApproval: Option<PendingApproval>, result: Option<string>, createdAt: int, updatedAt: int)

  datatype CancellationOutcome = CancellationOutcome(
    taskId: string, status: TaskStatus, requested: bool, created: bool,
    event: Option<TaskEvent>, outbox: Option<OutboxRecord>)

  datatype Decision = Approve | Deny

  datatype ApprovalStatus = Pending | ApprovalApproved | ApprovalDenied

  datatype ApprovalRecord = ApprovalRecord(
    approvalId: string, taskId: string, actorId: string, deviceId: string, actionId: string, actionDigest: string,
    status: ApprovalStatus, expiresAt: int, decidedAt: Option<int>, decision: Option<Decision>)

  /** Everything the lock protects. */
  datatype Store = Store(
    byIdempotency: map<Scope, CreationOutcome>,
    tasks: map<string, TaskRecord>,
    projections: map<string, Projection>,
    events: seq<TaskEvent>,
    outbox: seq<OutboxRecord>,
    cancellations: map<string, CancellationOutcome>,
    approvals: map<string, ApprovalRecord>)

  const EMPTY_STORE := Store(map[], map[], map[], [], [], map[], map[])

  /** What one operation answers: an outcome, nothing (unknown or not the owner), or an error. */
  datatype Reply =
    | TaskCreation(creation: CreationOutcome)
    | IdempotencyConflict
    | Cancellation(cancellation: CancellationOutcome)
    | Decided(approval: ApprovalRecord, event: TaskEvent, outbox: OutboxRecord)
    | ApprovalConsumed
    | ApprovalExpired
    | ApprovalDigestMismatch
    | NotVisible
    | Rejected
    | Done

  /** Identifiers and time drawn by the caller's generator and clock. */
  datatype Stamp = Stamp(eventId: string, outboxId: string, correlationId: string, at: int)

  function ScopeOf(t: TaskRecord): Scope {
    Scope(t.actorId, t.deviceId, t.idempotencyKey)
  }

  predicate Terminal(s: TaskStatus) {
    s in {Succeeded, PartiallySucceeded, Failed, Cancelled, Denied, Expired}
  }

  predicate Owns(s: Store, taskId: string, actorId: string, deviceId: string) {
    taskId in s.projections && s.projections[taskId].actorId == actorId && s.projections[taskId].deviceId == deviceId
  }

  // ---- the operations on values -----------------------------------------------------------------

  function CreateOrGet(s: Store, b: CreationBundle): (Store, Reply) {
    var scope := ScopeOf(b.task);
    if scope in s.byIdempotency then
      var existing := s.byIdempotency[scope];
      if existing.task.requestHash != b.task.requestHash then (s, IdempotencyConflict)
      else (s, TaskCreation(existing.(created := false)))
    else
      var outcome := CreationOutcome(b.task, b.event, b.outbox, true);
      var projection := Projection(b.task.taskId, b.task.actorId, b.task.deviceId, b.task.status, None, None,
                                   b.task.createdAt, b.task.createdAt);
      (s.(tasks := s.tasks[b.task.taskId := b.task],
          projections := s.projections[b.task.taskId := projection],
          events := s.events + [b.event],
          outbox := s.outbox + [b.outbox],
          byIdempotency := s.byIdempotency[scope := outcome]),
       TaskCreation(outcome))
  }

  function ReplaceProjection(s: Store, p: Projection): (Store, Reply) {
    if p.taskId !in s.tasks || p.taskId !in s.projections then (s, Rejected)
    else
      var current := s.projections[p.taskId];
      if current.actorId != p.actorId || current.deviceId != p.deviceId || current.createdAt != p.createdAt then (s, Rejected)
      else (s.(projections := s.projections[p.taskId := p]), Done)
  }

  function RequestCancellation(s: Store, taskId: string, actorId: string, deviceId: string, stamp: Stamp): (Store, Reply) {
    if !Owns(s, taskId, actorId, deviceId) then (s, NotVisible)
    else if taskId in s.cancellations then (s, Cancellation(s.cancellations[taskId].(created := false)))
    else
      var projection := s.projections[taskId];
      if Terminal(projection.status) then
        (s, Cancellation(CancellationOutcome(taskId, projection.status, false, false, None, None)))
      else
        var sequence := LastSequence(s.events, taskId) + 1;
        var event := TaskEvent(stamp.eventId, taskId, sequence, "task.cancellation_requested", stamp.at, stamp.correlationId,
                               map["previous_status" := StatusName(projection.status)]);
        var outbox := OutboxRecord(stamp.outboxId, "graph.task.cancel.requested", taskId, stamp.at, stamp.correlationId, sequence);
        var outcome := CancellationOutcome(taskId, CancellationRequested, true, true, Some(event), Some(outbox));
        (s.(events := s.events + [event],
            outbox := s.outbox + [outbox],
            projections := s.projections[taskId := projection.(status := CancellationRequested, updatedAt := stamp.at)],
            cancellations := s.cancellations[taskId := outcome]),
         Cancellation(outcome))
  }

  function StatusName(s: TaskStatus): string {
    match s
    case Created => "created"
    case Planning => "planning"
    case CancellationRequested => "cancellation_requested"
    case AwaitingApproval => "awaiting_approval"
    case Executing => "executing"
    case Verifying => "verifying"
    case Succeeded => "succeeded"
    case PartiallySucceeded => "partially_succeeded"
    case Failed => "failed"
    case Cancelled => "cancelled"
    case Denied => "denied"
    case Expired => "expired"
  }

  function DecideApproval(s: Store, approvalId: string, actorId: string, deviceId: string, actionDigest: string,
                          decision: Decision, stamp: Stamp): (Store, Reply)
  {
    if approvalId !in s.approvals || s.approvals[approvalId].actorId != actorId
       || s.approvals[approvalId].deviceId != deviceId then (s, NotVisible)
    else
      var approval := s.approvals[approvalId];
      if approval.status != Pending then (s, ApprovalConsumed)
      else if approval.expiresAt <= stamp.at then (s, ApprovalExpired)
      else if approval.actionDigest != actionDigest then (s, ApprovalDigestMismatch)
      else if approval.taskId !in s.projections then (s, Rejected)  // a lookup error; no consistent store gets here
      else
        var projection := s.projections[approval.taskId];
        var sequence := LastSequence(s.events, approval.taskId) + 1;
        var updated := approval.(status := if decision.Approve? then ApprovalApproved else ApprovalDenied,
                                 decidedAt := Some(stamp.at), decision := Some(decision));
        var event := TaskEvent(stamp.eventId, approval.taskId, sequence, "approval.decided", stamp.at, stamp.correlationId,
                               map["approval_id" := approvalId, "action_id" := approval.actionId,
                                   "decision" := if decision.Approve? then "approve" else "deny"]);
        var outbox := OutboxRecord(stamp.outboxId, "graph.approval.decided", approval.taskId, stamp.at,
                                   stamp.correlationId, sequence);
        (s.(approvals := s.approvals[approvalId := updated],
            events := s.events + [event],
            outbox := s.outbox + [outbox],
            projections := s.projections[approval.taskId := projection.(
              status := if decision.Approve? then Executing else Denied,
              pendingApproval := None, updatedAt := stamp.at)]),
         Decided(updated, event, outbox))
  }

  function PutPendingApproval(s: Store, a: ApprovalRecord): (Store, Reply) {
    if a.taskId !in s.projections || a.status != Pending || !Owns(s, a.taskId, a.actorId, a.deviceId) then (s, Rejected)
    else
      (s.(approvals := s.approvals[a.approvalId := a],
          projections := s.projections[a.taskId := s.projections[a.taskId].(
            status := AwaitingApproval,
            pendingApproval := Some(PendingApproval(a.approvalId, a.actionId, "R2", a.expiresAt)))]),
       Done)
  }

  function ListAuthorizedEvents(s: Store, taskId: string, actorId: string, deviceId: string, after: int, limit: nat): Option<Page> {
    if !Owns(s, taskId, actorId, deviceId) then None else Some(PageOf(s.events, taskId, after, limit))
  }

  // ---- consistency ------------------------------------------------------------------------------

  /** Each scope owns one task and each task is owned by its scope. */
  predicate ScopesConsistent(byIdempotency: map<Scope, CreationOutcome>, tasks: map<string, TaskRecord>) {
    && (forall k :: k in byIdempotency ==>
          var t := byIdempotency[k].task;
          ScopeOf(t) == k && t.taskId in tasks && tasks[t.taskId] == t && byIdempotency[k].created)
    && (forall t :: t in tasks ==>
          && tasks[t].taskId == t
          && ScopeOf(tasks[t]) in byIdempotency && byIdempotency[ScopeOf(tasks[t])].task == tasks[t])
  }

  /** Every task has a projection that keeps the owner of the task. */
  predicate ProjectionsConsistent(projections: map<string, Projection>, tasks: map<string, TaskRecord>) {
    && projections.Keys == tasks.Keys
    && (forall t :: t in projections ==>
          && projections[t].taskId == t
          && projections[t].actorId == tasks[t].actorId
          && projections[t].deviceId == tasks[t].deviceId)
  }

  /** Every approval belongs to the owner of an existing task. */
  predicate ApprovalsConsistent(approvals: map<string, ApprovalRecord>, tasks: map<string, TaskRecord>) {
    forall a :: a in approvals ==>
      && approvals[a].approvalId == a && approvals[a].taskId in tasks
      && tasks[approvals[a].taskId].actorId == approvals[a].actorId
      && tasks[approvals[a].taskId].deviceId == approvals[a].deviceId
  }

  /** The i-th outbox record announces the i-th event: they were committed together. */
  predicate OutboxMatches(events: seq<TaskEvent>, outbox: seq<OutboxRecord>) {
    && |outbox| == |events|
    && forall i :: 0 <= i < |events| ==>
         outbox[i].aggregateId == events[i].taskId && outbox[i].eventSequence == events[i].sequence
  }

  /** Every task has at least its creation event, and each task's events are numbered 1, 2, 3 ... */
  ghost predicate LogConsistent(events: seq<TaskEvent>, tasks: map<string, TaskRecord>) {
    && Numbered(events)
    && (forall i :: 0 <= i < |events| ==> events[i].taskId in tasks)
    && (forall t :: t in tasks ==> EventsOf(events, t) != [])
  }

  predicate CancellationRecorded(c: CancellationOutcome, taskId: string, events: seq<TaskEvent>) {
    && c.taskId == taskId && c.created && c.requested && c.status == CancellationRequested
    && c.event.Some? && c.event.value in events && c.event.value.taskId == taskId
  }

  predicate CancellationsConsistent(cancellations: map<string, CancellationOutcome>, events: seq<TaskEvent>) {
    forall t :: t in cancellations ==> CancellationRecorded(cancellations[t], t, events)
  }

  ghost predicate Consistent(s: Store) {
    && ScopesConsistent(s.byIdempotency, s.tasks)
    && ProjectionsConsistent(s.projections, s.tasks)
    && ApprovalsConsistent(s.approvals, s.tasks)
    && OutboxMatches(s.events, s.outbox)
    && LogConsistent(s.events, s.tasks)
    && CancellationsConsistent(s.cancellations, s.events)
  }

  /** A bundle as the creation service builds it: new identifiers, first event numbered 1. */
  predicate FreshBundle(s: Store, b: CreationBundle) {
    && b.task.taskId !in s.tasks
    && b.event.taskId == b.task.taskId && b.event.sequence == 1
    && b.outbox.aggregateId == b.task.taskId && b.outbox.eventSequence == 1
  }

  lemma {:induction false} NoEventsOfUnknownTask(log: seq<TaskEvent>, taskId: string)
    requires forall i :: 0 <= i < |log| ==> log[i].taskId != taskId
    ensures EventsOf(log, taskId) == []
  {
    if log != [] {
      NoEventsOfUnknownTask(log[..|log| - 1], taskId);
    }
  }

  lemma FirstEvent(events: seq<TaskEvent>, tasks: map<string, TaskRecord>, e: TaskEvent, task: TaskRecord)
    requires LogConsistent(events, tasks) && e.taskId !in tasks && e.sequence == 1
    ensures LogConsistent(events + [e], tasks[e.taskId := task])
  {
    NoEventsOfUnknownTask(events, e.taskId);
    AppendNumbered(events, e);
    forall t | t in tasks[e.taskId := task] ensures EventsOf(events + [e], t) != [] {
      EventsAppend(events, e, t);
    }
  }

  /** An event that carries the next number of its task. */
  lemma NextEvent(events: seq<TaskEvent>, tasks: map<string, TaskRecord>, e: TaskEvent)
    requires LogConsistent(events, tasks) && e.taskId in tasks
    requires e.sequence == LastSequence(events, e.taskId) + 1
    ensures LogConsistent(events + [e], tasks)
  {
    LastSequenceIsCount(events, e.taskId);
    AppendNumbered(events, e);
    forall t | t in tasks ensures EventsOf(events + [e], t) != [] {
      EventsAppend(events, e, t);
    }
  }

  lemma NewScope(byIdempotency: map<Scope, CreationOutcome>, tasks: map<string, TaskRecord>, outcome: CreationOutcome)
    requires ScopesConsistent(byIdempotency, tasks)
    requires ScopeOf(outcome.task) !in byIdempotency && outcome.task.taskId !in tasks && outcome.created
    ensures ScopesConsistent(byIdempotency[ScopeOf(outcome.task) := outcome], tasks[outcome.task.taskId := outcome.task])
  {
  }

  lemma NewOwner(approvals: map<string, ApprovalRecord>, tasks: map<string, TaskRecord>, task: TaskRecord)
    requires ApprovalsConsistent(approvals, tasks) && task.taskId !in tasks
    ensures ApprovalsConsistent(approvals, tasks[task.taskId := task])
  {
  }

  lemma SetProjection(projections: map<string, Projection>, tasks: map<string, TaskRecord>, p: Projection)
    requires ProjectionsConsistent(projections, tasks) && p.taskId in tasks
    requires p.actorId == tasks[p.taskId].actorId && p.deviceId == tasks[p.taskId].deviceId
    ensures ProjectionsConsistent(projections[p.taskId := p], tasks)
  {
  }

  lemma NewProjection(projections: map<string, Projection>, tasks: map<string, TaskRecord>, p: Projection, task: TaskRecord)
    requires ProjectionsConsistent(projections, tasks) && p.taskId !in tasks
    requires p.actorId == task.actorId && p.deviceId == task.deviceId
    ensures ProjectionsConsistent(projections[p.taskId := p], tasks[p.taskId := task])
  {
  }

  lemma AppendOutbox(events: seq<TaskEvent>, outbox: seq<OutboxRecord>, e: TaskEvent, o: OutboxRecord)
    requires OutboxMatches(events, outbox) && o.aggregateId == e.taskId && o.eventSequence == e.sequence
    ensures OutboxMatches(events + [e], outbox + [o])
  {
  }

  lemma KeepCancellations(cancellations: map<string, CancellationOutcome>, events: seq<TaskEvent>, e: TaskEvent)
    requires CancellationsConsistent(cancellations, events)
    ensures CancellationsConsistent(cancellations, events + [e])
  {
  }

  lemma NewCancellation(cancellations: map<string, CancellationOutcome>, events: seq<TaskEvent>, c: CancellationOutcome)
    requires CancellationsConsistent(cancellations, events) && CancellationRecorded(c, c.taskId, events)
    ensures CancellationsConsistent(cancellations[c.taskId := c], events)
  {
  }

  lemma UpdateApproval(approvals: map<string, ApprovalRecord>, tasks: map<string, TaskRecord>, a: ApprovalRecord)
    requires ApprovalsConsistent(approvals, tasks) && a.taskId in tasks
    requires a.actorId == tasks[a.taskId].actorId && a.deviceId == tasks[a.taskId].deviceId
    ensures ApprovalsConsistent(approvals[a.approvalId := a], tasks)
  {
  }

  lemma CreateConsistent(s: Store, b: CreationBundle)
    requires Consistent(s)
    requires ScopeOf(b.task) in s.byIdempotency || FreshBundle(s, b)
    ensures Consistent(CreateOrGet(s, b).0)
  {
    if ScopeOf(b.task) !in s.byIdempotency {
      NewScope(s.byIdempotency, s.tasks, CreationOutcome(b.task, b.event, b.outbox, true));
      NewOwner(s.approvals, s.tasks, b.task);
      NewProjection(s.projections, s.tasks,
                    Projection(b.task.taskId, b.task.actorId, b.task.deviceId, b.task.status, None, None,
                               b.task.createdAt, b.task.createdAt), b.task);
      FirstEvent(s.events, s.tasks, b.event, b.task);
      AppendOutbox(s.events, s.outbox, b.event, b.outbox);
      KeepCancellations(s.cancellations, s.events, b.event);
    }
  }

  lemma CancelConsistent(s: Store, taskId: string, actorId: string, deviceId: string, stamp: Stamp)
    requires Consistent(s)
    ensures Consistent(RequestCancellation(s, taskId, actorId, deviceId, stamp).0)
  {
    var (s', reply) := RequestCancellation(s, taskId, actorId, deviceId, stamp);
    if reply.Cancellation? && reply.cancellation.created {
      var c := reply.cancellation;
      NextEvent(s.events, s.tasks, c.event.value);
      SetProjection(s.projections, s.tasks, s.projections[taskId].(status := CancellationRequested, updatedAt := stamp.at));
      AppendOutbox(s.events, s.outbox, c.event.value, c.outbox.value);
      KeepCancellations(s.cancellations, s.events, c.event.value);
      NewCancellation(s.cancellations, s'.events, c);
    }
  }

  lemma DecideConsistent(s: Store, approvalId: string, actorId: string, deviceId: string, actionDigest: string,
                         decision: Decision, stamp: Stamp)
    requires Consistent(s)
    ensures Consistent(DecideApproval(s, approvalId, actorId, deviceId, actionDigest, decision, stamp).0)
  {
    var (s', reply) := DecideApproval(s, approvalId, actorId, deviceId, actionDigest, decision, stamp);
    if reply.Decided? {
      var taskId := reply.approval.taskId;
      NextEvent(s.events, s.tasks, reply.event);
      SetProjection(s.projections, s.tasks, s'.projections[taskId]);
      AppendOutbox(s.events, s.outbox, reply.event, reply.outbox);
      KeepCancellations(s.cancellations, s.events, reply.event);
      UpdateApproval(s.approvals, s.tasks, reply.approval);
    }
  }

  lemma ReplaceConsistent(s: Store, p: Projection)
    requires Consistent(s)
    ensures Consistent(ReplaceProjection(s, p).0)
  {
    if ReplaceProjection(s, p).1 == Done {
      SetProjection(s.projections, s.tasks, p);
    }
  }

  lemma PutConsistent(s: Store, a: ApprovalRecord)
    requires Consistent(s)
    ensures Consistent(PutPendingApproval(s, a).0)
  {
    if PutPendingApproval(s, a).1 == Done {
      SetProjection(s.projections, s.tasks, PutPendingApproval(s, a).0.projections[a.taskId]);
      UpdateApproval(s.approvals, s.tasks, a);
    }
  }

  // ---- histories ----------------------------------------------------------------------------------

  datatype Op =
    | Create(bundle: CreationBundle)
    | Cancel(taskId: string, actorId: string, deviceId: string, stamp: Stamp)
    | Decide(approvalId: string, actorId: string, deviceId: string, actionDigest: string, decision: Decision, stamp: Stamp)
    | Replace(projection: Projection)
    | Put(approval: ApprovalRecord)

  function Apply(s: Store, op: Op): (Store, Reply) {
    match op
    case Create(b) => CreateOrGet(s, b)
    case Cancel(t, a, d, stamp) => RequestCancellation(s, t, a, d, stamp)
    case Decide(id, a, d, digest, decision, stamp) => DecideApproval(s, id, a, d, digest, decision, stamp)
    case Replace(p) => ReplaceProjection(s, p)
    case Put(a) => PutPendingApproval(s, a)
  }

  /** New tasks come with new identifiers, as the creation service draws them. */
  predicate Drawn(s: Store, op: Op) {
    op.Create? ==> ScopeOf(op.bundle.task) in s.byIdempotency || FreshBundle(s, op.bundle)
  }

  lemma ApplyConsistent(s: Store, op: Op)
    requires Consistent(s) && Drawn(s, op)
    ensures Consistent(Apply(s, op).0)
  {
    match op
    case Create(b) => CreateConsistent(s, b);
    case Cancel(t, a, d, stamp) => CancelConsistent(s, t, a, d, stamp);
    case Decide(id, a, d, digest, decision, stamp) => DecideConsistent(s, id, a, d, digest, decision, stamp);
    case Replace(p) => ReplaceConsistent(s, p);
    case Put(a) => PutConsistent(s, a);
  }

  lemma CreateKeeps(s: Store, b: CreationBundle)
    ensures Consistent(s) && Drawn(s, Create(b)) ==> Consistent(CreateOrGet(s, b).0)
  {
    if Consistent(s) && Drawn(s, Create(b)) { CreateConsistent(s, b); }
  }

  lemma CancelKeeps(s: Store, taskId: string, actorId: string, deviceId: string, stamp: Stamp)
    ensures Consistent(s) ==> Consistent(RequestCancellation(s, taskId, actorId, deviceId, stamp).0)
  {
    if Consistent(s) { CancelConsistent(s, taskId, actorId, deviceId, stamp); }
  }

  lemma DecideKeeps(s: Store, approvalId: string, actorId: string, deviceId: string, actionDigest: string, decision: Decision,
                    stamp: Stamp)
    ensures Consistent(s) ==> Consistent(DecideApproval(s, approvalId, actorId, deviceId, actionDigest, decision, stamp).0)
  {
    if Consistent(s) { DecideConsistent(s, approvalId, actorId, deviceId, actionDigest, decision, stamp); }
  }

  lemma ReplaceKeeps(s: Store, p: Projection)
    ensures Consistent(s) ==> Consistent(ReplaceProjection(s, p).0)
  {
    if Consistent(s) { ReplaceConsistent(s, p); }
  }

  lemma PutKeeps(s: Store, a: ApprovalRecord)
    ensures Consistent(s) ==> Consistent(PutPendingApproval(s, a).0)
  {
    if Consistent(s) { PutConsistent(s, a); }
  }

  /** The i-th operation, one critical section, takes the i-th store to the next. */
  ghost predicate Step(ops: seq<Op>, stores: seq<Store>, i: nat)
    requires |stores| == |ops| + 1 && i < |ops|
  {
    Drawn(stores[i], ops[i]) && stores[i + 1] == Apply(stores[i], ops[i]).0
  }

  /** The stores a sequence of operations passes through. */
  ghost predicate History(ops: seq<Op>, stores: seq<Store>) {
    && |stores| == |ops| + 1
    && stores[0] == EMPTY_STORE
    && forall i :: 0 <= i < |ops| ==> Step(ops, stores, i)
  }

  lemma EmptyConsistent()
    ensures Consistent(EMPTY_STORE)
  {
    forall taskId ensures NumberedTask([], taskId) {
      assert EventsOf([], taskId) == [];
    }
  }

  /** Every store of every history is consistent: numbering, ownership, outbox and cancellation records. */
  lemma {:induction false} HistoryConsistent(ops: seq<Op>, stores: seq<Store>, i: nat)
    requires History(ops, stores) && i <= |ops|
    ensures Consistent(stores[i])
  {
    if i == 0 {
      EmptyConsistent();
    } else {
      HistoryConsistent(ops, stores, i - 1);
      assert Step(ops, stores, i - 1);
      ApplyConsistent(stores[i - 1], ops[i - 1]);
    }
  }

  /** Nothing durable is lost or rewritten by an operation. */
  ghost predicate Extends(s: Store, s': Store) {
    && s.events <= s'.events
    && s.outbox <= s'.outbox
    && (forall k :: k in s.byIdempotency ==> k in s'.byIdempotency && s'.byIdempotency[k] == s.byIdempotency[k])
    && (forall t :: t in s.tasks ==> t in s'.tasks && s'.tasks[t] == s.tasks[t])
    && (forall t :: t in s.cancellations ==> t in s'.cancellations && s'.cancellations[t] == s.cancellations[t])
  }

  lemma ApplyExtends(s: Store, op: Op)
    requires Drawn(s, op)
    ensures Extends(s, Apply(s, op).0)
  {
  }

  lemma {:induction false} HistoryExtends(ops: seq<Op>, stores: seq<Store>, i: nat, j: nat)
    requires History(ops, stores) && i <= j <= |ops|
    ensures Extends(stores[i], stores[j])
    decreases j - i
  {
    if i < j {
      HistoryExtends(ops, stores, i, j - 1);
      assert Step(ops, stores, j - 1);
      ApplyExtends(stores[j - 1], ops[j - 1]);
    }
  }

  /** Replaying a creation later returns the very task first created, and changes nothing;
      the same scope with another payload is refused. */
  lemma CreationIdempotent(ops: seq<Op>, stores: seq<Store>, i: nat, j: nat)
    requires History(ops, stores) && i < j < |ops| && ops[i].Create? && ops[j].Create?
    requires ScopeOf(ops[i].bundle.task) == ScopeOf(ops[j].bundle.task)
    ensures stores[j + 1] == stores[j]
    ensures ScopeOf(ops[i].bundle.task) in stores[i + 1].byIdempotency
    ensures var first := stores[i + 1].byIdempotency[ScopeOf(ops[i].bundle.task)];
            Apply(stores[j], ops[j]).1 ==
              if first.task.requestHash == ops[j].bundle.task.requestHash
              then TaskCreation(first.(created := false)) else IdempotencyConflict
  {
    assert Step(ops, stores, i) && Step(ops, stores, j);
    HistoryExtends(ops, stores, i + 1, j);
  }

  /** How many of the first n operations created a cancellation of this task. */
  ghost function CancellationsCreated(ops: seq<Op>, stores: seq<Store>, taskId: string, n: nat): nat
    requires History(ops, stores) && n <= |ops|
  {
    if n == 0 then 0
    else
      var reply := Apply(stores[n - 1], ops[n - 1]).1;
      CancellationsCreated(ops, stores, taskId, n - 1)
        + if ops[n - 1].Cancel? && ops[n - 1].taskId == taskId && reply.Cancellation? && reply.cancellation.created then 1 else 0
  }

  lemma CancelEffect(s: Store, op: Op, taskId: string)
    ensures var (s', reply) := Apply(s, op);
            (taskId in s'.cancellations <==>
              || taskId in s.cancellations
              || (op.Cancel? && op.taskId == taskId && reply.Cancellation? && reply.cancellation.created))
            && (op.Cancel? && op.taskId == taskId && reply.Cancellation? && reply.cancellation.created
                ==> taskId !in s.cancellations)
  {
  }

  /** At most one cancellation is ever created for a task, and the record says whether one was. */
  lemma {:induction false} CancelledOnce(ops: seq<Op>, stores: seq<Store>, taskId: string, n: nat)
    requires History(ops, stores) && n <= |ops|
    ensures CancellationsCreated(ops, stores, taskId, n) == if taskId in stores[n].cancellations then 1 else 0
  {
    if n > 0 {
      CancelledOnce(ops, stores, taskId, n - 1);
      assert Step(ops, stores, n - 1);
      CancelEffect(stores[n - 1], ops[n - 1], taskId);
    }
  }

  predicate Decides(s: Store, op: Op, approvalId: string) {
    op.Decide? && op.approvalId == approvalId && Apply(s, op).1.Decided?
  }

  predicate Puts(s: Store, op: Op, approvalId: string) {
    op.Put? && op.approval.approvalId == approvalId && Apply(s, op).1 == Done
  }

  predicate IsPending(s: Store, approvalId: string) {
    approvalId in s.approvals && s.approvals[approvalId].status == Pending
  }

  ghost function DecisionsMade(ops: seq<Op>, stores: seq<Store>, approvalId: string, n: nat): nat
    requires History(ops, stores) && n <= |ops|
  {
    if n == 0 then 0
    else DecisionsMade(ops, stores, approvalId, n - 1) + if Decides(stores[n - 1], ops[n - 1], approvalId) then 1 else 0
  }

  ghost function TimesPut(ops: seq<Op>, stores: seq<Store>, approvalId: string, n: nat): nat
    requires History(ops, stores) && n <= |ops|
  {
    if n == 0 then 0
    else TimesPut(ops, stores, approvalId, n - 1) + if Puts(stores[n - 1], ops[n - 1], approvalId) then 1 else 0
  }

  lemma DecideEffect(s: Store, op: Op, approvalId: string)
    ensures Decides(s, op, approvalId) ==> IsPending(s, approvalId) && !IsPending(Apply(s, op).0, approvalId)
    ensures !Decides(s, op, approvalId) && !Puts(s, op, approvalId) ==>
              (IsPending(Apply(s, op).0, approvalId) <==> IsPending(s, approvalId))
  {
  }

  /** An approval is decided at most as often as it was put up for decision; one that is still
      pending has a decision left.  Put up once, it is decided at most once. */
  lemma {:induction false} DecidedAtMostOncePerPut(ops: seq<Op>, stores: seq<Store>, approvalId: string, n: nat)
    requires History(ops, stores) && n <= |ops|
    ensures DecisionsMade(ops, stores, approvalId, n) + (if IsPending(stores[n], approvalId) then 1 else 0)
         <= TimesPut(ops, stores, approvalId, n)
  {
    if n > 0 {
      DecidedAtMostOncePerPut(ops, stores, approvalId, n - 1);
      assert Step(ops, stores, n - 1);
      DecideEffect(stores[n - 1], ops[n - 1], approvalId);
    }
  }

  /** The logs of a history grow only at the end, so paging across it sees every event once. */
  lemma HistoryLogs(ops: seq<Op>, stores: seq<Store>, i: nat, j: nat)
    requires History(ops, stores) && i <= j <= |ops|
    ensures Numbered(stores[i].events) && Numbered(stores[j].events) && stores[i].events <= stores[j].events
  {
    HistoryConsistent(ops, stores, i);
    HistoryConsistent(ops, stores, j);
    HistoryExtends(ops, stores, i, j);
  }

  // ---- the class --------------------------------------------------------------------------------

  /** The repository object.  Each method body is one critical section of its lock. */
  class InMemoryTaskRepository {
    var byIdempotency: map<Scope, CreationOutcome>
    var tasks: map<string, TaskRecord>
    var projections: map<string, Projection>
    var events: seq<TaskEvent>
    var outbox: seq<OutboxRecord>
    var cancellations: map<string, CancellationOutcome>
    var approvals: map<string, ApprovalRecord>

    ghost function State(): Store
      reads this
    {
      Store(byIdempotency, tasks, projections, events, outbox, cancellations, approvals)
    }

    /** Kept by every operation on drawn identifiers: ApplyConsistent, HistoryConsistent. */
    ghost predicate Valid()
      reads this
    {
      Consistent(State())
    }

    constructor ()
      ensures Valid() && State() == EMPTY_STORE
    {
      byIdempotency, tasks, projections, events, outbox, cancellations, approvals := map[], map[], map[], [], [], map[], map[];
      new;
      EmptyConsistent();
    }

    method CreateOrGetTask(b: CreationBundle) returns (r: Reply)
      modifies this
      ensures (State(), r) == CreateOrGet(old(State()), b)
      ensures old(Valid() && Drawn(State(), Create(b))) ==> Valid()
    {
      CreateKeeps(State(), b);
      var scope := ScopeOf(b.task);
      if scope in byIdempotency {
        var existing := byIdempotency[scope];
        if existing.task.requestHash != b.task.requestHash {
          return IdempotencyConflict;
        }
        return TaskCreation(existing.(created := false));
      }
      var outcome := CreationOutcome(b.task, b.event, b.outbox, true);
      tasks := tasks[b.task.taskId := b.task];
      projections := projections[b.task.taskId :=
        Projection(b.task.taskId, b.task.actorId, b.task.deviceId, b.task.status, None, None, b.task.createdAt, b.task.createdAt)];
      events := events + [b.event];
      outbox := outbox + [b.outbox];
      byIdempotency := byIdempotency[scope := outcome];
      r := TaskCreation(outcome);
    }

    method ListEvents(taskId: string, actorId: string, deviceId: string, after: int, limit: nat) returns (r: Option<Page>)
      requires Valid() && after >= 0 && limit >= 1
      ensures r == ListAuthorizedEvents(State(), taskId, actorId, deviceId, after, limit)
      ensures r.Some? <==> taskId in tasks && tasks[taskId].actorId == actorId && tasks[taskId].deviceId == deviceId
      ensures r.Some? ==>
                && r.value.events <= From(EventsOf(events, taskId), after)
                && r.value.nextCursor == after + |r.value.events|
                && (r.value.hasMore <==> r.value.events != From(EventsOf(events, taskId), after))
    {
      PageIsSlice(events, taskId, after, limit);
      if taskId !in projections || projections[taskId].actorId != actorId || projections[taskId].deviceId != deviceId {
        return None;
      }
      r := Some(PageOf(events, taskId, after, limit));
    }

    method CancelTask(taskId: string, actorId: string, deviceId: string, stamp: Stamp) returns (r: Reply)
      modifies this
      ensures (State(), r) == RequestCancellation(old(State()), taskId, actorId, deviceId, stamp)
      ensures old(Valid()) ==> Valid()
    {
      CancelKeeps(State(), taskId, actorId, deviceId, stamp);
      if taskId !in projections || projections[taskId].actorId != actorId || projections[taskId].deviceId != deviceId {
        return NotVisible;
      }
      var projection := projections[taskId];
      if taskId in cancellations {
        return Cancellation(cancellations[taskId].(created := false));
      }
      if Terminal(projection.status) {
        return Cancellation(CancellationOutcome(taskId, projection.status, false, false, None, None));
      }
      var sequence := LastSequence(events, taskId) + 1;
      var event := TaskEvent(stamp.eventId, taskId, sequence, "task.cancellation_requested", stamp.at, stamp.correlationId,
                             map["previous_status" := StatusName(projection.status)]);
      var record := OutboxRecord(stamp.outboxId, "graph.task.cancel.requested", taskId, stamp.at, stamp.correlationId, sequence);
      events := events + [event];
      outbox := outbox + [record];
      projections := projections[taskId := projection.(status := CancellationRequested, updatedAt := stamp.at)];
      var outcome := CancellationOutcome(taskId, CancellationRequested, true, true, Some(event), Some(record));
      cancellations := cancellations[taskId := outcome];
      r := Cancellation(outcome);
    }

    method DecideOnApproval(approvalId: string, actorId: string, deviceId: string, actionDigest: string,
                            decision: Decision, stamp: Stamp) returns (r: Reply)
      modifies this
      ensures (State(), r) == DecideApproval(old(State()), approvalId, actorId, deviceId, actionDigest, decision, stamp)
      ensures old(Valid()) ==> Valid()
    {
      DecideKeeps(State(), approvalId, actorId, deviceId, actionDigest, decision, stamp);
      if approvalId !in approvals || approvals[approvalId].actorId != actorId || approvals[approvalId].deviceId != deviceId {
        return NotVisible;
      }
      var approval := approvals[approvalId];
      if approval.status != Pending {
        return ApprovalConsumed;
      }
      if approval.expiresAt <= stamp.at {
        return ApprovalExpired;
      }
      if approval.actionDigest != actionDigest {
        return ApprovalDigestMismatch;
      }
      if approval.taskId !in projections {
        return Rejected;
      }
      var projection := projections[approval.taskId];
      var sequence := LastSequence(events, approval.taskId) + 1;
      var updated := approval.(status := if decision.Approve? then ApprovalApproved else ApprovalDenied,
                               decidedAt := Some(stamp.at), decision := Some(decision));
      var event := TaskEvent(stamp.eventId, approval.taskId, sequence, "approval.decided", stamp.at, stamp.correlationId,
                             map["approval_id" := approvalId, "action_id" := approval.actionId,
                                 "decision" := if decision.Approve? then "approve" else "deny"]);
      var record := OutboxRecord(stamp.outboxId, "graph.approval.decided", approval.taskId, stamp.at, stamp.correlationId, sequence);
      approvals := approvals[approvalId := updated];
      events := events + [event];
      outbox := outbox + [record];
      projections := projections[approval.taskId := projection.(
        status := if decision.Approve? then Executing else Denied, pendingApproval := None, updatedAt := stamp.at)];
      r := Decided(updated, event, record);
    }

    method ReplaceTaskProjection(p: Projection) returns (r: Reply)
      modifies this`projections
      ensures (State(), r) == ReplaceProjection(old(State()), p)
      ensures old(Valid()) ==> Valid()
    {
      ReplaceKeeps(State(), p);
      if p.taskId !in tasks || p.taskId !in projections {
        return Rejected;
      }
      var current := projections[p.taskId];
      if current.actorId != p.actorId || current.deviceId != p.deviceId || current.createdAt != p.createdAt {
        return Rejected;
      }
      projections := projections[p.taskId := p];
      r := Done;
    }

    method PutApproval(a: ApprovalRecord) returns (r: Reply)
      modifies this`projections, this`approvals
      ensures (State(), r) == PutPendingApproval(old(State()), a)
      ensures old(Valid()) ==> Valid()
    {
      PutKeeps(State(), a);
      if a.taskId !in projections || a.status != Pending {
        return Rejected;
      }
      var projection := projections[a.taskId];
      if projection.actorId != a.actorId || projection.deviceId != a.deviceId {
        return Rejected;
      }
      approvals := approvals[a.approvalId := a];
      projections := projections[a.taskId := projection.(
        status := AwaitingApproval, pendingApproval := Some(PendingApproval(a.approvalId, a.actionId, "R2", a.expiresAt)))];
      r := Done;
    }
  }
}
