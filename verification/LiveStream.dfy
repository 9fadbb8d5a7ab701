/** The live task stream: a bounded broker, and one connection's session loop between awaits. */
module LiveStream {
  import opened Collections
  import opened TaskLog

  datatype Message =
    | EventMessage(event: TaskEvent)
    | ResyncMessage(taskId: string, reason: string)

  function TaskOf(m: Message): string {
    match m
    case EventMessage(e) => e.taskId
    case ResyncMessage(t, _) => t
  }

  // ---- the broker ---------------------------------------------------------------------------------

  /** One connection's queue and subscriptions. */
  datatype Mailbox = Mailbox(queue: seq<Message>, tasks: set<string>)

  /** Offer an event: queue it, or on overflow throw everything away, ask for a resync of this
      task and stop following it. */
  function Offer(box: Mailbox, event: TaskEvent, capacity: nat): Mailbox {
    if event.taskId !in box.tasks then box
    else if |box.queue| < capacity then box.(queue := box.queue + [EventMessage(event)])
    else Mailbox([ResyncMessage(event.taskId, "buffer_overflow")], box.tasks - {event.taskId})
  }

  class InMemoryTaskEventBroker {
    const queueSize: nat
    var queues: map<string, seq<Message>>
    var subscriptions: map<string, set<string>>

    ghost predicate Valid()
      reads this
    {
      queueSize >= 1 && queues.Keys == subscriptions.Keys && forall c :: c in queues ==> |queues[c]| <= queueSize
    }

    ghost function Boxes(): map<string, Mailbox>
      reads this
      requires queues.Keys == subscriptions.Keys
    {
      map c | c in queues :: Mailbox(queues[c], subscriptions[c])
    }

    constructor (queueSize: nat)
      requires queueSize >= 1
      ensures Valid() && this.queueSize == queueSize && Boxes() == map[]
    {
      this.queueSize := queueSize;
      queues, subscriptions := map[], map[];
    }

    method Register(connectionId: string)
      requires Valid()
      modifies this
      ensures Valid() && Boxes() == old(Boxes())[connectionId := Mailbox([], {})]
    {
      queues := queues[connectionId := []];
      subscriptions := subscriptions[connectionId := {}];
    }

    method Unregister(connectionId: string)
      requires Valid()
      modifies this
      ensures Valid() && Boxes() == old(Boxes()) - {connectionId}
    {
      queues := queues - {connectionId};
      subscriptions := subscriptions - {connectionId};
    }

    method Subscribe(connectionId: string, taskId: string)
      requires Valid()
      modifies this`subscriptions
      ensures Valid()
      ensures Boxes() == if connectionId !in old(Boxes()) then old(Boxes())
                         else old(Boxes())[connectionId := old(Boxes())[connectionId].(tasks := old(Boxes())[connectionId].tasks + {taskId})]
    {
      if connectionId in subscriptions {
        subscriptions := subscriptions[connectionId := subscriptions[connectionId] + {taskId}];
      }
    }

    method Unsubscribe(connectionId: string, taskId: string)
      requires Valid()
      modifies this`subscriptions
      ensures Valid()
      ensures Boxes() == if connectionId !in old(Boxes()) then old(Boxes())
                         else old(Boxes())[connectionId := old(Boxes())[connectionId].(tasks := old(Boxes())[connectionId].tasks - {taskId})]
    {
      if connectionId in subscriptions {
        subscriptions := subscriptions[connectionId := subscriptions[connectionId] - {taskId}];
      }
    }

    /** Replace one connection's queue and subscriptions. */
    ghost predicate Replaced(before: map<string, Mailbox>, connectionId: string, box: Mailbox)
      reads this
    {
      queues.Keys == subscriptions.Keys && Boxes() == before[connectionId := box]
    }

    /** put_nowait, and on a full queue the purge and resync request. */
    method PutOrResync(connectionId: string, event: TaskEvent)
      requires Valid() && connectionId in queues && event.taskId in subscriptions[connectionId]
      modifies this
      ensures Valid() && connectionId in old(Boxes())
      ensures Replaced(old(Boxes()), connectionId, Offer(old(Boxes())[connectionId], event, queueSize))
    {
      if |queues[connectionId]| < queueSize {
        queues := queues[connectionId := queues[connectionId] + [EventMessage(event)]];
      } else {
        queues := queues[connectionId := [ResyncMessage(event.taskId, "buffer_overflow")]];
        subscriptions := subscriptions[connectionId := subscriptions[connectionId] - {event.taskId}];
      }
    }

    /** Offer the event to every connection independently. */
    method Publish(event: TaskEvent)
      requires Valid()
      modifies this
      ensures Valid()
      ensures Boxes() == OfferedExcept(old(Boxes()), event, queueSize, {})
    {
      ghost var before := Boxes();
      var targets := set c | c in subscriptions && event.taskId in subscriptions[c] && c in queues;
      assert Boxes() == OfferedExcept(before, event, queueSize, targets);
      while targets != {}
        invariant Valid() && targets <= before.Keys
        invariant Boxes() == OfferedExcept(before, event, queueSize, targets)
        invariant forall c :: c in targets ==> event.taskId in before[c].tasks
        decreases |targets|
      {
        var c :| c in targets;
        assert Boxes()[c] == before[c];
        PutOrResync(c, event);
        OfferOneMore(before, event, queueSize, targets, c);
        targets := targets - {c};
      }
    }
  }

  /** Every mailbox after the event was offered, except the ones still waiting. */
  ghost function OfferedExcept(before: map<string, Mailbox>, event: TaskEvent, capacity: nat, waiting: set<string>): map<string, Mailbox> {
    map c | c in before :: if c in waiting then before[c] else Offer(before[c], event, capacity)
  }

  lemma OfferOneMore(before: map<string, Mailbox>, event: TaskEvent, capacity: nat, waiting: set<string>, c: string)
    requires c in waiting && c in before
    ensures OfferedExcept(before, event, capacity, waiting - {c})
         == OfferedExcept(before, event, capacity, waiting)[c := Offer(before[c], event, capacity)]
  {
  }

  // ---- one session --------------------------------------------------------------------------------

  /** What the connection has been sent.  Opened is not a frame on the wire: it marks the first
      successful page of a subscription and carries the cursor the client asked for. */
  datatype Frame =
    | Opened(taskId: string, after: int)
    | EventFrame(event: TaskEvent)
    | SubscribedFrame(taskId: string, cursor: int)
    | UnsubscribedFrame(taskId: string)
    | ResyncFrame(taskId: string, after: int, reason: string)
    | DeniedFrame(taskId: string)
    | OtherFrame

  /** Where the session coroutine stands. */
  datatype Phase =
    | Idle
    | Subscribing(taskId: string, after: int)
    | Replaying(taskId: string, cursor: int, started: bool, pending: seq<TaskEvent>, more: bool)

  datatype Config = Config(owned: set<string>, capacity: nat, maxSubscriptions: nat)

  const PAGE_SIZE: nat := 100

  datatype Session = Session(
    log: seq<TaskEvent>,
    box: Mailbox,
    held: Option<Message>,
    registered: set<string>,
    cursors: map<string, int>,
    phase: Phase,
    frames: seq<Frame>)

  /** One atomic step of the world around and inside the session. */
  datatype Step =
    | Commit(event: TaskEvent)
    | Publish(event: TaskEvent)
    | Take
    | LoseHeld
    | ReceiveOther
    | ReceiveSubscribe(taskId: string, after: int)
    | JoinBroker
    | FetchPage
    | SendPending
    | FinishReplay
    | ReceiveUnsubscribe(taskId: string)
    | ProcessHeld

  /** The principal can read the task: it owns it and the task exists. */
  predicate Readable(c: Config, log: seq<TaskEvent>, taskId: string) {
    taskId in c.owned && EventsOf(log, taskId) != []
  }

  predicate Enabled(c: Config, s: Session, step: Step) {
    match step
    case Commit(e) => e.sequence == |EventsOf(s.log, e.taskId)| + 1
    case Publish(e) => e in s.log
    case Take => s.phase.Idle? && s.held.None? && s.box.queue != []
    case LoseHeld => true
    case ReceiveOther => s.phase.Idle?
    case ReceiveSubscribe(_, _) => s.phase.Idle?
    case JoinBroker => s.phase.Subscribing?
    case FetchPage => s.phase.Replaying? && s.phase.pending == [] && s.phase.more
    case SendPending => s.phase.Replaying? && s.phase.pending != []
    case FinishReplay => s.phase.Replaying? && s.phase.pending == [] && !s.phase.more
    case ReceiveUnsubscribe(_) => s.phase.Idle?
    case ProcessHeld => s.phase.Idle? && s.held.Some?
  }

  function Next(c: Config, s: Session, step: Step): Session
    requires Enabled(c, s, step)
  {
    match step
    case Commit(e) => s.(log := s.log + [e])
    case Publish(e) => s.(box := Offer(s.box, e, c.capacity))
    case Take => s.(held := Some(s.box.queue[0]), box := s.box.(queue := s.box.queue[1..]))
    case LoseHeld => s.(held := None)
    case ReceiveOther => s.(frames := s.frames + [OtherFrame])
    case ReceiveSubscribe(t, after) =>
      if t !in s.registered && |s.registered| >= c.maxSubscriptions then s.(frames := s.frames + [OtherFrame])
      else s.(registered := s.registered + {t}, phase := Subscribing(t, after))
    case JoinBroker =>
      s.(box := s.box.(tasks := s.box.tasks + {s.phase.taskId}),
         phase := Replaying(s.phase.taskId, s.phase.after, false, [], true))
    case FetchPage => Fetched(c, s)
    case SendPending =>
      var e := s.phase.pending[0];
      s.(frames := s.frames + [EventFrame(e)], phase := s.phase.(cursor := e.sequence, pending := s.phase.pending[1..]))
    case FinishReplay =>
      s.(cursors := s.cursors[s.phase.taskId := s.phase.cursor],
         frames := s.frames + [SubscribedFrame(s.phase.taskId, s.phase.cursor)],
         phase := Idle)
    case ReceiveUnsubscribe(t) =>
      s.(cursors := s.cursors - {t},
         registered := s.registered - {t},
         box := s.box.(tasks := s.box.tasks - {t}),
         frames := s.frames + [UnsubscribedFrame(t)])
    case ProcessHeld => Processed(s)
  }

  /** service.list: a negative cursor or an unreadable task ends the subscription, and anything held is dropped. */
  function Fetched(c: Config, s: Session): Session
    requires s.phase.Replaying?
  {
    var t := s.phase.taskId;
    if s.phase.cursor < 0 || !Readable(c, s.log, t) then
      s.(registered := s.registered - {t},
         box := s.box.(tasks := s.box.tasks - {t}),
         frames := s.frames + [DeniedFrame(t)],
         phase := Idle,
         held := None)
    else
      var page := PageOf(s.log, t, s.phase.cursor, PAGE_SIZE);
      s.(phase := Replaying(t, s.phase.cursor, true, page.events, page.hasMore),
         frames := if s.phase.started then s.frames else s.frames + [Opened(t, s.phase.cursor)])
  }

  /** A broker message, once taken, against the cursor of its task. */
  function Processed(s: Session): Session
    requires s.held.Some?
  {
    var m := s.held.value;
    var t := TaskOf(m);
    var s' := s.(held := None);
    if t !in s.cursors then s'
    else
      var cursor := s.cursors[t];
      match m
      case ResyncMessage(_, reason) =>
        s'.(cursors := s.cursors - {t},
            registered := s.registered - {t},
            frames := s.frames + [ResyncFrame(t, cursor, reason)])
      case EventMessage(e) =>
        if e.sequence <= cursor then s'
        else if e.sequence != cursor + 1 then
          s'.(cursors := s.cursors - {t},
              registered := s.registered - {t},
              box := s.box.(tasks := s.box.tasks - {t}),
              frames := s.frames + [ResyncFrame(t, cursor, "sequence_gap")])
        else
          s'.(frames := s.frames + [EventFrame(e)], cursors := s.cursors[t := e.sequence])
  }

  // ---- what a faithful stream looks like ------------------------------------------------------------

  /** The client's position on a task: the last sequence number it has, while the task is open. */
  function Position(frames: seq<Frame>, t: string): Option<int> {
    if frames == [] then None
    else
      var before := Position(frames[..|frames| - 1], t);
      match frames[|frames| - 1]
      case Opened(u, after) => if u == t then Some(after) else before
      case EventFrame(e) => if e.taskId == t then Some(e.sequence) else before
      case ResyncFrame(u, _, _) => if u == t then None else before
      case UnsubscribedFrame(u) => if u == t then None else before
      case _ => before
  }

  /** The next frame is right for a client at this position: an event frame is exactly the next
      durable event, and an acknowledgement or resync names exactly the position. */
  predicate RightFrame(position: Option<int>, f: Frame, log: seq<TaskEvent>, t: string) {
    match f
    case EventFrame(e) =>
      e.taskId == t ==>
        && position.Some? && 0 <= position.value < |EventsOf(log, t)|
        && EventsOf(log, t)[position.value] == e && e.sequence == position.value + 1
    case SubscribedFrame(u, cursor) => u == t ==> position == Some(cursor)
    case ResyncFrame(u, cursor, _) => u == t ==> position == Some(cursor)
    case _ => true
  }

  predicate Faithful(frames: seq<Frame>, log: seq<TaskEvent>, t: string) {
    frames == [] ||
      (Faithful(frames[..|frames| - 1], log, t)
       && RightFrame(Position(frames[..|frames| - 1], t), frames[|frames| - 1], log, t))
  }

  lemma AppendFrame(frames: seq<Frame>, f: Frame, log: seq<TaskEvent>, t: string)
    ensures Faithful(frames + [f], log, t) <==> Faithful(frames, log, t) && RightFrame(Position(frames, t), f, log, t)
    ensures Position(frames + [f], t) ==
            match f
            case Opened(u, after) => (if u == t then Some(after) else Position(frames, t))
            case EventFrame(e) => (if e.taskId == t then Some(e.sequence) else Position(frames, t))
            case ResyncFrame(u, _, _) => (if u == t then None else Position(frames, t))
            case UnsubscribedFrame(u) => (if u == t then None else Position(frames, t))
            case _ => Position(frames, t)
  {
    assert (frames + [f])[..|frames|] == frames;
  }

  lemma {:induction false} FaithfulLater(frames: seq<Frame>, log: seq<TaskEvent>, longer: seq<TaskEvent>, t: string)
    requires Faithful(frames, log, t) && log <= longer
    ensures Faithful(frames, longer, t)
  {
    if frames != [] {
      FaithfulLater(frames[..|frames| - 1], log, longer, t);
      EventsPrefix(log, longer, t);
    }
  }

  // ---- the invariant ----------------------------------------------------------------------------------

  /** Only committed events travel. */
  predicate MessageCommitted(m: Message, log: seq<TaskEvent>) {
    m.EventMessage? ==> m.event in log
  }

  predicate MessagesCommitted(s: Session) {
    && (forall i :: 0 <= i < |s.box.queue| ==> MessageCommitted(s.box.queue[i], s.log))
    && (s.held.Some? ==> MessageCommitted(s.held.value, s.log))
  }

  predicate InReplay(s: Session, t: string) {
    s.phase.Replaying? && s.phase.started && s.phase.taskId == t
  }

  /** Stored cursors are the client's positions, except for a task being replayed afresh. */
  ghost predicate CursorsMatch(s: Session) {
    forall t :: t in s.cursors && !InReplay(s, t) ==> Position(s.frames, t) == Some(s.cursors[t])
  }

  /** The page in hand continues the log from the replay cursor, which is the client's position. */
  predicate ReplayMatches(c: Config, s: Session) {
    s.phase.Replaying? ==>
      && (s.phase.started ==>
            && Position(s.frames, s.phase.taskId) == Some(s.phase.cursor)
            && s.phase.cursor >= 0
            && Readable(c, s.log, s.phase.taskId)
            && s.phase.pending <= From(EventsOf(s.log, s.phase.taskId), s.phase.cursor))
      && (!s.phase.started ==> s.phase.pending == [] && s.phase.more)
  }

  ghost predicate StreamInvariant(c: Config, s: Session) {
    && Numbered(s.log)
    && MessagesCommitted(s)
    && (forall t :: Faithful(s.frames, s.log, t))
    && CursorsMatch(s)
    && ReplayMatches(c, s)
  }

  // ---- every step keeps the invariant -----------------------------------------------------------------

  lemma CommitKeeps(c: Config, s: Session, e: TaskEvent)
    requires StreamInvariant(c, s) && Enabled(c, s, Commit(e))
    ensures StreamInvariant(c, Next(c, s, Commit(e)))
  {
    var longer := s.log + [e];
    AppendNumbered(s.log, e);
    forall t ensures Faithful(s.frames, longer, t) {
      FaithfulLater(s.frames, s.log, longer, t);
    }
    if s.phase.Replaying? && s.phase.started {
      EventsPrefix(s.log, longer, s.phase.taskId);
      LaterFrom(EventsOf(s.log, s.phase.taskId), EventsOf(longer, s.phase.taskId), s.phase.cursor);
    }
  }

  lemma OfferKeeps(c: Config, s: Session, e: TaskEvent)
    requires StreamInvariant(c, s) && e in s.log
    ensures StreamInvariant(c, Next(c, s, Publish(e)))
  {
  }

  /** Steps that send nothing and touch neither cursors nor the replay. */
  lemma QuietKeeps(c: Config, s: Session, step: Step)
    requires StreamInvariant(c, s) && Enabled(c, s, step)
    requires step.Take? || step.LoseHeld? || step.JoinBroker?
    ensures StreamInvariant(c, Next(c, s, step))
  {
  }

  /** Sending one right frame keeps the whole trace faithful. */
  lemma SendKeepsFaithful(frames: seq<Frame>, f: Frame, log: seq<TaskEvent>)
    requires forall t :: Faithful(frames, log, t)
    requires forall t :: RightFrame(Position(frames, t), f, log, t)
    ensures forall t :: Faithful(frames + [f], log, t)
  {
    forall t ensures Faithful(frames + [f], log, t) {
      AppendFrame(frames, f, log, t);
    }
  }

  /** Frames about nothing leave every position alone. */
  lemma SendOther(frames: seq<Frame>, f: Frame, log: seq<TaskEvent>)
    requires f.OtherFrame? || f.DeniedFrame?
    requires forall t :: Faithful(frames, log, t)
    ensures forall t :: Faithful(frames + [f], log, t)
    ensures forall t :: Position(frames + [f], t) == Position(frames, t)
  {
    SendKeepsFaithful(frames, f, log);
    forall t ensures Position(frames + [f], t) == Position(frames, t) {
      AppendFrame(frames, f, log, t);
    }
  }

  lemma ReceiveKeeps(c: Config, s: Session, step: Step)
    requires StreamInvariant(c, s) && Enabled(c, s, step)
    requires step.ReceiveOther? || step.ReceiveSubscribe?
    ensures StreamInvariant(c, Next(c, s, step))
  {
    SendOther(s.frames, OtherFrame, s.log);
  }

  lemma UnsubscribeKeeps(c: Config, s: Session, t: string)
    requires StreamInvariant(c, s) && s.phase.Idle?
    ensures StreamInvariant(c, Next(c, s, ReceiveUnsubscribe(t)))
  {
    var f := UnsubscribedFrame(t);
    SendKeepsFaithful(s.frames, f, s.log);
    var s' := Next(c, s, ReceiveUnsubscribe(t));
    forall u | u in s'.cursors ensures Position(s'.frames, u) == Some(s'.cursors[u]) {
      AppendFrame(s.frames, f, s.log, u);
    }
  }

  lemma FetchKeeps(c: Config, s: Session)
    requires StreamInvariant(c, s) && Enabled(c, s, FetchPage)
    ensures StreamInvariant(c, Next(c, s, FetchPage))
  {
    var s', t := Fetched(c, s), s.phase.taskId;
    if s.phase.cursor < 0 || !Readable(c, s.log, t) {
      SendOther(s.frames, DeniedFrame(t), s.log);
    } else {
      PageIsSlice(s.log, t, s.phase.cursor, PAGE_SIZE);
      if !s.phase.started {
        var f := Opened(t, s.phase.cursor);
        SendKeepsFaithful(s.frames, f, s.log);
        forall u ensures Position(s'.frames, u) == if u == t then Some(s.phase.cursor) else Position(s.frames, u) {
          AppendFrame(s.frames, f, s.log, u);
        }
      }
    }
  }

  lemma SendPendingKeeps(c: Config, s: Session)
    requires StreamInvariant(c, s) && Enabled(c, s, SendPending)
    ensures StreamInvariant(c, Next(c, s, SendPending))
  {
    var s', t, e := Next(c, s, SendPending), s.phase.taskId, s.phase.pending[0];
    var all := EventsOf(s.log, t);
    NextPending(s.log, t, s.phase.cursor, s.phase.pending);
    var f := EventFrame(e);
    SendKeepsFaithful(s.frames, f, s.log);
    forall u ensures Position(s'.frames, u) == if u == t then Some(e.sequence) else Position(s.frames, u) {
      AppendFrame(s.frames, f, s.log, u);
    }
  }

  lemma NextPending(log: seq<TaskEvent>, t: string, cursor: int, pending: seq<TaskEvent>)
    requires Numbered(log) && cursor >= 0 && pending != [] && pending <= From(EventsOf(log, t), cursor)
    ensures cursor < |EventsOf(log, t)| && EventsOf(log, t)[cursor] == pending[0]
    ensures pending[0].taskId == t && pending[0].sequence == cursor + 1
    ensures pending[1..] <= From(EventsOf(log, t), cursor + 1)
  {
    assert NumberedTask(log, t);
    assert From(EventsOf(log, t), cursor)[0] == pending[0];
  }

  lemma FinishKeeps(c: Config, s: Session)
    requires StreamInvariant(c, s) && Enabled(c, s, FinishReplay)
    ensures StreamInvariant(c, Next(c, s, FinishReplay))
  {
    var s', t := Next(c, s, FinishReplay), s.phase.taskId;
    var f := SubscribedFrame(t, s.phase.cursor);
    SendKeepsFaithful(s.frames, f, s.log);
    forall u ensures Position(s'.frames, u) == Position(s.frames, u) {
      AppendFrame(s.frames, f, s.log, u);
    }
  }

  lemma ProcessKeeps(c: Config, s: Session)
    requires StreamInvariant(c, s) && Enabled(c, s, ProcessHeld)
    ensures StreamInvariant(c, Next(c, s, ProcessHeld))
  {
    var m, t := s.held.value, TaskOf(s.held.value);
    if t in s.cursors {
      var cursor := s.cursors[t];
      assert Position(s.frames, t) == Some(cursor);
      if m.ResyncMessage? {
        ResyncKeeps(s, ResyncFrame(t, cursor, m.reason));
      } else if m.event.sequence > cursor + 1 {
        ResyncKeeps(s, ResyncFrame(t, cursor, "sequence_gap"));
      } else if m.event.sequence == cursor + 1 {
        LiveEventKeeps(s, m.event);
      }
    }
  }

  /** Dropping a cursor while telling the client its exact position. */
  lemma ResyncKeeps(s: Session, f: Frame)
    requires forall t :: Faithful(s.frames, s.log, t)
    requires CursorsMatch(s) && s.phase.Idle?
    requires f.ResyncFrame? && f.taskId in s.cursors && f.after == s.cursors[f.taskId]
    ensures forall t :: Faithful(s.frames + [f], s.log, t)
    ensures forall t :: t in s.cursors && t != f.taskId ==> Position(s.frames + [f], t) == Some(s.cursors[t])
  {
    SendKeepsFaithful(s.frames, f, s.log);
    forall t | t in s.cursors && t != f.taskId ensures Position(s.frames + [f], t) == Some(s.cursors[t]) {
      AppendFrame(s.frames, f, s.log, t);
    }
  }

  /** A live event that directly follows the cursor is the next durable event. */
  lemma LiveEventKeeps(s: Session, e: TaskEvent)
    requires Numbered(s.log) && e in s.log
    requires forall t :: Faithful(s.frames, s.log, t)
    requires CursorsMatch(s) && s.phase.Idle?
    requires e.taskId in s.cursors && e.sequence == s.cursors[e.taskId] + 1
    ensures forall t :: Faithful(s.frames + [EventFrame(e)], s.log, t)
    ensures forall t :: t in s.cursors ==>
              Position(s.frames + [EventFrame(e)], t) == Some(if t == e.taskId then e.sequence else s.cursors[t])
  {
    EventPosition(s.log, e);
    SendKeepsFaithful(s.frames, EventFrame(e), s.log);
    forall t | t in s.cursors
      ensures Position(s.frames + [EventFrame(e)], t) == Some(if t == e.taskId then e.sequence else s.cursors[t])
    {
      AppendFrame(s.frames, EventFrame(e), s.log, t);
    }
  }

  lemma StepKeeps(c: Config, s: Session, step: Step)
    requires StreamInvariant(c, s) && Enabled(c, s, step)
    ensures StreamInvariant(c, Next(c, s, step))
  {
    match step
    case Commit(e) => CommitKeeps(c, s, e);
    case Publish(e) => OfferKeeps(c, s, e);
    case Take => QuietKeeps(c, s, step);
    case LoseHeld => QuietKeeps(c, s, step);
    case JoinBroker => QuietKeeps(c, s, step);
    case ReceiveOther => ReceiveKeeps(c, s, step);
    case ReceiveSubscribe(_, _) => ReceiveKeeps(c, s, step);
    case FetchPage => FetchKeeps(c, s);
    case SendPending => SendPendingKeeps(c, s);
    case FinishReplay => FinishKeeps(c, s);
    case ReceiveUnsubscribe(t) => UnsubscribeKeeps(c, s, t);
    case ProcessHeld => ProcessKeeps(c, s);
  }

  // ---- whole runs ---------------------------------------------------------------------------------------

  /** A new connection over a log that other connections have already written to. */
  function Fresh(log: seq<TaskEvent>): Session {
    Session(log, Mailbox([], {}), None, {}, map[], Idle, [])
  }

  ghost predicate Runs(c: Config, steps: seq<Step>, states: seq<Session>) {
    && |states| == |steps| + 1
    && Numbered(states[0].log) && states[0] == Fresh(states[0].log)
    && forall i :: 0 <= i < |steps| ==> Enabled(c, states[i], steps[i]) && states[i + 1] == Next(c, states[i], steps[i])
  }

  lemma {:induction false} RunKeeps(c: Config, steps: seq<Step>, states: seq<Session>, n: nat)
    requires Runs(c, steps, states) && n <= |steps|
    ensures StreamInvariant(c, states[n])
  {
    if n > 0 {
      RunKeeps(c, steps, states, n - 1);
      assert Enabled(c, states[n - 1], steps[n - 1]);
      StepKeeps(c, states[n - 1], steps[n - 1]);
    }
  }

  /** The events of one task among frames i..j. */
  function Delivered(frames: seq<Frame>, t: string, i: nat, j: nat): seq<TaskEvent>
    requires i <= j <= |frames|
    decreases j
  {
    if i == j then []
    else
      var before := Delivered(frames, t, i, j - 1);
      if frames[j - 1].EventFrame? && frames[j - 1].event.taskId == t then before + [frames[j - 1].event] else before
  }

  /** No subscription of this task starts or ends among frames i..j. */
  predicate Uninterrupted(frames: seq<Frame>, t: string, i: nat, j: nat)
    requires i <= j <= |frames|
  {
    forall k :: i <= k < j ==>
      && !(frames[k].Opened? && frames[k].taskId == t)
      && !(frames[k].ResyncFrame? && frames[k].taskId == t)
      && !(frames[k].UnsubscribedFrame? && frames[k].taskId == t)
  }

  lemma {:induction false} FaithfulPrefix(frames: seq<Frame>, log: seq<TaskEvent>, t: string, n: nat)
    requires Faithful(frames, log, t) && n <= |frames|
    ensures Faithful(frames[..n], log, t)
  {
    if n < |frames| {
      FaithfulPrefix(frames[..|frames| - 1], log, t, n);
      assert frames[..|frames| - 1][..n] == frames[..n];
    } else {
      assert frames[..n] == frames;
    }
  }

  /** In a faithful trace, what follows an opening at cursor a is a+1, a+2, ... of the log. */
  lemma {:induction false} SegmentIsSlice(frames: seq<Frame>, log: seq<TaskEvent>, t: string, i: nat, j: nat)
    requires Faithful(frames, log, t) && i < j <= |frames|
    requires frames[i].Opened? && frames[i].taskId == t && frames[i].after >= 0
    requires Uninterrupted(frames, t, i + 1, j)
    ensures Delivered(frames, t, i + 1, j) <= From(EventsOf(log, t), frames[i].after)
    ensures Position(frames[..j], t) == Some(frames[i].after + |Delivered(frames, t, i + 1, j)|)
    decreases j
  {
    assert frames[..j][..j - 1] == frames[..j - 1];
    if j > i + 1 {
      SegmentIsSlice(frames, log, t, i, j - 1);
      FaithfulPrefix(frames, log, t, j);
      assert RightFrame(Position(frames[..j - 1], t), frames[j - 1], log, t);
      SliceExtends(EventsOf(log, t), frames[i].after, Delivered(frames, t, i + 1, j - 1));
    }
  }

  lemma SliceExtends(all: seq<TaskEvent>, after: int, got: seq<TaskEvent>)
    requires after >= 0 && got <= From(all, after)
    ensures after + |got| < |all| ==> got + [all[after + |got|]] <= From(all, after)
  {
  }

  /** Main result.  In every interleaving of commits, publications in any order, overflows, lost
      messages and client requests: after a subscription opens at cursor a, and until the next
      opening, resync or unsubscription of that task, the connection is sent exactly the durable
      events a+1, a+2, ... of the task: no gap, no duplicate, nothing altered. */
  lemma StreamRefinesLog(c: Config, steps: seq<Step>, states: seq<Session>, n: nat, t: string, i: nat, j: nat)
    requires Runs(c, steps, states) && n <= |steps| && i < j <= |states[n].frames|
    requires states[n].frames[i].Opened? && states[n].frames[i].taskId == t
    requires Uninterrupted(states[n].frames, t, i + 1, j)
    ensures states[n].frames[i].after >= 0
    ensures Delivered(states[n].frames, t, i + 1, j) <= From(EventsOf(states[n].log, t), states[n].frames[i].after)
    ensures j < |states[n].frames| && states[n].frames[j].ResyncFrame? && states[n].frames[j].taskId == t ==>
              states[n].frames[j].after == states[n].frames[i].after + |Delivered(states[n].frames, t, i + 1, j)|
  {
    RunFaithful(c, steps, states, n, t);
    OpenedNonNegative(c, steps, states, n, i);
    SegmentIsSlice(states[n].frames, states[n].log, t, i, j);
    if j < |states[n].frames| {
      ResyncNamesPosition(states[n].frames, states[n].log, t, j);
    }
  }

  lemma RunFaithful(c: Config, steps: seq<Step>, states: seq<Session>, n: nat, t: string)
    requires Runs(c, steps, states) && n <= |steps|
    ensures Faithful(states[n].frames, states[n].log, t)
  {
    RunKeeps(c, steps, states, n);
  }

  lemma ResyncNamesPosition(frames: seq<Frame>, log: seq<TaskEvent>, t: string, j: nat)
    requires Faithful(frames, log, t) && j < |frames|
    ensures frames[j].ResyncFrame? && frames[j].taskId == t ==> Position(frames[..j], t) == Some(frames[j].after)
  {
    FaithfulPrefix(frames, log, t, j + 1);
    assert frames[..j + 1][..j] == frames[..j];
  }

  /** A subscription with a negative cursor is refused, so none ever opens. */
  lemma {:induction false} OpenedNonNegative(c: Config, steps: seq<Step>, states: seq<Session>, n: nat, i: nat)
    requires Runs(c, steps, states) && n <= |steps| && i < |states[n].frames|
    ensures states[n].frames[i].Opened? ==> states[n].frames[i].after >= 0
  {
    if n > 0 {
      assert Enabled(c, states[n - 1], steps[n - 1]) && states[n] == Next(c, states[n - 1], steps[n - 1]);
      if i < |states[n - 1].frames| {
        OpenedNonNegative(c, steps, states, n - 1, i);
        assert states[n].frames[i] == states[n - 1].frames[i];
      }
    }
  }

  /** Once the first page was accepted, no later page of the same replay is refused. */
  lemma ReplayNeverDenied(c: Config, steps: seq<Step>, states: seq<Session>, n: nat)
    requires Runs(c, steps, states) && n < |steps| && steps[n].FetchPage?
    requires states[n].phase.Replaying? && states[n].phase.started
    ensures states[n + 1].phase.Replaying? && states[n + 1].frames == states[n].frames
  {
    RunKeeps(c, steps, states, n);
    assert Enabled(c, states[n], steps[n]) && states[n + 1] == Next(c, states[n], steps[n]);
  }

  /** A client that resubscribes at the cursor a resync reported loses nothing and repeats nothing:
      the two deliveries join into one run of consecutive events. */
  lemma ResyncThenResume(c: Config, steps: seq<Step>, states: seq<Session>, n: nat, t: string,
                         i: nat, j: nat, k: nat, m: nat)
    requires Runs(c, steps, states) && n <= |steps| && i < j < k < m <= |states[n].frames|
    requires var frames := states[n].frames;
             && frames[i].Opened? && frames[i].taskId == t && Uninterrupted(frames, t, i + 1, j)
             && frames[j].ResyncFrame? && frames[j].taskId == t
             && frames[k] == Opened(t, frames[j].after) && Uninterrupted(frames, t, k + 1, m)
    ensures Delivered(states[n].frames, t, i + 1, j) + Delivered(states[n].frames, t, k + 1, m)
         <= From(EventsOf(states[n].log, t), states[n].frames[i].after)
  {
    StreamRefinesLog(c, steps, states, n, t, i, j);
    StreamRefinesLog(c, steps, states, n, t, k, m);
    NextSlice(EventsOf(states[n].log, t), states[n].frames[i].after,
              Delivered(states[n].frames, t, i + 1, j), Delivered(states[n].frames, t, k + 1, m));
  }
}
