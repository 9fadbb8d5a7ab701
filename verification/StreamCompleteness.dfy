/** Nothing is missing: a replay reaches the end of the log, and what is published while a task is followed
    arrives unless the connection is told to start over. */
module StreamCompleteness {
  import opened Collections
  import opened TaskLog
  import opened LiveStream

  // ---- a replay is complete ----------------------------------------------------------------------------

  lemma {:induction false} DeliveredPrefix(frames: seq<Frame>, more: seq<Frame>, t: string, i: nat, j: nat)
    requires i <= j <= |frames|
    ensures Delivered(frames + more, t, i, j) == Delivered(frames, t, i, j)
    decreases j
  {
    if i < j {
      DeliveredPrefix(frames, more, t, i, j - 1);
      assert (frames + more)[j - 1] == frames[j - 1];
    }
  }

  lemma DeliveredNext(frames: seq<Frame>, e: TaskEvent, i: nat)
    requires i <= |frames|
    ensures Delivered(frames + [EventFrame(e)], e.taskId, i, |frames| + 1) == Delivered(frames, e.taskId, i, |frames|) + [e]
  {
    DeliveredPrefix(frames, [EventFrame(e)], e.taskId, i, |frames|);
  }

  /** The page in hand ends where the log ended when it was fetched, or more pages follow. */
  predicate OnReplay(s: Session, log: seq<TaskEvent>, i: nat) {
    && s.phase.Replaying? && s.phase.started
    && i < |s.frames| && s.frames[i].Opened? && s.frames[i].taskId == s.phase.taskId && s.frames[i].after >= 0
    && Uninterrupted(s.frames, s.phase.taskId, i + 1, |s.frames|)
    && var got := Delivered(s.frames, s.phase.taskId, i + 1, |s.frames|);
       var due := From(EventsOf(log, s.phase.taskId), s.frames[i].after);
       && s.phase.cursor == s.frames[i].after + |got|
       && got + s.phase.pending <= due
       && (!s.phase.more ==> got + s.phase.pending == due)
  }

  lemma FetchOpens(c: Config, s: Session)
    requires StreamInvariant(c, s) && Enabled(c, s, FetchPage) && !s.phase.started && Next(c, s, FetchPage).phase.Replaying?
    ensures OnReplay(Next(c, s, FetchPage), s.log, |s.frames|)
  {
    var t := s.phase.taskId;
    PageIsSlice(s.log, t, s.phase.cursor, PAGE_SIZE);
    var page := PageOf(s.log, t, s.phase.cursor, PAGE_SIZE);
    assert [] + page.events == page.events;
  }

  lemma FetchContinues(c: Config, s: Session, log: seq<TaskEvent>, i: nat)
    requires StreamInvariant(c, s) && Enabled(c, s, FetchPage) && OnReplay(s, log, i)
    ensures OnReplay(Next(c, s, FetchPage), s.log, i)
  {
    var t := s.phase.taskId;
    var page, got := PageOf(s.log, t, s.phase.cursor, PAGE_SIZE), Delivered(s.frames, t, i + 1, |s.frames|);
    PageIsSlice(s.log, t, s.phase.cursor, PAGE_SIZE);
    SegmentIsSlice(s.frames, s.log, t, i, |s.frames|);
    NextSlice(EventsOf(s.log, t), s.frames[i].after, got, page.events);
  }

  lemma UninterruptedNext(frames: seq<Frame>, e: TaskEvent, t: string, i: nat)
    requires i <= |frames| && Uninterrupted(frames, t, i, |frames|)
    ensures Uninterrupted(frames + [EventFrame(e)], t, i, |frames| + 1)
  {
  }

  lemma MovedOver(got: seq<TaskEvent>, pending: seq<TaskEvent>)
    requires pending != []
    ensures got + [pending[0]] + pending[1..] == got + pending
  {
  }

  lemma SendStaysOnReplay(c: Config, s: Session, log: seq<TaskEvent>, i: nat)
    requires StreamInvariant(c, s) && Enabled(c, s, SendPending) && OnReplay(s, log, i)
    ensures OnReplay(Next(c, s, SendPending), log, i)
  {
    NextPending(s.log, s.phase.taskId, s.phase.cursor, s.phase.pending);
    SentIsDelivered(s, Next(c, s, SendPending), log, i);
  }

  lemma SentIsDelivered(s: Session, s': Session, log: seq<TaskEvent>, i: nat)
    requires OnReplay(s, log, i) && s.phase.pending != []
    requires s.phase.pending[0].taskId == s.phase.taskId && s.phase.pending[0].sequence == s.phase.cursor + 1
    requires s'.frames == s.frames + [EventFrame(s.phase.pending[0])]
    requires s'.phase == s.phase.(cursor := s.phase.cursor + 1, pending := s.phase.pending[1..])
    ensures OnReplay(s', log, i)
  {
    DeliveredNext(s.frames, s.phase.pending[0], i + 1);
    UninterruptedNext(s.frames, s.phase.pending[0], s.phase.taskId, i + 1);
    MovedOver(Delivered(s.frames, s.phase.taskId, i + 1, |s.frames|), s.phase.pending);
  }

  lemma ReplayGoesOn(c: Config, s: Session, step: Step, log: seq<TaskEvent>, i: nat)
    requires StreamInvariant(c, s) && Enabled(c, s, step) && OnReplay(s, log, i)
    requires Next(c, s, step).phase.Replaying? && Next(c, s, step).phase.started
    ensures OnReplay(Next(c, s, step), if step.FetchPage? then s.log else log, i)
  {
    if step.FetchPage? {
      FetchContinues(c, s, log, i);
    } else if step.SendPending? {
      SendStaysOnReplay(c, s, log, i);
    }
  }

  lemma RunStep(c: Config, steps: seq<Step>, states: seq<Session>, n: nat)
    requires Runs(c, steps, states) && n < |steps|
    ensures Enabled(c, states[n], steps[n]) && states[n + 1] == Next(c, states[n], steps[n]) && StreamInvariant(c, states[n])
  {
    RunKeeps(c, steps, states, n);
  }

  /** A page was fetched last at f, before n. */
  predicate LastFetch(steps: seq<Step>, f: nat, n: nat)
    requires n <= |steps|
  {
    f < n && steps[f].FetchPage? && forall k :: f < k < n ==> !steps[k].FetchPage?
  }

  lemma ReplayStarts(c: Config, s: Session, step: Step)
    requires Enabled(c, s, step) && Next(c, s, step).phase.Replaying? && Next(c, s, step).phase.started
    ensures step.FetchPage? || (s.phase.Replaying? && s.phase.started)
  {
  }

  lemma RunOpens(c: Config, steps: seq<Step>, states: seq<Session>, n: nat)
    requires Runs(c, steps, states) && n < |steps| && states[n + 1].phase.Replaying? && states[n + 1].phase.started
    requires !(states[n].phase.Replaying? && states[n].phase.started)
    ensures steps[n].FetchPage? && OnReplay(states[n + 1], states[n].log, |states[n].frames|)
  {
    RunStep(c, steps, states, n);
    ReplayStarts(c, states[n], steps[n]);
    FetchOpens(c, states[n]);
  }

  lemma RunGoesOn(c: Config, steps: seq<Step>, states: seq<Session>, n: nat, log: seq<TaskEvent>, i: nat)
    requires Runs(c, steps, states) && n < |steps| && states[n + 1].phase.Replaying? && states[n + 1].phase.started
    requires OnReplay(states[n], log, i)
    ensures OnReplay(states[n + 1], if steps[n].FetchPage? then states[n].log else log, i)
  {
    RunStep(c, steps, states, n);
    ReplayGoesOn(c, states[n], steps[n], log, i);
  }

  lemma RunIdle(c: Config, steps: seq<Step>, states: seq<Session>)
    requires Runs(c, steps, states)
    ensures states[0].phase.Idle?
  {
  }

  /** Every replay under way goes back to the last page that was fetched and to the opening of the
      subscription. */
  lemma {:induction false} ReplayOrigin(c: Config, steps: seq<Step>, states: seq<Session>, n: nat) returns (f: nat, i: nat)
    requires Runs(c, steps, states) && n <= |steps| && states[n].phase.Replaying? && states[n].phase.started
    ensures LastFetch(steps, f, n) && OnReplay(states[n], states[f].log, i)
  {
    RunIdle(c, steps, states);
    if states[n - 1].phase.Replaying? && states[n - 1].phase.started {
      f, i := ReplayOrigin(c, steps, states, n - 1);
      RunGoesOn(c, steps, states, n - 1, states[f].log, i);
      if steps[n - 1].FetchPage? { f := n - 1; }
    } else {
      RunOpens(c, steps, states, n - 1);
      f, i := n - 1, |states[n - 1].frames|;
    }
  }

  /** Main result.  A subscription is acknowledged only when everything has been replayed: all the events of
      the task after the cursor the client asked for, up to the end of the log as it was when the last page
      was fetched, and the acknowledged cursor is not behind that end. */
  lemma ReplayIsComplete(c: Config, steps: seq<Step>, states: seq<Session>, n: nat) returns (f: nat, i: nat)
    requires Runs(c, steps, states) && n < |steps| && steps[n].FinishReplay?
    ensures states[n].phase.Replaying? && LastFetch(steps, f, n)
    ensures var t, frames := states[n].phase.taskId, states[n].frames;
            && i < |frames| && frames[i].Opened? && frames[i].taskId == t && Uninterrupted(frames, t, i + 1, |frames|)
            && Delivered(frames, t, i + 1, |frames|) == From(EventsOf(states[f].log, t), frames[i].after)
            && exists cursor :: states[n + 1].frames == frames + [SubscribedFrame(t, cursor)]
                 && cursor == frames[i].after + |Delivered(frames, t, i + 1, |frames|)| && cursor >= |EventsOf(states[f].log, t)|
  {
    RunStep(c, steps, states, n);
    f, i := ReplayOrigin(c, steps, states, n);
    var t, frames := states[n].phase.taskId, states[n].frames;
    assert Delivered(frames, t, i + 1, |frames|) + states[n].phase.pending == Delivered(frames, t, i + 1, |frames|);
    assert states[n + 1].frames == frames + [SubscribedFrame(t, states[n].phase.cursor)];
  }

  // ---- what is published arrives -------------------------------------------------------------------------

  /** Events of the task are compared with a cursor, now or after the replay. */
  predicate Compares(s: Session, t: string) {
    t in s.cursors || (s.phase.Replaying? && s.phase.taskId == t)
  }

  /** The connection follows the task: the broker queues its events, and they will be compared with a cursor. */
  predicate Follows(s: Session, t: string) {
    t in s.box.tasks && Compares(s, t)
  }

  predicate Waiting(s: Session, m: Message) {
    m in s.box.queue || s.held == Some(m)
  }

  /** The step throws no message away: no overflow, no cancelled wait, no refused subscription with a message
      in hand. */
  predicate Lossless(c: Config, s: Session, step: Step) {
    match step
    case Publish(e) => e.taskId in s.box.tasks ==> |s.box.queue| < c.capacity
    case LoseHeld => s.held.None?
    case FetchPage => s.held.None? || (s.phase.Replaying? && s.phase.cursor >= 0 && Readable(c, s.log, s.phase.taskId))
    case _ => true
  }

  /** The event waits, or the client has it, or a replay that is under way will not end before it. */
  predicate OnItsWay(s: Session, e: TaskEvent) {
    || Waiting(s, EventMessage(e))
    || (!(s.phase.Replaying? && s.phase.taskId == e.taskId) && e.taskId in s.cursors && e.sequence <= s.cursors[e.taskId])
    || (s.phase.Replaying? && s.phase.taskId == e.taskId && (!s.phase.more ==> e.sequence <= s.phase.cursor + |s.phase.pending|))
  }

  lemma FetchReaches(c: Config, s: Session, e: TaskEvent)
    requires StreamInvariant(c, s) && Enabled(c, s, FetchPage) && e in s.log && e.taskId == s.phase.taskId
    requires Next(c, s, FetchPage).phase.Replaying?
    ensures var phase := Next(c, s, FetchPage).phase; !phase.more ==> e.sequence <= phase.cursor + |phase.pending|
  {
    PageIsSlice(s.log, e.taskId, s.phase.cursor, PAGE_SIZE);
    EventPosition(s.log, e);
  }

  lemma WaitingKept(c: Config, s: Session, step: Step, m: Message)
    requires Enabled(c, s, step) && Lossless(c, s, step) && Waiting(s, m) && !step.ProcessHeld?
    ensures Waiting(Next(c, s, step), m)
  {
    if step.Take? { assert s.box.queue == [s.box.queue[0]] + s.box.queue[1..]; }
  }

  lemma OnItsWayKept(c: Config, s: Session, step: Step, e: TaskEvent)
    requires StreamInvariant(c, s) && Enabled(c, s, step) && Lossless(c, s, step) && e in s.log
    requires Follows(s, e.taskId) && Follows(Next(c, s, step), e.taskId) && OnItsWay(s, e)
    ensures OnItsWay(Next(c, s, step), e)
  {
    if Waiting(s, EventMessage(e)) && !step.ProcessHeld? {
      WaitingKept(c, s, step, EventMessage(e));
    } else if step.FetchPage? && s.phase.taskId == e.taskId && Next(c, s, step).phase.Replaying? {
      FetchReaches(c, s, e);
    } else if step.SendPending? {
      NextPending(s.log, s.phase.taskId, s.phase.cursor, s.phase.pending);
    }
  }

  lemma PublishStarts(c: Config, s: Session, e: TaskEvent)
    requires Enabled(c, s, Publish(e)) && Lossless(c, s, Publish(e)) && e.taskId in s.box.tasks
    ensures e in Next(c, s, Publish(e)).log && OnItsWay(Next(c, s, Publish(e)), e)
  {
    assert EventMessage(e) in Next(c, s, Publish(e)).box.queue;
  }

  lemma LogGrows(c: Config, s: Session, step: Step)
    requires Enabled(c, s, step)
    ensures s.log <= Next(c, s, step).log
  {
  }

  lemma ArrivedAtClient(s: Session, e: TaskEvent)
    requires CursorsMatch(s) && s.phase.Idle? && OnItsWay(s, e) && !Waiting(s, EventMessage(e))
    ensures Position(s.frames, e.taskId).Some? && Position(s.frames, e.taskId).value >= e.sequence
  {
  }

  lemma StepOnItsWay(c: Config, steps: seq<Step>, states: seq<Session>, n: nat, e: TaskEvent)
    requires Runs(c, steps, states) && n < |steps| && Lossless(c, states[n], steps[n])
    requires e in states[n].log && Follows(states[n], e.taskId) && Follows(states[n + 1], e.taskId) && OnItsWay(states[n], e)
    ensures e in states[n + 1].log && OnItsWay(states[n + 1], e)
  {
    RunStep(c, steps, states, n);
    LogGrows(c, states[n], steps[n]);
    OnItsWayKept(c, states[n], steps[n], e);
  }

  lemma PublishOnItsWay(c: Config, steps: seq<Step>, states: seq<Session>, p: nat, e: TaskEvent)
    requires Runs(c, steps, states) && p < |steps| && steps[p] == Publish(e)
    requires Lossless(c, states[p], steps[p]) && e.taskId in states[p].box.tasks
    ensures e in states[p + 1].log && OnItsWay(states[p + 1], e)
  {
    RunStep(c, steps, states, p);
    PublishStarts(c, states[p], e);
  }

  lemma {:induction false} PublishedOnItsWay(c: Config, steps: seq<Step>, states: seq<Session>, p: nat, n: nat, e: TaskEvent)
    requires Runs(c, steps, states) && p < n <= |steps| && steps[p] == Publish(e)
    requires forall k :: p <= k < n ==> Lossless(c, states[k], steps[k])
    requires forall k :: p <= k <= n ==> Follows(states[k], e.taskId)
    ensures e in states[n].log && OnItsWay(states[n], e)
  {
    assert Follows(states[p], e.taskId) && Lossless(c, states[p], steps[p]);
    if n == p + 1 {
      PublishOnItsWay(c, steps, states, p, e);
    } else {
      PublishedOnItsWay(c, steps, states, p, n - 1, e);
      StepOnItsWay(c, steps, states, n - 1, e);
    }
  }

  /** Main result.  As long as a connection follows a task and no message is thrown away, every event
      published for the task waits in the connection, has reached the client, or belongs to a replay that
      will not end before it; the order of publication does not matter.  So once the connection has nothing
      left to do about the event, the client's position is not behind it. */
  lemma PublishedArrives(c: Config, steps: seq<Step>, states: seq<Session>, p: nat, n: nat, e: TaskEvent)
    requires Runs(c, steps, states) && p < n <= |steps| && steps[p] == Publish(e)
    requires forall k :: p <= k < n ==> Lossless(c, states[k], steps[k])
    requires forall k :: p <= k <= n ==> Follows(states[k], e.taskId)
    ensures OnItsWay(states[n], e)
    ensures states[n].phase.Idle? && !Waiting(states[n], EventMessage(e)) ==>
              Position(states[n].frames, e.taskId).Some? && Position(states[n].frames, e.taskId).value >= e.sequence
  {
    PublishedOnItsWay(c, steps, states, p, n, e);
    if states[n].phase.Idle? && !Waiting(states[n], EventMessage(e)) {
      RunKeeps(c, steps, states, n);
      ArrivedAtClient(states[n], e);
    }
  }

  lemma OverflowTells(c: Config, steps: seq<Step>, states: seq<Session>, p: nat, e: TaskEvent)
    requires Runs(c, steps, states) && p < |steps| && steps[p] == Publish(e)
    requires e.taskId in states[p].box.tasks && |states[p].box.queue| >= c.capacity
    ensures Waiting(states[p + 1], ResyncMessage(e.taskId, "buffer_overflow"))
  {
    assert Enabled(c, states[p], steps[p]) && states[p + 1] == Next(c, states[p], steps[p]);
    assert ResyncMessage(e.taskId, "buffer_overflow") in states[p + 1].box.queue;
  }

  lemma TellingKept(c: Config, steps: seq<Step>, states: seq<Session>, n: nat, t: string)
    requires Runs(c, steps, states) && n < |steps| && Lossless(c, states[n], steps[n])
    requires Waiting(states[n], ResyncMessage(t, "buffer_overflow")) && Compares(states[n], t) && Compares(states[n + 1], t)
    ensures Waiting(states[n + 1], ResyncMessage(t, "buffer_overflow"))
  {
    assert Enabled(c, states[n], steps[n]) && states[n + 1] == Next(c, states[n], steps[n]);
    if !steps[n].ProcessHeld? { WaitingKept(c, states[n], steps[n], ResyncMessage(t, "buffer_overflow")); }
  }

  /** After an overflow the connection is told to start over: as long as it still compares events of the task
      with a cursor, the order to resynchronise is waiting for it. */
  lemma {:induction false} OverflowIsTold(c: Config, steps: seq<Step>, states: seq<Session>, p: nat, n: nat, e: TaskEvent)
    requires Runs(c, steps, states) && p < n <= |steps| && steps[p] == Publish(e)
    requires e.taskId in states[p].box.tasks && |states[p].box.queue| >= c.capacity
    requires forall k :: p < k < n ==> Lossless(c, states[k], steps[k])
    requires forall k :: p < k <= n ==> Compares(states[k], e.taskId)
    ensures Waiting(states[n], ResyncMessage(e.taskId, "buffer_overflow"))
  {
    if n == p + 1 {
      OverflowTells(c, steps, states, p, e);
    } else {
      OverflowIsTold(c, steps, states, p, n - 1, e);
      TellingKept(c, steps, states, n - 1, e.taskId);
    }
  }

  /** What publishing does to a connection: an event of a task it follows is queued last while there is room;
      otherwise the order to resynchronise is all that waits and that task alone is followed no longer.  Events of
      other tasks pass by. */
  lemma OfferedExactly(c: Config, s: Session, e: TaskEvent)
    requires Enabled(c, s, Publish(e))
    ensures var s', full := Next(c, s, Publish(e)), |s.box.queue| >= c.capacity;
            && (e.taskId !in s.box.tasks ==> s' == s)
            && (e.taskId in s.box.tasks && !full ==> s' == s.(box := Mailbox(s.box.queue + [EventMessage(e)], s.box.tasks)))
            && (e.taskId in s.box.tasks && full ==>
                  && |s'.box.queue| == 1 && s'.box.queue[0] == ResyncMessage(e.taskId, "buffer_overflow")
                  && (forall t :: t in s'.box.tasks <==> t in s.box.tasks && t != e.taskId)
                  && s'.cursors == s.cursors && s'.held == s.held && s'.frames == s.frames && s'.registered == s.registered)
  {
  }

  // ---- when a client must start over -----------------------------------------------------------------------

  /** A message of a task with a cursor: the very next event is sent, an older one is dropped, and the client
      is told to start over exactly for an event further ahead or an overflow. */
  lemma ProcessedExactly(c: Config, s: Session)
    requires Enabled(c, s, ProcessHeld) && TaskOf(s.held.value) in s.cursors
    ensures var t, m, s' := TaskOf(s.held.value), s.held.value, Next(c, s, ProcessHeld);
            && (t !in s'.cursors <==> (m.EventMessage? ==> m.event.sequence > s.cursors[t] + 1))
            && (t !in s'.cursors ==>
                  && t !in s'.registered && s'.cursors == s.cursors - {t} && (m.EventMessage? ==> t !in s'.box.tasks)
                  && exists reason :: s'.frames == s.frames + [ResyncFrame(t, s.cursors[t], reason)])
            && (m.EventMessage? && m.event.sequence == s.cursors[t] + 1 ==>
                  s'.frames == s.frames + [EventFrame(m.event)] && s'.cursors == s.cursors[t := s.cursors[t] + 1])
            && (m.EventMessage? && m.event.sequence <= s.cursors[t] ==> s'.frames == s.frames && s'.cursors == s.cursors)
  {
    var t, m, s' := TaskOf(s.held.value), s.held.value, Next(c, s, ProcessHeld);
    if t !in s'.cursors { assert s'.frames[|s.frames|].ResyncFrame?; }
  }

  /** A page is refused exactly for a negative cursor, a task of somebody else or one without events; a refused
      subscription leaves neither a subscription nor a replay behind. */
  lemma PageRefusedExactly(c: Config, s: Session)
    requires Enabled(c, s, FetchPage)
    ensures var t, s' := s.phase.taskId, Next(c, s, FetchPage);
            && (s'.phase.Idle? <==> s.phase.cursor < 0 || t !in c.owned || forall i :: 0 <= i < |s.log| ==> s.log[i].taskId != t)
            && (s'.phase.Idle? ==>
                  t !in s'.registered && t !in s'.box.tasks && s'.frames == s.frames + [DeniedFrame(t)] && s'.cursors == s.cursors)
            && (!s'.phase.Idle? ==> s'.phase.Replaying? && s'.phase.taskId == t && s'.phase.cursor == s.phase.cursor)
  {
    if i :| 0 <= i < |s.log| && s.log[i].taskId == s.phase.taskId {
      EventMember(s.log, s.log[i]);
    } else {
      NothingOfTask(s.log, s.phase.taskId);
    }
  }

  lemma {:induction false} NothingOfTask(log: seq<TaskEvent>, t: string)
    requires forall i :: 0 <= i < |log| ==> log[i].taskId != t
    ensures EventsOf(log, t) == []
  {
    if log != [] { NothingOfTask(log[..|log| - 1], t); }
  }

  /** An unsubscription leaves nothing of the task behind, and a subscription is taken up exactly while there is room
      or the task is subscribed already. */
  lemma SubscriptionsExactly(c: Config, s: Session, t: string, after: int)
    requires s.phase.Idle?
    ensures var s' := Next(c, s, ReceiveUnsubscribe(t));
            && s'.registered == s.registered - {t} && s'.box.tasks == s.box.tasks - {t} && s'.cursors == s.cursors - {t}
            && s'.box.queue == s.box.queue && s'.held == s.held && s'.frames == s.frames + [UnsubscribedFrame(t)]
    ensures var s' := Next(c, s, ReceiveSubscribe(t, after));
            && (s'.phase == Subscribing(t, after) <==> t in s.registered || |s.registered| < c.maxSubscriptions)
            && (s'.phase.Idle? <==> t !in s.registered && |s.registered| >= c.maxSubscriptions)
            && s'.registered == (if s'.phase.Idle? then s.registered else s.registered + {t})
            && s'.box == s.box && s'.cursors == s.cursors && s'.held == s.held
  {
  }

  /** The subscriptions of a connection never exceed its limit, nor its waiting messages the queue. */
  lemma {:induction false} WithinLimits(c: Config, steps: seq<Step>, states: seq<Session>, n: nat)
    requires Runs(c, steps, states) && n <= |steps| && c.capacity >= 1
    ensures |states[n].registered| <= c.maxSubscriptions && |states[n].box.queue| <= c.capacity
  {
    if n > 0 {
      WithinLimits(c, steps, states, n - 1);
      assert Enabled(c, states[n - 1], steps[n - 1]) && states[n] == Next(c, states[n - 1], steps[n - 1]);
      if steps[n - 1].ReceiveSubscribe? && steps[n - 1].taskId in states[n - 1].registered {
        assert states[n - 1].registered + {steps[n - 1].taskId} == states[n - 1].registered;
      }
      FewerRegistered(states[n - 1].registered, states[n].registered);
    }
  }

  lemma FewerRegistered(before: set<string>, after: set<string>)
    ensures after <= before ==> |after| <= |before|
  {
    if after <= before { assert before == after + (before - after); }
  }

  // ---- an overflow is told to one task only ------------------------------------------------------------------

  /** A message that waits is lost in exactly two ways: an overflow empties the queue, or a message in hand is
      dropped with a cancelled wait or a refused subscription. */
  lemma LostExactly(c: Config, s: Session, step: Step, m: Message)
    requires Enabled(c, s, step) && Waiting(s, m) && !step.ProcessHeld?
    ensures !Waiting(Next(c, s, step), m) <==>
              || (step.Publish? && step.event.taskId in s.box.tasks && |s.box.queue| >= c.capacity && s.held != Some(m)
                  && m != ResyncMessage(step.event.taskId, "buffer_overflow"))
              || (m !in s.box.queue && step.LoseHeld?)
              || (m !in s.box.queue && step.FetchPage? && !(s.phase.cursor >= 0 && Readable(c, s.log, s.phase.taskId)))
  {
    if step.Take? { assert s.box.queue == [s.box.queue[0]] + s.box.queue[1..]; }
  }

  lemma Extend(c: Config, steps: seq<Step>, states: seq<Session>, step: Step) returns (steps': seq<Step>, states': seq<Session>)
    requires Runs(c, steps, states) && Enabled(c, states[|steps|], step)
    ensures Runs(c, steps', states') && steps' == steps + [step] && states' == states + [Next(c, states[|steps|], step)]
  {
    steps', states' := steps + [step], states + [Next(c, states[|steps|], step)];
    forall i | 0 <= i < |steps'| ensures Enabled(c, states'[i], steps'[i]) && states'[i + 1] == Next(c, states'[i], steps'[i]) {
      if i < |steps| { assert states'[i] == states[i] && states'[i + 1] == states[i + 1] && steps'[i] == steps[i]; }
    }
  }

  /** A client that has everything of a task subscribes to it. */
  lemma UpToDate(c: Config, steps: seq<Step>, states: seq<Session>, t: string) returns (steps': seq<Step>, states': seq<Session>)
    requires Runs(c, steps, states) && states[|steps|].phase.Idle? && Readable(c, states[|steps|].log, t)
    requires |states[|steps|].registered| < c.maxSubscriptions && t !in states[|steps|].registered
    ensures Runs(c, steps', states') && steps <= steps'
    ensures var s, s', n := states[|steps|], states'[|steps'|], |EventsOf(states[|steps|].log, t)|;
            s' == s.(registered := s.registered + {t}, box := s.box.(tasks := s.box.tasks + {t}), cursors := s.cursors[t := n],
                     frames := s.frames + [Opened(t, n)] + [SubscribedFrame(t, n)], phase := Idle)
  {
    var s := states[|steps|];
    var n := |EventsOf(s.log, t)|;
    RunKeeps(c, steps, states, |steps|);
    PageIsSlice(s.log, t, n, PAGE_SIZE);
    steps', states' := Extend(c, steps, states, ReceiveSubscribe(t, n));
    steps', states' := Extend(c, steps', states', JoinBroker);
    steps', states' := Extend(c, steps', states', FetchPage);
    steps', states' := Extend(c, steps', states', FinishReplay);
  }

  const TWO_TASKS := Config({"t", "u"}, 1, 2)

  /** A connection that has everything of two tasks follows both. */
  lemma FollowsBoth(first: TaskEvent, other: TaskEvent) returns (steps: seq<Step>, states: seq<Session>)
    requires first.taskId == "t" && other.taskId == "u" && first.sequence == other.sequence == 1
    ensures Runs(TWO_TASKS, steps, states)
    ensures var s := states[|steps|];
            && s.log == [first, other] && s.box == Mailbox([], {"t", "u"}) && s.held.None? && s.phase.Idle?
            && "t" in s.cursors && "u" in s.cursors && s.cursors["u"] == 1
  {
    TwoTasks(first, other);
    steps, states := [], [Fresh([first, other])];
    steps, states := UpToDate(TWO_TASKS, steps, states, "t");
    steps, states := UpToDate(TWO_TASKS, steps, states, "u");
  }

  lemma CommitAndPublish(c: Config, steps: seq<Step>, states: seq<Session>, e: TaskEvent) returns (steps': seq<Step>, states': seq<Session>)
    requires Runs(c, steps, states) && e.sequence == |EventsOf(states[|steps|].log, e.taskId)| + 1
    ensures Runs(c, steps', states') && steps' == steps + [Commit(e), Publish(e)]
    ensures states'[|steps'|] == states[|steps|].(log := states[|steps|].log + [e], box := Offer(states[|steps|].box, e, c.capacity))
  {
    steps', states' := Extend(c, steps, states, Commit(e));
    steps', states' := Extend(c, steps', states', Publish(e));
  }

  /** The client follows the task, has not got this event, and nothing about the task waits for it. */
  predicate LeftBehind(s: Session, d: TaskEvent) {
    && d in s.log && s.phase.Idle? && s.held.None? && Follows(s, d.taskId)
    && Position(s.frames, d.taskId) == Some(d.sequence - 1)
    && forall i :: 0 <= i < |s.box.queue| ==> TaskOf(s.box.queue[i]) != d.taskId
  }

  lemma EmptiedBehind(before: Session, s: Session, d: TaskEvent, e: TaskEvent)
    requires before.held.None? && before.phase.Idle? && "u" in before.cursors && before.cursors["u"] == d.sequence - 1
    requires s == before.(log := before.log + [d] + [e], box := Mailbox([ResyncMessage("t", "buffer_overflow")], {"t", "u"} - {"t"}))
    requires d.taskId == "u" && Position(s.frames, "u") == Some(s.cursors["u"])
    ensures LeftBehind(s, d)
  {
  }

  /** The full queue of a connection that follows two tasks: an event of one throws away the waiting event of the
      other, whose client is left behind and told nothing. */
  lemma OverflowSilencesOthers() returns (steps: seq<Step>, states: seq<Session>, d: TaskEvent)
    ensures Runs(TWO_TASKS, steps, states) && Publish(d) in steps && LeftBehind(states[|steps|], d)
  {
    var first := TaskEvent("evt_1", "t", 1, "task.created", 0, "c", map[]);
    var other := TaskEvent("evt_2", "u", 1, "task.created", 0, "c", map[]);
    d := TaskEvent("evt_3", "u", 2, "task.updated", 1, "c", map[]);
    var e := TaskEvent("evt_4", "t", 2, "task.updated", 1, "c", map[]);
    TwoTasks(first, other);
    EventsAppend([first, other], d, "t");
    steps, states := FollowsBoth(first, other);
    var before := states[|steps|];
    OfferTwice(d, e);
    steps, states := CommitAndPublish(TWO_TASKS, steps, states, d);
    var published := steps;
    steps, states := CommitAndPublish(TWO_TASKS, steps, states, e);
    assert Publish(d) in published && published <= steps;
    BehindBy(TWO_TASKS, steps, states, "u");
    EmptiedBehind(before, states[|steps|], d, e);
  }

  lemma OfferTwice(d: TaskEvent, e: TaskEvent)
    requires d.taskId == "u" && e.taskId == "t"
    ensures Offer(Offer(Mailbox([], {"t", "u"}), d, 1), e, 1) == Mailbox([ResyncMessage("t", "buffer_overflow")], {"t", "u"} - {"t"})
  {
  }

  lemma BehindBy(c: Config, steps: seq<Step>, states: seq<Session>, t: string)
    requires Runs(c, steps, states) && states[|steps|].phase.Idle? && t in states[|steps|].cursors
    ensures Position(states[|steps|].frames, t) == Some(states[|steps|].cursors[t])
  {
    RunKeeps(c, steps, states, |steps|);
  }

  lemma TwoEvents(first: TaskEvent, other: TaskEvent, t: string)
    requires first.taskId == "t" && other.taskId == "u"
    ensures EventsOf([first, other], t) == if t == "t" then [first] else if t == "u" then [other] else []
  {
    EventsAppend([], first, t);
    EventsAppend([first], other, t);
    assert [] + [first] == [first] && [first] + [other] == [first, other];
  }

  lemma TwoTasks(first: TaskEvent, other: TaskEvent)
    requires first.taskId == "t" && other.taskId == "u" && first.sequence == other.sequence == 1
    ensures Numbered([first, other])
    ensures EventsOf([first, other], "t") == [first] && EventsOf([first, other], "u") == [other]
  {
    TwoEvents(first, other, "t");
    TwoEvents(first, other, "u");
    forall t ensures NumberedTask([first, other], t) {
      TwoEvents(first, other, t);
    }
  }
}
