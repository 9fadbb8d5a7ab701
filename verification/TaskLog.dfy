/** The durable event log of the task repository and its paged reads. */
module TaskLog {

  datatype TaskEvent = TaskEvent(
    eventId: string,
    taskId: string,
    sequence: int,
    eventType: string,
    occurredAt: int,
    correlationId: string,
    data: map<string, string>)

  /** The events of one task, in log order. */
  function EventsOf(log: seq<TaskEvent>, taskId: string): (r: seq<TaskEvent>)
    ensures forall i :: 0 <= i < |r| ==> r[i].taskId == taskId && r[i] in log
  {
    if log == [] then []
    else
      var rest := EventsOf(log[..|log| - 1], taskId);
      if log[|log| - 1].taskId == taskId then rest + [log[|log| - 1]] else rest
  }

  /** max(event.sequence for the events of this task, default=0) */
  function LastSequence(log: seq<TaskEvent>, taskId: string): int {
    if log == [] then 0
    else
      var rest := LastSequence(log[..|log| - 1], taskId);
      var last := log[|log| - 1];
      if last.taskId == taskId && (EventsOf(log[..|log| - 1], taskId) == [] || last.sequence > rest)
      then last.sequence else rest
  }

  /** Each task's events are numbered 1, 2, 3 ... in the order they were committed. */
  ghost predicate Numbered(log: seq<TaskEvent>) {
    forall taskId :: NumberedTask(log, taskId)
  }

  ghost predicate NumberedTask(log: seq<TaskEvent>, taskId: string) {
    forall i :: 0 <= i < |EventsOf(log, taskId)| ==> EventsOf(log, taskId)[i].sequence == i + 1
  }

  lemma EventsAppend(log: seq<TaskEvent>, e: TaskEvent, taskId: string)
    ensures EventsOf(log + [e], taskId) == if e.taskId == taskId then EventsOf(log, taskId) + [e] else EventsOf(log, taskId)
  {
    assert (log + [e])[..|log|] == log;
  }

  /** A task's events stay what they were while the log grows. */
  lemma {:induction false} EventsPrefix(log: seq<TaskEvent>, longer: seq<TaskEvent>, taskId: string)
    requires log <= longer
    ensures EventsOf(log, taskId) <= EventsOf(longer, taskId)
    decreases |longer|
  {
    if |log| < |longer| {
      EventsPrefix(log, longer[..|longer| - 1], taskId);
    } else {
      assert log == longer;
    }
  }

  lemma {:induction false} EventMember(log: seq<TaskEvent>, e: TaskEvent)
    requires e in log
    ensures e in EventsOf(log, e.taskId)
  {
    if e in log[..|log| - 1] {
      EventMember(log[..|log| - 1], e);
    }
  }

  /** In a numbered log an event is found at the position its sequence number names. */
  lemma EventPosition(log: seq<TaskEvent>, e: TaskEvent)
    requires Numbered(log) && e in log
    ensures 1 <= e.sequence <= |EventsOf(log, e.taskId)|
    ensures EventsOf(log, e.taskId)[e.sequence - 1] == e
  {
    EventMember(log, e);
    var i :| 0 <= i < |EventsOf(log, e.taskId)| && EventsOf(log, e.taskId)[i] == e;
    assert NumberedTask(log, e.taskId);
  }

  /** In a numbered log the largest sequence number of a task is how many events it has. */
  lemma {:induction false} LastSequenceIsCount(log: seq<TaskEvent>, taskId: string)
    requires Numbered(log)
    ensures LastSequence(log, taskId) == |EventsOf(log, taskId)|
  {
    if log != [] {
      var n := |log| - 1;
      NumberedPrefix(log, n);
      LastSequenceIsCount(log[..n], taskId);
      assert NumberedTask(log, taskId);
      if log[n].taskId == taskId {
        assert EventsOf(log, taskId)[|EventsOf(log, taskId)| - 1] == log[n];
      }
    }
  }

  lemma NumberedPrefix(log: seq<TaskEvent>, n: nat)
    requires Numbered(log) && n <= |log|
    ensures Numbered(log[..n])
  {
    forall taskId ensures NumberedTask(log[..n], taskId) {
      assert NumberedTask(log, taskId);
      EventsPrefix(log[..n], log, taskId);
    }
  }

  /** Appending keeps the numbering exactly when the event carries the next number of its task. */
  lemma AppendNumbered(log: seq<TaskEvent>, e: TaskEvent)
    requires Numbered(log)
    ensures Numbered(log + [e]) <==> e.sequence == |EventsOf(log, e.taskId)| + 1
  {
    EventsAppend(log, e, e.taskId);
    if Numbered(log + [e]) {
      assert NumberedTask(log + [e], e.taskId);
      assert EventsOf(log + [e], e.taskId)[|EventsOf(log, e.taskId)|] == e;
    }
    if e.sequence == |EventsOf(log, e.taskId)| + 1 {
      forall taskId ensures NumberedTask(log + [e], taskId) {
        assert NumberedTask(log, taskId);
        EventsAppend(log, e, taskId);
      }
    }
  }

  // ---- paged reads ----------------------------------------------------------------------------

  datatype Page = Page(events: seq<TaskEvent>, nextCursor: int, hasMore: bool)

  /** The generator expression: events of the task after the cursor, in log order. */
  function EventsAfter(log: seq<TaskEvent>, taskId: string, after: int): seq<TaskEvent> {
    if log == [] then []
    else
      var rest := EventsAfter(log[..|log| - 1], taskId, after);
      var last := log[|log| - 1];
      if last.taskId == taskId && last.sequence > after then rest + [last] else rest
  }

  /** Stable insertion from the right, so equal sequence numbers keep their order. */
  function InsertEvent(s: seq<TaskEvent>, e: TaskEvent): seq<TaskEvent> {
    if s == [] || s[|s| - 1].sequence <= e.sequence then s + [e]
    else InsertEvent(s[..|s| - 1], e) + [s[|s| - 1]]
  }

  /** sorted(..., key=sequence) */
  function SortBySequence(s: seq<TaskEvent>): seq<TaskEvent> {
    if s == [] then [] else InsertEvent(SortBySequence(s[..|s| - 1]), s[|s| - 1])
  }

  /** One page: sort, take one more than the limit, keep the limit. */
  function PageOf(log: seq<TaskEvent>, taskId: string, after: int, limit: nat): Page {
    var ordered := SortBySequence(EventsAfter(log, taskId, after));
    var window := if |ordered| <= limit + 1 then ordered else ordered[..limit + 1];
    var events := if |window| <= limit then window else window[..limit];
    Page(events, if events != [] then events[|events| - 1].sequence else after, |window| > limit)
  }

  predicate Ascending(s: seq<TaskEvent>) {
    forall i, j :: 0 <= i < j < |s| ==> s[i].sequence <= s[j].sequence
  }

  lemma {:induction false} SortAscending(s: seq<TaskEvent>)
    requires Ascending(s)
    ensures SortBySequence(s) == s
  {
    if s != [] {
      AscendingInit(s);
      SortAscending(s[..|s| - 1]);
      InsertLast(s[..|s| - 1], s[|s| - 1]);
    }
  }

  lemma AscendingInit(s: seq<TaskEvent>)
    requires Ascending(s) && s != []
    ensures Ascending(s[..|s| - 1]) && s == s[..|s| - 1] + [s[|s| - 1]]
    ensures |s| > 1 ==> s[..|s| - 1][|s| - 2].sequence <= s[|s| - 1].sequence
  {
  }

  lemma InsertLast(s: seq<TaskEvent>, e: TaskEvent)
    requires s != [] ==> s[|s| - 1].sequence <= e.sequence
    ensures InsertEvent(s, e) == s + [e]
  {
  }

  /** What lies after cursor c in a list of n numbered events. */
  function From(events: seq<TaskEvent>, cursor: int): seq<TaskEvent> {
    if cursor >= |events| then [] else if cursor <= 0 then events else events[cursor..]
  }

  lemma {:induction false} EventsAfterIsSuffix(log: seq<TaskEvent>, taskId: string, after: int)
    requires Numbered(log)
    ensures EventsAfter(log, taskId, after) == From(EventsOf(log, taskId), after)
  {
    if log != [] {
      var n := |log| - 1;
      NumberedPrefix(log, n);
      EventsAfterIsSuffix(log[..n], taskId, after);
      if log[n].taskId == taskId {
        assert NumberedTask(log, taskId);
        var all := EventsOf(log, taskId);
        assert all[|all| - 1] == log[n] && all == EventsOf(log[..n], taskId) + [log[n]];
      }
    }
  }

  /** A page of a numbered log is the next slice of the task's events, and says whether more follow. */
  lemma PageIsSlice(log: seq<TaskEvent>, taskId: string, after: int, limit: nat)
    requires Numbered(log) && after >= 0 && limit >= 1
    ensures var all, page := EventsOf(log, taskId), PageOf(log, taskId, after, limit);
            && page.nextCursor == after + |page.events|
            && page.events <= From(all, after)
            && |page.events| <= limit
            && (page.hasMore <==> page.events != From(all, after))
            && (page.hasMore ==> |page.events| == limit)
  {
    EventsAfterIsSuffix(log, taskId, after);
    assert NumberedTask(log, taskId);
    NumberedFrom(EventsOf(log, taskId), after);
    SortAscending(From(EventsOf(log, taskId), after));
    SlicePage(log, taskId, after, limit, From(EventsOf(log, taskId), after));
  }

  /** The page over a list of numbered events that is already sorted. */
  lemma SlicePage(log: seq<TaskEvent>, taskId: string, after: int, limit: nat, rest: seq<TaskEvent>)
    requires SortBySequence(EventsAfter(log, taskId, after)) == rest && limit >= 1
    requires forall i :: 0 <= i < |rest| ==> rest[i].sequence == after + i + 1
    ensures var page := PageOf(log, taskId, after, limit);
            && page.nextCursor == after + |page.events|
            && page.events <= rest && |page.events| <= limit
            && (page.hasMore <==> page.events != rest) && (page.hasMore ==> |page.events| == limit)
  {
    var page := PageOf(log, taskId, after, limit);
    if |rest| <= limit {
      assert page.events == rest;
    } else {
      assert page.events == rest[..limit] && page.hasMore;
    }
    if page.events != [] { assert page.events[|page.events| - 1] == rest[|page.events| - 1]; }
  }

  lemma NumberedFrom(all: seq<TaskEvent>, after: int)
    requires after >= 0 && forall i :: 0 <= i < |all| ==> all[i].sequence == i + 1
    ensures forall i :: 0 <= i < |From(all, after)| ==> From(all, after)[i].sequence == after + i + 1
  {
    forall i | 0 <= i < |From(all, after)| ensures From(all, after)[i].sequence == after + i + 1 {
      assert From(all, after)[i] == all[after + i];
    }
  }

  /** received holds the first events of the task after the cursor, in order and without a gap. */
  predicate Received(log: seq<TaskEvent>, taskId: string, after: int, received: seq<TaskEvent>) {
    received <= From(EventsOf(log, taskId), after)
  }

  /** Where following has got to: the events received, the next cursor and whether that was all. */
  predicate Following(log: seq<TaskEvent>, taskId: string, after: int, received: seq<TaskEvent>, cursor: int, drained: bool) {
    && cursor == after + |received|
    && Received(log, taskId, after, received)
    && (drained ==> received == From(EventsOf(log, taskId), after))
  }

  /** Reads the page at the cursor from the log as it is now and keeps its events. */
  method ReadPage(ghost log: seq<TaskEvent>, longer: seq<TaskEvent>, taskId: string, after: int,
                  received: seq<TaskEvent>, cursor: int, limit: nat)
    returns (received': seq<TaskEvent>, cursor': int, drained': bool)
    requires Numbered(longer) && log <= longer && after >= 0 && limit >= 1
    requires Following(log, taskId, after, received, cursor, false)
    ensures Following(longer, taskId, after, received', cursor', drained')
    ensures !drained' ==> |received'| > |received|
  {
    var page := PageOf(longer, taskId, cursor, limit);
    NextPage(log, longer, taskId, after, received, cursor, limit);
    received', cursor', drained' := received + page.events, page.nextCursor, !page.hasMore;
  }

  /** Following next_cursor from page to page.  The k-th page is read from the k-th log, because
      other operations may append between two pages. */
  method FollowPages(logs: seq<seq<TaskEvent>>, taskId: string, after: int, limit: nat)
    returns (received: seq<TaskEvent>, cursor: int, drained: bool, pages: nat)
    requires after >= 0 && limit >= 1 && logs != []
    requires forall k :: 0 <= k < |logs| ==> Numbered(logs[k])
    requires forall k :: 0 < k < |logs| ==> logs[k - 1] <= logs[k]
    ensures 1 <= pages <= |logs| && Following(logs[pages - 1], taskId, after, received, cursor, drained)
    ensures !drained ==> pages == |logs| && |received| >= pages
  {
    var first := PageOf(logs[0], taskId, after, limit);
    FirstPage(logs[0], taskId, after, limit);
    received, cursor, drained, pages := first.events, first.nextCursor, !first.hasMore, 1;
    while pages < |logs| && !drained
      invariant 1 <= pages <= |logs| && Following(logs[pages - 1], taskId, after, received, cursor, drained)
      invariant !drained ==> |received| >= pages
      decreases |logs| - pages
    {
      received, cursor, drained := ReadPage(logs[pages - 1], logs[pages], taskId, after, received, cursor, limit);
      pages := pages + 1;
    }
  }

  lemma FirstPage(log: seq<TaskEvent>, taskId: string, after: int, limit: nat)
    requires Numbered(log) && after >= 0 && limit >= 1
    ensures var page := PageOf(log, taskId, after, limit);
            && Following(log, taskId, after, page.events, page.nextCursor, !page.hasMore)
            && (page.hasMore ==> |page.events| >= 1)
  {
    PageIsSlice(log, taskId, after, limit);
  }

  lemma StillReceived(log: seq<TaskEvent>, longer: seq<TaskEvent>, taskId: string, after: int, received: seq<TaskEvent>)
    requires log <= longer && Received(log, taskId, after, received)
    ensures Received(longer, taskId, after, received)
  {
    EventsPrefix(log, longer, taskId);
    LaterFrom(EventsOf(log, taskId), EventsOf(longer, taskId), after);
  }

  lemma PageExtends(log: seq<TaskEvent>, taskId: string, after: int, received: seq<TaskEvent>, cursor: int, limit: nat)
    requires Numbered(log) && after >= 0 && limit >= 1 && Received(log, taskId, after, received) && cursor == after + |received|
    ensures var page := PageOf(log, taskId, cursor, limit);
            && Following(log, taskId, after, received + page.events, page.nextCursor, !page.hasMore)
            && (page.hasMore ==> |page.events| >= 1)
  {
    PageIsSlice(log, taskId, cursor, limit);
    NextSlice(EventsOf(log, taskId), after, received, PageOf(log, taskId, cursor, limit).events);
  }

  /** One more page read from a log that may have grown meanwhile. */
  lemma NextPage(log: seq<TaskEvent>, longer: seq<TaskEvent>, taskId: string, after: int, received: seq<TaskEvent>, cursor: int,
                 limit: nat)
    requires Numbered(longer) && log <= longer && after >= 0 && limit >= 1
    requires Following(log, taskId, after, received, cursor, false)
    ensures var page := PageOf(longer, taskId, cursor, limit);
            && Following(longer, taskId, after, received + page.events, page.nextCursor, !page.hasMore)
            && (page.hasMore ==> |page.events| >= 1)
  {
    StillReceived(log, longer, taskId, after, received);
    PageExtends(longer, taskId, after, received, cursor, limit);
  }

  lemma LaterFrom(events: seq<TaskEvent>, longer: seq<TaskEvent>, after: int)
    requires events <= longer
    ensures From(events, after) <= From(longer, after)
  {
  }

  lemma NextSlice(all: seq<TaskEvent>, after: int, received: seq<TaskEvent>, next: seq<TaskEvent>)
    requires after >= 0 && received <= From(all, after)
    requires next <= From(all, after + |received|)
    ensures received + next <= From(all, after)
    ensures next == From(all, after + |received|) ==> received + next == From(all, after)
  {
    var due := From(all, after);
    assert From(all, after + |received|) == due[|received|..];
    assert due == received + due[|received|..];
  }
}
