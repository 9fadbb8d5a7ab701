/** Starting, re-checking, draining and closing the six managed resources of the backend. */
module Lifecycle {
  import opened Collections

  datatype Resource = Telemetry | Database | Checkpointer | GraphResource | Providers | Workers

  const ORDER := [Telemetry, Database, Checkpointer, GraphResource, Providers, Workers]

  /** One instance made by a factory. */
  datatype Handle = Handle(name: Resource, instance: nat)

  datatype RuntimeState = Created | Starting | Ready | Draining | Stopped | Failed

  datatype Health = Health(ready: bool, code: string)

  datatype FailureCode =
    | StartupFailed(name: Resource)
    | CheckFailed(name: Resource, code: string)
    | DrainFailed
    | CloseFailed(name: Resource)

  /** What the outside does to one resource during start. */
  datatype Outcome = FactoryRaises | StartRaises | CheckRaises | Checked(health: Health)

  /** What it does to one resource during a refresh; only a cancellation escapes. */
  datatype Probe = Answered(health: Health) | Raised | Cancelled

  datatype DrainOutcome = NotDrainable | Drained | DrainRaises

  // ---- the history of created and closed resources ------------------------------------------------------

  datatype HistoryEvent = Opened(h: Handle) | Closed(h: Handle)

  /** The resources a history leaves open, if it closes only the one opened last each time. */
  function Replay(history: seq<HistoryEvent>): Option<seq<Handle>> {
    if history == [] then Some([])
    else
      var before := Replay(history[..|history| - 1]);
      var last := history[|history| - 1];
      if before.None? then None
      else if last.Opened? then
        if Opened(last.h) in history[..|history| - 1] then None else Some(before.value + [last.h])
      else if before.value != [] && before.value[|before.value| - 1] == last.h then Some(before.value[..|before.value| - 1])
      else None
  }

  /** Closing a list of open resources, last first. */
  function Closings(open: seq<Handle>): seq<HistoryEvent> {
    if open == [] then [] else [Closed(open[|open| - 1])] + Closings(open[..|open| - 1])
  }

  lemma {:induction false} ReplayPush(history: seq<HistoryEvent>, open: seq<Handle>, h: Handle)
    requires Replay(history) == Some(open) && Opened(h) !in history
    ensures Replay(history + [Opened(h)]) == Some(open + [h])
  {
    assert (history + [Opened(h)])[..|history|] == history;
  }

  lemma {:induction false} ReplayPop(history: seq<HistoryEvent>, open: seq<Handle>)
    requires Replay(history) == Some(open) && open != []
    ensures Replay(history + [Closed(open[|open| - 1])]) == Some(open[..|open| - 1])
  {
    assert (history + [Closed(open[|open| - 1])])[..|history|] == history;
  }

  lemma {:induction false} ReplayPrefix(history: seq<HistoryEvent>, k: nat)
    requires Replay(history).Some? && k <= |history|
    ensures Replay(history[..k]).Some?
  {
    if k < |history| {
      ReplayPrefix(history[..|history| - 1], k);
      assert history[..|history| - 1][..k] == history[..k];
    } else {
      assert history[..k] == history;
    }
  }

  function Openings(history: seq<HistoryEvent>, h: Handle): nat {
    multiset(history)[Opened(h)]
  }

  function Closes(history: seq<HistoryEvent>, h: Handle): nat {
    multiset(history)[Closed(h)]
  }

  /** Every resource is opened at most once, and is closed exactly once or still open. */
  lemma {:induction false} ClosedOnceOrOpen(history: seq<HistoryEvent>, h: Handle)
    requires Replay(history).Some?
    ensures Openings(history, h) <= 1
    ensures Openings(history, h) == Closes(history, h) + multiset(Replay(history).value)[h]
  {
    if history != [] {
      var init, last := history[..|history| - 1], history[|history| - 1];
      assert history == init + [last];
      ReplayPrefix(history, |init|);
      ClosedOnceOrOpen(init, h);
      var before := Replay(init).value;
      if last.Opened? {
        assert Opened(last.h) !in multiset(init);
      } else {
        assert before == before[..|before| - 1] + [last.h];
      }
    }
  }

  /** Once nothing is active, every resource ever created has been closed exactly once. */
  lemma NothingLeaks(history: seq<HistoryEvent>, h: Handle)
    requires Replay(history) == Some([]) && Opened(h) in history
    ensures Openings(history, h) == 1 && Closes(history, h) == 1
  {
    ClosedOnceOrOpen(history, h);
    assert Opened(h) in multiset(history);
  }

  /** When a resource was created. */
  function Birth(history: seq<HistoryEvent>, h: Handle): (k: nat)
    requires Opened(h) in history
    ensures k < |history| && history[k] == Opened(h)
  {
    if history[|history| - 1] == Opened(h) then |history| - 1
    else
      assert history == history[..|history| - 1] + [history[|history| - 1]];
      Birth(history[..|history| - 1], h)
  }

  lemma {:induction false} BornOnce(history: seq<HistoryEvent>, i: nat)
    requires Replay(history).Some? && i < |history| && history[i].Opened?
    ensures Opened(history[i].h) in history && Birth(history, history[i].h) == i
  {
    var init, last := history[..|history| - 1], history[|history| - 1];
    if i < |init| {
      assert init[i] == history[i];
      ReplayPrefix(history, |init|);
      BornOnce(init, i);
    }
  }

  lemma BirthStays(init: seq<HistoryEvent>, e: HistoryEvent, h: Handle)
    requires Opened(h) in init && e != Opened(h)
    ensures Opened(h) in init + [e] && Birth(init + [e], h) == Birth(init, h)
  {
    assert (init + [e])[..|init|] == init;
  }

  /** The resources of a list were created in this order. */
  predicate ByBirth(history: seq<HistoryEvent>, open: seq<Handle>) {
    && (forall a :: 0 <= a < |open| ==> Opened(open[a]) in history)
    && (forall a, b :: 0 <= a < b < |open| ==> Birth(history, open[a]) < Birth(history, open[b]))
  }

  lemma PushByBirth(init: seq<HistoryEvent>, before: seq<Handle>, h: Handle)
    requires ByBirth(init, before) && Opened(h) !in init
    ensures ByBirth(init + [Opened(h)], before + [h])
  {
    forall a | 0 <= a < |before|
      ensures Opened(before[a]) in init + [Opened(h)] && Birth(init + [Opened(h)], before[a]) == Birth(init, before[a])
    {
      BirthStays(init, Opened(h), before[a]);
    }
  }

  lemma PopByBirth(init: seq<HistoryEvent>, before: seq<Handle>, h: Handle)
    requires ByBirth(init, before) && before != []
    ensures ByBirth(init + [Closed(h)], before[..|before| - 1])
  {
    forall a | 0 <= a < |before|
      ensures Opened(before[a]) in init + [Closed(h)] && Birth(init + [Closed(h)], before[a]) == Birth(init, before[a])
    {
      BirthStays(init, Closed(h), before[a]);
    }
  }

  /** The open resources are listed in the order of their creation. */
  lemma {:induction false} OpenByBirth(history: seq<HistoryEvent>)
    requires Replay(history).Some?
    ensures ByBirth(history, Replay(history).value)
  {
    if history != [] {
      var init, last := history[..|history| - 1], history[|history| - 1];
      ReplayPrefix(history, |init|);
      OpenByBirth(init);
      assert history == init + [last];
      if last.Opened? { PushByBirth(init, Replay(init).value, last.h); } else { PopByBirth(init, Replay(init).value, last.h); }
    }
  }

  /** Nothing created after the topmost open resource is still open. */
  lemma TopIsYoungest(past: seq<HistoryEvent>, open: seq<Handle>, i: nat, j: nat)
    requires Replay(past) == Some(open) && open != [] && i < j < |past|
    requires past[i].Opened? && past[j].Opened? && open[|open| - 1] == past[i].h
    ensures past[j].h !in open
  {
    BornOnce(past, i);
    BornOnce(past, j);
    OpenByBirth(past);
    var top := |open| - 1;
    forall b | 0 <= b < |open| ensures open[b] != past[j].h {
      assert b == top || Birth(past, open[b]) < Birth(past, open[top]);
    }
  }

  lemma OpenedThenClosed(past: seq<HistoryEvent>, j: nat)
    requires Replay(past).Some? && j < |past| && past[j].Opened? && past[j].h !in Replay(past).value
    ensures Closed(past[j].h) in past
  {
    ClosedOnceOrOpen(past, past[j].h);
    assert past[j] in multiset(past);
    assert Closed(past[j].h) in multiset(past);
  }

  /** Resources are closed in the reverse order of their creation: when one is closed, everything created
      after it has been closed already. */
  lemma ClosedInReverse(history: seq<HistoryEvent>, i: nat, j: nat, k: nat)
    requires Replay(history).Some? && i < j < k < |history|
    requires history[i].Opened? && history[j].Opened? && history[k] == Closed(history[i].h)
    ensures Closed(history[j].h) in history[..k]
  {
    var past := history[..k];
    ClosedWasTop(history, k);
    assert past[i] == history[i] && past[j] == history[j];
    TopIsYoungest(past, Replay(past).value, i, j);
    OpenedThenClosed(past, j);
  }

  lemma ClosedWasTop(history: seq<HistoryEvent>, k: nat)
    requires Replay(history).Some? && k < |history| && history[k].Closed?
    ensures Replay(history[..k]).Some? && Replay(history[..k]).value != []
    ensures Replay(history[..k]).value[|Replay(history[..k]).value| - 1] == history[k].h
  {
    ReplayPrefix(history, k + 1);
    assert history[..k + 1][..k] == history[..k];
  }

  lemma {:induction false} ReplayClosings(history: seq<HistoryEvent>, open: seq<Handle>)
    requires Replay(history) == Some(open)
    ensures Replay(history + Closings(open)) == Some([])
    decreases |open|
  {
    if open == [] {
      assert history + Closings(open) == history;
    } else {
      ReplayPop(history, open);
      var closed := history + [Closed(open[|open| - 1])];
      ReplayClosings(closed, open[..|open| - 1]);
      assert history + Closings(open) == closed + Closings(open[..|open| - 1]);
    }
  }

  // ---- specification of the operations -----------------------------------------------------------------------

  function NamesOf(open: seq<Handle>): set<Resource> {
    set i | 0 <= i < |open| :: open[i].name
  }

  lemma NamesUnfold(open: seq<Handle>)
    requires open != []
    ensures NamesOf(open) == NamesOf(open[..|open| - 1]) + {open[|open| - 1].name}
  {
    var init := open[..|open| - 1];
    forall n ensures n in NamesOf(open) <==> n in NamesOf(init) || n == open[|open| - 1].name {
      if n in NamesOf(init) {
        var i :| 0 <= i < |init| && init[i].name == n;
        assert open[i].name == n;
      }
    }
  }

  lemma NamesGrow(open: seq<Handle>, h: Handle)
    ensures NamesOf(open + [h]) == NamesOf(open) + {h.name}
  {
    assert (open + [h])[..|open|] == open;
    NamesUnfold(open + [h]);
  }

  lemma ClosingsUnfold(history: seq<HistoryEvent>, open: seq<Handle>)
    requires open != []
    ensures history + Closings(open) == history + [Closed(open[|open| - 1])] + Closings(open[..|open| - 1])
  {
  }

  /** The failures of closing these resources, last first. */
  function CloseFailures(open: seq<Handle>, raises: Handle -> bool): seq<FailureCode> {
    if open == [] then []
    else
      var last := open[|open| - 1];
      (if raises(last) then [CloseFailed(last.name)] else []) + CloseFailures(open[..|open| - 1], raises)
  }

  /** Closing reports nothing exactly if nothing raises. */
  lemma {:induction false} NoCloseFailures(open: seq<Handle>, raises: Handle -> bool)
    ensures CloseFailures(open, raises) == [] <==> forall i :: 0 <= i < |open| ==> !raises(open[i])
  {
    if open != [] {
      NoCloseFailures(open[..|open| - 1], raises);
      assert forall i :: 0 <= i < |open| - 1 ==> open[..|open| - 1][i] == open[i];
    }
  }

  /** Otherwise the youngest resource that raises is named first. */
  lemma {:induction false} FirstCloseFailure(open: seq<Handle>, raises: Handle -> bool) returns (k: nat)
    requires CloseFailures(open, raises) != []
    ensures k < |open| && raises(open[k]) && CloseFailures(open, raises)[0] == CloseFailed(open[k].name)
    ensures forall i :: k < i < |open| ==> !raises(open[i])
  {
    var n := |open| - 1;
    if raises(open[n]) {
      k := n;
    } else {
      k := FirstCloseFailure(open[..n], raises);
      assert forall i :: 0 <= i < n ==> open[..n][i] == open[i];
    }
  }

  lemma FailuresUnfold(noted: seq<FailureCode>, open: seq<Handle>, raises: Handle -> bool)
    requires open != []
    ensures var last := open[|open| - 1];
            noted + CloseFailures(open, raises)
            == (noted + if raises(last) then [CloseFailed(last.name)] else []) + CloseFailures(open[..|open| - 1], raises)
  {
    var last := open[|open| - 1];
    ConcatAssociative(noted, if raises(last) then [CloseFailed(last.name)] else [], CloseFailures(open[..|open| - 1], raises));
  }

  lemma ConcatAssociative<T>(a: seq<T>, b: seq<T>, c: seq<T>)
    ensures a + (b + c) == (a + b) + c
  {
  }

  lemma NamesDropped(known: set<Resource>, open: seq<Handle>)
    requires open != []
    ensures (known - {open[|open| - 1].name}) - NamesOf(open[..|open| - 1]) == known - NamesOf(open)
  {
    NamesUnfold(open);
  }

  predicate HealthyOutcome(o: Outcome) {
    o.Checked? && o.health.ready
  }

  /** The first resource that does not come up. */
  function FirstBad(outcomes: seq<Outcome>): (k: nat)
    ensures k <= |outcomes|
  {
    if outcomes == [] || !HealthyOutcome(outcomes[0]) then 0 else 1 + FirstBad(outcomes[1..])
  }

  lemma {:induction false} FirstBadAt(outcomes: seq<Outcome>, i: nat)
    requires i <= FirstBad(outcomes) && i < |outcomes|
    ensures HealthyOutcome(outcomes[i]) <==> i < FirstBad(outcomes)
  {
    if i > 0 { FirstBadAt(outcomes[1..], i - 1); }
  }

  /** A resource is up when its factory, its start and its check returned and the check found it ready. */
  lemma {:induction false} FirstBadMeans(outcomes: seq<Outcome>)
    ensures forall i :: 0 <= i < FirstBad(outcomes) ==> outcomes[i].Checked? && outcomes[i].health.ready
    ensures FirstBad(outcomes) < |outcomes| ==> !(outcomes[FirstBad(outcomes)].Checked? && outcomes[FirstBad(outcomes)].health.ready)
    ensures FirstBad(outcomes) == |outcomes| <==> forall i :: 0 <= i < |outcomes| ==> outcomes[i].Checked? && outcomes[i].health.ready
  {
    if outcomes != [] && FirstBad(outcomes) > 0 {
      FirstBadMeans(outcomes[1..]);
      forall i | 0 <= i < FirstBad(outcomes) ensures outcomes[i].Checked? && outcomes[i].health.ready {
        if i > 0 { assert outcomes[i] == outcomes[1..][i - 1]; }
      }
    }
  }

  /** Every resource was made and started, and its check found it ready. */
  predicate AllUp(outcomes: seq<Outcome>) {
    forall i :: 0 <= i < |outcomes| ==> outcomes[i].Checked? && outcomes[i].health.ready
  }

  /** The health of each resource is what its check said. */
  predicate HealthIs(health: map<Resource, Health>, outcomes: seq<Outcome>)
    requires |outcomes| == 6
  {
    forall i :: 0 <= i < 6 ==> ORDER[i] in health && outcomes[i].Checked? && health[ORDER[i]] == outcomes[i].health
  }

  /** A start succeeds exactly if all resources come up, and then knows the health of each. */
  lemma StartMeans(outcomes: seq<Outcome>)
    requires |outcomes| == 6
    ensures FirstBad(outcomes) == 6 <==> AllUp(outcomes)
    ensures AllUp(outcomes) ==> HealthIs(HealthAfter(map[], outcomes, 6), outcomes)
  {
    FirstBadMeans(outcomes);
    if AllUp(outcomes) {
      forall i | 0 <= i < 6 ensures ORDER[i] in HealthAfter(map[], outcomes, 6) && HealthAfter(map[], outcomes, 6)[ORDER[i]] == outcomes[i].health {
        CheckedIsKept(map[], outcomes, 6, i);
      }
    }
  }

  /** The instances made by a start that makes n of them. */
  function Made(first: nat, n: nat): (r: seq<Handle>)
    requires n <= 6
    ensures |r| == n
  {
    if n == 0 then [] else Made(first, n - 1) + [Handle(ORDER[n - 1], first + n - 1)]
  }

  lemma MadeNext(first: nat, n: nat)
    requires n < 6
    ensures Made(first, n + 1) == Made(first, n) + [Handle(ORDER[n], first + n)]
    ensures Creations(Made(first, n + 1)) == Creations(Made(first, n)) + [Opened(Handle(ORDER[n], first + n))]
  {
    CreationsNext(Made(first, n), Handle(ORDER[n], first + n));
  }

  lemma MadeOneMore(past: seq<HistoryEvent>, first: nat, n: nat)
    requires n < 6
    ensures past + Creations(Made(first, n)) + [Opened(Handle(ORDER[n], first + n))] == past + Creations(Made(first, n + 1))
  {
    MadeNext(first, n);
  }

  lemma {:induction false} MadeAt(first: nat, n: nat, i: nat)
    requires i < n <= 6
    ensures Made(first, n)[i] == Handle(ORDER[i], first + i)
  {
    if i < n - 1 { MadeAt(first, n - 1, i); }
  }

  lemma MadeNames(first: nat)
    ensures Names(Made(first, 6))
  {
    forall i | 0 <= i < 6 ensures Made(first, 6)[i].name == ORDER[i] {
      MadeAt(first, 6, i);
    }
  }

  function Creations(handles: seq<Handle>): seq<HistoryEvent> {
    if handles == [] then [] else Creations(handles[..|handles| - 1]) + [Opened(handles[|handles| - 1])]
  }

  lemma CreationsNext(handles: seq<Handle>, h: Handle)
    ensures Creations(handles + [h]) == Creations(handles) + [Opened(h)]
  {
    assert (handles + [h])[..|handles|] == handles;
  }

  /** How many resources a start creates: one more than came up, unless the next factory failed. */
  function MadeBy(outcomes: seq<Outcome>): (n: nat)
    requires |outcomes| == 6
    ensures n <= 6
  {
    var k := FirstBad(outcomes);
    if k < 6 && !outcomes[k].FactoryRaises? then k + 1 else k
  }

  predicate Names(open: seq<Handle>) {
    |open| == 6 && forall i :: 0 <= i < 6 ==> open[i].name == ORDER[i]
  }

  /** What a refresh learns from one probe. */
  function Learned(p: Probe): Health {
    if p.Answered? then p.health else Health(false, "health_check_failed")
  }

  predicate AllReady(probes: seq<Probe>) {
    forall i :: 0 <= i < |probes| ==> Learned(probes[i]).ready
  }

  function FirstFailure(open: seq<Handle>, probes: seq<Probe>): Option<FailureCode>
    requires |open| == |probes|
  {
    if open == [] then None
    else
      var before := FirstFailure(open[..|open| - 1], probes[..|open| - 1]);
      var last := Learned(probes[|open| - 1]);
      if before.Some? || last.ready then before else Some(CheckFailed(open[|open| - 1].name, last.code))
  }

  lemma FailureUnfold(open: seq<Handle>, probes: seq<Probe>, i: nat)
    requires i < |open| == |probes|
    ensures AllReady(probes[..i + 1]) <==> AllReady(probes[..i]) && Learned(probes[i]).ready
    ensures FirstFailure(open[..i + 1], probes[..i + 1])
         == if FirstFailure(open[..i], probes[..i]).Some? || Learned(probes[i]).ready then FirstFailure(open[..i], probes[..i])
            else Some(CheckFailed(open[i].name, Learned(probes[i]).code))
  {
    assert probes[..i + 1] == probes[..i] + [probes[i]];
    assert probes[..i + 1][..i] == probes[..i] && open[..i + 1][..i] == open[..i];
  }

  /** How many probes answer before the refresh is cancelled. */
  function FirstCancelled(probes: seq<Probe>): (k: nat)
    ensures k <= |probes|
  {
    if probes == [] || probes[0].Cancelled? then 0 else 1 + FirstCancelled(probes[1..])
  }

  lemma {:induction false} CancelledAt(probes: seq<Probe>, i: nat)
    requires i <= FirstCancelled(probes) && i < |probes|
    ensures probes[i].Cancelled? <==> i == FirstCancelled(probes)
  {
    if i > 0 { CancelledAt(probes[1..], i - 1); }
  }

  /** The health map after the first n probes of a refresh. */
  function HealthLearned(health: map<Resource, Health>, probes: seq<Probe>, n: nat): map<Resource, Health>
    requires n <= |probes| && n <= 6
  {
    if n == 0 then health else HealthLearned(health, probes, n - 1)[ORDER[n - 1] := Learned(probes[n - 1])]
  }

  /** The health map after the first n resources came up. */
  function HealthAfter(health: map<Resource, Health>, outcomes: seq<Outcome>, n: nat): map<Resource, Health>
    requires n <= |outcomes| && n <= 6
  {
    if n == 0 then health
    else if outcomes[n - 1].Checked? then HealthAfter(health, outcomes, n - 1)[ORDER[n - 1] := outcomes[n - 1].health]
    else HealthAfter(health, outcomes, n - 1)
  }

  /** What is on record for a resource after its probe. */
  predicate Recorded(health: map<Resource, Health>, name: Resource, p: Probe) {
    && name in health
    && (p.Answered? ==> health[name] == p.health)
    && (!p.Answered? ==> health[name] == Health(false, "health_check_failed"))
  }

  lemma OrderDistinct(i: nat, j: nat)
    requires i < j < 6
    ensures ORDER[i] != ORDER[j]
  {
    assert ORDER[0].Telemetry? && ORDER[1].Database? && ORDER[2].Checkpointer? && ORDER[3].GraphResource? && ORDER[4].Providers?;
  }

  lemma {:induction false} LearnedIsRecorded(health: map<Resource, Health>, probes: seq<Probe>, n: nat, i: nat)
    requires i < n <= |probes| && n <= 6
    ensures Recorded(HealthLearned(health, probes, n), ORDER[i], probes[i])
  {
    if i < n - 1 {
      LearnedIsRecorded(health, probes, n - 1, i);
      OrderDistinct(i, n - 1);
    }
  }

  lemma {:induction false} CheckedIsKept(health: map<Resource, Health>, outcomes: seq<Outcome>, n: nat, i: nat)
    requires i < n <= |outcomes| && n <= 6 && outcomes[i].Checked?
    ensures ORDER[i] in HealthAfter(health, outcomes, n) && HealthAfter(health, outcomes, n)[ORDER[i]] == outcomes[i].health
  {
    if i < n - 1 {
      CheckedIsKept(health, outcomes, n - 1, i);
      OrderDistinct(i, n - 1);
    }
  }

  /** The probe found the resource ready; an exception or a negative answer does not. */
  predicate FoundReady(p: Probe) {
    match p case Answered(h) => h.ready case Raised => false case Cancelled => false
  }

  /** The failure names the first resource that was not found ready, with the code of its answer. */
  predicate FirstNotReady(open: seq<Handle>, probes: seq<Probe>, failure: FailureCode, k: nat) {
    && k < |open| == |probes| && !FoundReady(probes[k]) && (forall j :: 0 <= j < k ==> FoundReady(probes[j]))
    && failure == CheckFailed(open[k].name, if probes[k].Answered? then probes[k].health.code else "health_check_failed")
  }

  predicate AllFoundReady(probes: seq<Probe>) {
    forall i :: 0 <= i < |probes| ==> FoundReady(probes[i])
  }

  predicate NoneCancelled(probes: seq<Probe>) {
    forall i :: 0 <= i < |probes| ==> !probes[i].Cancelled?
  }

  /** The health of each resource is on record as its probe left it. */
  predicate AllRecorded(health: map<Resource, Health>, probes: seq<Probe>)
    requires |probes| == 6
  {
    forall i :: 0 <= i < 6 ==> Recorded(health, ORDER[i], probes[i])
  }

  lemma ReadyMeans(probes: seq<Probe>)
    ensures AllReady(probes) <==> AllFoundReady(probes)
  {
    assert forall i :: 0 <= i < |probes| ==> (Learned(probes[i]).ready <==> FoundReady(probes[i]));
  }

  lemma {:induction false} NoFailureMeans(open: seq<Handle>, probes: seq<Probe>)
    requires |open| == |probes|
    ensures FirstFailure(open, probes).None? <==> AllReady(probes)
  {
    if open != [] {
      var n := |open| - 1;
      NoFailureMeans(open[..n], probes[..n]);
      FailureUnfold(open, probes, n);
      assert open[..n + 1] == open && probes[..n + 1] == probes;
    }
  }

  /** Otherwise the first resource that was not found ready is named. */
  lemma {:induction false} FailureMeans(open: seq<Handle>, probes: seq<Probe>) returns (k: nat)
    requires |open| == |probes| && FirstFailure(open, probes).Some?
    ensures FirstNotReady(open, probes, FirstFailure(open, probes).value, k)
  {
    var n := |open| - 1;
    if FirstFailure(open[..n], probes[..n]).Some? {
      k := FailureMeans(open[..n], probes[..n]);
      assert forall j :: 0 <= j <= k ==> probes[..n][j] == probes[j];
    } else {
      k := n;
      NoFailureMeans(open[..n], probes[..n]);
      ReadyMeans(probes[..n]);
      assert forall j :: 0 <= j < n ==> probes[..n][j] == probes[j];
    }
  }

  /** What a complete refresh concludes from its probes. */
  predicate Concluded(open: seq<Handle>, probes: seq<Probe>, accepting: bool, failure: Option<FailureCode>) {
    && (accepting <==> AllFoundReady(probes)) && (failure.None? <==> accepting)
    && (failure.Some? ==> exists k :: 0 <= k < |open| && FirstNotReady(open, probes, failure.value, k))
  }

  lemma RefreshConcludes(open: seq<Handle>, probes: seq<Probe>)
    requires |open| == |probes|
    ensures Concluded(open, probes, AllReady(probes), FirstFailure(open, probes))
  {
    ReadyMeans(probes);
    NoFailureMeans(open, probes);
    if FirstFailure(open, probes).Some? { var k := FailureMeans(open, probes); }
  }

  lemma RefreshRecords(health: map<Resource, Health>, probes: seq<Probe>)
    requires |probes| == 6
    ensures AllRecorded(HealthLearned(health, probes, 6), probes)
  {
    forall i | 0 <= i < 6 ensures Recorded(HealthLearned(health, probes, 6), ORDER[i], probes[i]) {
      LearnedIsRecorded(health, probes, 6, i);
    }
  }

  lemma {:induction false} CancelledMeans(probes: seq<Probe>)
    ensures FirstCancelled(probes) == |probes| <==> NoneCancelled(probes)
  {
    if FirstCancelled(probes) < |probes| {
      CancelledAt(probes, FirstCancelled(probes));
    } else {
      forall i | 0 <= i < |probes| ensures !probes[i].Cancelled? { CancelledAt(probes, i); }
    }
  }

  predicate NumberedBelow(history: seq<HistoryEvent>, next: nat) {
    forall i :: 0 <= i < |history| && history[i].Opened? ==> history[i].h.instance < next
  }

  lemma NotYetOpened(history: seq<HistoryEvent>, h: Handle)
    requires NumberedBelow(history, h.instance)
    ensures Opened(h) !in history
  {
  }

  lemma NumberedNext(history: seq<HistoryEvent>, h: Handle)
    requires NumberedBelow(history, h.instance)
    ensures NumberedBelow(history + [Opened(h)], h.instance + 1)
  {
  }

  lemma OpenedNext(history: seq<HistoryEvent>, open: seq<Handle>, h: Handle)
    requires Replay(history) == Some(open) && NumberedBelow(history, h.instance)
    ensures Replay(history + [Opened(h)]) == Some(open + [h]) && NumberedBelow(history + [Opened(h)], h.instance + 1)
  {
    NotYetOpened(history, h);
    NumberedNext(history, h);
    ReplayPush(history, open, h);
  }

  // ---- the runtime ----------------------------------------------------------------------------------------------

  class ApplicationRuntime {
    var state: RuntimeState
    var acceptingWork: bool
    var active: seq<Handle>
    var health: map<Resource, Health>
    var failureCode: Option<FailureCode>
    var nextInstance: nat
    ghost var history: seq<HistoryEvent>

    /** What holds whenever the lock is free. */
    ghost predicate Valid()
      reads this
    {
      && (state.Created? || state.Ready? || state.Stopped? || state.Failed?)
      && (if state.Ready? then Names(active) else active == [])
      && (acceptingWork ==> state.Ready?)
      && HistoryFine()
    }

    /** The open resources are exactly the active ones, and instances are numbered as they are made. */
    ghost predicate HistoryFine()
      reads this
    {
      Replay(history) == Some(active) && NumberedBelow(history, nextInstance)
    }

    constructor ()
      ensures Valid() && state.Created? && !acceptingWork && history == [] && nextInstance == 0
    {
      state, acceptingWork, active, health, failureCode, nextInstance := Created, false, [], map[], None, 0;
      history := [];
    }

    /** Close the resource opened last and forget its health, whether closing raises or not. */
    method CloseLast(raises: Handle -> bool) returns (failures: seq<FailureCode>)
      requires HistoryFine() && active != []
      modifies this`active, this`health, this`history
      ensures HistoryFine() && active == old(active)[..|old(active)| - 1]
      ensures var last := old(active)[|old(active)| - 1];
              && history == old(history) + [Closed(last)] && health == old(health) - {last.name}
              && failures == if raises(last) then [CloseFailed(last.name)] else []
    {
      var resource := active[|active| - 1];
      ReplayPop(history, active);
      history := history + [Closed(resource)];
      active := active[..|active| - 1];
      failures := if raises(resource) then [CloseFailed(resource.name)] else [];
      health := health - {resource.name};
    }

    /** Close active resources in reverse order and continue after errors. */
    method CloseAll(raises: Handle -> bool) returns (failures: seq<FailureCode>)
      requires HistoryFine()
      modifies this`active, this`health, this`history
      ensures HistoryFine() && active == []
      ensures history == old(history) + Closings(old(active))
      ensures failures == CloseFailures(old(active), raises)
      ensures health.Keys == old(health.Keys) - NamesOf(old(active))
    {
      failures := [];
      while active != []
        invariant HistoryFine()
        invariant history + Closings(active) == old(history) + Closings(old(active))
        invariant failures + CloseFailures(active, raises) == CloseFailures(old(active), raises)
        invariant health.Keys - NamesOf(active) == old(health.Keys) - NamesOf(old(active))
        decreases |active|
      {
        ghost var open, past, known, noted := active, history, health.Keys, failures;
        var more := CloseLast(raises);
        failures := failures + more;
        ClosingsUnfold(past, open);
        FailuresUnfold(noted, open, raises);
        NamesDropped(known, open);
      }
    }

    /** A start from this history has made n resources so far. */
    ghost predicate Underway(past: seq<HistoryEvent>, first: nat, n: nat)
      requires n <= 6
      reads this
    {
      && HistoryFine() && nextInstance == first + n && active == Made(first, n)
      && history == past + Creations(Made(first, n)) && health.Keys <= NamesOf(active)
    }

    /** Make, start and check one resource; it counts as active as soon as its factory returned. */
    method OpenNext(n: nat, outcome: Outcome, ghost past: seq<HistoryEvent>, ghost first: nat) returns (up: bool)
      requires n < 6 && Underway(past, first, n)
      modifies this`active, this`health, this`history, this`nextInstance
      ensures Underway(past, first, if outcome.FactoryRaises? then n else n + 1)
      ensures up == HealthyOutcome(outcome)
      ensures health == if outcome.Checked? then old(health)[ORDER[n] := outcome.health] else old(health)
    {
      if outcome.FactoryRaises? { return false; }
      var resource := Handle(ORDER[n], nextInstance);
      MadeNext(first, n);
      MadeOneMore(past, first, n);
      OpenedNext(history, active, resource);
      active, nextInstance := active + [resource], nextInstance + 1;
      history := history + [Opened(resource)];
      NamesGrow(old(active), resource);
      if outcome.Checked? { health := health[ORDER[n] := outcome.health]; }
      up := HealthyOutcome(outcome);
    }

    /** The start loop: resources in order until one does not come up. */
    method BringUp(outcomes: seq<Outcome>) returns (reached: nat)
      requires HistoryFine() && active == [] && health == map[] && |outcomes| == 6
      modifies this`active, this`health, this`history, this`nextInstance
      ensures reached == FirstBad(outcomes)
      ensures Underway(old(history), old(nextInstance), MadeBy(outcomes))
      ensures reached == 6 ==> health == HealthAfter(map[], outcomes, 6)
    {
      reached := 0;
      var up := true;
      ghost var made := 0;
      while reached < 6 && up
        invariant 0 <= reached <= 6 && reached <= FirstBad(outcomes) <= 6
        invariant !up ==> reached == FirstBad(outcomes) < 6
        invariant made == if up || outcomes[reached].FactoryRaises? then reached else reached + 1
        invariant Underway(old(history), old(nextInstance), made)
        invariant up ==> health == HealthAfter(map[], outcomes, reached)
        decreases 6 - reached, up
      {
        FirstBadAt(outcomes, reached);
        up := OpenNext(reached, outcomes[reached], old(history), old(nextInstance));
        if !outcomes[reached].FactoryRaises? { made := reached + 1; }
        if up { reached := reached + 1; }
      }
    }

    /** Start and check all resources in order, or close whatever was made and fail. */
    method Start(outcomes: seq<Outcome>, raises: Handle -> bool) returns (ok: bool)
      requires Valid() && |outcomes| == 6
      modifies this
      ensures Valid()
      ensures !(old(state).Created? || old(state).Stopped?) ==>
                !ok && state == old(state) && acceptingWork == old(acceptingWork) && active == old(active)
                && health == old(health) && failureCode == old(failureCode) && history == old(history)
      ensures old(state).Created? || old(state).Stopped? ==>
                var made := Made(old(nextInstance), MadeBy(outcomes));
                && ok == (FirstBad(outcomes) == 6)
                && state == (if ok then Ready else Failed) && acceptingWork == ok
                && active == (if ok then made else [])
                && (ok ==> health == HealthAfter(map[], outcomes, 6))
                && (!ok ==> health == map[])
                && failureCode == (if ok then None else Some(StartupFailed(ORDER[FirstBad(outcomes)])))
                && (ok ==> history == old(history) + Creations(made))
                && (!ok ==> history == old(history) + Creations(made) + Closings(made))
      ensures ok <==> (old(state).Created? || old(state).Stopped?) && AllUp(outcomes)
      ensures ok ==> HealthIs(health, outcomes)
    {
      if !state.Created? && !state.Stopped? { return false; }
      state, acceptingWork, failureCode, health, active := Starting, false, None, map[], [];
      var reached := BringUp(outcomes);
      StartMeans(outcomes);
      if reached < 6 {
        failureCode := Some(StartupFailed(ORDER[reached]));
        var failures := CloseAll(raises);
        state := Failed;
        return false;
      }
      MadeNames(old(nextInstance));
      acceptingWork, state := true, Ready;
      ok := true;
    }

    /** Probe the active resources again; a cancellation leaves the verdict as it was. */
    method RefreshReadiness(probes: seq<Probe>) returns (done: bool)
      requires Valid() && |probes| == 6
      modifies this`acceptingWork, this`health, this`failureCode
      ensures Valid()
      ensures done == (!state.Ready? || FirstCancelled(probes) == 6)
      ensures !state.Ready? ==> acceptingWork == old(acceptingWork) && health == old(health) && failureCode == old(failureCode)
      ensures state.Ready? ==> health == HealthLearned(old(health), probes, FirstCancelled(probes))
      ensures state.Ready? && done ==> acceptingWork == AllReady(probes) && failureCode == FirstFailure(active, probes)
      ensures !done ==> acceptingWork == old(acceptingWork) && failureCode == old(failureCode)
      ensures done <==> !state.Ready? || NoneCancelled(probes)
      ensures state.Ready? && done ==> Concluded(active, probes, acceptingWork, failureCode) && AllRecorded(health, probes)
    {
      CancelledMeans(probes);
      if !state.Ready? { return true; }
      var allReady, firstFailure := |active| == 6, None;
      for i := 0 to 6
        invariant i <= FirstCancelled(probes)
        invariant allReady == AllReady(probes[..i]) && firstFailure == FirstFailure(active[..i], probes[..i])
        invariant acceptingWork == old(acceptingWork) && failureCode == old(failureCode)
        invariant health == HealthLearned(old(health), probes, i)
      {
        CancelledAt(probes, i);
        if probes[i].Cancelled? { return false; }
        var answer := Learned(probes[i]);
        health := health[active[i].name := answer];
        FailureUnfold(active, probes, i);
        if !answer.ready {
          allReady := false;
          if firstFailure.None? { firstFailure := Some(CheckFailed(active[i].name, answer.code)); }
        }
      }
      assert probes[..6] == probes && active[..6] == active;
      RefreshConcludes(active, probes);
      RefreshRecords(old(health), probes);
      acceptingWork, failureCode := allReady, firstFailure;
      done := true;
    }

    /** Stop intake, drain the workers and close every resource. */
    method Shutdown(drain: DrainOutcome, raises: Handle -> bool) returns (ok: bool)
      requires Valid()
      modifies this
      ensures Valid() && !acceptingWork && active == [] && !state.Ready?
      ensures old(state).Created? || old(state).Stopped? ==>
                ok && state.Stopped? && failureCode == old(failureCode) && history == old(history) && health == old(health)
      ensures !(old(state).Created? || old(state).Stopped?) ==>
                var failures := (if old(state).Ready? && drain.DrainRaises? then [DrainFailed] else [])
                              + CloseFailures(old(active), raises);
                && ok == (failures == []) && state == (if ok then Stopped else Failed)
                && failureCode == (if ok then None else Some(failures[0]))
                && history == old(history) + Closings(old(active))
    {
      if state.Created? || state.Stopped? {
        acceptingWork, state := false, Stopped;
        return true;
      }
      acceptingWork, state := false, Draining;
      var failures := [];
      var workers := false;
      for i := 0 to |active|
        invariant workers == exists k :: 0 <= k < i && active[k].name.Workers?
      {
        if active[i].name.Workers? { workers := true; }
      }
      assert old(state).Ready? ==> active[5].name == ORDER[5];
      if workers && drain.DrainRaises? { failures := [DrainFailed]; }
      var closing := CloseAll(raises);
      failures := failures + closing;
      if failures != [] {
        state, failureCode := Failed, Some(failures[0]);
        return false;
      }
      state, failureCode := Stopped, None;
      ok := true;
    }
  }
}
