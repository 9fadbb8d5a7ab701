/** Where every session grant comes from, event by event, and that an honest establishment gets one. */
module SessionProvenance {
  import opened Collections
  import opened SessionAuthority
  import opened SessionEstablishment

  /** The event can happen, and leads to this state. */
  predicate Takes(l: Limits, s: System, e: Event, s': System) {
    Enabled(s, e) && Step(l, s, e) == s'
  }

  /** A run with the event of each step. */
  ghost predicate Happens(l: Limits, devices: map<string, Device>, trace: seq<System>, events: seq<Event>) {
    && |trace| == |events| + 1 && trace[0] == Start(devices)
    && forall i :: 0 <= i < |events| ==> Takes(l, trace[i], events[i], trace[i + 1])
  }

  lemma NextTakes(l: Limits, s: System, s': System) returns (e: Event)
    requires Next(l, s, s')
    ensures Takes(l, s, e, s')
  {
    e :| Enabled(s, e) && Step(l, s, e) == s';
  }

  lemma TakesNext(l: Limits, s: System, e: Event, s': System)
    requires Takes(l, s, e, s')
    ensures Next(l, s, s')
  {
  }

  lemma {:induction false} RunHappens(l: Limits, devices: map<string, Device>, trace: seq<System>) returns (events: seq<Event>)
    requires Run(l, devices, trace)
    ensures Happens(l, devices, trace, events)
    decreases |trace|
  {
    if |trace| == 1 {
      events := [];
    } else {
      var n := |trace| - 1;
      var before := RunHappens(l, devices, trace[..n]);
      var e := NextTakes(l, trace[n - 1], trace[n]);
      events := before + [e];
      forall i | 0 <= i < n ensures Takes(l, trace[i], events[i], trace[i + 1]) {
        if i < n - 1 { assert Takes(l, trace[..n][i], before[i], trace[..n][i + 1]); }
      }
    }
  }

  lemma HappensIsRun(l: Limits, devices: map<string, Device>, trace: seq<System>, events: seq<Event>)
    requires Happens(l, devices, trace, events)
    ensures Run(l, devices, trace)
  {
    forall i | 0 < i < |trace| ensures Next(l, trace[i - 1], trace[i]) {
      assert Takes(l, trace[i - 1], events[i - 1], trace[i]);
      TakesNext(l, trace[i - 1], events[i - 1], trace[i]);
    }
  }

  // ---- what one event does to one attempt ----------------------------------------------------------------

  /** The event is about this attempt. */
  predicate About(e: Event, p: nat) {
    match e
    case Issue(_, _, _, _) => false
    case Load(q, _, _) => q == p
    case Check(q, _) => q == p
    case Consume(q) => q == p
    case RotateFor(q, _) => q == p
  }

  lemma OthersStay(l: Limits, s: System, e: Event, p: nat)
    requires Enabled(s, e) && !About(e, p)
    ensures p in Step(l, s, e).attempts <==> p in s.attempts
    ensures p in s.attempts ==> Step(l, s, e).attempts[p] == s.attempts[p]
  {
  }

  lemma ClosedStays(l: Limits, s: System, e: Event, p: nat)
    requires Enabled(s, e) && p in s.attempts && s.attempts[p].Closed?
    ensures p in Step(l, s, e).attempts && Step(l, s, e).attempts[p].Closed?
  {
  }

  /** An attempt moves only forward: from loading to the check, the consumption and the rotation. */
  lemma MovesForward(l: Limits, s: System, e: Event, p: nat)
    requires Enabled(s, e) && About(e, p) && p in Step(l, s, e).attempts
    ensures var a := Step(l, s, e).attempts[p];
            && (a.Loaded? ==> e == Load(p, a.proof, a.now) && a.proof.challengeId in s.challenges
                              && s.challenges[a.proof.challengeId] == a.challenge)
            && (a.Checked? ==> e == Check(p, true) && p in s.attempts
                               && s.attempts[p] == Loaded(a.proof, a.challenge, a.now) && a.proof.deviceId in s.authority.devices
                               && s.authority.devices[a.proof.deviceId] == a.device)
            && (a.Consumed? ==> e == Consume(p) && p in s.attempts && s.attempts[p] == Checked(a.proof, a.challenge, a.now, a.device)
                                && a.challenge.id in s.challenges && a.challenge.id !in Step(l, s, e).challenges)
  {
  }

  /** What step n of a run did to an attempt it left open. */
  lemma StepOf(l: Limits, s: System, e: Event, s': System, p: nat)
    requires Takes(l, s, e, s') && p in s'.attempts && !s'.attempts[p].Closed?
    ensures var a := s'.attempts[p];
            || (p in s.attempts && s.attempts[p] == a)
            || (a.Loaded? && e == Load(p, a.proof, a.now) && a.proof.challengeId in s.challenges
                && s.challenges[a.proof.challengeId] == a.challenge)
            || (a.Checked? && e == Check(p, true) && p in s.attempts
                && s.attempts[p] == Loaded(a.proof, a.challenge, a.now) && a.proof.deviceId in s.authority.devices
                && s.authority.devices[a.proof.deviceId] == a.device)
            || (a.Consumed? && e == Consume(p) && p in s.attempts && s.attempts[p] == Checked(a.proof, a.challenge, a.now, a.device)
                && a.challenge.id in s.challenges && a.challenge.id !in s'.challenges)
  {
    if About(e, p) { MovesForward(l, s, e, p); } else { OthersStay(l, s, e, p); }
  }

  // ---- how an attempt came to where it stands --------------------------------------------------------------

  predicate WasLoaded(trace: seq<System>, events: seq<Event>, p: nat, a: Attempt, h: nat)
    requires |trace| == |events| + 1 && !a.Closed?
  {
    && h < |events| && events[h] == Load(p, a.proof, a.now)
    && a.proof.challengeId in trace[h].challenges && trace[h].challenges[a.proof.challengeId] == a.challenge
  }

  predicate WasChecked(trace: seq<System>, events: seq<Event>, p: nat, a: Attempt, j: nat)
    requires |trace| == |events| + 1 && (a.Checked? || a.Consumed?)
  {
    && j < |events| && events[j] == Check(p, true)
    && a.proof.deviceId in trace[j].authority.devices && trace[j].authority.devices[a.proof.deviceId] == a.device
  }

  lemma {:induction false} LoadedStory(l: Limits, devices: map<string, Device>, trace: seq<System>, events: seq<Event>, n: nat, p: nat)
    returns (h: nat)
    requires Happens(l, devices, trace, events) && n < |trace| && p in trace[n].attempts && trace[n].attempts[p].Loaded?
    ensures h < n && WasLoaded(trace, events, p, trace[n].attempts[p], h)
  {
    assert Takes(l, trace[n - 1], events[n - 1], trace[n]);
    StepOf(l, trace[n - 1], events[n - 1], trace[n], p);
    if p in trace[n - 1].attempts && trace[n - 1].attempts[p] == trace[n].attempts[p] {
      h := LoadedStory(l, devices, trace, events, n - 1, p);
    } else {
      h := n - 1;
    }
  }

  lemma {:induction false} CheckedStory(l: Limits, devices: map<string, Device>, trace: seq<System>, events: seq<Event>, n: nat, p: nat)
    returns (h: nat, j: nat)
    requires Happens(l, devices, trace, events) && n < |trace| && p in trace[n].attempts && trace[n].attempts[p].Checked?
    ensures h < j < n && WasLoaded(trace, events, p, trace[n].attempts[p], h) && WasChecked(trace, events, p, trace[n].attempts[p], j)
  {
    assert Takes(l, trace[n - 1], events[n - 1], trace[n]);
    StepOf(l, trace[n - 1], events[n - 1], trace[n], p);
    if p in trace[n - 1].attempts && trace[n - 1].attempts[p] == trace[n].attempts[p] {
      h, j := CheckedStory(l, devices, trace, events, n - 1, p);
    } else {
      h := LoadedStory(l, devices, trace, events, n - 1, p);
      j := n - 1;
    }
  }

  lemma {:induction false} ConsumedStory(l: Limits, devices: map<string, Device>, trace: seq<System>, events: seq<Event>, n: nat, p: nat)
    returns (h: nat, j: nat, m: nat)
    requires Happens(l, devices, trace, events) && n < |trace| && p in trace[n].attempts && trace[n].attempts[p].Consumed?
    ensures h < j < m < n && WasLoaded(trace, events, p, trace[n].attempts[p], h) && WasChecked(trace, events, p, trace[n].attempts[p], j)
    ensures events[m] == Consume(p) && trace[n].attempts[p].challenge.id in trace[m].challenges
    ensures trace[n].attempts[p].challenge.id !in trace[m + 1].challenges
  {
    assert Takes(l, trace[n - 1], events[n - 1], trace[n]);
    StepOf(l, trace[n - 1], events[n - 1], trace[n], p);
    if p in trace[n - 1].attempts && trace[n - 1].attempts[p] == trace[n].attempts[p] {
      h, j, m := ConsumedStory(l, devices, trace, events, n - 1, p);
    } else {
      h, j := CheckedStory(l, devices, trace, events, n - 1, p);
      m := n - 1;
    }
  }

  lemma GrantsGrow(l: Limits, s: System, e: Event)
    requires Enabled(s, e)
    ensures var s' := Step(l, s, e);
            || s'.grants == s.grants
            || (&& e.RotateFor? && Spent(s, e.attempt) && |s'.grants| == |s.grants| + 1 && s'.grants[..|s.grants|] == s.grants
                && var a, g := s.attempts[e.attempt], s'.grants[|s.grants|];
                   && g.challenge == a.challenge && g.sessionId == e.sessionId
                   && g.deviceId == a.proof.deviceId && g.userSessionId == a.proof.userSessionId && g.actorId == a.device.actorId
                   && g.backendId == l.backendId && g.epoch == a.device.epoch + 1 && g.expiresAt == a.now + l.sessionLifetime
                   && a.proof.deviceId in s.authority.devices && s.authority.devices[a.proof.deviceId].epoch == a.device.epoch
                   && s.authority.devices[a.proof.deviceId].status.DeviceActive?)
  {
  }

  /** The step that added a grant. */
  lemma {:induction false} GrantedAt(l: Limits, devices: map<string, Device>, trace: seq<System>, events: seq<Event>, n: nat, i: nat)
    returns (r: nat)
    requires Happens(l, devices, trace, events) && n < |trace| && i < |trace[n].grants|
    ensures r < n && |trace[r].grants| == i && i < |trace[r + 1].grants| && trace[r + 1].grants[i] == trace[n].grants[i]
  {
    assert Takes(l, trace[n - 1], events[n - 1], trace[n]);
    GrantsGrow(l, trace[n - 1], events[n - 1]);
    if i < |trace[n - 1].grants| {
      assert trace[n].grants[i] == trace[n - 1].grants[i];
      r := GrantedAt(l, devices, trace, events, n - 1, i);
    } else {
      r := n - 1;
    }
  }

  /** What a grant says, in terms of the proof it answers. */
  predicate Answers(l: Limits, g: Grant, proof: Proof, now: int, sessionId: string) {
    && g.challenge.id == proof.challengeId && g.deviceId == proof.deviceId && g.userSessionId == proof.userSessionId
    && g.sessionId == sessionId && g.backendId == l.backendId && g.expiresAt == now + l.sessionLifetime
  }

  /** Main result.  Behind every grant stands one attempt that loaded its challenge, whose proof was then found
      valid, that then consumed the challenge and only then rotated the session; and the grant says what that
      proof says, for the epoch after the one the device had when the proof was checked. */
  lemma GrantStory(l: Limits, devices: map<string, Device>, trace: seq<System>, events: seq<Event>, n: nat, i: nat)
    returns (p: nat, h: nat, j: nat, m: nat, r: nat)
    requires Happens(l, devices, trace, events) && n < |trace| && i < |trace[n].grants|
    ensures h < j < m < r < n && |trace[r].grants| == i && |trace[r + 1].grants| == i + 1
    ensures events[h].Load? && events[h].attempt == p && events[j] == Check(p, true) && events[m] == Consume(p)
    ensures events[r].RotateFor? && events[r].attempt == p
    ensures var g, proof := trace[n].grants[i], events[h].proof;
            && Answers(l, g, proof, events[h].now, events[r].sessionId)
            && proof.challengeId in trace[h].challenges && trace[h].challenges[proof.challengeId] == g.challenge
            && g.challenge.id in trace[m].challenges && g.challenge.id !in trace[m + 1].challenges
            && g.deviceId in trace[j].authority.devices && g.deviceId in trace[r].authority.devices
            && trace[j].authority.devices[g.deviceId].actorId == g.actorId
            && g.epoch == trace[j].authority.devices[g.deviceId].epoch + 1 == trace[r].authority.devices[g.deviceId].epoch + 1
  {
    r := GrantedAt(l, devices, trace, events, n, i);
    assert Takes(l, trace[r], events[r], trace[r + 1]);
    GrantsGrow(l, trace[r], events[r]);
    p := events[r].attempt;
    h, j, m := ConsumedStory(l, devices, trace, events, r, p);
    HappensIsRun(l, devices, trace, events);
    RunKeeps(l, devices, trace, h);
  }

  lemma ClosedNext(l: Limits, devices: map<string, Device>, trace: seq<System>, events: seq<Event>, p: nat, n: nat)
    requires Happens(l, devices, trace, events) && n < |events| && p in trace[n].attempts && trace[n].attempts[p].Closed?
    ensures p in trace[n + 1].attempts && trace[n + 1].attempts[p].Closed?
  {
    assert Takes(l, trace[n], events[n], trace[n + 1]);
    ClosedStays(l, trace[n], events[n], p);
  }

  lemma {:induction false} StaysClosed(l: Limits, devices: map<string, Device>, trace: seq<System>, events: seq<Event>, p: nat, k: nat, n: nat)
    requires Happens(l, devices, trace, events) && k <= n < |trace| && p in trace[k].attempts && trace[k].attempts[p].Closed?
    ensures p in trace[n].attempts && trace[n].attempts[p].Closed?
  {
    if k < n {
      StaysClosed(l, devices, trace, events, p, k, n - 1);
      ClosedNext(l, devices, trace, events, p, n - 1);
    }
  }

  lemma InvalidCheckCloses(l: Limits, s: System, p: nat)
    requires Enabled(s, Check(p, false))
    ensures p in Step(l, s, Check(p, false)).attempts && Step(l, s, Check(p, false)).attempts[p].Closed?
  {
  }

  lemma NeverReloaded(l: Limits, s: System, e: Event, s': System, p: nat)
    requires Takes(l, s, e, s') && p in s.attempts && !s.attempts[p].Loaded?
    ensures p in s'.attempts && !s'.attempts[p].Loaded?
  {
  }

  lemma NotLoadedNext(l: Limits, devices: map<string, Device>, trace: seq<System>, events: seq<Event>, p: nat, n: nat)
    requires Happens(l, devices, trace, events) && n < |events| && p in trace[n].attempts && !trace[n].attempts[p].Loaded?
    ensures p in trace[n + 1].attempts && !trace[n + 1].attempts[p].Loaded?
  {
    assert Takes(l, trace[n], events[n], trace[n + 1]);
    NeverReloaded(l, trace[n], events[n], trace[n + 1], p);
  }

  /** Once past loading, an attempt can never be loaded again. */
  lemma {:induction false} NotLoadedAgain(l: Limits, devices: map<string, Device>, trace: seq<System>, events: seq<Event>, p: nat, k: nat, n: nat)
    requires Happens(l, devices, trace, events) && k <= n < |trace| && p in trace[k].attempts && !trace[k].attempts[p].Loaded?
    ensures p in trace[n].attempts && !trace[n].attempts[p].Loaded?
  {
    if k < n {
      NotLoadedAgain(l, devices, trace, events, p, k, n - 1);
      NotLoadedNext(l, devices, trace, events, p, n - 1);
    }
  }

  lemma CheckLeavesLoaded(l: Limits, s: System, p: nat, valid: bool)
    requires Enabled(s, Check(p, valid))
    ensures p in Step(l, s, Check(p, valid)).attempts && !Step(l, s, Check(p, valid)).attempts[p].Loaded?
  {
  }

  /** The proof of an attempt is checked once. */
  lemma CheckedOnce(l: Limits, devices: map<string, Device>, trace: seq<System>, events: seq<Event>, p: nat, j: nat, k: nat)
    requires Happens(l, devices, trace, events) && j < k < |events| && events[j].Check? && events[j].attempt == p
    ensures events[k].Check? ==> events[k].attempt != p
  {
    assert Takes(l, trace[j], events[j], trace[j + 1]);
    CheckLeavesLoaded(l, trace[j], p, events[j].proofValid);
    NotLoadedAgain(l, devices, trace, events, p, j + 1, k);
    assert Takes(l, trace[k], events[k], trace[k + 1]);
  }

  /** An attempt whose proof was found invalid is closed from then on, and no grant of the run is its. */
  lemma InvalidProofNeverGrants(l: Limits, devices: map<string, Device>, trace: seq<System>, events: seq<Event>, k: nat, p: nat, n: nat,
                                i: nat) returns (q: nat, r: nat)
    requires Happens(l, devices, trace, events) && k < |events| && events[k] == Check(p, false) && k < n < |trace|
    requires i < |trace[n].grants|
    ensures p in trace[n].attempts && trace[n].attempts[p].Closed?
    ensures r < n && |trace[r].grants| == i && |trace[r + 1].grants| == i + 1
    ensures events[r].RotateFor? && events[r].attempt == q && q != p
  {
    assert Takes(l, trace[k], events[k], trace[k + 1]);
    InvalidCheckCloses(l, trace[k], p);
    StaysClosed(l, devices, trace, events, p, k + 1, n);
    var h, j, m;
    q, h, j, m, r := GrantStory(l, devices, trace, events, n, i);
    if q == p {
      if j < k { CheckedOnce(l, devices, trace, events, p, j, k); }
      if k < j { CheckedOnce(l, devices, trace, events, p, k, j); }
      assert false;
    }
  }

  // ---- challenges are for active devices ----------------------------------------------------------------------

  predicate ForActive(l: Limits, s: System, id: string)
    requires id in s.challenges
  {
    var c := s.challenges[id];
    && c.expiresAt == c.issuedAt + l.challengeLifetime && c.backendId == l.backendId
    && c.deviceId in s.authority.devices && s.authority.devices[c.deviceId].status.DeviceActive?
    && s.authority.devices[c.deviceId].actorId == c.actorId
  }

  lemma StepForActive(l: Limits, s: System, e: Event)
    requires Enabled(s, e) && forall id :: id in s.challenges ==> ForActive(l, s, id)
    ensures forall id :: id in Step(l, s, e).challenges ==> ForActive(l, Step(l, s, e), id)
  {
    var s' := Step(l, s, e);
    forall id | id in s'.challenges ensures ForActive(l, s', id) {
      if id in s.challenges { assert ForActive(l, s, id); }
    }
  }

  /** A challenge is only ever stored for an active device, and names its actor, the time it was issued at and
      the lifetime of challenges. */
  lemma {:induction false} ChallengesForActive(l: Limits, devices: map<string, Device>, trace: seq<System>, n: nat)
    requires Run(l, devices, trace) && n < |trace|
    ensures forall id :: id in trace[n].challenges ==> ForActive(l, trace[n], id)
  {
    if n > 0 {
      ChallengesForActive(l, devices, trace, n - 1);
      var e := NextTakes(l, trace[n - 1], trace[n]);
      StepForActive(l, trace[n - 1], e);
    }
  }

  // ---- what lets an attempt pass each stage ------------------------------------------------------------------------

  /** The store has room for another challenge of the device. */
  predicate Room(l: Limits, s: System, id: string, deviceId: string, now: int) {
    && id !in SessionAuthority.Live(s.challenges, now)
    && |SessionAuthority.Live(s.challenges, now)| < l.maxRecords
    && |OfDevice(SessionAuthority.Live(s.challenges, now), deviceId)| < l.maxPerDevice
  }

  /** A challenge is stored exactly for an active device while there is room; every challenge that has expired is
      forgotten and every other one kept. */
  lemma IssuedExactly(l: Limits, s: System, id: string, nonce: string, deviceId: string, now: int)
    requires Enabled(s, Issue(id, nonce, deviceId, now)) && id !in s.challenges
    ensures var s', active := Step(l, s, Issue(id, nonce, deviceId, now)),
                              deviceId in s.authority.devices && s.authority.devices[deviceId].status.DeviceActive?;
            && (id in s'.challenges <==> active && Room(l, s, id, deviceId, now))
            && (id in s'.issued <==> id in s'.challenges)
            && (active ==> forall k :: k in s.challenges ==>
                  && (k in s'.challenges <==> s.challenges[k].expiresAt > now)
                  && (k in s'.challenges ==> s'.challenges[k] == s.challenges[k]))
            && s'.authority == s.authority && s'.attempts == s.attempts && s'.grants == s.grants
  {
  }

  /** An attempt gets past loading exactly with a stored challenge of its device and this backend that is live, past
      the check exactly with a valid proof of an active device of the same actor, and past the consumption exactly
      if the challenge is still there. */
  lemma StagesExactly(l: Limits, s: System, p: nat, proof: Proof, now: int, valid: bool)
    ensures Enabled(s, Load(p, proof, now)) ==>
              (p in Step(l, s, Load(p, proof, now)).attempts <==>
                 proof.challengeId in s.challenges && LoadedFor(l, s.challenges[proof.challengeId], proof.deviceId, now))
    ensures Enabled(s, Check(p, valid)) ==>
              var a := s.attempts[p];
              (Step(l, s, Check(p, valid)).attempts[p].Checked? <==>
                 && valid && a.proof.deviceId in s.authority.devices && s.authority.devices[a.proof.deviceId].status.DeviceActive?
                 && s.authority.devices[a.proof.deviceId].actorId == a.challenge.actorId)
    ensures Enabled(s, Consume(p)) ==>
              var c := s.attempts[p].challenge;
              (Step(l, s, Consume(p)).attempts[p].Consumed? <==> c.id in s.challenges && s.challenges[c.id].nonce == c.nonce)
  {
  }

  // ---- only granted claims pass -----------------------------------------------------------------------------------

  /** The session on record for each device is that of the device's latest grant. */
  ghost predicate ActiveGranted(s: System) {
    forall d :: d in s.authority.activeByDevice ==> exists i :: 0 <= i < |s.grants| && LatestOf(s, d, i)
  }

  predicate LatestOf(s: System, d: string, i: nat)
    requires i < |s.grants|
  {
    d in s.authority.activeByDevice && s.grants[i].sessionId == s.authority.activeByDevice[d]
    && s.grants[i].deviceId == d && !Superseded(s.grants, i)
  }

  lemma LatestStays(s: System, s': System, d: string, i: nat)
    requires d in s.authority.activeByDevice && i < |s.grants| && LatestOf(s, d, i)
    requires d in s'.authority.activeByDevice && s'.authority.activeByDevice[d] == s.authority.activeByDevice[d]
    requires s.grants <= s'.grants && forall j :: |s.grants| <= j < |s'.grants| ==> s'.grants[j].deviceId != d
    ensures LatestOf(s', d, i)
  {
    forall j | i < j < |s'.grants| ensures s'.grants[j].deviceId != d {
      if j < |s.grants| { assert s'.grants[j] == s.grants[j]; }
    }
  }

  lemma QuietGrants(l: Limits, s: System, e: Event)
    requires Enabled(s, e) && !e.RotateFor?
    ensures Step(l, s, e).grants == s.grants && Step(l, s, e).authority == s.authority
  {
  }

  lemma RotatedGrants(l: Limits, s: System, p: nat, sessionId: string)
    requires Enabled(s, RotateFor(p, sessionId))
    ensures var s', r := Step(l, s, RotateFor(p, sessionId)), RotationOf(l, s.attempts[p]);
            && s.grants <= s'.grants
            && (RotationAllowed(s.authority, r) ==>
                  && |s'.grants| == |s.grants| + 1 && s'.grants[|s.grants|].deviceId == r.deviceId
                  && s'.grants[|s.grants|].sessionId == sessionId
                  && s'.authority.activeByDevice == s.authority.activeByDevice[r.deviceId := sessionId])
            && (!RotationAllowed(s.authority, r) ==>
                  s'.grants == s.grants && s'.authority.activeByDevice == s.authority.activeByDevice)
  {
  }

  lemma RotationGranted(l: Limits, s: System, p: nat, sessionId: string)
    requires Enabled(s, RotateFor(p, sessionId)) && ActiveGranted(s)
    ensures ActiveGranted(Step(l, s, RotateFor(p, sessionId)))
  {
    RotatedGrants(l, s, p, sessionId);
    var s', r := Step(l, s, RotateFor(p, sessionId)), RotationOf(l, s.attempts[p]);
    forall d | d in s'.authority.activeByDevice ensures exists i :: 0 <= i < |s'.grants| && LatestOf(s', d, i) {
      if RotationAllowed(s.authority, r) && d == r.deviceId {
        assert LatestOf(s', d, |s.grants|);
      } else {
        var i :| 0 <= i < |s.grants| && LatestOf(s, d, i);
        LatestStays(s, s', d, i);
      }
    }
  }

  lemma ActiveGrantedNext(l: Limits, s: System, s': System)
    requires Next(l, s, s') && ActiveGranted(s)
    ensures ActiveGranted(s')
  {
    var e := NextTakes(l, s, s');
    if e.RotateFor? {
      RotationGranted(l, s, e.attempt, e.sessionId);
    } else {
      QuietGrants(l, s, e);
      forall d | d in s'.authority.activeByDevice ensures exists i :: 0 <= i < |s'.grants| && LatestOf(s', d, i) {
        var i :| 0 <= i < |s.grants| && LatestOf(s, d, i);
        assert LatestOf(s', d, i);
      }
    }
  }

  lemma {:induction false} RunActiveGranted(l: Limits, devices: map<string, Device>, trace: seq<System>, k: nat)
    requires Run(l, devices, trace) && k < |trace|
    ensures ActiveGranted(trace[k])
  {
    if k > 0 {
      RunActiveGranted(l, devices, trace, k - 1);
      ActiveGrantedNext(l, trace[k - 1], trace[k]);
    }
  }

  /** The claims say what the grant says, in everything the session has on record. */
  predicate ClaimsOf(claims: Grant, g: Grant) {
    && claims.deviceId == g.deviceId && claims.sessionId == g.sessionId && claims.actorId == g.actorId && claims.epoch == g.epoch
    && (g.userSessionId != "" ==> claims.userSessionId == g.userSessionId)
    && (g.backendId != "" ==> claims.backendId == g.backendId)
  }

  lemma ValidClaims(s: System, claims: Grant) returns (i: nat)
    requires SessionsFine(s) && ActiveGranted(s) && ValidateRecords(s.authority, claims)
    ensures i < |s.grants| && !Superseded(s.grants, i) && ClaimsOf(claims, s.grants[i])
  {
    assert SessionFine(s.authority, claims.sessionId);
    i :| 0 <= i < |s.grants| && LatestOf(s, claims.deviceId, i);
    assert LatestFine(s.authority, s.grants[i]);
  }

  lemma LatestValid(s: System, claims: Grant, i: nat)
    requires SessionsFine(s) && i < |s.grants| && !Superseded(s.grants, i) && ClaimsOf(claims, s.grants[i])
    ensures ValidateRecords(s.authority, claims)
  {
    assert LatestFine(s.authority, s.grants[i]) && GrantFine(s.authority, s.grants[i]);
    assert ActiveFine(s.authority, claims.deviceId);
  }

  /** Whatever claims a request carries, they pass the checks on device and session exactly if they say what the
      latest grant of their device says. */
  lemma OnlyGrantedClaimsPass(l: Limits, devices: map<string, Device>, trace: seq<System>, k: nat, claims: Grant)
    requires Run(l, devices, trace) && k < |trace|
    ensures ValidateRecords(trace[k].authority, claims)
       <==> exists i :: 0 <= i < |trace[k].grants| && !Superseded(trace[k].grants, i) && ClaimsOf(claims, trace[k].grants[i])
  {
    RunKeeps(l, devices, trace, k);
    RunActiveGranted(l, devices, trace, k);
    if ValidateRecords(trace[k].authority, claims) {
      var i := ValidClaims(trace[k], claims);
    }
    if i :| 0 <= i < |trace[k].grants| && !Superseded(trace[k].grants, i) && ClaimsOf(claims, trace[k].grants[i]) {
      LatestValid(trace[k], claims, i);
    }
  }

  // ---- what a rotation keeps ---------------------------------------------------------------------------------------

  /** A rotation drops exactly the sessions that are over, revokes exactly the active session of its device when it
      is allowed, and leaves every other session, device and record of an active session alone. */
  lemma RotationKeeps(a: Authority, r: Rotation, sessionId: string)
    requires AuthorityFine(a) && sessionId !in a.sessions
    ensures var a' := Rotate(a, r, sessionId);
            && (forall id :: id in a.sessions ==>
                  && (id in a'.sessions <==> a.sessions[id].status.SessionActive? || a.sessions[id].expiresAt > r.issuedAt)
                  && (id in a'.sessions ==>
                        a'.sessions[id] == if RotationAllowed(a, r) && a.sessions[id].status.SessionActive? && a.sessions[id].deviceId == r.deviceId
                                           then a.sessions[id].(status := SessionRevoked) else a.sessions[id]))
            && (sessionId in a'.sessions <==> RotationAllowed(a, r))
            && (forall d :: d in a.devices && d != r.deviceId ==> d in a'.devices && a'.devices[d] == a.devices[d])
            && (forall d :: d in a.activeByDevice && d != r.deviceId ==> d in a'.activeByDevice && a'.activeByDevice[d] == a.activeByDevice[d])
            && (!RotationAllowed(a, r) ==> a'.devices == a.devices && a'.activeByDevice == a.activeByDevice)
  {
    if r.deviceId in a.activeByDevice { assert ActiveFine(a, r.deviceId); }
    forall id | id in a.sessions ensures SessionFine(a, id) {}
  }

  // ---- an honest establishment succeeds ---------------------------------------------------------------------------

  /** The grant is the newest one and carries the next epoch of its device. */
  predicate Granted(l: Limits, s: System, s': System, proof: Proof, c: Challenge, now: int, sessionId: string)
    requires c.deviceId in s.authority.devices
  {
    var device := s.authority.devices[c.deviceId];
    && s'.grants == s.grants + [Grant(c, sessionId, c.deviceId, c.actorId, proof.userSessionId, l.backendId,
                                      device.epoch + 1, now + l.sessionLifetime)]
    && s'.authority.devices == s.authority.devices[c.deviceId := device.(epoch := device.epoch + 1)]
  }

  /** From any state of a run: an active device that gets a challenge, answers it in time with a valid proof and
      is not overtaken gets the next epoch, and the grant is the newest. */
  lemma HonestAttemptSucceeds(l: Limits, s: System, p: nat, c: Challenge, proof: Proof, now: int, sessionId: string)
    returns (issued: System, loaded: System, checked: System, consumed: System, granted: System)
    requires AuthorityFine(s.authority) && c.id !in s.issued && p !in s.attempts && sessionId !in s.sessionIds
    requires c.deviceId in s.authority.devices && s.authority.devices[c.deviceId].status.DeviceActive?
    requires c == Challenge(c.id, c.nonce, l.backendId, c.deviceId, s.authority.devices[c.deviceId].actorId, c.issuedAt,
                            c.issuedAt + l.challengeLifetime)
    requires Room(l, s, c.id, c.deviceId, c.issuedAt) && c.issuedAt <= now < c.expiresAt
    requires proof.challengeId == c.id && proof.deviceId == c.deviceId
    ensures Takes(l, s, Issue(c.id, c.nonce, c.deviceId, c.issuedAt), issued)
    ensures Takes(l, issued, Load(p, proof, now), loaded)
    ensures Takes(l, loaded, Check(p, true), checked)
    ensures Takes(l, checked, Consume(p), consumed)
    ensures Takes(l, consumed, RotateFor(p, sessionId), granted)
    ensures Granted(l, s, granted, proof, c, now, sessionId)
  {
    var device := s.authority.devices[c.deviceId];
    issued := HonestIssue(l, s, c);
    loaded := HonestLoad(l, issued, p, proof, c, now);
    checked := HonestCheck(l, loaded, p, proof, c, now);
    consumed := HonestConsume(l, checked, p, proof, c, now, device);
    granted := HonestRotation(l, s, consumed, p, proof, c, now, sessionId);
  }

  lemma HonestIssue(l: Limits, s: System, c: Challenge) returns (s': System)
    requires c.id !in s.issued && Room(l, s, c.id, c.deviceId, c.issuedAt)
    requires c.deviceId in s.authority.devices && s.authority.devices[c.deviceId].status.DeviceActive?
    requires c == Challenge(c.id, c.nonce, l.backendId, c.deviceId, s.authority.devices[c.deviceId].actorId, c.issuedAt,
                            c.issuedAt + l.challengeLifetime)
    ensures Takes(l, s, Issue(c.id, c.nonce, c.deviceId, c.issuedAt), s')
    ensures c.id in s'.challenges && s'.challenges[c.id] == c
    ensures s'.authority == s.authority && s'.attempts == s.attempts && s'.grants == s.grants && s'.sessionIds == s.sessionIds
  {
    s' := Step(l, s, Issue(c.id, c.nonce, c.deviceId, c.issuedAt));
  }

  lemma HonestLoad(l: Limits, s: System, p: nat, proof: Proof, c: Challenge, now: int) returns (s': System)
    requires p !in s.attempts && proof.challengeId == c.id && c.id in s.challenges && s.challenges[c.id] == c
    requires c.issuedAt <= now < c.expiresAt && c.deviceId == proof.deviceId && c.backendId == l.backendId
    ensures Takes(l, s, Load(p, proof, now), s')
    ensures s' == s.(attempts := s.attempts[p := Loaded(proof, c, now)])
  {
    s' := Step(l, s, Load(p, proof, now));
  }

  lemma HonestCheck(l: Limits, s: System, p: nat, proof: Proof, c: Challenge, now: int) returns (s': System)
    requires p in s.attempts && s.attempts[p] == Loaded(proof, c, now) && proof.deviceId in s.authority.devices
    requires s.authority.devices[proof.deviceId].status.DeviceActive? && s.authority.devices[proof.deviceId].actorId == c.actorId
    ensures Takes(l, s, Check(p, true), s')
    ensures s' == s.(attempts := s.attempts[p := Checked(proof, c, now, s.authority.devices[proof.deviceId])])
  {
    s' := Step(l, s, Check(p, true));
  }

  lemma HonestConsume(l: Limits, s: System, p: nat, proof: Proof, c: Challenge, now: int, device: Device) returns (s': System)
    requires p in s.attempts && s.attempts[p] == Checked(proof, c, now, device) && c.id in s.challenges && s.challenges[c.id] == c
    ensures Takes(l, s, Consume(p), s')
    ensures s' == s.(challenges := s.challenges - {c.id}, attempts := s.attempts[p := Consumed(proof, c, now, device)])
  {
    s' := Step(l, s, Consume(p));
  }

  lemma HonestRotation(l: Limits, before: System, s: System, p: nat, proof: Proof, c: Challenge, now: int, sessionId: string)
    returns (s': System)
    requires c.deviceId in before.authority.devices && before.authority.devices[c.deviceId].status.DeviceActive?
    requires AuthorityFine(s.authority) && s.authority == before.authority && s.grants == before.grants && sessionId !in s.sessionIds
    requires p in s.attempts && s.attempts[p] == Consumed(proof, c, now, before.authority.devices[c.deviceId])
    requires proof.deviceId == c.deviceId && before.authority.devices[c.deviceId].actorId == c.actorId
    ensures Takes(l, s, RotateFor(p, sessionId), s')
    ensures Granted(l, before, s', proof, c, now, sessionId)
  {
    s' := Step(l, s, RotateFor(p, sessionId));
  }
}
