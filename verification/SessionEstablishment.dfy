/** Concurrent session establishments: every interleaving of their atomic steps. */
module SessionEstablishment {
  import opened Collections
  import opened SessionAuthority

  /** One establishment between two awaits: after loading its challenge, after reading its device and
      checking the proof, and after consuming the challenge. */
  datatype Attempt =
    | Loaded(proof: Proof, challenge: Challenge, now: int)
    | Checked(proof: Proof, challenge: Challenge, now: int, device: Device)
    | Consumed(proof: Proof, challenge: Challenge, now: int, device: Device)
    | Closed

  /** What the desktop receives: the session with the claims of its token. */
  datatype Grant = Grant(
    challenge: Challenge, sessionId: string, deviceId: string, actorId: string, userSessionId: string, backendId: string,
    epoch: nat, expiresAt: int)

  /** The stores with the attempts under way, and the history of issued identifiers and grants. */
  datatype System = System(
    challenges: map<string, Challenge>, authority: Authority, attempts: map<nat, Attempt>, grants: seq<Grant>,
    issued: set<string>, sessionIds: set<string>)

  datatype Limits = Limits(backendId: string, maxRecords: nat, maxPerDevice: nat, challengeLifetime: int, sessionLifetime: int)

  datatype Event =
    | Issue(id: string, nonce: string, deviceId: string, now: int)
    | Load(attempt: nat, proof: Proof, now: int)
    | Check(attempt: nat, proofValid: bool)
    | Consume(attempt: nat)
    | RotateFor(attempt: nat, sessionId: string)

  function IssueStep(l: Limits, s: System, id: string, nonce: string, deviceId: string, now: int): System {
    if deviceId !in s.authority.devices || !s.authority.devices[deviceId].status.DeviceActive? then s
    else
      var c := Challenge(id, nonce, l.backendId, deviceId, s.authority.devices[deviceId].actorId, now, now + l.challengeLifetime);
      var live := Live(s.challenges, now);
      if IssueAllowed(s.challenges, c, now, l.maxRecords, l.maxPerDevice)
      then s.(challenges := live[id := c], issued := s.issued + {id})
      else s.(challenges := live)
  }

  function LoadStep(l: Limits, s: System, attempt: nat, proof: Proof, now: int): System {
    if proof.challengeId !in s.challenges then s
    else
      var c := s.challenges[proof.challengeId];
      if !(c.issuedAt <= now < c.expiresAt) || c.deviceId != proof.deviceId || c.backendId != l.backendId then s
      else s.(attempts := s.attempts[attempt := Loaded(proof, c, now)])
  }

  function CheckStep(s: System, attempt: nat, proofValid: bool): System
    requires attempt in s.attempts && s.attempts[attempt].Loaded?
  {
    var a := s.attempts[attempt];
    var devices := s.authority.devices;
    if a.proof.deviceId !in devices || !devices[a.proof.deviceId].status.DeviceActive?
       || devices[a.proof.deviceId].actorId != a.challenge.actorId || !proofValid
    then s.(attempts := s.attempts[attempt := Closed])
    else s.(attempts := s.attempts[attempt := Checked(a.proof, a.challenge, a.now, devices[a.proof.deviceId])])
  }

  function ConsumeStep(s: System, attempt: nat): System
    requires attempt in s.attempts && s.attempts[attempt].Checked?
  {
    var a := s.attempts[attempt];
    if !ConsumeAllowed(s.challenges, a.challenge.id, a.challenge.nonce) then s.(attempts := s.attempts[attempt := Closed])
    else s.(challenges := s.challenges - {a.challenge.id},
            attempts := s.attempts[attempt := Consumed(a.proof, a.challenge, a.now, a.device)])
  }

  function RotationOf(l: Limits, a: Attempt): Rotation
    requires a.Consumed?
  {
    Rotation(a.proof.deviceId, a.device.actorId, a.device.epoch, a.proof.userSessionId, l.backendId, a.now, a.now + l.sessionLifetime)
  }

  function GrantOf(a: Attempt, session: Session): Grant
    requires a.Consumed?
  {
    Grant(a.challenge, session.id, session.deviceId, session.actorId, session.userSessionId, session.backendId, session.epoch,
          session.expiresAt)
  }

  function RotateStep(l: Limits, s: System, attempt: nat, sessionId: string): System
    requires AuthorityFine(s.authority) && attempt in s.attempts && s.attempts[attempt].Consumed?
  {
    var a := s.attempts[attempt];
    var r := RotationOf(l, a);
    var rotated := s.(authority := Rotate(s.authority, r, sessionId), attempts := s.attempts[attempt := Closed]);
    if RotationAllowed(s.authority, r)
    then rotated.(grants := s.grants + [GrantOf(a, NewSession(r, sessionId))], sessionIds := s.sessionIds + {sessionId})
    else rotated
  }

  /** When an event can happen: attempts run their steps in order, and new identifiers are unused. */
  predicate Enabled(s: System, e: Event) {
    match e
    case Issue(id, _, _, _) => id !in s.issued
    case Load(attempt, _, _) => attempt !in s.attempts
    case Check(attempt, _) => attempt in s.attempts && s.attempts[attempt].Loaded?
    case Consume(attempt) => attempt in s.attempts && s.attempts[attempt].Checked?
    case RotateFor(attempt, sessionId) =>
      AuthorityFine(s.authority) && attempt in s.attempts && s.attempts[attempt].Consumed? && sessionId !in s.sessionIds
  }

  function Step(l: Limits, s: System, e: Event): System
    requires Enabled(s, e)
  {
    match e
    case Issue(id, nonce, deviceId, now) => IssueStep(l, s, id, nonce, deviceId, now)
    case Load(attempt, proof, now) => LoadStep(l, s, attempt, proof, now)
    case Check(attempt, valid) => CheckStep(s, attempt, valid)
    case Consume(attempt) => ConsumeStep(s, attempt)
    case RotateFor(attempt, sessionId) => RotateStep(l, s, attempt, sessionId)
  }

  function Start(devices: map<string, Device>): System {
    System(map[], Authority(devices, map[], map[]), map[], [], {}, {})
  }

  ghost predicate Next(l: Limits, s: System, s': System) {
    exists e :: Enabled(s, e) && Step(l, s, e) == s'
  }

  ghost predicate Run(l: Limits, devices: map<string, Device>, trace: seq<System>) {
    && trace != [] && trace[0] == Start(devices)
    && forall i :: 0 < i < |trace| ==> Next(l, trace[i - 1], trace[i])
  }

  // ---- challenges are used once ---------------------------------------------------------------------

  predicate Spent(s: System, attempt: nat) {
    attempt in s.attempts && s.attempts[attempt].Consumed?
  }

  /** Stored, consumed and granted challenges are disjoint, and each is held once. */
  ghost predicate ChallengesFine(s: System) {
    && (forall id :: id in s.challenges ==> s.challenges[id].id == id && id in s.issued)
    && (forall p :: Spent(s, p) ==> s.attempts[p].challenge.id in s.issued - s.challenges.Keys)
    && (forall p, q :: Spent(s, p) && Spent(s, q) && p != q ==> s.attempts[p].challenge.id != s.attempts[q].challenge.id)
    && (forall i :: 0 <= i < |s.grants| ==> s.grants[i].challenge.id in s.issued - s.challenges.Keys)
    && (forall i, p :: 0 <= i < |s.grants| && Spent(s, p) ==> s.grants[i].challenge.id != s.attempts[p].challenge.id)
    && (forall i, j :: 0 <= i < j < |s.grants| ==> s.grants[i].challenge.id != s.grants[j].challenge.id)
  }

  lemma IssueKeepsChallenges(l: Limits, s: System, id: string, nonce: string, deviceId: string, now: int)
    requires ChallengesFine(s) && id !in s.issued
    ensures ChallengesFine(IssueStep(l, s, id, nonce, deviceId, now))
  {
    var s' := IssueStep(l, s, id, nonce, deviceId, now);
    assert forall p :: Spent(s', p) <==> Spent(s, p);
  }

  lemma LoadKeepsChallenges(l: Limits, s: System, attempt: nat, proof: Proof, now: int)
    requires ChallengesFine(s) && attempt !in s.attempts
    ensures ChallengesFine(LoadStep(l, s, attempt, proof, now))
  {
    assert forall p :: Spent(LoadStep(l, s, attempt, proof, now), p) <==> Spent(s, p);
  }

  lemma CheckKeepsChallenges(s: System, attempt: nat, valid: bool)
    requires ChallengesFine(s) && attempt in s.attempts && s.attempts[attempt].Loaded?
    ensures ChallengesFine(CheckStep(s, attempt, valid))
  {
    assert forall p :: Spent(CheckStep(s, attempt, valid), p) <==> Spent(s, p);
  }

  lemma ConsumeKeepsChallenges(s: System, attempt: nat)
    requires ChallengesFine(s) && attempt in s.attempts && s.attempts[attempt].Checked?
    ensures ChallengesFine(ConsumeStep(s, attempt))
  {
    var s' := ConsumeStep(s, attempt);
    assert forall p :: p != attempt ==> (Spent(s', p) <==> Spent(s, p));
    assert forall p :: p != attempt && Spent(s, p) ==> s'.attempts[p] == s.attempts[p];
  }

  lemma RotateKeepsChallenges(l: Limits, s: System, attempt: nat, sessionId: string)
    requires ChallengesFine(s) && AuthorityFine(s.authority) && Spent(s, attempt)
    ensures ChallengesFine(RotateStep(l, s, attempt, sessionId))
  {
    var s' := RotateStep(l, s, attempt, sessionId);
    assert forall p :: Spent(s', p) <==> Spent(s, p) && p != attempt;
    assert forall p :: Spent(s', p) ==> s'.attempts[p] == s.attempts[p];
  }

  lemma ChallengesKept(l: Limits, s: System, e: Event)
    requires ChallengesFine(s) && Enabled(s, e)
    ensures ChallengesFine(Step(l, s, e))
  {
    match e
    case Issue(id, nonce, deviceId, now) => IssueKeepsChallenges(l, s, id, nonce, deviceId, now);
    case Load(attempt, proof, now) => LoadKeepsChallenges(l, s, attempt, proof, now);
    case Check(attempt, valid) => CheckKeepsChallenges(s, attempt, valid);
    case Consume(attempt) => ConsumeKeepsChallenges(s, attempt);
    case RotateFor(attempt, sessionId) => RotateKeepsChallenges(l, s, attempt, sessionId);
  }

  // ---- epochs are granted once ------------------------------------------------------------------------

  predicate GrantFine(a: Authority, g: Grant) {
    && g.deviceId in a.devices && a.devices[g.deviceId].status.DeviceActive? && a.devices[g.deviceId].actorId == g.actorId
    && g.epoch <= a.devices[g.deviceId].epoch
  }

  /** A later grant supersedes this one. */
  predicate Superseded(grants: seq<Grant>, i: nat)
    requires i < |grants|
  {
    exists j :: i < j < |grants| && grants[j].deviceId == grants[i].deviceId
  }

  /** The latest grant of a device is its active session, claim by claim. */
  predicate LatestFine(a: Authority, g: Grant) {
    && g.deviceId in a.activeByDevice && a.activeByDevice[g.deviceId] == g.sessionId && g.sessionId in a.sessions
    && a.sessions[g.sessionId] == Session(g.sessionId, g.deviceId, g.actorId, SessionActive, g.epoch, g.expiresAt,
                                          g.userSessionId, g.backendId)
  }

  predicate GrantsFine(s: System) {
    && (forall id :: id in s.authority.sessions ==> id in s.sessionIds)
    && (forall i :: 0 <= i < |s.grants| ==> GrantFine(s.authority, s.grants[i]) && s.grants[i].sessionId in s.sessionIds)
    && (forall i, j :: 0 <= i < j < |s.grants| && s.grants[i].deviceId == s.grants[j].deviceId ==>
          s.grants[i].epoch < s.grants[j].epoch)
    && (forall i :: 0 <= i < |s.grants| && !Superseded(s.grants, i) ==> LatestFine(s.authority, s.grants[i]))
  }

  predicate SessionsFine(s: System) {
    AuthorityFine(s.authority) && GrantsFine(s)
  }

  lemma RotateGrantsOld(s: System, r: Rotation, sessionId: string, g: Grant)
    requires AuthorityFine(s.authority) && sessionId !in s.sessionIds && GrantFine(s.authority, g)
    ensures GrantFine(Rotate(s.authority, r, sessionId), g)
    ensures RotationAllowed(s.authority, r) && g.deviceId == r.deviceId ==> g.epoch < r.expectedEpoch + 1
  {
  }

  lemma RotateKeepsLatest(a: Authority, r: Rotation, sessionId: string, g: Grant)
    requires AuthorityFine(a) && sessionId !in a.sessions && sessionId != g.sessionId && LatestFine(a, g)
    requires g.deviceId != r.deviceId || !RotationAllowed(a, r)
    ensures LatestFine(Rotate(a, r, sessionId), g)
  {
    assert ActiveFine(a, g.deviceId);
    if r.deviceId in a.activeByDevice { assert ActiveFine(a, r.deviceId); }
  }

  lemma RotateSessionIds(s: System, r: Rotation, sessionId: string)
    requires AuthorityFine(s.authority) && forall id :: id in s.authority.sessions ==> id in s.sessionIds
    ensures forall id :: id in Rotate(s.authority, r, sessionId).sessions ==>
              id in s.sessionIds || (id == sessionId && RotationAllowed(s.authority, r))
  {
    if r.deviceId in s.authority.activeByDevice { assert ActiveFine(s.authority, r.deviceId); }
  }

  lemma ConflictKeepsGrants(l: Limits, s: System, attempt: nat, sessionId: string)
    requires SessionsFine(s) && Spent(s, attempt) && sessionId !in s.sessionIds
    requires !RotationAllowed(s.authority, RotationOf(l, s.attempts[attempt]))
    ensures GrantsFine(RotateStep(l, s, attempt, sessionId))
  {
    var r := RotationOf(l, s.attempts[attempt]);
    RotateSessionIds(s, r, sessionId);
    forall i | 0 <= i < |s.grants| && !Superseded(s.grants, i) ensures LatestFine(Rotate(s.authority, r, sessionId), s.grants[i]) {
      RotateKeepsLatest(s.authority, r, sessionId, s.grants[i]);
    }
  }

  lemma AppendedLatest(a: Authority, r: Rotation, sessionId: string, grants: seq<Grant>, g: Grant, i: nat)
    requires AuthorityFine(a) && sessionId !in a.sessions && RotationAllowed(a, r)
    requires g.deviceId == r.deviceId
    requires LatestFine(Rotate(a, r, sessionId), g)
    requires forall k :: 0 <= k < |grants| ==> grants[k].sessionId != sessionId
    requires forall k :: 0 <= k < |grants| && !Superseded(grants, k) ==> LatestFine(a, grants[k])
    requires i < |grants + [g]| && !Superseded(grants + [g], i)
    ensures LatestFine(Rotate(a, r, sessionId), (grants + [g])[i])
  {
    var all := grants + [g];
    if i < |grants| {
      assert all[|grants|] == g;
      assert grants[i].deviceId != r.deviceId;
      forall j | i < j < |grants| ensures grants[j].deviceId != grants[i].deviceId {
        assert all[j] == grants[j];
      }
      RotateKeepsLatest(a, r, sessionId, grants[i]);
    }
  }

  lemma GrantKeepsGrants(l: Limits, s: System, attempt: nat, sessionId: string)
    requires SessionsFine(s) && Spent(s, attempt) && sessionId !in s.sessionIds
    requires RotationAllowed(s.authority, RotationOf(l, s.attempts[attempt]))
    ensures GrantsFine(RotateStep(l, s, attempt, sessionId))
  {
    var a, r := s.attempts[attempt], RotationOf(l, s.attempts[attempt]);
    var s' := RotateStep(l, s, attempt, sessionId);
    var g := GrantOf(a, NewSession(r, sessionId));
    RotateSessionIds(s, r, sessionId);
    forall i | 0 <= i < |s'.grants|
      ensures GrantFine(s'.authority, s'.grants[i]) && s'.grants[i].sessionId in s'.sessionIds
      ensures i < |s.grants| && s'.grants[i].deviceId == g.deviceId ==> s'.grants[i].epoch < g.epoch
    {
      if i < |s.grants| { RotateGrantsOld(s, r, sessionId, s.grants[i]); }
    }
    forall i | 0 <= i < |s'.grants| && !Superseded(s'.grants, i) ensures LatestFine(s'.authority, s'.grants[i]) {
      AppendedLatest(s.authority, r, sessionId, s.grants, g, i);
    }
  }

  lemma SessionsKept(l: Limits, s: System, e: Event)
    requires SessionsFine(s) && Enabled(s, e)
    ensures SessionsFine(Step(l, s, e))
  {
    if e.RotateFor? {
      RotateKeepsFine(s.authority, RotationOf(l, s.attempts[e.attempt]), e.sessionId);
      if RotationAllowed(s.authority, RotationOf(l, s.attempts[e.attempt])) {
        GrantKeepsGrants(l, s, e.attempt, e.sessionId);
      } else {
        ConflictKeepsGrants(l, s, e.attempt, e.sessionId);
      }
    }
  }

  // ---- grants are bound to their challenge ---------------------------------------------------------------

  /** The challenge was loaded for this device and backend while it was live. */
  predicate LoadedFor(l: Limits, c: Challenge, deviceId: string, now: int) {
    c.deviceId == deviceId && c.backendId == l.backendId && c.issuedAt <= now < c.expiresAt
  }

  predicate AttemptFine(l: Limits, a: Attempt) {
    a.Closed?
    || (&& LoadedFor(l, a.challenge, a.proof.deviceId, a.now)
        && (!a.Loaded? ==> a.device.actorId == a.challenge.actorId))
  }

  predicate GrantBound(l: Limits, g: Grant) {
    && LoadedFor(l, g.challenge, g.deviceId, g.expiresAt - l.sessionLifetime)
    && g.actorId == g.challenge.actorId && g.backendId == l.backendId
  }

  predicate BindingsFine(l: Limits, s: System) {
    && (forall p :: p in s.attempts ==> AttemptFine(l, s.attempts[p]))
    && (forall i :: 0 <= i < |s.grants| ==> GrantBound(l, s.grants[i]))
  }

  lemma BindingsKept(l: Limits, s: System, e: Event)
    requires BindingsFine(l, s) && Enabled(s, e)
    ensures BindingsFine(l, Step(l, s, e))
  {
    var s' := Step(l, s, e);
    forall p | p in s'.attempts ensures AttemptFine(l, s'.attempts[p]) {
      if p in s.attempts { assert AttemptFine(l, s.attempts[p]); }
    }
    if e.RotateFor? { assert AttemptFine(l, s.attempts[e.attempt]); }
  }

  // ---- the main theorems ---------------------------------------------------------------------------------

  lemma {:induction false} RunKeeps(l: Limits, devices: map<string, Device>, trace: seq<System>, i: nat)
    requires Run(l, devices, trace) && i < |trace|
    ensures ChallengesFine(trace[i]) && SessionsFine(trace[i]) && BindingsFine(l, trace[i])
  {
    if i > 0 {
      RunKeeps(l, devices, trace, i - 1);
      var e :| Enabled(trace[i - 1], e) && Step(l, trace[i - 1], e) == trace[i];
      ChallengesKept(l, trace[i - 1], e);
      SessionsKept(l, trace[i - 1], e);
      BindingsKept(l, trace[i - 1], e);
    }
  }

  /** Every grant is for the device, actor and backend of its challenge, and its lifetime starts at a moment
      when that challenge was live. */
  lemma GrantsAreBound(l: Limits, devices: map<string, Device>, trace: seq<System>, k: nat, i: nat)
    requires Run(l, devices, trace) && k < |trace| && i < |trace[k].grants|
    ensures var g := trace[k].grants[i];
            && g.deviceId == g.challenge.deviceId && g.actorId == g.challenge.actorId && g.backendId == g.challenge.backendId
            && g.challenge.issuedAt + l.sessionLifetime <= g.expiresAt < g.challenge.expiresAt + l.sessionLifetime
  {
    RunKeeps(l, devices, trace, k);
    assert GrantBound(l, trace[k].grants[i]);
  }

  /** In every interleaving no two grants share a challenge, and no two grants of a device share an epoch. */
  lemma GrantsAreUnique(l: Limits, devices: map<string, Device>, trace: seq<System>, k: nat, i: nat, j: nat)
    requires Run(l, devices, trace) && k < |trace| && i < |trace[k].grants| && j < |trace[k].grants| && i != j
    ensures trace[k].grants[i].challenge.id != trace[k].grants[j].challenge.id
    ensures trace[k].grants[i].deviceId == trace[k].grants[j].deviceId ==> trace[k].grants[i].epoch != trace[k].grants[j].epoch
  {
    RunKeeps(l, devices, trace, k);
  }

  /** In every interleaving a rotation finds the session on record, and every device has at most one active
      session, whose epoch is the device's. */
  lemma ActiveSessionsAreUnique(l: Limits, devices: map<string, Device>, trace: seq<System>, k: nat, x: string, y: string)
    requires Run(l, devices, trace) && k < |trace| && x in trace[k].authority.sessions && y in trace[k].authority.sessions
    requires trace[k].authority.sessions[x].status.SessionActive? && trace[k].authority.sessions[y].status.SessionActive?
    requires trace[k].authority.sessions[x].deviceId == trace[k].authority.sessions[y].deviceId
    ensures x == y && trace[k].authority.sessions[x].deviceId in trace[k].authority.devices
    ensures trace[k].authority.sessions[x].epoch == trace[k].authority.devices[trace[k].authority.sessions[x].deviceId].epoch
  {
    RunKeeps(l, devices, trace, k);
    assert SessionFine(trace[k].authority, x);
    OneActiveSession(trace[k].authority, x, y);
  }

  /** The identity checks on a request that carries the token of a grant. */
  predicate ValidateRecords(a: Authority, claims: Grant) {
    && claims.deviceId in a.devices && claims.sessionId in a.sessions
    && var device, session := a.devices[claims.deviceId], a.sessions[claims.sessionId];
       && device.status.DeviceActive? && session.status.SessionActive?
       && device.actorId == claims.actorId && session.actorId == claims.actorId && session.deviceId == claims.deviceId
       && session.id == claims.sessionId && device.epoch == claims.epoch && session.epoch == claims.epoch
       && (session.userSessionId != "" ==> claims.userSessionId == session.userSessionId)
       && (session.backendId != "" ==> claims.backendId == session.backendId)
  }

  /** In every interleaving a grant passes request validation exactly while it is its device's latest. */
  lemma OnlyLatestGrantPasses(l: Limits, devices: map<string, Device>, trace: seq<System>, k: nat, i: nat)
    requires Run(l, devices, trace) && k < |trace| && i < |trace[k].grants|
    ensures ValidateRecords(trace[k].authority, trace[k].grants[i]) <==> !Superseded(trace[k].grants, i)
  {
    RunKeeps(l, devices, trace, k);
    LatestPasses(trace[k], i);
  }

  lemma LatestPasses(s: System, i: nat)
    requires SessionsFine(s) && i < |s.grants|
    ensures ValidateRecords(s.authority, s.grants[i]) <==> !Superseded(s.grants, i)
  {
    var g := s.grants[i];
    assert GrantFine(s.authority, g);
    if Superseded(s.grants, i) {
      var j :| i < j < |s.grants| && s.grants[j].deviceId == g.deviceId;
      assert GrantFine(s.authority, s.grants[j]);
    } else {
      assert LatestFine(s.authority, g);
      assert ActiveFine(s.authority, g.deviceId);
    }
  }
}
