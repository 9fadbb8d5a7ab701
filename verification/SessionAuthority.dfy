/** Session establishment: one-time challenges and a compare-and-swap epoch per device. */
module SessionAuthority {
  import opened Collections

  // ---- records --------------------------------------------------------------------------------------

  datatype DeviceStatus = DeviceActive | DeviceRevoked
  datatype SessionStatus = SessionActive | SessionRevoked

  datatype Device = Device(actorId: string, status: DeviceStatus, epoch: nat)

  datatype Session = Session(
    id: string, deviceId: string, actorId: string, status: SessionStatus, epoch: nat, expiresAt: int,
    userSessionId: string, backendId: string)

  datatype Challenge = Challenge(
    id: string, nonce: string, backendId: string, deviceId: string, actorId: string, issuedAt: int, expiresAt: int)

  datatype Proof = Proof(challengeId: string, deviceId: string, userSessionId: string)

  // ---- the challenge store ---------------------------------------------------------------------------

  function Live(records: map<string, Challenge>, now: int): map<string, Challenge> {
    map id | id in records && records[id].expiresAt > now :: records[id]
  }

  function OfDevice(records: map<string, Challenge>, deviceId: string): set<string> {
    set id | id in records && records[id].deviceId == deviceId
  }

  predicate IssueAllowed(records: map<string, Challenge>, c: Challenge, now: int, maxRecords: nat, maxPerDevice: nat) {
    var live := Live(records, now);
    c.id !in live && |live| < maxRecords && |OfDevice(live, c.deviceId)| < maxPerDevice
  }

  predicate ConsumeAllowed(records: map<string, Challenge>, id: string, nonce: string) {
    id in records && records[id].nonce == nonce
  }

  ghost predicate WithinLimits(records: map<string, Challenge>, maxRecords: nat, maxPerDevice: nat) {
    && |records| <= maxRecords
    && (forall id :: id in records ==> records[id].id == id)
    && (forall d: string :: |OfDevice(records, d)| <= maxPerDevice)
  }

  /** Expired challenges are dropped even when a new one is refused. */
  class InMemorySessionChallengeStore {
    var records: map<string, Challenge>
    const maxRecords: nat
    const maxPerDevice: nat

    /** Within its limits, and keyed by challenge id. */
    ghost predicate Valid()
      reads this
    {
      WithinLimits(records, maxRecords, maxPerDevice)
    }

    constructor (maxRecords: nat, maxPerDevice: nat)
      requires 1 <= maxPerDevice <= maxRecords
      ensures Valid() && records == map[] && this.maxRecords == maxRecords && this.maxPerDevice == maxPerDevice
    {
      this.maxRecords, this.maxPerDevice, records := maxRecords, maxPerDevice, map[];
      new;
      EmptyWithinLimits(maxRecords, maxPerDevice);
    }

    method Issue(c: Challenge, now: int) returns (ok: bool)
      requires Valid()
      modifies this`records
      ensures Valid()
      ensures ok == IssueAllowed(old(records), c, now, maxRecords, maxPerDevice)
      ensures records == if ok then Live(old(records), now)[c.id := c] else Live(old(records), now)
    {
      LiveWithinLimits(records, now, maxRecords, maxPerDevice);
      records := Live(records, now);
      if c.id in records || |records| >= maxRecords || |OfDevice(records, c.deviceId)| >= maxPerDevice {
        return false;
      }
      AddedWithinLimits(records, c, maxRecords, maxPerDevice);
      records := records[c.id := c];
      ok := true;
    }

    method Load(id: string) returns (c: Option<Challenge>)
      ensures c == if id in records then Some(records[id]) else None
    {
      c := if id in records then Some(records[id]) else None;
    }

    method Consume(id: string, nonce: string) returns (ok: bool)
      requires Valid()
      modifies this`records
      ensures Valid()
      ensures ok == ConsumeAllowed(old(records), id, nonce)
      ensures records == if ok then old(records) - {id} else old(records)
    {
      if id !in records || records[id].nonce != nonce {
        return false;
      }
      RemovedWithinLimits(records, id, maxRecords, maxPerDevice);
      records := records - {id};
      ok := true;
    }
  }

  lemma SmallerDomain<K, V>(a: map<K, V>, b: map<K, V>)
    requires a.Keys <= b.Keys
    ensures |a| <= |b|
  {
    assert b.Keys == a.Keys + (b.Keys - a.Keys);
    assert |a| == |a.Keys| && |b| == |b.Keys|;
  }

  lemma SmallerSet(a: set<string>, b: set<string>)
    requires a <= b
    ensures |a| <= |b|
  {
    assert b == a + (b - a);
  }

  lemma EmptyWithinLimits(maxRecords: nat, maxPerDevice: nat)
    ensures WithinLimits(map[], maxRecords, maxPerDevice)
  {
    var none: map<string, Challenge> := map[];
    forall d: string ensures |OfDevice(none, d)| == 0 {
      assert OfDevice(none, d) == {};
    }
  }

  lemma FewerWithinLimits(fewer: map<string, Challenge>, records: map<string, Challenge>, maxRecords: nat, maxPerDevice: nat)
    requires WithinLimits(records, maxRecords, maxPerDevice)
    requires forall id :: id in fewer ==> id in records && fewer[id] == records[id]
    ensures WithinLimits(fewer, maxRecords, maxPerDevice)
  {
    SmallerDomain(fewer, records);
    forall d: string ensures |OfDevice(fewer, d)| <= maxPerDevice {
      SmallerSet(OfDevice(fewer, d), OfDevice(records, d));
    }
  }

  lemma LiveWithinLimits(records: map<string, Challenge>, now: int, maxRecords: nat, maxPerDevice: nat)
    requires WithinLimits(records, maxRecords, maxPerDevice)
    ensures WithinLimits(Live(records, now), maxRecords, maxPerDevice)
  {
    FewerWithinLimits(Live(records, now), records, maxRecords, maxPerDevice);
  }

  lemma RemovedWithinLimits(records: map<string, Challenge>, id: string, maxRecords: nat, maxPerDevice: nat)
    requires WithinLimits(records, maxRecords, maxPerDevice)
    ensures WithinLimits(records - {id}, maxRecords, maxPerDevice)
  {
    FewerWithinLimits(records - {id}, records, maxRecords, maxPerDevice);
  }

  lemma AddedForDevice(records: map<string, Challenge>, c: Challenge, d: string)
    requires c.id !in records
    ensures |OfDevice(records[c.id := c], d)| == |OfDevice(records, d)| + if d == c.deviceId then 1 else 0
  {
    var after, before := OfDevice(records[c.id := c], d), OfDevice(records, d);
    if d == c.deviceId {
      assert after == before + {c.id} && c.id !in before;
    } else {
      assert after == before;
    }
  }

  lemma AddedWithinLimits(records: map<string, Challenge>, c: Challenge, maxRecords: nat, maxPerDevice: nat)
    requires WithinLimits(records, maxRecords, maxPerDevice) && c.id !in records
    requires |records| < maxRecords && |OfDevice(records, c.deviceId)| < maxPerDevice
    ensures WithinLimits(records[c.id := c], maxRecords, maxPerDevice)
  {
    var after := records[c.id := c];
    assert after.Keys == records.Keys + {c.id} && |records| == |records.Keys| && |after| == |after.Keys|;
    forall d: string ensures |OfDevice(after, d)| <= maxPerDevice {
      AddedForDevice(records, c, d);
    }
  }

  // ---- the session authority ------------------------------------------------------------------------------

  datatype Authority = Authority(devices: map<string, Device>, sessions: map<string, Session>, activeByDevice: map<string, string>)

  /** The active session of a device is stored, active and carries the device's epoch. */
  predicate ActiveFine(a: Authority, deviceId: string)
    requires deviceId in a.activeByDevice
  {
    var id := a.activeByDevice[deviceId];
    && deviceId in a.devices && id in a.sessions
    && a.sessions[id].status.SessionActive? && a.sessions[id].deviceId == deviceId
    && a.sessions[id].epoch == a.devices[deviceId].epoch
  }

  predicate SessionFine(a: Authority, id: string)
    requires id in a.sessions
  {
    var s := a.sessions[id];
    && s.id == id && s.deviceId in a.devices && s.epoch <= a.devices[s.deviceId].epoch
    && (s.status.SessionActive? ==> s.deviceId in a.activeByDevice && a.activeByDevice[s.deviceId] == id)
  }

  /** At most one session of a device is active, it is the one on record, and its epoch is the device's. */
  predicate AuthorityFine(a: Authority) {
    && (forall d :: d in a.activeByDevice ==> ActiveFine(a, d))
    && (forall id :: id in a.sessions ==> SessionFine(a, id))
  }

  /** Active sessions are never dropped, so the session on record for a device is always found. */
  function Kept(sessions: map<string, Session>, issuedAt: int): map<string, Session> {
    map id | id in sessions && (sessions[id].status.SessionActive? || sessions[id].expiresAt > issuedAt) :: sessions[id]
  }

  datatype Rotation = Rotation(
    deviceId: string, actorId: string, expectedEpoch: nat, userSessionId: string, backendId: string, issuedAt: int, expiresAt: int)

  predicate RotationAllowed(a: Authority, r: Rotation) {
    && r.deviceId in a.devices && a.devices[r.deviceId].status.DeviceActive?
    && a.devices[r.deviceId].actorId == r.actorId && a.devices[r.deviceId].epoch == r.expectedEpoch
  }

  function NewSession(r: Rotation, sessionId: string): Session {
    Session(sessionId, r.deviceId, r.actorId, SessionActive, r.expectedEpoch + 1, r.expiresAt, r.userSessionId, r.backendId)
  }

  /** The authority after a rotation request; a refused one only drops finished sessions. */
  function Rotate(a: Authority, r: Rotation, sessionId: string): Authority
    requires AuthorityFine(a)
  {
    var kept := Kept(a.sessions, r.issuedAt);
    if !RotationAllowed(a, r) then a.(sessions := kept)
    else
      var revoked :=
        if r.deviceId in a.activeByDevice then
          assert ActiveFine(a, r.deviceId);
          var prior := a.activeByDevice[r.deviceId];
          kept[prior := kept[prior].(status := SessionRevoked)]
        else kept;
      Authority(
        a.devices[r.deviceId := a.devices[r.deviceId].(epoch := r.expectedEpoch + 1)],
        revoked[sessionId := NewSession(r, sessionId)],
        a.activeByDevice[r.deviceId := sessionId])
  }

  class InMemorySessionAuthority {
    var devices: map<string, Device>
    var sessions: map<string, Session>
    var activeByDevice: map<string, string>

    function Value(): Authority
      reads this
    {
      Authority(devices, sessions, activeByDevice)
    }

    ghost predicate Valid()
      reads this
    {
      AuthorityFine(Value())
    }

    constructor (devices: map<string, Device>)
      ensures Valid() && Value() == Authority(devices, map[], map[])
    {
      this.devices, sessions, activeByDevice := devices, map[], map[];
    }

    method RotateSession(r: Rotation, sessionId: string) returns (session: Option<Session>)
      requires Valid() && sessionId !in sessions
      modifies this
      ensures Valid()
      ensures Value() == Rotate(old(Value()), r, sessionId)
      ensures session == if RotationAllowed(old(Value()), r) then Some(NewSession(r, sessionId)) else None
    {
      ghost var before := Value();
      if r.deviceId in activeByDevice { PriorIsKept(before, r); }
      RotateKeepsFine(before, r, sessionId);
      sessions := Kept(sessions, r.issuedAt);
      if r.deviceId !in devices || !devices[r.deviceId].status.DeviceActive? || devices[r.deviceId].actorId != r.actorId
         || devices[r.deviceId].epoch != r.expectedEpoch
      {
        assert Value() == Rotate(before, r, sessionId);
        return None;
      }
      if r.deviceId in activeByDevice {
        var priorId := activeByDevice[r.deviceId];
        var prior := sessions[priorId];
        sessions := sessions[priorId := prior.(status := SessionRevoked)];
      }
      var nextEpoch := r.expectedEpoch + 1;
      devices := devices[r.deviceId := devices[r.deviceId].(epoch := nextEpoch)];
      var created := Session(sessionId, r.deviceId, r.actorId, SessionActive, nextEpoch, r.expiresAt, r.userSessionId, r.backendId);
      sessions := sessions[sessionId := created];
      activeByDevice := activeByDevice[r.deviceId := sessionId];
      assert Value() == Rotate(before, r, sessionId);
      session := Some(created);
    }
  }

  lemma PriorIsKept(a: Authority, r: Rotation)
    requires AuthorityFine(a) && r.deviceId in a.activeByDevice
    ensures a.activeByDevice[r.deviceId] in Kept(a.sessions, r.issuedAt)
  {
    assert ActiveFine(a, r.deviceId);
  }

  lemma RotatedActive(a: Authority, r: Rotation, sessionId: string, d: string)
    requires AuthorityFine(a) && sessionId !in a.sessions && d in Rotate(a, r, sessionId).activeByDevice
    ensures ActiveFine(Rotate(a, r, sessionId), d)
  {
    if d in a.activeByDevice { assert ActiveFine(a, d); }
    if r.deviceId in a.activeByDevice { assert ActiveFine(a, r.deviceId); }
  }

  lemma RotatedSession(a: Authority, r: Rotation, sessionId: string, id: string)
    requires AuthorityFine(a) && sessionId !in a.sessions && id in Rotate(a, r, sessionId).sessions
    ensures SessionFine(Rotate(a, r, sessionId), id)
  {
    if id in a.sessions { assert SessionFine(a, id); }
    if r.deviceId in a.activeByDevice { assert ActiveFine(a, r.deviceId); }
  }

  /** A rotation keeps one active session per device, with the device's epoch. */
  lemma RotateKeepsFine(a: Authority, r: Rotation, sessionId: string)
    requires AuthorityFine(a) && sessionId !in a.sessions
    ensures AuthorityFine(Rotate(a, r, sessionId))
  {
    var a' := Rotate(a, r, sessionId);
    forall d | d in a'.activeByDevice ensures ActiveFine(a', d) { RotatedActive(a, r, sessionId, d); }
    forall id | id in a'.sessions ensures SessionFine(a', id) { RotatedSession(a, r, sessionId, id); }
  }

  /** The same in words of the sessions alone. */
  lemma OneActiveSession(a: Authority, x: string, y: string)
    requires AuthorityFine(a) && x in a.sessions && y in a.sessions
    requires a.sessions[x].status.SessionActive? && a.sessions[y].status.SessionActive?
    requires a.sessions[x].deviceId == a.sessions[y].deviceId
    ensures x == y && a.sessions[x].epoch == a.devices[a.sessions[x].deviceId].epoch
  {
    assert SessionFine(a, x) && SessionFine(a, y);
    assert ActiveFine(a, a.sessions[x].deviceId);
  }
}
