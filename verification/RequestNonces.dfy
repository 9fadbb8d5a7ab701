/** One-time request nonces, remembered until they expire, and the request authentication that uses them. */
module RequestNonces {

  type Key = (string, string)

  function Live(seen: map<Key, int>, now: int): map<Key, int> {
    map key | key in seen && seen[key] > now :: seen[key]
  }

  class InMemoryNonceStore {
    var seen: map<Key, int>

    constructor ()
      ensures seen == map[]
    {
      seen := map[];
    }

    /** False for a nonce still remembered; either way expired ones are forgotten. */
    method Consume(sessionId: string, nonce: string, expiresAt: int, now: int) returns (ok: bool)
      modifies this
      ensures ok == ((sessionId, nonce) !in Live(old(seen), now))
      ensures seen == AfterConsume(old(seen), Request((sessionId, nonce), expiresAt, now))
    {
      seen := Live(seen, now);
      var key := (sessionId, nonce);
      if key in seen { return false; }
      seen := seen[key := expiresAt];
      ok := true;
    }
  }

  datatype Request = Request(key: Key, expiresAt: int, now: int)

  predicate Accepted(seen: map<Key, int>, r: Request) {
    r.key !in Live(seen, r.now)
  }

  function AfterConsume(seen: map<Key, int>, r: Request): map<Key, int> {
    if Accepted(seen, r) then Live(seen, r.now)[r.key := r.expiresAt] else Live(seen, r.now)
  }

  /** The store after the first n requests. */
  function SeenAfter(requests: seq<Request>, n: nat): map<Key, int>
    requires n <= |requests|
  {
    if n == 0 then map[] else AfterConsume(SeenAfter(requests, n - 1), requests[n - 1])
  }

  predicate ClockRuns(requests: seq<Request>) {
    forall i, j :: 0 <= i < j < |requests| ==> requests[i].now <= requests[j].now
  }

  predicate AcceptedAt(requests: seq<Request>, i: nat)
    requires i < |requests|
  {
    Accepted(SeenAfter(requests, i), requests[i])
  }

  /** An accepted nonce is remembered as long as it has not expired. */
  lemma {:induction false} Remembered(requests: seq<Request>, i: nat, n: nat)
    requires ClockRuns(requests) && i < n <= |requests| && AcceptedAt(requests, i)
    requires forall k :: i < k < n ==> requests[k].now < requests[i].expiresAt
    ensures requests[i].key in SeenAfter(requests, n) && SeenAfter(requests, n)[requests[i].key] == requests[i].expiresAt
  {
    if n > i + 1 {
      Remembered(requests, i, n - 1);
    }
  }

  /** With a clock that never runs back, a nonce of a session is accepted a second time only after the
      expiry it was first accepted with. */
  lemma AcceptedOnceUntilExpiry(requests: seq<Request>, i: nat, j: nat)
    requires ClockRuns(requests) && i < j < |requests| && requests[i].key == requests[j].key
    requires AcceptedAt(requests, i) && AcceptedAt(requests, j)
    ensures requests[j].now >= requests[i].expiresAt
  {
    if requests[j].now < requests[i].expiresAt {
      Remembered(requests, i, j);
    }
  }

  // ---- authentication ---------------------------------------------------------------------------------------

  /** Times are counted in microseconds. */
  const SECOND := 1_000_000
  const LEEWAY := 5 * SECOND

  /** The token of a session carries the expiry of the session in whole seconds. */
  function TokenExpiry(sessionExpiresAt: int): (e: int)
    ensures e <= sessionExpiresAt < e + SECOND && e % SECOND == 0
  {
    sessionExpiresAt - sessionExpiresAt % SECOND
  }

  /** One authentication; admitted stands for the checks on token, device, session and contract that do not
      depend on the time. */
  datatype Attempt = Attempt(key: Key, sessionExpiresAt: int, now: int, admitted: bool)

  function NonceRequest(a: Attempt): Request {
    Request(a.key, TokenExpiry(a.sessionExpiresAt), a.now)
  }

  /** The token may be late by the leeway, the session may not. */
  predicate ReachesNonce(a: Attempt) {
    a.now < TokenExpiry(a.sessionExpiresAt) + LEEWAY && a.admitted && a.now < a.sessionExpiresAt
  }

  predicate Authenticated(seen: map<Key, int>, a: Attempt) {
    ReachesNonce(a) && Accepted(seen, NonceRequest(a))
  }

  function AfterAttempt(seen: map<Key, int>, a: Attempt): map<Key, int> {
    if ReachesNonce(a) then AfterConsume(seen, NonceRequest(a)) else seen
  }

  class DesktopSessionAuthenticator {
    const nonces: InMemoryNonceStore

    constructor (nonces: InMemoryNonceStore)
      ensures this.nonces == nonces
    {
      this.nonces := nonces;
    }

    /** Token, then everything time does not change, then session, and the nonce last. */
    method Authenticate(a: Attempt) returns (ok: bool)
      modifies nonces
      ensures ok == Authenticated(old(nonces.seen), a)
      ensures nonces.seen == AfterAttempt(old(nonces.seen), a)
    {
      var expiresAt := TokenExpiry(a.sessionExpiresAt);
      if expiresAt <= a.now - LEEWAY { return false; }
      if !a.admitted { return false; }
      if a.sessionExpiresAt <= a.now { return false; }
      ok := nonces.Consume(a.key.0, a.key.1, expiresAt, a.now);
    }
  }

  function StoreAfter(attempts: seq<Attempt>, n: nat): map<Key, int>
    requires n <= |attempts|
  {
    if n == 0 then map[] else AfterAttempt(StoreAfter(attempts, n - 1), attempts[n - 1])
  }

  predicate AuthenticatedAt(attempts: seq<Attempt>, i: nat)
    requires i < |attempts|
  {
    Authenticated(StoreAfter(attempts, i), attempts[i])
  }

  /** The clock never runs back, and a session keeps its expiry. */
  predicate Orderly(attempts: seq<Attempt>) {
    && (forall i, j :: 0 <= i < j < |attempts| ==> attempts[i].now <= attempts[j].now)
    && forall i, j :: 0 <= i < |attempts| && 0 <= j < |attempts| && attempts[i].key.0 == attempts[j].key.0 ==>
         attempts[i].sessionExpiresAt == attempts[j].sessionExpiresAt
  }

  /** What the store remembers of a nonce is the token expiry of its session. */
  lemma {:induction false} RemembersExpiry(attempts: seq<Attempt>, n: nat, j: nat)
    requires Orderly(attempts) && n <= |attempts| && j < |attempts| && attempts[j].key in StoreAfter(attempts, n)
    ensures StoreAfter(attempts, n)[attempts[j].key] == TokenExpiry(attempts[j].sessionExpiresAt)
  {
    if attempts[j].key in StoreAfter(attempts, n - 1) { RemembersExpiry(attempts, n - 1, j); }
  }

  /** An authenticated nonce is remembered until the token expiry. */
  lemma {:induction false} StillRemembered(attempts: seq<Attempt>, i: nat, n: nat)
    requires Orderly(attempts) && i < n < |attempts| && AuthenticatedAt(attempts, i)
    requires attempts[n].now < TokenExpiry(attempts[i].sessionExpiresAt)
    ensures attempts[i].key in StoreAfter(attempts, n)
    ensures StoreAfter(attempts, n)[attempts[i].key] == TokenExpiry(attempts[i].sessionExpiresAt)
  {
    if n > i + 1 {
      StillRemembered(attempts, i, n - 1);
    }
  }

  /** A nonce of a session that was authenticated before is authenticated again exactly in what is left of
      the session after the last whole second: the nonce is forgotten at the token's whole-second expiry,
      while the leeway still admits the token and the session has not expired. */
  lemma AuthenticatedAgain(attempts: seq<Attempt>, i: nat, j: nat)
    requires Orderly(attempts) && i < j < |attempts| && attempts[i].key == attempts[j].key && AuthenticatedAt(attempts, i)
    ensures AuthenticatedAt(attempts, j)
       <==> attempts[j].admitted && TokenExpiry(attempts[j].sessionExpiresAt) <= attempts[j].now < attempts[j].sessionExpiresAt
  {
    if attempts[j].now < TokenExpiry(attempts[j].sessionExpiresAt) {
      StillRemembered(attempts, i, j);
    } else if attempts[j].key in StoreAfter(attempts, j) {
      RemembersExpiry(attempts, j, j);
    }
  }

  /** What is remembered was authenticated before. */
  lemma {:induction false} RememberedOrigin(attempts: seq<Attempt>, n: nat, key: Key) returns (i: nat)
    requires n <= |attempts| && key in StoreAfter(attempts, n)
    ensures i < n && attempts[i].key == key && AuthenticatedAt(attempts, i)
  {
    if key in StoreAfter(attempts, n - 1) {
      i := RememberedOrigin(attempts, n - 1, key);
    } else {
      i := n - 1;
    }
  }

  /** An attempt is authenticated exactly if it is admitted, the session has not expired, and no earlier one with
      its nonce was authenticated whose token has not run out; the leeway never decides. */
  lemma AuthenticatedExactly(attempts: seq<Attempt>, j: nat)
    requires Orderly(attempts) && j < |attempts|
    ensures AuthenticatedAt(attempts, j)
       <==> && attempts[j].admitted && attempts[j].now < attempts[j].sessionExpiresAt
            && (attempts[j].now < TokenExpiry(attempts[j].sessionExpiresAt) ==>
                  forall i :: 0 <= i < j && attempts[i].key == attempts[j].key ==> !AuthenticatedAt(attempts, i))
  {
    if attempts[j].key in Live(StoreAfter(attempts, j), attempts[j].now) {
      RemembersExpiry(attempts, j, j);
      var i := RememberedOrigin(attempts, j, attempts[j].key);
      assert attempts[i].key == attempts[j].key && AuthenticatedAt(attempts, i);
    }
    if attempts[j].now < TokenExpiry(attempts[j].sessionExpiresAt) {
      if i :| 0 <= i < j && attempts[i].key == attempts[j].key && AuthenticatedAt(attempts, i) {
        StillRemembered(attempts, i, j);
      }
    }
  }

  /** So a session that expires on a whole second authenticates each nonce once. */
  lemma WholeSecondsAuthenticateOnce(attempts: seq<Attempt>, i: nat, j: nat)
    requires Orderly(attempts) && i < j < |attempts| && attempts[i].key == attempts[j].key && AuthenticatedAt(attempts, i)
    requires attempts[i].sessionExpiresAt % SECOND == 0
    ensures !AuthenticatedAt(attempts, j)
  {
    AuthenticatedAgain(attempts, i, j);
  }

  /** And one that expires half a second later does not. */
  lemma HalfSecondAuthenticatesTwice() returns (attempts: seq<Attempt>)
    ensures Orderly(attempts) && |attempts| == 2 && attempts[0].key == attempts[1].key
    ensures AuthenticatedAt(attempts, 0) && AuthenticatedAt(attempts, 1)
  {
    var expiresAt := 300 * SECOND + SECOND / 2;
    var key := ("session", "nonce");
    attempts := [Attempt(key, expiresAt, 10 * SECOND, true), Attempt(key, expiresAt, 300 * SECOND, true)];
    AuthenticatedAgain(attempts, 0, 1);
  }
}
