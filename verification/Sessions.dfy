/**
 * session.service.ts and the session half of auth.service.ts, on Redis keys with expiry. Times
 * are whole seconds; the hash of a refresh token is identified with the token (it is injective),
 * and a fresh id or token is supplied by the caller.
 */
module Sessions {
  import opened Common

  type UserId = nat
  type SessionId = nat
  type Token = nat

  const TOMBSTONE_TTL_SECONDS := 24 * 60 * 60

  datatype Timed<+T> = Timed(value: T, expiresAt: int)

  datatype Record = Record(user: UserId, token: Token, deviceLabel: string, ipAddress: string, firstSeenAt: int, lastActiveAt: int)

  datatype Tombstone = Tombstone(user: UserId, token: Token)

  datatype Redis = Redis(
    sessions: map<SessionId, Timed<Record>>,
    index: map<UserId, Timed<set<SessionId>>>,
    tombstones: map<SessionId, Timed<Tombstone>>)

  datatype Validation = Valid(user: UserId) | Reused(user: UserId) | Invalid

  /** GET: an expired key reads as absent. */
  function Get<K, T>(keys: map<K, Timed<T>>, k: K, now: int): Option<T> {
    if k in keys && now < keys[k].expiresAt then Some(keys[k].value) else None
  }

  /** SMEMBERS of the user's index. */
  function Members(r: Redis, user: UserId, now: int): set<SessionId> {
    match Get(r.index, user, now)
    case Some(ids) => ids
    case None => {}
  }

  // ---- SessionService ---------------------------------------------------------------------------

  function CreateSession(r: Redis, user: UserId, id: SessionId, token: Token, device: string, ip: string, ttl: nat, now: int): Redis {
    Redis(
      r.sessions[id := Timed(Record(user, token, device, ip, now, now), now + ttl)],
      r.index[user := Timed(Members(r, user, now) + {id}, now + ttl)],
      r.tombstones)
  }

  function Validate(r: Redis, id: SessionId, token: Token, now: int): Validation {
    match Get(r.sessions, id, now)
    case Some(record) => if record.token == token then Valid(record.user) else Invalid
    case None =>
      match Get(r.tombstones, id, now)
      case Some(tombstone) => if tombstone.token == token then Reused(tombstone.user) else Invalid
      case None => Invalid
  }

  /** `touchSession`: the TTL read back is the one written. */
  function TouchSession(r: Redis, id: SessionId, now: int): Redis {
    match Get(r.sessions, id, now)
    case None => r
    case Some(record) =>
      var ttl := r.sessions[id].expiresAt - now;
      r.(sessions := r.sessions[id := Timed(record.(lastActiveAt := now), now + if ttl > 0 then ttl else 1)])
  }

  /** SREM. */
  function Unindex(r: Redis, user: UserId, id: SessionId, now: int): map<UserId, Timed<set<SessionId>>> {
    match Get(r.index, user, now)
    case Some(ids) => r.index[user := Timed(ids - {id}, r.index[user].expiresAt)]
    case None => r.index
  }

  function DestroySession(r: Redis, id: SessionId, now: int): Redis {
    match Get(r.sessions, id, now)
    case Some(record) => r.(sessions := r.sessions - {id}, index := Unindex(r, record.user, id, now))
    case None => r.(sessions := r.sessions - {id})
  }

  function RotateOutSession(r: Redis, id: SessionId, now: int): Redis {
    match Get(r.sessions, id, now)
    case Some(record) =>
      DestroySession(r.(tombstones := r.tombstones[id := Timed(Tombstone(record.user, record.token), now + TOMBSTONE_TTL_SECONDS)]), id, now)
    case None => DestroySession(r, id, now)
  }

  function RevokeOwnSession(r: Redis, user: UserId, id: SessionId, now: int): Redis {
    match Get(r.sessions, id, now)
    case Some(record) => if record.user != user then r else DestroySession(r, id, now)
    case None => r
  }

  function DestroyAllSessionsForUser(r: Redis, user: UserId, now: int): Redis {
    r.(sessions := r.sessions - Members(r, user, now), index := r.index - {user})
  }

  // ---- auth.service.ts ---------------------------------------------------------------------------

  datatype Issue = Issue(id: SessionId, token: Token)

  /** `maxDevices` is there for sellers only. A refused login throws. */
  function IssueTokens(r: Redis, user: UserId, maxDevices: Option<nat>, next: Issue, device: string, ip: string, ttl: nat, now: int): Option<Redis> {
    if maxDevices.Some? && |Members(r, user, now)| >= maxDevices.value then None
    else Some(CreateSession(r, user, next.id, next.token, device, ip, ttl, now))
  }

  datatype RefreshOutcome = Issued(user: UserId) | Unauthorized | DeviceLimit

  /** The old session is rotated out before the new one is issued: a refusal in between keeps neither. */
  function Refresh(r: Redis, id: SessionId, token: Token, maxDevices: UserId -> Option<nat>, next: Issue, ttl: UserId -> nat, now: int): (Redis, RefreshOutcome) {
    match Validate(r, id, token, now)
    case Reused(user) => (DestroyAllSessionsForUser(r, user, now), Unauthorized)
    case Invalid => (r, Unauthorized)
    case Valid(user) =>
      var device := Get(r.sessions, id, now).value;
      var rotated := RotateOutSession(TouchSession(r, id, now), id, now);
      match IssueTokens(rotated, user, maxDevices(user), next, device.deviceLabel, device.ipAddress, ttl(user), now)
      case Some(issued) => (issued, Issued(user))
      case None => (rotated, DeviceLimit)
  }

  // ---- The index -----------------------------------------------------------------------------------

  /** A live session is in its user's index, and the index lives at least as long. */
  predicate CoveredSession(r: Redis, id: SessionId, now: int)
    requires id in r.sessions
  {
    now < r.sessions[id].expiresAt ==>
      var user := r.sessions[id].value.user;
      user in r.index && id in r.index[user].value && r.sessions[id].expiresAt <= r.index[user].expiresAt
  }

  predicate Covered(r: Redis, now: int) { forall id | id in r.sessions :: CoveredSession(r, id, now) }

  predicate ShorterThan(r: Redis, user: UserId, end: int, now: int) {
    forall id | id in r.sessions && r.sessions[id].value.user == user && now < r.sessions[id].expiresAt :: r.sessions[id].expiresAt <= end
  }

  function LiveOf(r: Redis, user: UserId, now: int): set<SessionId> {
    set id | id in r.sessions && now < r.sessions[id].expiresAt && r.sessions[id].value.user == user
  }

  lemma LiveAreMembers(r: Redis, user: UserId, now: int)
    requires Covered(r, now)
    ensures LiveOf(r, user, now) <= Members(r, user, now)
  {
    forall id | id in LiveOf(r, user, now) ensures id in Members(r, user, now) { assert CoveredSession(r, id, now); }
  }

  /** Whatever covers the sessions, resetting the user's index ends every one of them. */
  lemma DestroyAllEndsAll(r: Redis, user: UserId, now: int)
    requires Covered(r, now)
    ensures LiveOf(DestroyAllSessionsForUser(r, user, now), user, now) == {}
  {
    LiveAreMembers(r, user, now);
  }

  /**
   * Creating a session sets the expiry of the user's whole index. It goes on covering the user's
   * sessions if and only if none of them outlives the one created.
   */
  lemma CreateCoversExactly(r: Redis, user: UserId, next: Issue, device: string, ip: string, ttl: nat, now: int)
    requires Covered(r, now) && next.id !in r.sessions
    ensures Covered(CreateSession(r, user, next.id, next.token, device, ip, ttl, now), now) <==> ShorterThan(r, user, now + ttl, now)
  {
    var r' := CreateSession(r, user, next.id, next.token, device, ip, ttl, now);
    if ShorterThan(r, user, now + ttl, now) {
      forall id | id in r'.sessions ensures CoveredSession(r', id, now) {
        if id != next.id { assert CoveredSession(r, id, now); }
      }
    }
    if Covered(r', now) {
      forall id | id in r.sessions && r.sessions[id].value.user == user && now < r.sessions[id].expiresAt ensures r.sessions[id].expiresAt <= now + ttl {
        assert CoveredSession(r', id, now) && id in r'.sessions;
      }
    }
  }

  /**
   * A created session validates with its token for exactly its lifetime, is in its user's index for
   * as long, beside what the index held, and touches no other session and no other user's index.
   */
  lemma CreatedLives(r: Redis, user: UserId, id: SessionId, token: Token, device: string, ip: string, ttl: nat, now: int, later: int)
    requires id !in r.sessions && id !in r.tombstones && now <= later
    ensures var r' := CreateSession(r, user, id, token, device, ip, ttl, now);
            && (Validate(r', id, token, later) == if later < now + ttl then Valid(user) else Invalid)
            && Members(r', user, later) == (if later < now + ttl then Members(r, user, now) + {id} else {})
            && (forall other | other != user :: Members(r', other, later) == Members(r, other, later))
            && (forall other, t | other != id :: Validate(r', other, t, later) == Validate(r, other, t, later))
            && LiveOf(r', user, now) == LiveOf(r, user, now) + if ttl > 0 then {id} else {}
  {}

  // ---- The device limit ------------------------------------------------------------------------------

  /**
   * Sessions that ran out by themselves stay in the index, and count. So a login is refused when
   * live and stale ids together reach the limit.
   */
  lemma RefusedExactly(r: Redis, user: UserId, maxDevices: Option<nat>, next: Issue, device: string, ip: string, ttl: nat, now: int)
    requires Covered(r, now)
    ensures IssueTokens(r, user, maxDevices, next, device, ip, ttl, now) == None <==>
            maxDevices.Some? && |LiveOf(r, user, now)| + |Members(r, user, now) - LiveOf(r, user, now)| >= maxDevices.value
  {
    LiveAreMembers(r, user, now);
    var live, all := LiveOf(r, user, now), Members(r, user, now);
    assert all == live + (all - live);
  }

  /**
   * A rotated session is the same device under a new id and token, first seen now and valid for the
   * lifetime it is given. The old pair counts as reused for a day, and as unknown from then on.
   */
  lemma RotationKeepsDevice(r: Redis, id: SessionId, token: Token, maxDevices: UserId -> Option<nat>, next: Issue, ttl: UserId -> nat, now: int)
    requires Refresh(r, id, token, maxDevices, next, ttl, now).1.Issued? && next.id != id
    ensures var was := r.sessions[id].value; var r' := Refresh(r, id, token, maxDevices, next, ttl, now).0;
            && r'.sessions.Keys == r.sessions.Keys - {id} + {next.id}
            && r'.sessions[next.id].value == Record(was.user, next.token, was.deviceLabel, was.ipAddress, now, now)
            && (forall later | now <= later :: Validate(r', id, token, later) == if later < now + 86_400 then Reused(was.user) else Invalid)
            && (forall later | now <= later :: Validate(r', next.id, next.token, later).Valid? <==> later < now + ttl(was.user))
  {}

  /** After the rotation the index holds what it held, but for the old id. */
  lemma RotatedMembers(r: Redis, id: SessionId, token: Token, user: UserId, now: int)
    requires Validate(r, id, token, now) == Valid(user)
    ensures Members(RotateOutSession(TouchSession(r, id, now), id, now), user, now) == Members(r, user, now) - {id}
  {}

  /**
   * A rotation is refused by the device limit exactly when the user's other ids already fill it:
   * the guard a caller can evaluate before the call.
   */
  lemma LimitRefusesExactly(r: Redis, id: SessionId, token: Token, user: UserId, maxDevices: UserId -> Option<nat>, next: Issue, ttl: UserId -> nat, now: int)
    requires Validate(r, id, token, now) == Valid(user)
    ensures Refresh(r, id, token, maxDevices, next, ttl, now).1 == DeviceLimit <==>
            maxDevices(user).Some? && |Members(r, user, now) - {id}| >= maxDevices(user).value
  {
    RotatedMembers(r, id, token, user, now);
    hide Members, RotateOutSession, TouchSession, CreateSession;
  }

}
