/** session.service.ts and auth.service.ts as the code runs them, one Redis command after another. */
module SessionServices {
  import opened Common
  import opened Sessions

  datatype SessionInfo = SessionInfo(id: SessionId, deviceLabel: string, ipAddress: string, firstSeenAt: int, lastActiveAt: int)

  function InfoOf(id: SessionId, record: Record): SessionInfo {
    SessionInfo(id, record.deviceLabel, record.ipAddress, record.firstSeenAt, record.lastActiveAt)
  }

  class SessionService {
    var sessions: map<SessionId, Timed<Record>>
    var index: map<UserId, Timed<set<SessionId>>>
    var tombstones: map<SessionId, Timed<Tombstone>>

    constructor ()
      ensures View() == Redis(map[], map[], map[])
    {
      sessions, index, tombstones := map[], map[], map[];
    }

    function View(): Redis reads this { Redis(sessions, index, tombstones) }

    method CreateSession(user: UserId, id: SessionId, token: Token, device: string, ip: string, ttl: nat, now: int)
      modifies this
      ensures View() == Sessions.CreateSession(old(View()), user, id, token, device, ip, ttl, now)
      ensures sessions == old(sessions)[id := Timed(Record(user, token, device, ip, now, now), now + ttl)] && tombstones == old(tombstones)
      ensures index == old(index)[user := Timed(old(Members(View(), user, now)) + {id}, now + ttl)]
    {
      sessions := sessions[id := Timed(Record(user, token, device, ip, now, now), now + ttl)];
      var members := Get(index, user, now);
      index := index[user := Timed((if members.Some? then members.value else {}) + {id}, now + ttl)];
    }

    /** Counts the live sessions, and with them every ended one that the index still holds. */
    method CountActiveSessions(user: UserId, now: int) returns (count: nat)
      ensures count == |Members(View(), user, now)|
      ensures Covered(View(), now) ==> |LiveOf(View(), user, now)| <= count
      ensures Covered(View(), now) ==> (count == |LiveOf(View(), user, now)| <==> Members(View(), user, now) == LiveOf(View(), user, now))
    {
      if Covered(View(), now) {
        LiveAreMembers(View(), user, now);
        ghost var live, all := LiveOf(View(), user, now), Members(View(), user, now);
        assert all == live + (all - live);
      }
      var members := Get(index, user, now);
      count := if members.Some? then |members.value| else 0;
    }

    method ValidateRefreshToken(id: SessionId, token: Token, now: int) returns (v: Validation)
      ensures v == Validate(View(), id, token, now)
      ensures v.Valid? <==> id in sessions && now < sessions[id].expiresAt && sessions[id].value.token == token
      ensures v.Reused? <==> (id !in sessions || sessions[id].expiresAt <= now)
                             && id in tombstones && now < tombstones[id].expiresAt && tombstones[id].value.token == token
      ensures v.Valid? ==> v.user == sessions[id].value.user
      ensures v.Reused? ==> v.user == tombstones[id].value.user
    {
      var record := Get(sessions, id, now);
      if record.Some? {
        return if record.value.token == token then Valid(record.value.user) else Invalid;
      }
      var tombstone := Get(tombstones, id, now);
      if tombstone.Some? && tombstone.value.token == token { return Reused(tombstone.value.user); }
      return Invalid;
    }

    method TouchSession(id: SessionId, now: int)
      modifies this
      ensures View() == Sessions.TouchSession(old(View()), id, now)
      ensures index == old(index) && tombstones == old(tombstones) && sessions.Keys == old(sessions).Keys
      ensures forall other | other in sessions && other != id :: sessions[other] == old(sessions)[other]
      ensures id in sessions ==>
                && sessions[id].expiresAt == old(sessions)[id].expiresAt
                && sessions[id].value == old(sessions)[id].value.(lastActiveAt := sessions[id].value.lastActiveAt)
                && (now < sessions[id].expiresAt ==> sessions[id].value.lastActiveAt == now)
    {
      var record := Get(sessions, id, now);
      if record.None? { return; }
      var ttl := sessions[id].expiresAt - now;
      sessions := sessions[id := Timed(record.value.(lastActiveAt := now), now + if ttl > 0 then ttl else 1)];
    }

    /** Lists exactly the user's live sessions that are indexed; ids whose session has ended are skipped. */
    method ListSessions(user: UserId, now: int, ids: seq<SessionId>) returns (list: seq<SessionInfo>)
      requires Lists(ids, Members(View(), user, now))
      ensures |list| == |set id | id in ids && Get(sessions, id, now).Some?|
      ensures forall id | id in ids && Get(sessions, id, now).Some? :: InfoOf(id, Get(sessions, id, now).value) in list
      ensures forall info | info in list :: info.id in ids && Get(sessions, info.id, now).Some? && info == InfoOf(info.id, Get(sessions, info.id, now).value)
    {
      list := [];
      ghost var listed: set<SessionId> := {};
      for i := 0 to |ids|
        invariant listed == set id | id in ids[..i] && Get(sessions, id, now).Some?
        invariant |list| == |listed|
        invariant forall id | id in listed :: InfoOf(id, Get(sessions, id, now).value) in list
        invariant forall info | info in list :: info.id in listed && info == InfoOf(info.id, Get(sessions, info.id, now).value)
      {
        var id := ids[i];
        assert ids[..i + 1] == ids[..i] + [id] && id !in ids[..i];
        var record := Get(sessions, id, now);
        if record.None? { continue; }
        list := list + [InfoOf(id, record.value)];
        listed := listed + {id};
      }
      assert ids[..|ids|] == ids;
    }

    /** Never revokes someone else's session. */
    method RevokeOwnSession(user: UserId, id: SessionId, now: int) returns (revoked: bool)
      modifies this
      ensures View() == Sessions.RevokeOwnSession(old(View()), user, id, now)
      ensures revoked <==> id in old(LiveOf(View(), user, now))
      ensures forall other | other != user :: LiveOf(View(), other, now) == old(LiveOf(View(), other, now))
    {
      var record := Get(sessions, id, now);
      if record.None? || record.value.user != user { return false; }
      DestroySession(id, now);
      return true;
    }

    method DestroySession(id: SessionId, now: int)
      modifies this
      ensures View() == Sessions.DestroySession(old(View()), id, now)
      ensures sessions == old(sessions) - {id} && tombstones == old(tombstones)
      ensures forall user :: Members(View(), user, now) == old(Members(View(), user, now)) - if id in old(LiveOf(View(), user, now)) then {id} else {}
    {
      var record := Get(sessions, id, now);
      if record.Some? {
        var user := record.value.user;
        var members := Get(index, user, now);
        if members.Some? { index := index[user := Timed(members.value - {id}, index[user].expiresAt)]; }
      }
      sessions := sessions - {id};
    }

    method RotateOutSession(id: SessionId, now: int)
      modifies this
      ensures View() == Sessions.RotateOutSession(old(View()), id, now)
      ensures sessions == old(sessions) - {id}
      ensures id in old(sessions) && now < old(sessions)[id].expiresAt ==>
                tombstones == old(tombstones)[id := Timed(Tombstone(old(sessions)[id].value.user, old(sessions)[id].value.token), now + 86_400)]
      ensures id !in old(sessions) || old(sessions)[id].expiresAt <= now ==> tombstones == old(tombstones)
    {
      var record := Get(sessions, id, now);
      if record.Some? {
        tombstones := tombstones[id := Timed(Tombstone(record.value.user, record.value.token), now + TOMBSTONE_TTL_SECONDS)];
      }
      DestroySession(id, now);
    }

    method DestroyAllSessionsForUser(user: UserId, now: int)
      modifies this
      ensures View() == Sessions.DestroyAllSessionsForUser(old(View()), user, now)
      ensures old(Covered(View(), now)) ==> LiveOf(View(), user, now) == {}
      ensures sessions == old(sessions) - old(Members(View(), user, now)) && index == old(index) - {user} && tombstones == old(tombstones)
    {
      ghost var before := View();
      var members := Get(index, user, now);
      if members.Some? && |members.value| > 0 { sessions := sessions - members.value; }
      index := index - {user};
      assert View() == Sessions.DestroyAllSessionsForUser(before, user, now);
      if Covered(before, now) { DestroyAllEndsAll(before, user, now); }
    }
  }

  datatype AuthError = UnauthorizedError | ForbiddenDeviceLimit | BadResetLink

  datatype ResetToken = ResetToken(token: Token, expiresAt: int)

  class AuthService {
    const sessions: SessionService
    var resetTokens: map<UserId, ResetToken>

    constructor (sessions: SessionService)
      ensures this.sessions == sessions && resetTokens == map[]
    {
      this.sessions := sessions;
      resetTokens := map[];
    }

    method IssueTokens(user: UserId, maxDevices: Option<nat>, next: Issue, device: string, ip: string, ttl: nat, now: int) returns (r: Result<Issue, AuthError>)
      modifies sessions
      ensures var issue := Sessions.IssueTokens(old(sessions.View()), user, maxDevices, next, device, ip, ttl, now);
              && r == (if issue.Some? then Ok(next) else Err(ForbiddenDeviceLimit))
              && sessions.View() == if issue.Some? then issue.value else old(sessions.View())
    {
      if maxDevices.Some? {
        var activeCount := sessions.CountActiveSessions(user, now);
        if activeCount >= maxDevices.value { return Err(ForbiddenDeviceLimit); }
      }
      sessions.CreateSession(user, next.id, next.token, device, ip, ttl, now);
      return Ok(next);
    }

    /** Every branch of the rotation, including the one that loses the old session to the device limit. */
    method Refresh(id: SessionId, token: Token, maxDevices: UserId -> Option<nat>, next: Issue, ttl: UserId -> nat, now: int) returns (r: Result<Issue, AuthError>)
      modifies sessions
      ensures var (after, outcome) := Sessions.Refresh(old(sessions.View()), id, token, maxDevices, next, ttl, now);
              && sessions.View() == after
              && r == (match outcome case Issued(_) => Ok(next) case Unauthorized => Err(UnauthorizedError) case DeviceLimit => Err(ForbiddenDeviceLimit))
    {
      var validation := sessions.ValidateRefreshToken(id, token, now);
      if validation.Reused? {
        sessions.DestroyAllSessionsForUser(validation.user, now);
        return Err(UnauthorizedError);
      }
      if validation.Invalid? { return Err(UnauthorizedError); }
      var device := Get(sessions.sessions, id, now).value;
      sessions.TouchSession(id, now);
      sessions.RotateOutSession(id, now);
      r := IssueTokens(validation.user, maxDevices(validation.user), next, device.deviceLabel, device.ipAddress, ttl(validation.user), now);
    }

    method Logout(id: SessionId, now: int)
      modifies sessions
      ensures sessions.View() == Sessions.DestroySession(old(sessions.View()), id, now)
    {
      sessions.DestroySession(id, now);
    }

    /** A reset link works once, in time, and ends every session of the account it belongs to. */
    method CompletePasswordReset(token: Token, now: int) returns (r: Result<UserId, AuthError>)
      modifies this, sessions
      ensures r.Err? <==> forall user | user in old(resetTokens) :: old(resetTokens)[user].token == token ==> old(resetTokens)[user].expiresAt < now
      ensures r.Err? ==> resetTokens == old(resetTokens) && sessions.View() == old(sessions.View())
      ensures r.Ok? ==>
                && r.value in old(resetTokens) && old(resetTokens)[r.value].token == token && now <= old(resetTokens)[r.value].expiresAt
                && resetTokens == old(resetTokens) - {r.value}
                && sessions.View() == Sessions.DestroyAllSessionsForUser(old(sessions.View()), r.value, now)
                && (old(Covered(sessions.View(), now)) ==> LiveOf(sessions.View(), r.value, now) == {})
      requires forall a, b | a in resetTokens && b in resetTokens :: resetTokens[a].token == resetTokens[b].token ==> a == b
    {
      if user :| user in resetTokens && resetTokens[user].token == token {
        if resetTokens[user].expiresAt < now { return Err(BadResetLink); }
        resetTokens := resetTokens - {user};
        sessions.DestroyAllSessionsForUser(user, now);
        return Ok(user);
      }
      return Err(BadResetLink);
    }
  }
}
