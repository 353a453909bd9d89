/**
 * Sessions over runs in which lifetimes and limits vary from call to call, as `createSession` lets
 * its callers choose: when the index loses a session, and what a revocation of them all then reaches.
 */
module SessionLifetimes {
  import opened Common
  import opened Sessions
  import opened SessionRuns

  /** `configs[k]` are the lifetimes and limits in force at step k. */
  datatype MixedRun = MixedRun(states: seq<State>, steps: seq<Step>, configs: seq<Config>)

  ghost predicate Follows(r: MixedRun, k: nat)
    requires |r.states| == |r.steps| + 1 == |r.configs| + 1 && k < |r.steps|
  {
    Enabled(r.states[k], r.steps[k]) && r.states[k + 1] == Next(r.configs[k], r.states[k], r.steps[k])
  }

  ghost predicate IsMixedRun(r: MixedRun) {
    && |r.states| == |r.steps| + 1 == |r.configs| + 1
    && r.states[0].redis == Redis(map[], map[], map[]) && r.states[0].issued == {}
    && forall k: nat | k < |r.steps| :: Follows(r, k)
  }

  predicate Held(r: Redis, user: UserId, id: SessionId) { user in r.index && id in r.index[user].value }

  // ---- One step ----------------------------------------------------------------------------------------

  lemma RotationHolds(r: Redis, gone: SessionId, user: UserId, id: SessionId, at: int)
    requires Held(r, user, id) && id != gone
    ensures Held(RotateOutSession(TouchSession(r, gone, at), gone, at), user, id) && Held(DestroySession(r, gone, at), user, id)
  {}

  lemma IssueHolds(r: Redis, owner: UserId, max: Option<nat>, next: Issue, device: string, ip: string, ttl: nat, user: UserId, id: SessionId, at: int)
    requires Held(r, user, id) && Get(r.index, user, at).Some?
    ensures match IssueTokens(r, owner, max, next, device, ip, ttl, at) case Some(r') => Held(r', user, id) case None => true
  {}

  lemma RotationKeepsIndexAlive(r: Redis, gone: SessionId, user: UserId, at: int)
    requires Get(r.index, user, at).Some?
    ensures Get(RotateOutSession(TouchSession(r, gone, at), gone, at).index, user, at).Some?
  {}

  lemma RotatedIsDead(r: Redis, gone: SessionId, at: int)
    ensures Dead(RotateOutSession(TouchSession(r, gone, at), gone, at), gone, at) && Dead(DestroySession(r, gone, at), gone, at)
  {}

  lemma IssueAddsNoOther(r: Redis, owner: UserId, max: Option<nat>, next: Issue, device: string, ip: string, ttl: nat, id: SessionId, at: int)
    requires id != next.id
    ensures match IssueTokens(r, owner, max, next, device, ip, ttl, at)
            case Some(r') => Get(r'.sessions, id, at) == Get(r.sessions, id, at)
            case None => true
  {}

  lemma ResetReaches(r: Redis, owner: UserId, user: UserId, id: SessionId, at: int)
    requires Held(r, user, id) && Get(r.index, user, at).Some?
    ensures Held(DestroyAllSessionsForUser(r, owner, at), user, id) || Dead(DestroyAllSessionsForUser(r, owner, at), id, at)
  {}

  lemma RefreshHolds(c: Config, r: Redis, gone: SessionId, token: Token, next: Issue, user: UserId, id: SessionId, at: int)
    requires Held(r, user, id) && Get(r.index, user, at).Some? && id != next.id
    ensures var r' := Refresh(r, gone, token, c.maxDevices, next, c.ttl, at).0; Held(r', user, id) || Dead(r', id, at)
  {
    var v := Validate(r, gone, token, at);
    hide Held, Dead;
    if v.Valid? {
      hide Validate, RotateOutSession, TouchSession, IssueTokens;
      var rotated := RotateOutSession(TouchSession(r, gone, at), gone, at);
      var device := Get(r.sessions, gone, at).value;
      if id == gone {
        RotatedIsDead(r, gone, at);
        IssueAddsNoOther(rotated, v.user, c.maxDevices(v.user), next, device.deviceLabel, device.ipAddress, c.ttl(v.user), id, at);
        assert Dead(rotated, id, at) <==> Get(rotated.sessions, id, at) == None by { DeadIs(rotated, id, at); }
        var r' := Refresh(r, gone, token, c.maxDevices, next, c.ttl, at).0;
        DeadIs(r', id, at);
      } else {
        RotationHolds(r, gone, user, id, at);
        RotationKeepsIndexAlive(r, gone, user, at);
        IssueHolds(rotated, v.user, c.maxDevices(v.user), next, device.deviceLabel, device.ipAddress, c.ttl(v.user), user, id, at);
      }
    } else if v.Reused? {
      ResetReaches(r, v.user, user, id, at);
    }
  }

  lemma DeadIs(r: Redis, id: SessionId, at: int)
    ensures Dead(r, id, at) <==> Get(r.sessions, id, at) == None
  {}

  /** While the index key is there, a session leaves the index only by ending. */
  lemma HoldsStep(c: Config, y: State, step: Step, user: UserId, id: SessionId)
    requires Enabled(y, step) && id in y.issued && Held(y.redis, user, id) && Get(y.redis.index, user, step.at).Some?
    ensures var r' := Next(c, y, step).redis; Held(r', user, id) || Dead(r', id, step.at)
  {
    hide Refresh, IssueTokens, DestroySession, DestroyAllSessionsForUser, Held, Dead;
    match step
    case Login(owner, next, device, ip, at) => IssueHolds(y.redis, owner, c.maxDevices(owner), next, device, ip, c.ttl(owner), user, id, at);
    case RefreshStep(gone, token, next, at) => RefreshHolds(c, y.redis, gone, token, next, user, id, at);
    case Logout(gone, at) => if gone == id { RotatedIsDead(y.redis, gone, at); } else { RotationHolds(y.redis, gone, user, id, at); }
    case Revoke(_, gone, at) => if gone == id { RotatedIsDead(y.redis, gone, at); } else { RotationHolds(y.redis, gone, user, id, at); }
    case ResetPassword(owner, at) => ResetReaches(y.redis, owner, user, id, at);
  }

  /** An id that is not in the index by now does not come back: ids are not issued twice. */
  lemma LostStep(c: Config, y: State, step: Step, user: UserId, id: SessionId)
    requires Enabled(y, step) && id in y.issued && id !in Members(y.redis, user, step.at)
    ensures id !in Members(Next(c, y, step).redis, user, step.at)
  {
    hide Refresh;
    if step.RefreshStep? { RefreshedIndex(c, y.redis, step.id, step.token, step.next, user, step.at); }
  }

  /** A session that has ended by a step's time stays ended through it. */
  lemma EndedStep(c: Config, y: State, step: Step, id: SessionId)
    requires Enabled(y, step) && id in y.issued && Dead(y.redis, id, step.at)
    ensures Dead(Next(c, y, step).redis, id, step.at)
  {
    hide Next, Enabled;
    AtItsTime(c, y, step);
    DeadStep(c, y.(now := step.at), step, id);
  }

  lemma AtItsTime(c: Config, y: State, step: Step)
    requires Enabled(y, step)
    ensures Enabled(y.(now := step.at), step) && Next(c, y.(now := step.at), step) == Next(c, y, step)
  {}

  // ---- Whole runs -----------------------------------------------------------------------------------------

  /** The user's index key has run out, or was never there, when step m is taken. */
  ghost predicate IndexGone(r: MixedRun, m: nat, user: UserId)
    requires |r.states| == |r.steps| + 1 && m < |r.steps|
  {
    Get(r.states[m].redis.index, user, r.steps[m].at) == None
  }

  ghost predicate Created(r: MixedRun, c: nat, user: UserId, id: SessionId)
    requires |r.states| == |r.steps| + 1 == |r.configs| + 1
  {
    c < |r.steps| && Creates(r.configs[c], r.states[c], r.steps[c], user, id)
  }

  lemma CreatedIsHeld(c: Config, y: State, step: Step, user: UserId, id: SessionId)
    requires Enabled(y, step) && Creates(c, y, step, user, id)
    ensures Held(Next(c, y, step).redis, user, id) && id in Next(c, y, step).issued
  {
    hide RotateOutSession, TouchSession, Validate;
  }

  lemma {:induction false} IssuedFromThen(r: MixedRun, c: nat, k: nat, user: UserId, id: SessionId)
    requires IsMixedRun(r) && Created(r, c, user, id) && c < k < |r.states|
    ensures id in r.states[k].issued
  {
    hide Next, Enabled, Creates;
    assert Follows(r, k - 1);
    if c == k - 1 {
      CreatedIsHeld(r.configs[c], r.states[c], r.steps[c], user, id);
    } else {
      IssuedFromThen(r, c, k - 1, user, id);
      IssuedGrows(r.configs[k - 1], r.states[k - 1], r.steps[k - 1]);
    }
  }

  /** As long as the index key has been there, a session that is alive is in it. */
  lemma {:induction false} HeldWhileIndexed(r: MixedRun, c: nat, k: nat, user: UserId, id: SessionId)
    requires IsMixedRun(r) && Created(r, c, user, id) && c < k < |r.states|
    requires forall m | c < m < k :: !IndexGone(r, m, user)
    ensures Held(r.states[k].redis, user, id) || Dead(r.states[k].redis, id, r.states[k].now)
  {
    hide Next, Enabled, Creates, Held, Dead, IndexGone;
    assert Follows(r, k - 1);
    var y, step := r.states[k - 1], r.steps[k - 1];
    IssuedGrows(r.configs[k - 1], y, step);
    if c == k - 1 {
      CreatedIsHeld(r.configs[c], y, step, user, id);
    } else {
      HeldWhileIndexed(r, c, k - 1, user, id);
      IssuedFromThen(r, c, k - 1, user, id);
      assert !IndexGone(r, k - 1, user);
      if Held(y.redis, user, id) {
        IndexThere(r, k - 1, user);
        HoldsStep(r.configs[k - 1], y, step, user, id);
      } else {
        EndsInTime(y, step, id);
        EndedStep(r.configs[k - 1], y, step, id);
      }
    }
  }

  lemma IndexThere(r: MixedRun, m: nat, user: UserId)
    requires |r.states| == |r.steps| + 1 && m < |r.steps| && !IndexGone(r, m, user)
    ensures Get(r.states[m].redis.index, user, r.steps[m].at).Some?
  {}

  lemma EndsInTime(y: State, step: Step, id: SessionId)
    requires Enabled(y, step) && Dead(y.redis, id, y.now)
    ensures Dead(y.redis, id, step.at)
  {}

  /** Once the index key has run out, the session is not in any index that follows. */
  lemma {:induction false} LostOnceGone(r: MixedRun, c: nat, m: nat, k: nat, user: UserId, id: SessionId)
    requires IsMixedRun(r) && Created(r, c, user, id) && c < m <= k < |r.steps| && IndexGone(r, m, user)
    ensures id !in Members(r.states[k].redis, user, r.steps[k].at)
  {
    hide Next, Creates;
    if m < k {
      LostOnceGone(r, c, m, k - 1, user, id);
      assert Follows(r, k - 1) && Follows(r, k);
      IssuedFromThen(r, c, k - 1, user, id);
      LostStep(r.configs[k - 1], r.states[k - 1], r.steps[k - 1], user, id);
      IssuedGrows(r.configs[k - 1], r.states[k - 1], r.steps[k - 1]);
    }
  }

  /** Both revocations, by the reset and by the detection of a reuse, are the removal of what the index holds. */
  lemma RevokesMembers(c: Config, y: State, step: Step, user: UserId)
    requires Enabled(y, step) && EndsAll(y, step, user)
    ensures Next(c, y, step).redis == DestroyAllSessionsForUser(y.redis, user, step.at)
  {}

  /**
   * In every run, with lifetimes that differ as they may, a session that is alive when its user's
   * sessions are all revoked, by a password reset or over a token that is used again, outlives
   * that if and only if the user's index key ran out at some moment since the session was created.
   */
  lemma SurvivesRevocationExactly(r: MixedRun, c: nat, k: nat, user: UserId, id: SessionId)
    requires IsMixedRun(r) && Created(r, c, user, id) && c < k < |r.steps|
    requires EndsAll(r.states[k], r.steps[k], user) && !Dead(r.states[k].redis, id, r.steps[k].at)
    ensures !Dead(r.states[k + 1].redis, id, r.steps[k].at) <==> exists m :: c < m <= k && IndexGone(r, m, user)
  {
    assert Follows(r, k);
    var y, at := r.states[k], r.steps[k].at;
    RevokesMembers(r.configs[k], y, r.steps[k], user);
    hide Next, EndsAll, Validate;
    assert !Dead(r.states[k + 1].redis, id, at) <==> id !in Members(y.redis, user, at);
    if m :| c < m <= k && IndexGone(r, m, user) { LostOnceGone(r, c, m, k, user, id); }
    if forall m | c < m <= k :: !IndexGone(r, m, user) {
      HeldWhileIndexed(r, c, k, user, id);
      IndexThere(r, k, user);
    }
  }

  // ---- A run in which it does -------------------------------------------------------------------------------

  function Last(r: MixedRun): State
    requires r.states != []
  {
    r.states[|r.states| - 1]
  }

  lemma Extend(r: MixedRun, c: Config, step: Step) returns (r': MixedRun)
    requires IsMixedRun(r) && Enabled(Last(r), step)
    ensures IsMixedRun(r') && Last(r') == Next(c, Last(r), step) && r'.steps == r.steps + [step]
  {
    hide Next, Enabled;
    r' := MixedRun(r.states + [Next(c, Last(r), step)], r.steps + [step], r.configs + [c]);
    forall k: nat | k < |r'.steps| ensures Follows(r', k) {
      if k < |r.steps| { assert Follows(r, k); }
    }
  }

  /** A short session created after a long one takes the index with it, and a reset that comes then leaves the long one valid. */
  lemma LongOutlivesReset(user: UserId, short: nat, long: nat) returns (r: MixedRun)
    requires short < long
    ensures IsMixedRun(r) && r.steps == [Login(user, Issue(1, 11), "", "", 0), Login(user, Issue(2, 22), "", "", 0), ResetPassword(user, short)]
    ensures Validate(Last(r).redis, 1, 11, short) == Valid(user)
  {
    var lasting, passing := Config(_ => long, _ => None), Config(_ => short, _ => None);
    r := MixedRun([State(Redis(map[], map[], map[]), 0, {})], [], []);
    assert IsMixedRun(r);
    hide IsMixedRun;
    r := Extend(r, lasting, Login(user, Issue(1, 11), "", "", 0));
    r := Extend(r, passing, Login(user, Issue(2, 22), "", "", 0));
    r := Extend(r, passing, ResetPassword(user, short));
  }
}
