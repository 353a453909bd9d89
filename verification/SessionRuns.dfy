/**
 * Sessions over whole runs: logins, refreshes, logouts, revocations and password resets at
 * non-decreasing times, each one step, with one session lifetime per user.
 */
module SessionRuns {
  import opened Common
  import opened Sessions

  datatype Config = Config(ttl: UserId -> nat, maxDevices: UserId -> Option<nat>)

  datatype State = State(redis: Redis, now: int, issued: set<SessionId>)

  datatype Step =
    | Login(user: UserId, next: Issue, device: string, ip: string, at: int)
    | RefreshStep(id: SessionId, token: Token, next: Issue, at: int)
    | Logout(id: SessionId, at: int)
    | Revoke(user: UserId, id: SessionId, at: int)
    | ResetPassword(user: UserId, at: int)

  predicate Enabled(y: State, step: Step) {
    && y.now <= step.at
    && (step.Login? || step.RefreshStep? ==> step.next.id !in y.issued)
  }

  function Apply(c: Config, r: Redis, step: Step): Redis {
    match step
    case Login(user, next, device, ip, at) =>
      (match IssueTokens(r, user, c.maxDevices(user), next, device, ip, c.ttl(user), at) case Some(r') => r' case None => r)
    case RefreshStep(id, token, next, at) => Refresh(r, id, token, c.maxDevices, next, c.ttl, at).0
    case Logout(id, at) => DestroySession(r, id, at)
    case Revoke(user, id, at) => RevokeOwnSession(r, user, id, at)
    case ResetPassword(user, at) => DestroyAllSessionsForUser(r, user, at)
  }

  function Next(c: Config, y: State, step: Step): State
    requires Enabled(y, step)
  {
    State(Apply(c, y.redis, step), step.at, if step.Login? || step.RefreshStep? then y.issued + {step.next.id} else y.issued)
  }

  datatype Run = Run(states: seq<State>, steps: seq<Step>)

  ghost predicate Taken(c: Config, r: Run, k: nat)
    requires |r.states| == |r.steps| + 1 && k < |r.steps|
  {
    Enabled(r.states[k], r.steps[k]) && r.states[k + 1] == Next(c, r.states[k], r.steps[k])
  }

  ghost predicate IsRun(c: Config, r: Run) {
    && |r.states| == |r.steps| + 1
    && r.states[0].redis == Redis(map[], map[], map[]) && r.states[0].issued == {}
    && forall k: nat | k < |r.steps| :: Taken(c, r, k)
  }

  // ---- The invariant --------------------------------------------------------------------------------

  /** Live sessions are indexed and end within their user's lifetime from now; ids and members were issued. */
  ghost predicate IndexSound(c: Config, r: Redis, now: int, issued: set<SessionId>) {
    && Covered(r, now)
    && r.sessions.Keys <= issued && r.tombstones.Keys <= issued
    && (forall id | id in r.sessions && now < r.sessions[id].expiresAt :: r.sessions[id].expiresAt <= now + c.ttl(r.sessions[id].value.user))
    && (forall user | user in r.index :: r.index[user].value <= issued)
  }

  ghost predicate WithinLimits(c: Config, r: Redis, now: int) {
    forall user | c.maxDevices(user).Some? :: |Members(r, user, now)| <= c.maxDevices(user).value
  }

  lemma TimePasses(c: Config, r: Redis, now: int, later: int, issued: set<SessionId>)
    requires IndexSound(c, r, now, issued) && WithinLimits(c, r, now) && now <= later
    ensures IndexSound(c, r, later, issued) && WithinLimits(c, r, later)
  {
    forall id | id in r.sessions ensures CoveredSession(r, id, later) { assert CoveredSession(r, id, now); }
    forall user | c.maxDevices(user).Some? ensures |Members(r, user, later)| <= c.maxDevices(user).value {
      SubsetSize(Members(r, user, later), Members(r, user, now));
    }
  }

  lemma CreateSound(c: Config, r: Redis, user: UserId, next: Issue, device: string, ip: string, now: int, issued: set<SessionId>)
    requires IndexSound(c, r, now, issued) && next.id !in issued
    ensures IndexSound(c, CreateSession(r, user, next.id, next.token, device, ip, c.ttl(user), now), now, issued + {next.id})
  {
    var r' := CreateSession(r, user, next.id, next.token, device, ip, c.ttl(user), now);
    assert Covered(r', now) by { CreateCoversExactly(r, user, next, device, ip, c.ttl(user), now); }
    hide Covered;
  }

  lemma CreateWithinLimits(c: Config, r: Redis, user: UserId, next: Issue, device: string, ip: string, now: int)
    requires WithinLimits(c, r, now)
    requires c.maxDevices(user).Some? ==> |Members(r, user, now)| < c.maxDevices(user).value
    ensures WithinLimits(c, CreateSession(r, user, next.id, next.token, device, ip, c.ttl(user), now), now)
  {
    var r' := CreateSession(r, user, next.id, next.token, device, ip, c.ttl(user), now);
    forall other | c.maxDevices(other).Some? ensures |Members(r', other, now)| <= c.maxDevices(other).value {
      if other == user { SubsetSize(Members(r', user, now), Members(r, user, now) + {next.id}); } else { assert Members(r', other, now) == Members(r, other, now); }
    }
  }

  lemma DestroySound(c: Config, r: Redis, id: SessionId, now: int, issued: set<SessionId>)
    requires IndexSound(c, r, now, issued) && WithinLimits(c, r, now)
    ensures IndexSound(c, DestroySession(r, id, now), now, issued) && WithinLimits(c, DestroySession(r, id, now), now)
  {
    var r' := DestroySession(r, id, now);
    forall other | other in r'.sessions ensures CoveredSession(r', other, now) { assert CoveredSession(r, other, now); }
    forall user | c.maxDevices(user).Some? ensures |Members(r', user, now)| <= c.maxDevices(user).value {
      SubsetSize(Members(r', user, now), Members(r, user, now));
    }
  }

  lemma DestroyAllSound(c: Config, r: Redis, user: UserId, now: int, issued: set<SessionId>)
    requires IndexSound(c, r, now, issued) && WithinLimits(c, r, now)
    ensures IndexSound(c, DestroyAllSessionsForUser(r, user, now), now, issued) && WithinLimits(c, DestroyAllSessionsForUser(r, user, now), now)
  {
    var r' := DestroyAllSessionsForUser(r, user, now);
    DestroyAllEndsAll(r, user, now);
    forall other | other in r'.sessions ensures CoveredSession(r', other, now) {
      assert CoveredSession(r, other, now);
      assert other !in LiveOf(r', user, now);
    }
    forall other | c.maxDevices(other).Some? ensures |Members(r', other, now)| <= c.maxDevices(other).value {
      SubsetSize(Members(r', other, now), Members(r, other, now));
    }
  }

  lemma IssueSound(c: Config, r: Redis, user: UserId, next: Issue, device: string, ip: string, now: int, issued: set<SessionId>)
    requires IndexSound(c, r, now, issued) && WithinLimits(c, r, now) && next.id !in issued
    ensures var issue := IssueTokens(r, user, c.maxDevices(user), next, device, ip, c.ttl(user), now);
            issue.Some? ==> IndexSound(c, issue.value, now, issued + {next.id}) && WithinLimits(c, issue.value, now)
  {
    if IssueTokens(r, user, c.maxDevices(user), next, device, ip, c.ttl(user), now).Some? {
      hide IndexSound, WithinLimits, CreateSession;
      CreateSound(c, r, user, next, device, ip, now, issued);
      CreateWithinLimits(c, r, user, next, device, ip, now);
    }
  }

  lemma TouchSound(c: Config, r: Redis, id: SessionId, now: int, issued: set<SessionId>)
    requires IndexSound(c, r, now, issued) && WithinLimits(c, r, now)
    ensures IndexSound(c, TouchSession(r, id, now), now, issued) && WithinLimits(c, TouchSession(r, id, now), now)
  {
    var r' := TouchSession(r, id, now);
    forall other | other in r'.sessions ensures CoveredSession(r', other, now) { assert CoveredSession(r, other, now); }
  }

  lemma RotateSound(c: Config, r: Redis, id: SessionId, now: int, issued: set<SessionId>)
    requires IndexSound(c, r, now, issued) && WithinLimits(c, r, now)
    ensures IndexSound(c, RotateOutSession(r, id, now), now, issued) && WithinLimits(c, RotateOutSession(r, id, now), now)
  {
    match Get(r.sessions, id, now)
    case None => DestroySound(c, r, id, now, issued);
    case Some(record) =>
      var marked := r.(tombstones := r.tombstones[id := Timed(Tombstone(record.user, record.token), now + TOMBSTONE_TTL_SECONDS)]);
      assert IndexSound(c, marked, now, issued) && WithinLimits(c, marked, now) by {
        forall other | other in marked.sessions ensures CoveredSession(marked, other, now) { assert CoveredSession(r, other, now); }
      }
      hide IndexSound, WithinLimits, DestroySession;
      DestroySound(c, marked, id, now, issued);
  }

  lemma MoreIssued(c: Config, r: Redis, now: int, issued: set<SessionId>, more: set<SessionId>)
    requires IndexSound(c, r, now, issued) && issued <= more
    ensures IndexSound(c, r, now, more)
  {}

  lemma RefreshSound(c: Config, r: Redis, id: SessionId, token: Token, next: Issue, now: int, issued: set<SessionId>)
    requires IndexSound(c, r, now, issued) && WithinLimits(c, r, now) && next.id !in issued
    ensures var r' := Refresh(r, id, token, c.maxDevices, next, c.ttl, now).0;
            IndexSound(c, r', now, issued + {next.id}) && WithinLimits(c, r', now)
  {
    match Validate(r, id, token, now)
    case Invalid =>
      MoreIssued(c, r, now, issued, issued + {next.id});
    case Reused(user) =>
      DestroyAllSound(c, r, user, now, issued);
      MoreIssued(c, DestroyAllSessionsForUser(r, user, now), now, issued, issued + {next.id});
    case Valid(user) =>
      var device := Get(r.sessions, id, now).value;
      hide IndexSound, WithinLimits, TouchSession, RotateOutSession, IssueTokens;
      TouchSound(c, r, id, now, issued);
      RotateSound(c, TouchSession(r, id, now), id, now, issued);
      var rotated := RotateOutSession(TouchSession(r, id, now), id, now);
      IssueSound(c, rotated, user, next, device.deviceLabel, device.ipAddress, now, issued);
      MoreIssued(c, rotated, now, issued, issued + {next.id});
  }

  ghost predicate SoundState(c: Config, y: State) { IndexSound(c, y.redis, y.now, y.issued) && WithinLimits(c, y.redis, y.now) }

  lemma SoundStep(c: Config, y: State, step: Step)
    requires SoundState(c, y) && Enabled(y, step)
    ensures SoundState(c, Next(c, y, step))
  {
    TimePasses(c, y.redis, y.now, step.at, y.issued);
    hide IndexSound, WithinLimits, Refresh, IssueTokens, DestroySession, DestroyAllSessionsForUser;
    match step
    case Login(user, next, device, ip, at) =>
      IssueSound(c, y.redis, user, next, device, ip, at, y.issued);
      MoreIssued(c, y.redis, at, y.issued, y.issued + {next.id});
    case RefreshStep(id, token, next, at) => RefreshSound(c, y.redis, id, token, next, at, y.issued);
    case Logout(id, at) => DestroySound(c, y.redis, id, at, y.issued);
    case Revoke(user, id, at) => DestroySound(c, y.redis, id, at, y.issued);
    case ResetPassword(user, at) => DestroyAllSound(c, y.redis, user, at, y.issued);
  }

  /** In every reachable state every live session is in its user's index, for at least as long as it lives. */
  lemma {:induction false} IndexSoundThroughout(c: Config, r: Run, k: nat)
    requires IsRun(c, r) && k < |r.states|
    ensures SoundState(c, r.states[k])
  {
    hide Next, Enabled;
    if k > 0 {
      hide SoundState;
      IndexSoundThroughout(c, r, k - 1);
      assert Taken(c, r, k - 1);
      SoundStep(c, r.states[k - 1], r.steps[k - 1]);
    }
  }

  // ---- Dead sessions stay dead ------------------------------------------------------------------------

  /** The session is over at `now`, and so at any later time, since its id was issued and is not issued again. */
  predicate Dead(r: Redis, id: SessionId, now: int) { Get(r.sessions, id, now) == None }

  lemma DeadStep(c: Config, y: State, step: Step, id: SessionId)
    requires Enabled(y, step) && id in y.issued && Dead(y.redis, id, y.now)
    ensures Dead(Next(c, y, step).redis, id, step.at)
  {
    hide Members, Unindex;
  }

  lemma {:induction false} DeadStaysDead(c: Config, r: Run, i: nat, j: nat, id: SessionId)
    requires IsRun(c, r) && i <= j < |r.states| && id in r.states[i].issued && Dead(r.states[i].redis, id, r.states[i].now)
    ensures Dead(r.states[j].redis, id, r.states[j].now) && id in r.states[j].issued
  {
    if i < j {
      hide Next, Enabled, Dead;
      DeadStaysDead(c, r, i, j - 1, id);
      assert Taken(c, r, j - 1);
      DeadStep(c, r.states[j - 1], r.steps[j - 1], id);
      IssuedGrows(c, r.states[j - 1], r.steps[j - 1]);
    }
  }

  lemma IssuedGrows(c: Config, y: State, step: Step)
    requires Enabled(y, step)
    ensures y.issued <= Next(c, y, step).issued && Next(c, y, step).now == step.at
  {}

  /** Step `k` ends all the user's sessions: a password reset, or a refresh with a token already rotated out. */
  predicate EndsAll(y: State, step: Step, user: UserId) {
    || (step.ResetPassword? && step.user == user)
    || (step.RefreshStep? && Validate(y.redis, step.id, step.token, step.at) == Reused(user))
  }

  lemma EndsAllOf(c: Config, y: State, step: Step, user: UserId)
    requires SoundState(c, y) && Enabled(y, step) && EndsAll(y, step, user)
    ensures LiveOf(Next(c, y, step).redis, user, step.at) == {}
  {
    TimePasses(c, y.redis, y.now, step.at, y.issued);
    hide DestroyAllSessionsForUser;
    DestroyAllEndsAll(y.redis, user, step.at);
  }

  /** A session belongs to the user it was created for as long as it is kept. */
  lemma OwnerStep(c: Config, y: State, step: Step, id: SessionId)
    requires Enabled(y, step) && id in y.issued && id in Next(c, y, step).redis.sessions
    ensures id in y.redis.sessions && Next(c, y, step).redis.sessions[id].value.user == y.redis.sessions[id].value.user
  {
    hide Members, Unindex;
  }

  lemma {:induction false} OwnerKept(c: Config, r: Run, i: nat, j: nat, id: SessionId)
    requires IsRun(c, r) && i <= j < |r.states| && id in r.states[i].issued && id in r.states[j].redis.sessions
    ensures id in r.states[i].redis.sessions && r.states[j].redis.sessions[id].value.user == r.states[i].redis.sessions[id].value.user
  {
    if i < j {
      hide Next, Enabled;
      assert Taken(c, r, j - 1);
      IssuedKept(c, r, i, j - 1);
      OwnerStep(c, r.states[j - 1], r.steps[j - 1], id);
      OwnerKept(c, r, i, j - 1, id);
    }
  }

  lemma {:induction false} IssuedKept(c: Config, r: Run, i: nat, j: nat)
    requires IsRun(c, r) && i <= j < |r.states|
    ensures r.states[i].issued <= r.states[j].issued && r.states[i].now <= r.states[j].now
  {
    if i < j {
      hide Next, Enabled;
      IssuedKept(c, r, i, j - 1);
      assert Taken(c, r, j - 1);
      IssuedGrows(c, r.states[j - 1], r.steps[j - 1]);
      assert r.states[j - 1].now <= r.states[j].now by { MovesOn(c, r, j - 1); }
    }
  }

  lemma MovesOn(c: Config, r: Run, k: nat)
    requires IsRun(c, r) && k < |r.steps|
    ensures r.states[k].now <= r.steps[k].at == r.states[k + 1].now
  {
    assert Taken(c, r, k);
  }

  /** After a reset, or a detected reuse, no pair issued to the user before ever validates again. */
  lemma NoEarlierTokenValidates(c: Config, r: Run, i: nat, j: nat, user: UserId, id: SessionId, token: Token, at: int)
    requires IsRun(c, r) && i < j < |r.states| && EndsAll(r.states[i], r.steps[i], user)
    requires id in r.states[i].issued && r.states[j].now <= at
    ensures Validate(r.states[j].redis, id, token, at) != Valid(user)
  {
    assert Taken(c, r, i);
    IndexSoundThroughout(c, r, i);
    hide SoundState;
    EndsAllOf(c, r.states[i], r.steps[i], user);
    IssuedKept(c, r, i, i + 1);
    var y, z := r.states[i + 1], r.states[j];
    MovesOn(c, r, i);
    hide Next, Enabled, EndsAll;
    if Validate(z.redis, id, token, at) == Valid(user) {
      OwnerKept(c, r, i + 1, j, id);
      assert id !in LiveOf(y.redis, user, y.now);
      assert Dead(y.redis, id, y.now);
      DeadStaysDead(c, r, i + 1, j, id);
    }
  }

  // ---- Rotation ---------------------------------------------------------------------------------------

  /** Step `k` is a refresh that accepts the pair. */
  predicate Accepts(y: State, step: Step, id: SessionId, token: Token) {
    step.RefreshStep? && step.id == id && step.token == token && Validate(y.redis, id, token, step.at).Valid?
  }

  predicate Entombed(r: Redis, id: SessionId, user: UserId, token: Token, until: int) {
    id in r.tombstones && r.tombstones[id] == Timed(Tombstone(user, token), until)
  }

  lemma AcceptRotates(c: Config, y: State, step: Step, id: SessionId, token: Token)
    requires Enabled(y, step) && Accepts(y, step, id, token) && id in y.issued
    ensures var r := Next(c, y, step).redis;
            && Dead(r, id, step.at)
            && Entombed(r, id, y.redis.sessions[id].value.user, token, step.at + TOMBSTONE_TTL_SECONDS)
  {
    hide Members, Unindex;
  }

  lemma EntombedStep(c: Config, y: State, step: Step, id: SessionId, user: UserId, token: Token, until: int)
    requires Enabled(y, step) && id in y.issued && Dead(y.redis, id, y.now) && Entombed(y.redis, id, user, token, until)
    ensures Entombed(Next(c, y, step).redis, id, user, token, until)
  {
    hide Members, Unindex;
  }

  lemma {:induction false} EntombedStays(c: Config, r: Run, i: nat, j: nat, id: SessionId, user: UserId, token: Token, until: int)
    requires IsRun(c, r) && i <= j < |r.states| && id in r.states[i].issued && Dead(r.states[i].redis, id, r.states[i].now)
    requires Entombed(r.states[i].redis, id, user, token, until)
    ensures Entombed(r.states[j].redis, id, user, token, until)
  {
    if i < j {
      hide Next, Enabled, Dead, Entombed;
      EntombedStays(c, r, i, j - 1, id, user, token, until);
      DeadStaysDead(c, r, i, j - 1, id);
      assert Taken(c, r, j - 1);
      EntombedStep(c, r.states[j - 1], r.steps[j - 1], id, user, token, until);
    }
  }

  /**
   * A pair that was accepted is never accepted again. For a day from that moment it is answered
   * as reused, and from then on as invalid.
   */
  lemma AcceptedThenReused(c: Config, r: Run, i: nat, j: nat, id: SessionId, token: Token, at: int)
    requires IsRun(c, r) && i < j < |r.states| && Accepts(r.states[i], r.steps[i], id, token) && r.states[j].now <= at
    ensures id in r.states[i].redis.sessions
    ensures Validate(r.states[j].redis, id, token, at) ==
            if at < r.steps[i].at + 86_400 then Reused(r.states[i].redis.sessions[id].value.user) else Invalid
  {
    assert Taken(c, r, i);
    IndexSoundThroughout(c, r, i);
    AcceptRotates(c, r.states[i], r.steps[i], id, token);
    IssuedKept(c, r, i, i + 1);
    MovesOn(c, r, i);
    hide Next, Enabled, Validate, Dead, Entombed;
    var user := r.states[i].redis.sessions[id].value.user;
    DeadStaysDead(c, r, i + 1, j, id);
    EntombedStays(c, r, i + 1, j, id, user, token, r.steps[i].at + TOMBSTONE_TTL_SECONDS);
    DeadLater(r.states[j].redis, id, r.states[j].now, at);
    TombstoneAnswers(r.states[j].redis, id, user, token, r.steps[i].at + TOMBSTONE_TTL_SECONDS, at);
  }

  lemma TombstoneAnswers(r: Redis, id: SessionId, user: UserId, token: Token, until: int, at: int)
    requires Entombed(r, id, user, token, until) && Dead(r, id, at)
    ensures Validate(r, id, token, at) == if at < until then Reused(user) else Invalid
  {}

  lemma DeadLater(r: Redis, id: SessionId, now: int, at: int)
    requires Dead(r, id, now) && now <= at
    ensures Dead(r, id, at)
  {}

  // ---- What a reused answer means -------------------------------------------------------------------------

  /** A tombstone is written by the refresh that accepted its pair, to last a day from then. */
  lemma TombstoneStep(c: Config, y: State, step: Step, id: SessionId)
    requires Enabled(y, step) && id in Next(c, y, step).redis.tombstones
    ensures var tomb := Next(c, y, step).redis.tombstones[id];
            || (id in y.redis.tombstones && tomb == y.redis.tombstones[id])
            || (Accepts(y, step, id, tomb.value.token) && tomb.expiresAt == step.at + TOMBSTONE_TTL_SECONDS)
  {
    hide Members, Unindex;
  }

  lemma {:induction false} TombstoneOrigin(c: Config, r: Run, k: nat, id: SessionId) returns (i: nat)
    requires IsRun(c, r) && k < |r.states| && id in r.states[k].redis.tombstones
    ensures i < k && Accepts(r.states[i], r.steps[i], id, r.states[k].redis.tombstones[id].value.token)
    ensures r.states[k].redis.tombstones[id].expiresAt == r.steps[i].at + TOMBSTONE_TTL_SECONDS
  {
    hide Next, Enabled, Accepts;
    assert Taken(c, r, k - 1);
    TombstoneStep(c, r.states[k - 1], r.steps[k - 1], id);
    if id in r.states[k - 1].redis.tombstones && r.states[k].redis.tombstones[id] == r.states[k - 1].redis.tombstones[id] {
      i := TombstoneOrigin(c, r, k - 1, id);
    } else {
      i := k - 1;
    }
  }

  /** In every run a pair is answered as reused exactly when it was accepted before, less than a day ago. */
  lemma ReusedExactly(c: Config, r: Run, k: nat, id: SessionId, token: Token, at: int)
    requires IsRun(c, r) && k < |r.states| && r.states[k].now <= at
    ensures Validate(r.states[k].redis, id, token, at).Reused? <==>
            exists i :: 0 <= i < k && Accepts(r.states[i], r.steps[i], id, token) && at < r.steps[i].at + 86_400
  {
    if Validate(r.states[k].redis, id, token, at).Reused? {
      var i := TombstoneOrigin(c, r, k, id);
    }
    if i :| 0 <= i < k && Accepts(r.states[i], r.steps[i], id, token) && at < r.steps[i].at + TOMBSTONE_TTL_SECONDS {
      AcceptedThenReused(c, r, i, k, id, token, at);
    }
  }

  /** With a fixed limit a pair that validates is always granted its rotation. */
  lemma NeverRefused(c: Config, r: Run, k: nat, id: SessionId, token: Token, user: UserId, next: Issue, at: int)
    requires IsRun(c, r) && k < |r.states| && r.states[k].now <= at && Validate(r.states[k].redis, id, token, at) == Valid(user)
    ensures Refresh(r.states[k].redis, id, token, c.maxDevices, next, c.ttl, at).1 == Issued(user)
  {
    var y := r.states[k];
    IndexSoundThroughout(c, r, k);
    TimePasses(c, y.redis, y.now, at, y.issued);
    FixedLimitGrants(c, y.redis, id, token, user, next, at, y.issued);
  }

  lemma FixedLimitGrants(c: Config, r: Redis, id: SessionId, token: Token, user: UserId, next: Issue, at: int, issued: set<SessionId>)
    requires IndexSound(c, r, at, issued) && WithinLimits(c, r, at) && Validate(r, id, token, at) == Valid(user)
    ensures Refresh(r, id, token, c.maxDevices, next, c.ttl, at).1 == Issued(user)
    ensures c.maxDevices(user).Some? ==> |Members(r, user, at) - {id}| < c.maxDevices(user).value
  {
    LimitRefusesExactly(r, id, token, user, c.maxDevices, next, c.ttl, at);
    assert CoveredSession(r, id, at);
    assert id in Members(r, user, at);
    hide IndexSound, RotateOutSession, TouchSession;
  }

  // ---- What the index counts ------------------------------------------------------------------------------

  /** The step creates session `id` for `user`. */
  predicate Creates(c: Config, y: State, step: Step, user: UserId, id: SessionId) {
    match step
    case Login(u, next, _, _, at) => u == user && next.id == id && IssueTokens(y.redis, u, c.maxDevices(u), next, "", "", c.ttl(u), at).Some?
    case RefreshStep(old_id, token, next, at) => next.id == id && Refresh(y.redis, old_id, token, c.maxDevices, next, c.ttl, at).1 == Issued(user)
    case _ => false
  }

  predicate LivesUntil(r: Redis, user: UserId, id: SessionId, end: int) {
    id in r.sessions && r.sessions[id].value.user == user && r.sessions[id].expiresAt == end
  }

  lemma CreatedNow(c: Config, y: State, step: Step, user: UserId, id: SessionId)
    requires Enabled(y, step) && Creates(c, y, step, user, id)
    ensures LivesUntil(Next(c, y, step).redis, user, id, step.at + c.ttl(user))
  {
    hide Members, Unindex;
  }

  /** An index holds no id of another user's session. */
  ghost predicate IndexOwned(r: Redis) {
    forall user, id | user in r.index && id in r.index[user].value && id in r.sessions :: r.sessions[id].value.user == user
  }

  lemma OwnedRotation(r: Redis, id: SessionId, now: int)
    requires IndexOwned(r)
    ensures IndexOwned(RotateOutSession(TouchSession(r, id, now), id, now)) && IndexOwned(DestroySession(r, id, now))
  {}

  lemma OwnedIssue(r: Redis, user: UserId, max: Option<nat>, next: Issue, device: string, ip: string, ttl: nat, now: int)
    requires IndexOwned(r) && forall u | u in r.index :: next.id !in r.index[u].value
    ensures match IssueTokens(r, user, max, next, device, ip, ttl, now) case Some(r') => IndexOwned(r') case None => true
  {}

  lemma RotationShrinksIndexes(r: Redis, id: SessionId, now: int)
    ensures var r' := RotateOutSession(TouchSession(r, id, now), id, now);
            r'.index.Keys == r.index.Keys && forall u | u in r.index :: r'.index[u].value <= r.index[u].value
  {}

  lemma OwnedRefresh(c: Config, r: Redis, id: SessionId, token: Token, next: Issue, now: int)
    requires IndexOwned(r) && forall u | u in r.index :: next.id !in r.index[u].value
    ensures IndexOwned(Refresh(r, id, token, c.maxDevices, next, c.ttl, now).0)
  {
    var v := Validate(r, id, token, now);
    if v.Valid? {
      hide IndexOwned, RotateOutSession, TouchSession, IssueTokens;
      OwnedRotation(r, id, now);
      RotationShrinksIndexes(r, id, now);
      var device := Get(r.sessions, id, now).value;
      OwnedIssue(RotateOutSession(TouchSession(r, id, now), id, now), v.user, c.maxDevices(v.user), next, device.deviceLabel, device.ipAddress, c.ttl(v.user), now);
    }
  }

  lemma OwnedStep(c: Config, y: State, step: Step)
    requires SoundState(c, y) && IndexOwned(y.redis) && Enabled(y, step)
    ensures IndexOwned(Next(c, y, step).redis)
  {
    hide Refresh, IssueTokens, DestroySession;
    match step
    case Login(user, next, device, ip, at) => OwnedIssue(y.redis, user, c.maxDevices(user), next, device, ip, c.ttl(user), at);
    case RefreshStep(id, token, next, at) => OwnedRefresh(c, y.redis, id, token, next, at);
    case Logout(id, at) => OwnedRotation(y.redis, id, at);
    case Revoke(_, id, at) => OwnedRotation(y.redis, id, at);
    case ResetPassword(_, _) =>
  }

  lemma {:induction false} OwnedThroughout(c: Config, r: Run, k: nat)
    requires IsRun(c, r) && k < |r.states|
    ensures IndexOwned(r.states[k].redis)
  {
    hide Next, Enabled;
    if k > 0 {
      hide SoundState, IndexOwned;
      OwnedThroughout(c, r, k - 1);
      IndexSoundThroughout(c, r, k - 1);
      assert Taken(c, r, k - 1);
      OwnedStep(c, r.states[k - 1], r.steps[k - 1]);
    }
  }

  lemma RotatedIndex(r: Redis, id: SessionId, user: UserId, now: int)
    ensures Members(RotateOutSession(TouchSession(r, id, now), id, now), user, now) <= Members(r, user, now)
  {}

  lemma IssuedIndex(r: Redis, owner: UserId, max: Option<nat>, next: Issue, device: string, ip: string, ttl: nat, user: UserId, now: int)
    ensures match IssueTokens(r, owner, max, next, device, ip, ttl, now)
            case None => true
            case Some(r') => Members(r', user, now) <= Members(r, user, now) + if user == owner then {next.id} else {}
  {}

  lemma RefreshedIndex(c: Config, r: Redis, id: SessionId, token: Token, next: Issue, user: UserId, now: int)
    ensures var (r', outcome) := Refresh(r, id, token, c.maxDevices, next, c.ttl, now);
            Members(r', user, now) <= Members(r, user, now) + if outcome == Issued(user) then {next.id} else {}
  {
    var v := Validate(r, id, token, now);
    if v.Valid? {
      hide Members, RotateOutSession, TouchSession, IssueTokens;
      RotatedIndex(r, id, user, now);
      var device := Get(r.sessions, id, now).value;
      IssuedIndex(RotateOutSession(TouchSession(r, id, now), id, now), v.user, c.maxDevices(v.user), next, device.deviceLabel, device.ipAddress, c.ttl(v.user), user, now);
    }
  }

  /** An id enters an index with its session, and leaves it with it unless the session has run out. */
  lemma MemberStep(c: Config, y: State, step: Step, user: UserId, id: SessionId)
    requires Enabled(y, step) && id in Members(Next(c, y, step).redis, user, step.at)
    ensures Creates(c, y, step, user, id) || id in Members(y.redis, user, y.now)
  {
    hide Refresh;
    if step.RefreshStep? { RefreshedIndex(c, y.redis, step.id, step.token, step.next, user, step.at); }
  }

  lemma RotationKeepsMember(r: Redis, gone: SessionId, user: UserId, id: SessionId, end: int, at: int)
    requires IndexOwned(r) && LivesUntil(r, user, id, end) && at < end
    ensures id in Members(DestroySession(r, gone, at), user, at) ==> LivesUntil(DestroySession(r, gone, at), user, id, end)
    ensures var r' := RotateOutSession(TouchSession(r, gone, at), gone, at); id in Members(r', user, at) ==> LivesUntil(r', user, id, end)
  {}

  lemma IssueKeepsMember(r: Redis, owner: UserId, max: Option<nat>, next: Issue, device: string, ip: string, ttl: nat, user: UserId, id: SessionId, end: int, at: int)
    requires LivesUntil(r, user, id, end) && next.id != id
    ensures match IssueTokens(r, owner, max, next, device, ip, ttl, at) case Some(r') => LivesUntil(r', user, id, end) case None => true
  {}

  lemma ResetKeepsMember(r: Redis, owner: UserId, user: UserId, id: SessionId, end: int, at: int)
    requires IndexOwned(r) && LivesUntil(r, user, id, end)
    ensures var r' := DestroyAllSessionsForUser(r, owner, at); id in Members(r', user, at) ==> LivesUntil(r', user, id, end)
  {}

  lemma IssueIndexes(r: Redis, owner: UserId, max: Option<nat>, next: Issue, device: string, ip: string, ttl: nat, user: UserId, id: SessionId, at: int)
    requires next.id != id
    ensures match IssueTokens(r, owner, max, next, device, ip, ttl, at)
            case Some(r') => id in Members(r', user, at) ==> id in Members(r, user, at)
            case None => true
  {}

  lemma RefreshKeepsMember(c: Config, r: Redis, gone: SessionId, token: Token, next: Issue, user: UserId, id: SessionId, end: int, at: int)
    requires IndexOwned(r) && LivesUntil(r, user, id, end) && at < end && next.id != id
    ensures var r' := Refresh(r, gone, token, c.maxDevices, next, c.ttl, at).0; id in Members(r', user, at) ==> LivesUntil(r', user, id, end)
  {
    var v := Validate(r, gone, token, at);
    hide IndexOwned, LivesUntil, Members, RotateOutSession, TouchSession, IssueTokens, DestroyAllSessionsForUser;
    if v.Valid? {
      var rotated, device := RotateOutSession(TouchSession(r, gone, at), gone, at), Get(r.sessions, gone, at).value;
      RotationKeepsMember(r, gone, user, id, end, at);
      IssueIndexes(rotated, v.user, c.maxDevices(v.user), next, device.deviceLabel, device.ipAddress, c.ttl(v.user), user, id, at);
      if LivesUntil(rotated, user, id, end) {
        IssueKeepsMember(rotated, v.user, c.maxDevices(v.user), next, device.deviceLabel, device.ipAddress, c.ttl(v.user), user, id, end, at);
      }
    } else if v.Reused? {
      ResetKeepsMember(r, v.user, user, id, end, at);
    }
  }

  lemma MemberLives(c: Config, y: State, step: Step, user: UserId, id: SessionId, end: int)
    requires IndexOwned(y.redis) && Enabled(y, step) && id in Members(Next(c, y, step).redis, user, step.at)
    requires id in y.issued && LivesUntil(y.redis, user, id, end) && step.at < end
    ensures LivesUntil(Next(c, y, step).redis, user, id, end)
  {
    hide IndexOwned, LivesUntil, Members, Refresh, IssueTokens, DestroySession, DestroyAllSessionsForUser;
    match step
    case Login(owner, next, device, ip, at) => IssueKeepsMember(y.redis, owner, c.maxDevices(owner), next, device, ip, c.ttl(owner), user, id, end, at);
    case RefreshStep(gone, token, next, at) => RefreshKeepsMember(c, y.redis, gone, token, next, user, id, end, at);
    case Logout(gone, at) => RotationKeepsMember(y.redis, gone, user, id, end, at);
    case Revoke(_, gone, at) => RotationKeepsMember(y.redis, gone, user, id, end, at);
    case ResetPassword(owner, at) => ResetKeepsMember(y.redis, owner, user, id, end, at);
  }

  /**
   * An id in a user's index was created for that user, and its session is alive exactly as long as
   * its lifetime has not run out: what the device limit counts beside the live sessions are
   * sessions that ended by themselves, and no others.
   */
  lemma {:induction false} MemberOrigin(c: Config, r: Run, k: nat, user: UserId, id: SessionId) returns (i: nat)
    requires IsRun(c, r) && k < |r.states| && id in Members(r.states[k].redis, user, r.states[k].now)
    ensures i < k && Creates(c, r.states[i], r.steps[i], user, id) && id in r.states[k].issued
    ensures r.states[k].now < r.steps[i].at + c.ttl(user) ==> LivesUntil(r.states[k].redis, user, id, r.steps[i].at + c.ttl(user))
  {
    hide Next, Enabled, Creates, LivesUntil, IndexOwned;
    assert k > 0 by { hide *; assert r.states[0].redis.index == map[]; }
    assert Taken(c, r, k - 1);
    var y, step := r.states[k - 1], r.steps[k - 1];
    MovesOn(c, r, k - 1);
    MemberStep(c, y, step, user, id);
    if Creates(c, y, step, user, id) {
      i := k - 1;
      CreatedNow(c, y, step, user, id);
      CreatedIsIssued(c, y, step, user, id);
    } else {
      i := MemberOrigin(c, r, k - 1, user, id);
      OwnedThroughout(c, r, k - 1);
      IssuedGrows(c, y, step);
      var end := r.steps[i].at + c.ttl(user);
      if step.at < end { MemberLives(c, y, step, user, id, end); }
    }
  }

  lemma CreatedIsIssued(c: Config, y: State, step: Step, user: UserId, id: SessionId)
    requires Enabled(y, step) && Creates(c, y, step, user, id)
    ensures id in Next(c, y, step).issued
  {}

  // ---- A refusal below the limit -----------------------------------------------------------------------------

  function Last(r: Run): State
    requires r.states != []
  {
    r.states[|r.states| - 1]
  }

  lemma Extend(c: Config, r: Run, step: Step) returns (r': Run)
    requires IsRun(c, r) && Enabled(Last(r), step)
    ensures IsRun(c, r') && Last(r') == Next(c, Last(r), step) && r'.steps == r.steps + [step]
  {
    hide Next, Enabled;
    r' := Run(r.states + [Next(c, Last(r), step)], r.steps + [step]);
    forall k: nat | k < |r'.steps| ensures Taken(c, r', k) {
      if k < |r.steps| { assert Taken(c, r, k); }
    }
  }

  lemma TwoLogins(c: Config, user: UserId) returns (r: Run)
    requires c.ttl(user) >= 2 && c.maxDevices(user) == Some(2)
    ensures IsRun(c, r)
    ensures var ttl := c.ttl(user);
            && Last(r).now == 1
            && Last(r).redis.sessions == map[1 := Timed(Record(user, 11, "", "", 0, 0), ttl), 2 := Timed(Record(user, 22, "", "", 1, 1), 1 + ttl)]
            && Last(r).redis.index == map[user := Timed({1, 2}, 1 + ttl)]
  {
    r := Run([State(Redis(map[], map[], map[]), 0, {})], []);
    assert IsRun(c, r);
    hide IsRun;
    r := Extend(c, r, Login(user, Issue(1, 11), "", "", 0));
    assert {} + {1} == {1};
    r := Extend(c, r, Login(user, Issue(2, 22), "", "", 1));
    assert {1} + {2} == {1, 2};
  }

  /** Two logins a second apart under a limit of two: when the first session has run out, a third is still refused. */
  lemma RefusedBelowLimit(c: Config, user: UserId, next: Issue, device: string, ip: string) returns (r: Run)
    requires c.ttl(user) >= 2 && c.maxDevices(user) == Some(2)
    ensures IsRun(c, r) && Last(r).now <= c.ttl(user) && LiveOf(Last(r).redis, user, c.ttl(user)) == {2}
    ensures IssueTokens(Last(r).redis, user, c.maxDevices(user), next, device, ip, c.ttl(user), c.ttl(user)) == None
  {
    r := TwoLogins(c, user);
    assert Members(Last(r).redis, user, c.ttl(user)) == {1, 2};
  }
}
