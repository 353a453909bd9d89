/**
 * `refresh` and the logins with other calls beside them. A refresh validates the pair, then
 * rotates the session out; and it and a login alike then count the user's devices and create the
 * session. Anything may come in between, and nothing ties the rotation to the validation, or the
 * creation to the count.
 */
module SessionCalls {
  import opened Common
  import opened Sessions
  import opened SessionRuns

  type CallId = nat

  datatype Call =
    | Accepted(id: SessionId, token: Token, user: UserId)
    /** A login, or a refresh that has rotated its old session out, about to count the devices. */
    | Issuing(user: UserId, device: string, ip: string)
    /** The same, after the count has let it through. */
    | Counted(user: UserId, device: string, ip: string)

  datatype System = System(redis: Redis, now: int, issued: set<SessionId>, calls: map<CallId, Call>)

  datatype CallStep =
    | Other(step: Step)
    | Look(call: CallId, id: SessionId, token: Token, at: int)
    | RotateOut(call: CallId, at: int)
    | StartLogin(call: CallId, user: UserId, device: string, ip: string, at: int)
    | Count(call: CallId, at: int)
    | Create(call: CallId, next: Issue, at: int)

  function View(y: System): State { State(y.redis, y.now, y.issued) }

  /** The other calls are those of SessionRuns, all but its one-step refresh and login. */
  predicate Allowed(y: System, step: CallStep) {
    match step
    case Other(s) => SessionRuns.Enabled(View(y), s) && !s.RefreshStep? && !s.Login?
    case Look(call, _, _, at) => y.now <= at && call !in y.calls
    case RotateOut(call, at) => y.now <= at && call in y.calls && y.calls[call].Accepted?
    case StartLogin(call, _, _, _, at) => y.now <= at && call !in y.calls
    case Count(call, at) => y.now <= at && call in y.calls && y.calls[call].Issuing?
    case Create(call, next, at) => y.now <= at && call in y.calls && y.calls[call].Counted? && next.id !in y.issued
  }

  function StepTime(step: CallStep): int { if step.Other? then step.step.at else step.at }

  /** `getDeviceInfo` of a session that is gone finds nothing, and the new one gets the defaults. */
  function DeviceOf(r: Redis, id: SessionId, at: int): (string, string) {
    match Get(r.sessions, id, at) case Some(s) => (s.deviceLabel, s.ipAddress) case None => ("Unknown device", "unknown")
  }

  predicate HasRoom(c: Config, r: Redis, user: UserId, at: int) {
    c.maxDevices(user).Some? ==> |Members(r, user, at)| < c.maxDevices(user).value
  }

  function After(c: Config, y: System, step: CallStep): System
    requires Allowed(y, step)
  {
    match step
    case Other(s) => var y' := SessionRuns.Next(c, View(y), s); System(y'.redis, y'.now, y'.issued, y.calls)
    case Look(call, id, token, at) =>
      (match Validate(y.redis, id, token, at)
       case Valid(user) => y.(now := at, calls := y.calls[call := Accepted(id, token, user)])
       case Reused(user) => y.(now := at, redis := DestroyAllSessionsForUser(y.redis, user, at))
       case Invalid => y.(now := at))
    case RotateOut(call, at) =>
      var x := y.calls[call];
      var (device, ip) := DeviceOf(y.redis, x.id, at);
      y.(now := at, redis := RotateOutSession(TouchSession(y.redis, x.id, at), x.id, at), calls := y.calls[call := Issuing(x.user, device, ip)])
    case StartLogin(call, user, device, ip, at) => y.(now := at, calls := y.calls[call := Issuing(user, device, ip)])
    case Count(call, at) =>
      var x := y.calls[call];
      y.(now := at, calls := if HasRoom(c, y.redis, x.user, at) then y.calls[call := Counted(x.user, x.device, x.ip)] else y.calls - {call})
    case Create(call, next, at) =>
      var x := y.calls[call];
      System(CreateSession(y.redis, x.user, next.id, next.token, x.device, x.ip, c.ttl(x.user), at), at, y.issued + {next.id}, y.calls - {call})
  }

  /** Undisturbed, the count and the creation are the one-step issue of a pair, refused by the same guard. */
  lemma UndisturbedIssue(c: Config, y: System, call: CallId, next: Issue, at: int)
    requires Allowed(y, Count(call, at)) && next.id !in y.issued
    ensures var x := y.calls[call]; var y1 := After(c, y, Count(call, at));
            match IssueTokens(y.redis, x.user, c.maxDevices(x.user), next, x.device, x.ip, c.ttl(x.user), at)
            case Some(issued) => Allowed(y1, Create(call, next, at)) && After(c, y1, Create(call, next, at)).redis == issued
            case None => y1.redis == y.redis && call !in y1.calls
  {}

  /** And with the look and the rotation before them they are the one-step refresh. */
  lemma UndisturbedRefresh(c: Config, y: System, call: CallId, id: SessionId, token: Token, next: Issue, at: int)
    requires Allowed(y, Look(call, id, token, at)) && next.id !in y.issued
    ensures var y1 := After(c, y, Look(call, id, token, at)); var r' := Refresh(y.redis, id, token, c.maxDevices, next, c.ttl, at).0;
            if Validate(y.redis, id, token, at).Valid? then
              Allowed(y1, RotateOut(call, at)) &&
              var y2 := After(c, y1, RotateOut(call, at));
              Allowed(y2, Count(call, at)) &&
              var y3 := After(c, y2, Count(call, at));
              if call in y3.calls then Allowed(y3, Create(call, next, at)) && After(c, y3, Create(call, next, at)).redis == r' else y3.redis == r'
            else y1.redis == r' && call !in y1.calls
  {
    hide RotateOutSession, TouchSession, Members;
    if Validate(y.redis, id, token, at).Valid? {
      var y2 := After(c, After(c, y, Look(call, id, token, at)), RotateOut(call, at));
      UndisturbedIssue(c, y2, call, next, at);
    }
  }

  datatype CallRun = CallRun(states: seq<System>, steps: seq<CallStep>)

  ghost predicate Follows(c: Config, r: CallRun, k: nat)
    requires |r.states| == |r.steps| + 1 && k < |r.steps|
  {
    Allowed(r.states[k], r.steps[k]) && r.states[k + 1] == After(c, r.states[k], r.steps[k])
  }

  ghost predicate IsCallRun(c: Config, r: CallRun) {
    && |r.states| == |r.steps| + 1 && r.states[0] == System(Redis(map[], map[], map[]), 0, {}, map[])
    && forall k: nat | k < |r.steps| :: Follows(c, r, k)
  }

  // ---- One pair, one rotation ------------------------------------------------------------------------------

  /** Where the call that rotates at step `k` validated its pair. */
  function LookAt(steps: seq<CallStep>, call: CallId, k: nat): (i: nat)
    requires k <= |steps|
    ensures i <= k
  {
    if k == 0 then 0 else if steps[k - 1].Look? && steps[k - 1].call == call then k - 1 else LookAt(steps, call, k - 1)
  }

  predicate Holds(y: System, call: CallId, id: SessionId, token: Token) {
    call in y.calls && y.calls[call].Accepted? && y.calls[call].id == id && y.calls[call].token == token
  }

  /** Step m rotates the pair out, to be exchanged for a new one. */
  ghost predicate Rotates(r: CallRun, m: nat, id: SessionId, token: Token)
    requires |r.states| == |r.steps| + 1
  {
    m < |r.steps| && r.steps[m].RotateOut? && Holds(r.states[m], r.steps[m].call, id, token)
  }

  /** Two rotations of the pair, the second of which had been accepted when the first was made. */
  ghost predicate Overlap(r: CallRun, m': nat, m: nat, id: SessionId, token: Token)
    requires |r.states| == |r.steps| + 1
  {
    m' < m && Rotates(r, m', id, token) && Rotates(r, m, id, token) && LookAt(r.steps, r.steps[m].call, m) <= m'
  }

  lemma EndedStays(c: Config, y: System, step: CallStep, id: SessionId)
    requires Allowed(y, step) && id in y.issued && Dead(y.redis, id, y.now)
    ensures var y' := After(c, y, step); id in y'.issued && Dead(y'.redis, id, y'.now)
  {
    if step.Other? {
      hide SessionRuns.Next, Dead, Validate;
      DeadStep(c, View(y), step.step, id);
      IssuedGrows(c, View(y), step.step);
    } else {
      hide Members, Unindex, SessionRuns.Next;
    }
  }

  predicate Known(y: System) { y.redis.sessions.Keys <= y.issued }

  lemma KnownStep(c: Config, y: System, step: CallStep)
    requires Known(y) && Allowed(y, step)
    ensures Known(After(c, y, step)) && y.issued <= After(c, y, step).issued
  {
    hide Members, Unindex, Validate;
  }

  ghost predicate AcceptedAreIssued(y: System) { forall call | call in y.calls && y.calls[call].Accepted? :: y.calls[call].id in y.issued }

  lemma {:induction false} KnownThroughout(c: Config, r: CallRun, k: nat)
    requires IsCallRun(c, r) && k < |r.states|
    ensures Known(r.states[k]) && AcceptedAreIssued(r.states[k])
  {
    hide After, Allowed;
    if k > 0 {
      hide Known, AcceptedAreIssued;
      KnownThroughout(c, r, k - 1);
      assert Follows(c, r, k - 1);
      KnownStep(c, r.states[k - 1], r.steps[k - 1]);
      AcceptedStep(c, r.states[k - 1], r.steps[k - 1]);
    }
  }

  lemma AcceptedStep(c: Config, y: System, step: CallStep)
    requires Known(y) && AcceptedAreIssued(y) && Allowed(y, step)
    ensures AcceptedAreIssued(After(c, y, step))
  {
    hide SessionRuns.Next, CreateSession, RotateOutSession, TouchSession, DestroyAllSessionsForUser;
    if step.Other? { IssuedGrows(c, View(y), step.step); hide SessionRuns.Enabled; }
  }

  lemma RotationEnds(c: Config, y: System, step: CallStep, id: SessionId, token: Token)
    requires Allowed(y, step) && step.RotateOut? && Holds(y, step.call, id, token)
    ensures Dead(After(c, y, step).redis, id, After(c, y, step).now)
  {
    hide Members, Unindex;
  }

  /** Once rotated out a session is over, and no look accepts its pair. */
  lemma {:induction false} EndedAfterRotation(c: Config, r: CallRun, m: nat, k: nat, id: SessionId, token: Token)
    requires IsCallRun(c, r) && m < k < |r.states| && Rotates(r, m, id, token)
    ensures id in r.states[k].issued && Dead(r.states[k].redis, id, r.states[k].now)
  {
    hide After, Allowed, Dead;
    assert Follows(c, r, k - 1);
    if m == k - 1 {
      KnownThroughout(c, r, m);
      KnownStep(c, r.states[m], r.steps[m]);
      RotationEnds(c, r.states[m], r.steps[m], id, token);
    } else {
      EndedAfterRotation(c, r, m, k - 1, id, token);
      EndedStays(c, r.states[k - 1], r.steps[k - 1], id);
    }
  }

  lemma LookOrSame(c: Config, r: CallRun, m: nat, call: CallId, id: SessionId, token: Token)
    requires IsCallRun(c, r) && m < |r.steps| && Holds(r.states[m + 1], call, id, token)
    ensures if r.steps[m].Look? && r.steps[m].call == call
            then !Dead(r.states[m].redis, id, r.steps[m].at) && r.states[m].now <= r.steps[m].at
            else Holds(r.states[m], call, id, token)
  {
    assert Follows(c, r, m);
    hide SessionRuns.Next, CreateSession, RotateOutSession, TouchSession, DestroyAllSessionsForUser;
  }

  /** A call that still holds the pair accepted it before any rotation of it that came so far. */
  lemma {:induction false} LookedBefore(c: Config, r: CallRun, m: nat, k: nat, call: CallId, id: SessionId, token: Token)
    requires IsCallRun(c, r) && m < k < |r.states| && Rotates(r, m, id, token) && Holds(r.states[k], call, id, token)
    ensures LookAt(r.steps, call, k) <= m
  {
    hide After, Allowed, Rotates, Holds;
    LookOrSame(c, r, k - 1, call, id, token);
    if r.steps[k - 1].Look? && r.steps[k - 1].call == call {
      if m < k - 1 { EndedAfterRotation(c, r, m, k - 1, id, token); }
    } else if m < k - 1 {
      LookedBefore(c, r, m, k - 1, call, id, token);
    }
  }

  /** A pair is exchanged at most once in a run if and only if no two refreshes with it overlap from validation to rotation. */
  lemma ExchangedOnceExactly(c: Config, r: CallRun, k: nat, id: SessionId, token: Token)
    requires IsCallRun(c, r) && k < |r.states|
    ensures (forall m': nat, m: nat | m' < m < k :: !(Rotates(r, m', id, token) && Rotates(r, m, id, token))) <==>
            forall m': nat, m: nat | m < k :: !Overlap(r, m', m, id, token)
  {
    hide Rotates, Follows;
    if m': nat, m: nat :| m' < m < k && Rotates(r, m', id, token) && Rotates(r, m, id, token) {
      HoldsWhenRotating(r, m, id, token);
      LookedBefore(c, r, m', m, r.steps[m].call, id, token);
      assert Overlap(r, m', m, id, token);
    }
  }

  lemma HoldsWhenRotating(r: CallRun, m: nat, id: SessionId, token: Token)
    requires |r.states| == |r.steps| + 1 && Rotates(r, m, id, token)
    ensures m < |r.steps| && r.steps[m].RotateOut? && Holds(r.states[m], r.steps[m].call, id, token)
  {}

  // ---- Two refreshes at once ---------------------------------------------------------------------------------

  function Last(r: CallRun): System
    requires r.states != []
  {
    r.states[|r.states| - 1]
  }

  lemma Extend(c: Config, r: CallRun, step: CallStep) returns (r': CallRun)
    requires IsCallRun(c, r) && Allowed(Last(r), step)
    ensures IsCallRun(c, r') && r'.states != [] && Last(r') == After(c, Last(r), step) && r'.steps == r.steps + [step]
  {
    hide After, Allowed;
    r' := CallRun(r.states + [After(c, Last(r), step)], r.steps + [step]);
    forall k: nat | k < |r'.steps| ensures Follows(c, r', k) {
      if k < |r.steps| { assert Follows(c, r, k); }
    }
  }

  /** A login with nothing in between, under no limit or a limit with room. */
  lemma LogIn(c: Config, r: CallRun, call: CallId, user: UserId, device: string, ip: string, next: Issue, at: int) returns (r': CallRun)
    requires IsCallRun(c, r) && Last(r).now <= at && call !in Last(r).calls && next.id !in Last(r).issued && HasRoom(c, Last(r).redis, user, at)
    ensures IsCallRun(c, r') && r'.states != [] && r'.steps == r.steps + [StartLogin(call, user, device, ip, at), Count(call, at), Create(call, next, at)]
    ensures var y := Last(r);
            Last(r') == System(CreateSession(y.redis, user, next.id, next.token, device, ip, c.ttl(user), at), at, y.issued + {next.id}, y.calls)
  {
    var y := Last(r);
    hide IsCallRun, HasRoom;
    r' := Extend(c, r, StartLogin(call, user, device, ip, at));
    r' := Extend(c, r', Count(call, at));
    r' := Extend(c, r', Create(call, next, at));
    assert Last(r').calls == y.calls;
  }

  lemma BothAccepted(c: Config, user: UserId) returns (r: CallRun)
    requires c.ttl(user) > 0 && (c.maxDevices(user).Some? ==> c.maxDevices(user).value >= 2)
    ensures IsCallRun(c, r) && r.states != []
    ensures var s := Timed(Record(user, 11, "", "", 0, 0), c.ttl(user));
            Last(r) == System(Redis(map[1 := s], map[user := Timed({1}, c.ttl(user))], map[]), 0, {1}, map[0 := Accepted(1, 11, user), 1 := Accepted(1, 11, user)])
  {
    r := CallRun([System(Redis(map[], map[], map[]), 0, {}, map[])], []);
    assert IsCallRun(c, r);
    hide IsCallRun;
    r := LogIn(c, r, 0, user, "", "", Issue(1, 11), 0);
    assert {} + {1} == {1};
    r := Extend(c, r, Look(0, 1, 11, 0));
    r := Extend(c, r, Look(1, 1, 11, 0));
  }

  function Stored(user: UserId, token: Token, device: string, ip: string, ttl: nat): Timed<Record> {
    Timed(Record(user, token, device, ip, 0, 0), ttl)
  }

  /** Redis once the first of the two has exchanged the pair. */
  function Exchanged(user: UserId, ttl: nat): Redis {
    Redis(map[2 := Stored(user, 22, "", "", ttl)], map[user := Timed({2}, ttl)], map[1 := Timed(Tombstone(user, 11), TOMBSTONE_TTL_SECONDS)])
  }

  lemma FirstRotation(r: Redis, user: UserId, ttl: nat)
    requires ttl > 0 && r == Redis(map[1 := Stored(user, 11, "", "", ttl)], map[user := Timed({1}, ttl)], map[])
    ensures RotateOutSession(TouchSession(r, 1, 0), 1, 0)
         == Redis(map[], map[user := Timed({}, ttl)], map[1 := Timed(Tombstone(user, 11), TOMBSTONE_TTL_SECONDS)])
    ensures DeviceOf(r, 1, 0) == ("", "")
  {
    assert {1} - {1} == {};
    assert RotateOutSession(TouchSession(r, 1, 0), 1, 0).sessions == map[];
  }

  lemma SecondRotation(user: UserId, ttl: nat)
    requires ttl > 0
    ensures RotateOutSession(TouchSession(Exchanged(user, ttl), 1, 0), 1, 0) == Exchanged(user, ttl)
    ensures DeviceOf(Exchanged(user, ttl), 1, 0) == ("Unknown device", "unknown")
  {
    assert Exchanged(user, ttl).sessions - {1} == Exchanged(user, ttl).sessions;
  }

  lemma RotatesOut(c: Config, y: System, call: CallId, user: UserId)
    requires y.now == 0 && call in y.calls && y.calls[call] == Accepted(1, 11, user)
    ensures Allowed(y, RotateOut(call, 0))
    ensures var (device, ip) := DeviceOf(y.redis, 1, 0);
            After(c, y, RotateOut(call, 0)) == y.(redis := RotateOutSession(TouchSession(y.redis, 1, 0), 1, 0), calls := y.calls[call := Issuing(user, device, ip)])
  {
    hide RotateOutSession, TouchSession, DeviceOf;
  }

  /** A call that is about to issue does so undisturbed. */
  lemma IssuesNext(c: Config, r: CallRun, call: CallId, user: UserId, device: string, ip: string, next: Issue) returns (r': CallRun)
    requires IsCallRun(c, r)
    requires Last(r).now == 0 && call in Last(r).calls && Last(r).calls[call] == Issuing(user, device, ip)
    requires next.id !in Last(r).issued && HasRoom(c, Last(r).redis, user, 0)
    ensures IsCallRun(c, r') && r'.states != []
    ensures var y := Last(r);
            Last(r') == System(CreateSession(y.redis, user, next.id, next.token, device, ip, c.ttl(user), 0), 0, y.issued + {next.id}, y.calls - {call})
  {
    var y := Last(r);
    hide IsCallRun, HasRoom, CreateSession;
    r' := Extend(c, r, Count(call, 0));
    r' := Extend(c, r', Create(call, next, 0));
    assert y.calls[call := Counted(user, device, ip)] - {call} == y.calls - {call};
  }

  lemma Reissued(user: UserId, ttl: nat)
    requires ttl > 0
    ensures var r := Redis(map[], map[user := Timed({}, ttl)], map[1 := Timed(Tombstone(user, 11), TOMBSTONE_TTL_SECONDS)]);
            Members(r, user, 0) == {} && CreateSession(r, user, 2, 22, "", "", ttl, 0) == Exchanged(user, ttl)
  {
    assert {} + {2} == {2};
  }

  lemma FirstExchange(c: Config, user: UserId) returns (r: CallRun)
    requires c.ttl(user) > 0 && (c.maxDevices(user).Some? ==> c.maxDevices(user).value >= 2)
    ensures IsCallRun(c, r) && r.states != []
    ensures Last(r) == System(Exchanged(user, c.ttl(user)), 0, {1, 2}, map[1 := Accepted(1, 11, user)])
  {
    r := BothAccepted(c, user);
    RotatesOut(c, Last(r), 0, user);
    FirstRotation(Last(r).redis, user, c.ttl(user));
    Reissued(user, c.ttl(user));
    hide IsCallRun, RotateOutSession, TouchSession, DeviceOf, After, Allowed, CreateSession, Members;
    r := Extend(c, r, RotateOut(0, 0));
    r := IssuesNext(c, r, 0, user, "", "", Issue(2, 22));
    assert {1} + {2} == {1, 2} && Last(r).calls == map[1 := Accepted(1, 11, user)];
  }

  /** Two overlapping refreshes turn one pair into two live sessions, the second on an unknown device. */
  lemma OnePairTwoSessions(c: Config, user: UserId) returns (r: CallRun)
    requires c.ttl(user) > 0 && (c.maxDevices(user).Some? ==> c.maxDevices(user).value >= 2)
    ensures IsCallRun(c, r) && r.states != []
    ensures var y := Last(r).redis;
            && Validate(y, 2, 22, 0) == Validate(y, 3, 33, 0) == Valid(user)
            && y.sessions[3].value.deviceLabel == "Unknown device"
  {
    r := FirstExchange(c, user);
    RotatesOut(c, Last(r), 1, user);
    SecondRotation(user, c.ttl(user));
    hide IsCallRun, RotateOutSession, TouchSession, DeviceOf, After, Allowed;
    r := Extend(c, r, RotateOut(1, 0));
    r := IssuesNext(c, r, 1, user, "Unknown device", "unknown", Issue(3, 33));
  }
}
