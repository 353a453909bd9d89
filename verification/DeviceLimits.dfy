/**
 * The device limit when logins and rotations overlap: the devices are counted in one call to
 * Redis and the session is created in a later one, with no lock around the two.
 */
module DeviceLimits {
  import opened Common
  import opened Sessions
  import opened SessionRuns
  import opened SessionCalls

  /** The ids in the user's index as step `k` finds it. */
  function Indexed(r: CallRun, k: nat, user: UserId): set<SessionId>
    requires |r.states| == |r.steps| + 1 && k < |r.steps|
  {
    Members(r.states[k].redis, user, StepTime(r.steps[k]))
  }

  /** Step m creates a session of the user. */
  predicate CreatesFor(r: CallRun, m: nat, user: UserId)
    requires |r.states| == |r.steps| + 1
  {
    && m < |r.steps| && r.steps[m].Create? && r.steps[m].call in r.states[m].calls
    && r.states[m].calls[r.steps[m].call].Counted? && r.states[m].calls[r.steps[m].call].user == user
  }

  predicate CreatesId(r: CallRun, m: nat, user: UserId, id: SessionId)
    requires |r.states| == |r.steps| + 1
  {
    CreatesFor(r, m, user) && r.steps[m].next.id == id
  }

  /** Where the call that creates at step `k` counted the devices. */
  function CountAt(steps: seq<CallStep>, call: CallId, k: nat): (i: nat)
    requires k <= |steps|
    ensures i <= k
  {
    if k == 0 then 0 else if steps[k - 1].Count? && steps[k - 1].call == call then k - 1 else CountAt(steps, call, k - 1)
  }

  // ---- One step -----------------------------------------------------------------------------------------

  lemma RotationShrinks(r: Redis, id: SessionId, user: UserId, at: int)
    ensures Members(RotateOutSession(TouchSession(r, id, at), id, at), user, at) <= Members(r, user, at)
  {}

  lemma OthersShrink(c: Config, y: State, step: Step, user: UserId)
    requires SessionRuns.Enabled(y, step) && !step.RefreshStep? && !step.Login?
    ensures Members(SessionRuns.Next(c, y, step).redis, user, step.at) <= Members(y.redis, user, step.at)
  {}

  lemma CreateAdds(r: Redis, owner: UserId, next: Issue, device: string, ip: string, ttl: nat, user: UserId, at: int)
    ensures Members(CreateSession(r, owner, next.id, next.token, device, ip, ttl, at), user, at) <= Members(r, user, at) + if owner == user then {next.id} else {}
    ensures owner == user && ttl > 0 ==> Members(CreateSession(r, owner, next.id, next.token, device, ip, ttl, at), user, at) == Members(r, user, at) + {next.id}
  {}

  /** Only a creation adds to an index, and it adds its own id. */
  lemma IndexStep(c: Config, r: CallRun, m: nat, user: UserId)
    requires IsCallRun(c, r) && m < |r.steps| && c.ttl(user) > 0
    ensures r.states[m].now <= StepTime(r.steps[m]) == r.states[m + 1].now
    ensures var after := Members(r.states[m + 1].redis, user, r.states[m + 1].now);
            if CreatesFor(r, m, user) then after == Indexed(r, m, user) + {r.steps[m].next.id} else after <= Indexed(r, m, user)
  {
    assert Follows(c, r, m);
    var y, step := r.states[m], r.steps[m];
    hide Members, RotateOutSession, TouchSession, CreateSession, SessionRuns.Next, Validate, HasRoom;
    match step
    case Other(s) =>
      IssuedGrows(c, View(y), s);
      OthersShrink(c, View(y), s, user);
    case RotateOut(call, at) => RotationShrinks(y.redis, y.calls[call].id, user, at);
    case Create(call, next, at) => CreateAdds(y.redis, y.calls[call].user, next, y.calls[call].device, y.calls[call].ip, c.ttl(y.calls[call].user), user, at);
    case Look(call, id, token, at) => if Validate(y.redis, id, token, at).Reused? { RevocationShrinks(y.redis, Validate(y.redis, id, token, at).user, user, at); }
    case _ =>
  }

  lemma RevocationShrinks(r: Redis, owner: UserId, user: UserId, at: int)
    ensures Members(DestroyAllSessionsForUser(r, owner, at), user, at) <= Members(r, user, at)
  {}

  lemma IndexShrinksInTime(r: Redis, user: UserId, now: int, later: int)
    requires now <= later
    ensures Members(r, user, later) <= Members(r, user, now)
  {}

  // ---- Ids -------------------------------------------------------------------------------------------------

  lemma IssuedStep(c: Config, r: CallRun, m: nat)
    requires IsCallRun(c, r) && m < |r.steps|
    ensures r.states[m].issued <= r.states[m + 1].issued
    ensures r.steps[m].Create? ==> r.steps[m].next.id !in r.states[m].issued && r.steps[m].next.id in r.states[m + 1].issued
  {
    assert Follows(c, r, m);
    if r.steps[m].Other? { IssuedGrows(c, View(r.states[m]), r.steps[m].step); }
    hide SessionRuns.Next, RotateOutSession, TouchSession, CreateSession, Validate, Members;
  }

  lemma {:induction false} IssuedKept(c: Config, r: CallRun, n: nat, m: nat)
    requires IsCallRun(c, r) && n <= m < |r.states|
    ensures r.states[n].issued <= r.states[m].issued
  {
    if n < m {
      IssuedKept(c, r, n, m - 1);
      IssuedStep(c, r, m - 1);
    }
  }

  /** Every id in an index was issued. */
  lemma {:induction false} IndexIsIssued(c: Config, r: CallRun, m: nat, user: UserId)
    requires IsCallRun(c, r) && m < |r.states| && c.ttl(user) > 0
    ensures Members(r.states[m].redis, user, r.states[m].now) <= r.states[m].issued
  {
    if m > 0 {
      hide Members;
      IndexIsIssued(c, r, m - 1, user);
      IndexStep(c, r, m - 1, user);
      IssuedStep(c, r, m - 1);
      IndexShrinksInTime(r.states[m - 1].redis, user, r.states[m - 1].now, StepTime(r.steps[m - 1]));
    }
  }

  // ---- What has come and gone since a count ------------------------------------------------------------------

  /** The ids in the index at step m that were created for the user since step n. */
  ghost function Arrivals(r: CallRun, n: nat, m: nat, user: UserId): set<SessionId>
    requires |r.states| == |r.steps| + 1 && m < |r.steps|
  {
    set id | id in Indexed(r, m, user) && exists j: nat :: n <= j < m && CreatesId(r, j, user, id)
  }

  lemma {:induction false} NewWasCreated(c: Config, r: CallRun, n: nat, m: nat, user: UserId, id: SessionId)
    requires IsCallRun(c, r) && n <= m < |r.steps| && c.ttl(user) > 0 && id in Indexed(r, m, user) && id !in Indexed(r, n, user)
    ensures exists j: nat :: n <= j < m && CreatesId(r, j, user, id)
    decreases m
  {
    hide Members, CreatesFor;
    assert n < m;
    var last := m - 1;
    IndexStep(c, r, last, user);
    IndexStep(c, r, m, user);
    IndexShrinksInTime(r.states[m].redis, user, r.states[m].now, StepTime(r.steps[m]));
    if id in Indexed(r, last, user) {
      NewWasCreated(c, r, n, last, user, id);
    } else {
      assert CreatesId(r, last, user, id);
    }
  }

  lemma CreatedIsNew(c: Config, r: CallRun, n: nat, j: nat, user: UserId, id: SessionId)
    requires IsCallRun(c, r) && n <= j < |r.steps| && c.ttl(user) > 0 && CreatesId(r, j, user, id)
    ensures id !in Indexed(r, n, user)
  {
    IssuedStep(c, r, j);
    IssuedKept(c, r, n, j);
    IndexIsIssued(c, r, n, user);
    IndexStep(c, r, n, user);
    IndexShrinksInTime(r.states[n].redis, user, r.states[n].now, StepTime(r.steps[n]));
  }

  /** What is in the index at step m beside what step n found there is what was created in between. */
  lemma ArrivedExactly(c: Config, r: CallRun, n: nat, m: nat, user: UserId)
    requires IsCallRun(c, r) && n <= m < |r.steps| && c.ttl(user) > 0
    ensures Indexed(r, m, user) - Indexed(r, n, user) == Arrivals(r, n, m, user)
  {
    hide Members, CreatesId, Indexed;
    forall id | id in Indexed(r, m, user) && id !in Indexed(r, n, user) ensures id in Arrivals(r, n, m, user) { NewWasCreated(c, r, n, m, user, id); }
    forall id | id in Arrivals(r, n, m, user) ensures id !in Indexed(r, n, user) {
      var j: nat :| n <= j < m && CreatesId(r, j, user, id);
      CreatedIsNew(c, r, n, j, user, id);
    }
  }

  lemma Difference<T>(a: set<T>, b: set<T>)
    ensures |b| == |a| - |a - b| + |b - a|
  {
    assert a == (a - b) + a * b && b == (b - a) + a * b;
  }

  // ---- The limit -----------------------------------------------------------------------------------------------

  predicate Holds(y: System, call: CallId, user: UserId) { call in y.calls && y.calls[call].Counted? && y.calls[call].user == user }

  lemma CountStep(c: Config, r: CallRun, m: nat, call: CallId, user: UserId)
    requires IsCallRun(c, r) && m < |r.steps| && Holds(r.states[m + 1], call, user)
    ensures if r.steps[m].Count? && r.steps[m].call == call then HasRoom(c, r.states[m].redis, user, r.steps[m].at) else Holds(r.states[m], call, user)
  {
    assert Follows(c, r, m);
    hide SessionRuns.Next, RotateOutSession, TouchSession, CreateSession, Validate, HasRoom;
  }

  /** A call about to create a session counted the user's devices, and found room. */
  lemma {:induction false} CountedWithRoom(c: Config, r: CallRun, k: nat, call: CallId, user: UserId)
    requires IsCallRun(c, r) && k < |r.states| && Holds(r.states[k], call, user)
    ensures CountAt(r.steps, call, k) < k && r.steps[CountAt(r.steps, call, k)].Count?
    ensures HasRoom(c, r.states[CountAt(r.steps, call, k)].redis, user, r.steps[CountAt(r.steps, call, k)].at)
  {
    hide After, Allowed, Holds, HasRoom;
    assert k > 0 by { if k == 0 { NothingHeld(c, r, call, user); } }
    CountStep(c, r, k - 1, call, user);
    if !(r.steps[k - 1].Count? && r.steps[k - 1].call == call) { CountedWithRoom(c, r, k - 1, call, user); }
  }

  lemma NothingHeld(c: Config, r: CallRun, call: CallId, user: UserId)
    requires IsCallRun(c, r)
    ensures !Holds(r.states[0], call, user)
  {}

  /** The sessions that came since the creating call's count fit in the room it found and the room made since. */
  ghost predicate StillFits(c: Config, r: CallRun, m: nat, user: UserId)
    requires |r.states| == |r.steps| + 1 && CreatesFor(r, m, user) && c.maxDevices(user).Some?
  {
    var n := CountAt(r.steps, r.steps[m].call, m);
    n < m && |Arrivals(r, n, m, user)| < c.maxDevices(user).value - |Indexed(r, n, user)| + |Indexed(r, n, user) - Indexed(r, m, user)|
  }

  predicate Within(c: Config, y: System, user: UserId) { c.maxDevices(user).Some? ==> |Members(y.redis, user, y.now)| <= c.maxDevices(user).value }

  lemma CreationFits(c: Config, r: CallRun, m: nat, user: UserId)
    requires IsCallRun(c, r) && CreatesFor(r, m, user) && c.ttl(user) > 0 && c.maxDevices(user).Some?
    ensures Within(c, r.states[m + 1], user) <==> StillFits(c, r, m, user)
  {
    var call := r.steps[m].call;
    CountedWithRoom(c, r, m, call, user);
    var n := CountAt(r.steps, call, m);
    hide Members, CreatesFor, CreatesId;
    ArrivedExactly(c, r, n, m, user);
    Difference(Indexed(r, n, user), Indexed(r, m, user));
    IndexStep(c, r, m, user);
    CreatedIsNew(c, r, m, m, user, r.steps[m].next.id) by { assert CreatesId(r, m, user, r.steps[m].next.id); }
  }

  lemma OtherStepFits(c: Config, r: CallRun, m: nat, user: UserId)
    requires IsCallRun(c, r) && m < |r.steps| && !CreatesFor(r, m, user) && c.ttl(user) > 0 && Within(c, r.states[m], user)
    ensures Within(c, r.states[m + 1], user)
  {
    hide Members;
    IndexStep(c, r, m, user);
    IndexShrinksInTime(r.states[m].redis, user, r.states[m].now, StepTime(r.steps[m]));
    SubsetSize(Members(r.states[m + 1].redis, user, r.states[m + 1].now), Members(r.states[m].redis, user, r.states[m].now));
  }

  /**
   * In every run a user's index has kept to a fixed limit throughout if and only if each creation
   * found that what had come since its own count was less than the room counted and made since.
   */
  lemma {:induction false} LimitKeptExactly(c: Config, r: CallRun, k: nat, user: UserId)
    requires IsCallRun(c, r) && k < |r.states| && c.ttl(user) > 0 && c.maxDevices(user).Some?
    ensures (forall j: nat | j <= k :: Within(c, r.states[j], user)) <==> (forall m: nat | m < k && CreatesFor(r, m, user) :: StillFits(c, r, m, user))
  {
    hide Within, CreatesFor, StillFits;
    if k == 0 {
      assert Within(c, r.states[0], user) by { StartsWithin(c, r, user); }
    } else {
      LimitKeptExactly(c, r, k - 1, user);
      if CreatesFor(r, k - 1, user) { CreationFits(c, r, k - 1, user); }
      else if Within(c, r.states[k - 1], user) { OtherStepFits(c, r, k - 1, user); }
    }
  }

  lemma StartsWithin(c: Config, r: CallRun, user: UserId)
    requires IsCallRun(c, r)
    ensures Within(c, r.states[0], user)
  {}

  /** Two creations for the user, the second of which had counted before the first was made. */
  predicate Overlap(r: CallRun, j: nat, m: nat, user: UserId)
    requires |r.states| == |r.steps| + 1
  {
    j < m && CreatesFor(r, j, user) && CreatesFor(r, m, user) && CountAt(r.steps, r.steps[m].call, m) <= j
  }

  lemma ApartFits(c: Config, r: CallRun, m: nat, user: UserId)
    requires IsCallRun(c, r) && CreatesFor(r, m, user) && c.maxDevices(user).Some?
    requires forall j: nat | j < m :: !Overlap(r, j, m, user)
    ensures StillFits(c, r, m, user)
  {
    var n := CountAt(r.steps, r.steps[m].call, m);
    CountedWithRoom(c, r, m, r.steps[m].call, user);
    assert Arrivals(r, n, m, user) == {} by {
      hide Members, CreatesFor;
      forall j: nat, id | n <= j < m ensures !CreatesId(r, j, user, id) { assert !Overlap(r, j, m, user); }
    }
  }

  // ---- The live sessions -----------------------------------------------------------------------------------------

  /** The same lifetimes with no limit: what a call keeps of the index does not depend on one. */
  function Unlimited(c: Config): Config { Config(c.ttl, _ => None) }

  ghost predicate Sound(c: Config, y: System) { IndexSound(Unlimited(c), y.redis, y.now, y.issued) }

  lemma NoLimits(c: Config, r: Redis, now: int)
    ensures WithinLimits(Unlimited(c), r, now)
  {}

  lemma RotationSound(c: Config, r: Redis, id: SessionId, at: int, issued: set<SessionId>)
    requires IndexSound(Unlimited(c), r, at, issued)
    ensures IndexSound(Unlimited(c), RotateOutSession(TouchSession(r, id, at), id, at), at, issued)
  {
    hide IndexSound, RotateOutSession, TouchSession, WithinLimits;
    NoLimits(c, r, at);
    TouchSound(Unlimited(c), r, id, at, issued);
    RotateSound(Unlimited(c), TouchSession(r, id, at), id, at, issued);
  }

  lemma OtherSound(c: Config, y: State, step: Step)
    requires SoundState(Unlimited(c), y) && SessionRuns.Enabled(y, step) && !step.RefreshStep? && !step.Login?
    ensures SoundState(Unlimited(c), SessionRuns.Next(c, y, step))
  {
    SoundStep(Unlimited(c), y, step);
    hide SoundState, DestroySession, DestroyAllSessionsForUser, RevokeOwnSession;
    assert SessionRuns.Next(c, y, step) == SessionRuns.Next(Unlimited(c), y, step);
  }

  lemma CallSound(c: Config, y: System, step: CallStep)
    requires Sound(c, y) && Allowed(y, step)
    ensures Sound(c, After(c, y, step))
  {
    NoLimits(c, y.redis, y.now);
    TimePasses(Unlimited(c), y.redis, y.now, StepTime(step), y.issued);
    hide IndexSound, RotateOutSession, TouchSession, CreateSession, DestroyAllSessionsForUser, Validate, HasRoom, WithinLimits, SessionRuns.Next;
    match step
    case Other(s) => OtherSound(c, View(y), s); IssuedGrows(c, View(y), s);
    case Look(call, id, token, at) =>
      if Validate(y.redis, id, token, at).Reused? { DestroyAllSound(Unlimited(c), y.redis, Validate(y.redis, id, token, at).user, at, y.issued); }
    case RotateOut(call, at) => RotationSound(c, y.redis, y.calls[call].id, at, y.issued);
    case Create(call, next, at) =>
      var x := y.calls[call];
      CreateSound(Unlimited(c), y.redis, x.user, next, x.device, x.ip, at, y.issued);
    case _ =>
  }

  lemma {:induction false} SoundThroughout(c: Config, r: CallRun, k: nat)
    requires IsCallRun(c, r) && k < |r.states|
    ensures Sound(c, r.states[k])
  {
    if k > 0 {
      hide After, Allowed, Sound;
      SoundThroughout(c, r, k - 1);
      assert Follows(c, r, k - 1);
      CallSound(c, r.states[k - 1], r.steps[k - 1]);
    }
  }

  /** A user's live sessions never outnumber a fixed limit in a run whose creations for the user do not overlap. */
  lemma ApartKeepsLimit(c: Config, r: CallRun, k: nat, user: UserId)
    requires IsCallRun(c, r) && k < |r.states| && c.ttl(user) > 0 && c.maxDevices(user).Some?
    requires forall j: nat, m: nat | m < k :: !Overlap(r, j, m, user)
    ensures |LiveOf(r.states[k].redis, user, r.states[k].now)| <= c.maxDevices(user).value
  {
    hide Overlap, StillFits, CreatesFor;
    forall m: nat | m < k && CreatesFor(r, m, user) ensures StillFits(c, r, m, user) { ApartFits(c, r, m, user); }
    LimitKeptExactly(c, r, k, user);
    assert Within(c, r.states[k], user);
    SoundThroughout(c, r, k);
    var y := r.states[k];
    LiveAreMembers(y.redis, user, y.now);
    SubsetSize(LiveOf(y.redis, user, y.now), Members(y.redis, user, y.now));
  }

  // ---- Two logins at once ------------------------------------------------------------------------------------------

  lemma CreatedIsMember(r: Redis, user: UserId, next: Issue, device: string, ip: string, ttl: nat, at: int)
    requires ttl > 0
    ensures Members(CreateSession(r, user, next.id, next.token, device, ip, ttl, at), user, at) == Members(r, user, at) + {next.id}
  {}

  predicate Below(ids: set<SessionId>, n: nat) { forall id | id in ids :: id < n }

  /** A user with `n` sessions, each logged in by itself. */
  lemma {:induction false} Fill(c: Config, user: UserId, n: nat) returns (r: CallRun)
    requires c.ttl(user) > 0 && (c.maxDevices(user).Some? ==> n <= c.maxDevices(user).value)
    ensures IsCallRun(c, r) && r.states != []
    ensures var y := SessionCalls.Last(r); y.now == 0 && y.calls == map[] && |Members(y.redis, user, 0)| == n && Members(y.redis, user, 0) <= y.issued && Below(y.issued, n)
    decreases n
  {
    if n == 0 {
      r := CallRun([System(Redis(map[], map[], map[]), 0, {}, map[])], []);
    } else {
      r := Fill(c, user, n - 1);
      var y := SessionCalls.Last(r);
      CreatedIsMember(y.redis, user, Issue(n - 1, 0), "", "", c.ttl(user), 0);
      hide IsCallRun, CreateSession;
      r := LogIn(c, r, 0, user, "", "", Issue(n - 1, 0), 0);
    }
  }

  lemma Asks(c: Config, y: System, call: CallId, user: UserId)
    requires y.now == 0 && call !in y.calls
    ensures Allowed(y, StartLogin(call, user, "", "", 0))
    ensures After(c, y, StartLogin(call, user, "", "", 0)) == y.(calls := y.calls[call := Issuing(user, "", "")])
  {}

  lemma Counts(c: Config, y: System, call: CallId, user: UserId)
    requires y.now == 0 && call in y.calls && y.calls[call] == Issuing(user, "", "") && HasRoom(c, y.redis, user, 0)
    ensures Allowed(y, Count(call, 0)) && After(c, y, Count(call, 0)) == y.(calls := y.calls[call := Counted(user, "", "")])
  {}

  lemma CreatesOne(c: Config, y: System, call: CallId, user: UserId, id: SessionId)
    requires y.now == 0 && call in y.calls && y.calls[call] == Counted(user, "", "") && id !in y.issued && c.ttl(user) > 0
    ensures Allowed(y, Create(call, Issue(id, 0), 0))
    ensures var y' := After(c, y, Create(call, Issue(id, 0), 0));
            y'.now == 0 && y'.issued == y.issued + {id} && y'.calls == y.calls - {call} && Members(y'.redis, user, 0) == Members(y.redis, user, 0) + {id}
  {
    CreatedIsMember(y.redis, user, Issue(id, 0), "", "", c.ttl(user), 0);
    hide CreateSession, Members;
  }

  /** Both have counted, with room for one. */
  lemma BothCounted(c: Config, user: UserId, limit: nat) returns (r: CallRun)
    requires c.ttl(user) > 0 && c.maxDevices(user) == Some(limit) && limit > 0
    ensures IsCallRun(c, r) && r.states != []
    ensures var y := SessionCalls.Last(r);
            && y.now == 0 && 0 in y.calls && 1 in y.calls && y.calls[0] == y.calls[1] == Counted(user, "", "")
            && |Members(y.redis, user, 0)| == limit - 1 && Members(y.redis, user, 0) <= y.issued && Below(y.issued, limit - 1)
  {
    r := Fill(c, user, limit - 1);
    hide IsCallRun, Members, After, Allowed;
    Asks(c, SessionCalls.Last(r), 0, user);
    r := SessionCalls.Extend(c, r, StartLogin(0, user, "", "", 0));
    Asks(c, SessionCalls.Last(r), 1, user);
    r := SessionCalls.Extend(c, r, StartLogin(1, user, "", "", 0));
    Counts(c, SessionCalls.Last(r), 0, user);
    r := SessionCalls.Extend(c, r, Count(0, 0));
    Counts(c, SessionCalls.Last(r), 1, user);
    r := SessionCalls.Extend(c, r, Count(1, 0));
  }

  /** Under any limit, two logins that both count before either creates its session take the user past it. */
  lemma PastTheLimit(c: Config, user: UserId, limit: nat) returns (r: CallRun)
    requires c.ttl(user) > 0 && c.maxDevices(user) == Some(limit) && limit > 0
    ensures IsCallRun(c, r) && r.states != []
    ensures var y := SessionCalls.Last(r); |Members(y.redis, user, y.now)| == limit + 1
  {
    r := BothCounted(c, user, limit);
    hide IsCallRun, Members, After, Allowed;
    CreatesOne(c, SessionCalls.Last(r), 0, user, limit - 1);
    r := SessionCalls.Extend(c, r, Create(0, Issue(limit - 1, 0), 0));
    CreatesOne(c, SessionCalls.Last(r), 1, user, limit);
    r := SessionCalls.Extend(c, r, Create(1, Issue(limit, 0), 0));
  }
}
