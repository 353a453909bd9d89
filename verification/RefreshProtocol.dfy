/**
 * dashboard-api.ts against auth.service.ts: any number of concurrent requests in a browser that
 * share one refresh per tab, and the server that rotates the refresh token. Every fetch is split
 * where others can come between: sent, processed, delivered, settled, resumed.
 */
module RefreshProtocol {
  import opened Common
  import opened Sessions
  import SessionRuns

  type Tab = nat

  datatype Status = Success | Unauthorized401 | OtherFailure

  /** One call of `request`; `retry` is its `isRetry`. */
  datatype Phase =
    | Ready(retry: bool)
    | Sent(retry: bool)
    | Answered(retry: bool, status: Status)
    | Waiting(flight: nat)
    | Finished(ok: bool)

  datatype Request = Request(tab: Tab, phase: Phase, sends: nat)

  datatype Reply = Rotated(pair: Issue) | Denied

  /** One refresh: `Settled` is after `.then`, `Cleared` after `.finally`, when the waiters run. */
  datatype FlightPhase = Flying(cookie: Issue) | Replied(reply: Reply) | Delivered | Settled(ok: bool) | Cleared(ok: bool)

  datatype Flight = Flight(tab: Tab, phase: FlightPhase)

  /** `current` is each tab's `refreshPromise`; the cookie is the browser's, shared by its tabs. */
  datatype State = State(
    requests: seq<Request>,
    flights: seq<Flight>,
    current: map<Tab, nat>,
    cookie: Issue,
    server: Redis,
    issued: set<SessionId>,
    now: int,
    reuseDetected: bool)

  datatype Step =
    | Send(q: nat)
    | Answer(q: nat, status: Status)
    | Receive(q: nat)
    | ServerRefresh(f: nat, next: Issue, at: int)
    | Deliver(f: nat)
    | Settle(f: nat)
    | Clear(f: nat)
    | Resume(q: nat)
    /** The refresh call never reaches the server. */
    | LoseCall(f: nat)
    /** The server's reply never reaches the browser. */
    | LoseReply(f: nat)
    /** The reply's headers arrive, with the new cookie, and its body does not. */
    | LoseBody(f: nat)
    /** A password reset or a revocation on another device. */
    | SignOutElsewhere(at: int)

  predicate Enabled(y: State, step: Step) {
    match step
    case Send(q) => q < |y.requests| && y.requests[q].phase.Ready?
    case Answer(q, _) => q < |y.requests| && y.requests[q].phase.Sent?
    case Receive(q) => q < |y.requests| && y.requests[q].phase.Answered?
    case ServerRefresh(f, next, at) => f < |y.flights| && y.flights[f].phase.Flying? && next.id !in y.issued && y.now <= at
    case Deliver(f) => f < |y.flights| && y.flights[f].phase.Replied?
    case Settle(f) => f < |y.flights| && y.flights[f].phase.Delivered?
    case Clear(f) => f < |y.flights| && y.flights[f].phase.Settled?
    case Resume(q) =>
      && q < |y.requests| && y.requests[q].phase.Waiting?
      && var f := y.requests[q].phase.flight; f < |y.flights| && y.flights[f].phase.Cleared?
    case LoseCall(f) => f < |y.flights| && y.flights[f].phase.Flying?
    case LoseReply(f) => f < |y.flights| && y.flights[f].phase.Replied?
    case LoseBody(f) => f < |y.flights| && y.flights[f].phase.Replied? && y.flights[f].phase.reply.Rotated?
    case SignOutElsewhere(at) => y.now <= at
  }

  /** The user whose browser it is, and the server's lifetimes and limits. */
  datatype Config = Config(user: UserId, server: SessionRuns.Config)

  function SetPhase(y: State, q: nat, p: Phase): State
    requires q < |y.requests|
  {
    y.(requests := y.requests[q := y.requests[q].(phase := p)])
  }

  function SetFlight(y: State, f: nat, p: FlightPhase): State
    requires f < |y.flights|
  {
    y.(flights := y.flights[f := y.flights[f].(phase := p)])
  }

  /** `tryRefresh`: join the tab's refresh, or start one with the cookie the browser holds now. */
  function TryRefresh(y: State, q: nat): State
    requires q < |y.requests|
  {
    var tab := y.requests[q].tab;
    if tab in y.current then SetPhase(y, q, Waiting(y.current[tab]))
    else
      var f := |y.flights|;
      SetPhase(y, q, Waiting(f)).(flights := y.flights + [Flight(tab, Flying(y.cookie))], current := y.current[tab := f])
  }

  function Serve(c: Config, y: State, f: nat, next: Issue, at: int): State
    requires f < |y.flights| && y.flights[f].phase.Flying?
  {
    var sent := y.flights[f].phase.cookie;
    var (redis, outcome) := Refresh(y.server, sent.id, sent.token, c.server.maxDevices, next, c.server.ttl, at);
    SetFlight(y, f, Replied(if outcome.Issued? then Rotated(next) else Denied)).(
      server := redis, issued := y.issued + {next.id}, now := at,
      reuseDetected := y.reuseDetected || Validate(y.server, sent.id, sent.token, at).Reused?)
  }

  function Next(c: Config, y: State, step: Step): State
    requires Enabled(y, step)
  {
    match step
    case Send(q) =>
      var r := y.requests[q];
      y.(requests := y.requests[q := Request(r.tab, Sent(r.phase.retry), r.sends + 1)])
    case Answer(q, status) => SetPhase(y, q, Answered(y.requests[q].phase.retry, status))
    case Receive(q) =>
      var p := y.requests[q].phase;
      if p.status == Unauthorized401 && !p.retry then TryRefresh(y, q)
      else SetPhase(y, q, Finished(p.status == Success))
    case ServerRefresh(f, next, at) => Serve(c, y, f, next, at)
    case Deliver(f) =>
      (match y.flights[f].phase.reply
       case Rotated(pair) => SetFlight(y, f, Delivered).(cookie := pair)
       case Denied => SetFlight(y, f, Settled(false)))
    case Settle(f) => SetFlight(y, f, Settled(true))
    case Clear(f) =>
      SetFlight(y, f, Cleared(y.flights[f].phase.ok)).(current := y.current - {y.flights[f].tab})
    case Resume(q) =>
      SetPhase(y, q, if y.flights[y.requests[q].phase.flight].phase.ok then Ready(true) else Finished(false))
    case LoseCall(f) => SetFlight(y, f, Settled(false))
    case LoseReply(f) => SetFlight(y, f, Settled(false))
    case LoseBody(f) => SetFlight(y, f, Settled(false)).(cookie := y.flights[f].phase.reply.pair)
    case SignOutElsewhere(at) => y.(server := DestroyAllSessionsForUser(y.server, c.user, at), now := at)
  }

  // ---- Runs ------------------------------------------------------------------------------------------

  datatype Run = Run(states: seq<State>, steps: seq<Step>)

  ghost predicate Taken(c: Config, r: Run, k: nat)
    requires |r.states| == |r.steps| + 1 && k < |r.steps|
  {
    Enabled(r.states[k], r.steps[k]) && r.states[k + 1] == Next(c, r.states[k], r.steps[k])
  }

  /** A logged-in browser: any number of requests about to be sent, and a cookie for the one session there is. */
  ghost predicate Init(c: Config, y: State) {
    && (forall q | 0 <= q < |y.requests| :: y.requests[q].phase == Ready(false) && y.requests[q].sends == 0)
    && y.flights == [] && y.current == map[] && !y.reuseDetected
    && y.cookie.id in y.issued && y.server.tombstones == map[]
    && y.server.sessions.Keys == {y.cookie.id}
    && y.server.sessions[y.cookie.id].value.user == c.user && y.server.sessions[y.cookie.id].value.token == y.cookie.token
  }

  ghost predicate IsRun(c: Config, r: Run) {
    |r.states| == |r.steps| + 1 && Init(c, r.states[0]) && forall k: nat | k < |r.steps| :: Taken(c, r, k)
  }

  // ---- Single flight -----------------------------------------------------------------------------------

  /** A refresh that has not been cleared is its tab's `refreshPromise`, and waiters wait for one of their tab. */
  ghost predicate SingleFlight(y: State) {
    && (forall f: nat | f < |y.flights| && !y.flights[f].phase.Cleared? :: y.flights[f].tab in y.current && y.current[y.flights[f].tab] == f)
    && (forall tab | tab in y.current :: y.current[tab] < |y.flights| && y.flights[y.current[tab]].tab == tab && !y.flights[y.current[tab]].phase.Cleared?)
    && (forall q | 0 <= q < |y.requests| && y.requests[q].phase.Waiting? ::
          y.requests[q].phase.flight < |y.flights| && y.flights[y.requests[q].phase.flight].tab == y.requests[q].tab)
  }

  predicate OnRequest(step: Step) { step.Send? || step.Answer? || step.Receive? || step.Resume? }

  lemma SingleFlightTry(y: State, q: nat)
    requires SingleFlight(y) && q < |y.requests|
    ensures SingleFlight(TryRefresh(y, q))
  {}

  lemma SingleFlightRequests(c: Config, y: State, step: Step)
    requires SingleFlight(y) && Enabled(y, step) && OnRequest(step)
    ensures SingleFlight(Next(c, y, step))
  {
    if step.Receive? { SingleFlightTry(y, step.q); }
    hide TryRefresh;
  }

  lemma SingleFlightPhase(y: State, f: nat, p: FlightPhase)
    requires SingleFlight(y) && f < |y.flights| && !y.flights[f].phase.Cleared? && !p.Cleared?
    ensures SingleFlight(SetFlight(y, f, p))
  {}

  lemma SingleFlightFlights(c: Config, y: State, step: Step)
    requires SingleFlight(y) && Enabled(y, step) && !OnRequest(step) && !step.Clear?
    ensures SingleFlight(Next(c, y, step))
  {
    var y' := Next(c, y, step);
    if !step.SignOutElsewhere? { SingleFlightPhase(y, step.f, y'.flights[step.f].phase); }
    hide Refresh, Validate, DestroyAllSessionsForUser;
  }

  lemma SingleFlightClear(c: Config, y: State, step: Step)
    requires SingleFlight(y) && Enabled(y, step) && step.Clear?
    ensures SingleFlight(Next(c, y, step))
  {}

  lemma SingleFlightStep(c: Config, y: State, step: Step)
    requires SingleFlight(y) && Enabled(y, step)
    ensures SingleFlight(Next(c, y, step))
  {
    hide SingleFlight, Next, Enabled;
    if OnRequest(step) {
      SingleFlightRequests(c, y, step);
    } else if step.Clear? {
      SingleFlightClear(c, y, step);
    } else {
      SingleFlightFlights(c, y, step);
    }
  }

  lemma {:induction false} SingleFlightThroughout(c: Config, r: Run, k: nat)
    requires IsRun(c, r) && k < |r.states|
    ensures SingleFlight(r.states[k])
  {
    hide Next, Enabled;
    if k > 0 {
      hide SingleFlight;
      SingleFlightThroughout(c, r, k - 1);
      assert Taken(c, r, k - 1);
      SingleFlightStep(c, r.states[k - 1], r.steps[k - 1]);
    }
  }

  /** However many requests fail at once, a tab never has two refreshes in flight. */
  lemma AtMostOneRefreshInFlight(c: Config, r: Run, k: nat, f: nat, f': nat)
    requires IsRun(c, r) && k < |r.states| && f < |r.states[k].flights| && f' < |r.states[k].flights|
    requires !r.states[k].flights[f].phase.Cleared? && !r.states[k].flights[f'].phase.Cleared?
    requires r.states[k].flights[f].tab == r.states[k].flights[f'].tab
    ensures f == f'
  {
    SingleFlightThroughout(c, r, k);
  }

  // ---- At most two sends ---------------------------------------------------------------------------------

  predicate SendsMatch(r: Request) {
    match r.phase
    case Ready(retry) => r.sends == if retry then 1 else 0
    case Sent(retry) => r.sends == if retry then 2 else 1
    case Answered(retry, _) => r.sends == if retry then 2 else 1
    case Waiting(_) => r.sends == 1
    case Finished(_) => 1 <= r.sends <= 2
  }

  lemma {:induction false} AtMostTwoSends(c: Config, r: Run, k: nat)
    requires IsRun(c, r) && k < |r.states|
    ensures forall q | 0 <= q < |r.states[k].requests| :: SendsMatch(r.states[k].requests[q]) && r.states[k].requests[q].sends <= 2
  {
    hide Next, Enabled;
    if k > 0 {
      AtMostTwoSends(c, r, k - 1);
      assert Taken(c, r, k - 1);
      SendsStep(c, r.states[k - 1], r.steps[k - 1]);
    }
  }

  ghost predicate SentAtMostTwice(y: State) { forall q | 0 <= q < |y.requests| :: SendsMatch(y.requests[q]) && y.requests[q].sends <= 2 }

  lemma SendsStep(c: Config, y: State, step: Step)
    requires SentAtMostTwice(y) && Enabled(y, step)
    ensures SentAtMostTwice(Next(c, y, step))
  {
    hide Refresh, Validate, DestroyAllSessionsForUser;
  }

  // ---- Termination -------------------------------------------------------------------------------------------

  function Rank(p: Phase): nat {
    match p
    case Ready(retry) => if retry then 3 else 12
    case Sent(retry) => if retry then 2 else 11
    case Answered(retry, _) => if retry then 1 else 10
    case Waiting(_) => 4
    case Finished(_) => 0
  }

  function FlightRank(p: FlightPhase): nat {
    match p
    case Flying(_) => 5
    case Replied(_) => 4
    case Delivered => 3
    case Settled(_) => 2
    case Cleared(_) => 0
  }

  function RequestsLeft(s: seq<Request>): nat {
    if s == [] then 0 else RequestsLeft(s[..|s| - 1]) + Rank(s[|s| - 1].phase)
  }

  function FlightsLeft(s: seq<Flight>): nat {
    if s == [] then 0 else FlightsLeft(s[..|s| - 1]) + FlightRank(s[|s| - 1].phase)
  }

  function WorkLeft(y: State): nat { RequestsLeft(y.requests) + FlightsLeft(y.flights) }

  lemma {:induction false} RequestsUpdate(s: seq<Request>, q: nat, r: Request)
    requires q < |s|
    ensures RequestsLeft(s[q := r]) == RequestsLeft(s) - Rank(s[q].phase) + Rank(r.phase)
  {
    var n := |s| - 1;
    if q < n {
      assert s[q := r][..n] == s[..n][q := r];
      RequestsUpdate(s[..n], q, r);
    } else {
      assert s[q := r][..n] == s[..n];
    }
  }

  lemma {:induction false} FlightsUpdate(s: seq<Flight>, f: nat, r: Flight)
    requires f < |s|
    ensures FlightsLeft(s[f := r]) == FlightsLeft(s) - FlightRank(s[f].phase) + FlightRank(r.phase)
  {
    var n := |s| - 1;
    if f < n {
      assert s[f := r][..n] == s[..n][f := r];
      FlightsUpdate(s[..n], f, r);
    } else {
      assert s[f := r][..n] == s[..n];
    }
  }

  /** Every step of the browser or of a refresh leaves less to do. */
  lemma WorkShrinks(c: Config, y: State, step: Step)
    requires Enabled(y, step)
    ensures step.SignOutElsewhere? ==> WorkLeft(Next(c, y, step)) == WorkLeft(y)
    ensures !step.SignOutElsewhere? ==> WorkLeft(Next(c, y, step)) < WorkLeft(y)
  {
    hide Refresh, Validate, DestroyAllSessionsForUser, RequestsLeft, FlightsLeft;
    var y' := Next(c, y, step);
    if step.Send? || step.Answer? || step.Receive? || step.Resume? {
      RequestsUpdate(y.requests, step.q, y'.requests[step.q]);
      if step.Receive? && |y'.flights| > |y.flights| { FlightsAppend(y.flights, y'.flights[|y.flights|]); }
    } else if !step.SignOutElsewhere? {
      FlightsUpdate(y.flights, step.f, y'.flights[step.f]);
    }
  }

  lemma FlightsAppend(s: seq<Flight>, f: Flight)
    ensures FlightsLeft(s + [f]) == FlightsLeft(s) + FlightRank(f.phase)
  {
    assert (s + [f])[..|s|] == s;
  }

  function OwnSteps(steps: seq<Step>, k: nat): nat
    requires k <= |steps|
  {
    if k == 0 then 0 else OwnSteps(steps, k - 1) + if steps[k - 1].SignOutElsewhere? then 0 else 1
  }

  lemma {:induction false} AllReady(s: seq<Request>)
    requires forall q | 0 <= q < |s| :: s[q].phase == Ready(false)
    ensures RequestsLeft(s) == 12 * |s|
  {
    if s != [] { AllReady(s[..|s| - 1]); }
  }

  /** No run of n requests has more than 12 n steps of its own, whatever the server answers and the network loses. */
  lemma {:induction false} RunsAreShort(c: Config, r: Run, k: nat)
    requires IsRun(c, r) && k < |r.states|
    ensures OwnSteps(r.steps, k) + WorkLeft(r.states[k]) <= 12 * |r.states[0].requests|
  {
    hide Next, Enabled;
    if k > 0 {
      hide WorkLeft;
      RunsAreShort(c, r, k - 1);
      assert Taken(c, r, k - 1);
      WorkShrinks(c, r.states[k - 1], r.steps[k - 1]);
    } else {
      AllReady(r.states[0].requests);
    }
  }

  /** And none gets stuck: while a request is unfinished, it or the refresh it waits for can move. */
  lemma NeverStuck(c: Config, r: Run, k: nat, q: nat, next: Issue) returns (step: Step)
    requires IsRun(c, r) && k < |r.states| && q < |r.states[k].requests| && !r.states[k].requests[q].phase.Finished?
    requires next.id !in r.states[k].issued
    ensures Enabled(r.states[k], step) && !step.SignOutElsewhere? && !step.LoseCall? && !step.LoseReply? && !step.LoseBody?
  {
    SingleFlightThroughout(c, r, k);
    var y := r.states[k];
    match y.requests[q].phase
    case Ready(_) => step := Send(q);
    case Sent(_) => step := Answer(q, Success);
    case Answered(_, _) => step := Receive(q);
    case Waiting(f) =>
      step := match y.flights[f].phase
        case Flying(_) => ServerRefresh(f, next, y.now)
        case Replied(_) => Deliver(f)
        case Delivered => Settle(f)
        case Settled(_) => Clear(f)
        case Cleared(_) => Resume(q);
  }

  // ---- The cookie ------------------------------------------------------------------------------------------------

  ghost predicate OneTab(y: State) {
    (forall q | 0 <= q < |y.requests| :: y.requests[q].tab == 0) && (forall f | 0 <= f < |y.flights| :: y.flights[f].tab == 0)
  }

  /** If the pair is valid, the user's other ids leave room for the session to come: all of it looked up before the call. */
  predicate Room(c: Config, y: State, f: nat, at: int)
    requires f < |y.flights| && y.flights[f].phase.Flying?
  {
    var sent := y.flights[f].phase.cookie;
    Validate(y.server, sent.id, sent.token, at).Valid? && c.server.maxDevices(c.user).Some? ==>
      |Members(y.server, c.user, at) - {sent.id}| < c.server.maxDevices(c.user).value
  }

  /** No reply that carries a new cookie is lost whole, and a rotation finds room within the device limit. */
  predicate Smooth(c: Config, y: State, step: Step)
    requires Enabled(y, step)
  {
    match step
    case LoseReply(f) => y.flights[f].phase.reply.Denied?
    case ServerRefresh(f, _, at) => Room(c, y, f, at)
    case _ => true
  }

  /** The pair the browser holds, or is about to be handed. */
  function Held(y: State): Issue {
    if 0 in y.current && y.current[0] < |y.flights| && y.flights[y.current[0]].phase.Replied? && y.flights[y.current[0]].phase.reply.Rotated?
    then y.flights[y.current[0]].phase.reply.pair
    else y.cookie
  }

  /** No session but the held one is left on the server, and the held pair was never rotated out. */
  predicate ServerKnows(c: Config, r: Redis, held: Issue, issued: set<SessionId>) {
    && held.id in issued && r.tombstones.Keys <= issued && held.id !in r.tombstones
    && r.sessions.Keys <= {held.id}
    && (held.id in r.sessions ==> r.sessions[held.id].value.token == held.token && r.sessions[held.id].value.user == c.user)
  }

  ghost predicate Coherent(c: Config, y: State) {
    && OneTab(y) && SingleFlight(y) && !y.reuseDetected
    && ServerKnows(c, y.server, Held(y), y.issued)
    && (forall f | 0 <= f < |y.flights| && y.flights[f].phase.Flying? :: y.flights[f].phase.cookie == y.cookie)
  }

  /** Refreshing with the held pair either does nothing or hands over to the next pair; it is never taken for reuse. */
  lemma RefreshHandsOver(c: Config, r: Redis, held: Issue, issued: set<SessionId>, next: Issue, at: int)
    requires ServerKnows(c, r, held, issued) && next.id !in issued
    ensures !Validate(r, held.id, held.token, at).Reused?
    ensures var (r', outcome) := Refresh(r, held.id, held.token, c.server.maxDevices, next, c.server.ttl, at);
            && (outcome.Issued? ==> ServerKnows(c, r', next, issued + {next.id}) && next.id in r'.sessions)
            && (outcome.Unauthorized? ==> r' == r)
  {
    hide Members, Unindex;
  }

  lemma RefusedWithoutRoom(c: Config, y: State, f: nat, next: Issue, at: int)
    requires f < |y.flights| && y.flights[f].phase.Flying? && y.flights[f].phase.cookie == Held(y) && ServerKnows(c, y.server, Held(y), y.issued)
    ensures var held := Held(y);
            Refresh(y.server, held.id, held.token, c.server.maxDevices, next, c.server.ttl, at).1 == DeviceLimit <==> !Room(c, y, f, at)
  {
    var held := Held(y);
    if Validate(y.server, held.id, held.token, at).Valid? {
      LimitRefusesExactly(y.server, held.id, held.token, c.user, c.server.maxDevices, next, c.server.ttl, at);
    }
    hide Members, RotateOutSession, TouchSession, IssueTokens;
  }

  lemma CoherentServe(c: Config, y: State, step: Step)
    requires step.ServerRefresh? && Coherent(c, y) && Enabled(y, step) && Smooth(c, y, step) && SingleFlight(Next(c, y, step))
    ensures Coherent(c, Next(c, y, step))
  {
    RefreshHandsOver(c, y.server, y.cookie, y.issued, step.next, step.at);
    assert Held(y) == y.cookie;
    RefusedWithoutRoom(c, y, step.f, step.next, step.at);
    hide Refresh, Validate, ServerKnows, Room;
  }

  lemma CoherentRequests(c: Config, y: State, step: Step)
    requires OnRequest(step) && Coherent(c, y) && Enabled(y, step) && SingleFlight(Next(c, y, step))
    ensures Coherent(c, Next(c, y, step))
  {
    hide ServerKnows;
  }

  lemma CoherentFlights(c: Config, y: State, step: Step)
    requires step.Deliver? || step.Settle? || step.Clear? || step.LoseCall? || step.LoseReply? || step.LoseBody?
    requires Coherent(c, y) && Enabled(y, step) && Smooth(c, y, step) && SingleFlight(Next(c, y, step))
    ensures Coherent(c, Next(c, y, step))
  {
    hide ServerKnows;
  }

  lemma CoherentSignOut(c: Config, y: State, step: Step)
    requires step.SignOutElsewhere? && Coherent(c, y) && Enabled(y, step) && SingleFlight(Next(c, y, step))
    ensures Coherent(c, Next(c, y, step))
  {
    hide SingleFlight;
  }

  lemma CoherentStep(c: Config, y: State, step: Step)
    requires Coherent(c, y) && Enabled(y, step) && Smooth(c, y, step)
    ensures Coherent(c, Next(c, y, step))
  {
    SingleFlightStep(c, y, step);
    hide Coherent, Next, Enabled, Smooth, SingleFlight;
    match step
    case ServerRefresh(_, _, _) => CoherentServe(c, y, step);
    case SignOutElsewhere(_) => CoherentSignOut(c, y, step);
    case _ => if OnRequest(step) { CoherentRequests(c, y, step); } else { CoherentFlights(c, y, step); }
  }

  ghost predicate SmoothRun(c: Config, r: Run)
    requires IsRun(c, r)
  {
    OneTab(r.states[0]) && forall k: nat | k < |r.steps| :: Taken(c, r, k) && Smooth(c, r.states[k], r.steps[k])
  }

  lemma {:induction false} CoherentThroughout(c: Config, r: Run, k: nat)
    requires IsRun(c, r) && SmoothRun(c, r) && k < |r.states|
    ensures Coherent(c, r.states[k])
  {
    hide Next, Enabled, Smooth;
    if k > 0 {
      hide Coherent, Init;
      CoherentThroughout(c, r, k - 1);
      assert Taken(c, r, k - 1);
      CoherentStep(c, r.states[k - 1], r.steps[k - 1]);
    }
  }

  /** In one tab, without lost replies or refusals, no run is ever taken for token theft. */
  lemma NeverTakenForReuse(c: Config, r: Run, k: nat)
    requires IsRun(c, r) && SmoothRun(c, r) && k < |r.states|
    ensures !r.states[k].reuseDetected
  {
    CoherentThroughout(c, r, k);
  }

  /** Whenever no refresh is in flight, the cookie is the server's one session, or that session has ended. */
  lemma CookieIsTheOneLiveToken(c: Config, r: Run, k: nat, at: int)
    requires IsRun(c, r) && SmoothRun(c, r) && k < |r.states| && r.states[k].current == map[]
    ensures var y := r.states[k];
            && y.server.sessions.Keys <= {y.cookie.id}
            && Validate(y.server, y.cookie.id, y.cookie.token, at) ==
               if y.cookie.id in y.server.sessions && at < y.server.sessions[y.cookie.id].expiresAt then Valid(c.user) else Invalid
  {
    CoherentThroughout(c, r, k);
  }

  /** And it has ended only by itself if nobody signed the user out elsewhere. */
  lemma {:induction false} SessionSurvives(c: Config, r: Run, k: nat)
    requires IsRun(c, r) && SmoothRun(c, r) && k < |r.states|
    requires forall j | 0 <= j < |r.steps| :: !r.steps[j].SignOutElsewhere?
    ensures Held(r.states[k]).id in r.states[k].server.sessions
  {
    hide Coherent, Next, Enabled, Smooth, Held, Init, OneTab;
    if k == 0 {
      HeldAtStart(c, r.states[0]);
    } else {
      SessionSurvives(c, r, k - 1);
      CoherentThroughout(c, r, k - 1);
      assert Taken(c, r, k - 1);
      SurvivesStep(c, r.states[k - 1], r.steps[k - 1]);
    }
  }

  lemma HeldAtStart(c: Config, y: State)
    requires Init(c, y)
    ensures Held(y).id in y.server.sessions
  {}

  lemma SurvivesServe(c: Config, y: State, step: Step)
    requires Coherent(c, y) && Enabled(y, step) && Smooth(c, y, step) && step.ServerRefresh? && Held(y).id in y.server.sessions
    ensures Held(Next(c, y, step)).id in Next(c, y, step).server.sessions
  {
    RefreshHandsOver(c, y.server, y.cookie, y.issued, step.next, step.at);
    assert Held(y) == y.cookie;
    RefusedWithoutRoom(c, y, step.f, step.next, step.at);
    hide Refresh, Validate, ServerKnows, Room, OneTab;
  }

  lemma SurvivesStep(c: Config, y: State, step: Step)
    requires Coherent(c, y) && Enabled(y, step) && Smooth(c, y, step) && !step.SignOutElsewhere? && Held(y).id in y.server.sessions
    ensures Held(Next(c, y, step)).id in Next(c, y, step).server.sessions
  {
    hide Refresh, Validate, DestroyAllSessionsForUser, ServerKnows;
    if step.ServerRefresh? { SurvivesServe(c, y, step); }
  }

  // ---- The device limit ----------------------------------------------------------------------------------------------

  /** The server as SessionRuns sees it. */
  function View(y: State): SessionRuns.State { SessionRuns.State(y.server, y.now, y.issued) }

  predicate OnServer(step: Step) { step.ServerRefresh? || step.SignOutElsewhere? }

  function ServerStep(c: Config, y: State, step: Step): SessionRuns.Step
    requires OnServer(step) && Enabled(y, step)
  {
    match step
    case ServerRefresh(f, next, at) => SessionRuns.RefreshStep(y.flights[f].phase.cookie.id, y.flights[f].phase.cookie.token, next, at)
    case SignOutElsewhere(at) => SessionRuns.ResetPassword(c.user, at)
  }

  /** A step of the protocol is a step of the session store, or leaves it alone. */
  lemma Simulates(c: Config, y: State, step: Step)
    requires Enabled(y, step)
    ensures OnServer(step) ==>
              && SessionRuns.Enabled(View(y), ServerStep(c, y, step))
              && (step.ServerRefresh? ==> View(Next(c, y, step)) == SessionRuns.Next(c.server, View(y), ServerStep(c, y, step)))
              && (step.SignOutElsewhere? ==> View(Next(c, y, step)) == SessionRuns.Next(c.server, View(y), ServerStep(c, y, step)))
    ensures !OnServer(step) ==> View(Next(c, y, step)) == View(y)
  {
    hide Refresh, DestroyAllSessionsForUser, Validate;
  }

  /** The index covers the sessions and holds no more ids than the limit, as in every run with one limit. */
  ghost predicate IndexFits(c: Config, y: State) { SessionRuns.SoundState(c.server, View(y)) }

  lemma {:induction false} IndexFitsThroughout(c: Config, r: Run, k: nat)
    requires IsRun(c, r) && IndexFits(c, r.states[0]) && k < |r.states|
    ensures IndexFits(c, r.states[k])
  {
    hide Next, Enabled, SessionRuns.SoundState, SessionRuns.Next, Init;
    if k > 0 {
      IndexFitsThroughout(c, r, k - 1);
      assert Taken(c, r, k - 1);
      var y, step := r.states[k - 1], r.steps[k - 1];
      Simulates(c, y, step);
      if OnServer(step) { SessionRuns.SoundStep(c.server, View(y), ServerStep(c, y, step)); }
    }
  }

  ghost predicate LosesNoRotation(c: Config, r: Run)
    requires IsRun(c, r)
  {
    forall k: nat | k < |r.steps| && Taken(c, r, k) && r.steps[k].LoseReply? :: r.states[k].flights[r.steps[k].f].phase.reply.Denied?
  }

  lemma HeldPairHasRoom(c: Config, y: State, step: Step)
    requires Coherent(c, y) && IndexFits(c, y) && Enabled(y, step) && step.ServerRefresh?
    ensures Room(c, y, step.f, step.at)
  {
    hide SessionRuns.IndexSound, SessionRuns.WithinLimits;
    SessionRuns.TimePasses(c.server, y.server, y.now, step.at, y.issued);
    if Validate(y.server, y.cookie.id, y.cookie.token, step.at).Valid? {
      SessionRuns.FixedLimitGrants(c.server, y.server, y.cookie.id, y.cookie.token, c.user, step.next, step.at, y.issued);
    }
    hide Validate, Members;
  }

  /** With one limit throughout the guard holds by itself: losing no new cookie is all it takes. */
  lemma {:induction false} FixedLimitIsSmooth(c: Config, r: Run, k: nat)
    requires IsRun(c, r) && OneTab(r.states[0]) && IndexFits(c, r.states[0]) && LosesNoRotation(c, r) && k < |r.states|
    ensures Coherent(c, r.states[k])
    ensures k > 0 ==> Taken(c, r, k - 1) && Smooth(c, r.states[k - 1], r.steps[k - 1])
  {
    hide Next, Enabled, IndexFits;
    if k > 0 {
      hide Coherent, Init, Room;
      FixedLimitIsSmooth(c, r, k - 1);
      IndexFitsThroughout(c, r, k - 1);
      assert Taken(c, r, k - 1);
      var y, step := r.states[k - 1], r.steps[k - 1];
      if step.ServerRefresh? { HeldPairHasRoom(c, y, step); }
      CoherentStep(c, y, step);
    }
  }

  /** So, with a fixed device limit, no run of one tab that loses no new cookie is ever taken for token theft. */
  lemma FixedLimitNeverTakenForReuse(c: Config, r: Run, k: nat)
    requires IsRun(c, r) && OneTab(r.states[0]) && IndexFits(c, r.states[0]) && LosesNoRotation(c, r) && k < |r.states|
    ensures SmoothRun(c, r) && !r.states[k].reuseDetected
  {
    hide Coherent, Next, Enabled, Smooth, IndexFits, LosesNoRotation, Init;
    forall m: nat | m < |r.steps| ensures Taken(c, r, m) && Smooth(c, r.states[m], r.steps[m]) { FixedLimitIsSmooth(c, r, m + 1); }
    NeverTakenForReuse(c, r, k);
  }

  // ---- What a reused answer means -----------------------------------------------------------------------------------

  /** Step i is a refresh that reaches the server with this pair and is accepted. */
  ghost predicate AcceptedAt(c: Config, r: Run, i: nat, pair: Issue)
    requires |r.states| == |r.steps| + 1
  {
    && i < |r.steps| && r.steps[i].ServerRefresh? && Enabled(r.states[i], r.steps[i])
    && r.states[i].flights[r.steps[i].f].phase.cookie == pair
    && Validate(r.states[i].server, pair.id, pair.token, r.steps[i].at).Valid?
  }

  predicate Known(y: State) { y.server.sessions.Keys <= y.issued }

  lemma {:induction false} KnownThroughout(c: Config, r: Run, k: nat)
    requires IsRun(c, r) && k < |r.states|
    ensures Known(r.states[k])
  {
    hide Members, Unindex, Validate;
    if k > 0 {
      KnownThroughout(c, r, k - 1);
      assert Taken(c, r, k - 1);
      Simulates(c, r.states[k - 1], r.steps[k - 1]);
      hide Next;
    }
  }

  lemma {:induction false} TombstoneOrigin(c: Config, r: Run, k: nat, id: SessionId) returns (i: nat)
    requires IsRun(c, r) && k < |r.states| && id in r.states[k].server.tombstones
    ensures i < k && AcceptedAt(c, r, i, Issue(id, r.states[k].server.tombstones[id].value.token))
    ensures r.states[k].server.tombstones[id].expiresAt == r.steps[i].at + TOMBSTONE_TTL_SECONDS
  {
    hide Next, Validate, SessionRuns.Next;
    assert k > 0 && Taken(c, r, k - 1);
    var y, step := r.states[k - 1], r.steps[k - 1];
    Simulates(c, y, step);
    if OnServer(step) { SessionRuns.TombstoneStep(c.server, View(y), ServerStep(c, y, step), id); }
    if id in y.server.tombstones && r.states[k].server.tombstones[id] == y.server.tombstones[id] {
      i := TombstoneOrigin(c, r, k - 1, id);
    } else {
      i := k - 1;
    }
  }

  /** Once accepted, a pair stays rotated out: its session never lives again and its tombstone stays as written. */
  lemma {:induction false} RotatedOut(c: Config, r: Run, i: nat, k: nat, pair: Issue)
    requires IsRun(c, r) && i < k < |r.states| && AcceptedAt(c, r, i, pair)
    ensures pair.id in r.states[k].issued && SessionRuns.Dead(r.states[k].server, pair.id, r.states[k].now)
    ensures r.steps[i].at <= r.states[k].now
    ensures pair.id in r.states[i].server.sessions
    ensures SessionRuns.Entombed(r.states[k].server, pair.id, r.states[i].server.sessions[pair.id].value.user, pair.token, r.steps[i].at + TOMBSTONE_TTL_SECONDS)
  {
    var user := r.states[i].server.sessions[pair.id].value.user;
    hide Next, SessionRuns.Next, SessionRuns.Dead, SessionRuns.Entombed;
    assert Taken(c, r, k - 1);
    var y, step := r.states[k - 1], r.steps[k - 1];
    Simulates(c, y, step);
    if i == k - 1 {
      KnownThroughout(c, r, i);
      SessionRuns.AcceptRotates(c.server, View(y), ServerStep(c, y, step), pair.id, pair.token);
      SessionRuns.IssuedGrows(c.server, View(y), ServerStep(c, y, step));
    } else {
      RotatedOut(c, r, i, k - 1, pair);
      if OnServer(step) {
        SessionRuns.DeadStep(c.server, View(y), ServerStep(c, y, step), pair.id);
        SessionRuns.EntombedStep(c.server, View(y), ServerStep(c, y, step), pair.id, user, pair.token, r.steps[i].at + TOMBSTONE_TTL_SECONDS);
        SessionRuns.IssuedGrows(c.server, View(y), ServerStep(c, y, step));
      }
    }
  }

  /**
   * In every run, with any number of tabs and whatever is lost or refused, a refresh is answered
   * as reused if and only if the pair it carries was accepted before, less than a day ago.
   */
  lemma ReusedExactly(c: Config, r: Run, j: nat)
    requires IsRun(c, r) && j < |r.steps| && Taken(c, r, j) && r.steps[j].ServerRefresh?
    ensures var pair, at := r.states[j].flights[r.steps[j].f].phase.cookie, r.steps[j].at;
            Validate(r.states[j].server, pair.id, pair.token, at).Reused? <==>
            exists i: nat :: i < j && AcceptedAt(c, r, i, pair) && at < r.steps[i].at + 86_400
  {
    var pair, at := r.states[j].flights[r.steps[j].f].phase.cookie, r.steps[j].at;
    if Validate(r.states[j].server, pair.id, pair.token, at).Reused? {
      var i := TombstoneOrigin(c, r, j, pair.id);
    }
    if i: nat :| i < j && AcceptedAt(c, r, i, pair) && at < r.steps[i].at + TOMBSTONE_TTL_SECONDS {
      RotatedOut(c, r, i, j, pair);
    }
  }

  // ---- One tab ------------------------------------------------------------------------------------------------------

  /** The browser takes a new cookie: the only events that change it. */
  predicate TakesCookie(y: State, step: Step)
    requires Enabled(y, step)
  {
    step.LoseBody? || (step.Deliver? && y.flights[step.f].phase.reply.Rotated?)
  }

  /** In one tab a refresh on its way carries the cookie the browser still holds. */
  ghost predicate CarriesCookie(y: State) {
    OneTab(y) && SingleFlight(y) && forall f | 0 <= f < |y.flights| && y.flights[f].phase.Flying? :: y.flights[f].phase.cookie == y.cookie
  }

  lemma CarriesCookieRequests(c: Config, y: State, step: Step)
    requires CarriesCookie(y) && Enabled(y, step) && SingleFlight(Next(c, y, step)) && OnRequest(step)
    ensures CarriesCookie(Next(c, y, step))
  {
    hide SingleFlight;
  }

  lemma CarriesCookieFlights(c: Config, y: State, step: Step)
    requires CarriesCookie(y) && Enabled(y, step) && SingleFlight(Next(c, y, step)) && !OnRequest(step) && !TakesCookie(y, step)
    ensures CarriesCookie(Next(c, y, step))
  {
    SameCookie(c, y, step);
    hide SingleFlight, Refresh, Validate, DestroyAllSessionsForUser;
  }

  /** The refresh that brings the new cookie is the only one there is. */
  lemma CarriesCookieTaken(c: Config, y: State, step: Step)
    requires CarriesCookie(y) && Enabled(y, step) && SingleFlight(Next(c, y, step)) && TakesCookie(y, step)
    ensures CarriesCookie(Next(c, y, step))
  {}

  lemma CarriesCookieStep(c: Config, y: State, step: Step)
    requires CarriesCookie(y) && Enabled(y, step) && SingleFlight(Next(c, y, step))
    ensures CarriesCookie(Next(c, y, step))
  {
    hide CarriesCookie, SingleFlight, Next, Enabled, TakesCookie;
    if OnRequest(step) {
      CarriesCookieRequests(c, y, step);
    } else if TakesCookie(y, step) {
      CarriesCookieTaken(c, y, step);
    } else {
      CarriesCookieFlights(c, y, step);
    }
  }

  lemma {:induction false} CarriesCookieThroughout(c: Config, r: Run, k: nat)
    requires IsRun(c, r) && OneTab(r.states[0]) && k < |r.states|
    ensures CarriesCookie(r.states[k])
  {
    hide Next, Enabled;
    if k > 0 {
      hide CarriesCookie, Init;
      CarriesCookieThroughout(c, r, k - 1);
      SingleFlightThroughout(c, r, k);
      assert Taken(c, r, k - 1);
      CarriesCookieStep(c, r.states[k - 1], r.steps[k - 1]);
    }
  }

  /** Every pair on its way to the browser is newer than `past`, and so is the cookie once one has arrived. */
  ghost predicate NewPairs(y: State, past: set<SessionId>, taken: bool) {
    && past <= y.issued
    && (forall f | 0 <= f < |y.flights| && y.flights[f].phase.Replied? && y.flights[f].phase.reply.Rotated? :: y.flights[f].phase.reply.pair.id !in past)
    && (taken ==> y.cookie.id !in past)
  }

  lemma NewPairsStep(c: Config, y: State, step: Step, past: set<SessionId>, taken: bool)
    requires NewPairs(y, past, taken) && Enabled(y, step)
    ensures NewPairs(Next(c, y, step), past, taken || TakesCookie(y, step))
  {
    hide Refresh, Validate, DestroyAllSessionsForUser;
  }

  lemma ServedAlone(c: Config, y: State, step: Step)
    requires CarriesCookie(y) && Enabled(y, step) && step.ServerRefresh?
    ensures NewPairs(Next(c, y, step), y.issued, false)
  {
    hide Refresh, Validate;
  }

  /** Some step in [i, k) gives the browser a new cookie. */
  ghost predicate CookieTaken(r: Run, i: nat, k: nat)
    requires |r.states| == |r.steps| + 1 && k < |r.states|
  {
    exists m: nat :: i <= m < k && Enabled(r.states[m], r.steps[m]) && TakesCookie(r.states[m], r.steps[m])
  }

  lemma {:induction false} NewPairsThroughout(c: Config, r: Run, i: nat, k: nat)
    requires IsRun(c, r) && OneTab(r.states[0]) && i < k < |r.states| && r.steps[i].ServerRefresh?
    ensures NewPairs(r.states[k], r.states[i].issued, CookieTaken(r, i, k))
    ensures !CookieTaken(r, i, k) ==> r.states[k].cookie == r.states[i].cookie
  {
    hide Next, NewPairs, TakesCookie;
    assert Taken(c, r, k - 1);
    SameCookie(c, r.states[k - 1], r.steps[k - 1]);
    if i == k - 1 {
      CarriesCookieThroughout(c, r, i);
      ServedAlone(c, r.states[i], r.steps[i]);
      assert !TakesCookie(r.states[i], r.steps[i]) by { NotTaken(r.states[i], r.steps[i]); }
    } else {
      NewPairsThroughout(c, r, i, k - 1);
      NewPairsStep(c, r.states[k - 1], r.steps[k - 1], r.states[i].issued, CookieTaken(r, i, k - 1));
    }
  }

  lemma SameCookie(c: Config, y: State, step: Step)
    requires Enabled(y, step)
    ensures !TakesCookie(y, step) ==> Next(c, y, step).cookie == y.cookie
  {
    hide Refresh, Validate, DestroyAllSessionsForUser;
  }

  lemma NotTaken(y: State, step: Step)
    requires Enabled(y, step) && step.ServerRefresh?
    ensures !TakesCookie(y, step)
  {}

  /**
   * In one tab a refresh is answered as reused if and only if an earlier one was accepted, less
   * than a day ago, and no new cookie has reached the browser since.
   */
  lemma ReusedExactlyInOneTab(c: Config, r: Run, j: nat)
    requires IsRun(c, r) && OneTab(r.states[0]) && j < |r.steps| && Taken(c, r, j) && r.steps[j].ServerRefresh?
    ensures var pair, at := r.states[j].flights[r.steps[j].f].phase.cookie, r.steps[j].at;
            Validate(r.states[j].server, pair.id, pair.token, at).Reused? <==>
            exists i: nat, sent: Issue ::
              i < j && AcceptedAt(c, r, i, sent) && at < r.steps[i].at + 86_400 && !CookieTaken(r, i, j)
  {
    var pair, at := r.states[j].flights[r.steps[j].f].phase.cookie, r.steps[j].at;
    ReusedExactly(c, r, j);
    CarriesCookieThroughout(c, r, j);
    hide Validate, CookieTaken;
    if i: nat :| i < j && AcceptedAt(c, r, i, pair) && at < r.steps[i].at + TOMBSTONE_TTL_SECONDS {
      NewPairsThroughout(c, r, i, j);
      AcceptedIsIssued(c, r, i, pair);
      assert AcceptedAt(c, r, i, pair) && !CookieTaken(r, i, j);
    }
    if i: nat, sent: Issue :| i < j && AcceptedAt(c, r, i, sent) && at < r.steps[i].at + TOMBSTONE_TTL_SECONDS && !CookieTaken(r, i, j) {
      NewPairsThroughout(c, r, i, j);
      CarriesCookieThroughout(c, r, i);
      assert sent == pair;
    }
  }

  lemma AcceptedIsIssued(c: Config, r: Run, i: nat, pair: Issue)
    requires IsRun(c, r) && AcceptedAt(c, r, i, pair)
    ensures pair.id in r.states[i].issued
  {
    KnownThroughout(c, r, i);
  }

  /** The user's sessions are revoked over token theft in exactly the runs in which some pair is served again so soon. */
  lemma {:induction false} TakenForReuseExactly(c: Config, r: Run, k: nat)
    requires IsRun(c, r) && k < |r.states|
    ensures r.states[k].reuseDetected <==>
            exists i: nat, j: nat, pair: Issue :: i < j < k && ServedAgain(c, r, i, j, pair)
  {
    hide Validate, AcceptedAt;
    if k > 0 {
      TakenForReuseExactly(c, r, k - 1);
      assert Taken(c, r, k - 1);
      hide ServedAgain;
      ReuseStep(c, r, k - 1);
      if i: nat, j: nat, pair: Issue :| i < j < k && ServedAgain(c, r, i, j, pair) && !r.states[k - 1].reuseDetected {
        assert j == k - 1;
      }
      var last := k - 1;
      if i: nat, pair: Issue :| i < last && ServedAgain(c, r, i, last, pair) {
        assert i < last < k && ServedAgain(c, r, i, last, pair);
      }
    }
  }

  /** A pair accepted at step i reaches the server again at step j, less than a day later. */
  ghost predicate ServedAgain(c: Config, r: Run, i: nat, j: nat, pair: Issue)
    requires |r.states| == |r.steps| + 1 && i < j < |r.states|
  {
    && AcceptedAt(c, r, i, pair) && j < |r.steps| && r.steps[j].ServerRefresh? && Enabled(r.states[j], r.steps[j])
    && r.states[j].flights[r.steps[j].f].phase.cookie == pair && r.steps[j].at < r.steps[i].at + TOMBSTONE_TTL_SECONDS
  }

  lemma ReuseStep(c: Config, r: Run, j: nat)
    requires IsRun(c, r) && j < |r.steps| && Taken(c, r, j)
    ensures r.states[j + 1].reuseDetected <==> r.states[j].reuseDetected || exists i: nat, pair: Issue :: i < j && ServedAgain(c, r, i, j, pair)
  {
    if r.steps[j].ServerRefresh? {
      ReusedExactly(c, r, j);
      var pair := r.states[j].flights[r.steps[j].f].phase.cookie;
      if i: nat :| i < j && AcceptedAt(c, r, i, pair) && r.steps[j].at < r.steps[i].at + TOMBSTONE_TTL_SECONDS {
        assert ServedAgain(c, r, i, j, pair);
      }
      if i: nat, p: Issue :| i < j && ServedAgain(c, r, i, j, p) {
        assert AcceptedAt(c, r, i, pair);
      }
    }
    hide Refresh, Validate, DestroyAllSessionsForUser, AcceptedAt;
  }

  // ---- What breaks it ----------------------------------------------------------------------------------------------

  function Last(r: Run): State
    requires r.states != []
  {
    r.states[|r.states| - 1]
  }

  predicate Lossless(steps: seq<Step>) { forall k | 0 <= k < |steps| :: !steps[k].LoseReply? && !steps[k].LoseCall? && !steps[k].LoseBody? }

  lemma Extend(c: Config, r: Run, step: Step) returns (r': Run)
    requires IsRun(c, r) && Enabled(Last(r), step)
    ensures IsRun(c, r') && r'.states[0] == r.states[0] && Last(r') == Next(c, Last(r), step)
    ensures Lossless(r.steps) && !step.LoseReply? && !step.LoseCall? && !step.LoseBody? ==> Lossless(r'.steps)
  {
    hide Next, Enabled, Init;
    r' := Run(r.states + [Next(c, Last(r), step)], r.steps + [step]);
    forall k: nat | k < |r'.steps| ensures Taken(c, r', k) {
      if k < |r.steps| { assert Taken(c, r, k); }
    }
  }

  /** A pair whose rotation the server has carried out, granted or not, counts as stolen when it comes again. */
  lemma RotatedPairIsReused(c: Config, r: Redis, held: Issue, next: Issue, at: int)
    requires Validate(r, held.id, held.token, at).Valid? && next.id != held.id
    ensures var r' := Refresh(r, held.id, held.token, c.server.maxDevices, next, c.server.ttl, at).0;
            Validate(r', held.id, held.token, at) == Reused(r.sessions[held.id].value.user)
  {
    hide Members, Unindex;
  }

  /**
   * Two requests that are about to fail, in tabs `a` and `b` of a browser with a live session;
   * `others` are further ids in the user's index.
   */
  function Browser(c: Config, a: Tab, b: Tab, others: set<SessionId>): State {
    State([Request(a, Ready(false), 0), Request(b, Ready(false), 0)], [], map[], Issue(1, 11),
          Redis(map[1 := Timed(Record(c.user, 11, "", "", 0, 0), 100)], map[c.user := Timed({1} + others, 100)], map[]), {1} + others, 0, false)
  }

  /** The request is sent, answered with a 401, and turns to `tryRefresh`. */
  lemma Fails(c: Config, r: Run, q: nat) returns (r': Run)
    requires IsRun(c, r) && q < |Last(r).requests| && Last(r).requests[q].phase == Ready(false)
    ensures IsRun(c, r') && r'.states[0] == r.states[0] && |Last(r').requests| == |Last(r).requests|
    ensures Lossless(r.steps) ==> Lossless(r'.steps)
    ensures forall other | 0 <= other < |Last(r).requests| && other != q :: Last(r').requests[other] == Last(r).requests[other]
    ensures var y, y', tab := Last(r), Last(r'), Last(r).requests[q].tab;
            && y'.server == y.server && y'.cookie == y.cookie && y'.issued == y.issued && y'.now == y.now && y'.reuseDetected == y.reuseDetected
            && (tab !in y.current ==> y'.flights == y.flights + [Flight(tab, Flying(y.cookie))] && y'.current == y.current[tab := |y.flights|])
  {
    hide IsRun;
    r' := Extend(c, r, Send(q));
    r' := Extend(c, r', Answer(q, Unauthorized401));
    r' := Extend(c, r', Receive(q));
  }

  lemma FirstRefreshCalled(c: Config, b: Tab, others: set<SessionId>) returns (r: Run)
    ensures IsRun(c, r) && r.states[0] == Browser(c, 0, b, others) && Lossless(r.steps)
    ensures var y := Last(r);
            && |y.requests| == 2 && y.requests[1] == Request(b, Ready(false), 0) && y.flights == [Flight(0, Flying(Issue(1, 11)))]
            && y.current == map[0 := 0] && y.cookie == Issue(1, 11) && y.issued == {1} + others && y.now == 0
            && y.server == Browser(c, 0, b, others).server
  {
    r := Run([Browser(c, 0, b, others)], []);
    r := Fails(c, r, 0);
  }

  lemma BrowserIsValid(c: Config, b: Tab, others: set<SessionId>)
    requires 1 !in others
    ensures var r := Browser(c, 0, b, others).server;
            Validate(r, 1, 11, 0) == Valid(c.user) && r.sessions[1].value.user == c.user && Members(r, c.user, 0) - {1} == others
  {}

  /** The first refresh as the server finds it: granted or refused by the guard, and its pair taken for stolen afterwards. */
  lemma FirstRefreshAnswered(c: Config, b: Tab, others: set<SessionId>)
    requires others !! {1, 2, 3}
    ensures var r := Browser(c, 0, b, others).server; var (r', outcome) := Refresh(r, 1, 11, c.server.maxDevices, Issue(2, 22), c.server.ttl, 0);
            && (!outcome.Issued? <==> c.server.maxDevices(c.user).Some? && |others| >= c.server.maxDevices(c.user).value)
            && Validate(r', 1, 11, 0) == Reused(c.user)
  {
    BrowserIsValid(c, b, others);
    var server := Browser(c, 0, b, others).server;
    RotatedPairIsReused(c, server, Issue(1, 11), Issue(2, 22), 0);
    LimitRefusesExactly(server, 1, 11, c.user, c.server.maxDevices, Issue(2, 22), c.server.ttl, 0);
    ValidIsServed(server, 1, 11, c.user, c.server.maxDevices, Issue(2, 22), c.server.ttl, 0);
    hide Validate, Members, Refresh, Browser;
  }

  lemma ValidIsServed(r: Redis, id: SessionId, token: Token, user: UserId, maxDevices: UserId -> Option<nat>, next: Issue, ttl: UserId -> nat, at: int)
    requires Validate(r, id, token, at) == Valid(user)
    ensures !Refresh(r, id, token, maxDevices, next, ttl, at).1.Unauthorized?
  {
    hide Members, RotateOutSession, TouchSession;
  }

  /** Up to the moment the server has carried out the first request's refresh. */
  lemma FirstRefreshServed(c: Config, b: Tab, others: set<SessionId>) returns (r: Run)
    requires others !! {1, 2, 3}
    ensures IsRun(c, r) && r.states[0] == Browser(c, 0, b, others) && Lossless(r.steps)
    ensures var y := Last(r);
            && AboutToFail(y, b) && |y.flights| == 1 && y.flights[0].tab == 0 && y.flights[0].phase.Replied? && y.current == map[0 := 0] && y.issued == {1, 2} + others
            && (y.flights[0].phase.reply == Denied <==> c.server.maxDevices(c.user).Some? && |others| >= c.server.maxDevices(c.user).value)
  {
    r := FirstRefreshCalled(c, b, others);
    FirstRefreshAnswered(c, b, others);
    hide IsRun, Validate, Members, Refresh, Browser;
    r := Extend(c, r, ServerRefresh(0, Issue(2, 22), 0));
  }

  /** The second request is about to fail, after one refresh, with a cookie that is rotated out. */
  predicate AboutToFail(y: State, b: Tab) {
    && |y.requests| == 2 && y.requests[1] == Request(b, Ready(false), 0) && |y.flights| == 1
    && y.cookie == Issue(1, 11) && y.now == 0 && Validate(y.server, 1, 11, 0).Reused?
  }

  lemma SecondIsTaken(c: Config, r: Run, b: Tab) returns (r': Run)
    requires IsRun(c, r) && AboutToFail(Last(r), b) && b !in Last(r).current && 3 !in Last(r).issued
    ensures IsRun(c, r') && r'.states[0] == r.states[0] && Last(r').reuseDetected
    ensures Lossless(r.steps) ==> Lossless(r'.steps)
  {
    hide IsRun, Validate, Refresh;
    r' := Fails(c, r, 1);
    r' := Extend(c, r', ServerRefresh(1, Issue(3, 33), 0));
  }

  lemma FirstRefreshFailed(c: Config, r: Run, fail: Step, b: Tab) returns (r': Run)
    requires IsRun(c, r) && AboutToFail(Last(r), b) && Last(r).flights[0].tab == 0 && Last(r).current == map[0 := 0]
    requires Enabled(Last(r), fail) && (fail == LoseReply(0) || (fail == Deliver(0) && Last(r).flights[0].phase.reply.Denied?))
    ensures IsRun(c, r') && r'.states[0] == r.states[0]
    ensures AboutToFail(Last(r'), b) && Last(r').current == map[] && Last(r').issued == Last(r).issued
    ensures Lossless(r.steps) && !fail.LoseReply? ==> Lossless(r'.steps)
  {
    hide IsRun, Validate;
    r' := Extend(c, r, fail);
    r' := Extend(c, r', Clear(0));
  }

  /** One lost reply and the next request to fail is taken for a thief. */
  lemma LostReplyLooksLikeTheft(c: Config) returns (r: Run)
    ensures IsRun(c, r) && OneTab(r.states[0]) && Last(r).reuseDetected
  {
    hide IsRun, Validate, AboutToFail;
    r := FirstRefreshServed(c, 0, {});
    r := FirstRefreshFailed(c, r, LoseReply(0), 0);
    r := SecondIsTaken(c, r, 0);
  }

  /**
   * For every legal limit, so is a rotation refused by it: where the limit was lowered below the
   * number of ids already indexed, the browser keeps the cookie that was rotated out.
   */
  lemma LimitRefusalLooksLikeTheft(c: Config, others: set<SessionId>) returns (r: Run)
    requires others !! {1, 2, 3} && c.server.maxDevices(c.user).Some? && 1 <= c.server.maxDevices(c.user).value <= |others|
    ensures IsRun(c, r) && OneTab(r.states[0]) && Last(r).reuseDetected
    ensures Lossless(r.steps)
  {
    hide IsRun, Validate, AboutToFail;
    r := FirstRefreshServed(c, 0, others);
    r := FirstRefreshFailed(c, r, Deliver(0), 0);
    r := SecondIsTaken(c, r, 0);
  }

  /** And so are two tabs that refresh at the same time: `refreshPromise` is shared within a tab only. */
  lemma TwoTabsLookLikeTheft(c: Config) returns (r: Run)
    ensures IsRun(c, r) && Last(r).reuseDetected
    ensures Lossless(r.steps)
  {
    hide IsRun, Validate, AboutToFail;
    r := FirstRefreshServed(c, 1, {});
    r := SecondIsTaken(c, r, 1);
  }
}
