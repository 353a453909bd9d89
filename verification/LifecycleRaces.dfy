/**
 * Short runs of the lifecycle in which a call or a sweep writes what it read before something
 * else came between: the cases that the exact conditions of the run theorems leave over.
 */
module LifecycleRaces {
  import opened Common
  import opened Calendar
  import opened BillingTables
  import opened GraceLadder
  import opened PlanFees
  import opened Retention
  import opened Lifecycle
  import opened LifecycleRuns
  import opened PaymentRuns

  function Last(r: Run): System
    requires r.states != []
  {
    r.states[|r.states| - 1]
  }

  lemma Extend(settings: Settings, r: Run, step: Step, at: int) returns (r': Run)
    requires IsRun(settings, r) && Enabled(Last(r), step, at)
    ensures IsRun(settings, r') && r'.states[0] == r.states[0] && Last(r') == Next(settings, Last(r), step, at)
    ensures r'.steps == r.steps + [step] && r'.times == r.times + [at] && r'.states == r.states + [Last(r')]
  {
    hide Next, Enabled, Initial;
    r' := Run(r.states + [Next(settings, Last(r), step, at)], r.steps + [step], r.times + [at]);
    forall k: nat | k < |r'.steps| ensures Taken(settings, r', k) {
      if k < |r.steps| { assert Taken(settings, r, k); }
    }
  }

  /** One seller with one selling store, a paid plan that ended at 0, and a request for its fee that is waiting. */
  function Start(interval: Interval): System {
    System(0, Tables(map[0 := Store(0, Active, None, None, map[])], map[0 := Subscription(true, interval, Some(0), map[])],
                     map[0 := Request(0, 0, Some(1), Pending)], map[], map[0 := Ladder(None, None)], map[], map[]),
           map[], map[], map[])
  }

  function Overdue(settings: Settings): int { settings.planFeeGraceDays * DAY_MS }

  function PausedStore(at: int): Store { Store(0, OrdersPaused, Some(at), None, map[]) }

  /** Paused for the fee, with the stamp still to come. */
  function StoppedStore(): Store { Store(0, OrdersPaused, None, None, map[]) }

  lemma Stops(settings: Settings, t: Tables, interval: Interval, at: int)
    requires t == Start(interval).t && at >= Overdue(settings)
    ensures IsDue(t.subscriptions[0], at) && DebitTurn(settings, t, 0, t.subscriptions[0], at) == (t.(stores := map[0 := StoppedStore()]), true)
  {
    assert 0 in t.stores && HasActive(t.stores, 0);
    assert PauseActive(t.stores, 0) == map[0 := StoppedStore()];
  }

  lemma StartsDebit(settings: Settings, y: System, sweep: SweepId, at: int)
    requires y.clock <= at && sweep !in y.sweeps
    ensures Enabled(y, StartDebitSweep(sweep), at)
    ensures Next(settings, y, StartDebitSweep(sweep), at) == y.(clock := at, sweeps := y.sweeps[sweep := DebitRows(at, DueRows(y.t, at), {})])
  {}

  lemma DebitTurnTaken(settings: Settings, y: System, sweep: SweepId, at: int)
    requires y.clock <= at && sweep in y.sweeps && y.sweeps[sweep].DebitRows? && 0 in y.sweeps[sweep].rows && IsDue(y.sweeps[sweep].rows[0], y.sweeps[sweep].now)
    requires DebitTurn(settings, y.t, 0, y.sweeps[sweep].rows[0], y.sweeps[sweep].now).1
    ensures Enabled(y, DebitRow(sweep, 0), at)
    ensures var w := y.sweeps[sweep];
            Next(settings, y, DebitRow(sweep, 0), at) ==
            y.(clock := at, t := DebitTurn(settings, y.t, 0, w.rows[0], w.now).0, sweeps := y.sweeps[sweep := w.(stopped := w.stopped + {0})])
  {
    hide DebitTurn;
  }

  lemma StampTaken(settings: Settings, y: System, sweep: SweepId, at: int)
    requires y.clock <= at && sweep in y.sweeps && y.sweeps[sweep].DebitRows? && 0 in y.sweeps[sweep].stopped
    ensures Enabled(y, StampRow(sweep, 0), at)
    ensures Next(settings, y, StampRow(sweep, 0), at) ==
            y.(clock := at, t := y.t.(stores := Stamp(y.t.stores, 0, at)), sweeps := y.sweeps[sweep := y.sweeps[sweep].(stopped := y.sweeps[sweep].stopped - {0})])
  {
    hide Stamp;
  }

  /** The debit sweep stops the store at the end of the grace days. */
  lemma Stop(settings: Settings, interval: Interval) returns (r: Run)
    ensures IsRun(settings, r) && r.states[0] == Start(interval) && |r.steps| == 2
    ensures var y, at := Last(r), Overdue(settings);
            && y.clock == at && y.t == Start(interval).t.(stores := map[0 := StoppedStore()])
            && y.sweeps.Keys == {0} && y.sweeps[0].DebitRows? && 0 in y.sweeps[0].stopped && y.calls == map[] && y.cooldowns == map[]
  {
    var at := Overdue(settings);
    r := Run([Start(interval)], [], []);
    assert IsRun(settings, r);
    StartsDebit(settings, Last(r), 0, at);
    Stops(settings, Last(r).t, interval, at);
    hide IsRun, Next, Enabled, DebitTurn;
    r := Extend(settings, r, StartDebitSweep(0), at);
    DebitTurnTaken(settings, Last(r), 0, at);
    r := Extend(settings, r, DebitRow(0, 0), at);
  }

  lemma StampsLoneStore(at: int)
    ensures Stamp(map[0 := StoppedStore()], 0, at) == map[0 := PausedStore(at)]
  {}

  /** And stamps it. */
  lemma Pause(settings: Settings, interval: Interval) returns (r: Run)
    ensures IsRun(settings, r) && r.states[0] == Start(interval)
    ensures var y, at := Last(r), Overdue(settings);
            && y.clock == at && y.t == Start(interval).t.(stores := map[0 := PausedStore(at)])
            && y.sweeps.Keys == {0} && y.calls == map[] && y.cooldowns == map[]
    ensures |r.steps| == 3
  {
    var at := Overdue(settings);
    r := Stop(settings, interval);
    StampTaken(settings, Last(r), 0, at);
    StampsLoneStore(at);
    hide IsRun, Next, Enabled, Stamp;
    r := Extend(settings, r, StampRow(0, 0), at);
  }

  /** A call verifies the waiting fee; its restores are still to come. */
  lemma VerifyFee(settings: Settings, r: Run, at: int) returns (r': Run)
    requires IsRun(settings, r) && Last(r).clock <= at && Last(r).calls == map[]
    requires 0 in Last(r).t.requests && Last(r).t.requests[0] == Request(0, 0, Some(1), Pending)
    requires 0 in Last(r).t.subscriptions && Last(r).t.subscriptions[0].periodEnd.Some?
    ensures IsRun(settings, r') && r'.states[0] == r.states[0]
    ensures var y, y' := Last(r), Last(r');
            && y'.clock == at && y'.t.stores == y.t.stores && y'.t.balances == y.t.balances && y'.sweeps == y.sweeps
            && y'.calls == map[0 := CreditVerified(0, true)] && Payments(y'.t, 0) == Payments(y.t, 0) + [at]
  {
    hide IsRun, AddInterval, PaidBefore;
    r' := Extend(settings, r, LookUp(0, 0), at);
    r' := Extend(settings, r', Verify(0), at);
  }

  lemma LoneStoreRestored(t: Tables, stamp: int)
    requires t.stores == map[0 := PausedStore(stamp)]
    ensures RestoreAfterPlanFeePayment(t, 0) == (t.(stores := map[0 := Store(0, Active, None, None, map[])]), true)
  {
    assert Restore(t.stores, 0) == map[0 := Store(0, Active, None, None, map[])];
  }

  /** Below the threshold the balance check does nothing but hand over to the plan-fee restore. */
  lemma ChecksLow(settings: Settings, y: System, at: int)
    requires y.clock <= at && y.calls == map[0 := CreditVerified(0, true)] && Balance(y.t, 0) < settings.warningThreshold
    ensures Enabled(y, CheckBalance(0), at)
    ensures Next(settings, y, CheckBalance(0), at) == y.(clock := at, calls := map[0 := BalanceChecked(0)])
  {
    hide Reactivate, OneActivePerSeller;
  }

  lemma Restores(settings: Settings, y: System, at: int)
    requires y.clock <= at && y.calls == map[0 := BalanceChecked(0)]
    ensures Enabled(y, RestoreFee(0), at)
    ensures Next(settings, y, RestoreFee(0), at) == y.(clock := at, t := RestoreAfterPlanFeePayment(y.t, 0).0, calls := map[])
  {
    hide RestoreAfterPlanFeePayment;
  }

  /** The balance check and the plan-fee restore, for a seller whose balance is below the threshold. */
  lemma RestoreStore(settings: Settings, r: Run, at: int, stamp: int) returns (r': Run)
    requires IsRun(settings, r) && Last(r).clock == at && Last(r).calls == map[0 := CreditVerified(0, true)]
    requires Balance(Last(r).t, 0) < settings.warningThreshold && Last(r).t.stores == map[0 := PausedStore(stamp)]
    ensures IsRun(settings, r') && r'.states[0] == r.states[0]
    ensures Last(r') == Last(r).(t := Last(r).t.(stores := map[0 := Store(0, Active, None, None, map[])]), calls := map[])
  {
    ChecksLow(settings, Last(r), at);
    LoneStoreRestored(Last(r).t, stamp);
    hide IsRun, Next, Enabled, RestoreAfterPlanFeePayment;
    r' := Extend(settings, r, CheckBalance(0), at);
    Restores(settings, Last(r'), at);
    r' := Extend(settings, r', RestoreFee(0), at);
  }

  /**
   * A payment that restores the store between a warning sweep's read and its write: the store
   * sells again, off the clock, with the warning's flag already set for its next pause.
   */
  lemma FlagCarriedOver(settings: Settings, interval: Interval) returns (r: Run)
    requires settings.warningThreshold > 0
    ensures IsRun(settings, r) && r.states[0] == Start(interval) && 0 in Last(r).t.stores
    ensures var s := Last(r).t.stores[0]; s.status == Active && s.terminalPausedAt == None && Warning0 in s.sent && !FlagsAreCurrent(s)
  {
    var at := Overdue(settings);
    r := Pause(settings, interval);
    assert PausedRows(map[0 := PausedStore(at)]) == map[0 := PausedStore(at)];
    Starts(settings, Last(r), 1, at, PausedStore(at));
    hide IsRun, PausedRows, Next, Enabled;
    r := Extend(settings, r, StartNotices(1, WARNINGS), at);
    r := VerifyFee(settings, r, at);
    r := RestoreStore(settings, r, at, at);
    CarriesFlag(settings, Last(r), at);
    r := Extend(settings, r, NotifyOne(1, 0), at);
  }

  lemma CarriesFlag(settings: Settings, y: System, at: int)
    requires y.clock <= at && 1 in y.sweeps && y.sweeps[1] == Notices(at, WARNINGS, map[0 := PausedStore(at)])
    requires y.t.stores == map[0 := Store(0, Active, None, None, map[])]
    ensures Enabled(y, NotifyOne(1, 0), at) && 0 in Next(settings, y, NotifyOne(1, 0), at).t.stores
    ensures var s := Next(settings, y, NotifyOne(1, 0), at).t.stores[0];
            s.status == Active && s.terminalPausedAt == None && Warning0 in s.sent && !FlagsAreCurrent(s)
  {
    assert NoticeDue(PausedStore(at), at, Warning0, settings.retentionDays);
    hide NextSweeps, NextCalls;
  }

  lemma OnePausedRow(s: Store, at: int, retentionDays: nat)
    requires OnRetentionClock(s) && s.terminalPausedAt.value == at - retentionDays * DAY_MS
    ensures PausedRows(map[0 := s]) == map[0 := s]
    ensures Candidates(map[0 := s], at, retentionDays) == map[0 := s.terminalPausedAt.value]
  {}

  lemma Starts(settings: Settings, y: System, sweep: SweepId, at: int, s: Store)
    requires y.clock <= at && sweep !in y.sweeps && y.t.stores == map[0 := s] && PausedRows(map[0 := s]) == map[0 := s]
    ensures Enabled(y, StartNotices(sweep, WARNINGS), at)
    ensures Next(settings, y, StartNotices(sweep, WARNINGS), at) == y.(clock := at, sweeps := y.sweeps[sweep := Notices(at, WARNINGS, map[0 := s])])
  {
    hide PausedRows;
  }

  lemma Turns(settings: Settings, y: System, sweep: SweepId, at: int, row: Store)
    requires y.clock <= at && sweep in y.sweeps && y.sweeps[sweep] == Notices(at, WARNINGS, map[0 := row]) && 0 in y.t.stores
    ensures Enabled(y, NotifyOne(sweep, 0), at)
    ensures var y' := Next(settings, y, NotifyOne(sweep, 0), at);
            y'.clock == at && 0 in y'.t.stores && y'.sweeps == y.sweeps[sweep := Notices(at, WARNINGS, map[])]
  {
    hide NoticeDue;
    assert map[0 := row] - {0} == map[];
  }

  lemma Sends(settings: Settings, r: Run, k: nat, at: int, row: Store)
    requires IsRun(settings, r) && k < |r.steps| && r.steps[k].NotifyOne? && r.steps[k].id == 0 && 0 in r.states[k].t.stores
    requires r.steps[k].sweep in r.states[k].sweeps && r.states[k].sweeps[r.steps[k].sweep] == Notices(at, WARNINGS, map[0 := row])
    requires NoticeDue(row, at, Warning0, settings.retentionDays)
    ensures SendsNotice(settings, r, k, 0, Warning0)
  {
    hide NoticeDue;
  }

  /** Both sweeps have read the store. */
  lemma BothStart(settings: Settings, interval: Interval) returns (r: Run)
    ensures IsRun(settings, r) && r.states[0] == Start(interval) && |r.steps| == 5
    ensures var y, at := Last(r), Overdue(settings); var w := Notices(at, WARNINGS, map[0 := PausedStore(at)]);
            y.clock == at && 0 in y.t.stores && 1 in y.sweeps && 2 in y.sweeps && y.sweeps[1] == y.sweeps[2] == w
  {
    var at := Overdue(settings);
    r := Pause(settings, interval);
    var row := PausedStore(at);
    assert PausedRows(map[0 := row]) == map[0 := row];
    Starts(settings, Last(r), 1, at, row);
    hide IsRun, PausedRows, Next, Enabled;
    r := Extend(settings, r, StartNotices(1, WARNINGS), at);
    Starts(settings, Last(r), 2, at, row);
    r := Extend(settings, r, StartNotices(2, WARNINGS), at);
  }

  /** Two sweeps that both read the store before either writes: the same warning goes out twice about one pause. */
  lemma WarnedTwice(settings: Settings, interval: Interval) returns (r: Run)
    ensures IsRun(settings, r) && r.states[0] == Start(interval) && |r.steps| == 7
    ensures SendsNotice(settings, r, 5, 0, Warning0) && SendsNotice(settings, r, 6, 0, Warning0)
  {
    var at := Overdue(settings);
    var row := PausedStore(at);
    assert NoticeDue(row, at, Warning0, settings.retentionDays);
    r := BothStart(settings, interval);
    Turns(settings, Last(r), 1, at, row);
    hide NoticeDue, Next, Enabled, SendsNotice;
    r := Extend(settings, r, NotifyOne(1, 0), at);
    Turns(settings, Last(r), 2, at, row);
    r := Extend(settings, r, NotifyOne(2, 0), at);
    Sends(settings, r, 5, at, row);
    Sends(settings, r, 6, at, row);
  }

  lemma Notifies(settings: Settings, y: System, at: int, s: Store)
    requires y.clock <= at && 1 in y.sweeps && y.sweeps[1] == Notices(at, WARNINGS, map[0 := s]) && y.t.stores == map[0 := s]
    ensures Enabled(y, NotifyOne(1, 0), at)
    ensures var warned := Notify(s, s, at, WARNINGS, settings.retentionDays);
            Next(settings, y, NotifyOne(1, 0), at) == y.(clock := at, t := y.t.(stores := map[0 := warned]), sweeps := y.sweeps[1 := Notices(at, WARNINGS, map[])])
  {
    hide NoticeDue;
    assert map[0 := s] - {0} == map[];
    assert map[0 := s][0 := Notify(s, s, at, WARNINGS, settings.retentionDays)] == map[0 := Notify(s, s, at, WARNINGS, settings.retentionDays)];
  }

  lemma Queries(settings: Settings, y: System, at: int, s: Store)
    requires y.clock <= at && 1 in y.sweeps && y.sweeps[1] == Notices(at, WARNINGS, map[]) && y.t.stores == map[0 := s]
    requires s.terminalPausedAt.Some? && Candidates(map[0 := s], at, settings.retentionDays) == map[0 := s.terminalPausedAt.value]
    ensures Enabled(y, QueryExpired(1), at)
    ensures Next(settings, y, QueryExpired(1), at) == y.(clock := at, sweeps := y.sweeps[1 := Deleting(at, map[0 := s.terminalPausedAt.value])])
  {
    hide Candidates;
  }

  /** The warning sweep and its query, at the end of the retention window. */
  lemma Query(settings: Settings, r: Run, at: int, s: Store) returns (r': Run, warned: Store)
    requires IsRun(settings, r) && Last(r).clock <= at && 1 !in Last(r).sweeps && Last(r).t.stores == map[0 := s]
    requires OnRetentionClock(s) && s.terminalPausedAt.value == at - settings.retentionDays * DAY_MS
    ensures IsRun(settings, r') && r'.states[0] == r.states[0] && warned == s.(sent := warned.sent)
    ensures var y, y' := Last(r), Last(r');
            && y'.clock == at && y'.calls == y.calls && y'.t == y.t.(stores := map[0 := warned])
            && 1 in y'.sweeps && y'.sweeps[1] == Deleting(at, map[0 := s.terminalPausedAt.value])
  {
    OnePausedRow(s, at, settings.retentionDays);
    Starts(settings, Last(r), 1, at, s);
    hide IsRun, NoticeDue, PausedRows, Candidates, Next, Enabled;
    r' := Extend(settings, r, StartNotices(1, WARNINGS), at);
    Notifies(settings, Last(r'), at, s);
    r' := Extend(settings, r', NotifyOne(1, 0), at);
    warned := Notify(s, s, at, WARNINGS, settings.retentionDays);
    OnePausedRow(warned, at, settings.retentionDays);
    Queries(settings, Last(r'), at, warned);
    r' := Extend(settings, r', QueryExpired(1), at);
  }

  /**
   * The three commits of a verification leave room for the deletion: a store whose seller's fee
   * has been verified is deleted, if the re-check comes before the restore.
   */
  lemma DeletedAfterPayment(settings: Settings, interval: Interval) returns (r: Run)
    ensures IsRun(settings, r) && r.states[0] == Start(interval)
    ensures Payments(Last(r).t, 0) == [Overdue(settings) + settings.retentionDays * DAY_MS] && Last(r).t.stores == map[]
  {
    var at := Overdue(settings) + settings.retentionDays * DAY_MS;
    r := Pause(settings, interval);
    hide IsRun;
    var warned;
    r, warned := Query(settings, r, at, PausedStore(Overdue(settings)));
    r := VerifyFee(settings, r, at);
    r := Extend(settings, r, DeleteOne(1, 0), at);
    assert Last(r).t.stores == map[0 := warned] - {0};
  }

  // ---- A deletion without a warning --------------------------------------------------------------------

  /** Back on sale through a balance check, with the stamp of the pause left on it. */
  function SellingStore(stamp: int): Store { PausedStore(stamp).(status := Active) }

  function EnoughToRestore(settings: Settings): nat { if settings.warningThreshold > 0 then settings.warningThreshold else 0 }

  lemma BalanceRestoresLoneStore(settings: Settings, t: Tables, stamp: int)
    requires t.stores == map[0 := PausedStore(stamp)] && Balance(t, 0) >= settings.warningThreshold
    ensures CheckAndRestore(settings, t, 0) == (t.(stores := map[0 := SellingStore(stamp)], sellers := t.sellers[0 := Ladder(None, None)]), true)
  {
    assert Reactivate(t.stores, 0) == map[0 := SellingStore(stamp)];
  }

  lemma AsksCredit(settings: Settings, y: System, amount: nat, at: int)
    requires y.clock <= at && 1 !in y.t.requests
    ensures Enabled(y, RequestCredit(1, 0, amount), at)
    ensures Next(settings, y, RequestCredit(1, 0, amount), at) == y.(clock := at, t := RequestTopUp(y.t, 1, 0, amount))
  {}

  lemma CommitsCredit(settings: Settings, t: Tables, at: int)
    requires 1 in t.requests && t.requests[1] == Request(0, EnoughToRestore(settings), None, Pending) && t.balances == map[]
    ensures CommitVerification(t, 1, at).Ok?
    ensures var t' := CommitVerification(t, 1, at).value;
            t'.stores == t.stores && t'.subscriptions == t.subscriptions && t'.slots == t.slots && Balance(t', 0) >= settings.warningThreshold
  {}

  /** A credit large enough is asked for and verified. */
  lemma VerifyCredit(settings: Settings, interval: Interval) returns (r: Run)
    ensures IsRun(settings, r) && r.states[0] == Start(interval)
    ensures var y, at := Last(r), Overdue(settings);
            && y.clock == at && y.t.stores == map[0 := PausedStore(at)] && y.t.subscriptions == Start(interval).t.subscriptions
            && y.t.slots == map[] && Balance(y.t, 0) >= settings.warningThreshold
            && y.sweeps.Keys == {0} && y.calls == map[0 := CreditVerified(0, false)]
  {
    var at := Overdue(settings);
    r := Pause(settings, interval);
    AsksCredit(settings, Last(r), EnoughToRestore(settings), at);
    hide IsRun, CommitVerification, Next, Enabled, Balance;
    r := Extend(settings, r, RequestCredit(1, 0, EnoughToRestore(settings)), at);
    LooksUp(settings, Last(r), 0, 1, at);
    r := Extend(settings, r, LookUp(0, 1), at);
    CommitsCredit(settings, Last(r).t, at);
    Verifies(settings, Last(r), 0, at);
    r := Extend(settings, r, Verify(0), at);
  }

  /** A seller whose store was stopped for an unpaid fee tops up, and the balance check puts it back on sale. */
  lemma TopUp(settings: Settings, interval: Interval) returns (r: Run)
    ensures IsRun(settings, r) && r.states[0] == Start(interval)
    ensures var y, at := Last(r), Overdue(settings);
            && y.clock == at && y.t.stores == map[0 := SellingStore(at)] && y.t.subscriptions == Start(interval).t.subscriptions
            && y.t.slots == map[] && y.sweeps.Keys == {0}
  {
    var at := Overdue(settings);
    r := VerifyCredit(settings, interval);
    BalanceRestoresLoneStore(settings, Last(r).t, at);
    hide IsRun, CheckAndRestore;
    r := Extend(settings, r, CheckBalance(0), at);
  }

  lemma StopsAgain(settings: Settings, t: Tables, interval: Interval, stamp: int, at: int)
    requires t.stores == map[0 := SellingStore(stamp)] && t.subscriptions == Start(interval).t.subscriptions && t.slots == map[] && at >= Overdue(settings)
    ensures IsDue(t.subscriptions[0], at) && DebitTurn(settings, t, 0, t.subscriptions[0], at) == (t.(stores := map[0 := PausedStore(stamp)]), true)
  {
    assert 0 in t.stores && HasActive(t.stores, 0);
    assert PauseActive(t.stores, 0) == map[0 := PausedStore(stamp)];
  }

  lemma StartsWithout(settings: Settings, y: System, sweep: SweepId, at: int)
    requires y.clock <= at && sweep !in y.sweeps && PausedRows(y.t.stores) == map[]
    ensures Enabled(y, StartNotices(sweep, WARNINGS), at)
    ensures Next(settings, y, StartNotices(sweep, WARNINGS), at) == y.(clock := at, sweeps := y.sweeps[sweep := Notices(at, WARNINGS, map[])])
  {
    hide PausedRows;
  }

  /** The fee is still unpaid: the next debit sweep stops the store again, on the old stamp, after the warnings have passed it over. */
  lemma PauseOnOldStamp(settings: Settings, interval: Interval) returns (r: Run)
    ensures IsRun(settings, r) && r.states[0] == Start(interval)
    ensures var y, at := Last(r), Overdue(settings) + settings.retentionDays * DAY_MS;
            && y.clock == at && y.t.stores == map[0 := PausedStore(Overdue(settings))] && 1 in y.sweeps && y.sweeps[1] == Notices(at, WARNINGS, map[])
  {
    var stamp := Overdue(settings);
    var at := stamp + settings.retentionDays * DAY_MS;
    r := TopUp(settings, interval);
    assert PausedRows(map[0 := SellingStore(stamp)]) == map[];
    StartsWithout(settings, Last(r), 1, at);
    StopsAgain(settings, Last(r).t, interval, stamp, at);
    hide IsRun, PausedRows, Next, Enabled, DebitTurn;
    r := Extend(settings, r, StartNotices(1, WARNINGS), at);
    StartsDebit(settings, Last(r), 2, at);
    r := Extend(settings, r, StartDebitSweep(2), at);
    DebitTurnTaken(settings, Last(r), 2, at);
    r := Extend(settings, r, DebitRow(2, 0), at);
  }

  /**
   * A store that a top-up has put back on sale keeps the stamp of its old pause. Stopped again
   * once the sweep has read which stores are paused, it is deleted by that sweep, however long
   * the retention window, and no warning was ever sent.
   */
  lemma DeletedUnwarned(settings: Settings, interval: Interval) returns (r: Run)
    ensures IsRun(settings, r) && r.states[0] == Start(interval) && |r.steps| > 0
    ensures var i := |r.steps| - 1; Deletes(r, i, 0) && r.states[i].t.stores[0].sent == map[]
  {
    var stamp := Overdue(settings);
    var at := stamp + settings.retentionDays * DAY_MS;
    r := PauseOnOldStamp(settings, interval);
    OnePausedRow(PausedStore(stamp), at, settings.retentionDays);
    Queries(settings, Last(r), at, PausedStore(stamp));
    hide IsRun, Candidates, Next, Enabled, Deletes;
    r := Extend(settings, r, QueryExpired(1), at);
    DeletesLone(settings, Last(r), at, stamp);
    ghost var before := r;
    r := Extend(settings, r, DeleteOne(1, 0), at);
    Lengths(settings, before);
    assert r.states[|r.steps| - 1] == Last(before);
    assert Deletes(r, |r.steps| - 1, 0) by { LoneIsGone(r); }
  }

  lemma DeletesLone(settings: Settings, y: System, at: int, stamp: int)
    requires y.clock <= at && y.t.stores == map[0 := PausedStore(stamp)] && 1 in y.sweeps && y.sweeps[1] == Deleting(at, map[0 := stamp])
    ensures Enabled(y, DeleteOne(1, 0), at) && 0 !in Next(settings, y, DeleteOne(1, 0), at).t.stores
  {
    hide NextSweeps, NextCalls;
  }

  lemma LoneIsGone(r: Run)
    requires |r.states| == |r.steps| + 1 && |r.steps| > 0 && 0 in r.states[|r.steps| - 1].t.stores && 0 !in Last(r).t.stores
    ensures Deletes(r, |r.steps| - 1, 0)
  {}

  lemma Lengths(settings: Settings, r: Run)
    requires IsRun(settings, r)
    ensures |r.states| == |r.steps| + 1
  {}

  // ---- A payment between the two statements of the pause -----------------------------------------------

  lemma NothingToRestore(t: Tables)
    requires t.stores == map[0 := StoppedStore()]
    ensures RestoreAfterPlanFeePayment(t, 0) == (t, true)
  {
    assert Restore(t.stores, 0) == t.stores;
  }

  /**
   * The pause stops the stores in one statement and stamps them in the next. A fee that is verified
   * and carried through in between, below the threshold, finds no stamp to clear: the store stays
   * stopped, and the stamp that follows puts it on the retention clock although its fee is paid.
   */
  lemma PaidThenStamped(settings: Settings, interval: Interval) returns (r: Run)
    requires settings.warningThreshold > 0
    ensures IsRun(settings, r) && r.states[0] == Start(interval) && Last(r).calls == map[]
    ensures Payments(Last(r).t, 0) == [Overdue(settings)] && Last(r).t.stores == map[0 := PausedStore(Overdue(settings))]
  {
    var at := Overdue(settings);
    r := Stop(settings, interval);
    r := VerifyFee(settings, r, at);
    ChecksLow(settings, Last(r), at);
    NothingToRestore(Last(r).t);
    hide IsRun, Next, Enabled, RestoreAfterPlanFeePayment, Stamp;
    r := Extend(settings, r, CheckBalance(0), at);
    Restores(settings, Last(r), at);
    r := Extend(settings, r, RestoreFee(0), at);
    StampTaken(settings, Last(r), 0, at);
    StampsLoneStore(at);
    r := Extend(settings, r, StampRow(0, 0), at);
  }

  // ---- A second store --------------------------------------------------------------------------------

  /** A store paused over the limit and one opened in its place, both stamped by the debit sweep. */
  function BothPaused(at: int): Stores {
    map[0 := Store(0, OrdersPaused, Some(at), Some(0), map[]), 1 := Store(0, OrdersPaused, Some(at), None, map[])]
  }

  /** The same as the debit sweep finds them: the one over the limit is paused already. */
  function OneOverLimit(): Stores { map[0 := Store(0, OrdersPaused, None, Some(0), map[]), 1 := Store(0, Active, None, None, map[])] }

  function BothStopped(): Stores { map[0 := Store(0, OrdersPaused, None, Some(0), map[]), 1 := Store(0, OrdersPaused, None, None, map[])] }

  lemma StopsBoth(settings: Settings, t: Tables, interval: Interval, at: int)
    requires t == Start(interval).t.(stores := OneOverLimit()) && at >= Overdue(settings)
    ensures IsDue(t.subscriptions[0], at) && DebitTurn(settings, t, 0, t.subscriptions[0], at) == (t.(stores := BothStopped()), true)
    ensures Stamp(BothStopped(), 0, at) == BothPaused(at)
  {
    assert 1 in t.stores && HasActive(t.stores, 0);
    assert PauseActive(t.stores, 0) == BothStopped();
  }

  lemma OpenSecond(settings: Settings, interval: Interval) returns (r: Run)
    ensures IsRun(settings, r) && r.states[0] == Start(interval)
    ensures Last(r) == Start(interval).(t := Start(interval).t.(stores := OneOverLimit()))
  {
    r := Run([Start(interval)], [], []);
    assert IsRun(settings, r);
    hide IsRun;
    r := Extend(settings, r, PauseOverLimit(0), 0);
    r := Extend(settings, r, OpenStore(1, 0), 0);
  }

  lemma PauseBoth(settings: Settings, interval: Interval) returns (r: Run)
    ensures IsRun(settings, r) && r.states[0] == Start(interval)
    ensures var y, at := Last(r), Overdue(settings);
            y.clock == at && y.t == Start(interval).t.(stores := BothPaused(at)) && y.calls == map[]
  {
    var at := Overdue(settings);
    r := OpenSecond(settings, interval);
    StopsBoth(settings, Last(r).t, interval, at);
    StartsDebit(settings, Last(r), 0, at);
    hide IsRun, Next, Enabled, DebitTurn, Stamp;
    r := Extend(settings, r, StartDebitSweep(0), at);
    DebitTurnTaken(settings, Last(r), 0, at);
    r := Extend(settings, r, DebitRow(0, 0), at);
    StampTaken(settings, Last(r), 0, at);
    r := Extend(settings, r, StampRow(0, 0), at);
  }

  lemma BothRefused(t: Tables, at: int)
    requires t.stores == BothPaused(at)
    ensures RestoreAfterPlanFeePayment(t, 0) == (t, false)
  {
    var after := Restore(t.stores, 0);
    assert after[0].status == after[1].status == Active;
  }

  /**
   * A seller with a store over the limit beside the one that sold: both go on the clock together,
   * and the fee, verified and carried through below the threshold, takes neither off it.
   */
  lemma PaidForNothing(settings: Settings, interval: Interval) returns (r: Run)
    requires settings.warningThreshold > 0
    ensures IsRun(settings, r) && r.states[0] == Start(interval) && Last(r).calls == map[]
    ensures Payments(Last(r).t, 0) == [Overdue(settings)] && Last(r).t.stores == BothPaused(Overdue(settings))
  {
    var at := Overdue(settings);
    r := PauseBoth(settings, interval);
    r := VerifyFee(settings, r, at);
    ChecksLow(settings, Last(r), at);
    BothRefused(Last(r).t, at);
    hide IsRun, Next, Enabled, RestoreAfterPlanFeePayment;
    r := Extend(settings, r, CheckBalance(0), at);
    Restores(settings, Last(r), at);
    r := Extend(settings, r, RestoreFee(0), at);
  }

  // ---- Sweeps and calls that overlap -------------------------------------------------------------------

  /** Two requests without a reference, each asked for before the other is inserted, are both pending. */
  lemma TwoPending(settings: Settings, amountDue: nat) returns (r: Run)
    requires !settings.newSubscriptionsPaused
    ensures IsRun(settings, r) && AtMostOnePending(r.states[0].t, 0) && !AtMostOnePending(Last(r).t, 0)
  {
    var t := Start(Monthly).t.(requests := map[]);
    r := Run([Start(Monthly).(t := t)], [], []);
    assert IsRun(settings, r);
    hide IsRun;
    assert !HasPending(t, 0);
    r := Extend(settings, r, AskFee(0, 0, amountDue), 0);
    r := Extend(settings, r, AskFee(1, 0, amountDue), 0);
    r := Extend(settings, r, InsertFee(0, 0), 0);
    r := Extend(settings, r, InsertFee(1, 1), 0);
    assert Last(r).t.requests == map[0 := Request(0, 0, Some(amountDue), Pending), 1 := Request(0, 0, Some(amountDue), Pending)];
    assert Last(r).t.requests[0].status == Last(r).t.requests[1].status;
  }

  /** The tables of `Start` after its one fee has been verified at 0, and after it has been verified again. */
  lemma FirstFeeTwice(interval: Interval)
    ensures var t := Start(interval).t; var once := CommitVerification(t, 0, 0);
            && PaidUp(t, 0, interval) && once.Ok? && 0 in once.value.requests
            && var twice := CommitVerification(once.value, 0, 0);
               twice.Ok? && Payments(twice.value, 0) == [0, 0] && 0 in twice.value.subscriptions
               && twice.value.subscriptions[0].periodEnd == Some(Cycles(0, interval, 1))
  {
    hide AddInterval;
    var t := Start(interval).t;
    CommitEffect(t, 0, 0);
    var once := CommitVerification(t, 0, 0).value;
    CommitEffect(once, 0, 0);
    assert Cycles(0, interval, 1) == AddInterval(Cycles(0, interval, 0), interval);
  }

  lemma NotPaidUp(t: Tables, interval: Interval)
    requires Payments(t, 0) == [0, 0] && 0 in t.subscriptions && t.subscriptions[0].periodEnd == Some(Cycles(0, interval, 1))
    ensures !PaidUp(t, 0, interval)
  {
    CyclesIncrease(0, interval, 1, 2);
    hide Cycles;
  }

  lemma LooksUp(settings: Settings, y: System, call: CallId, request: RequestId, at: int)
    requires y.clock <= at && call !in y.calls && request in y.t.requests && y.t.requests[request].status.Pending?
    ensures Enabled(y, LookUp(call, request), at)
    ensures Next(settings, y, LookUp(call, request), at) == y.(clock := at, calls := y.calls[call := Deciding(request)])
  {}

  lemma Verifies(settings: Settings, y: System, call: CallId, at: int)
    requires y.clock <= at && IsDeciding(y, call) && CommitVerification(y.t, y.calls[call].request, at).Ok?
    ensures Enabled(y, Verify(call), at)
    ensures var r := y.t.requests[y.calls[call].request];
            Next(settings, y, Verify(call), at) ==
            y.(clock := at, t := CommitVerification(y.t, y.calls[call].request, at).value, calls := y.calls[call := CreditVerified(r.seller, r.planFee.Some?)])
  {
    hide CommitVerification;
  }

  lemma BothLookUp(settings: Settings, interval: Interval) returns (r: Run)
    ensures IsRun(settings, r) && r.states[0] == Start(interval)
    ensures Last(r) == Start(interval).(calls := map[0 := Deciding(0), 1 := Deciding(0)])
  {
    r := Run([Start(interval)], [], []);
    assert IsRun(settings, r);
    hide IsRun, Next, Enabled;
    LooksUp(settings, Last(r), 0, 0, 0);
    r := Extend(settings, r, LookUp(0, 0), 0);
    LooksUp(settings, Last(r), 1, 0, 0);
    r := Extend(settings, r, LookUp(1, 0), 0);
  }

  lemma BothVerify(settings: Settings, r: Run, t: Tables) returns (r': Run)
    requires IsRun(settings, r) && Last(r).clock <= 0 && Last(r).calls == map[0 := Deciding(0), 1 := Deciding(0)] && 0 in Last(r).t.requests
    requires var once := CommitVerification(Last(r).t, 0, 0);
             once.Ok? && 0 in once.value.requests && CommitVerification(once.value, 0, 0) == Ok(t)
    ensures IsRun(settings, r') && r'.states[0] == r.states[0] && Last(r').t == t
  {
    hide CommitVerification, Next, Enabled;
    Verifies(settings, Last(r), 0, 0);
    hide IsRun;
    r' := Extend(settings, r, Verify(0), 0);
    Verifies(settings, Last(r'), 1, 0);
    r' := Extend(settings, r', Verify(1), 0);
  }

  /** Two admins who both find the request pending: one fee is recorded as two payments, of a single period. */
  lemma VerifiedTwice(settings: Settings, interval: Interval) returns (r: Run)
    ensures IsRun(settings, r) && r.states[0] == Start(interval) && PaidUp(r.states[0].t, 0, interval) && !PaidUp(Last(r).t, 0, interval)
    ensures Payments(Last(r).t, 0) == [0, 0] && 0 in Last(r).t.subscriptions
    ensures Last(r).t.subscriptions[0].periodEnd == Some(Cycles(0, interval, 1))
  {
    hide CommitVerification, Cycles, PaidUp, Payments, Taken;
    FirstFeeTwice(interval);
    r := BothLookUp(settings, interval);
    r := BothVerify(settings, r, CommitVerification(CommitVerification(Start(interval).t, 0, 0).value, 0, 0).value);
    NotPaidUp(Last(r).t, interval);
  }
}
