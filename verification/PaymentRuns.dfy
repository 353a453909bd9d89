/** Whole runs again, from the seller's side: requests, paid periods, reminders and the store index. */
module PaymentRuns {
  import opened Common
  import opened Calendar
  import opened BillingTables
  import opened GraceLadder
  import opened LowBalanceSweep
  import opened PlanFees
  import opened Retention
  import opened Lifecycle
  import opened LifecycleRuns

  // ---- The paid-period law over a run ------------------------------------------------------------

  /** The parts of the tables the paid-period law reads are unchanged. */
  predicate SameBilling(t: Tables, t': Tables, seller: SellerId) {
    && t'.requests == t.requests && t'.payments == t.payments
    && (seller in t'.subscriptions <==> seller in t.subscriptions)
    && (seller in t.subscriptions ==>
          && t'.subscriptions[seller].interval == t.subscriptions[seller].interval
          && t'.subscriptions[seller].periodEnd == t.subscriptions[seller].periodEnd)
  }

  lemma SameBillingKeepsPaidUp(t: Tables, t': Tables, seller: SellerId, interval: Interval)
    requires SameBilling(t, t', seller) && PaidUp(t, seller, interval)
    ensures PaidUp(t', seller, interval)
  {
    hide Cycles;
  }

  /** The step commits a decision on request `id`: a verification that goes through, or a rejection. */
  predicate DecidesOn(y: System, step: Step, at: int, id: RequestId) {
    && (step.Verify? || step.GatewayVerify? || step.Reject?) && IsDeciding(y, step.call) && y.calls[step.call].request == id
    && (step.Reject? || CommitVerification(y.t, id, at).Ok?)
  }

  predicate TouchesBilling(step: Step) {
    step.Verify? || step.GatewayVerify? || step.Reject? || step.InsertFee? || step.RequestCredit?
  }

  lemma RestoringBilling(settings: Settings, t: Tables, seller: SellerId)
    ensures var t' := CheckAndRestore(settings, t, seller).0; t' == t.(stores := t'.stores, sellers := t'.sellers)
    ensures var t' := RestoreAfterPlanFeePayment(t, seller).0; t' == t.(stores := t'.stores)
  {
    hide OneActivePerSeller, Reactivate, Restore, Balance;
  }

  lemma LadderRowBilling(settings: Settings, t: Tables, seller: SellerId, row: Ladder, now: int)
    ensures var t' := LadderVisit(settings, t, seller, row, now).0; t' == t.(stores := t'.stores, sellers := t'.sellers)
  {
    hide PauseActive, CheckAndRestore, LadderVisit;
    LadderTurns(settings, t, seller, row, now);
    RestoringBilling(settings, t, seller);
  }

  /** The turn of an exempt seller, whose period moves on by itself. */
  predicate RenewsFree(t: Tables, seller: SellerId, row: Subscription) {
    row.individualPaid && row.interval != NoInterval && Exempt(t, seller)
  }

  predicate RenewsFreely(y: System, step: Step, seller: SellerId) {
    && step.DebitRow? && step.seller == seller && step.sweep in y.sweeps && y.sweeps[step.sweep].DebitRows?
    && seller in y.sweeps[step.sweep].rows && RenewsFree(y.t, seller, y.sweeps[step.sweep].rows[seller])
  }

  /** A debit turn moves on an exempt seller's period, stops the seller's stores or does nothing. */
  lemma DebitTurns(settings: Settings, t: Tables, seller: SellerId, row: Subscription, now: int)
    requires IsDue(row, now)
    ensures var t' := DebitTurn(settings, t, seller, row, now).0;
            || t' == t || t' == t.(stores := PauseActive(t.stores, seller))
            || (seller in t.subscriptions && RenewsFree(t, seller, row) && t' == t.(subscriptions := t.subscriptions[seller :=
                  t.subscriptions[seller].(periodEnd := Some(AddInterval(row.periodEnd.value, row.interval)), sent := map[])]))
  {
    hide PauseForNonPayment, PauseActive, HasActive, Exempt, PastGrace, AddInterval;
  }

  lemma DebitRowBilling(settings: Settings, t: Tables, seller: SellerId, row: Subscription, now: int)
    requires IsDue(row, now)
    ensures var t' := DebitTurn(settings, t, seller, row, now).0;
            && t' == t.(stores := t'.stores, subscriptions := t'.subscriptions)
            && t'.subscriptions.Keys == t.subscriptions.Keys
            && (forall other | other in t.subscriptions :: other != seller || !RenewsFree(t, seller, row) ==> t'.subscriptions[other] == t.subscriptions[other])
  {
    hide PauseActive, Exempt, AddInterval, DebitTurn;
    DebitTurns(settings, t, seller, row, now);
  }

  /** A sweep's turn, or one of the two restores after a verification. */
  lemma TurnBilling(settings: Settings, y: System, step: Step, at: int)
    requires Enabled(y, step, at) && (step.LadderRow? || step.DebitRow? || Restoring(step))
    ensures var t, t' := y.t, Next(settings, y, step, at).t;
            && t'.requests == t.requests && t'.payments == t.payments && t'.subscriptions.Keys == t.subscriptions.Keys
            && forall seller | seller in t.subscriptions ::
                 !RenewsFreely(y, step, seller) ==> t'.subscriptions[seller] == t.subscriptions[seller]
  {
    hide NextSweeps, NextCalls, LadderVisit, DebitTurn, CheckAndRestore, RestoreAfterPlanFeePayment, Exempt;
    if step.LadderRow? {
      var w := y.sweeps[step.sweep];
      LadderRowBilling(settings, y.t, step.seller, w.unvisited[step.seller], w.now);
    } else if step.DebitRow? {
      var w := y.sweeps[step.sweep];
      DebitRowBilling(settings, y.t, step.seller, w.rows[step.seller], w.now);
    } else {
      RestoringBilling(settings, y.t, y.calls[step.call].seller);
    }
  }

  lemma OtherStepBilling(settings: Settings, y: System, step: Step, at: int, seller: SellerId)
    requires Enabled(y, step, at) && !TouchesBilling(step) && !RenewsFreely(y, step, seller)
    ensures SameBilling(y.t, Next(settings, y, step, at).t, seller)
  {
    hide NextSweeps, NextCalls, LadderVisit, DebitTurn, CheckAndRestore, RestoreAfterPlanFeePayment, ReminderDue, Exempt;
    if OnStores(step) { StoreUpdateOnly(settings, y, step, at); }
    else if step.LadderRow? || step.DebitRow? || Restoring(step) { TurnBilling(settings, y, step, at); }
  }

  /** The step inserts a plan-fee request of the seller that asks for nothing. */
  predicate AsksForNothing(y: System, step: Step, seller: SellerId) {
    step.InsertFee? && step.call in y.calls && y.calls[step.call] == Asking(seller, 0)
  }

  lemma DecisionKeepsPaidUp(settings: Settings, y: System, step: Step, at: int, seller: SellerId, interval: Interval, id: RequestId)
    requires Enabled(y, step, at) && PaidUp(y.t, seller, interval) && DecidesOn(y, step, at, id) && y.t.requests[id].status.Pending?
    ensures PaidUp(Next(settings, y, step, at).t, seller, interval)
  {
    hide PaidUp, CommitVerification, NextSweeps, NextCalls;
    if step.Reject? {
      RejectKeepsPaidUp(y.t, id, at, seller, interval);
    } else {
      assert VerifyTopUp(y.t, id, at) == CommitVerification(y.t, id, at);
      VerifyKeepsPaidUp(y.t, id, at, seller, interval);
    }
  }

  /** A decision on anything but a plan fee of the seller leaves the seller's paid period alone, however often it is taken. */
  lemma OtherDecisionKeepsPaidUp(settings: Settings, y: System, step: Step, at: int, seller: SellerId, interval: Interval, id: RequestId)
    requires Enabled(y, step, at) && PaidUp(y.t, seller, interval) && DecidesOn(y, step, at, id) && !IsPlanFeeOf(y.t.requests[id], seller)
    ensures PaidUp(Next(settings, y, step, at).t, seller, interval)
  {
    if step.Reject? {
      hide NextSweeps, NextCalls, Cycles, PaidBefore;
      OtherRequestDecided(y.t, Next(settings, y, step, at).t, seller, id);
    } else {
      OtherCommit(settings, y, step, at, id);
      hide Next, Enabled, CommitVerification, PaidUp;
      OtherCommitKeepsPaidUp(y.t, id, at, seller, interval);
    }
  }

  lemma OtherCommit(settings: Settings, y: System, step: Step, at: int, id: RequestId)
    requires Enabled(y, step, at) && DecidesOn(y, step, at, id) && !step.Reject?
    ensures id in y.t.requests && CommitVerification(y.t, id, at) == Ok(Next(settings, y, step, at).t)
  {
    hide CommitVerification, NextSweeps, NextCalls;
  }

  lemma OtherCommitKeepsPaidUp(t: Tables, id: RequestId, at: int, seller: SellerId, interval: Interval)
    requires PaidUp(t, seller, interval) && id in t.requests && !IsPlanFeeOf(t.requests[id], seller) && CommitVerification(t, id, at).Ok?
    ensures PaidUp(CommitVerification(t, id, at).value, seller, interval)
  {
    hide CommitVerification, Cycles, PaidBefore, Advanced;
    CommitEffect(t, id, at);
    OtherRequestDecided(t, CommitVerification(t, id, at).value, seller, id);
  }

  lemma OtherRequestDecided(t: Tables, t': Tables, seller: SellerId, id: RequestId)
    requires id in t.requests && id in t'.requests && t'.requests == t.requests[id := t'.requests[id]]
    requires t'.requests[id] == t.requests[id].(status := t'.requests[id].status) && !IsPlanFeeOf(t.requests[id], seller)
    ensures PaidBefore(t', seller, None) == PaidBefore(t, seller, None)
  {
    forall other | other in t.requests && other != id ensures t'.requests[other] == t.requests[other] {}
    assert !IsPlanFeeOf(t'.requests[id], seller);
  }

  lemma PaidUpStep(settings: Settings, y: System, step: Step, at: int, seller: SellerId, interval: Interval)
    requires Enabled(y, step, at) && PaidUp(y.t, seller, interval) && !RenewsFreely(y, step, seller) && !AsksForNothing(y, step, seller)
    requires forall id | DecidesOn(y, step, at, id) && IsPlanFeeOf(y.t.requests[id], seller) :: y.t.requests[id].status.Pending?
    ensures PaidUp(Next(settings, y, step, at).t, seller, interval)
  {
    hide PaidUp, CommitVerification, NextSweeps, NextCalls, Exempt, InsertRequest;
    if step.Verify? || step.GatewayVerify? || step.Reject? {
      var id := y.calls[step.call].request;
      if DecidesOn(y, step, at, id) {
        if IsPlanFeeOf(y.t.requests[id], seller) { DecisionKeepsPaidUp(settings, y, step, at, seller, interval, id); }
        else { OtherDecisionKeepsPaidUp(settings, y, step, at, seller, interval, id); }
      }
    } else if step.InsertFee? {
      InsertKeepsPaidUp(y.t, step.request, y.calls[step.call].seller, y.calls[step.call].amountDue, seller, interval);
    } else if step.RequestCredit? {
      CreditKeepsPaidUp(y.t, step.request, step.seller, step.amount, seller, interval);
    } else {
      hide Next, Enabled;
      OtherStepBilling(settings, y, step, at, seller);
      SameBillingKeepsPaidUp(y.t, Next(settings, y, step, at).t, seller, interval);
    }
  }

  lemma CreditKeepsPaidUp(t: Tables, id: RequestId, payer: SellerId, amount: nat, seller: SellerId, interval: Interval)
    requires PaidUp(t, seller, interval) && id !in t.requests
    ensures PaidUp(RequestTopUp(t, id, payer, amount), seller, interval)
  {
    hide Cycles;
    SameVerified(t, RequestTopUp(t, id, payer, amount), seller);
  }

  // ---- Two decisions on one request ----------------------------------------------------------------

  /** Where the call that decides at step `k` looked its request up. */
  function LookAt(steps: seq<Step>, call: CallId, k: nat): (i: nat)
    requires k <= |steps|
    ensures i <= k
  {
    if k == 0 then 0 else if steps[k - 1].LookUp? && steps[k - 1].call == call then k - 1 else LookAt(steps, call, k - 1)
  }

  ghost predicate Decided(r: Run, m: nat, id: RequestId)
    requires |r.states| == |r.steps| + 1 == |r.times| + 1
  {
    m < |r.steps| && DecidesOn(r.states[m], r.steps[m], r.times[m], id)
  }

  /** Two decisions on the request, the first of which committed after the second had looked. */
  ghost predicate Overlap(r: Run, m': nat, m: nat, id: RequestId)
    requires |r.states| == |r.steps| + 1 == |r.times| + 1
  {
    m' < m && Decided(r, m', id) && Decided(r, m, id) && LookAt(r.steps, r.steps[m].call, m) <= m'
  }

  /** A request changes only by a decision on it, and is never pending after one. */
  lemma RequestStep(settings: Settings, y: System, step: Step, at: int, id: RequestId)
    requires Enabled(y, step, at) && id in y.t.requests
    ensures var y' := Next(settings, y, step, at);
            && id in y'.t.requests
            && (if DecidesOn(y, step, at, id) then !y'.t.requests[id].status.Pending? else y'.t.requests[id] == y.t.requests[id])
  {
    hide NextSweeps, NextCalls, CommitVerification;
    if !TouchesBilling(step) {
      RequestsUntouched(settings, y, step, at);
    } else if step.Verify? || step.GatewayVerify? {
      var request := y.calls[step.call].request;
      if CommitVerification(y.t, request, at).Ok? { CommitEffect(y.t, request, at); }
    }
  }

  lemma RequestsUntouched(settings: Settings, y: System, step: Step, at: int)
    requires Enabled(y, step, at) && !TouchesBilling(step)
    ensures Next(settings, y, step, at).t.requests == y.t.requests
  {
    hide NextSweeps, NextCalls, LadderVisit, DebitTurn, Remind, CheckAndRestore, RestoreAfterPlanFeePayment;
    if OnStores(step) { StoreUpdateOnly(settings, y, step, at); }
    else if step.LadderRow? || step.DebitRow? || Restoring(step) { TurnBilling(settings, y, step, at); }
  }

  lemma LookOrSame(settings: Settings, r: Run, m: nat, call: CallId, id: RequestId)
    requires IsRun(settings, r) && m < |r.steps| && call in r.states[m + 1].calls && r.states[m + 1].calls[call] == Deciding(id)
    ensures if r.steps[m].LookUp? && r.steps[m].call == call
            then id in r.states[m + 1].t.requests && r.states[m + 1].t.requests[id].status.Pending? && !Decided(r, m, id)
            else call in r.states[m].calls && r.states[m].calls[call] == Deciding(id)
  {
    hide NextSweeps, CommitVerification, CheckAndRestore;
    assert Taken(settings, r, m);
  }

  /** While a decision is under way its request is resolved exactly when another decision came after the look. */
  lemma {:induction false} ResolvedSinceLook(settings: Settings, r: Run, k: nat, call: CallId, id: RequestId)
    requires IsRun(settings, r) && k < |r.states| && call in r.states[k].calls && r.states[k].calls[call] == Deciding(id)
    ensures id in r.states[k].t.requests
    ensures !r.states[k].t.requests[id].status.Pending? <==> exists m: nat :: LookAt(r.steps, call, k) <= m < k && Decided(r, m, id)
    decreases k
  {
    hide Next, Enabled, Decided;
    assert k > 0;
    assert Taken(settings, r, k - 1);
    LookOrSame(settings, r, k - 1, call, id);
    var last := k - 1;
    if !(r.steps[last].LookUp? && r.steps[last].call == call) {
      ResolvedSinceLook(settings, r, last, call, id);
      RequestStep(settings, r.states[last], r.steps[last], r.times[last], id);
      assert Decided(r, last, id) <==> DecidesOn(r.states[last], r.steps[last], r.times[last], id) by { DecidedIs(r, last, id); }
      if Decided(r, last, id) { assert LookAt(r.steps, call, k) <= last < k && Decided(r, last, id); }
    }
  }

  lemma DecidedIs(r: Run, m: nat, id: RequestId)
    requires |r.states| == |r.steps| + 1 == |r.times| + 1 && m < |r.steps|
    ensures Decided(r, m, id) <==> DecidesOn(r.states[m], r.steps[m], r.times[m], id)
  {}

  /** A decision finds its request already decided if and only if it overlaps an earlier one. */
  lemma SecondDecisionExactly(settings: Settings, r: Run, m: nat, id: RequestId)
    requires IsRun(settings, r) && Decided(r, m, id)
    ensures id in r.states[m].t.requests
    ensures !r.states[m].t.requests[id].status.Pending? <==> exists m': nat :: Overlap(r, m', m, id)
  {
    var call := r.steps[m].call;
    assert r.states[m].calls[call] == Deciding(id);
    hide Decided, Next, Enabled;
    ResolvedSinceLook(settings, r, m, call, id);
    if m': nat :| LookAt(r.steps, call, m) <= m' < m && Decided(r, m', id) { assert Overlap(r, m', m, id); }
  }

  /** Once resolved, a request stays as it is for the rest of any run in which no two decisions on it overlap. */
  lemma {:induction false} ResolvedForever(settings: Settings, r: Run, j: nat, k: nat, id: RequestId)
    requires IsRun(settings, r) && j <= k < |r.states|
    requires id in r.states[j].t.requests && !r.states[j].t.requests[id].status.Pending?
    requires forall m': nat, m: nat | m < k :: !Overlap(r, m', m, id)
    ensures id in r.states[k].t.requests && r.states[k].t.requests[id] == r.states[j].t.requests[id]
    decreases k
  {
    hide Next, Enabled, Overlap, DecidesOn;
    if j < k {
      ResolvedForever(settings, r, j, k - 1, id);
      assert Taken(settings, r, k - 1);
      RequestStep(settings, r.states[k - 1], r.steps[k - 1], r.times[k - 1], id);
      DecidedIs(r, k - 1, id);
      if Decided(r, k - 1, id) { SecondDecisionExactly(settings, r, k - 1, id); }
    }
  }

  /** So a request is decided at most once in a run if and only if no two decisions on it overlap. */
  lemma DecidedOnceExactly(settings: Settings, r: Run, k: nat, id: RequestId)
    requires IsRun(settings, r) && k < |r.states|
    ensures (forall m': nat, m: nat | m' < m < k :: !(Decided(r, m', id) && Decided(r, m, id))) <==> (forall m': nat, m: nat | m < k :: !Overlap(r, m', m, id))
  {
    hide Next, Enabled;
    if m': nat, m: nat :| m' < m < k && Decided(r, m', id) && Decided(r, m, id) && forall n': nat, n: nat | n < k :: !Overlap(r, n', n, id) {
      assert Taken(settings, r, m');
      DecidedIs(r, m', id);
      RequestStep(settings, r.states[m'], r.steps[m'], r.times[m'], id);
      ResolvedForever(settings, r, m' + 1, m, id);
      SecondDecisionExactly(settings, r, m, id);
    }
  }

  /** The paid-period law in terms of cycles, by induction on the run. */
  lemma {:induction false} PaidUpThroughout(settings: Settings, r: Run, k: nat, seller: SellerId, interval: Interval)
    requires IsRun(settings, r) && k < |r.states| && PaidUp(r.states[0].t, seller, interval)
    requires forall m | 0 <= m < k :: !RenewsFreely(r.states[m], r.steps[m], seller) && !AsksForNothing(r.states[m], r.steps[m], seller)
    requires forall m': nat, m: nat, id | m < k && id in r.states[m].t.requests && IsPlanFeeOf(r.states[m].t.requests[id], seller) :: !Overlap(r, m', m, id)
    ensures PaidUp(r.states[k].t, seller, interval)
    decreases k
  {
    hide PaidUp, Exempt, Next, Enabled, Overlap, AsksForNothing, DecidesOn;
    if k > 0 {
      PaidUpThroughout(settings, r, k - 1, seller, interval);
      assert Taken(settings, r, k - 1);
      var y, step, at := r.states[k - 1], r.steps[k - 1], r.times[k - 1];
      forall id | DecidesOn(y, step, at, id) ensures id in y.t.requests && (IsPlanFeeOf(y.t.requests[id], seller) ==> y.t.requests[id].status.Pending?) {
        DecidedIs(r, k - 1, id);
        SecondDecisionExactly(settings, r, k - 1, id);
      }
      PaidUpStep(settings, y, step, at, seller, interval);
    }
  }

  /**
   * The paid-period law: through any run of positive plan-fee requests of a seller who is never
   * renewed for free, and of decisions that do not overlap on one of those requests, once n payments
   * have been verified the period ends n cycles after the first verification. That is 12 n, 3 n or n
   * months on, at the same time of day and on the same day of the month if every month has it; with
   * a half-yearly plan it is 6 n months on, or up to n more for the 15 days of each cycle.
   */
  lemma PaidPeriodLaw(settings: Settings, r: Run, k: nat, seller: SellerId, interval: Interval)
    requires IsRun(settings, r) && k < |r.states| && PaidUp(r.states[0].t, seller, interval)
    requires forall m | 0 <= m < k :: !RenewsFreely(r.states[m], r.steps[m], seller) && !AsksForNothing(r.states[m], r.steps[m], seller)
    requires forall m': nat, m: nat, id | m < k && id in r.states[m].t.requests && IsPlanFeeOf(r.states[m].t.requests[id], seller) :: !Overlap(r, m', m, id)
    ensures PaidUp(r.states[k].t, seller, interval)
    ensures Payments(r.states[k].t, seller) != [] ==>
              && seller in r.states[k].t.subscriptions && r.states[k].t.subscriptions[seller].periodEnd.Some?
              && var n, first, end := |Payments(r.states[k].t, seller)|, Payments(r.states[k].t, seller)[0], r.states[k].t.subscriptions[seller].periodEnd.value;
                 && TimeOfDay(end) == TimeOfDay(first)
                 && (interval == Yearly ==> MonthOf(Day(end)) == MonthOf(Day(first)) + 12 * n)
                 && (interval == Quarterly ==> MonthOf(Day(end)) == MonthOf(Day(first)) + 3 * n)
                 && (interval == Monthly || interval == NoInterval ==> MonthOf(Day(end)) == MonthOf(Day(first)) + n)
                 && (interval == SixMonth ==> MonthOf(Day(first)) + 6 * n <= MonthOf(Day(end)) <= MonthOf(Day(first)) + 7 * n)
                 && (interval != SixMonth ==> DayOfMonth(end) <= DayOfMonth(first))
                 && (interval != SixMonth && DayOfMonth(first) < 28 ==> DayOfMonth(end) == DayOfMonth(first))
  {
    PaidUpThroughout(settings, r, k, seller, interval);
    hide IsRun, Overlap, AsksForNothing, RenewsFreely, MonthOf, DayOfMonth, TimeOfDay, Cycles;
    var payments := Payments(r.states[k].t, seller);
    if payments != [] { CyclesLand(payments[0], interval, |payments|); }
  }

  // ---- Two requests at once ------------------------------------------------------------------------

  function AskAt(steps: seq<Step>, call: CallId, k: nat): (i: nat)
    requires k <= |steps|
    ensures i <= k
  {
    if k == 0 then 0 else if steps[k - 1].AskFee? && steps[k - 1].call == call then k - 1 else AskAt(steps, call, k - 1)
  }

  /** Step m inserts a plan-fee request of the seller. */
  ghost predicate Inserts(r: Run, m: nat, seller: SellerId)
    requires |r.states| == |r.steps| + 1
  {
    && m < |r.steps| && r.steps[m].InsertFee?
    && r.steps[m].call in r.states[m].calls && r.states[m].calls[r.steps[m].call].Asking? && r.states[m].calls[r.steps[m].call].seller == seller
  }

  ghost predicate Inserted(r: Run, m: nat, seller: SellerId, id: RequestId)
    requires |r.states| == |r.steps| + 1
  {
    Inserts(r, m, seller) && r.steps[m].request == id
  }

  /** Step m inserts a request although another, inserted since its call asked, is still pending. */
  ghost predicate Overtaken(r: Run, m': nat, m: nat, seller: SellerId, id: RequestId)
    requires |r.states| == |r.steps| + 1
  {
    && m' < m && Inserted(r, m', seller, id) && Inserts(r, m, seller)
    && AskAt(r.steps, r.steps[m].call, m) <= m' && id in r.states[m].t.requests && r.states[m].t.requests[id].status.Pending?
  }

  predicate IsPending(t: Tables, seller: SellerId, id: RequestId) {
    id in t.requests && IsPlanFeeOf(t.requests[id], seller) && t.requests[id].status.Pending?
  }

  lemma PendingStep(settings: Settings, r: Run, m: nat, seller: SellerId, id: RequestId)
    requires IsRun(settings, r) && m < |r.steps| && IsPending(r.states[m + 1].t, seller, id)
    ensures IsPending(r.states[m].t, seller, id) || Inserted(r, m, seller, id)
  {
    assert Taken(settings, r, m);
    var y, step, at := r.states[m], r.steps[m], r.times[m];
    if id in y.t.requests {
      hide Next, Enabled;
      RequestStep(settings, y, step, at, id);
    } else {
      hide NextSweeps, NextCalls, CommitVerification;
      if !TouchesBilling(step) { RequestsUntouched(settings, y, step, at); }
      else if step.Verify? || step.GatewayVerify? {
        if CommitVerification(y.t, y.calls[step.call].request, at).Ok? { CommitEffect(y.t, y.calls[step.call].request, at); }
      }
    }
  }

  lemma AskOrSame(settings: Settings, r: Run, m: nat, call: CallId, seller: SellerId)
    requires IsRun(settings, r) && m < |r.steps| && call in r.states[m + 1].calls
    requires r.states[m + 1].calls[call].Asking? && r.states[m + 1].calls[call].seller == seller
    ensures if r.steps[m].AskFee? && r.steps[m].call == call
            then !HasPending(r.states[m + 1].t, seller)
            else call in r.states[m].calls && r.states[m].calls[call].Asking? && r.states[m].calls[call].seller == seller
  {
    hide NextSweeps, CommitVerification, CheckAndRestore, HasPending;
    assert Taken(settings, r, m);
  }

  /** What is pending when a call inserts was inserted after the call asked. */
  lemma {:induction false} PendingSinceAsk(settings: Settings, r: Run, k: nat, call: CallId, seller: SellerId, id: RequestId) returns (m: nat)
    requires IsRun(settings, r) && k < |r.states| && call in r.states[k].calls && r.states[k].calls[call].Asking?
    requires r.states[k].calls[call].seller == seller && IsPending(r.states[k].t, seller, id)
    ensures AskAt(r.steps, call, k) <= m < k && Inserted(r, m, seller, id)
    decreases k
  {
    hide Inserted;
    assert k > 0;
    AskOrSame(settings, r, k - 1, call, seller);
    if r.steps[k - 1].AskFee? && r.steps[k - 1].call == call {
      assert false;
    } else {
      PendingStep(settings, r, k - 1, seller, id);
      if Inserted(r, k - 1, seller, id) { m := k - 1; } else { m := PendingSinceAsk(settings, r, k - 1, call, seller, id); }
    }
  }

  lemma PendingAtInsert(settings: Settings, r: Run, m: nat, seller: SellerId)
    requires IsRun(settings, r) && Inserts(r, m, seller)
    ensures HasPending(r.states[m].t, seller) <==> exists m': nat, id :: Overtaken(r, m', m, seller, id)
  {
    var t := r.states[m].t;
    if id :| id in t.requests && IsPlanFeeOf(t.requests[id], seller) && t.requests[id].status.Pending? {
      var m' := PendingSinceAsk(settings, r, m, r.steps[m].call, seller, id);
      assert Overtaken(r, m', m, seller, id);
    }
    if m': nat, id :| Overtaken(r, m', m, seller, id) {
      InsertedStays(settings, r, m', m, seller, id);
    }
  }

  /** A request keeps its owner and its fee. */
  lemma OwnerStep(settings: Settings, y: System, step: Step, at: int, id: RequestId)
    requires Enabled(y, step, at) && id in y.t.requests
    ensures var y' := Next(settings, y, step, at);
            id in y'.t.requests && y'.t.requests[id] == y.t.requests[id].(status := y'.t.requests[id].status)
  {
    hide Next, Enabled;
    if TouchesBilling(step) { BillingKeepsOwner(settings, y, step, at, id); } else { RequestsUntouched(settings, y, step, at); }
  }

  lemma BillingKeepsOwner(settings: Settings, y: System, step: Step, at: int, id: RequestId)
    requires Enabled(y, step, at) && id in y.t.requests && TouchesBilling(step)
    ensures var y' := Next(settings, y, step, at);
            id in y'.t.requests && y'.t.requests[id] == y.t.requests[id].(status := y'.t.requests[id].status)
  {
    hide NextSweeps, NextCalls, NextCooldowns, CommitVerification;
    if step.Verify? || step.GatewayVerify? {
      var request := y.calls[step.call].request;
      if CommitVerification(y.t, request, at).Ok? { CommitEffect(y.t, request, at); }
    }
  }

  lemma InsertedNow(settings: Settings, r: Run, m: nat, seller: SellerId, id: RequestId)
    requires IsRun(settings, r) && Inserted(r, m, seller, id)
    ensures id in r.states[m + 1].t.requests && IsPlanFeeOf(r.states[m + 1].t.requests[id], seller)
    ensures r.states[m + 1].t == InsertRequest(r.states[m].t, id, seller, r.states[m].calls[r.steps[m].call].amountDue) && id !in r.states[m].t.requests
  {
    hide NextSweeps, NextCalls;
    assert Taken(settings, r, m);
  }

  lemma {:induction false} InsertedStays(settings: Settings, r: Run, m': nat, m: nat, seller: SellerId, id: RequestId)
    requires IsRun(settings, r) && m' < m < |r.states| && Inserted(r, m', seller, id)
    ensures id in r.states[m].t.requests && IsPlanFeeOf(r.states[m].t.requests[id], seller)
    decreases m
  {
    hide Next, Enabled, Inserted;
    if m' + 1 == m {
      InsertedNow(settings, r, m', seller, id);
    } else {
      InsertedStays(settings, r, m', m - 1, seller, id);
      assert Taken(settings, r, m - 1);
      OwnerStep(settings, r.states[m - 1], r.steps[m - 1], r.times[m - 1], id);
    }
  }

  lemma OnePendingStep(settings: Settings, r: Run, m: nat, seller: SellerId)
    requires IsRun(settings, r) && m < |r.steps| && AtMostOnePending(r.states[m].t, seller)
    ensures AtMostOnePending(r.states[m + 1].t, seller) <==>
            (Inserts(r, m, seller) ==> !HasPending(r.states[m].t, seller))
    requires r.steps[m].InsertFee?
  {
    var step := r.steps[m];
    assert Taken(settings, r, m);
    var payer := r.states[m].calls[step.call].seller;
    InsertedNow(settings, r, m, payer, step.request);
    InsertPends(r.states[m].t, step.request, payer, r.states[m].calls[step.call].amountDue, seller);
    hide Next, Enabled, AtMostOnePending, HasPending;
  }

  lemma OthersKeepOnePending(settings: Settings, r: Run, m: nat, seller: SellerId)
    requires IsRun(settings, r) && m < |r.steps| && AtMostOnePending(r.states[m].t, seller) && !r.steps[m].InsertFee?
    ensures AtMostOnePending(r.states[m + 1].t, seller)
  {
    var t' := r.states[m + 1].t;
    forall a, b | IsPending(t', seller, a) && IsPending(t', seller, b) ensures a == b {
      PendingStep(settings, r, m, seller, a);
      PendingStep(settings, r, m, seller, b);
    }
    PendingIsPending(t', seller);
  }

  lemma PendingIsPending(t: Tables, seller: SellerId)
    ensures AtMostOnePending(t, seller) <==> forall a, b | IsPending(t, seller, a) && IsPending(t, seller, b) :: a == b
  {
    if AtMostOnePending(t, seller) {
      forall a, b | IsPending(t, seller, a) && IsPending(t, seller, b) ensures a == b {
        assert t.requests[a].status == t.requests[b].status == Pending;
      }
    } else {
      var a, b :| a in t.requests && b in t.requests && t.requests[a].status == t.requests[b].status == Pending
        && IsPlanFeeOf(t.requests[a], seller) && IsPlanFeeOf(t.requests[b], seller) && a != b;
      assert IsPending(t, seller, a) && IsPending(t, seller, b);
    }
  }

  /**
   * At most one plan-fee request of a seller is pending at every moment of a run if and only if
   * no call inserts one while another, inserted since it asked, is still undecided.
   */
  lemma {:induction false} OnePendingExactly(settings: Settings, r: Run, k: nat, seller: SellerId)
    requires IsRun(settings, r) && k < |r.states| && AtMostOnePending(r.states[0].t, seller)
    ensures (forall j: nat | j <= k :: AtMostOnePending(r.states[j].t, seller)) <==>
            forall m': nat, m: nat, id | m < k :: !Overtaken(r, m', m, seller, id)
    decreases k
  {
    hide AtMostOnePending, Overtaken, HasPending;
    if k > 0 {
      OnePendingExactly(settings, r, k - 1, seller);
      var last := k - 1;
      if AtMostOnePending(r.states[last].t, seller) {
        if Inserts(r, last, seller) {
          PendingAtInsert(settings, r, last, seller);
          OnePendingStep(settings, r, last, seller);
        } else {
          NotOvertaken(r, last, seller);
          if r.steps[last].InsertFee? { OnePendingStep(settings, r, last, seller); } else { OthersKeepOnePending(settings, r, last, seller); }
        }
      }
    }
  }

  lemma NotOvertaken(r: Run, m: nat, seller: SellerId)
    requires |r.states| == |r.steps| + 1 && m < |r.steps| && !Inserts(r, m, seller)
    ensures forall m': nat, id :: !Overtaken(r, m', m, seller, id)
  {}

  // ---- What the cooldown of a gateway reference buys -------------------------------------------------

  function ClaimAt(steps: seq<Step>, call: CallId, k: nat): (i: nat)
    requires k <= |steps|
    ensures i <= k
  {
    if k == 0 then 0 else if steps[k - 1].ClaimCooldown? && steps[k - 1].call == call then k - 1 else ClaimAt(steps, call, k - 1)
  }

  /** The call that inserts at step m came with a reference, and inserts before its cooldown is over. */
  ghost predicate Prompt(settings: Settings, r: Run, m: nat, seller: SellerId)
    requires |r.states| == |r.steps| + 1 == |r.times| + 1 && m < |r.steps|
  {
    && Inserts(r, m, seller)
    && var a := AskAt(r.steps, r.steps[m].call, m);
       && r.steps[m].call in r.states[a].calls && r.states[a].calls[r.steps[m].call] == Claimed(seller)
       && r.times[m] < r.times[ClaimAt(r.steps, r.steps[m].call, a)] + settings.submissionCooldown
  }

  lemma {:induction false} ClaimOrigin(settings: Settings, r: Run, k: nat, call: CallId, seller: SellerId)
    requires IsRun(settings, r) && k < |r.states| && call in r.states[k].calls && r.states[k].calls[call] == Claimed(seller)
    ensures ClaimAt(r.steps, call, k) < k && r.steps[ClaimAt(r.steps, call, k)] == ClaimCooldown(call, seller)
    decreases k
  {
    hide NextTables, NextSweeps, CommitVerification, CheckAndRestore;
    assert Taken(settings, r, k - 1);
    if !(r.steps[k - 1].ClaimCooldown? && r.steps[k - 1].call == call) { ClaimOrigin(settings, r, k - 1, call, seller); }
  }

  lemma {:induction false} CooldownStands(settings: Settings, r: Run, c: nat, k: nat, seller: SellerId)
    requires IsRun(settings, r) && c < k < |r.states| && r.steps[c].ClaimCooldown? && r.steps[c].seller == seller
    ensures seller in r.states[k].cooldowns && r.times[c] + settings.submissionCooldown <= r.states[k].cooldowns[seller]
    decreases k
  {
    hide NextTables, NextSweeps, NextCalls;
    assert Taken(settings, r, k - 1);
    if c < k - 1 { CooldownStands(settings, r, c, k - 1, seller); }
  }

  lemma ClaimsApart(settings: Settings, r: Run, c: nat, c': nat, seller: SellerId)
    requires IsRun(settings, r) && c < c' < |r.steps| && r.steps[c].ClaimCooldown? && r.steps[c].seller == seller
    requires r.steps[c'].ClaimCooldown? && r.steps[c'].seller == seller
    ensures r.times[c] + settings.submissionCooldown <= r.times[c']
  {
    CooldownStands(settings, r, c, c', seller);
    assert Taken(settings, r, c');
  }

  lemma TimesRise(settings: Settings, r: Run, i: nat, j: nat)
    requires IsRun(settings, r) && i <= j < |r.steps|
    ensures r.times[i] <= r.times[j]
  {
    ClockRises(settings, r, i, j);
    assert Taken(settings, r, j);
  }

  /** A call that has inserted asks again before it inserts again. */
  lemma {:induction false} AskedAgain(settings: Settings, r: Run, m: nat, k: nat, call: CallId)
    requires IsRun(settings, r) && m < k < |r.states| && r.steps[m].InsertFee? && r.steps[m].call == call
    requires call in r.states[k].calls && r.states[k].calls[call].Asking?
    ensures m < AskAt(r.steps, call, k)
    decreases k
  {
    AskOrSame(settings, r, k - 1, call, r.states[k].calls[call].seller);
    if !(r.steps[k - 1].AskFee? && r.steps[k - 1].call == call) {
      if m == k - 1 {
        InsertEnds(settings, r, m, call);
      } else {
        hide IsRun;
        AskedAgain(settings, r, m, k - 1, call);
      }
    }
  }

  lemma InsertEnds(settings: Settings, r: Run, m: nat, call: CallId)
    requires IsRun(settings, r) && m < |r.steps| && r.steps[m].InsertFee? && r.steps[m].call == call
    ensures call !in r.states[m + 1].calls
  {
    hide NextTables, NextSweeps;
    assert Taken(settings, r, m);
  }

  /** Two requests with references, both prompt, never overtake each other: each is asked for after the other was inserted. */
  lemma PromptNeverOvertaken(settings: Settings, r: Run, m': nat, m: nat, seller: SellerId, id: RequestId)
    requires IsRun(settings, r) && m' < m < |r.steps| && Prompt(settings, r, m', seller) && Prompt(settings, r, m, seller)
    ensures !Overtaken(r, m', m, seller, id)
  {
    var call', call := r.steps[m'].call, r.steps[m].call;
    var a', a := AskAt(r.steps, call', m'), AskAt(r.steps, call, m);
    ClaimOrigin(settings, r, a', call', seller);
    ClaimOrigin(settings, r, a, call, seller);
    var c', c := ClaimAt(r.steps, call', a'), ClaimAt(r.steps, call, a);
    hide Prompt;
    if a <= m' {
      TimesRise(settings, r, c, m'); TimesRise(settings, r, c', m'); TimesRise(settings, r, m', m);
      if c == c' { AskedAgain(settings, r, m', m, call); }
      else if c < c' { ClaimsApart(settings, r, c, c', seller); }
      else if c' < c { ClaimsApart(settings, r, c', c, seller); }
    }
  }

  // ---- Each reminder once per cycle -----------------------------------------------------------------

  predicate PaysFor(t: Tables, id: RequestId, at: int, seller: SellerId)
    requires id in t.requests
  {
    CommitVerification(t, id, at).Ok? && t.requests[id].seller == seller && t.requests[id].planFee.Some? && t.requests[id].planFee.value > 0
  }

  /** The step starts a new cycle for the seller: a verified payment, or an ambassador's silent renewal. */
  predicate Renews(settings: Settings, y: System, step: Step, at: int, seller: SellerId) {
    match step
    case Verify(call) => IsDeciding(y, call) && PaysFor(y.t, y.calls[call].request, at, seller)
    case GatewayVerify(call) => IsDeciding(y, call) && PaysFor(y.t, y.calls[call].request, at, seller)
    case DebitRow(_, _) => RenewsFreely(y, step, seller)
    case _ => false
  }

  lemma CommitKeepsSubscription(settings: Settings, y: System, step: Step, at: int, seller: SellerId)
    requires Enabled(y, step, at) && seller in y.t.subscriptions && !Renews(settings, y, step, at, seller) && (step.Verify? || step.GatewayVerify?)
    ensures var y' := Next(settings, y, step, at); seller in y'.t.subscriptions && y'.t.subscriptions[seller] == y.t.subscriptions[seller]
  {
    hide NextSweeps, NextCalls, CommitVerification;
    var request := y.calls[step.call].request;
    if CommitVerification(y.t, request, at).Ok? { CommitEffect(y.t, request, at); }
  }

  lemma QuietStepKeepsSubscriptions(settings: Settings, y: System, step: Step, at: int)
    requires Enabled(y, step, at) && !step.Verify? && !step.GatewayVerify? && !OnStores(step) && !step.LadderRow? && !step.DebitRow? && !Restoring(step)
    requires !step.RemindOne?
    ensures Next(settings, y, step, at).t.subscriptions == y.t.subscriptions
  {
    hide NextSweeps, NextCalls, NextCooldowns;
  }

  lemma RemindKeepsPeriod(settings: Settings, y: System, step: Step, at: int, seller: SellerId)
    requires Enabled(y, step, at) && step.RemindOne? && seller in y.t.subscriptions
    ensures var y' := Next(settings, y, step, at);
            && seller in y'.t.subscriptions
            && y'.t.subscriptions[seller].periodEnd == y.t.subscriptions[seller].periodEnd
            && y.t.subscriptions[seller].sent.Keys <= y'.t.subscriptions[seller].sent.Keys
  {
    hide NextSweeps, NextCalls, NextCooldowns, ReminderDue;
  }

  lemma SubscriptionStep(settings: Settings, y: System, step: Step, at: int, seller: SellerId)
    requires Enabled(y, step, at) && seller in y.t.subscriptions && !Renews(settings, y, step, at, seller)
    ensures var y' := Next(settings, y, step, at);
            && seller in y'.t.subscriptions
            && y'.t.subscriptions[seller].periodEnd == y.t.subscriptions[seller].periodEnd
            && y.t.subscriptions[seller].sent.Keys <= y'.t.subscriptions[seller].sent.Keys
  {
    hide Next, Enabled;
    if step.RemindOne? { RemindKeepsPeriod(settings, y, step, at, seller); }
    else if step.Verify? || step.GatewayVerify? { CommitKeepsSubscription(settings, y, step, at, seller); }
    else if OnStores(step) { StoreUpdateOnly(settings, y, step, at); }
    else if step.LadderRow? || step.DebitRow? || Restoring(step) { TurnBilling(settings, y, step, at); }
    else { QuietStepKeepsSubscriptions(settings, y, step, at); }
  }

  /** A reminder sweep's remaining rows are the subscriptions as they were when it started. */
  lemma {:induction false} RemindersOrigin(settings: Settings, r: Run, k: nat, sweep: SweepId) returns (w: nat)
    requires IsRun(settings, r) && k < |r.states| && sweep in r.states[k].sweeps && r.states[k].sweeps[sweep].Reminders?
    ensures w < k && r.steps[w] == StartReminders(sweep) && r.states[k].sweeps[sweep].now == r.times[w]
    ensures forall seller | seller in r.states[k].sweeps[sweep].pending ::
              seller in r.states[w].t.subscriptions && r.states[k].sweeps[sweep].pending[seller] == r.states[w].t.subscriptions[seller]
    decreases k
  {
    hide NextTables, NextCalls;
    assert k > 0 && Taken(settings, r, k - 1);
    if r.steps[k - 1] == StartReminders(sweep) { w := k - 1; }
    else { w := RemindersOrigin(settings, r, k - 1, sweep); }
  }

  /** Step k is a reminder sweep's turn of the seller. */
  ghost predicate Reminds(r: Run, k: nat, seller: SellerId)
    requires |r.states| == |r.steps| + 1 && k < |r.steps|
  {
    && r.steps[k].RemindOne? && r.steps[k].seller == seller && seller in r.states[k].t.subscriptions
    && r.steps[k].sweep in r.states[k].sweeps && r.states[k].sweeps[r.steps[k].sweep].Reminders?
    && seller in r.states[k].sweeps[r.steps[k].sweep].pending
  }

  ghost predicate SendsReminder(settings: Settings, r: Run, k: nat, seller: SellerId, reminder: Reminder)
    requires IsRun(settings, r) && k < |r.steps|
  {
    Reminds(r, k, seller) && var w := r.states[k].sweeps[r.steps[k].sweep]; ReminderDue(w.pending[seller], w.now, reminder)
  }

  lemma SendingMarks(settings: Settings, r: Run, k: nat, seller: SellerId, reminder: Reminder)
    requires IsRun(settings, r) && k < |r.steps| && SendsReminder(settings, r, k, seller, reminder)
    ensures reminder !in r.states[k].sweeps[r.steps[k].sweep].pending[seller].sent
    ensures seller in r.states[k + 1].t.subscriptions && reminder in r.states[k + 1].t.subscriptions[seller].sent
  {
    hide NextSweeps, NextCalls;
    assert Taken(settings, r, k);
  }

  lemma {:induction false} MarkStays(settings: Settings, r: Run, i: nat, k: nat, seller: SellerId, reminder: Reminder)
    requires IsRun(settings, r) && i <= k < |r.states|
    requires seller in r.states[i].t.subscriptions && reminder in r.states[i].t.subscriptions[seller].sent
    requires forall m | i <= m < k :: !Renews(settings, r.states[m], r.steps[m], r.times[m], seller)
    ensures seller in r.states[k].t.subscriptions && reminder in r.states[k].t.subscriptions[seller].sent
    decreases k
  {
    hide Next, Renews;
    if i < k {
      MarkStays(settings, r, i, k - 1, seller, reminder);
      assert Taken(settings, r, k - 1);
      SubscriptionStep(settings, r.states[k - 1], r.steps[k - 1], r.times[k - 1], seller);
    }
  }

  /**
   * After step i has sent the reminder, and until a renewal, a later turn j of a sweep that
   * started at step w sends it again if and only if that sweep had read its rows by step i, when
   * the reminder was due and not yet sent.
   */
  lemma RemindedAgainExactly(settings: Settings, r: Run, i: nat, j: nat, w: nat, seller: SellerId, reminder: Reminder)
    requires IsRun(settings, r) && i < j < |r.steps| && SendsReminder(settings, r, i, seller, reminder) && Reminds(r, j, seller)
    requires w < j && r.steps[w] == StartReminders(r.steps[j].sweep)
    requires forall m | i < m < w :: !Renews(settings, r.states[m], r.steps[m], r.times[m], seller)
    ensures seller in r.states[w].t.subscriptions
    ensures SendsReminder(settings, r, j, seller, reminder) <==> w <= i && ReminderDue(r.states[w].t.subscriptions[seller], r.times[w], reminder)
  {
    hide Next, Renews, ReminderDue;
    var w' := RemindersOrigin(settings, r, j, r.steps[j].sweep);
    RemindersStartOnce(settings, r, w, w', r.steps[j].sweep);
    if i < w {
      SendingMarks(settings, r, i, seller, reminder);
      MarkStays(settings, r, i + 1, w, seller, reminder);
      MarkedIsNotDue(r.states[w].t.subscriptions[seller], r.times[w], reminder);
    }
  }

  lemma MarkedIsNotDue(s: Subscription, now: int, reminder: Reminder)
    requires reminder in s.sent
    ensures !ReminderDue(s, now, reminder)
  {}

  lemma {:induction false} RemindersStay(settings: Settings, r: Run, w: nat, k: nat, sweep: SweepId)
    requires IsRun(settings, r) && w < k < |r.states| && r.steps[w] == StartReminders(sweep)
    ensures sweep in r.states[k].sweeps
    decreases k
  {
    hide NextTables, NextCalls;
    assert Taken(settings, r, k - 1);
    if w < k - 1 { RemindersStay(settings, r, w, k - 1, sweep); }
  }

  lemma RemindersStartOnce(settings: Settings, r: Run, w: nat, w': nat, sweep: SweepId)
    requires IsRun(settings, r) && w < |r.steps| && w' < |r.steps| && r.steps[w] == r.steps[w'] == StartReminders(sweep)
    ensures w == w'
  {
    assert Taken(settings, r, w) && Taken(settings, r, w');
    if w < w' { RemindersStay(settings, r, w, w', sweep); }
    if w' < w { RemindersStay(settings, r, w', w, sweep); }
  }

  // ---- When a payment clears the retention clock -------------------------------------------------------

  /**
   * A verified plan fee takes the retention stamp off a store of the seller if and only if the
   * balance is below the warning threshold and the store is the only one to restore, with no other
   * active. At or above the threshold the balance check comes first: it reactivates the store,
   * which the plan-fee restore then no longer matches, or the index refuses it and ends the call.
   * Otherwise a second store makes the index refuse the plan-fee restore itself.
   */
  lemma PaymentClearsStampExactly(settings: Settings, t: Tables, request: RequestId, at: int, id: StoreId)
    requires VerifyTopUp(t, request, at).Ok? && t.requests[request].planFee.Some? && OneActivePerSeller(t.stores)
    requires id in t.stores && t.stores[id].seller == t.requests[request].seller && OnRetentionClock(t.stores[id])
    ensures var (t', failure) := VerifyOne(settings, t, request, at); var seller := t.requests[request].seller;
            var low := Balance(VerifyTopUp(t, request, at).value, seller) < settings.warningThreshold;
            && id in t'.stores
            && (t'.stores[id].terminalPausedAt == None <==> low && OneToRestore(t.stores, seller))
            && (t'.stores[id].terminalPausedAt != None ==> t'.stores[id].terminalPausedAt == t.stores[id].terminalPausedAt)
            && (t'.stores[id].status == Active <==> if low then OneToRestore(t.stores, seller) else !Blocked(t.stores, seller))
            && failure == (if t'.stores[id].status == Active then None else Some(StoreConflict))
            && (failure.Some? ==> t'.stores == t.stores)
  {
    hide VerifyTopUp, CheckAndRestore, RestoreAfterPlanFeePayment, OneToRestore, OneActivePerSeller, Reactivate, Blocked;
    VerifyEffect(t, request, at);
    var verified, seller := VerifyTopUp(t, request, at).value, t.requests[request].seller;
    CheckOnStore(settings, verified, seller, id);
    var (checked, ok) := CheckAndRestore(settings, verified, seller);
    RestoreOnStore(checked, seller, id);
    if Balance(verified, seller) < settings.warningThreshold {
      LowBalanceChecksNothing(settings, verified, seller);
      RestoreNeedsOneStore(verified, seller);
      RefusedChangesNothing(verified, seller);
    } else {
      RestoreFits(verified.stores, seller);
      CheckedIsActive(settings, verified, seller, id);
    }
  }

  lemma LowBalanceChecksNothing(settings: Settings, t: Tables, seller: SellerId)
    requires Balance(t, seller) < settings.warningThreshold
    ensures CheckAndRestore(settings, t, seller) == (t, true)
  {}

  lemma RefusedChangesNothing(t: Tables, seller: SellerId)
    ensures !RestoreAfterPlanFeePayment(t, seller).1 ==> RestoreAfterPlanFeePayment(t, seller).0 == t
  {}

  /** A balance check that goes through leaves the plan-fee restore nothing to do, and one that is refused changes no store. */
  lemma CheckedIsActive(settings: Settings, t: Tables, seller: SellerId, id: StoreId)
    requires Balance(t, seller) >= settings.warningThreshold && id in t.stores && Restorable(t.stores[id], seller)
    ensures var (checked, ok) := CheckAndRestore(settings, t, seller);
            && (ok <==> OneActivePerSeller(Reactivate(t.stores, seller)))
            && (ok ==> RestoreAfterPlanFeePayment(checked, seller) == (checked, true) && id in checked.stores && checked.stores[id].status == Active)
            && (!ok ==> checked.stores == t.stores)
  {
    hide OneActivePerSeller;
    assert Restore(Reactivate(t.stores, seller), seller) == Reactivate(t.stores, seller);
  }

  /** A stamp left behind that way is never moved: the next non-payment pause is deleted on the old clock. */
  lemma LeftoverStampExpiresEarly(stores: Stores, seller: SellerId, id: StoreId, at: int, now: int, retentionDays: nat)
    requires id in stores && stores[id].seller == seller && stores[id].status == Active && stores[id].terminalPausedAt.Some?
    ensures var paused := PauseForNonPayment(stores, seller, at);
            && OnRetentionClock(paused[id])
            && (Expired(paused[id], now, retentionDays) <==> stores[id].terminalPausedAt.value + retentionDays * DAY_MS <= now)
  {}

  /** The gateway's automatic verification advances the period and leaves every store as it was. */
  lemma GatewayPaymentRestoresNothing(settings: Settings, y: System, call: CallId, at: int)
    requires Enabled(y, GatewayVerify(call), at)
    ensures Next(settings, y, GatewayVerify(call), at).t.stores == y.t.stores
    ensures call !in Next(settings, y, GatewayVerify(call), at).calls
  {
    BillingStepOnStores(settings, y, GatewayVerify(call), at);
  }

  // ---- One active store per seller ------------------------------------------------------------------------

  lemma OneActiveStep(settings: Settings, y: System, step: Step, at: int)
    requires Enabled(y, step, at) && OneActivePerSeller(y.t.stores)
    ensures OneActivePerSeller(Next(settings, y, step, at).t.stores)
  {
    hide NextSweeps, NextCalls, NextTables, OneActivePerSeller;
    if Restoring(step) { RestoringKeepsOneActive(settings, y, step, at); }
    else if OnStores(step) || step.DebitRow? || step.LadderRow? { UpdateKeepsOneActive(settings, y, step, at); }
    else { BillingStepOnStores(settings, y, step, at); }
  }

  lemma RestoringKeepsOneActive(settings: Settings, y: System, step: Step, at: int)
    requires Enabled(y, step, at) && OneActivePerSeller(y.t.stores) && Restoring(step)
    ensures OneActivePerSeller(Next(settings, y, step, at).t.stores)
  {
    hide OneActivePerSeller, Reactivate, Restore, NextSweeps, NextCalls, Balance;
  }

  /** Active stores only become fewer. */
  predicate NoNewActive(stores: Stores, stores': Stores) {
    forall id | id in stores' && stores'[id].status == Active :: id in stores && stores[id].status == Active && stores[id].seller == stores'[id].seller
  }

  lemma FewerActive(stores: Stores, stores': Stores)
    requires OneActivePerSeller(stores) && NoNewActive(stores, stores')
    ensures OneActivePerSeller(stores')
  {}

  lemma UpdateKeepsOneActive(settings: Settings, y: System, step: Step, at: int)
    requires Enabled(y, step, at) && OneActivePerSeller(y.t.stores)
    requires OnStores(step) || step.DebitRow? || step.LadderRow?
    ensures OneActivePerSeller(Next(settings, y, step, at).t.stores)
  {
    if step.OpenStore? {
      OpenKeepsOneActive(y.t.stores, step.id, step.seller);
    } else if step.LadderRow? {
      LadderKeepsOneActive(settings, y.t, step.seller, y.sweeps[step.sweep].unvisited[step.seller], y.sweeps[step.sweep].now);
    } else if step.DebitRow? {
      DebitKeepsOneActive(settings, y.t, step.seller, y.sweeps[step.sweep].rows[step.seller], y.sweeps[step.sweep].now);
    } else {
      StatementKeepsOneActive(settings, y, step, at);
    }
  }

  lemma OpenKeepsOneActive(stores: Stores, id: StoreId, seller: SellerId)
    requires OneActivePerSeller(stores) && id !in stores && !HasActive(stores, seller)
    ensures OneActivePerSeller(stores[id := Store(seller, Active, None, None, map[])])
  {}

  lemma LadderKeepsOneActive(settings: Settings, t: Tables, seller: SellerId, row: Ladder, now: int)
    requires OneActivePerSeller(t.stores)
    ensures OneActivePerSeller(LadderVisit(settings, t, seller, row, now).0.stores)
  {
    hide OneActivePerSeller;
    FewerActive(t.stores, PauseActive(t.stores, seller));
  }

  lemma DebitKeepsOneActive(settings: Settings, t: Tables, seller: SellerId, row: Subscription, now: int)
    requires OneActivePerSeller(t.stores) && IsDue(row, now)
    ensures OneActivePerSeller(DebitTurn(settings, t, seller, row, now).0.stores)
  {
    hide OneActivePerSeller, Exempt, PastGrace;
    FewerActive(t.stores, PauseActive(t.stores, seller));
  }

  lemma SweepAddsNoActive(settings: Settings, y: System, step: Step, at: int)
    requires Enabled(y, step, at) && (step.NotifyOne? || step.DeleteOne? || step.StampRow?)
    ensures NoNewActive(y.t.stores, Next(settings, y, step, at).t.stores)
  {
    hide NextSweeps, NextCalls, NextCooldowns, NoticeDue, StillEligible;
  }

  lemma StatementAddsNoActive(settings: Settings, y: System, step: Step, at: int)
    requires Enabled(y, step, at) && OnStores(step) && !step.OpenStore? && !step.ReclaimOverLimit? && !step.LiftSuspension?
    ensures NoNewActive(y.t.stores, Next(settings, y, step, at).t.stores)
  {
    if step.NotifyOne? || step.DeleteOne? || step.StampRow? {
      hide Next, Enabled;
      SweepAddsNoActive(settings, y, step, at);
    } else {
      hide NextSweeps, NextCalls, NextCooldowns, Balance;
    }
  }

  lemma StatementKeepsOneActive(settings: Settings, y: System, step: Step, at: int)
    requires Enabled(y, step, at) && OneActivePerSeller(y.t.stores) && OnStores(step) && !step.OpenStore?
    ensures OneActivePerSeller(Next(settings, y, step, at).t.stores)
  {
    hide OneActivePerSeller, NextSweeps, NextCalls, Recolour;
    if !step.ReclaimOverLimit? && !step.LiftSuspension? {
      hide Next, Enabled;
      StatementAddsNoActive(settings, y, step, at);
      FewerActive(y.t.stores, Next(settings, y, step, at).t.stores);
    }
  }

  /** In every run that starts that way, no seller ever has two active stores. */
  lemma {:induction false} OneActiveThroughRun(settings: Settings, r: Run, k: nat)
    requires IsRun(settings, r) && k < |r.states| && OneActivePerSeller(r.states[0].t.stores)
    ensures OneActivePerSeller(r.states[k].t.stores)
    decreases k
  {
    hide Next, OneActivePerSeller;
    if k > 0 {
      OneActiveThroughRun(settings, r, k - 1);
      assert Taken(settings, r, k - 1);
      OneActiveStep(settings, r.states[k - 1], r.steps[k - 1], r.times[k - 1]);
    }
  }
}
