/**
 * Whole runs of the lifecycle: who may be deleted, when, and after what. A run is any sequence
 * of enabled steps, so a theorem about runs holds however the services and sweeps interleave.
 */
module LifecycleRuns {
  import opened Common
  import opened Calendar
  import opened BillingTables
  import opened GraceLadder
  import opened PlanFees
  import opened Retention
  import opened Lifecycle

  /** `steps[k]` happens at `times[k]` and leads from `states[k]` to `states[k + 1]`. */
  datatype Run = Run(states: seq<System>, steps: seq<Step>, times: seq<int>)

  ghost predicate Initial(y: System) {
    && y.sweeps == map[] && y.calls == map[] && y.cooldowns == map[]
    && forall id | id in y.t.stores :: y.t.stores[id].terminalPausedAt == None && y.t.stores[id].sent == map[]
  }

  ghost predicate Taken(settings: Settings, r: Run, k: nat)
    requires |r.states| == |r.steps| + 1 == |r.times| + 1 && k < |r.steps|
  {
    && Enabled(r.states[k], r.steps[k], r.times[k])
    && r.states[k + 1] == Next(settings, r.states[k], r.steps[k], r.times[k])
  }

  ghost predicate IsRun(settings: Settings, r: Run) {
    && |r.states| == |r.steps| + 1 == |r.times| + 1
    && Initial(r.states[0])
    && forall k: nat | k < |r.steps| :: Taken(settings, r, k)
  }

  predicate Stamped(y: System, id: StoreId, at: int) {
    id in y.t.stores && y.t.stores[id].terminalPausedAt == Some(at)
  }

  lemma {:induction false} ClockRises(settings: Settings, r: Run, j: nat, k: nat)
    requires IsRun(settings, r) && j <= k < |r.states|
    ensures r.states[j].clock <= r.states[k].clock
    ensures j < k ==> r.times[j] <= r.states[k].clock
    decreases k - j
  {
    if j < k {
      assert Taken(settings, r, k - 1);
      ClockRises(settings, r, j, k - 1);
    }
  }

  lemma ClockIsTime(settings: Settings, r: Run, j: nat)
    requires IsRun(settings, r) && j < |r.steps|
    ensures r.states[j + 1].clock == r.times[j]
  {
    assert Taken(settings, r, j);
  }

  // ---- Where a stamp comes from --------------------------------------------------------------

  /** Step j puts the store on the retention clock, in a pause that a debit sweep has begun. */
  ghost predicate PausedAt(settings: Settings, r: Run, j: nat, id: StoreId)
    requires IsRun(settings, r) && j < |r.steps|
  {
    && id in r.states[j].t.stores && id in r.states[j + 1].t.stores
    && StampsFor(r.states[j], r.steps[j], r.states[j].t.stores[id])
    && IsStamped(r.states[j].t.stores[id], r.states[j + 1].t.stores[id], r.times[j])
  }

  lemma {:induction false} StampOrigin(settings: Settings, r: Run, k: nat, id: StoreId, stamp: int) returns (j: nat)
    requires IsRun(settings, r) && k < |r.states| && Stamped(r.states[k], id, stamp)
    ensures j < k && PausedAt(settings, r, j, id) && stamp == r.times[j]
    ensures forall m | j < m <= k :: Stamped(r.states[m], id, stamp)
    decreases k
  {
    hide Next, Enabled, StampsFor, PaysFee, ReactivatesOnly;
    assert k > 0;
    assert Taken(settings, r, k - 1);
    var y, step, at := r.states[k - 1], r.steps[k - 1], r.times[k - 1];
    if id !in y.t.stores {
      NewStores(settings, y, step, at, id);
      assert false;
    } else {
      StoreStep(settings, y, step, at, id);
      if Stamped(y, id, stamp) {
        j := StampOrigin(settings, r, k - 1, id, stamp);
      } else {
        j := k - 1;
      }
    }
  }

  /** What a debit sweep acts on are the due subscriptions as they were when it started. */
  lemma {:induction false} DebitRowsOrigin(settings: Settings, r: Run, k: nat, sweep: SweepId) returns (a: nat)
    requires IsRun(settings, r) && k < |r.states| && sweep in r.states[k].sweeps && r.states[k].sweeps[sweep].DebitRows?
    ensures a < k && r.steps[a] == StartDebitSweep(sweep)
    ensures r.states[k].sweeps[sweep].now == r.times[a] && r.states[k].sweeps[sweep].rows == DueRows(r.states[a].t, r.times[a])
    decreases k
  {
    hide NextTables, NextCalls, DebitTurn;
    assert k > 0 && Taken(settings, r, k - 1);
    if r.steps[k - 1] == StartDebitSweep(sweep) { a := k - 1; }
    else { a := DebitRowsOrigin(settings, r, k - 1, sweep); }
  }

  /**
   * The turn stops a seller who was selling, whose plan has a price and was unpaid for the grace
   * days when the sweep read it, and whose stores are not all free by then.
   */
  predicate StopsSeller(settings: Settings, y: System, step: Step, sweep: SweepId, seller: SellerId) {
    && step == DebitRow(sweep, seller) && HasActive(y.t.stores, seller)
    && sweep in y.sweeps && y.sweeps[sweep].DebitRows? && seller in y.sweeps[sweep].rows
    && var row := y.sweeps[sweep].rows[seller];
       && row.individualPaid && row.periodEnd.Some? && row.periodEnd.value + settings.planFeeGraceDays * DAY_MS <= y.sweeps[sweep].now
       && (row.interval == NoInterval || seller !in y.t.slots || y.t.slots[seller] == 0 || |StoresOf(y.t.stores, seller)| > y.t.slots[seller])
  }

  lemma TurnStops(settings: Settings, t: Tables, seller: SellerId, row: Subscription, now: int)
    requires IsDue(row, now) && DebitTurn(settings, t, seller, row, now).1
    ensures HasActive(t.stores, seller) && row.individualPaid && row.periodEnd.value + settings.planFeeGraceDays * DAY_MS <= now
    ensures row.interval == NoInterval || seller !in t.slots || t.slots[seller] == 0 || |StoresOf(t.stores, seller)| > t.slots[seller]
  {}

  /** Behind a stamp that is still to be written is the turn of the same sweep that stopped the seller. */
  lemma {:induction false} StopOrigin(settings: Settings, r: Run, k: nat, sweep: SweepId, seller: SellerId) returns (p: nat)
    requires IsRun(settings, r) && k < |r.states| && sweep in r.states[k].sweeps && r.states[k].sweeps[sweep].DebitRows?
    requires seller in r.states[k].sweeps[sweep].stopped
    ensures p < k && StopsSeller(settings, r.states[p], r.steps[p], sweep, seller)
    decreases k
  {
    hide NextTables, NextCalls, DebitTurn, HasActive, PastGrace;
    assert k > 0 && Taken(settings, r, k - 1);
    var y, step := r.states[k - 1], r.steps[k - 1];
    if step == DebitRow(sweep, seller) && DebitTurn(settings, y.t, seller, y.sweeps[sweep].rows[seller], y.sweeps[sweep].now).1 {
      p := k - 1;
      TurnStops(settings, y.t, seller, y.sweeps[sweep].rows[seller], y.sweeps[sweep].now);
    } else {
      p := StopOrigin(settings, r, k - 1, sweep, seller);
    }
  }

  /** A notice sweep's remaining rows are the paused stores as they were when it started. */
  lemma {:induction false} NoticesOrigin(settings: Settings, r: Run, k: nat, sweep: SweepId) returns (w: nat)
    requires IsRun(settings, r) && k < |r.states| && sweep in r.states[k].sweeps && r.states[k].sweeps[sweep].Notices?
    ensures w < k && r.steps[w] == StartNotices(sweep, r.states[k].sweeps[sweep].kinds) && r.states[k].sweeps[sweep].now == r.times[w]
    ensures forall id | id in r.states[k].sweeps[sweep].left ::
              id in r.states[w].t.stores && r.states[k].sweeps[sweep].left[id] == r.states[w].t.stores[id]
    decreases k
  {
    hide NextTables, NextCalls;
    assert k > 0 && Taken(settings, r, k - 1);
    if r.steps[k - 1].StartNotices? && r.steps[k - 1].sweep == sweep { w := k - 1; }
    else { w := NoticesOrigin(settings, r, k - 1, sweep); }
  }

  /** The two sweep steps behind a deletion: the warnings start at `w`, whose time the query at `q` uses. */
  lemma {:induction false} DeletingOrigin(settings: Settings, r: Run, k: nat, sweep: SweepId) returns (w: nat, q: nat)
    requires IsRun(settings, r) && k < |r.states| && sweep in r.states[k].sweeps && r.states[k].sweeps[sweep].Deleting?
    ensures w < q < k && r.steps[w] == StartNotices(sweep, WARNINGS) && r.steps[q] == QueryExpired(sweep)
    ensures r.states[k].sweeps[sweep] == Deleting(r.times[w], Candidates(r.states[q].t.stores, r.times[w], settings.retentionDays))
    decreases k
  {
    hide NextTables, NextCalls, Candidates;
    assert k > 0 && Taken(settings, r, k - 1);
    if r.steps[k - 1] == QueryExpired(sweep) {
      q := k - 1;
      w := NoticesOrigin(settings, r, q, sweep);
    } else {
      w, q := DeletingOrigin(settings, r, k - 1, sweep);
    }
  }

  /** Step i deletes store `id`. */
  ghost predicate Deletes(r: Run, i: nat, id: StoreId)
    requires |r.states| == |r.steps| + 1 && i < |r.steps|
  {
    id in r.states[i].t.stores && id !in r.states[i + 1].t.stores
  }

  /**
   * Deletion timing, in every run: a deleted store was stamped (at step j) a full retention window
   * before the deleting sweep began (at step w), in a pause (begun at step p) of a seller whose plan
   * fee was past grace when the debit sweep read it (at step a); and it kept that stamp until it was
   * deleted.
   */
  lemma DeletionTiming(settings: Settings, r: Run, i: nat, id: StoreId) returns (a: nat, p: nat, j: nat, w: nat)
    requires IsRun(settings, r) && i < |r.steps| && Deletes(r, i, id)
    ensures a < p < j < i && w < i && PausedAt(settings, r, j, id)
    ensures r.steps[i].DeleteOne? && r.steps[w] == StartNotices(r.steps[i].sweep, WARNINGS)
    ensures var seller := r.states[i].t.stores[id].seller;
            && StopsSeller(settings, r.states[p], r.steps[p], r.steps[j].sweep, seller)
            && seller in r.states[a].t.subscriptions && r.states[a].t.subscriptions[seller].individualPaid
            && r.states[a].t.subscriptions[seller].periodEnd.Some?
            && r.states[a].t.subscriptions[seller].periodEnd.value + settings.planFeeGraceDays * DAY_MS <= r.times[a]
    ensures r.times[a] <= r.times[p] <= r.times[j] && r.times[j] + settings.retentionDays * DAY_MS <= r.times[w] <= r.times[i]
    ensures forall m | j < m <= i :: Stamped(r.states[m], id, r.times[j])
    ensures OnRetentionClock(r.states[i].t.stores[id])
  {
    hide Next, PaysFee, ReactivatesOnly, PastGrace, KeepsStamp, HasActive;
    assert Taken(settings, r, i);
    StoreStep(settings, r.states[i], r.steps[i], r.times[i], id);
    var stamp := r.states[i].t.stores[id].terminalPausedAt.value;
    var q;
    w, q := DeletingOrigin(settings, r, i, r.steps[i].sweep);
    j := StampOrigin(settings, r, i, id, stamp);
    assert Taken(settings, r, j);
    p := StopOrigin(settings, r, j, r.steps[j].sweep, r.steps[j].seller);
    a := DebitRowsOrigin(settings, r, p, r.steps[j].sweep);
    assert Taken(settings, r, p);
    ClockRises(settings, r, a, p);
    ClockRises(settings, r, p, j);
    ClockRises(settings, r, w, i);
    SellerFixed(settings, r, j, i, id, stamp);
  }

  lemma {:induction false} SellerFixed(settings: Settings, r: Run, j: nat, k: nat, id: StoreId, stamp: int)
    requires IsRun(settings, r) && j < k < |r.states| && PausedAt(settings, r, j, id)
    requires forall m | j < m <= k :: Stamped(r.states[m], id, stamp)
    ensures Stamped(r.states[k], id, stamp) && r.states[k].t.stores[id].seller == r.states[j].t.stores[id].seller
    decreases k
  {
    hide Next, Enabled, StampsFor, PaysFee, ReactivatesOnly;
    if j + 1 < k {
      SellerFixed(settings, r, j, k - 1, id, stamp);
      assert Stamped(r.states[k - 1], id, stamp) && Stamped(r.states[k], id, stamp);
      assert Taken(settings, r, k - 1);
      StoreStep(settings, r.states[k - 1], r.steps[k - 1], r.times[k - 1], id);
    }
  }

  // ---- Staying paused until the deletion --------------------------------------------------------

  /** From state `from` to state k the store keeps one stamp. */
  ghost predicate OneEpisode(r: Run, from: nat, k: nat, id: StoreId, stamp: int)
    requires k < |r.states|
  {
    forall m | from <= m <= k :: Stamped(r.states[m], id, stamp)
  }

  /**
   * Within one pause episode the store is off the retention clock at some point exactly when
   * one of the two bare reactivations happened to it: they leave the stamp where it is.
   */
  lemma {:induction false} StaysPausedExactly(settings: Settings, r: Run, from: nat, k: nat, id: StoreId, stamp: int)
    requires IsRun(settings, r) && from <= k < |r.states| && OneEpisode(r, from, k, id, stamp)
    requires OnRetentionClock(r.states[from].t.stores[id])
    ensures (forall m | from <= m <= k :: id in r.states[m].t.stores && OnRetentionClock(r.states[m].t.stores[id]))
       <==> (forall m | from <= m < k :: id in r.states[m].t.stores && !ReactivatesOnly(settings, r.states[m], r.steps[m], id))
    decreases k
  {
    hide Next, Enabled, StampsFor, PaysFee, ReactivatesOnly;
    assert Stamped(r.states[k], id, stamp);
    if from < k {
      StaysPausedExactly(settings, r, from, k - 1, id, stamp);
      assert Taken(settings, r, k - 1);
      assert Stamped(r.states[k - 1], id, stamp);
      StoreStep(settings, r.states[k - 1], r.steps[k - 1], r.times[k - 1], id);
    }
  }

  /** While the seller's balance is below the warning threshold only a reclaim can reactivate. */
  lemma LowBalanceNeverReactivates(settings: Settings, r: Run, k: nat, id: StoreId)
    requires IsRun(settings, r) && k < |r.steps| && id in r.states[k].t.stores
    requires Balance(r.states[k].t, r.states[k].t.stores[id].seller) < settings.warningThreshold
    requires r.steps[k] != ReclaimOverLimit(id)
    ensures !ReactivatesOnly(settings, r.states[k], r.steps[k], id)
  {}

  /** The store is on the retention clock in every state from `from` to i. */
  ghost predicate PausedThroughout(r: Run, from: nat, i: nat, id: StoreId)
    requires i < |r.states|
  {
    forall m | from <= m <= i :: id in r.states[m].t.stores && OnRetentionClock(r.states[m].t.stores[id])
  }

  /**
   * Every deletion (step i) is for one non-payment pause (step j): the stamp has stood since, and
   * no plan-fee restore has taken the store off the clock. It was paused without a break in that
   * time if and only if neither bare reactivation happened to it; below the warning threshold,
   * and with no reclaim, it was.
   */
  lemma DeletedOnlyAfterUnbrokenPause(settings: Settings, r: Run, i: nat, id: StoreId) returns (j: nat)
    requires IsRun(settings, r) && i < |r.steps| && Deletes(r, i, id)
    ensures j < i && PausedAt(settings, r, j, id) && r.times[j] + settings.retentionDays * DAY_MS <= r.times[i]
    ensures forall m | j < m <= i :: Stamped(r.states[m], id, r.times[j]) && r.states[m].t.stores[id].seller == r.states[i].t.stores[id].seller
    ensures forall m | j < m < i :: !RestoredAt(r, m, id)
    ensures PausedThroughout(r, j + 1, i, id) <==> forall m | j < m < i :: id in r.states[m].t.stores && !ReactivatesOnly(settings, r.states[m], r.steps[m], id)
    ensures (forall m | j < m < i :: Balance(r.states[m].t, r.states[i].t.stores[id].seller) < settings.warningThreshold && r.steps[m] != ReclaimOverLimit(id))
              ==> PausedThroughout(r, j + 1, i, id)
  {
    hide Next, PaysFee, ReactivatesOnly, PastGrace, KeepsStamp, StampsFor, Balance, RestoredAt, HasActive, StopsSeller, Taken;
    var a, p, w;
    a, p, j, w := DeletionTiming(settings, r, i, id);
    var stamp := r.times[j];
    assert OneEpisode(r, j + 1, i, id, stamp);
    SellerFixed(settings, r, j, i, id, stamp);
    forall m | j < m < i
      ensures Stamped(r.states[m], id, stamp) && r.states[m].t.stores[id].seller == r.states[i].t.stores[id].seller && !RestoredAt(r, m, id)
    {
      assert Stamped(r.states[m], id, stamp) && Stamped(r.states[m + 1], id, stamp);
      SellerFixed(settings, r, j, m, id, stamp);
      if RestoredAt(r, m, id) { RestoredLosesStamp(settings, r, m, id); }
    }
    StaysPausedExactly(settings, r, j + 1, i, id, stamp);
    if forall m | j < m < i :: Balance(r.states[m].t, r.states[i].t.stores[id].seller) < settings.warningThreshold && r.steps[m] != ReclaimOverLimit(id) {
      forall m | j < m < i ensures !ReactivatesOnly(settings, r.states[m], r.steps[m], id) { LowBalanceNeverReactivates(settings, r, m, id); }
    }
  }

  /** A plan-fee restore that goes through leaves none of the seller's stores on the retention clock. */
  lemma PaidStoresLeaveTheClock(settings: Settings, r: Run, k: nat, id: StoreId)
    requires IsRun(settings, r) && k < |r.steps| && id in r.states[k].t.stores
    requires PaysFee(r.states[k], r.steps[k], r.states[k].t.stores[id])
    ensures id in r.states[k + 1].t.stores && !OnRetentionClock(r.states[k + 1].t.stores[id])
  {
    hide RestoreAfterPlanFeePayment, NextSweeps, NextCalls;
    assert Taken(settings, r, k);
    RestoreOnStore(r.states[k].t, r.states[k].t.stores[id].seller, id);
  }

  /** Such a restore moves a store if and only if it is on the clock by then: one that is stopped and not yet stamped stays stopped. */
  lemma RestoreMovesExactly(settings: Settings, r: Run, k: nat, id: StoreId)
    requires IsRun(settings, r) && k < |r.steps| && id in r.states[k].t.stores
    requires PaysFee(r.states[k], r.steps[k], r.states[k].t.stores[id])
    ensures id in r.states[k + 1].t.stores
    ensures r.states[k + 1].t.stores[id] != r.states[k].t.stores[id] <==> OnRetentionClock(r.states[k].t.stores[id])
  {
    hide RestoreAfterPlanFeePayment, NextSweeps, NextCalls;
    assert Taken(settings, r, k);
    RestoreOnStore(r.states[k].t, r.states[k].t.stores[id].seller, id);
  }

  /**
   * The stamp puts every store of the seller on the clock that is paused as it is written, whatever
   * has been paid since the pause began, and leaves the stamps that are there.
   */
  lemma StampTakesExactly(settings: Settings, r: Run, j: nat, id: StoreId)
    requires IsRun(settings, r) && j < |r.steps| && r.steps[j].StampRow? && id in r.states[j].t.stores && r.states[j].t.stores[id].seller == r.steps[j].seller
    ensures id in r.states[j + 1].t.stores
    ensures OnRetentionClock(r.states[j + 1].t.stores[id]) <==> r.states[j].t.stores[id].status == OrdersPaused
    ensures PausedAt(settings, r, j, id) <==> r.states[j].t.stores[id].status == OrdersPaused && r.states[j].t.stores[id].terminalPausedAt == None
  {
    hide NextSweeps, NextCalls;
    assert Taken(settings, r, j);
  }

  lemma {:induction false} CallOrigin(settings: Settings, r: Run, k: nat, call: CallId) returns (v: nat)
    requires IsRun(settings, r) && k < |r.states| && call in r.states[k].calls
    requires r.states[k].calls[call].CreditVerified? || r.states[k].calls[call].BalanceChecked?
    ensures v < k && r.steps[v] == Verify(call) && IsDeciding(r.states[v], call)
    ensures var t, request := r.states[v].t, r.states[v].calls[call].request;
            && CommitVerification(t, request, r.times[v]).Ok? && t.requests[request].seller == r.states[k].calls[call].seller
            && (r.states[k].calls[call].BalanceChecked? || r.states[k].calls[call].planFee ==> t.requests[request].planFee.Some?)
    decreases k
  {
    hide NextTables, NextSweeps, CommitVerification, CheckAndRestore;
    assert Taken(settings, r, k - 1);
    if r.steps[k - 1] == Verify(call) { v := k - 1; } else { v := CallOrigin(settings, r, k - 1, call); }
  }

  /** Behind each such restore is an earlier commit of the same call that verified a plan fee of the seller. */
  lemma RestoreFollowsPayment(settings: Settings, r: Run, k: nat, s: Store) returns (v: nat)
    requires IsRun(settings, r) && k < |r.steps| && PaysFee(r.states[k], r.steps[k], s)
    ensures v < k && r.steps[v] == Verify(r.steps[k].call) && IsDeciding(r.states[v], r.steps[k].call)
    ensures var t, request := r.states[v].t, r.states[v].calls[r.steps[k].call].request;
            CommitVerification(t, request, r.times[v]).Ok? && IsPlanFeeOf(t.requests[request], s.seller)
  {
    hide CommitVerification, RestoreAfterPlanFeePayment;
    v := CallOrigin(settings, r, k, r.steps[k].call);
  }

  // ---- No unwarned deletion ---------------------------------------------------------------------

  /** Every notice recorded on the store so far was written in time. */
  ghost predicate NoticesInTime(settings: Settings, r: Run, k: nat, id: StoreId)
    requires IsRun(settings, r) && k < |r.states|
  {
    forall j: nat | j < k && Reaches(r.states[j], r.steps[j], id) && id in r.states[j].t.stores ::
      NoticeInTime(settings, r.states[j], r.steps[j], id)
  }

  predicate NoticeInTime(settings: Settings, y: System, step: Step, id: StoreId)
    requires id in y.t.stores && Reaches(y, step, id)
  {
    var w := y.sweeps[step.sweep];
    InTime(w.left[id], y.t.stores[id], w.now, w.kinds, settings.retentionDays)
  }

  ghost predicate FlagsCurrentUpTo(r: Run, k: nat, id: StoreId)
    requires k < |r.states|
  {
    forall m: nat | m <= k && id in r.states[m].t.stores :: FlagsAreCurrent(r.states[m].t.stores[id])
  }

  /** One step keeps a store's flags current, unless it records a notice too late. */
  lemma FlagsStep(settings: Settings, r: Run, k: nat, id: StoreId)
    requires IsRun(settings, r) && k < |r.steps| && id in r.states[k + 1].t.stores
    requires id in r.states[k].t.stores ==> FlagsAreCurrent(r.states[k].t.stores[id])
    ensures FlagsAreCurrent(r.states[k + 1].t.stores[id]) <==>
            (id in r.states[k].t.stores && Reaches(r.states[k], r.steps[k], id) ==> NoticeInTime(settings, r.states[k], r.steps[k], id))
  {
    hide StampsFor, PaysFee, ReactivatesOnly, InTime, NextSweeps, NextCalls;
    assert Taken(settings, r, k);
    var y, step := r.states[k], r.steps[k];
    if id !in y.t.stores {
      NewStores(settings, y, step, r.times[k], id);
    } else if Reaches(y, step, id) {
      var w := y.sweeps[step.sweep];
      NotifyKeepsFlagsExactly(w.left[id], y.t.stores[id], w.now, w.kinds, settings.retentionDays);
    } else {
      hide Next, Enabled, Reaches;
      StoreStep(settings, y, step, r.times[k], id);
    }
  }

  lemma NoticeKeepsStore(settings: Settings, r: Run, k: nat, id: StoreId)
    requires IsRun(settings, r) && k < |r.steps| && id in r.states[k].t.stores && Reaches(r.states[k], r.steps[k], id)
    ensures id in r.states[k + 1].t.stores
  {
    hide NextSweeps, NextCalls, NoticeDue;
    assert Taken(settings, r, k);
  }

  /**
   * In every run, a store's flags have belonged to its current pause episode all along if and
   * only if every notice on it was written in time: only a payment between a sweep's read and
   * its write carries a flag over into the next episode.
   */
  lemma {:induction false} FlagsStayCurrentExactly(settings: Settings, r: Run, k: nat, id: StoreId)
    requires IsRun(settings, r) && k < |r.states|
    ensures FlagsCurrentUpTo(r, k, id) <==> NoticesInTime(settings, r, k, id)
  {
    hide Reaches, NoticeInTime, FlagsAreCurrent;
    if k == 0 {
      if id in r.states[0].t.stores { CleanAtStart(settings, r, id); }
    } else {
      FlagsStayCurrentExactly(settings, r, k - 1, id);
      if id in r.states[k - 1].t.stores && Reaches(r.states[k - 1], r.steps[k - 1], id) { NoticeKeepsStore(settings, r, k - 1, id); }
      if FlagsCurrentUpTo(r, k - 1, id) && id in r.states[k].t.stores { FlagsStep(settings, r, k - 1, id); }
    }
  }

  lemma CleanAtStart(settings: Settings, r: Run, id: StoreId)
    requires IsRun(settings, r) && id in r.states[0].t.stores
    ensures FlagsAreCurrent(r.states[0].t.stores[id])
  {}

  /** Within an episode flags are only added, and by the sweep that reaches the store. */
  lemma FlagsGrow(settings: Settings, r: Run, k: nat, id: StoreId, stamp: int)
    requires IsRun(settings, r) && k < |r.steps| && Stamped(r.states[k], id, stamp) && Stamped(r.states[k + 1], id, stamp)
    ensures var s, s' := r.states[k].t.stores[id], r.states[k + 1].t.stores[id];
            s.sent.Keys <= s'.sent.Keys && (s'.sent != s.sent ==> IsNotified(settings, r.states[k], r.steps[k], id, s, s'))
  {
    hide Next, Enabled, StampsFor, PaysFee, ReactivatesOnly, NoticeDue;
    assert Taken(settings, r, k);
    StoreStep(settings, r.states[k], r.steps[k], r.times[k], id);
  }

  lemma NotifiedNow(settings: Settings, r: Run, k: nat, id: StoreId)
    requires IsRun(settings, r) && k < |r.steps| && id in r.states[k].t.stores && Reaches(r.states[k], r.steps[k], id)
    ensures id in r.states[k + 1].t.stores
    ensures var w := r.states[k].sweeps[r.steps[k].sweep];
            r.states[k + 1].t.stores[id] == Notify(w.left[id], r.states[k].t.stores[id], w.now, w.kinds, settings.retentionDays)
  {
    hide NextSweeps, NextCalls, NoticeDue;
    assert Taken(settings, r, k);
  }

  /** The sweep that started at step w with the store among its rows has still to write on it, or has warned it in full. */
  ghost predicate WarnedBySweep(settings: Settings, r: Run, w: nat, k: nat, id: StoreId, sweep: SweepId)
    requires w < |r.times| && w < k < |r.states|
  {
    && id in r.states[w].t.stores && id in r.states[k].t.stores && sweep in r.states[k].sweeps
    && var row, s := r.states[w].t.stores[id], r.states[k].t.stores[id];
       && row.sent.Keys <= s.sent.Keys
       && match r.states[k].sweeps[sweep]
          case Notices(now, kinds, left) => now == r.times[w] && kinds == WARNINGS && if id in left then left[id] == row else Owed(settings.retentionDays) <= s.sent.Keys
          case Deleting(_, _) => Owed(settings.retentionDays) <= s.sent.Keys
          case _ => false
  }

  /** A notice sweep loses the row of each turn, and turns to the deletions when it has none left. */
  lemma SweepMoves(settings: Settings, y: System, step: Step, at: int, sweep: SweepId)
    requires Enabled(y, step, at) && sweep in y.sweeps && (y.sweeps[sweep].Notices? || y.sweeps[sweep].Deleting?)
    ensures sweep in Next(settings, y, step, at).sweeps
    ensures var w, w' := y.sweeps[sweep], Next(settings, y, step, at).sweeps[sweep];
            || w' == w
            || (w.Notices? && step.NotifyOne? && step.sweep == sweep && step.id in w.left && w' == w.(left := w.left - {step.id}))
            || (w.Notices? && step == QueryExpired(sweep) && w.left == map[] && w'.Deleting?)
  {
    hide NextTables, NextCalls, Candidates;
  }

  lemma WarnedBySweepStep(settings: Settings, r: Run, w: nat, k: nat, id: StoreId, sweep: SweepId, stamp: int)
    requires IsRun(settings, r) && w < k < |r.steps| && WarnedBySweep(settings, r, w, k, id, sweep)
    requires Stamped(r.states[k], id, stamp) && Stamped(r.states[k + 1], id, stamp) && Expired(r.states[w].t.stores[id], r.times[w], settings.retentionDays)
    ensures WarnedBySweep(settings, r, w, k + 1, id, sweep)
  {
    FlagsGrow(settings, r, k, id, stamp);
    assert Taken(settings, r, k);
    hide Next, Enabled, NoticeDue, Expired, Notify, Owed, Initial, Taken;
    SweepMoves(settings, r.states[k], r.steps[k], r.times[k], sweep);
    if r.steps[k] == NotifyOne(sweep, id) && r.states[k].sweeps[sweep].Notices? && id in r.states[k].sweeps[sweep].left {
      NotifiedNow(settings, r, k, id);
      ExpiredIsFullyWarned(r.states[w].t.stores[id], r.states[k].t.stores[id], r.times[w], settings.retentionDays);
    }
  }

  lemma {:induction false} SweepWarns(settings: Settings, r: Run, w: nat, k: nat, id: StoreId, sweep: SweepId, stamp: int)
    requires IsRun(settings, r) && w < k < |r.states| && r.steps[w] == StartNotices(sweep, WARNINGS)
    requires OneEpisode(r, w, k, id, stamp)
    requires id in r.states[w].t.stores && Expired(r.states[w].t.stores[id], r.times[w], settings.retentionDays)
    ensures WarnedBySweep(settings, r, w, k, id, sweep)
    decreases k
  {
    assert Stamped(r.states[k], id, stamp) && Stamped(r.states[k - 1], id, stamp);
    if w + 1 < k {
      hide WarnedBySweep, Expired, IsRun;
      SweepWarns(settings, r, w, k - 1, id, sweep, stamp);
      WarnedBySweepStep(settings, r, w, k - 1, id, sweep, stamp);
    } else {
      assert Taken(settings, r, w);
    }
  }

  /** Step k sends notice `n` about the store. */
  ghost predicate SendsNotice(settings: Settings, r: Run, k: nat, id: StoreId, n: Notice)
    requires IsRun(settings, r) && k < |r.steps|
  {
    && id in r.states[k].t.stores && Reaches(r.states[k], r.steps[k], id)
    && var w := r.states[k].sweeps[r.steps[k].sweep];
       n in w.kinds && NoticeDue(w.left[id], w.now, n, settings.retentionDays)
  }

  /** Step m sends notice `n`, and up to state k the store is neither gone nor taken off the clock by a plan-fee restore. */
  ghost predicate SentSince(settings: Settings, r: Run, m: nat, k: nat, id: StoreId, n: Notice)
    requires IsRun(settings, r) && k < |r.states|
  {
    m < k && SendsNotice(settings, r, m, id, n) && forall x | m < x < k :: id in r.states[x].t.stores && !RestoredAt(r, x, id)
  }

  ghost predicate WasSent(settings: Settings, r: Run, k: nat, id: StoreId, n: Notice)
    requires IsRun(settings, r) && k < |r.states|
  {
    exists m: nat :: SentSince(settings, r, m, k, id, n)
  }

  /** A flag that appears on a store in one step is a notice sent in that step, and only a restore takes flags away. */
  lemma FlagStep(settings: Settings, r: Run, k: nat, id: StoreId, n: Notice)
    requires IsRun(settings, r) && k < |r.steps| && id in r.states[k + 1].t.stores
    ensures n in r.states[k + 1].t.stores[id].sent <==>
            id in r.states[k].t.stores && (SendsNotice(settings, r, k, id, n) || (n in r.states[k].t.stores[id].sent && !RestoredAt(r, k, id)))
  {
    hide StampsFor, PaysFee, ReactivatesOnly, NextSweeps, NextCalls, NoticeDue;
    assert Taken(settings, r, k);
    var y, step := r.states[k], r.steps[k];
    if id !in y.t.stores {
      NewStores(settings, y, step, r.times[k], id);
    } else if Reaches(y, step, id) {
      NotifiedNow(settings, r, k, id);
      assert !RestoredAt(r, k, id) by { NoticeIsNoRestore(r, k, id); }
    } else {
      hide Next, Enabled, Reaches;
      if RestoredAt(r, k, id) { RestoredLosesStamp(settings, r, k, id); }
      StoreStep(settings, y, step, r.times[k], id);
    }
  }

  lemma NoticeIsNoRestore(r: Run, k: nat, id: StoreId)
    requires |r.states| == |r.steps| + 1 && k < |r.steps| && Reaches(r.states[k], r.steps[k], id)
    ensures !RestoredAt(r, k, id)
  {}

  /** In every run a store carries a flag if and only if that notice was sent about it, and no restore has cleared it since. */
  lemma {:induction false} FlagExactly(settings: Settings, r: Run, k: nat, id: StoreId, n: Notice)
    requires IsRun(settings, r) && k < |r.states| && id in r.states[k].t.stores
    ensures n in r.states[k].t.stores[id].sent <==> WasSent(settings, r, k, id, n)
  {
    hide SendsNotice, RestoredAt, WasSent;
    if k > 0 {
      FlagStep(settings, r, k - 1, id, n);
      if id in r.states[k - 1].t.stores { FlagExactly(settings, r, k - 1, id, n); }
      WasSentStep(settings, r, k - 1, id, n);
    } else {
      assert !WasSent(settings, r, 0, id, n) by { NothingSent(settings, r, id, n); }
    }
  }

  lemma NothingSent(settings: Settings, r: Run, id: StoreId, n: Notice)
    requires IsRun(settings, r)
    ensures !WasSent(settings, r, 0, id, n)
  {}

  lemma WasSentStep(settings: Settings, r: Run, k: nat, id: StoreId, n: Notice)
    requires IsRun(settings, r) && k < |r.steps|
    ensures WasSent(settings, r, k + 1, id, n) <==>
            id in r.states[k].t.stores && (SendsNotice(settings, r, k, id, n) || (WasSent(settings, r, k, id, n) && !RestoredAt(r, k, id)))
  {
    hide RestoredAt, Taken;
    var next := k + 1;
    if m: nat :| SentSince(settings, r, m, next, id, n) {
      assert m < k ==> SentSince(settings, r, m, k, id, n);
    }
    if SendsNotice(settings, r, k, id, n) { assert SentSince(settings, r, k, k + 1, id, n); }
    if m: nat :| SentSince(settings, r, m, k, id, n) {
      if id in r.states[k].t.stores && !RestoredAt(r, k, id) { assert SentSince(settings, r, m, k + 1, id, n); }
    }
  }

  /** The store is on the retention clock as step w begins. */
  predicate PausedBefore(r: Run, w: nat, id: StoreId)
    requires w < |r.states|
  {
    id in r.states[w].t.stores && OnRetentionClock(r.states[w].t.stores[id])
  }

  /** The same, in a turn of another sweep. */
  ghost predicate SentByAnother(settings: Settings, r: Run, k: nat, id: StoreId, n: Notice, sweep: SweepId)
    requires IsRun(settings, r) && k < |r.states|
  {
    exists m: nat :: SentSince(settings, r, m, k, id, n) && r.steps[m].sweep != sweep
  }

  /** A sweep sends notices only about the stores that were paused as it started. */
  lemma OwnSweepReadIt(settings: Settings, r: Run, w: nat, i: nat, id: StoreId, n: Notice, sweep: SweepId)
    requires IsRun(settings, r) && w < i < |r.states| && r.steps[w] == StartNotices(sweep, WARNINGS)
    ensures SentByAnother(settings, r, i, id, n, sweep) ==> WasSent(settings, r, i, id, n)
    ensures WasSent(settings, r, i, id, n) ==> PausedBefore(r, w, id) || SentByAnother(settings, r, i, id, n, sweep)
  {
    hide RestoredAt, Taken;
    if m: nat :| SentSince(settings, r, m, i, id, n) {
      if r.steps[m].sweep == sweep {
        var w' := NoticesOrigin(settings, r, m, sweep);
        StartedOnce(settings, r, w, w', sweep);
      }
    }
  }

  /** The stamp a store is deleted on is older than the deleting sweep, and has stood since that began. */
  lemma DeletedEpisode(settings: Settings, r: Run, i: nat, id: StoreId) returns (w: nat, stamp: int)
    requires IsRun(settings, r) && i < |r.steps| && Deletes(r, i, id) && settings.retentionDays >= 1
    ensures w < i && r.steps[i].DeleteOne? && r.steps[w] == StartNotices(r.steps[i].sweep, WARNINGS)
    ensures r.states[i].t.stores[id].terminalPausedAt == Some(stamp) && OneEpisode(r, w, i, id, stamp)
    ensures stamp + settings.retentionDays * DAY_MS <= r.times[w]
  {
    hide Next, PaysFee, ReactivatesOnly, PastGrace, KeepsStamp, StampsFor, HasActive, StopsSeller, PausedAt;
    var a, p, j;
    a, p, j, w := DeletionTiming(settings, r, i, id);
    stamp := r.times[j];
    if w <= j { ClockRises(settings, r, w, j + 1); ClockIsTime(settings, r, j); }
    assert OneEpisode(r, w, i, id, stamp);
    assert Stamped(r.states[i], id, stamp);
  }

  lemma WarnedIfReadPaused(settings: Settings, r: Run, w: nat, i: nat, id: StoreId, stamp: int)
    requires IsRun(settings, r) && w < i < |r.steps| && r.steps[i].DeleteOne? && r.steps[w] == StartNotices(r.steps[i].sweep, WARNINGS)
    requires OneEpisode(r, w, i, id, stamp) && stamp + settings.retentionDays * DAY_MS <= r.times[w] && PausedBefore(r, w, id)
    ensures id in r.states[i].t.stores && Owed(settings.retentionDays) <= r.states[i].t.stores[id].sent.Keys
  {
    assert Stamped(r.states[w], id, stamp);
    assert Expired(r.states[w].t.stores[id], r.times[w], settings.retentionDays);
    hide Next, Expired, Owed;
    SweepWarns(settings, r, w, i, id, r.steps[i].sweep, stamp);
    assert Taken(settings, r, i);
  }

  /**
   * What a store has been warned of when it is deleted (step i): of everything the retention
   * window leaves room for, if it was paused as its sweep read the paused stores (step w).
   * Otherwise that sweep passed it over, and it carries a warning exactly when another sweep's
   * turn sent it and no plan-fee restore has cleared it since. Its flags belong to the episode it
   * is deleted for if every notice on it was written in time.
   */
  lemma DeletedStoreWasWarned(settings: Settings, r: Run, i: nat, id: StoreId) returns (w: nat)
    requires IsRun(settings, r) && i < |r.steps| && Deletes(r, i, id) && settings.retentionDays >= 1
    ensures w < i && r.steps[i].DeleteOne? && r.steps[w] == StartNotices(r.steps[i].sweep, WARNINGS)
    ensures var s := r.states[i].t.stores[id]; s.terminalPausedAt.Some? && OneEpisode(r, w, i, id, s.terminalPausedAt.value)
    ensures PausedBefore(r, w, id) ==> Owed(settings.retentionDays) <= r.states[i].t.stores[id].sent.Keys
    ensures NoticesInTime(settings, r, i, id) ==> FlagsAreCurrent(r.states[i].t.stores[id])
    ensures forall n | n in Owed(settings.retentionDays) ::
              n in r.states[i].t.stores[id].sent <==> PausedBefore(r, w, id) || SentByAnother(settings, r, i, id, n, r.steps[i].sweep)
  {
    var stamp;
    w, stamp := DeletedEpisode(settings, r, i, id);
    hide Taken, Initial, WasSent, SentByAnother, PausedBefore, OneEpisode, NoticesInTime, FlagsAreCurrent, Owed;
    if PausedBefore(r, w, id) { WarnedIfReadPaused(settings, r, w, i, id, stamp); }
    FlagsStayCurrentExactly(settings, r, i, id);
    forall n | n in Owed(settings.retentionDays)
      ensures n in r.states[i].t.stores[id].sent <==> PausedBefore(r, w, id) || SentByAnother(settings, r, i, id, n, r.steps[i].sweep)
    {
      FlagExactly(settings, r, i, id, n);
      OwnSweepReadIt(settings, r, w, i, id, n, r.steps[i].sweep);
    }
  }

  lemma {:induction false} FlagsKept(settings: Settings, r: Run, j: nat, k: nat, id: StoreId, stamp: int)
    requires IsRun(settings, r) && j <= k < |r.states| && OneEpisode(r, j, k, id, stamp)
    ensures id in r.states[j].t.stores && id in r.states[k].t.stores && r.states[j].t.stores[id].sent.Keys <= r.states[k].t.stores[id].sent.Keys
    decreases k
  {
    hide Taken, Initial;
    assert Stamped(r.states[k], id, stamp);
    if j < k {
      assert Stamped(r.states[k - 1], id, stamp);
      FlagsKept(settings, r, j, k - 1, id, stamp);
      FlagsGrow(settings, r, k - 1, id, stamp);
    }
  }

  /**
   * The last chance comes before the end: when a warnings sweep begins (step w) in the last day
   * before a paused store expires, its turn on the store (step m) leaves the final warning on it
   * until the store is deleted (step i), which only a later sweep can do.
   */
  lemma FinalWarningComesFirst(settings: Settings, r: Run, w: nat, m: nat, i: nat, id: StoreId, stamp: int)
    requires IsRun(settings, r) && w < m < i < |r.steps| && Deletes(r, i, id) && OneEpisode(r, w, i, id, stamp)
    requires r.steps[w].StartNotices? && r.steps[w].kinds == WARNINGS && r.steps[m] == NotifyOne(r.steps[w].sweep, id)
    requires r.states[w].t.stores[id].status == OrdersPaused
    requires stamp + Max(settings.retentionDays - 1, 0) * DAY_MS <= r.times[w] < stamp + settings.retentionDays * DAY_MS
    ensures forall k | m < k <= i :: id in r.states[k].t.stores && Warning13 in r.states[k].t.stores[id].sent
    ensures r.steps[i].DeleteOne? && r.steps[i].sweep != r.steps[w].sweep
  {
    hide Next, OneActivePerSeller;
    var sweep := r.steps[w].sweep;
    assert Stamped(r.states[w], id, stamp) && Stamped(r.states[m], id, stamp) && Stamped(r.states[i], id, stamp);
    assert Taken(settings, r, m);
    var w' := NoticesOrigin(settings, r, m, sweep);
    StartedOnce(settings, r, w, w', sweep);
    hide IsRun;
    FlagsKept(settings, r, w, m, id, stamp);
    NotifiedNow(settings, r, m, id);
    FinalWarningOnLastDay(r.states[w].t.stores[id], r.states[m].t.stores[id], r.times[w], settings.retentionDays);
    forall k | m < k <= i ensures id in r.states[k].t.stores && Warning13 in r.states[k].t.stores[id].sent {
      FlagsKept(settings, r, m + 1, k, id, stamp);
    }
    LaterSweepDeletes(settings, r, w, i, id, stamp);
  }

  lemma LaterSweepDeletes(settings: Settings, r: Run, w: nat, i: nat, id: StoreId, stamp: int)
    requires IsRun(settings, r) && w < i < |r.steps| && Deletes(r, i, id) && Stamped(r.states[i], id, stamp)
    requires r.steps[w].StartNotices? && r.times[w] < stamp + settings.retentionDays * DAY_MS
    ensures r.steps[i].DeleteOne? && r.steps[i].sweep != r.steps[w].sweep
  {
    hide Next, PaysFee, ReactivatesOnly, PastGrace, KeepsStamp, StampsFor, HasActive, StopsSeller, PausedAt;
    var a, p, j, w' := DeletionTiming(settings, r, i, id);
    assert Stamped(r.states[i], id, r.times[j]);
    if r.steps[i].sweep == r.steps[w].sweep { StartedOnce(settings, r, w, w', r.steps[w].sweep); }
  }

  // ---- Each notice once per episode --------------------------------------------------------------

  lemma SendingSetsFlag(settings: Settings, r: Run, k: nat, id: StoreId, n: Notice)
    requires IsRun(settings, r) && k < |r.steps| && SendsNotice(settings, r, k, id, n)
    ensures n !in r.states[k].sweeps[r.steps[k].sweep].left[id].sent
    ensures id in r.states[k + 1].t.stores && n in r.states[k + 1].t.stores[id].sent
  {
    NotifiedNow(settings, r, k, id);
  }

  lemma {:induction false} FlagStays(settings: Settings, r: Run, i: nat, k: nat, id: StoreId, n: Notice)
    requires IsRun(settings, r) && i <= k < |r.states|
    requires forall m | i <= m <= k :: id in r.states[m].t.stores
    requires n in r.states[i].t.stores[id].sent
    requires forall m | i <= m < k :: !PaysFee(r.states[m], r.steps[m], r.states[m].t.stores[id])
    ensures n in r.states[k].t.stores[id].sent
    decreases k
  {
    hide Next, Enabled, StampsFor, PaysFee, ReactivatesOnly, NoticeDue;
    if i < k {
      FlagStays(settings, r, i, k - 1, id, n);
      assert Taken(settings, r, k - 1);
      assert id in r.states[k - 1].t.stores && id in r.states[k].t.stores;
      StoreStep(settings, r.states[k - 1], r.steps[k - 1], r.times[k - 1], id);
    }
  }

  /**
   * After step i has sent the notice, and until a payment, a later turn j of a sweep that started
   * at step w sends it again if and only if that sweep had read its rows by step i, when the
   * notice was due and not yet sent.
   */
  lemma SentAgainExactly(settings: Settings, r: Run, i: nat, j: nat, w: nat, id: StoreId, n: Notice)
    requires IsRun(settings, r) && i < j < |r.steps| && SendsNotice(settings, r, i, id, n)
    requires forall k | i <= k <= j :: id in r.states[k].t.stores
    requires Reaches(r.states[j], r.steps[j], id) && w < j && r.steps[w].StartNotices? && r.steps[w].sweep == r.steps[j].sweep
    requires forall m | i < m < w :: !PaysFee(r.states[m], r.steps[m], r.states[m].t.stores[id])
    ensures id in r.states[w].t.stores
    ensures SendsNotice(settings, r, j, id, n) <==>
            w <= i && n in r.steps[w].kinds && NoticeDue(r.states[w].t.stores[id], r.times[w], n, settings.retentionDays)
  {
    hide Next, Enabled, StampsFor, PaysFee, ReactivatesOnly, NoticeDue;
    var w' := NoticesOrigin(settings, r, j, r.steps[j].sweep);
    StartedOnce(settings, r, w, w', r.steps[j].sweep);
    if i < w {
      SendingSetsFlag(settings, r, i, id, n);
      FlagStays(settings, r, i + 1, w, id, n);
      NotDueOnceSent(r.states[w].t.stores[id], r.times[w], n, settings.retentionDays);
    }
  }

  lemma NotDueOnceSent(s: Store, now: int, n: Notice, retentionDays: nat)
    requires n in s.sent
    ensures !NoticeDue(s, now, n, retentionDays)
  {}

  lemma {:induction false} SweepStays(settings: Settings, r: Run, w: nat, k: nat, sweep: SweepId)
    requires IsRun(settings, r) && w < k < |r.states| && r.steps[w].StartNotices? && r.steps[w].sweep == sweep
    ensures sweep in r.states[k].sweeps
    decreases k
  {
    hide NextTables, NextCalls;
    assert Taken(settings, r, k - 1);
    if w < k - 1 { SweepStays(settings, r, w, k - 1, sweep); }
  }

  /** A sweep's id is given to it once. */
  lemma StartedOnce(settings: Settings, r: Run, w: nat, w': nat, sweep: SweepId)
    requires IsRun(settings, r) && w < |r.steps| && w' < |r.steps| && r.steps[w].StartNotices? && r.steps[w'].StartNotices?
    requires r.steps[w].sweep == r.steps[w'].sweep == sweep
    ensures w == w'
  {
    assert Taken(settings, r, w) && Taken(settings, r, w');
    if w < w' { SweepStays(settings, r, w, w', sweep); }
    if w' < w { SweepStays(settings, r, w', w, sweep); }
  }

  // ---- The deletion re-check against a racing payment ---------------------------------------------

  lemma {:induction false} NewStampIsLate(settings: Settings, r: Run, m: nat, k: nat, id: StoreId, stamp: int)
    requires IsRun(settings, r) && m <= k < |r.states| && Stamped(r.states[k], id, stamp)
    requires forall earlier :: !Stamped(r.states[m], id, earlier)
    ensures r.states[m].clock <= stamp
    decreases k
  {
    var already := Stamped(r.states[m], id, stamp);
    var j := StampOrigin(settings, r, k, id, stamp);
    assert j < m ==> already;
    ClockRises(settings, r, m, j);
    assert Taken(settings, r, j);
  }

  /** Whatever stamp the query saw, a store that has carried none since is not deleted on it: the window is at least a day. */
  lemma LostStampDefeatsDeletion(settings: Settings, r: Run, q: nat, m: nat, i: nat, id: StoreId)
    requires IsRun(settings, r) && q < m <= i < |r.steps| && settings.retentionDays >= 1
    requires r.steps[q].QueryExpired? && r.steps[i] == DeleteOne(r.steps[q].sweep, id)
    requires forall earlier :: !Stamped(r.states[m], id, earlier)
    requires id in r.states[i].t.stores
    ensures id in r.states[i + 1].t.stores
  {
    hide Next, StampsFor, PaysFee, ReactivatesOnly, KeepsStamp;
    assert Taken(settings, r, i);
    StoreStep(settings, r.states[i], r.steps[i], r.times[i], id);
    if id !in r.states[i + 1].t.stores {
      var sweep := r.steps[i].sweep;
      var stamp := r.states[i].t.stores[id].terminalPausedAt.value;
      NewStampIsLate(settings, r, m, i, id, stamp);
      var w := QueriedOnce(settings, r, q, i, sweep);
      ClockRises(settings, r, w, q);
      ClockRises(settings, r, q, m);
      assert false;
    }
  }

  /**
   * A restore that commits anywhere between the sweep's query (step q) and its re-check (step i)
   * saves the store, even if it is paused again before the re-check: the new stamp is later than
   * any stamp the query could have seen.
   */
  lemma RestoreDefeatsDeletion(settings: Settings, r: Run, q: nat, m: nat, i: nat, id: StoreId)
    requires IsRun(settings, r) && q < m <= i < |r.steps| && settings.retentionDays >= 1
    requires r.steps[q].QueryExpired? && r.steps[i] == DeleteOne(r.steps[q].sweep, id)
    requires id in r.states[m].t.stores && r.states[m].t.stores[id].terminalPausedAt == None
    requires id in r.states[i].t.stores
    ensures id in r.states[i + 1].t.stores
  {
    LostStampDefeatsDeletion(settings, r, q, m, i, id);
  }

  /** Step m is a plan-fee restore that takes the store off the retention clock. */
  ghost predicate RestoredAt(r: Run, m: nat, id: StoreId)
    requires |r.states| == |r.steps| + 1 && m < |r.steps|
  {
    id in r.states[m].t.stores && OnRetentionClock(r.states[m].t.stores[id]) && PaysFee(r.states[m], r.steps[m], r.states[m].t.stores[id])
  }

  lemma RestoredLosesStamp(settings: Settings, r: Run, m: nat, id: StoreId)
    requires IsRun(settings, r) && m < |r.steps| && RestoredAt(r, m, id)
    ensures id in r.states[m + 1].t.stores && r.states[m + 1].t.stores[id].terminalPausedAt == None
  {
    hide RestoreAfterPlanFeePayment, NextSweeps, NextCalls;
    assert Taken(settings, r, m);
    RestoreOnStore(r.states[m].t, r.states[m].t.stores[id].seller, id);
  }

  lemma {:induction false} StampKept(settings: Settings, r: Run, q: nat, k: nat, id: StoreId, stamp: int)
    requires IsRun(settings, r) && q <= k < |r.states| && Stamped(r.states[q], id, stamp)
    requires forall m | q <= m <= k :: id in r.states[m].t.stores
    requires forall m | q <= m < k :: !RestoredAt(r, m, id)
    ensures Stamped(r.states[k], id, stamp)
    decreases k
  {
    hide Next, Enabled, StampsFor, PaysFee, ReactivatesOnly;
    if q < k {
      StampKept(settings, r, q, k - 1, id, stamp);
      assert Taken(settings, r, k - 1);
      assert id in r.states[k - 1].t.stores && id in r.states[k].t.stores && !RestoredAt(r, k - 1, id);
      StoreStep(settings, r.states[k - 1], r.steps[k - 1], r.times[k - 1], id);
    }
  }

  /**
   * A re-check (step i) of a store its sweep found expired (step q) deletes it if and only if the
   * store is paused at that moment and no plan-fee restore has taken it off the clock since the
   * query. A fee that is verified and not yet carried through to the restore does not count.
   */
  lemma DeletedExactly(settings: Settings, r: Run, q: nat, i: nat, id: StoreId)
    requires IsRun(settings, r) && q < i < |r.steps| && settings.retentionDays >= 1
    requires r.steps[q].QueryExpired? && r.steps[i] == DeleteOne(r.steps[q].sweep, id)
    ensures Deletes(r, i, id) <==>
            && id in r.states[i].t.stores && r.states[i].t.stores[id].status == OrdersPaused
            && forall m | q <= m < i :: id in r.states[m].t.stores && !RestoredAt(r, m, id)
  {
    var stamp := QueriedStamp(settings, r, q, i, id);
    hide RestoredAt, Taken, Initial;
    if Deletes(r, i, id) {
      DeletedIsEligible(settings, r, i, id);
      forall m | q <= m < i ensures id in r.states[m].t.stores && !RestoredAt(r, m, id) { StampNotLost(settings, r, q, m, i, id); }
    } else if id in r.states[i].t.stores && r.states[i].t.stores[id].status == OrdersPaused
      && forall m | q <= m < i :: id in r.states[m].t.stores && !RestoredAt(r, m, id)
    {
      StampKept(settings, r, q, i, id, stamp);
      EligibleIsDeleted(settings, r, i, id, stamp);
    }
  }

  lemma QueriedStamp(settings: Settings, r: Run, q: nat, i: nat, id: StoreId) returns (stamp: int)
    requires IsRun(settings, r) && q < i < |r.steps| && r.steps[q].QueryExpired? && r.steps[i] == DeleteOne(r.steps[q].sweep, id)
    ensures Stamped(r.states[q], id, stamp) && r.steps[q].sweep in r.states[i].sweeps
    ensures r.states[i].sweeps[r.steps[q].sweep].Deleting? && id in r.states[i].sweeps[r.steps[q].sweep].stamps
    ensures r.states[i].sweeps[r.steps[q].sweep].stamps[id] == stamp
  {
    assert Taken(settings, r, i);
    hide Next;
    var w := QueriedOnce(settings, r, q, i, r.steps[q].sweep);
    stamp := r.states[i].sweeps[r.steps[q].sweep].stamps[id];
  }

  /** A store that is deleted on what the query saw has been there, and has not been restored, since. */
  lemma StampNotLost(settings: Settings, r: Run, q: nat, m: nat, i: nat, id: StoreId)
    requires IsRun(settings, r) && q <= m < i < |r.steps| && settings.retentionDays >= 1 && Deletes(r, i, id)
    requires r.steps[q].QueryExpired? && r.steps[i] == DeleteOne(r.steps[q].sweep, id)
    ensures id in r.states[m].t.stores && !RestoredAt(r, m, id)
  {
    hide RestoredAt, Taken, Initial;
    if id !in r.states[m].t.stores {
      if m == q { var stamp := QueriedStamp(settings, r, q, i, id); } else { LostStampDefeatsDeletion(settings, r, q, m, i, id); }
    } else if RestoredAt(r, m, id) {
      RestoredLosesStamp(settings, r, m, id);
      LostStampDefeatsDeletion(settings, r, q, m + 1, i, id);
    }
  }

  lemma DeletedIsEligible(settings: Settings, r: Run, i: nat, id: StoreId)
    requires IsRun(settings, r) && i < |r.steps| && Deletes(r, i, id)
    ensures r.states[i].t.stores[id].status == OrdersPaused
  {
    hide Next, StampsFor, PaysFee, ReactivatesOnly, KeepsStamp;
    assert Taken(settings, r, i);
    StoreStep(settings, r.states[i], r.steps[i], r.times[i], id);
  }

  lemma EligibleIsDeleted(settings: Settings, r: Run, i: nat, id: StoreId, stamp: int)
    requires IsRun(settings, r) && i < |r.steps| && r.steps[i].DeleteOne? && r.steps[i].id == id && Stamped(r.states[i], id, stamp)
    requires r.states[i].t.stores[id].status == OrdersPaused && r.steps[i].sweep in r.states[i].sweeps
    requires r.states[i].sweeps[r.steps[i].sweep].Deleting? && id in r.states[i].sweeps[r.steps[i].sweep].stamps
    requires r.states[i].sweeps[r.steps[i].sweep].stamps[id] == stamp
    ensures Deletes(r, i, id)
  {
    hide NextSweeps, NextCalls;
    assert Taken(settings, r, i);
  }

  /** A sweep queries once: what it deletes from is what it read at step q. */
  lemma {:induction false} QueriedOnce(settings: Settings, r: Run, q: nat, k: nat, sweep: SweepId) returns (w: nat)
    requires IsRun(settings, r) && q < k < |r.states| && r.steps[q] == QueryExpired(sweep)
    ensures w < q && r.steps[w] == StartNotices(sweep, WARNINGS) && sweep in r.states[k].sweeps
    ensures r.states[k].sweeps[sweep] == Deleting(r.times[w], Candidates(r.states[q].t.stores, r.times[w], settings.retentionDays))
    decreases k
  {
    hide NextTables, NextCalls, Candidates;
    assert Taken(settings, r, k - 1);
    if q + 1 == k {
      w := NoticesOrigin(settings, r, q, sweep);
    } else {
      w := QueriedOnce(settings, r, q, k - 1, sweep);
    }
  }

  // ---- The low-balance ladder -----------------------------------------------------------------------

  lemma LadderThroughRestores(settings: Settings, t: Tables, seller: SellerId, visited: SellerId)
    ensures var sellers := CheckAndRestore(settings, t, visited).0.sellers;
            seller in sellers ==> sellers[seller] == Ladder(None, None) || (seller in t.sellers && sellers[seller] == t.sellers[seller])
    ensures RestoreAfterPlanFeePayment(t, visited).0.sellers == t.sellers
  {
    hide OneActivePerSeller, Reactivate, Restore, Balance;
  }

  /** The step is a turn of the low-balance sweep that warns the seller, at the sweep's start `now`. */
  predicate WarnsSeller(y: System, step: Step, seller: SellerId, now: int) {
    step.LadderRow? && step.seller == seller && step.sweep in y.sweeps && y.sweeps[step.sweep].LadderRows? && y.sweeps[step.sweep].now == now
  }

  /** A seller's warning columns are cleared together, kept, or set together, at `now`. */
  predicate LadderMoves(settings: Settings, t: Tables, t': Tables, seller: SellerId, warned: Option<int>) {
    seller in t'.sellers ==>
      || t'.sellers[seller] == Ladder(None, None)
      || (seller in t.sellers && t'.sellers[seller] == t.sellers[seller])
      || (warned.Some? && t'.sellers[seller] == Ladder(warned, Some(warned.value + settings.walletGraceDays * DAY_MS)))
  }

  lemma TurnMovesLadder(settings: Settings, t: Tables, visited: SellerId, row: Ladder, now: int, seller: SellerId)
    ensures LadderMoves(settings, t, LadderVisit(settings, t, visited, row, now).0, seller, if visited == seller then Some(now) else None)
  {
    hide LadderVisit, CheckAndRestore, PauseActive;
    LadderTurns(settings, t, visited, row, now);
    LadderThroughRestores(settings, t, seller, visited);
  }

  lemma RestoringMovesLadder(settings: Settings, y: System, step: Step, at: int, seller: SellerId)
    requires Enabled(y, step, at) && Restoring(step)
    ensures LadderMoves(settings, y.t, Next(settings, y, step, at).t, seller, None)
  {
    hide CheckAndRestore, RestoreAfterPlanFeePayment, NextSweeps, NextCalls;
    LadderThroughRestores(settings, y.t, seller, y.calls[step.call].seller);
  }

  lemma VerifyKeepsLadder(settings: Settings, y: System, step: Step, at: int)
    requires Enabled(y, step, at) && (step.Verify? || step.GatewayVerify?)
    ensures Next(settings, y, step, at).t.sellers == y.t.sellers
  {
    hide CommitVerification, NextSweeps, NextCalls;
    var request := y.calls[step.call].request;
    if CommitVerification(y.t, request, at).Ok? { CommitEffect(y.t, request, at); }
  }

  lemma OtherStepKeepsLadder(settings: Settings, y: System, step: Step, at: int)
    requires Enabled(y, step, at) && !step.Verify? && !step.GatewayVerify? && !Restoring(step) && !step.LadderRow? && !OnStores(step)
    ensures Next(settings, y, step, at).t.sellers == y.t.sellers
  {
    hide NextSweeps, NextCalls, PauseActive, Exempt, PastGrace, ReminderDue, Balance, HasActive, AddInterval;
  }

  /** So a warning is set by a turn of the sweep, and only so. */
  lemma LadderStep(settings: Settings, y: System, step: Step, at: int, seller: SellerId)
    requires Enabled(y, step, at) && seller in Next(settings, y, step, at).t.sellers
    ensures var ladder := Next(settings, y, step, at).t.sellers[seller];
            || ladder == Ladder(None, None)
            || (seller in y.t.sellers && ladder == y.t.sellers[seller])
            || (ladder.warnedAt.Some? && WarnsSeller(y, step, seller, ladder.warnedAt.value)
                && ladder == Ladder(ladder.warnedAt, Some(ladder.warnedAt.value + settings.walletGraceDays * DAY_MS)))
  {
    if step.LadderRow? {
      hide LadderVisit, NextSweeps, NextCalls;
      var w := y.sweeps[step.sweep];
      TurnMovesLadder(settings, y.t, step.seller, w.unvisited[step.seller], w.now, seller);
    } else {
      hide Next, Enabled;
      if step.Verify? || step.GatewayVerify? { VerifyKeepsLadder(settings, y, step, at); }
      else if Restoring(step) { RestoringMovesLadder(settings, y, step, at, seller); }
      else if OnStores(step) { StoreUpdateOnly(settings, y, step, at); }
      else { OtherStepKeepsLadder(settings, y, step, at); }
    }
  }

  /** A warning that stands was given by an earlier turn of a sweep, which also set the end of the grace. */
  lemma {:induction false} LadderOrigin(settings: Settings, r: Run, k: nat, seller: SellerId) returns (j: nat)
    requires IsRun(settings, r) && k < |r.states| && seller in r.states[k].t.sellers && r.states[k].t.sellers[seller] != Ladder(None, None)
    requires forall s | s in r.states[0].t.sellers :: r.states[0].t.sellers[s] == Ladder(None, None)
    ensures r.states[k].t.sellers[seller].warnedAt.Some?
    ensures var now := r.states[k].t.sellers[seller].warnedAt.value;
            && j < k && WarnsSeller(r.states[j], r.steps[j], seller, now)
            && r.states[k].t.sellers[seller] == Ladder(Some(now), Some(now + settings.walletGraceDays * DAY_MS))
    decreases k
  {
    hide Next, Enabled, WarnsSeller;
    assert Taken(settings, r, k - 1);
    LadderStep(settings, r.states[k - 1], r.steps[k - 1], r.times[k - 1], seller);
    if seller in r.states[k - 1].t.sellers && r.states[k].t.sellers[seller] == r.states[k - 1].t.sellers[seller] {
      j := LadderOrigin(settings, r, k - 1, seller);
    } else {
      j := k - 1;
    }
  }

  /** A low-balance sweep's remaining rows are the sellers as they were when it started. */
  lemma {:induction false} LadderRowsOrigin(settings: Settings, r: Run, k: nat, sweep: SweepId) returns (w: nat)
    requires IsRun(settings, r) && k < |r.states| && sweep in r.states[k].sweeps && r.states[k].sweeps[sweep].LadderRows?
    ensures w < k && r.steps[w] == StartLadderSweep(sweep) && r.states[k].sweeps[sweep].now == r.times[w]
    ensures forall seller | seller in r.states[k].sweeps[sweep].unvisited ::
              seller in r.states[w].t.sellers && r.states[k].sweeps[sweep].unvisited[seller] == r.states[w].t.sellers[seller]
    decreases k
  {
    hide NextTables, NextCalls;
    assert k > 0 && Taken(settings, r, k - 1);
    if r.steps[k - 1] == StartLadderSweep(sweep) { w := k - 1; } else { w := LadderRowsOrigin(settings, r, k - 1, sweep); }
  }

  /**
   * In every run a low-balance sweep pauses a selling seller who is not below the floor only if a
   * turn that came before the sweep's start warned that seller, a full grace window before it:
   * however old the row is that the sweep acts on.
   */
  lemma PausedOnlyAfterGrace(settings: Settings, r: Run, k: nat) returns (j: nat, w: nat)
    requires IsRun(settings, r) && k < |r.steps| && r.steps[k].LadderRow?
    requires forall s | s in r.states[0].t.sellers :: r.states[0].t.sellers[s] == Ladder(None, None)
    requires HasActive(r.states[k].t.stores, r.steps[k].seller) && !HasActive(r.states[k + 1].t.stores, r.steps[k].seller)
    requires Balance(r.states[k].t, r.steps[k].seller) >= settings.negativeFloor
    ensures j < w < k && r.steps[w] == StartLadderSweep(r.steps[k].sweep)
    ensures r.steps[j].LadderRow? && r.steps[j].sweep in r.states[j].sweeps && r.states[j].sweeps[r.steps[j].sweep].LadderRows?
    ensures WarnsSeller(r.states[j], r.steps[j], r.steps[k].seller, r.states[j].sweeps[r.steps[j].sweep].now)
    ensures r.states[j].sweeps[r.steps[j].sweep].now + settings.walletGraceDays * DAY_MS <= r.times[w]
  {
    assert Taken(settings, r, k);
    var y, step := r.states[k], r.steps[k];
    var row := y.sweeps[step.sweep].unvisited[step.seller];
    LadderPausesExactly(settings, y.t, step.seller, row, y.sweeps[step.sweep].now);
    hide LadderVisit, NextSweeps, NextCalls, HasActive;
    w := LadderRowsOrigin(settings, r, k, step.sweep);
    j := LadderOrigin(settings, r, w, step.seller);
  }
}
