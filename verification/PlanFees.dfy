/**
 * wallet.service.ts, wallet.controller.ts, plan-fee-debit.service.ts and
 * renewal-reminders.service.ts: how a seller's plan fee falls due, is paid and is verified.
 */
module PlanFees {
  import opened Common
  import opened Calendar
  import opened BillingTables
  import opened GraceLadder

  // ---- Requests ---------------------------------------------------------------------------

  predicate IsPlanFeeOf(r: Request, seller: SellerId) { r.seller == seller && r.planFee.Some? }

  predicate HasPending(t: Tables, seller: SellerId) {
    exists id | id in t.requests :: IsPlanFeeOf(t.requests[id], seller) && t.requests[id].status.Pending?
  }

  /** Some plan-fee request of the seller, other than `except`, has been verified. */
  predicate PaidBefore(t: Tables, seller: SellerId, except: Option<RequestId>) {
    exists id | id in t.requests :: IsPlanFeeOf(t.requests[id], seller) && t.requests[id].status.Verified? && except != Some(id)
  }

  /** Whether a first payment is let through: a renewal always is. */
  predicate MayPay(settings: Settings, t: Tables, seller: SellerId) {
    !HasPending(t, seller) && seller in t.subscriptions && (PaidBefore(t, seller, None) || !settings.newSubscriptionsPaused)
  }

  function InsertRequest(t: Tables, id: RequestId, seller: SellerId, amountDue: nat): Tables {
    t.(requests := t.requests[id := Request(seller, 0, Some(amountDue), Pending)])
  }

  /** `requestPlanFeePayment` without a gateway reference; `amountDue` is the computed price. */
  function RequestPlanFee(settings: Settings, t: Tables, id: RequestId, seller: SellerId, amountDue: nat): Result<Tables, Failure> {
    if HasPending(t, seller) then Err(AlreadyPending)
    else if seller !in t.subscriptions then Err(NoSubscription)
    else if !PaidBefore(t, seller, None) && settings.newSubscriptionsPaused then Err(SubscriptionsPaused)
    else Ok(InsertRequest(t, id, seller, amountDue))
  }

  /**
   * A plan-fee request is refused, in this order, while another of the seller's is pending, without
   * a subscription, and before the first verified payment if new subscriptions are paused. One that
   * is not refused is inserted as pending, with the fee and no credit, and nothing else changes.
   */
  lemma RequestRefusedExactly(settings: Settings, t: Tables, id: RequestId, seller: SellerId, amountDue: nat)
    ensures var r := RequestPlanFee(settings, t, id, seller, amountDue);
            var pending := exists other | other in t.requests :: t.requests[other].seller == seller && t.requests[other].planFee.Some? && t.requests[other].status == Pending;
            var paid := exists other | other in t.requests :: t.requests[other].seller == seller && t.requests[other].planFee.Some? && t.requests[other].status.Verified?;
            && (r == Err(AlreadyPending) <==> pending)
            && (r == Err(NoSubscription) <==> !pending && seller !in t.subscriptions)
            && (r == Err(SubscriptionsPaused) <==> !pending && seller in t.subscriptions && !paid && settings.newSubscriptionsPaused)
            && (r.Ok? <==> !pending && seller in t.subscriptions && (paid || !settings.newSubscriptionsPaused))
            && (r.Ok? ==> r.value == t.(requests := t.requests[id := Request(seller, 0, Some(amountDue), Pending)]))
  {}

  lemma MayPayExactly(settings: Settings, t: Tables, id: RequestId, seller: SellerId, amountDue: nat)
    ensures RequestPlanFee(settings, t, id, seller, amountDue).Ok? <==> MayPay(settings, t, seller)
  {}

  function RequestTopUp(t: Tables, id: RequestId, seller: SellerId, amount: nat): Tables {
    t.(requests := t.requests[id := Request(seller, amount, None, Pending)])
  }

  function RejectTopUp(t: Tables, id: RequestId, at: int): Result<Tables, Failure> {
    if id !in t.requests then Err(NotFound)
    else if !t.requests[id].status.Pending? then Err(AlreadyResolved)
    else Ok(t.(requests := t.requests[id := t.requests[id].(status := Rejected(at))]))
  }

  // ---- Verification -----------------------------------------------------------------------

  function Payments(t: Tables, seller: SellerId): seq<int> {
    if seller in t.payments then t.payments[seller] else []
  }

  /** The subscription after a verified payment at `at`: a first one starts from `at`, a later one stacks. */
  function Advanced(s: Subscription, renewal: bool, at: int): Subscription
    requires renewal ==> s.periodEnd.Some?
  {
    s.(periodEnd := Some(AddInterval(if renewal then s.periodEnd.value else at, s.interval)), sent := map[])
  }

  /**
   * The verifying transaction, which does not look at the request's status again; an exception
   * inside it rolls everything back.
   */
  function CommitVerification(t: Tables, id: RequestId, at: int): Result<Tables, Failure>
    requires id in t.requests
  {
    var r := t.requests[id];
    var resolved := t.(
      requests := t.requests[id := r.(status := Verified(at))],
      balances := if r.amount > 0 then t.balances[r.seller := Balance(t, r.seller) + r.amount] else t.balances);
    if r.planFee.None? || r.planFee.value == 0 then Ok(resolved)
    else
      var renewal := PaidBefore(t, r.seller, Some(id));
      if r.seller !in t.subscriptions || (renewal && t.subscriptions[r.seller].periodEnd.None?) then Err(NoSubscription)
      else Ok(resolved.(
        subscriptions := t.subscriptions[r.seller := Advanced(t.subscriptions[r.seller], renewal, at)],
        payments := t.payments[r.seller := Payments(t, r.seller) + [at]]))
  }

  /** `verifyTopUp` with nothing between its look at the request and its transaction. */
  function VerifyTopUp(t: Tables, id: RequestId, at: int): Result<Tables, Failure> {
    if id !in t.requests then Err(NotFound)
    else if !t.requests[id].status.Pending? then Err(AlreadyResolved)
    else CommitVerification(t, id, at)
  }

  /**
   * The admin's verify action: the transaction, then the balance check's restore, then the
   * plan-fee restore. Each commits by itself, so a failure leaves the earlier ones in place.
   */
  function VerifyOne(settings: Settings, t: Tables, id: RequestId, at: int): (Tables, Option<Failure>) {
    match VerifyTopUp(t, id, at)
    case Err(e) => (t, Some(e))
    case Ok(verified) =>
      var seller := t.requests[id].seller;
      var (checked, ok) := CheckAndRestore(settings, verified, seller);
      if !ok then (checked, Some(StoreConflict))
      else if t.requests[id].planFee.None? then (checked, None)
      else
        var (restored, ok') := RestoreAfterPlanFeePayment(checked, seller);
        (restored, if ok' then None else Some(StoreConflict))
  }

  // ---- Overdue detection --------------------------------------------------------------------

  predicate Exempt(t: Tables, seller: SellerId) {
    seller in t.slots && t.slots[seller] > 0 && |StoresOf(t.stores, seller)| <= t.slots[seller]
  }

  predicate IsDue(s: Subscription, now: int) { s.periodEnd.Some? && s.periodEnd.value <= now }

  predicate PastGrace(settings: Settings, s: Subscription, now: int) {
    && s.individualPaid && s.periodEnd.Some?
    && s.periodEnd.value + settings.planFeeGraceDays * DAY_MS <= now
  }

  /** One due subscription's turn in the sweep; `row` is the subscription as the sweep read it. */
  function DebitVisit(settings: Settings, t: Tables, seller: SellerId, row: Subscription, now: int, at: int): Tables
    requires IsDue(row, now)
  {
    if !row.individualPaid || seller !in t.subscriptions then t
    else if row.interval != NoInterval && Exempt(t, seller) then
      t.(subscriptions := t.subscriptions[seller :=
        t.subscriptions[seller].(periodEnd := Some(AddInterval(row.periodEnd.value, row.interval)), sent := map[])])
    else if !PastGrace(settings, row, now) then t
    else t.(stores := PauseForNonPayment(t.stores, seller, at))
  }

  /**
   * The turn as the code takes it, up to the first statement of the pause: the stores have stopped,
   * and if any of them was selling the stamp is still to come.
   */
  function DebitTurn(settings: Settings, t: Tables, seller: SellerId, row: Subscription, now: int): (Tables, bool)
    requires IsDue(row, now)
  {
    if !row.individualPaid || seller !in t.subscriptions then (t, false)
    else if row.interval != NoInterval && Exempt(t, seller) then (DebitVisit(settings, t, seller, row, now, now), false)
    else if !PastGrace(settings, row, now) then (t, false)
    else (t.(stores := PauseActive(t.stores, seller)), HasActive(t.stores, seller))
  }

  /** With the stamp written at once, the two statements are the turn. */
  lemma UndisturbedTurn(settings: Settings, t: Tables, seller: SellerId, row: Subscription, now: int, at: int)
    requires IsDue(row, now)
    ensures var (t', stopped) := DebitTurn(settings, t, seller, row, now);
            DebitVisit(settings, t, seller, row, now, at) == if stopped then t'.(stores := Stamp(t'.stores, seller, at)) else t'
  {
    hide Exempt, PastGrace, AddInterval, Stamp;
    if !HasActive(t.stores, seller) { assert PauseActive(t.stores, seller) == t.stores by { NothingSells(t.stores, seller); } }
  }

  lemma NothingSells(stores: Stores, seller: SellerId)
    requires !HasActive(stores, seller)
    ensures PauseActive(stores, seller) == stores
  {}

  /**
   * One due subscription's turn. A selling seller is stopped exactly if the plan has a price, its
   * period ended at least the grace days ago, and the seller's stores do not all fit into free
   * slots. If they do fit, the period moves on by one interval and every reminder is due again.
   */
  lemma DebitVisitExactly(settings: Settings, t: Tables, seller: SellerId, row: Subscription, now: int, at: int)
    requires IsDue(row, now) && seller in t.subscriptions && HasActive(t.stores, seller)
    ensures var after, s, stores := DebitVisit(settings, t, seller, row, now, at), t.subscriptions[seller], |StoresOf(t.stores, seller)|;
            && (!HasActive(after.stores, seller) <==>
                  && row.individualPaid && row.periodEnd.value + settings.planFeeGraceDays * DAY_MS <= now
                  && (row.interval == NoInterval || seller !in t.slots || t.slots[seller] == 0 || stores > t.slots[seller]))
            && after.subscriptions == t.subscriptions[seller :=
                 if row.individualPaid && row.interval != NoInterval && seller in t.slots && 0 < t.slots[seller] && stores <= t.slots[seller]
                 then s.(periodEnd := Some(Cycles(row.periodEnd.value, row.interval, 1)), sent := map[]) else s]
  {
    hide AddInterval, StoresOf, HasActive;
    NonPaymentPauses(t.stores, seller, at);
    assert Cycles(row.periodEnd.value, row.interval, 1) == AddInterval(Cycles(row.periodEnd.value, row.interval, 0), row.interval);
  }

  // ---- Reminders ----------------------------------------------------------------------------

  function LeadDays(r: Reminder): nat {
    match r case DaysBefore7 => 7 case DaysBefore3 => 3 case DaysBefore1 => 1 case ExpiryDay => 0
  }

  predicate ReminderDue(s: Subscription, now: int, r: Reminder) {
    && s.individualPaid && s.periodEnd.Some? && r !in s.sent
    && var left := s.periodEnd.value - now;
    if r == ExpiryDay then left <= 0 else 0 <= left <= LeadDays(r) * DAY_MS
  }

  /** Sets the sent-at column of every reminder that the row read by the sweep calls for. */
  function Remind(row: Subscription, current: Subscription, now: int): Subscription {
    current.(sent := current.sent + map r | r in {DaysBefore7, DaysBefore3, DaysBefore1, ExpiryDay} && ReminderDue(row, now, r) :: now)
  }

  function SendReminders(t: Tables, now: int): Tables {
    t.(subscriptions := map seller | seller in t.subscriptions :: Remind(t.subscriptions[seller], t.subscriptions[seller], now))
  }

  // ---- The paid-period law ------------------------------------------------------------------

  predicate AtMostOnePending(t: Tables, seller: SellerId) {
    forall a, b | a in t.requests && b in t.requests && t.requests[a].status == t.requests[b].status == Pending ::
      IsPlanFeeOf(t.requests[a], seller) && IsPlanFeeOf(t.requests[b], seller) ==> a == b
  }

  /** After n verified payments the period ends n cycles after the first verification, however late the later ones were. */
  ghost predicate PaidUp(t: Tables, seller: SellerId, interval: Interval) {
    var payments := Payments(t, seller);
    && (PaidBefore(t, seller, None) <==> payments != [])
    && (forall id | id in t.requests :: IsPlanFeeOf(t.requests[id], seller) ==> t.requests[id].planFee.value > 0)
    && (seller in t.subscriptions ==> t.subscriptions[seller].interval == interval)
    && (payments != [] ==> seller in t.subscriptions && t.subscriptions[seller].periodEnd == Some(Cycles(payments[0], interval, |payments|)))
  }

  lemma RequestKeepsPaidUp(settings: Settings, t: Tables, id: RequestId, payer: SellerId, amountDue: nat, seller: SellerId, interval: Interval)
    requires PaidUp(t, seller, interval) && id !in t.requests
    requires payer == seller ==> amountDue > 0
    requires RequestPlanFee(settings, t, id, payer, amountDue).Ok?
    ensures PaidUp(RequestPlanFee(settings, t, id, payer, amountDue).value, seller, interval)
    ensures AtMostOnePending(t, seller) ==> AtMostOnePending(RequestPlanFee(settings, t, id, payer, amountDue).value, seller)
  {
    InsertKeepsPaidUp(t, id, payer, amountDue, seller, interval);
    InsertPends(t, id, payer, amountDue, seller);
    hide PaidUp, AtMostOnePending, HasPending;
  }

  lemma InsertKeepsPaidUp(t: Tables, id: RequestId, payer: SellerId, amountDue: nat, seller: SellerId, interval: Interval)
    requires PaidUp(t, seller, interval) && id !in t.requests
    requires payer == seller ==> amountDue > 0
    ensures PaidUp(InsertRequest(t, id, payer, amountDue), seller, interval)
  {
    hide AddInterval, Cycles;
    SameVerified(t, InsertRequest(t, id, payer, amountDue), seller);
  }

  /** An insert keeps at most one request pending exactly when it finds none of that seller's. */
  lemma InsertPends(t: Tables, id: RequestId, payer: SellerId, amountDue: nat, seller: SellerId)
    requires id !in t.requests
    ensures AtMostOnePending(InsertRequest(t, id, payer, amountDue), seller) <==>
            AtMostOnePending(t, seller) && (payer == seller ==> !HasPending(t, seller))
  {
    var after := InsertRequest(t, id, payer, amountDue);
    assert IsPlanFeeOf(after.requests[id], payer) && after.requests[id].status == Pending;
    forall other | other in t.requests ensures after.requests[other] == t.requests[other] {}
    if a :| payer == seller && a in t.requests && IsPlanFeeOf(t.requests[a], seller) && t.requests[a].status.Pending? {
      assert IsPlanFeeOf(after.requests[a], seller) && a != id;
    }
  }

  /** Requests that differ only in ways that verify nothing leave the seller's paid status alone. */
  lemma SameVerified(t: Tables, after: Tables, seller: SellerId)
    requires forall id | id in t.requests :: id in after.requests
    requires forall id | id in after.requests :: after.requests[id].status.Verified? ==> id in t.requests && t.requests[id] == after.requests[id]
    requires forall id | id in t.requests :: t.requests[id].status.Verified? ==> t.requests[id] == after.requests[id]
    ensures PaidBefore(after, seller, None) == PaidBefore(t, seller, None)
  {}

  lemma RejectKeepsPaidUp(t: Tables, id: RequestId, at: int, seller: SellerId, interval: Interval)
    requires PaidUp(t, seller, interval) && RejectTopUp(t, id, at).Ok?
    ensures PaidUp(RejectTopUp(t, id, at).value, seller, interval)
    ensures AtMostOnePending(t, seller) ==> AtMostOnePending(RejectTopUp(t, id, at).value, seller)
  {
    hide AddInterval, Cycles;
    SameVerified(t, RejectTopUp(t, id, at).value, seller);
  }

  /** The transaction marks its one request, and advances exactly one period if it is paid for. */
  lemma CommitEffect(t: Tables, id: RequestId, at: int)
    requires id in t.requests && CommitVerification(t, id, at).Ok?
    ensures var after, r := CommitVerification(t, id, at).value, t.requests[id];
            && after.requests == t.requests[id := r.(status := Verified(at))]
            && after.stores == t.stores && after.slots == t.slots && after.sellers == t.sellers
            && if r.planFee.Some? && r.planFee.value > 0 then
                 && r.seller in t.subscriptions
                 && after.payments == t.payments[r.seller := Payments(t, r.seller) + [at]]
                 && var renewal := PaidBefore(t, r.seller, Some(id));
                    (renewal ==> t.subscriptions[r.seller].periodEnd.Some?)
                    && after.subscriptions == t.subscriptions[r.seller := Advanced(t.subscriptions[r.seller], renewal, at)]
               else after.payments == t.payments && after.subscriptions == t.subscriptions
  {
    hide PaidBefore, Advanced, Balance;
  }

  /** A successful verification resolves the one request, which was pending, and advances exactly one period if it is paid for. */
  lemma VerifyEffect(t: Tables, id: RequestId, at: int)
    requires VerifyTopUp(t, id, at).Ok?
    ensures id in t.requests
    ensures var after, r := VerifyTopUp(t, id, at).value, t.requests[id];
            && r.status.Pending? && after.requests == t.requests[id := r.(status := Verified(at))]
            && after.stores == t.stores && after.slots == t.slots
            && (forall seller :: Balance(after, seller) == Balance(t, seller) + if seller == r.seller then r.amount else 0)
            && if r.planFee.Some? && r.planFee.value > 0 then
                 && r.seller in t.subscriptions
                 && after.payments == t.payments[r.seller := Payments(t, r.seller) + [at]]
                 && var renewal := PaidBefore(t, r.seller, Some(id));
                    (renewal ==> t.subscriptions[r.seller].periodEnd.Some?)
                    && var s := t.subscriptions[r.seller];
                       after.subscriptions == t.subscriptions[r.seller :=
                         s.(periodEnd := Some(Cycles(if renewal then s.periodEnd.value else at, s.interval, 1)), sent := map[])]
               else after.payments == t.payments && after.subscriptions == t.subscriptions
  {
    CommitEffect(t, id, at);
    OneCycle();
    TopUpCredits(t, id, at);
    hide CommitVerification, Balance, PaidBefore;
  }

  lemma TopUpCredits(t: Tables, id: RequestId, at: int)
    requires id in t.requests && CommitVerification(t, id, at).Ok?
    ensures var after, r := CommitVerification(t, id, at).value, t.requests[id];
            forall seller :: Balance(after, seller) == Balance(t, seller) + if seller == r.seller then r.amount else 0
  {
    hide PaidBefore, AddInterval;
  }

  /**
   * A verification is refused, in this order, for an unknown request, for one already decided, and
   * for a plan fee that has no subscription to extend or a renewal that has no period to extend.
   */
  lemma VerifyRefusedExactly(t: Tables, id: RequestId, at: int)
    ensures VerifyTopUp(t, id, at) == Err(NotFound) <==> id !in t.requests
    ensures VerifyTopUp(t, id, at) == Err(AlreadyResolved) <==> id in t.requests && t.requests[id].status != Pending
    ensures VerifyTopUp(t, id, at) == Err(NoSubscription) <==>
            && id in t.requests && t.requests[id].status == Pending && t.requests[id].planFee.Some? && t.requests[id].planFee.value > 0
            && var seller := t.requests[id].seller;
               || seller !in t.subscriptions
               || (t.subscriptions[seller].periodEnd == None
                   && exists other | other in t.requests :: other != id && t.requests[other].seller == seller && t.requests[other].planFee.Some? && t.requests[other].status.Verified?)
    ensures VerifyTopUp(t, id, at).Err? ==> VerifyTopUp(t, id, at).error in {NotFound, AlreadyResolved, NoSubscription}
  {
    if id in t.requests { PaidBeforeMeans(t, t.requests[id].seller, Some(id)); }
    hide PaidBefore, AddInterval, Balance;
  }

  lemma PaidBeforeMeans(t: Tables, seller: SellerId, except: Option<RequestId>)
    ensures PaidBefore(t, seller, except) <==>
            exists other | other in t.requests :: except != Some(other) && t.requests[other].seller == seller && t.requests[other].planFee.Some? && t.requests[other].status.Verified?
  {}

  lemma OneCycle()
    ensures forall from, interval :: Cycles(from, interval, 1) == AddInterval(from, interval)
  {
    hide AddInterval;
    forall from, interval ensures Cycles(from, interval, 1) == AddInterval(from, interval) {
      assert Cycles(from, interval, 1) == AddInterval(Cycles(from, interval, 0), interval);
    }
  }

  lemma PaidAfterVerify(t: Tables, after: Tables, id: RequestId, at: int, seller: SellerId)
    requires id in t.requests && t.requests[id].status.Pending?
    requires after.requests == t.requests[id := t.requests[id].(status := Verified(at))]
    ensures PaidBefore(t, seller, Some(id)) <==> PaidBefore(t, seller, None)
    ensures PaidBefore(after, seller, None) <==> IsPlanFeeOf(t.requests[id], seller) || PaidBefore(t, seller, None)
  {
    if IsPlanFeeOf(t.requests[id], seller) {
      assert IsPlanFeeOf(after.requests[id], seller) && after.requests[id].status.Verified?;
    }
    forall other | other in t.requests && other != id ensures after.requests[other] == t.requests[other] {}
  }

  lemma VerifyKeepsPaidUp(t: Tables, id: RequestId, at: int, seller: SellerId, interval: Interval)
    requires PaidUp(t, seller, interval) && VerifyTopUp(t, id, at).Ok?
    ensures PaidUp(VerifyTopUp(t, id, at).value, seller, interval)
    ensures AtMostOnePending(t, seller) ==> AtMostOnePending(VerifyTopUp(t, id, at).value, seller)
  {
    hide AddInterval, VerifyTopUp, PaidBefore;
    VerifyEffect(t, id, at);
    var r := t.requests[id];
    var after := VerifyTopUp(t, id, at).value;
    var payments := Payments(t, seller);
    PaidAfterVerify(t, after, id, at, seller);
    if IsPlanFeeOf(r, seller) {
      assert Payments(after, seller) == payments + [at];
      if payments == [] {
        assert Cycles(at, interval, 1) == AddInterval(Cycles(at, interval, 0), interval);
      } else {
        assert (payments + [at])[0] == payments[0];
      }
    } else {
      assert Payments(after, seller) == payments;
    }
  }

  /**
   * The transaction does not look again, so a fee verified twice is counted twice: a renewal moves
   * the period on by two cycles for the one payment.
   */
  lemma VerifiedTwiceGrantsTwo(t: Tables, id: RequestId, at: int, later: int)
    requires id in t.requests && t.requests[id].planFee.Some? && t.requests[id].planFee.value > 0
    requires var seller := t.requests[id].seller;
             PaidBefore(t, seller, Some(id)) && seller in t.subscriptions && t.subscriptions[seller].periodEnd.Some?
    ensures CommitVerification(t, id, at).Ok? && id in CommitVerification(t, id, at).value.requests
    ensures var seller := t.requests[id].seller; var twice := CommitVerification(CommitVerification(t, id, at).value, id, later);
            && twice.Ok? && Payments(twice.value, seller) == Payments(t, seller) + [at, later]
            && twice.value.subscriptions[seller].periodEnd == Some(Cycles(t.subscriptions[seller].periodEnd.value, t.subscriptions[seller].interval, 2))
  {
    hide AddInterval, PaidBefore;
    var seller, s := t.requests[id].seller, t.subscriptions[t.requests[id].seller];
    CommitEffect(t, id, at);
    var once := CommitVerification(t, id, at).value;
    OthersDecide(t, once, id, seller);
    CommitEffect(once, id, later);
    assert Payments(t, seller) + [at] + [later] == Payments(t, seller) + [at, later];
    assert Cycles(s.periodEnd.value, s.interval, 2) == AddInterval(Cycles(s.periodEnd.value, s.interval, 1), s.interval);
    assert Cycles(s.periodEnd.value, s.interval, 1) == AddInterval(Cycles(s.periodEnd.value, s.interval, 0), s.interval);
  }

  lemma OthersDecide(t: Tables, after: Tables, id: RequestId, seller: SellerId)
    requires t.requests.Keys == after.requests.Keys && forall other | other in t.requests && other != id :: after.requests[other] == t.requests[other]
    ensures PaidBefore(after, seller, Some(id)) <==> PaidBefore(t, seller, Some(id))
  {}

  /** A first payment of nothing (a full discount) verifies without starting the period. */
  lemma FreeFirstPaymentStartsNothing(t: Tables, id: RequestId, at: int)
    requires id in t.requests && t.requests[id].status.Pending? && t.requests[id].planFee == Some(0)
    ensures var after := VerifyTopUp(t, id, at);
            after.Ok? && after.value.subscriptions == t.subscriptions && PaidBefore(after.value, t.requests[id].seller, None)
  {
    var after := VerifyTopUp(t, id, at).value;
    assert IsPlanFeeOf(after.requests[id], t.requests[id].seller) && after.requests[id].status.Verified?;
  }
}
