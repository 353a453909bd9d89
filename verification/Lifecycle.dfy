/**
 * The plan-fee lifecycle as one transition system: every commit of a service call and every
 * row of a sweep is a step, in any order and at any time. A sweep reads its rows in one step
 * and acts on them in later ones, and a call checks in one and writes in another, so other
 * calls fall in between.
 */
module Lifecycle {
  import opened Common
  import opened Calendar
  import opened BillingTables
  import opened GraceLadder
  import opened PlanFees
  import opened Retention

  type SweepId = nat
  type CallId = nat

  /** Where a running sweep stands, with the rows it has read. */
  datatype Sweep =
    /** `stopped`: the sellers whose stores it has just stopped, with the stamp still to be written. */
    | DebitRows(now: int, rows: map<SellerId, Subscription>, stopped: set<SellerId>)
    | LadderRows(now: int, unvisited: map<SellerId, Ladder>)
    | Notices(now: int, kinds: set<Notice>, left: Stores)
    | Reminders(now: int, pending: map<SellerId, Subscription>)
    | Deleting(now: int, stamps: map<StoreId, int>)

  /** Where a call that commits more than once, or checks before it commits, stands. */
  datatype Call =
    /** `requestPlanFeePayment` with a gateway reference, whose cooldown is claimed. */
    | Claimed(seller: SellerId)
    /** The same, with or without a reference, after it found no pending request. */
    | Asking(seller: SellerId, amountDue: nat)
    /** A decision on a request that its call found pending. */
    | Deciding(request: RequestId)
    /** The admin's verification after its transaction. */
    | CreditVerified(seller: SellerId, planFee: bool)
    /** The same for a plan fee after the balance check, with the plan-fee restore still to come. */
    | BalanceChecked(seller: SellerId)

  /** `cooldowns` says until when a seller's submission slot is taken. */
  datatype System = System(clock: int, t: Tables, sweeps: map<SweepId, Sweep>, calls: map<CallId, Call>, cooldowns: map<SellerId, int>)

  datatype Step =
    | OpenStore(id: StoreId, seller: SellerId)
    | StartDebitSweep(sweep: SweepId)
    | DebitRow(sweep: SweepId, seller: SellerId)
    | StampRow(sweep: SweepId, seller: SellerId)
    | StartLadderSweep(sweep: SweepId)
    | LadderRow(sweep: SweepId, seller: SellerId)
    | FloorCheck(seller: SellerId)
    | ClaimCooldown(call: CallId, seller: SellerId)
    | AskFee(call: CallId, seller: SellerId, amountDue: nat)
    | InsertFee(call: CallId, request: RequestId)
    | RequestCredit(request: RequestId, seller: SellerId, amount: nat)
    | LookUp(call: CallId, request: RequestId)
    | Verify(call: CallId)
    | CheckBalance(call: CallId)
    | RestoreFee(call: CallId)
    | GatewayVerify(call: CallId)
    | Reject(call: CallId)
    | StartNotices(sweep: SweepId, kinds: set<Notice>)
    | NotifyOne(sweep: SweepId, id: StoreId)
    | QueryExpired(sweep: SweepId)
    | DeleteOne(sweep: SweepId, id: StoreId)
    | StartReminders(sweep: SweepId)
    | RemindOne(sweep: SweepId, seller: SellerId)
    | PauseOverLimit(id: StoreId)
    | ReclaimOverLimit(id: StoreId)
    | SuspendStores(seller: SellerId)
    | LiftSuspension(seller: SellerId)
    | PostBalance(seller: SellerId, delta: int)
    | GrantSlots(seller: SellerId, slots: nat)

  function DueRows(t: Tables, now: int): map<SellerId, Subscription> {
    map seller | seller in t.subscriptions && IsDue(t.subscriptions[seller], now) :: t.subscriptions[seller]
  }

  predicate IsDeciding(y: System, call: CallId) {
    call in y.calls && y.calls[call].Deciding? && y.calls[call].request in y.t.requests
  }

  predicate Enabled(y: System, step: Step, at: int) {
    && y.clock <= at
    && match step
       case OpenStore(id, seller) => id !in y.t.stores && !HasActive(y.t.stores, seller)
       case StartDebitSweep(sweep) => sweep !in y.sweeps
       case DebitRow(sweep, seller) =>
         && sweep in y.sweeps && y.sweeps[sweep].DebitRows?
         && seller in y.sweeps[sweep].rows && IsDue(y.sweeps[sweep].rows[seller], y.sweeps[sweep].now)
       case StampRow(sweep, seller) => sweep in y.sweeps && y.sweeps[sweep].DebitRows? && seller in y.sweeps[sweep].stopped
       case StartLadderSweep(sweep) => sweep !in y.sweeps
       case LadderRow(sweep, seller) => sweep in y.sweeps && y.sweeps[sweep].LadderRows? && seller in y.sweeps[sweep].unvisited
       case ClaimCooldown(call, seller) => call !in y.calls && (seller in y.cooldowns ==> y.cooldowns[seller] <= at)
       case AskFee(call, seller, _) => call !in y.calls || y.calls[call] == Claimed(seller)
       case InsertFee(call, request) => call in y.calls && y.calls[call].Asking? && request !in y.t.requests
       case RequestCredit(request, _, _) => request !in y.t.requests
       case LookUp(call, request) => call !in y.calls && request in y.t.requests && y.t.requests[request].status.Pending?
       case Verify(call) => IsDeciding(y, call)
       case CheckBalance(call) => call in y.calls && y.calls[call].CreditVerified?
       case RestoreFee(call) => call in y.calls && y.calls[call].BalanceChecked?
       case GatewayVerify(call) => IsDeciding(y, call)
       case Reject(call) => IsDeciding(y, call)
       case StartNotices(sweep, kinds) => sweep !in y.sweeps && (kinds == WARNINGS || kinds == WINBACKS)
       case NotifyOne(sweep, id) => sweep in y.sweeps && y.sweeps[sweep].Notices? && id in y.sweeps[sweep].left && id in y.t.stores
       case StartReminders(sweep) => sweep !in y.sweeps
       case RemindOne(sweep, seller) =>
         sweep in y.sweeps && y.sweeps[sweep].Reminders? && seller in y.sweeps[sweep].pending && seller in y.t.subscriptions
       case QueryExpired(sweep) =>
         sweep in y.sweeps && y.sweeps[sweep].Notices? && y.sweeps[sweep].kinds == WARNINGS && y.sweeps[sweep].left == map[]
       case DeleteOne(sweep, id) => sweep in y.sweeps && y.sweeps[sweep].Deleting? && id in y.sweeps[sweep].stamps
       case PauseOverLimit(id) => id in y.t.stores && y.t.stores[id].status == Active
       case ReclaimOverLimit(id) => id in y.t.stores && y.t.stores[id].status == OrdersPaused && y.t.stores[id].overLimitPausedAt.Some?
       case _ => true
  }

  /** The tables after the verifying transaction, rolled back if it fails. */
  function Committed(t: Tables, request: RequestId, at: int): Tables
    requires request in t.requests
  {
    match CommitVerification(t, request, at) case Ok(t') => t' case Err(_) => t
  }

  function NextTables(settings: Settings, y: System, step: Step, at: int): Tables
    requires Enabled(y, step, at)
  {
    var t := y.t;
    match step
    case OpenStore(id, seller) => t.(stores := t.stores[id := Store(seller, Active, None, None, map[])])
    case DebitRow(sweep, seller) => DebitTurn(settings, t, seller, y.sweeps[sweep].rows[seller], y.sweeps[sweep].now).0
    case StampRow(sweep, seller) => t.(stores := Stamp(t.stores, seller, at))
    case LadderRow(sweep, seller) => LadderVisit(settings, t, seller, y.sweeps[sweep].unvisited[seller], y.sweeps[sweep].now).0
    case FloorCheck(seller) => if Balance(t, seller) < settings.negativeFloor then t.(stores := PauseActive(t.stores, seller)) else t
    case InsertFee(call, request) => InsertRequest(t, request, y.calls[call].seller, y.calls[call].amountDue)
    case RequestCredit(request, seller, amount) => RequestTopUp(t, request, seller, amount)
    case Verify(call) => Committed(t, y.calls[call].request, at)
    case CheckBalance(call) => CheckAndRestore(settings, t, y.calls[call].seller).0
    case RestoreFee(call) => RestoreAfterPlanFeePayment(t, y.calls[call].seller).0
    case GatewayVerify(call) => Committed(t, y.calls[call].request, at)
    case Reject(call) => t.(requests := t.requests[y.calls[call].request := t.requests[y.calls[call].request].(status := Rejected(at))])
    case NotifyOne(sweep, id) =>
      var w := y.sweeps[sweep];
      t.(stores := t.stores[id := Notify(w.left[id], t.stores[id], w.now, w.kinds, settings.retentionDays)])
    case DeleteOne(sweep, id) => t.(stores := DeleteIfStillEligible(t.stores, id, y.sweeps[sweep].stamps[id]))
    case RemindOne(sweep, seller) =>
      var w := y.sweeps[sweep];
      t.(subscriptions := t.subscriptions[seller := Remind(w.pending[seller], t.subscriptions[seller], w.now)])
    case PauseOverLimit(id) => t.(stores := t.stores[id := t.stores[id].(status := OrdersPaused, overLimitPausedAt := Some(at))])
    case ReclaimOverLimit(id) =>
      t.(stores := Commit(t.stores, t.stores[id := t.stores[id].(status := Active, overLimitPausedAt := None)]))
    case SuspendStores(seller) => t.(stores := Recolour(t.stores, seller, Active, Suspended))
    case LiftSuspension(seller) => t.(stores := Commit(t.stores, Recolour(t.stores, seller, Suspended, Active)))
    case PostBalance(seller, delta) => t.(balances := t.balances[seller := Balance(t, seller) + delta])
    case GrantSlots(seller, slots) => t.(slots := t.slots[seller := slots])
    case _ => t
  }

  function NextSweeps(settings: Settings, y: System, step: Step, at: int): map<SweepId, Sweep>
    requires Enabled(y, step, at)
  {
    match step
    case StartDebitSweep(sweep) => y.sweeps[sweep := DebitRows(at, DueRows(y.t, at), {})]
    case DebitRow(sweep, seller) =>
      var w := y.sweeps[sweep];
      if DebitTurn(settings, y.t, seller, w.rows[seller], w.now).1 then y.sweeps[sweep := w.(stopped := w.stopped + {seller})] else y.sweeps
    case StampRow(sweep, seller) => y.sweeps[sweep := y.sweeps[sweep].(stopped := y.sweeps[sweep].stopped - {seller})]
    case StartLadderSweep(sweep) => y.sweeps[sweep := LadderRows(at, y.t.sellers)]
    case LadderRow(sweep, seller) => y.sweeps[sweep := y.sweeps[sweep].(unvisited := y.sweeps[sweep].unvisited - {seller})]
    case StartNotices(sweep, kinds) => y.sweeps[sweep := Notices(at, kinds, PausedRows(y.t.stores))]
    case NotifyOne(sweep, id) => y.sweeps[sweep := y.sweeps[sweep].(left := y.sweeps[sweep].left - {id})]
    case StartReminders(sweep) => y.sweeps[sweep := Reminders(at, y.t.subscriptions)]
    case RemindOne(sweep, seller) => y.sweeps[sweep := y.sweeps[sweep].(pending := y.sweeps[sweep].pending - {seller})]
    case QueryExpired(sweep) => y.sweeps[sweep := Deleting(y.sweeps[sweep].now, Candidates(y.t.stores, y.sweeps[sweep].now, settings.retentionDays))]
    case _ => y.sweeps
  }

  /** A call that is refused, fails or is done is forgotten. */
  function NextCalls(settings: Settings, y: System, step: Step, at: int): map<CallId, Call>
    requires Enabled(y, step, at)
  {
    match step
    case ClaimCooldown(call, seller) => y.calls[call := Claimed(seller)]
    case AskFee(call, seller, amountDue) => if MayPay(settings, y.t, seller) then y.calls[call := Asking(seller, amountDue)] else y.calls - {call}
    case InsertFee(call, _) => y.calls - {call}
    case LookUp(call, request) => y.calls[call := Deciding(request)]
    case Verify(call) =>
      var request := y.calls[call].request;
      if CommitVerification(y.t, request, at).Ok?
      then y.calls[call := CreditVerified(y.t.requests[request].seller, y.t.requests[request].planFee.Some?)]
      else y.calls - {call}
    case CheckBalance(call) =>
      var c := y.calls[call];
      if c.planFee && CheckAndRestore(settings, y.t, c.seller).1 then y.calls[call := BalanceChecked(c.seller)] else y.calls - {call}
    case RestoreFee(call) => y.calls - {call}
    case GatewayVerify(call) => y.calls - {call}
    case Reject(call) => y.calls - {call}
    case _ => y.calls
  }

  function NextCooldowns(settings: Settings, y: System, step: Step, at: int): map<SellerId, int> {
    if step.ClaimCooldown? then y.cooldowns[step.seller := at + settings.submissionCooldown] else y.cooldowns
  }

  function Next(settings: Settings, y: System, step: Step, at: int): System
    requires Enabled(y, step, at)
  {
    System(at, NextTables(settings, y, step, at), NextSweeps(settings, y, step, at), NextCalls(settings, y, step, at), NextCooldowns(settings, y, step, at))
  }

  /** With nothing in between, the look and the three commits of the admin's verification are `verifyOne`. */
  lemma UndisturbedVerification(settings: Settings, y: System, call: CallId, request: RequestId, at: int)
    returns (y1: System, y2: System, y3: System, y4: System)
    requires Enabled(y, LookUp(call, request), at)
    ensures y1 == Next(settings, y, LookUp(call, request), at)
    ensures Enabled(y1, Verify(call), at) && y2 == Next(settings, y1, Verify(call), at)
    ensures VerifyTopUp(y.t, request, at).Err? ==> y2.t == VerifyOne(settings, y.t, request, at).0 && call !in y2.calls
    ensures VerifyTopUp(y.t, request, at).Ok? ==> Enabled(y2, CheckBalance(call), at) && y3 == Next(settings, y2, CheckBalance(call), at)
    ensures VerifyTopUp(y.t, request, at).Ok? && call !in y3.calls ==>
              && y3.t == VerifyOne(settings, y.t, request, at).0
              && (VerifyOne(settings, y.t, request, at).1 == None <==> CheckAndRestore(settings, y2.t, y.t.requests[request].seller).1)
    ensures VerifyTopUp(y.t, request, at).Ok? && call in y3.calls ==>
              && Enabled(y3, RestoreFee(call), at) && y4 == Next(settings, y3, RestoreFee(call), at)
              && y4.t == VerifyOne(settings, y.t, request, at).0
              && (VerifyOne(settings, y.t, request, at).1 == None <==> RestoreAfterPlanFeePayment(y3.t, y3.calls[call].seller).1)
  {
    hide CommitVerification, CheckAndRestore, RestoreAfterPlanFeePayment, Next, Enabled;
    LookUpStep(settings, y, call, request, at);
    y1 := Next(settings, y, LookUp(call, request), at);
    VerifyStep(settings, y1, call, at);
    y2 := Next(settings, y1, Verify(call), at);
    y3, y4 := y2, y2;
    if VerifyTopUp(y.t, request, at).Ok? {
      CheckBalanceStep(settings, y2, call, at);
      y3 := Next(settings, y2, CheckBalance(call), at);
      if call in y3.calls {
        RestoreFeeStep(settings, y3, call, at);
        y4 := Next(settings, y3, RestoreFee(call), at);
      }
    }
  }

  /** With nothing in between, the check and the insert of a plan-fee request are the request, or its refusal. */
  lemma UndisturbedRequest(settings: Settings, y: System, call: CallId, request: RequestId, seller: SellerId, amountDue: nat, at: int)
    requires y.clock <= at && call !in y.calls && request !in y.t.requests
    ensures var asked := Next(settings, y, AskFee(call, seller, amountDue), at);
            match RequestPlanFee(settings, y.t, request, seller, amountDue)
            case Ok(t') => Enabled(asked, InsertFee(call, request), at) && Next(settings, asked, InsertFee(call, request), at) == y.(clock := at, t := t')
            case Err(_) => asked == y.(clock := at)
  {
    MayPayExactly(settings, y.t, request, seller, amountDue);
    hide MayPay, RequestPlanFee;
    assert y.calls - {call} == y.calls && y.calls[call := Asking(seller, amountDue)] - {call} == y.calls;
    RequestInserts(settings, y.t, request, seller, amountDue);
  }

  lemma RequestInserts(settings: Settings, t: Tables, request: RequestId, seller: SellerId, amountDue: nat)
    ensures var r := RequestPlanFee(settings, t, request, seller, amountDue); r.Ok? ==> r.value == InsertRequest(t, request, seller, amountDue)
  {}

  lemma LookUpStep(settings: Settings, y: System, call: CallId, request: RequestId, at: int)
    requires Enabled(y, LookUp(call, request), at)
    ensures Next(settings, y, LookUp(call, request), at) == y.(clock := at, calls := y.calls[call := Deciding(request)])
    ensures request in y.t.requests && y.t.requests[request].status.Pending?
  {}

  lemma VerifyStep(settings: Settings, y: System, call: CallId, at: int)
    requires y.clock <= at && IsDeciding(y, call)
    ensures Enabled(y, Verify(call), at)
    ensures var request := y.calls[call].request; var r := y.t.requests[request];
            match CommitVerification(y.t, request, at)
            case Ok(t') => Next(settings, y, Verify(call), at) == y.(clock := at, t := t', calls := y.calls[call := CreditVerified(r.seller, r.planFee.Some?)])
            case Err(_) => Next(settings, y, Verify(call), at) == y.(clock := at, calls := y.calls - {call})
  {
    hide CommitVerification;
  }

  lemma CheckBalanceStep(settings: Settings, y: System, call: CallId, at: int)
    requires y.clock <= at && call in y.calls && y.calls[call].CreditVerified?
    ensures Enabled(y, CheckBalance(call), at)
    ensures var c := y.calls[call]; var (t', ok) := CheckAndRestore(settings, y.t, c.seller);
            Next(settings, y, CheckBalance(call), at) ==
            y.(clock := at, t := t', calls := if c.planFee && ok then y.calls[call := BalanceChecked(c.seller)] else y.calls - {call})
  {
    hide CheckAndRestore;
  }

  lemma RestoreFeeStep(settings: Settings, y: System, call: CallId, at: int)
    requires y.clock <= at && call in y.calls && y.calls[call].BalanceChecked?
    ensures Enabled(y, RestoreFee(call), at)
    ensures Next(settings, y, RestoreFee(call), at) ==
            y.(clock := at, t := RestoreAfterPlanFeePayment(y.t, y.calls[call].seller).0, calls := y.calls - {call})
  {
    hide RestoreAfterPlanFeePayment;
  }

  lemma StopsSelling(stores: Stores, seller: SellerId)
    ensures !HasActive(PauseActive(stores, seller), seller)
  {}

  /** The floor check stops a selling seller exactly if the balance is below the floor. */
  lemma FloorCheckExactly(settings: Settings, y: System, seller: SellerId, at: int)
    requires y.clock <= at
    ensures var y' := Next(settings, y, FloorCheck(seller), at);
            && (HasActive(y'.t.stores, seller) <==> HasActive(y.t.stores, seller) && settings.negativeFloor <= Balance(y.t, seller))
            && y'.t == y.t.(stores := y'.t.stores)
  {
    hide Balance, NextSweeps, NextCalls, NextCooldowns, HasActive;
    StopsSelling(y.t.stores, seller);
  }

  /** A sweep's turn on a row is its only one: the row is no longer among those it has still to visit. */
  lemma VisitedOnce(settings: Settings, y: System, step: Step, at: int, later: int)
    requires Enabled(y, step, at) && (step.LadderRow? || step.NotifyOne? || step.RemindOne? || step.StampRow?)
    ensures !Enabled(Next(settings, y, step, at), step, later)
  {
    hide NextTables, NextCalls;
  }

  // ---- What one step does to one store ------------------------------------------------------

  /** The step writes the stamp of a non-payment pause that a debit sweep has begun for the store's seller. */
  predicate StampsFor(y: System, step: Step, s: Store) {
    && step.StampRow? && step.seller == s.seller
    && step.sweep in y.sweeps && y.sweeps[step.sweep].DebitRows? && step.seller in y.sweeps[step.sweep].stopped
  }

  /** The step is the plan-fee restore that ends a verification for the store's seller, and the index lets it through. */
  predicate PaysFee(y: System, step: Step, s: Store) {
    && step.RestoreFee? && step.call in y.calls && y.calls[step.call] == BalanceChecked(s.seller)
    && RestoreAfterPlanFeePayment(y.t, s.seller).1
  }

  predicate BalanceRestores(settings: Settings, t: Tables, seller: SellerId) {
    Balance(t, seller) >= settings.warningThreshold && OneActivePerSeller(Reactivate(t.stores, seller))
  }

  /** The two restores that turn a store's status back and leave its retention stamp behind. */
  predicate ReactivatesOnly(settings: Settings, y: System, step: Step, id: StoreId)
    requires id in y.t.stores
  {
    var seller := y.t.stores[id].seller;
    match step
    case CheckBalance(call) => call in y.calls && y.calls[call].CreditVerified? && y.calls[call].seller == seller && BalanceRestores(settings, y.t, seller)
    case LadderRow(sweep, visited) =>
      && visited == seller && sweep in y.sweeps && y.sweeps[sweep].LadderRows? && seller in y.sweeps[sweep].unvisited
      && y.sweeps[sweep].unvisited[seller] != Ladder(None, None)
      && settings.negativeFloor <= Balance(y.t, seller) && BalanceRestores(settings, y.t, seller)
    case ReclaimOverLimit(reclaimed) =>
      reclaimed == id && OneActivePerSeller(y.t.stores[id := y.t.stores[id].(status := Active, overLimitPausedAt := None)])
    case _ => false
  }

  /** Stamp and flags kept, and the store stays on the clock unless it is only reactivated. */
  predicate KeepsStamp(s: Store, s': Store, reactivated: bool) {
    && s'.seller == s.seller && s'.terminalPausedAt == s.terminalPausedAt && s'.sent == s.sent
    && (OnRetentionClock(s) ==> (OnRetentionClock(s') <==> !reactivated))
  }

  /** A running notice sweep reaches the store, with the row it read when it started. */
  predicate Reaches(y: System, step: Step, id: StoreId) {
    && step.NotifyOne? && step.id == id && step.sweep in y.sweeps && y.sweeps[step.sweep].Notices? && id in y.sweeps[step.sweep].left
  }

  predicate IsNotified(settings: Settings, y: System, step: Step, id: StoreId, s: Store, s': Store) {
    && Reaches(y, step, id)
    && var w := y.sweeps[step.sweep]; s' == Notify(w.left[id], s, w.now, w.kinds, settings.retentionDays)
  }

  predicate IsStamped(s: Store, s': Store, at: int) {
    s.terminalPausedAt == None && s' == s.(status := OrdersPaused, terminalPausedAt := Some(at))
  }

  predicate IsRestored(s: Store, s': Store) {
    OnRetentionClock(s) && s' == s.(status := Active, terminalPausedAt := None, sent := map[])
  }

  lemma StampRowOnStore(settings: Settings, y: System, step: Step, at: int, id: StoreId)
    requires Enabled(y, step, at) && step.StampRow? && id in y.t.stores
    ensures var y' := Next(settings, y, step, at);
            && id in y'.t.stores
            && (KeepsStamp(y.t.stores[id], y'.t.stores[id], false) || (StampsFor(y, step, y.t.stores[id]) && IsStamped(y.t.stores[id], y'.t.stores[id], at)))
  {
    hide NextSweeps, NextCalls;
  }

  lemma DebitRowOnStore(settings: Settings, y: System, step: Step, at: int, id: StoreId)
    requires Enabled(y, step, at) && step.DebitRow? && id in y.t.stores
    ensures var y' := Next(settings, y, step, at);
            id in y'.t.stores && KeepsStamp(y.t.stores[id], y'.t.stores[id], false)
  {
    hide AddInterval, Exempt, NextSweeps, NextCalls, PauseActive, HasActive, PastGrace;
    PauseActiveOnStore(y.t.stores, step.seller, id);
  }

  lemma DebitNeverReactivates(settings: Settings, y: System, step: Step, at: int, id: StoreId)
    requires id in y.t.stores && (step.DebitRow? || step.StampRow?)
    ensures !ReactivatesOnly(settings, y, step, id)
  {}

  lemma CheckOnStore(settings: Settings, t: Tables, seller: SellerId, id: StoreId)
    requires id in t.stores
    ensures var (t', ok) := CheckAndRestore(settings, t, seller);
            && id in t'.stores && (ok <== Balance(t, seller) < settings.warningThreshold)
            && t'.stores[id] == if t.stores[id].seller == seller && t.stores[id].status == OrdersPaused && BalanceRestores(settings, t, seller)
                               then t.stores[id].(status := Active) else t.stores[id]
  {
    hide OneActivePerSeller;
  }

  lemma RestoreOnStore(t: Tables, seller: SellerId, id: StoreId)
    requires id in t.stores
    ensures var (t', ok) := RestoreAfterPlanFeePayment(t, seller);
            && id in t'.stores
            && t'.stores[id] == if ok && Restorable(t.stores[id], seller)
                               then t.stores[id].(status := Active, terminalPausedAt := None, sent := map[]) else t.stores[id]
  {
    hide OneActivePerSeller;
  }

  predicate Restoring(step: Step) { step.CheckBalance? || step.RestoreFee? }

  lemma RestoringOnStore(settings: Settings, y: System, step: Step, at: int, id: StoreId)
    requires Enabled(y, step, at) && Restoring(step) && id in y.t.stores
    ensures var y' := Next(settings, y, step, at);
            && id in y'.t.stores
            && (KeepsStamp(y.t.stores[id], y'.t.stores[id], ReactivatesOnly(settings, y, step, id))
                || (PaysFee(y, step, y.t.stores[id]) && IsRestored(y.t.stores[id], y'.t.stores[id])))
  {
    hide BalanceRestores, CheckAndRestore, RestoreAfterPlanFeePayment, NextSweeps, NextCalls;
    var seller := y.calls[step.call].seller;
    if step.CheckBalance? { CheckOnStore(settings, y.t, seller, id); } else { RestoreOnStore(y.t, seller, id); }
  }

  lemma LadderRowOnStore(settings: Settings, y: System, step: Step, at: int, id: StoreId)
    requires Enabled(y, step, at) && step.LadderRow? && id in y.t.stores
    ensures var y' := Next(settings, y, step, at);
            id in y'.t.stores && KeepsStamp(y.t.stores[id], y'.t.stores[id], ReactivatesOnly(settings, y, step, id))
  {
    hide CheckAndRestore, OneActivePerSeller, Reactivate, NextSweeps, NextCalls, PauseActive, Balance;
    CheckOnStore(settings, y.t, step.seller, id);
    PauseActiveOnStore(y.t.stores, step.seller, id);
  }

  lemma PauseActiveOnStore(stores: Stores, seller: SellerId, id: StoreId)
    requires id in stores
    ensures id in PauseActive(stores, seller) && KeepsStamp(stores[id], PauseActive(stores, seller)[id], false)
  {}

  predicate OnStores(step: Step) {
    step.OpenStore? || step.FloorCheck? || step.NotifyOne? || step.DeleteOne?
    || step.StampRow? || step.PauseOverLimit? || step.ReclaimOverLimit? || step.SuspendStores? || step.LiftSuspension?
  }

  lemma NoticeOnStore(settings: Settings, y: System, step: Step, at: int, id: StoreId)
    requires Enabled(y, step, at) && id in y.t.stores && step.NotifyOne?
    ensures var y' := Next(settings, y, step, at);
            && id in y'.t.stores
            && (IsNotified(settings, y, step, id, y.t.stores[id], y'.t.stores[id]) || KeepsStamp(y.t.stores[id], y'.t.stores[id], false))
            && !ReactivatesOnly(settings, y, step, id)
  {
    hide NextSweeps, NextCalls, NoticeDue;
  }

  /** The statements that set the status of one seller's stores. */
  lemma SellerStatusStores(settings: Settings, y: System, step: Step, at: int)
    requires Enabled(y, step, at) && (step.FloorCheck? || step.SuspendStores? || step.LiftSuspension?)
    ensures var stores, after := y.t.stores, Next(settings, y, step, at).t.stores;
            || after == stores
            || after == PauseActive(stores, step.seller)
            || after == Recolour(stores, step.seller, Active, Suspended)
            || after == Recolour(stores, step.seller, Suspended, Active)
  {
    hide NextSweeps, NextCalls, NextCooldowns, Balance, PauseActive, Recolour, OneActivePerSeller;
  }

  lemma SellerStatusOnStore(settings: Settings, y: System, step: Step, at: int, id: StoreId)
    requires Enabled(y, step, at) && id in y.t.stores && (step.FloorCheck? || step.SuspendStores? || step.LiftSuspension?)
    ensures var y' := Next(settings, y, step, at);
            id in y'.t.stores && KeepsStamp(y.t.stores[id], y'.t.stores[id], ReactivatesOnly(settings, y, step, id))
  {
    assert !ReactivatesOnly(settings, y, step, id);
    hide Next, Enabled, PauseActive, Recolour, KeepsStamp, ReactivatesOnly;
    SellerStatusStores(settings, y, step, at);
    PauseActiveOnStore(y.t.stores, step.seller, id);
    RecolourOnStore(y.t.stores, step.seller, id);
  }

  lemma RecolourOnStore(stores: Stores, seller: SellerId, id: StoreId)
    requires id in stores
    ensures id in Recolour(stores, seller, Active, Suspended) && KeepsStamp(stores[id], Recolour(stores, seller, Active, Suspended)[id], false)
    ensures id in Recolour(stores, seller, Suspended, Active) && KeepsStamp(stores[id], Recolour(stores, seller, Suspended, Active)[id], false)
    ensures KeepsStamp(stores[id], stores[id], false)
  {}

  lemma StatusOnStore(settings: Settings, y: System, step: Step, at: int, id: StoreId)
    requires Enabled(y, step, at) && id in y.t.stores
    requires step.OpenStore? || step.FloorCheck? || step.PauseOverLimit? || step.ReclaimOverLimit? || step.SuspendStores? || step.LiftSuspension?
    ensures var y' := Next(settings, y, step, at);
            id in y'.t.stores && KeepsStamp(y.t.stores[id], y'.t.stores[id], ReactivatesOnly(settings, y, step, id))
  {
    if step.FloorCheck? || step.SuspendStores? || step.LiftSuspension? {
      hide Next, Enabled, KeepsStamp, ReactivatesOnly;
      SellerStatusOnStore(settings, y, step, at, id);
    } else {
      hide OneActivePerSeller, NextSweeps, NextCalls, HasActive, Balance;
    }
  }

  lemma DeleteOnStore(settings: Settings, y: System, step: Step, at: int, id: StoreId)
    requires Enabled(y, step, at) && id in y.t.stores && step.DeleteOne?
    ensures var y' := Next(settings, y, step, at);
            if id in y'.t.stores then KeepsStamp(y.t.stores[id], y'.t.stores[id], ReactivatesOnly(settings, y, step, id))
            else step.id == id && StillEligible(y.t.stores, id, y.sweeps[step.sweep].stamps[id])
  {
    hide NextSweeps, NextCalls;
  }

  lemma StoreUpdateOnStore(settings: Settings, y: System, step: Step, at: int, id: StoreId)
    requires Enabled(y, step, at) && id in y.t.stores && OnStores(step) && !step.NotifyOne? && !step.StampRow?
    ensures var y' := Next(settings, y, step, at);
            id in y'.t.stores ==> KeepsStamp(y.t.stores[id], y'.t.stores[id], ReactivatesOnly(settings, y, step, id))
    ensures id !in Next(settings, y, step, at).t.stores ==>
              step.DeleteOne? && step.id == id && StillEligible(y.t.stores, id, y.sweeps[step.sweep].stamps[id])
  {
    hide Next, KeepsStamp, StillEligible, ReactivatesOnly;
    if step.DeleteOne? { DeleteOnStore(settings, y, step, at, id); } else { StatusOnStore(settings, y, step, at, id); }
  }

  lemma StatusUpdateOnly(settings: Settings, y: System, step: Step, at: int)
    requires Enabled(y, step, at) && OnStores(step) && !step.NotifyOne? && !step.DeleteOne? && !step.StampRow?
    ensures var t' := Next(settings, y, step, at).t; t' == y.t.(stores := t'.stores)
  {
    hide NextSweeps, NextCalls, NextCooldowns, HasActive, PauseActive, Recolour, Commit, Balance;
  }

  /** A statement on the stores changes nothing else. */
  lemma StoreUpdateOnly(settings: Settings, y: System, step: Step, at: int)
    requires Enabled(y, step, at) && OnStores(step)
    ensures var t' := Next(settings, y, step, at).t; t' == y.t.(stores := t'.stores)
  {
    if step.NotifyOne? || step.DeleteOne? || step.StampRow? {
      hide NextSweeps, NextCalls, NextCooldowns, Notify, Stamp, DeleteIfStillEligible;
    } else {
      hide Next, Enabled;
      StatusUpdateOnly(settings, y, step, at);
    }
  }

  lemma BillingStepOnStores(settings: Settings, y: System, step: Step, at: int)
    requires Enabled(y, step, at)
    requires !step.DebitRow? && !Restoring(step) && !step.LadderRow? && !OnStores(step)
    ensures Next(settings, y, step, at).t.stores == y.t.stores
  {
    hide CommitVerification, Remind, NextSweeps, NextCalls;
    if step.Verify? || step.GatewayVerify? {
      var request := y.calls[step.call].request;
      if CommitVerification(y.t, request, at).Ok? { CommitEffect(y.t, request, at); }
    }
  }

  lemma NothingKeepsStamp(settings: Settings, y: System, step: Step, at: int, id: StoreId)
    requires id in y.t.stores && !step.CheckBalance? && !step.LadderRow? && !step.ReclaimOverLimit?
    ensures KeepsStamp(y.t.stores[id], y.t.stores[id], ReactivatesOnly(settings, y, step, id))
  {}

  /**
   * Everything that can happen to one store in one step: it is deleted by the re-check, it is
   * stamped by the sweep that has stopped its seller, a paid plan fee restores it, a notice is recorded
   * on it, or it keeps its stamp and flags and leaves the clock only through a bare reactivation.
   */
  lemma StoreStep(settings: Settings, y: System, step: Step, at: int, id: StoreId)
    requires Enabled(y, step, at) && id in y.t.stores
    ensures var y' := Next(settings, y, step, at);
            if id in y'.t.stores then
              var s, s' := y.t.stores[id], y'.t.stores[id];
              || KeepsStamp(s, s', ReactivatesOnly(settings, y, step, id))
              || (IsNotified(settings, y, step, id, s, s') && !ReactivatesOnly(settings, y, step, id))
              || (StampsFor(y, step, s) && IsStamped(s, s', at))
              || (PaysFee(y, step, s) && IsRestored(s, s'))
            else step.DeleteOne? && step.id == id && StillEligible(y.t.stores, id, y.sweeps[step.sweep].stamps[id])
  {
    hide Next, KeepsStamp, IsStamped, IsRestored, IsNotified, ReactivatesOnly;
    if step.NotifyOne? { NoticeOnStore(settings, y, step, at, id); }
    else if step.DebitRow? { DebitRowOnStore(settings, y, step, at, id); DebitNeverReactivates(settings, y, step, at, id); }
    else if step.StampRow? { StampRowOnStore(settings, y, step, at, id); DebitNeverReactivates(settings, y, step, at, id); }
    else if Restoring(step) { RestoringOnStore(settings, y, step, at, id); }
    else if step.LadderRow? { LadderRowOnStore(settings, y, step, at, id); }
    else if OnStores(step) { StoreUpdateOnStore(settings, y, step, at, id); }
    else {
      BillingStepOnStores(settings, y, step, at);
      assert KeepsStamp(y.t.stores[id], y.t.stores[id], ReactivatesOnly(settings, y, step, id)) by { NothingKeepsStamp(settings, y, step, at, id); }
    }
  }

  lemma RestoresKeepKeys(settings: Settings, t: Tables, seller: SellerId)
    ensures CheckAndRestore(settings, t, seller).0.stores.Keys == t.stores.Keys
    ensures RestoreAfterPlanFeePayment(t, seller).0.stores.Keys == t.stores.Keys
  {
    hide OneActivePerSeller;
  }

  lemma SweepKeepsKeys(settings: Settings, y: System, step: Step, at: int)
    requires Enabled(y, step, at) && (step.NotifyOne? || step.DeleteOne? || step.StampRow?)
    ensures Next(settings, y, step, at).t.stores.Keys <= y.t.stores.Keys
  {
    hide NextSweeps, NextCalls, NextCooldowns, Notify;
  }

  lemma UpdatesKeepKeys(settings: Settings, y: System, step: Step, at: int)
    requires Enabled(y, step, at) && OnStores(step) && !step.OpenStore?
    ensures Next(settings, y, step, at).t.stores.Keys <= y.t.stores.Keys
  {
    if step.NotifyOne? || step.DeleteOne? || step.StampRow? {
      hide Next, Enabled;
      SweepKeepsKeys(settings, y, step, at);
    } else {
      hide OneActivePerSeller, HasActive, NextSweeps, NextCalls, NextCooldowns, Balance;
    }
  }

  lemma DebitKeepsKeys(settings: Settings, t: Tables, seller: SellerId, row: Subscription, now: int)
    requires IsDue(row, now)
    ensures DebitTurn(settings, t, seller, row, now).0.stores.Keys == t.stores.Keys
  {
    hide HasActive, Exempt, PastGrace, AddInterval;
  }

  /** A turn of the low-balance sweep pauses, restores, warns or does nothing. */
  lemma LadderTurns(settings: Settings, t: Tables, seller: SellerId, row: Ladder, now: int)
    ensures var t' := LadderVisit(settings, t, seller, row, now).0;
            || t' == t || t' == t.(stores := PauseActive(t.stores, seller)) || t' == CheckAndRestore(settings, t, seller).0
            || t' == t.(sellers := t.sellers[seller := Ladder(Some(now), Some(now + settings.walletGraceDays * DAY_MS))])
  {
    hide PauseActive, CheckAndRestore, Balance;
  }

  lemma PauseKeepsKeys(stores: Stores, seller: SellerId)
    ensures PauseActive(stores, seller).Keys == stores.Keys
  {}

  lemma LadderKeepsKeys(settings: Settings, t: Tables, seller: SellerId, row: Ladder, now: int)
    ensures LadderVisit(settings, t, seller, row, now).0.stores.Keys == t.stores.Keys
  {
    hide CheckAndRestore, LadderVisit, PauseActive;
    LadderTurns(settings, t, seller, row, now);
    RestoresKeepKeys(settings, t, seller);
    PauseKeepsKeys(t.stores, seller);
  }

  lemma RowsKeepKeys(settings: Settings, y: System, step: Step, at: int)
    requires Enabled(y, step, at) && (step.DebitRow? || step.LadderRow?)
    ensures Next(settings, y, step, at).t.stores.Keys == y.t.stores.Keys
  {
    hide NextSweeps, NextCalls, LadderVisit, DebitTurn;
    var w := y.sweeps[step.sweep];
    if step.DebitRow? { DebitKeepsKeys(settings, y.t, step.seller, w.rows[step.seller], w.now); }
    else { LadderKeepsKeys(settings, y.t, step.seller, w.unvisited[step.seller], w.now); }
  }

  /** Stores are only ever added by `OpenStore`, and they start off the retention clock. */
  lemma NewStores(settings: Settings, y: System, step: Step, at: int, id: StoreId)
    requires Enabled(y, step, at) && id !in y.t.stores && id in Next(settings, y, step, at).t.stores
    ensures step.OpenStore? && step.id == id
    ensures Next(settings, y, step, at).t.stores[id] == Store(step.seller, Active, None, None, map[])
  {
    if step.OpenStore? {
      hide NextSweeps, NextCalls, HasActive;
    } else if Restoring(step) {
      hide NextSweeps, NextCalls, CheckAndRestore, RestoreAfterPlanFeePayment;
      RestoresKeepKeys(settings, y.t, y.calls[step.call].seller);
    } else {
      hide Next, Enabled;
      if step.DebitRow? || step.LadderRow? { RowsKeepKeys(settings, y, step, at); }
      else if OnStores(step) { UpdatesKeepKeys(settings, y, step, at); }
      else { BillingStepOnStores(settings, y, step, at); }
    }
  }
}
