/**
 * The database rows the plan-fee lifecycle works on. A `map` is a table keyed by row id, a
 * missing timestamp is a SQL null, and all times are milliseconds.
 */
module BillingTables {
  import opened Common
  import opened Calendar

  type SellerId = nat
  type StoreId = nat
  type RequestId = nat

  datatype Settings = Settings(
    planFeeGraceDays: nat,
    retentionDays: nat,
    walletGraceDays: nat,
    warningThreshold: int,
    negativeFloor: int,
    newSubscriptionsPaused: bool,
    submissionCooldown: nat)

  datatype StoreStatus = Active | OrdersPaused | Suspended

  /** The retention warnings and win-back emails, each sent at most once per pause episode. */
  datatype Notice = Warning0 | Warning7 | Warning13 | Winback3 | Winback7 | Winback14

  /** `sent` holds the six `*SentAt` columns: a notice that is not a key has a null column. */
  datatype Store = Store(
    seller: SellerId,
    status: StoreStatus,
    terminalPausedAt: Option<int>,
    overLimitPausedAt: Option<int>,
    sent: map<Notice, int>)

  datatype Reminder = DaysBefore7 | DaysBefore3 | DaysBefore1 | ExpiryDay

  /** `individualPaid`: an individual-group plan with a positive price. */
  datatype Subscription = Subscription(
    individualPaid: bool,
    interval: Interval,
    periodEnd: Option<int>,
    sent: map<Reminder, int>)

  datatype RequestStatus = Pending | Verified(at: int) | Rejected(at: int)

  datatype Request = Request(seller: SellerId, amount: nat, planFee: Option<nat>, status: RequestStatus)

  datatype Ladder = Ladder(warnedAt: Option<int>, graceEndsAt: Option<int>)

  type Stores = map<StoreId, Store>

  /**
   * `sellers` carries every seller's low-balance warning columns, `slots` the free store slots
   * of approved ambassadors, and `payments` the audit log's verified plan-fee payments.
   */
  datatype Tables = Tables(
    stores: Stores,
    subscriptions: map<SellerId, Subscription>,
    requests: map<RequestId, Request>,
    balances: map<SellerId, int>,
    sellers: map<SellerId, Ladder>,
    slots: map<SellerId, nat>,
    payments: map<SellerId, seq<int>>)

  function Balance(t: Tables, seller: SellerId): int {
    if seller in t.balances then t.balances[seller] else 0
  }

  function StoresOf(stores: Stores, seller: SellerId): set<StoreId> {
    set id | id in stores && stores[id].seller == seller
  }

  predicate HasActive(stores: Stores, seller: SellerId) {
    exists id :: id in stores && stores[id].seller == seller && stores[id].status == Active
  }

  /** The partial unique index `stores_one_active_per_seller`; a write that breaks it is refused. */
  predicate OneActivePerSeller(stores: Stores) {
    forall a, b | a in stores && b in stores && stores[a].status == stores[b].status == Active ::
      stores[a].seller == stores[b].seller ==> a == b
  }

  /** A store update that the unique index refuses changes nothing. */
  function Commit(before: Stores, after: Stores): Stores {
    if OneActivePerSeller(after) then after else before
  }

  /** One `updateMany` of a seller's stores from one status to another. */
  function Recolour(stores: Stores, seller: SellerId, from: StoreStatus, to: StoreStatus): Stores {
    map id | id in stores ::
      var s := stores[id];
      if s.seller == seller && s.status == from then s.(status := to) else s
  }

  datatype Failure = NotFound | AlreadyResolved | AlreadyPending | CoolingDown | SubscriptionsPaused | NoSubscription | StoreConflict
}
