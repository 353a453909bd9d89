/**
 * The billing services as the code runs them: objects that update the database's tables
 * statement by statement and row by row. Each method is proved against the functions the run
 * theorems are about. `now` is a sweep's start; the order of the rows is the database's choice.
 */
module BillingServices {
  import opened Common
  import opened Calendar
  import opened BillingTables
  import GraceLadder
  import opened LowBalanceSweep
  import PlanFees
  import Retention

  datatype Mail = StoreMail(store: StoreId, notice: Notice) | SellerMail(seller: SellerId, reminder: Reminder)

  class Database {
    var stores: Stores
    var subscriptions: map<SellerId, Subscription>
    var requests: map<RequestId, Request>
    var balances: map<SellerId, int>
    var sellers: map<SellerId, Ladder>
    var slots: map<SellerId, nat>
    var payments: map<SellerId, seq<int>>
    /** Every email handed to the mailer, oldest first. */
    var outbox: seq<Mail>
    /** Audit entries of deleted stores. */
    var deletions: seq<StoreId>

    function View(): Tables reads this {
      Tables(stores, subscriptions, requests, balances, sellers, slots, payments)
    }

    constructor ()
      ensures View() == Tables(map[], map[], map[], map[], map[], map[], map[]) && outbox == [] && deletions == []
    {
      stores, subscriptions, requests, balances, sellers, slots, payments := map[], map[], map[], map[], map[], map[], map[];
      outbox, deletions := [], [];
    }
  }

  lemma SomeActive(stores: Stores, seller: SellerId)
    ensures HasActive(stores, seller) <==> ActiveStores(stores, seller) != {}
  {
    if id :| id in stores && stores[id].seller == seller && stores[id].status == Active {
      assert id in ActiveStores(stores, seller);
    }
  }

  // ---- wallet-grace-ladder.service.ts ------------------------------------------------------------

  class WalletGraceLadderService {
    const db: Database
    const settings: Settings

    constructor (db: Database, settings: Settings)
      ensures this.db == db && this.settings == settings
    {
      this.db, this.settings := db, settings;
    }

    method CheckAndRestore(seller: SellerId) returns (ok: bool)
      modifies db
      ensures (db.View(), ok) == GraceLadder.CheckAndRestore(settings, old(db.View()), seller)
      ensures db.outbox == old(db.outbox) && db.deletions == old(db.deletions)
    {
      var balance := Balance(db.View(), seller);
      if balance < settings.warningThreshold { return true; }
      db.sellers := db.sellers[seller := Ladder(None, None)];
      var restored := GraceLadder.Reactivate(db.stores, seller);
      ok := OneActivePerSeller(restored);
      if ok { db.stores := restored; }
    }

    method RestoreAfterPlanFeePayment(seller: SellerId) returns (ok: bool)
      modifies db
      ensures (db.View(), ok) == GraceLadder.RestoreAfterPlanFeePayment(old(db.View()), seller)
      ensures db.outbox == old(db.outbox) && db.deletions == old(db.deletions)
    {
      var restored := GraceLadder.Restore(db.stores, seller);
      ok := OneActivePerSeller(restored);
      if ok { db.stores := restored; }
    }

    method PauseActiveStores(seller: SellerId) returns (count: nat)
      modifies db`stores
      ensures db.stores == GraceLadder.PauseActive(old(db.stores), seller)
      ensures count == |ActiveStores(old(db.stores), seller)|
    {
      count := |ActiveStores(db.stores, seller)|;
      db.stores := GraceLadder.PauseActive(db.stores, seller);
    }

    method PauseActiveStoresForNonPayment(seller: SellerId, clock: int) returns (count: nat)
      modifies db`stores
      ensures db.stores == GraceLadder.PauseForNonPayment(old(db.stores), seller, clock)
      ensures count == |ActiveStores(old(db.stores), seller)|
      ensures count > 0 <==> HasActive(old(db.stores), seller)
    {
      ghost var active := ActiveStores(db.stores, seller);
      SomeActive(db.stores, seller);
      count := PauseActiveStores(seller);
      if count > 0 {
        db.stores := GraceLadder.Stamp(db.stores, seller, clock);
      } else {
        assert active == {};
        assert db.stores == old(db.stores);
      }
    }

    method CheckImmediateFloorPause(seller: SellerId) returns (paused: bool)
      modifies db`stores
      ensures paused <==> Balance(db.View(), seller) < settings.negativeFloor && HasActive(old(db.stores), seller)
      ensures paused ==> !HasActive(db.stores, seller)
      ensures !paused ==> db.stores == old(db.stores)
      ensures db.stores == if Balance(db.View(), seller) < settings.negativeFloor then GraceLadder.PauseActive(old(db.stores), seller) else old(db.stores)
    {
      if Balance(db.View(), seller) >= settings.negativeFloor { return false; }
      ghost var active := ActiveStores(db.stores, seller);
      SomeActive(db.stores, seller);
      var count := PauseActiveStores(seller);
      if count == 0 {
        assert active == {};
        assert db.stores == old(db.stores);
      }
      paused := count > 0;
    }

    method RunSweep(rows: seq<(SellerId, Ladder)>, now: int) returns (total: LadderTotals, ok: bool)
      modifies db
      ensures (db.View(), total, ok) == LadderSweep(settings, old(db.View()), rows, now, LadderTotals(0, 0, 0))
      ensures DistinctSellers(rows) && OneActivePerSeller(old(db.stores)) ==> SweptExactly(settings, old(db.View()), rows, now, db.View(), total, ok)
      ensures db.outbox == old(db.outbox) && db.deletions == old(db.deletions)
    {
      hide GraceLadder.CheckAndRestore, GraceLadder.PauseActive, ActiveStores, SweptExactly, DistinctSellers, OneActivePerSeller;
      if DistinctSellers(rows) && OneActivePerSeller(db.stores) { SweepIsExact(settings, db.View(), rows, now); }
      total := LadderTotals(0, 0, 0);
      for i := 0 to |rows|
        invariant LadderSweep(settings, old(db.View()), rows, now, LadderTotals(0, 0, 0)) == LadderSweep(settings, db.View(), rows[i..], now, total)
        invariant db.outbox == old(db.outbox) && db.deletions == old(db.deletions)
      {
        var (seller, row) := rows[i];
        assert rows[i..][0] == rows[i] && rows[i..][1..] == rows[i + 1..];
        var balance := Balance(db.View(), seller);
        if balance < settings.negativeFloor {
          var count := PauseActiveStores(seller);
          total := total.(paused := total.paused + count);
          continue;
        }
        if balance >= settings.warningThreshold {
          if row != Ladder(None, None) {
            var restored := CheckAndRestore(seller);
            if !restored { return total, false; }
            total := total.(restored := total.restored + 1);
          }
          continue;
        }
        if row.warnedAt == None {
          db.sellers := db.sellers[seller := Ladder(Some(now), Some(now + settings.walletGraceDays * DAY_MS))];
          total := total.(warned := total.warned + 1);
          continue;
        }
        if row.graceEndsAt.Some? && row.graceEndsAt.value <= now {
          var count := PauseActiveStores(seller);
          total := total.(paused := total.paused + count);
        }
      }
      ok := true;
    }
  }

  // ---- plan-fee-debit.service.ts -----------------------------------------------------------------

  /** The plan renews for nothing: it has an interval, and the seller's stores all fit into free slots. */
  predicate FreeOfCharge(t: Tables, seller: SellerId)
    requires seller in t.subscriptions
  {
    && t.subscriptions[seller].interval != NoInterval
    && seller in t.slots && 0 < t.slots[seller] && |StoresOf(t.stores, seller)| <= t.slots[seller]
  }

  predicate Renewed(t: Tables, seller: SellerId, now: int) {
    && seller in t.subscriptions && t.subscriptions[seller].individualPaid
    && t.subscriptions[seller].periodEnd.Some? && t.subscriptions[seller].periodEnd.value <= now && FreeOfCharge(t, seller)
  }

  /** The sweep pauses exactly the sellers whose plan has a price, ended the grace days ago and is not free of charge. */
  predicate PausedForFee(settings: Settings, t: Tables, seller: SellerId, now: int) {
    && seller in t.subscriptions && t.subscriptions[seller].individualPaid && t.subscriptions[seller].periodEnd.Some?
    && t.subscriptions[seller].periodEnd.value + settings.planFeeGraceDays * DAY_MS <= now && !FreeOfCharge(t, seller)
  }

  /** The sweep's effect on the sellers in `done`, independent of the order they are visited in. */
  function StoresAfterDebits(settings: Settings, t: Tables, done: set<SellerId>, now: int, clock: SellerId -> int): Stores {
    map id | id in t.stores ::
      var seller := t.stores[id].seller;
      if seller in done && PausedForFee(settings, t, seller, now)
      then GraceLadder.PauseForNonPayment(t.stores, seller, clock(seller))[id] else t.stores[id]
  }

  function SubscriptionsAfterDebits(t: Tables, done: set<SellerId>, now: int): map<SellerId, Subscription> {
    map seller | seller in t.subscriptions ::
      var s := t.subscriptions[seller];
      if seller in done && Renewed(t, seller, now)
      then s.(periodEnd := Some(AddInterval(s.periodEnd.value, s.interval)), sent := map[]) else s
  }

  class PlanFeeDebitService {
    const db: Database
    const graceLadder: WalletGraceLadderService

    constructor (db: Database, graceLadder: WalletGraceLadderService)
      requires graceLadder.db == db
      ensures this.db == db && this.graceLadder == graceLadder
    {
      this.db, this.graceLadder := db, graceLadder;
    }

    /** The body of the sweep's loop: one due subscription, as the sweep read it. */
    method VisitRow(seller: SellerId, row: Subscription, now: int, clock: int) returns (paused: bool)
      requires graceLadder.db == db && PlanFees.IsDue(row, now) && seller in db.subscriptions
      modifies db`stores, db`subscriptions
      ensures db.View() == PlanFees.DebitVisit(graceLadder.settings, old(db.View()), seller, row, now, clock)
      ensures paused <==> old(HasActive(db.stores, seller)) && row.individualPaid
                          && row.periodEnd.value + graceLadder.settings.planFeeGraceDays * DAY_MS <= now
                          && !(row.interval != NoInterval && PlanFees.Exempt(old(db.View()), seller))
    {
      paused := false;
      if !row.individualPaid { return; }
      if row.interval != NoInterval && PlanFees.Exempt(db.View(), seller) {
        db.subscriptions := db.subscriptions[seller := db.subscriptions[seller].(
          periodEnd := Some(AddInterval(row.periodEnd.value, row.interval)), sent := map[])];
        return;
      }
      if !PlanFees.PastGrace(graceLadder.settings, row, now) { return; }
      var count := graceLadder.PauseActiveStoresForNonPayment(seller, clock);
      paused := count > 0;
    }

    /** `clock` gives the reading of the clock when a seller's stores are stamped. */
    method DebitDuePlanFees(due: seq<SellerId>, now: int, clock: SellerId -> int) returns (paused: nat)
      requires graceLadder.db == db
      requires Lists(due, set seller | seller in db.subscriptions && PlanFees.IsDue(db.subscriptions[seller], now))
      modifies db`stores, db`subscriptions
      ensures db.stores == StoresAfterDebits(graceLadder.settings, old(db.View()), old(db.subscriptions).Keys, now, clock)
      ensures db.subscriptions == SubscriptionsAfterDebits(old(db.View()), old(db.subscriptions).Keys, now)
      ensures paused == |set seller | seller in old(db.subscriptions)
                          && PausedForFee(graceLadder.settings, old(db.View()), seller, now) && HasActive(old(db.stores), seller)|
      ensures forall seller | seller in old(db.subscriptions) && HasActive(old(db.stores), seller) ::
                var s, stores := old(db.subscriptions)[seller], |StoresOf(old(db.stores), seller)|;
                !HasActive(db.stores, seller) <==>
                  && s.individualPaid && s.periodEnd.Some? && s.periodEnd.value + graceLadder.settings.planFeeGraceDays * DAY_MS <= now
                  && (s.interval == NoInterval || seller !in db.slots || db.slots[seller] == 0 || db.slots[seller] < stores)
    {
      hide StoresAfterDebits, SubscriptionsAfterDebits, PausedForFee, PlanFees.DebitVisit, PlanFees.Exempt, PlanFees.PastGrace, HasActive;
      hide Lists, Elements, StoppedForFee;
      var settings := graceLadder.settings;
      var rows := db.subscriptions;
      ghost var t := db.View();
      ghost var keys := set seller | seller in rows && PlanFees.IsDue(rows[seller], now);
      AllListed(due, keys);
      NoDebitsYet(settings, t, now, clock);
      paused := 0;
      for i := 0 to |due|
        invariant db.View() == AfterDebits(settings, t, Elements(due[..i]), now, clock)
        invariant paused == |StoppedForFee(settings, t, Elements(due[..i]), now)|
      {
        var seller := due[i];
        NextListed(due, keys, i);
        OneDebit(settings, t, Elements(due[..i]), now, clock, seller);
        OneMoreStopped(settings, t, Elements(due[..i]), now, seller);
        var stopped := VisitRow(seller, rows[seller], now, clock(seller));
        if stopped { paused := paused + 1; }
      }
      AllDebits(settings, t, keys, now, clock);
      AllStopped(settings, t, keys, now);
      forall seller | seller in rows && HasActive(t.stores, seller)
        ensures !HasActive(db.stores, seller) <==> PausedForFee(settings, t, seller, now)
        ensures PausedForFee(settings, t, seller, now) <==>
                  && rows[seller].individualPaid && rows[seller].periodEnd.Some? && rows[seller].periodEnd.value + settings.planFeeGraceDays * DAY_MS <= now
                  && (rows[seller].interval == NoInterval || seller !in db.slots || db.slots[seller] == 0 || db.slots[seller] < |StoresOf(t.stores, seller)|)
      {
        StoppedExactly(settings, t, now, clock, seller);
      }
    }
  }

  /** A selling seller stops selling exactly if the sweep pauses it for its fee. */
  lemma StoppedExactly(settings: Settings, t: Tables, now: int, clock: SellerId -> int, seller: SellerId)
    requires seller in t.subscriptions && HasActive(t.stores, seller)
    ensures !HasActive(StoresAfterDebits(settings, t, t.subscriptions.Keys, now, clock), seller) <==> PausedForFee(settings, t, seller, now)
    ensures PausedForFee(settings, t, seller, now) <==>
              var s := t.subscriptions[seller];
              && s.individualPaid && s.periodEnd.Some? && s.periodEnd.value + settings.planFeeGraceDays * DAY_MS <= now
              && (s.interval == NoInterval || seller !in t.slots || t.slots[seller] == 0 || t.slots[seller] < |StoresOf(t.stores, seller)|)
  {
    var after := StoresAfterDebits(settings, t, t.subscriptions.Keys, now, clock);
    if PausedForFee(settings, t, seller, now) {
      GraceLadder.NonPaymentPauses(t.stores, seller, clock(seller));
      SameStoreCounts(settings, t, t.subscriptions.Keys, now, clock, seller);
      var paused := GraceLadder.PauseForNonPayment(t.stores, seller, clock(seller));
      forall id | id in after && after[id].seller == seller ensures after[id].status != Active {
        assert id in StoresOf(after, seller);
        assert after[id] == paused[id];
      }
    } else {
      var id :| id in t.stores && t.stores[id].seller == seller && t.stores[id].status == Active;
      assert after[id] == t.stores[id];
    }
  }

  /** The sellers among these whom the sweep stops. */
  ghost function StoppedForFee(settings: Settings, t: Tables, sellers: set<SellerId>, now: int): set<SellerId> {
    set seller | seller in sellers && PausedForFee(settings, t, seller, now) && HasActive(t.stores, seller)
  }

  lemma OneMoreStopped(settings: Settings, t: Tables, sellers: set<SellerId>, now: int, seller: SellerId)
    requires seller !in sellers
    ensures |StoppedForFee(settings, t, sellers + {seller}, now)| ==
            |StoppedForFee(settings, t, sellers, now)| + if PausedForFee(settings, t, seller, now) && HasActive(t.stores, seller) then 1 else 0
  {
    hide PausedForFee, HasActive;
    var before := StoppedForFee(settings, t, sellers, now);
    assert StoppedForFee(settings, t, sellers + {seller}, now) ==
           if PausedForFee(settings, t, seller, now) && HasActive(t.stores, seller) then before + {seller} else before;
  }

  lemma AllStopped(settings: Settings, t: Tables, keys: set<SellerId>, now: int)
    requires keys == set seller | seller in t.subscriptions && PlanFees.IsDue(t.subscriptions[seller], now)
    ensures StoppedForFee(settings, t, keys, now) ==
            set seller | seller in t.subscriptions && PausedForFee(settings, t, seller, now) && HasActive(t.stores, seller)
  {
    hide HasActive, FreeOfCharge;
  }

  function AfterDebits(settings: Settings, t: Tables, done: set<SellerId>, now: int, clock: SellerId -> int): Tables {
    t.(stores := StoresAfterDebits(settings, t, done, now, clock), subscriptions := SubscriptionsAfterDebits(t, done, now))
  }

  lemma NoDebitsYet(settings: Settings, t: Tables, now: int, clock: SellerId -> int)
    ensures StoresAfterDebits(settings, t, {}, now, clock) == t.stores && SubscriptionsAfterDebits(t, {}, now) == t.subscriptions
    ensures StoppedForFee(settings, t, {}, now) == {}
  {}

  /** Sellers that are not due are never touched, so visiting the due ones is visiting them all. */
  lemma AllDebits(settings: Settings, t: Tables, done: set<SellerId>, now: int, clock: SellerId -> int)
    requires done == set seller | seller in t.subscriptions && PlanFees.IsDue(t.subscriptions[seller], now)
    ensures StoresAfterDebits(settings, t, done, now, clock) == StoresAfterDebits(settings, t, t.subscriptions.Keys, now, clock)
    ensures SubscriptionsAfterDebits(t, done, now) == SubscriptionsAfterDebits(t, t.subscriptions.Keys, now)
    ensures forall seller | PausedForFee(settings, t, seller, now) :: seller in done
  {
    hide FreeOfCharge, GraceLadder.PauseForNonPayment;
  }

  /** What the turn finds of its seller is what the sweep started from. */
  lemma TurnSeesStart(settings: Settings, t: Tables, done: set<SellerId>, now: int, clock: SellerId -> int, seller: SellerId)
    requires seller !in done && seller in t.subscriptions
    ensures var before, row := AfterDebits(settings, t, done, now, clock), t.subscriptions[seller];
            && seller in before.subscriptions
            && (PlanFees.Exempt(before, seller) <==> PlanFees.Exempt(t, seller))
            && (HasActive(before.stores, seller) <==> HasActive(t.stores, seller))
  {
    hide StoresAfterDebits, HasActive;
    SameStoreCounts(settings, t, done, now, clock, seller);
    SubscriptionsStep(t, done, now, seller);
  }

  /** One seller's turn, in the terms of the tables the sweep started from. */
  lemma OneDebit(settings: Settings, t: Tables, done: set<SellerId>, now: int, clock: SellerId -> int, seller: SellerId)
    requires seller !in done && seller in t.subscriptions && PlanFees.IsDue(t.subscriptions[seller], now)
    ensures var before, row := AfterDebits(settings, t, done, now, clock), t.subscriptions[seller];
            && seller in before.subscriptions
            && PlanFees.DebitVisit(settings, before, seller, row, now, clock(seller)) == AfterDebits(settings, t, done + {seller}, now, clock)
            && (PausedForFee(settings, t, seller, now) && HasActive(t.stores, seller) <==>
                  HasActive(before.stores, seller) && row.individualPaid && row.periodEnd.value + settings.planFeeGraceDays * DAY_MS <= now
                  && !(row.interval != NoInterval && PlanFees.Exempt(before, seller)))
  {
    TurnSeesStart(settings, t, done, now, clock, seller);
    PastGraceIs(settings, t.subscriptions[seller], now);
    FreeIsExempt(t, seller);
    SubscriptionsStep(t, done, now, seller);
    hide GraceLadder.PauseForNonPayment, PlanFees.PastGrace, PlanFees.Exempt, FreeOfCharge, StoresAfterDebits, SubscriptionsAfterDebits, HasActive;
    if PausedForFee(settings, t, seller, now) { PauseOfOneSeller(settings, t, done, now, clock, seller); }
    else { SkipOfOneSeller(settings, t, done, now, clock, seller); }
  }

  lemma PastGraceIs(settings: Settings, s: Subscription, now: int)
    ensures PlanFees.PastGrace(settings, s, now) <==> s.individualPaid && s.periodEnd.Some? && s.periodEnd.value + settings.planFeeGraceDays * DAY_MS <= now
  {}

  lemma FreeIsExempt(t: Tables, seller: SellerId)
    requires seller in t.subscriptions
    ensures FreeOfCharge(t, seller) <==> t.subscriptions[seller].interval != NoInterval && PlanFees.Exempt(t, seller)
  {}

  lemma SubscriptionsStep(t: Tables, done: set<SellerId>, now: int, seller: SellerId)
    requires seller !in done && seller in t.subscriptions
    ensures var subscriptions, row := SubscriptionsAfterDebits(t, done, now), t.subscriptions[seller];
            SubscriptionsAfterDebits(t, done + {seller}, now)
            == if Renewed(t, seller, now) then subscriptions[seller := row.(periodEnd := Some(AddInterval(row.periodEnd.value, row.interval)), sent := map[])]
               else subscriptions
  {
    hide FreeOfCharge, AddInterval;
    var before, after := SubscriptionsAfterDebits(t, done, now), SubscriptionsAfterDebits(t, done + {seller}, now);
    forall other | other in t.subscriptions && other != seller ensures after[other] == before[other] {}
  }

  lemma SkipOfOneSeller(settings: Settings, t: Tables, done: set<SellerId>, now: int, clock: SellerId -> int, seller: SellerId)
    requires !PausedForFee(settings, t, seller, now)
    ensures StoresAfterDebits(settings, t, done + {seller}, now, clock) == StoresAfterDebits(settings, t, done, now, clock)
  {
    hide PausedForFee;
  }

  /** Visits to other sellers leave a seller's stores, and so its exemption, as they were. */
  lemma SameStoreCounts(settings: Settings, t: Tables, done: set<SellerId>, now: int, clock: SellerId -> int, seller: SellerId)
    ensures var stores := StoresAfterDebits(settings, t, done, now, clock);
            StoresOf(stores, seller) == StoresOf(t.stores, seller)
    ensures seller !in done ==> (HasActive(StoresAfterDebits(settings, t, done, now, clock), seller) <==> HasActive(t.stores, seller))
  {
    var stores := StoresAfterDebits(settings, t, done, now, clock);
    forall id | id in t.stores ensures stores[id].seller == t.stores[id].seller {}
  }

  /** Pausing works store by store once it is known whether the seller sells at all. */
  lemma PauseIsLocal(stores: Stores, other: Stores, seller: SellerId, at: int, id: StoreId)
    requires HasActive(stores, seller) == HasActive(other, seller) && id in stores && id in other && stores[id] == other[id]
    ensures GraceLadder.PauseForNonPayment(stores, seller, at)[id] == GraceLadder.PauseForNonPayment(other, seller, at)[id]
    ensures stores[id].seller != seller ==> GraceLadder.PauseForNonPayment(stores, seller, at)[id] == stores[id]
  {
    hide HasActive;
  }

  lemma PauseOfOneSeller(settings: Settings, t: Tables, done: set<SellerId>, now: int, clock: SellerId -> int, seller: SellerId)
    requires seller !in done && PausedForFee(settings, t, seller, now)
    ensures GraceLadder.PauseForNonPayment(StoresAfterDebits(settings, t, done, now, clock), seller, clock(seller))
         == StoresAfterDebits(settings, t, done + {seller}, now, clock)
  {
    SameStoreCounts(settings, t, done, now, clock, seller);
    var before, after := StoresAfterDebits(settings, t, done, now, clock), StoresAfterDebits(settings, t, done + {seller}, now, clock);
    var paused := GraceLadder.PauseForNonPayment(before, seller, clock(seller));
    PauseKeepsKeys(before, seller, clock(seller));
    hide PausedForFee, GraceLadder.PauseForNonPayment, HasActive;
    forall id | id in t.stores ensures paused[id] == after[id] {
      if t.stores[id].seller == seller {
        PauseIsLocal(before, t.stores, seller, clock(seller), id);
      } else {
        SameSeller(settings, t, done, now, clock, id);
        PauseIsLocal(before, before, seller, clock(seller), id);
      }
    }
    assert paused.Keys == after.Keys;
  }

  lemma PauseKeepsKeys(stores: Stores, seller: SellerId, at: int)
    ensures GraceLadder.PauseForNonPayment(stores, seller, at).Keys == stores.Keys
  {}

  lemma SameSeller(settings: Settings, t: Tables, done: set<SellerId>, now: int, clock: SellerId -> int, id: StoreId)
    requires id in t.stores
    ensures StoresAfterDebits(settings, t, done, now, clock)[id].seller == t.stores[id].seller
  {}

  // ---- retention.service.ts and renewal-reminders.service.ts ----------------------------------------

  /** The emails a sweep owes: one for each due notice of each store. */
  function NoticesOwed(stores: Stores, ids: set<StoreId>, now: int, kinds: set<Notice>, retentionDays: nat): set<Mail> {
    set id, n | id in stores && id in ids && n in kinds && Retention.NoticeDue(stores[id], now, n, retentionDays) :: StoreMail(id, n)
  }

  function StoresNotified(stores: Stores, ids: set<StoreId>, now: int, kinds: set<Notice>, retentionDays: nat): Stores {
    map id | id in stores :: if id in ids then Retention.Notify(stores[id], stores[id], now, kinds, retentionDays) else stores[id]
  }

  /** `mails` is `before` with exactly the mails of `owed` appended, each once. */
  ghost predicate Appends(before: seq<Mail>, mails: seq<Mail>, owed: set<Mail>) {
    && |before| <= |mails| && mails[..|before|] == before
    && NoDuplicates(mails[|before|..])
    && (forall m :: m in mails[|before|..] <==> m in owed)
  }

  lemma AppendOne(before: seq<Mail>, mails: seq<Mail>, owed: set<Mail>, m: Mail)
    requires Appends(before, mails, owed) && m !in owed
    ensures Appends(before, mails + [m], owed + {m})
  {
    var tail := mails[|before|..];
    assert (mails + [m])[|before|..] == tail + [m];
    assert (mails + [m])[..|before|] == mails[..|before|];
    assert forall x :: x in tail + [m] <==> x in tail || x == m;
  }

  class NoticeService {
    const db: Database
    const settings: Settings

    constructor (db: Database, settings: Settings)
      ensures this.db == db && this.settings == settings
    {
      this.db, this.settings := db, settings;
    }

    /** One milestone of one store row: skipped, or mailed and its column set. */
    method SendNotice(id: StoreId, row: Store, n: Notice, now: int) returns (sent: bool)
      requires id in db.stores
      modifies db`stores, db`outbox
      ensures sent <==> Retention.NoticeDue(row, now, n, settings.retentionDays)
      ensures sent ==> db.stores == old(db.stores)[id := old(db.stores)[id].(sent := old(db.stores)[id].sent[n := now])]
                       && db.outbox == old(db.outbox) + [StoreMail(id, n)]
      ensures !sent ==> db.stores == old(db.stores) && db.outbox == old(db.outbox)
    {
      sent := Retention.OnRetentionClock(row) && Retention.NoticeDay(n, settings.retentionDays) <= Retention.DaysPaused(row, now) && n !in row.sent;
      if sent {
        db.outbox := db.outbox + [StoreMail(id, n)];
        db.stores := db.stores[id := db.stores[id].(sent := db.stores[id].sent[n := now])];
      }
    }

    /** The loop over the milestones of one store. */
    method SendNoticesOf(id: StoreId, row: Store, milestones: seq<Notice>, now: int) returns (sentCount: nat)
      requires id in db.stores && db.stores[id] == row && NoDuplicates(milestones)
      modifies db`stores, db`outbox
      ensures db.stores == old(db.stores)[id := Retention.Notify(row, row, now, Elements(milestones), settings.retentionDays)]
      ensures Appends(old(db.outbox), db.outbox, NoticesOwed(map[id := row], {id}, now, Elements(milestones), settings.retentionDays))
      ensures sentCount == |db.outbox| - |old(db.outbox)|
    {
      hide Retention.NoticeDue, Retention.Notify, NoticesOwed, Appends;
      sentCount := 0;
      ghost var retention := settings.retentionDays;
      ghost var owed: set<Mail> := {};
      NoMilestones(db.outbox, row, id, now, retention);
      assert Elements(milestones[..0]) == {};
      for k := 0 to |milestones|
        invariant db.stores == old(db.stores)[id := Retention.Notify(row, row, now, Elements(milestones[..k]), retention)]
        invariant owed == NoticesOwed(map[id := row], {id}, now, Elements(milestones[..k]), retention)
        invariant Appends(old(db.outbox), db.outbox, owed)
        invariant sentCount == |db.outbox| - |old(db.outbox)|
      {
        ghost var n := milestones[k];
        assert n !in milestones[..k];
        assert Elements(milestones[..k + 1]) == Elements(milestones[..k]) + {n};
        ghost var mails := db.outbox;
        var sent := SendNotice(id, row, milestones[k], now);
        OneMoreNotice(row, id, now, Elements(milestones[..k]), n, retention);
        if sent {
          NotOwedYet(row, id, now, Elements(milestones[..k]), n, retention);
          AppendOne(old(db.outbox), mails, owed, StoreMail(id, n));
          owed := owed + {StoreMail(id, n)};
          sentCount := sentCount + 1;
        }
      }
      assert milestones[..|milestones|] == milestones;
    }

    /** The sweep over the paused stores, in whatever order `ids` the query returns them. */
    method SendNotices(ids: seq<StoreId>, milestones: seq<Notice>, now: int) returns (sentCount: nat)
      requires Lists(ids, set id | id in db.stores && Retention.OnRetentionClock(db.stores[id])) && NoDuplicates(milestones)
      modifies db`stores, db`outbox
      ensures db.stores == Retention.SendNotices(old(db.stores), now, Elements(milestones), settings.retentionDays)
      ensures Appends(old(db.outbox), db.outbox, NoticesOwed(old(db.stores), old(db.stores).Keys, now, Elements(milestones), settings.retentionDays))
      ensures sentCount == |db.outbox| - |old(db.outbox)|
      ensures forall id, n | id in old(db.stores) ::
                var s := old(db.stores)[id];
                && id in db.stores && db.stores[id] == s.(sent := db.stores[id].sent)
                && (n in db.stores[id].sent ==> db.stores[id].sent[n] == if n in s.sent then s.sent[n] else now)
                && (StoreMail(id, n) in db.outbox[|old(db.outbox)|..] <==> n in db.stores[id].sent && n !in s.sent)
                && (n in db.stores[id].sent <==>
                      || n in s.sent
                      || (n in milestones && s.status == OrdersPaused && s.terminalPausedAt.Some? &&
                          var days := match n
                            case Warning0 => 0 case Warning7 => 7 case Warning13 => Max(settings.retentionDays - 1, 0)
                            case Winback3 => 3 case Winback7 => 7 case Winback14 => 14;
                          days * DAY_MS <= now - s.terminalPausedAt.value))
    {
      forall id, n | id in db.stores { NoticesInNumbers(db.stores, id, now, Elements(milestones), n, settings.retentionDays); }
      hide Retention.NoticeDue, Retention.Notify, Retention.OnRetentionClock, Appends;
      var rows := db.stores;
      ghost var kinds, retention := Elements(milestones), settings.retentionDays;
      ghost var done: set<StoreId> := {};
      sentCount := 0;
      assert db.stores == StoresNotified(rows, done, now, kinds, retention);
      NothingAppended(db.outbox, rows, now, kinds, retention);
      for i := 0 to |ids|
        invariant done == Elements(ids[..i])
        invariant db.stores == StoresNotified(rows, done, now, kinds, retention)
        invariant Appends(old(db.outbox), db.outbox, NoticesOwed(rows, done, now, kinds, retention))
        invariant sentCount == |db.outbox| - |old(db.outbox)|
      {
        var id := ids[i];
        assert id in ids && id !in ids[..i];
        assert Elements(ids[..i + 1]) == done + {id};
        ghost var mails := db.outbox;
        var sent := SendNoticesOf(id, rows[id], milestones, now);
        AppendMore(old(db.outbox), mails, db.outbox, rows, done, id, now, kinds, retention);
        sentCount := sentCount + sent;
        done := done + {id};
      }
      assert ids[..|ids|] == ids;
      OnlyPausedStoresNotified(rows, done, now, kinds, retention);
      AppendedExactly(old(db.outbox), db.outbox, NoticesOwed(rows, rows.Keys, now, kinds, retention));
    }
  }

  lemma AppendedExactly(before: seq<Mail>, mails: seq<Mail>, owed: set<Mail>)
    requires Appends(before, mails, owed)
    ensures |before| <= |mails| && forall m :: m in mails[|before|..] <==> m in owed
  {}

  /** Which mails and flags a sweep leaves on one store, in numbers. */
  lemma NoticesInNumbers(stores: Stores, id: StoreId, now: int, kinds: set<Notice>, n: Notice, retentionDays: nat)
    requires id in stores
    ensures var s, s' := stores[id], Retention.SendNotices(stores, now, kinds, retentionDays)[id];
            && s' == s.(sent := s'.sent) && (n in s'.sent ==> s'.sent[n] == if n in s.sent then s.sent[n] else now)
            && (StoreMail(id, n) in NoticesOwed(stores, stores.Keys, now, kinds, retentionDays) <==> n in s'.sent && n !in s.sent)
            && (n in s'.sent <==>
                  || n in s.sent
                  || (n in kinds && s.status == OrdersPaused && s.terminalPausedAt.Some? &&
                      var days := match n
                        case Warning0 => 0 case Warning7 => 7 case Warning13 => Max(retentionDays - 1, 0)
                        case Winback3 => 3 case Winback7 => 7 case Winback14 => 14;
                      days * DAY_MS <= now - s.terminalPausedAt.value))
  {
    Retention.NoticeTimes(stores[id], now, retentionDays);
    hide Retention.NoticeDue;
  }

  lemma OneMoreNotice(row: Store, id: StoreId, now: int, kinds: set<Notice>, n: Notice, retentionDays: nat)
    requires n !in kinds
    ensures var before, after := Retention.Notify(row, row, now, kinds, retentionDays), Retention.Notify(row, row, now, kinds + {n}, retentionDays);
            && after == (if Retention.NoticeDue(row, now, n, retentionDays) then before.(sent := before.sent[n := now]) else before)
            && NoticesOwed(map[id := row], {id}, now, kinds + {n}, retentionDays)
               == NoticesOwed(map[id := row], {id}, now, kinds, retentionDays)
                  + (if Retention.NoticeDue(row, now, n, retentionDays) then {StoreMail(id, n)} else {})
  {
    hide Retention.NoticeDue;
  }

  lemma NotOwedYet(row: Store, id: StoreId, now: int, kinds: set<Notice>, n: Notice, retentionDays: nat)
    requires n !in kinds
    ensures StoreMail(id, n) !in NoticesOwed(map[id := row], {id}, now, kinds, retentionDays)
  {}

  lemma NoMilestones(mails: seq<Mail>, row: Store, id: StoreId, now: int, retentionDays: nat)
    ensures Retention.Notify(row, row, now, {}, retentionDays) == row
    ensures NoticesOwed(map[id := row], {id}, now, {}, retentionDays) == {} && Appends(mails, mails, {})
  {}

  lemma NothingAppended(mails: seq<Mail>, stores: Stores, now: int, kinds: set<Notice>, retentionDays: nat)
    ensures Appends(mails, mails, NoticesOwed(stores, {}, now, kinds, retentionDays))
  {}

  lemma AppendMore(before: seq<Mail>, mid: seq<Mail>, after: seq<Mail>, stores: Stores, done: set<StoreId>, id: StoreId, now: int, kinds: set<Notice>, retentionDays: nat)
    requires id in stores && id !in done
    requires Appends(before, mid, NoticesOwed(stores, done, now, kinds, retentionDays))
    requires Appends(mid, after, NoticesOwed(map[id := stores[id]], {id}, now, kinds, retentionDays))
    ensures Appends(before, after, NoticesOwed(stores, done + {id}, now, kinds, retentionDays))
  {
    hide Retention.NoticeDue;
    var old', new' := mid[|before|..], after[|mid|..];
    assert after[|before|..] == old' + new';
    assert after[..|before|] == after[..|mid|][..|before|];
    forall m ensures m in old' + new' <==> m in NoticesOwed(stores, done + {id}, now, kinds, retentionDays) {}
    forall i, j | 0 <= i < |old'| && 0 <= j < |new'| ensures old'[i] != new'[j] {
      assert old'[i] in old' && new'[j] in new';
    }
  }

  lemma OnlyPausedStoresNotified(stores: Stores, done: set<StoreId>, now: int, kinds: set<Notice>, retentionDays: nat)
    requires done == set id | id in stores && Retention.OnRetentionClock(stores[id])
    ensures StoresNotified(stores, done, now, kinds, retentionDays) == Retention.SendNotices(stores, now, kinds, retentionDays)
    ensures NoticesOwed(stores, done, now, kinds, retentionDays) == NoticesOwed(stores, stores.Keys, now, kinds, retentionDays)
  {
    forall id | id in stores && id !in done ensures Retention.Notify(stores[id], stores[id], now, kinds, retentionDays) == stores[id] {}
  }

  class RetentionService {
    const db: Database
    const notices: NoticeService

    constructor (db: Database, notices: NoticeService)
      requires notices.db == db
      ensures this.db == db && this.notices == notices
    {
      this.db, this.notices := db, notices;
    }

    method SendWarnings(ids: seq<StoreId>, now: int) returns (warned: nat)
      requires notices.db == db
      requires Lists(ids, set id | id in db.stores && Retention.OnRetentionClock(db.stores[id]))
      modifies db`stores, db`outbox
      ensures db.stores == Retention.SendNotices(old(db.stores), now, Retention.WARNINGS, notices.settings.retentionDays)
      ensures Appends(old(db.outbox), db.outbox, NoticesOwed(old(db.stores), old(db.stores).Keys, now, Retention.WARNINGS, notices.settings.retentionDays))
      ensures warned == |db.outbox| - |old(db.outbox)|
      ensures forall id | id in old(db.stores) && old(db.stores)[id].status == OrdersPaused && old(db.stores)[id].terminalPausedAt.Some? ::
                var s, mails, waited := old(db.stores)[id], db.outbox[|old(db.outbox)|..], now - old(db.stores)[id].terminalPausedAt.value;
                && (StoreMail(id, Warning0) in mails <==> Warning0 !in s.sent && 0 <= waited)
                && (StoreMail(id, Warning7) in mails <==> Warning7 !in s.sent && 7 * DAY_MS <= waited)
                && (StoreMail(id, Warning13) in mails <==> Warning13 !in s.sent && Max(notices.settings.retentionDays - 1, 0) * DAY_MS <= waited)
    {
      var milestones := [Warning0, Warning7, Warning13];
      assert Elements(milestones) == Retention.WARNINGS;
      warned := notices.SendNotices(ids, milestones, now);
    }

    method DeleteStoreIfStillEligible(id: StoreId, expected: int) returns (deleted: bool)
      modifies db`stores
      ensures deleted <==> Retention.StillEligible(old(db.stores), id, expected)
      ensures db.stores == Retention.DeleteIfStillEligible(old(db.stores), id, expected)
    {
      if id !in db.stores { return false; }
      var current := db.stores[id];
      if current.status != OrdersPaused || current.terminalPausedAt == None { return false; }
      if current.terminalPausedAt.value != expected { return false; }
      db.stores := db.stores - {id};
      deleted := true;
    }

    /** Run without interference, the sweep deletes the expired stores, audits each once, and nothing else. */
    method RunDeletionSweep(ids: seq<StoreId>, now: int) returns (deleted: nat)
      requires Lists(ids, Retention.Candidates(db.stores, now, notices.settings.retentionDays).Keys)
      modifies db`stores, db`deletions
      ensures db.stores == old(db.stores) - Retention.Candidates(old(db.stores), now, notices.settings.retentionDays).Keys
      ensures db.deletions == old(db.deletions) + ids && deleted == |ids|
      ensures forall id | id in old(db.stores) ::
                var s := old(db.stores)[id];
                id !in db.stores <==>
                  s.status == OrdersPaused && s.terminalPausedAt.Some? && s.terminalPausedAt.value + notices.settings.retentionDays * DAY_MS <= now
    {
      var candidates := Retention.Candidates(db.stores, now, notices.settings.retentionDays);
      ExpiredExactly(db.stores, now, notices.settings.retentionDays);
      hide Retention.Expired;
      deleted := 0;
      for i := 0 to |ids|
        invariant db.stores == old(db.stores) - Elements(ids[..i])
        invariant db.deletions == old(db.deletions) + ids[..i] && deleted == i
      {
        var id := ids[i];
        assert id in ids && id !in ids[..i];
        assert Elements(ids[..i + 1]) == Elements(ids[..i]) + {id};
        CandidateIsEligible(old(db.stores), id, now, notices.settings.retentionDays);
        var gone := DeleteStoreIfStillEligible(id, candidates[id]);
        if gone {
          deleted := deleted + 1;
          db.deletions := db.deletions + [id];
        }
      }
      assert ids[..|ids|] == ids && Elements(ids) == candidates.Keys;
    }
  }

  lemma ExpiredExactly(stores: Stores, now: int, retentionDays: nat)
    ensures forall id | id in stores ::
              id in Retention.Candidates(stores, now, retentionDays) <==>
              && stores[id].status == OrdersPaused && stores[id].terminalPausedAt.Some?
              && stores[id].terminalPausedAt.value + retentionDays * DAY_MS <= now
  {}

  lemma CandidateIsEligible(stores: Stores, id: StoreId, now: int, retentionDays: nat)
    requires id in Retention.Candidates(stores, now, retentionDays)
    ensures Retention.StillEligible(stores, id, Retention.Candidates(stores, now, retentionDays)[id])
  {}

  const REMINDERS := [DaysBefore7, DaysBefore3, DaysBefore1, ExpiryDay]

  function RemindersOwed(rows: map<SellerId, Subscription>, sellers: set<SellerId>, now: int, kinds: set<Reminder>): set<Mail> {
    set seller, r | seller in rows && seller in sellers && r in kinds && PlanFees.ReminderDue(rows[seller], now, r) :: SellerMail(seller, r)
  }

  /** The columns of the reminders in `kinds` that are due, filled in. */
  function Reminded(s: Subscription, now: int, kinds: set<Reminder>): Subscription {
    s.(sent := s.sent + map r | r in kinds && PlanFees.ReminderDue(s, now, r) :: now)
  }

  function SubscriptionsReminded(rows: map<SellerId, Subscription>, sellers: set<SellerId>, now: int): map<SellerId, Subscription> {
    map seller | seller in rows :: if seller in sellers then PlanFees.Remind(rows[seller], rows[seller], now) else rows[seller]
  }

  class RenewalRemindersService {
    const db: Database
    const notices: NoticeService

    constructor (db: Database, notices: NoticeService)
      requires notices.db == db
      ensures this.db == db && this.notices == notices
    {
      this.db, this.notices := db, notices;
    }

    method SendWinbackReminders(ids: seq<StoreId>, now: int) returns (sentCount: nat)
      requires notices.db == db
      requires Lists(ids, set id | id in db.stores && Retention.OnRetentionClock(db.stores[id]))
      modifies db`stores, db`outbox
      ensures db.stores == Retention.SendNotices(old(db.stores), now, Retention.WINBACKS, notices.settings.retentionDays)
      ensures Appends(old(db.outbox), db.outbox, NoticesOwed(old(db.stores), old(db.stores).Keys, now, Retention.WINBACKS, notices.settings.retentionDays))
      ensures sentCount == |db.outbox| - |old(db.outbox)|
      ensures forall id | id in old(db.stores) && old(db.stores)[id].status == OrdersPaused && old(db.stores)[id].terminalPausedAt.Some? ::
                var s, mails, waited := old(db.stores)[id], db.outbox[|old(db.outbox)|..], now - old(db.stores)[id].terminalPausedAt.value;
                && (StoreMail(id, Winback3) in mails <==> Winback3 !in s.sent && 3 * DAY_MS <= waited)
                && (StoreMail(id, Winback7) in mails <==> Winback7 !in s.sent && 7 * DAY_MS <= waited)
                && (StoreMail(id, Winback14) in mails <==> Winback14 !in s.sent && 14 * DAY_MS <= waited)
    {
      var milestones := [Winback3, Winback7, Winback14];
      assert Elements(milestones) == Retention.WINBACKS;
      sentCount := notices.SendNotices(ids, milestones, now);
    }

    /** The checks of one subscription, in the order the code makes them. */
    method SendRemindersOf(seller: SellerId, row: Subscription, now: int) returns (sentCount: nat)
      requires seller in db.subscriptions && db.subscriptions[seller] == row
      modifies db`subscriptions, db`outbox
      ensures db.subscriptions == old(db.subscriptions)[seller := PlanFees.Remind(row, row, now)]
      ensures Appends(old(db.outbox), db.outbox, RemindersOwed(map[seller := row], {seller}, now, Elements(REMINDERS)))
      ensures sentCount == |db.outbox| - |old(db.outbox)|
    {
      hide PlanFees.ReminderDue, Reminded, RemindersOwed, Appends;
      sentCount := 0;
      ghost var owed: set<Mail> := {};
      NoReminders(db.outbox, row, seller, now);
      assert Elements(REMINDERS[..0]) == {};
      for k := 0 to |REMINDERS|
        invariant db.subscriptions == old(db.subscriptions)[seller := Reminded(row, now, Elements(REMINDERS[..k]))]
        invariant owed == RemindersOwed(map[seller := row], {seller}, now, Elements(REMINDERS[..k]))
        invariant Appends(old(db.outbox), db.outbox, owed)
        invariant sentCount == |db.outbox| - |old(db.outbox)|
      {
        var r := REMINDERS[k];
        assert r !in REMINDERS[..k];
        assert Elements(REMINDERS[..k + 1]) == Elements(REMINDERS[..k]) + {r};
        OneMoreReminder(row, seller, now, Elements(REMINDERS[..k]), r);
        if PlanFees.ReminderDue(row, now, r) {
          AppendOne(old(db.outbox), db.outbox, owed, SellerMail(seller, r));
          owed := owed + {SellerMail(seller, r)};
          db.outbox := db.outbox + [SellerMail(seller, r)];
          db.subscriptions := db.subscriptions[seller := db.subscriptions[seller].(sent := db.subscriptions[seller].sent[r := now])];
          sentCount := sentCount + 1;
        }
      }
      assert REMINDERS[..|REMINDERS|] == REMINDERS;
      AllReminders(row, now);
    }

    method SendPreExpiryAndExpiryDayReminders(sellers: seq<SellerId>, now: int) returns (sentCount: nat)
      requires Lists(sellers, set seller | seller in db.subscriptions && db.subscriptions[seller].periodEnd.Some?)
      modifies db`subscriptions, db`outbox
      ensures db.View() == PlanFees.SendReminders(old(db.View()), now)
      ensures Appends(old(db.outbox), db.outbox, RemindersOwed(old(db.subscriptions), old(db.subscriptions).Keys, now, Elements(REMINDERS)))
      ensures sentCount == |db.outbox| - |old(db.outbox)|
      ensures forall seller, r | seller in old(db.subscriptions) ::
                var s := old(db.subscriptions)[seller];
                && seller in db.subscriptions && db.subscriptions[seller] == s.(sent := db.subscriptions[seller].sent)
                && (r in db.subscriptions[seller].sent ==> db.subscriptions[seller].sent[r] == if r in s.sent then s.sent[r] else now)
                && (SellerMail(seller, r) in db.outbox[|old(db.outbox)|..] <==> r in db.subscriptions[seller].sent && r !in s.sent)
                && (r in db.subscriptions[seller].sent <==>
                      || r in s.sent
                      || (s.individualPaid && s.periodEnd.Some? &&
                          var left := s.periodEnd.value - now;
                          match r
                          case DaysBefore7 => 0 <= left <= 7 * DAY_MS
                          case DaysBefore3 => 0 <= left <= 3 * DAY_MS
                          case DaysBefore1 => 0 <= left <= DAY_MS
                          case ExpiryDay => left <= 0))
    {
      EveryReminder();
      forall seller, r | seller in db.subscriptions { RemindersInNumbers(db.View(), seller, now, r); }
      hide PlanFees.ReminderDue, PlanFees.Remind, RemindersOwed, Appends;
      var rows := db.subscriptions;
      ghost var done: set<SellerId> := {};
      sentCount := 0;
      assert db.subscriptions == SubscriptionsReminded(rows, done, now);
      NobodyReminded(db.outbox, rows, now);
      for i := 0 to |sellers|
        invariant done == Elements(sellers[..i])
        invariant db.subscriptions == SubscriptionsReminded(rows, done, now)
        invariant Appends(old(db.outbox), db.outbox, RemindersOwed(rows, done, now, Elements(REMINDERS)))
        invariant sentCount == |db.outbox| - |old(db.outbox)|
      {
        var seller := sellers[i];
        assert seller in sellers && seller !in sellers[..i];
        assert Elements(sellers[..i + 1]) == done + {seller};
        ghost var mails := db.outbox;
        var sent := SendRemindersOf(seller, rows[seller], now);
        RemindMore(old(db.outbox), mails, db.outbox, rows, done, seller, now);
        sentCount := sentCount + sent;
        done := done + {seller};
      }
      assert sellers[..|sellers|] == sellers;
      OnlyCyclingReminded(rows, done, now);
      AppendedExactly(old(db.outbox), db.outbox, RemindersOwed(rows, rows.Keys, now, Elements(REMINDERS)));
    }
  }

  /** Which mails and flags a reminder sweep leaves on one subscription, in numbers. */
  lemma RemindersInNumbers(t: Tables, seller: SellerId, now: int, r: Reminder)
    requires seller in t.subscriptions
    ensures var s, s' := t.subscriptions[seller], PlanFees.SendReminders(t, now).subscriptions[seller];
            && s' == s.(sent := s'.sent) && (r in s'.sent ==> s'.sent[r] == if r in s.sent then s.sent[r] else now)
            && (SellerMail(seller, r) in RemindersOwed(t.subscriptions, t.subscriptions.Keys, now, Elements(REMINDERS)) <==> r in s'.sent && r !in s.sent)
            && (r in s'.sent <==>
                  || r in s.sent
                  || (s.individualPaid && s.periodEnd.Some? &&
                      var left := s.periodEnd.value - now;
                      match r
                      case DaysBefore7 => 0 <= left <= 7 * DAY_MS
                      case DaysBefore3 => 0 <= left <= 3 * DAY_MS
                      case DaysBefore1 => 0 <= left <= DAY_MS
                      case ExpiryDay => left <= 0))
  {
    EveryReminder();
    assert r in {DaysBefore7, DaysBefore3, DaysBefore1, ExpiryDay};
    hide Elements;
  }

  lemma NoReminders(mails: seq<Mail>, row: Subscription, seller: SellerId, now: int)
    ensures Reminded(row, now, {}) == row && RemindersOwed(map[seller := row], {seller}, now, {}) == {} && Appends(mails, mails, {})
  {}

  lemma AllReminders(row: Subscription, now: int)
    ensures Reminded(row, now, Elements(REMINDERS)) == PlanFees.Remind(row, row, now)
  {
    hide PlanFees.ReminderDue, Elements;
    EveryReminder();
  }

  lemma EveryReminder()
    ensures Elements(REMINDERS) == {DaysBefore7, DaysBefore3, DaysBefore1, ExpiryDay}
  {
    assert REMINDERS[0] == DaysBefore7 && REMINDERS[1] == DaysBefore3 && REMINDERS[2] == DaysBefore1 && REMINDERS[3] == ExpiryDay;
  }

  lemma OneMoreReminder(row: Subscription, seller: SellerId, now: int, kinds: set<Reminder>, r: Reminder)
    requires r !in kinds
    ensures var before, after := Reminded(row, now, kinds), Reminded(row, now, kinds + {r});
            && after == (if PlanFees.ReminderDue(row, now, r) then before.(sent := before.sent[r := now]) else before)
            && SellerMail(seller, r) !in RemindersOwed(map[seller := row], {seller}, now, kinds)
            && RemindersOwed(map[seller := row], {seller}, now, kinds + {r})
               == RemindersOwed(map[seller := row], {seller}, now, kinds)
                  + (if PlanFees.ReminderDue(row, now, r) then {SellerMail(seller, r)} else {})
  {
    OneMoreMark(row, now, kinds, r);
    hide Reminded, PlanFees.ReminderDue;
    OneMoreMail(map[seller := row], seller, now, kinds, r);
  }

  lemma OneMoreMark(row: Subscription, now: int, kinds: set<Reminder>, r: Reminder)
    requires r !in kinds
    ensures var before, after := Reminded(row, now, kinds), Reminded(row, now, kinds + {r});
            after == if PlanFees.ReminderDue(row, now, r) then before.(sent := before.sent[r := now]) else before
  {
    hide PlanFees.ReminderDue;
  }

  lemma OneMoreMail(rows: map<SellerId, Subscription>, seller: SellerId, now: int, kinds: set<Reminder>, r: Reminder)
    requires r !in kinds && seller in rows
    ensures SellerMail(seller, r) !in RemindersOwed(rows, {seller}, now, kinds)
    ensures RemindersOwed(rows, {seller}, now, kinds + {r})
            == RemindersOwed(rows, {seller}, now, kinds) + (if PlanFees.ReminderDue(rows[seller], now, r) then {SellerMail(seller, r)} else {})
  {
    hide PlanFees.ReminderDue;
  }

  lemma NobodyReminded(mails: seq<Mail>, rows: map<SellerId, Subscription>, now: int)
    ensures Appends(mails, mails, RemindersOwed(rows, {}, now, Elements(REMINDERS)))
  {}

  lemma RemindMore(before: seq<Mail>, mid: seq<Mail>, after: seq<Mail>, rows: map<SellerId, Subscription>, done: set<SellerId>, seller: SellerId, now: int)
    requires seller in rows && seller !in done
    requires Appends(before, mid, RemindersOwed(rows, done, now, Elements(REMINDERS)))
    requires Appends(mid, after, RemindersOwed(map[seller := rows[seller]], {seller}, now, Elements(REMINDERS)))
    ensures Appends(before, after, RemindersOwed(rows, done + {seller}, now, Elements(REMINDERS)))
  {
    hide PlanFees.ReminderDue;
    var old', new' := mid[|before|..], after[|mid|..];
    assert after[|before|..] == old' + new';
    assert after[..|before|] == after[..|mid|][..|before|];
    forall m ensures m in old' + new' <==> m in RemindersOwed(rows, done + {seller}, now, Elements(REMINDERS)) {}
    forall i, j | 0 <= i < |old'| && 0 <= j < |new'| ensures old'[i] != new'[j] {
      assert old'[i] in old' && new'[j] in new';
    }
  }

  lemma OnlyCyclingReminded(rows: map<SellerId, Subscription>, done: set<SellerId>, now: int)
    requires done == set seller | seller in rows && rows[seller].periodEnd.Some?
    ensures SubscriptionsReminded(rows, done, now) == map seller | seller in rows :: PlanFees.Remind(rows[seller], rows[seller], now)
    ensures RemindersOwed(rows, done, now, Elements(REMINDERS)) == RemindersOwed(rows, rows.Keys, now, Elements(REMINDERS))
  {
    forall seller | seller in rows && seller !in done ensures PlanFees.Remind(rows[seller], rows[seller], now) == rows[seller] {}
  }

  // ---- wallet.service.ts and wallet.controller.ts ------------------------------------------------------

  class WalletService {
    const db: Database
    const settings: Settings

    constructor (db: Database, settings: Settings)
      ensures this.db == db && this.settings == settings
    {
      this.db, this.settings := db, settings;
    }

    method VerifyTopUp(id: RequestId, clock: int) returns (result: Result<bool, Failure>)
      modifies db
      ensures match PlanFees.VerifyTopUp(old(db.View()), id, clock)
              case Ok(t) => db.View() == t && result == Ok(PlanFees.PaidBefore(old(db.View()), old(db.requests)[id].seller, Some(id))
                                                          && old(db.requests)[id].planFee.Some? && old(db.requests)[id].planFee.value > 0)
              case Err(e) => db.View() == old(db.View()) && result == Err(e)
    {
      hide PlanFees.PaidBefore, AddInterval;
      if id !in db.requests { return Err(NotFound); }
      var r := db.requests[id];
      if !r.status.Pending? { return Err(AlreadyResolved); }
      var isRenewal := false;
      if r.planFee.Some? && r.planFee.value > 0 {
        isRenewal := PlanFees.PaidBefore(db.View(), r.seller, Some(id));
        if r.seller !in db.subscriptions || (isRenewal && db.subscriptions[r.seller].periodEnd.None?) { return Err(NoSubscription); }
        db.subscriptions := db.subscriptions[r.seller := PlanFees.Advanced(db.subscriptions[r.seller], isRenewal, clock)];
        db.payments := db.payments[r.seller := PlanFees.Payments(db.View(), r.seller) + [clock]];
      }
      db.requests := db.requests[id := r.(status := Verified(clock))];
      if r.amount > 0 { db.balances := db.balances[r.seller := Balance(db.View(), r.seller) + r.amount]; }
      result := Ok(isRenewal);
    }

    method RejectTopUp(id: RequestId, clock: int) returns (result: Result<(), Failure>)
      modifies db`requests
      ensures match PlanFees.RejectTopUp(old(db.View()), id, clock)
              case Ok(t) => db.View() == t && result == Ok(())
              case Err(e) => db.View() == old(db.View()) && result == Err(e)
    {
      if id !in db.requests { return Err(NotFound); }
      if !db.requests[id].status.Pending? { return Err(AlreadyResolved); }
      db.requests := db.requests[id := db.requests[id].(status := Rejected(clock))];
      result := Ok(());
    }

    /**
     * `reference` is the gateway's verdict when a payment reference was given; `cooledDown` is
     * the answer of the resubmission guard, which only applies then.
     */
    method RequestPlanFeePayment(id: RequestId, seller: SellerId, amountDue: nat, reference: Option<bool>, cooledDown: bool, clock: int)
        returns (result: Result<bool, Failure>)
      requires id !in db.requests
      modifies db
      ensures result.Err? ==> id !in db.requests ==> db.View() == old(db.View())
      ensures reference.Some? && !cooledDown ==> result == Err(CoolingDown)
      ensures reference == None || cooledDown ==>
                match PlanFees.RequestPlanFee(settings, old(db.View()), id, seller, amountDue)
                case Err(e) => result == Err(e) && db.View() == old(db.View())
                case Ok(t) =>
                  if reference == Some(true) then
                    match PlanFees.VerifyTopUp(t, id, clock)
                    case Ok(t') => result == Ok(true) && db.View() == t'
                    case Err(e) => result == Err(e) && db.View() == t
                  else result == Ok(false) && db.View() == t
    {
      if reference.Some? && !cooledDown { return Err(CoolingDown); }
      if PlanFees.HasPending(db.View(), seller) { return Err(AlreadyPending); }
      if seller !in db.subscriptions { return Err(NoSubscription); }
      var isRenewal := PlanFees.PaidBefore(db.View(), seller, None);
      if !isRenewal && settings.newSubscriptionsPaused { return Err(SubscriptionsPaused); }
      db.requests := db.requests[id := Request(seller, 0, Some(amountDue), Pending)];
      if reference == Some(true) {
        var verified := VerifyTopUp(id, clock);
        match verified
        case Ok(_) => return Ok(true);
        case Err(e) => return Err(e);
      }
      result := Ok(false);
    }
  }

  class AdminWalletController {
    const db: Database
    const wallet: WalletService
    const graceLadder: WalletGraceLadderService

    constructor (db: Database, wallet: WalletService, graceLadder: WalletGraceLadderService)
      requires wallet.db == db == graceLadder.db
      ensures this.db == db && this.wallet == wallet && this.graceLadder == graceLadder
    {
      this.db, this.wallet, this.graceLadder := db, wallet, graceLadder;
    }

    method VerifyOne(id: RequestId, clock: int) returns (failure: Option<Failure>)
      requires wallet.db == db == graceLadder.db
      modifies db
      ensures (db.View(), failure) == PlanFees.VerifyOne(graceLadder.settings, old(db.View()), id, clock)
    {
      hide PlanFees.VerifyTopUp, GraceLadder.CheckAndRestore, GraceLadder.RestoreAfterPlanFeePayment;
      if id !in db.requests {
        UnknownRequest(db.View(), id, clock);
        return Some(NotFound);
      }
      var request := db.requests[id];
      var verified := wallet.VerifyTopUp(id, clock);
      if verified.Err? { return Some(verified.error); }
      var ok := graceLadder.CheckAndRestore(request.seller);
      if !ok { return Some(StoreConflict); }
      if request.planFee.Some? {
        ok := graceLadder.RestoreAfterPlanFeePayment(request.seller);
        if !ok { return Some(StoreConflict); }
      }
      failure := None;
    }

    /** Every id is reported once per mention, and no request is ever reported as decided twice. */
    method BulkDecide(ids: seq<RequestId>, verify: bool, clock: int) returns (succeeded: seq<RequestId>, failed: seq<(RequestId, Failure)>)
      requires wallet.db == db == graceLadder.db
      modifies db
      ensures |succeeded| + |failed| == |ids|
      ensures NoDuplicates(succeeded)
      ensures forall id :: id in succeeded ==> id in ids && id in old(db.requests) && old(db.requests)[id].status == Pending
      ensures forall id :: id in succeeded ==> id in db.requests && db.requests[id].status == if verify then Verified(clock) else Rejected(clock)
      ensures forall id :: id in old(db.requests) && id !in ids ==> id in db.requests && db.requests[id] == old(db.requests)[id]
    {
      hide PlanFees.VerifyOne, PlanFees.RejectTopUp;
      succeeded, failed := [], [];
      for i := 0 to |ids|
        invariant |succeeded| + |failed| == i
        invariant NoDuplicates(succeeded)
        invariant db.requests.Keys == old(db.requests).Keys
        invariant forall id :: id in succeeded ==> id in ids && id in old(db.requests) && old(db.requests)[id].status == Pending
        invariant forall id :: id in succeeded ==> id in db.requests && db.requests[id].status == if verify then Verified(clock) else Rejected(clock)
        invariant forall id :: id in db.requests && (db.requests[id].status == Pending || id !in ids) ==> db.requests[id] == old(db.requests)[id]
      {
        var id := ids[i];
        ghost var before := db.View();
        if verify {
          var failure := VerifyOne(id, clock);
          DecidedOnce(graceLadder.settings, before, id, clock);
          match failure
          case None => succeeded := succeeded + [id];
          case Some(e) => failed := failed + [(id, e)];
        } else {
          var rejected := wallet.RejectTopUp(id, clock);
          DecidedOnce(graceLadder.settings, before, id, clock);
          match rejected
          case Ok(_) => succeeded := succeeded + [id];
          case Err(e) => failed := failed + [(id, e)];
        }
      }
    }
  }

  lemma UnknownRequest(t: Tables, id: RequestId, at: int)
    requires id !in t.requests
    ensures PlanFees.VerifyTopUp(t, id, at) == Err(NotFound)
  {}

  /** A decision changes its own request only, from pending, and only a pending one can succeed. */
  lemma DecidedOnce(settings: Settings, t: Tables, id: RequestId, at: int)
    ensures var (t', failure) := PlanFees.VerifyOne(settings, t, id, at);
            && t'.requests.Keys == t.requests.Keys
            && (forall other :: other in t.requests && other != id ==> t'.requests[other] == t.requests[other])
            && (failure == None ==> id in t.requests && t.requests[id].status == Pending && t'.requests[id].status == Verified(at))
            && (id in t.requests && t'.requests[id].status == Pending ==> t'.requests[id] == t.requests[id])
    ensures match PlanFees.RejectTopUp(t, id, at)
            case Err(_) => true
            case Ok(t') =>
              && t'.requests.Keys == t.requests.Keys
              && (forall other :: other in t.requests && other != id ==> t'.requests[other] == t.requests[other])
              && id in t.requests && t.requests[id].status == Pending && t'.requests[id].status == Rejected(at)
    ensures id in t.requests && t.requests[id].status != Pending ==> PlanFees.VerifyOne(settings, t, id, at).0.requests[id] == t.requests[id]
  {
    hide PlanFees.VerifyTopUp, GraceLadder.CheckAndRestore, GraceLadder.RestoreAfterPlanFeePayment;
    if PlanFees.VerifyTopUp(t, id, at).Ok? {
      PlanFees.VerifyEffect(t, id, at);
      var verified, seller := PlanFees.VerifyTopUp(t, id, at).value, t.requests[id].seller;
      RestoresKeepRequests(settings, verified, seller);
      RestoresKeepRequests(settings, GraceLadder.CheckAndRestore(settings, verified, seller).0, seller);
    }
  }

  lemma RestoresKeepRequests(settings: Settings, t: Tables, seller: SellerId)
    ensures GraceLadder.CheckAndRestore(settings, t, seller).0.requests == t.requests
    ensures GraceLadder.RestoreAfterPlanFeePayment(t, seller).0.requests == t.requests
  {
    hide OneActivePerSeller, GraceLadder.Reactivate, GraceLadder.Restore;
  }
}
