/** wallet-grace-ladder.service.ts: how a seller's stores are paused and brought back. */
module GraceLadder {
  import opened Common
  import opened Calendar
  import opened BillingTables

  // ---- Single statements: each is one `updateMany` --------------------------------------

  function PauseActive(stores: Stores, seller: SellerId): Stores {
    map id | id in stores ::
      var s := stores[id];
      if s.seller == seller && s.status == Active then s.(status := OrdersPaused) else s
  }

  /** Stamps every paused store of the seller that has no stamp, whatever it was paused for. */
  function Stamp(stores: Stores, seller: SellerId, at: int): Stores {
    map id | id in stores ::
      var s := stores[id];
      if s.seller == seller && s.status == OrdersPaused && s.terminalPausedAt == None then s.(terminalPausedAt := Some(at)) else s
  }

  function PauseForNonPayment(stores: Stores, seller: SellerId, at: int): Stores {
    if HasActive(stores, seller) then Stamp(PauseActive(stores, seller), seller, at) else stores
  }

  function Reactivate(stores: Stores, seller: SellerId): Stores {
    map id | id in stores ::
      var s := stores[id];
      if s.seller == seller && s.status == OrdersPaused then s.(status := Active) else s
  }

  predicate Restorable(s: Store, seller: SellerId) {
    s.seller == seller && s.status == OrdersPaused && s.terminalPausedAt.Some?
  }

  function Restore(stores: Stores, seller: SellerId): Stores {
    map id | id in stores ::
      var s := stores[id];
      if Restorable(s, seller) then s.(status := Active, terminalPausedAt := None, sent := map[]) else s
  }

  // ---- Operations -------------------------------------------------------------------------

  /** The new tables, and whether the store update passed the unique index. */
  function CheckAndRestore(settings: Settings, t: Tables, seller: SellerId): (Tables, bool) {
    if Balance(t, seller) < settings.warningThreshold then (t, true)
    else
      var cleared := t.(sellers := t.sellers[seller := Ladder(None, None)]);
      var stores := Reactivate(t.stores, seller);
      if OneActivePerSeller(stores) then (cleared.(stores := stores), true) else (cleared, false)
  }

  function RestoreAfterPlanFeePayment(t: Tables, seller: SellerId): (Tables, bool) {
    var stores := Restore(t.stores, seller);
    if OneActivePerSeller(stores) then (t.(stores := stores), true) else (t, false)
  }

  /** One seller's turn in the low-balance sweep; `row` is the seller as the sweep read it. */
  function LadderVisit(settings: Settings, t: Tables, seller: SellerId, row: Ladder, now: int): (Tables, bool) {
    var balance := Balance(t, seller);
    if balance < settings.negativeFloor then (t.(stores := PauseActive(t.stores, seller)), true)
    else if balance >= settings.warningThreshold then
      if row != Ladder(None, None) then CheckAndRestore(settings, t, seller) else (t, true)
    else if row.warnedAt == None then
      (t.(sellers := t.sellers[seller := Ladder(Some(now), Some(now + settings.walletGraceDays * DAY_MS))]), true)
    else if row.graceEndsAt.Some? && row.graceEndsAt.value <= now then (t.(stores := PauseActive(t.stores, seller)), true)
    else (t, true)
  }

  // ---- What the statements mean --------------------------------------------------------

  /** Non-payment stops every store that was selling, and never moves a stamp that is already there. */
  lemma NonPaymentPauses(stores: Stores, seller: SellerId, at: int)
    ensures var after := PauseForNonPayment(stores, seller, at);
            && after.Keys == stores.Keys
            && !HasActive(after, seller)
            && (forall id :: id in stores && stores[id].seller != seller ==> after[id] == stores[id])
            && (forall id :: id in stores && stores[id].terminalPausedAt.Some? ==> after[id].terminalPausedAt == stores[id].terminalPausedAt)
            && (OneActivePerSeller(stores) ==> OneActivePerSeller(after))
  {}

  /**
   * The retention clock is meant for non-payment pauses only, but a store paused for another
   * reason (over the plan's store limit, or a low balance) is put on it too, exactly when
   * the seller has some other store that is still active.
   */
  lemma OtherPausesGetStamped(stores: Stores, seller: SellerId, at: int, id: StoreId)
    requires id in stores && stores[id].seller == seller && stores[id].status == OrdersPaused && stores[id].terminalPausedAt == None
    ensures PauseForNonPayment(stores, seller, at)[id].terminalPausedAt == Some(at) <==> HasActive(stores, seller)
  {}

  /** A payment undoes the non-payment pause of a lone store completely: status, stamp and flags. */
  lemma PaymentUndoesPause(t: Tables, seller: SellerId, id: StoreId, at: int)
    requires StoresOf(t.stores, seller) == {id} && t.stores[id].status == Active
    requires t.stores[id].terminalPausedAt == None && t.stores[id].sent == map[]
    requires OneActivePerSeller(t.stores)
    ensures var paused := t.(stores := PauseForNonPayment(t.stores, seller, at));
            RestoreAfterPlanFeePayment(paused, seller) == (t, true)
  {
    var after := PauseForNonPayment(t.stores, seller, at);
    assert HasActive(t.stores, seller);
    forall other | other in t.stores && other != id ensures after[other] == t.stores[other] {
      assert other !in StoresOf(t.stores, seller);
    }
    forall other | other in t.stores ensures Restore(after, seller)[other] == t.stores[other] {
      assert other in StoresOf(t.stores, seller) <==> other == id;
    }
    assert Restore(after, seller) == t.stores;
  }

  /** A restorable store of the seller is the only one, and no other is active. */
  predicate OneToRestore(stores: Stores, seller: SellerId) {
    forall a, b | a in stores && b in stores && Restorable(stores[a], seller) ::
      Restorable(stores[b], seller) || (stores[b].seller == seller && stores[b].status == Active) ==> a == b
  }

  /** A payment restores the seller's stores exactly when that leaves at most one of them active. */
  lemma RestoreNeedsOneStore(t: Tables, seller: SellerId)
    requires OneActivePerSeller(t.stores)
    ensures RestoreAfterPlanFeePayment(t, seller).1 <==> OneToRestore(t.stores, seller)
  {
    var after := Restore(t.stores, seller);
    forall a, b | a in t.stores && b in t.stores && Restorable(t.stores[a], seller) && OneActivePerSeller(after)
      ensures Restorable(t.stores[b], seller) || (t.stores[b].seller == seller && t.stores[b].status == Active) ==> a == b
    {
      assert after[a].status == Active && after[a].seller == seller && after[b].seller == t.stores[b].seller;
    }
  }

  /** The sweep stops a selling seller below the floor at once, and one below the threshold only when its grace is over. */
  lemma LadderPausesExactly(settings: Settings, t: Tables, seller: SellerId, row: Ladder, now: int)
    requires HasActive(t.stores, seller)
    ensures var balance, after := Balance(t, seller), LadderVisit(settings, t, seller, row, now).0;
            !HasActive(after.stores, seller) <==>
              || balance < settings.negativeFloor
              || (balance < settings.warningThreshold && row.warnedAt.Some? && row.graceEndsAt.Some? && row.graceEndsAt.value <= now)
  {
    var balance, after := Balance(t, seller), LadderVisit(settings, t, seller, row, now).0;
    if balance < settings.negativeFloor || (balance < settings.warningThreshold && row.warnedAt.Some? && row.graceEndsAt.Some? && row.graceEndsAt.value <= now) {
      assert after.stores == PauseActive(t.stores, seller);
    } else {
      hide OneActivePerSeller, Balance;
      assert after.stores == t.stores || after.stores == Reactivate(t.stores, seller);
      ReactivationKeepsSelling(t.stores, seller);
    }
  }

  lemma ReactivationKeepsSelling(stores: Stores, seller: SellerId)
    requires HasActive(stores, seller)
    ensures HasActive(Reactivate(stores, seller), seller)
  {
    var id :| id in stores && stores[id].seller == seller && stores[id].status == Active;
    assert id in Reactivate(stores, seller) && Reactivate(stores, seller)[id] == stores[id];
  }
}
