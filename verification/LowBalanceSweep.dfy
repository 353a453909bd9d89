/**
 * The low-balance sweep of wallet-grace-ladder.service.ts as a whole: which sellers it warns,
 * pauses and restores, whatever order it visits them in, and what a refused restore leaves.
 */
module LowBalanceSweep {
  import opened Common
  import opened Calendar
  import opened BillingTables
  import opened GraceLadder

  function ActiveStores(stores: Stores, seller: SellerId): set<StoreId> {
    set id | id in stores && stores[id].seller == seller && stores[id].status == Active
  }

  datatype LadderTotals = LadderTotals(warned: nat, paused: nat, restored: nat)

  /** What one seller's turn adds to the sweep's counters; a refused restore throws before it counts. */
  function LadderCount(settings: Settings, t: Tables, seller: SellerId, row: Ladder, now: int, total: LadderTotals): LadderTotals {
    var balance := Balance(t, seller);
    if balance < settings.negativeFloor then total.(paused := total.paused + |ActiveStores(t.stores, seller)|)
    else if balance >= settings.warningThreshold then
      if row != Ladder(None, None) && GraceLadder.CheckAndRestore(settings, t, seller).1 then total.(restored := total.restored + 1) else total
    else if row.warnedAt == None then total.(warned := total.warned + 1)
    else if row.graceEndsAt.Some? && row.graceEndsAt.value <= now then total.(paused := total.paused + |ActiveStores(t.stores, seller)|)
    else total
  }

  /** The sellers visited in order; the first refused restore ends the sweep. */
  function LadderSweep(settings: Settings, t: Tables, rows: seq<(SellerId, Ladder)>, now: int, total: LadderTotals): (Tables, LadderTotals, bool)
    decreases |rows|
  {
    if rows == [] then (t, total, true)
    else
      var (seller, row) := rows[0];
      var (t', ok) := GraceLadder.LadderVisit(settings, t, seller, row, now);
      var total' := LadderCount(settings, t, seller, row, now, total);
      if ok then LadderSweep(settings, t', rows[1..], now, total') else (t', total', false)
  }

  // ---- Who is warned, paused and restored -----------------------------------------------------------

  predicate Warns(settings: Settings, t: Tables, seller: SellerId, row: Ladder) {
    settings.negativeFloor <= Balance(t, seller) < settings.warningThreshold && row.warnedAt == None
  }

  predicate Pauses(settings: Settings, t: Tables, seller: SellerId, row: Ladder, now: int) {
    || Balance(t, seller) < settings.negativeFloor
    || (Balance(t, seller) < settings.warningThreshold && row.warnedAt.Some? && row.graceEndsAt.Some? && row.graceEndsAt.value <= now)
  }

  predicate Restores(settings: Settings, t: Tables, seller: SellerId, row: Ladder) {
    settings.negativeFloor <= Balance(t, seller) && settings.warningThreshold <= Balance(t, seller) && row != Ladder(None, None)
  }

  type Rows = seq<(SellerId, Ladder)>

  predicate DistinctSellers(rows: Rows) { forall i, j | 0 <= i < j < |rows| :: rows[i].0 != rows[j].0 }

  function Warned(settings: Settings, t: Tables, rows: Rows): set<SellerId> {
    set i | 0 <= i < |rows| && Warns(settings, t, rows[i].0, rows[i].1) :: rows[i].0
  }

  function Paused(settings: Settings, t: Tables, rows: Rows, now: int): set<SellerId> {
    set i | 0 <= i < |rows| && Pauses(settings, t, rows[i].0, rows[i].1, now) :: rows[i].0
  }

  function Restored(settings: Settings, t: Tables, rows: Rows): set<SellerId> {
    set i | 0 <= i < |rows| && Restores(settings, t, rows[i].0, rows[i].1) :: rows[i].0
  }

  /** A seller's paused stores cannot all be put back: two of its stores would be active. */
  predicate Blocked(stores: Stores, seller: SellerId) {
    exists a, b :: a in stores && b in stores && a != b && stores[a].seller == stores[b].seller == seller
                   && stores[a].status != Suspended && stores[b].status != Suspended
  }

  function StoresAfter(stores: Stores, paused: set<SellerId>, restored: set<SellerId>): Stores {
    map id | id in stores ::
      var s := stores[id];
      if s.seller in paused && s.status == Active then s.(status := OrdersPaused)
      else if s.seller in restored && s.status == OrdersPaused then s.(status := Active)
      else s
  }

  function SellersAfter(settings: Settings, sellers: map<SellerId, Ladder>, warned: set<SellerId>, restored: set<SellerId>, now: int): map<SellerId, Ladder> {
    map seller | seller in sellers.Keys + warned + restored ::
      if seller in warned then Ladder(Some(now), Some(now + settings.walletGraceDays * DAY_MS))
      else if seller in restored then Ladder(None, None)
      else sellers[seller]
  }

  function After(settings: Settings, t: Tables, rows: Rows, now: int): Tables {
    t.(stores := StoresAfter(t.stores, Paused(settings, t, rows, now), Restored(settings, t, rows)),
       sellers := SellersAfter(settings, t.sellers, Warned(settings, t, rows), Restored(settings, t, rows), now))
  }

  function Stopped(stores: Stores, paused: set<SellerId>): set<StoreId> {
    set id | id in stores && stores[id].seller in paused && stores[id].status == Active
  }

  /** The counters are cardinalities: sellers warned, stores stopped, sellers restored. */
  function TotalsOf(settings: Settings, t: Tables, rows: Rows, now: int): LadderTotals {
    LadderTotals(|Warned(settings, t, rows)|, |Stopped(t.stores, Paused(settings, t, rows, now))|, |Restored(settings, t, rows)|)
  }

  predicate NoneBlocked(settings: Settings, t: Tables, rows: Rows) {
    forall i | 0 <= i < |rows| && Restores(settings, t, rows[i].0, rows[i].1) :: !Blocked(t.stores, rows[i].0)
  }

  /** The n-th row is the first whose restore the index refuses. */
  predicate FirstBlocked(settings: Settings, t: Tables, rows: Rows, n: nat) {
    && n < |rows| && NoneBlocked(settings, t, rows[..n])
    && Restores(settings, t, rows[n].0, rows[n].1) && Blocked(t.stores, rows[n].0)
  }

  /** What the sweep does to all the rows, or, when a restore is refused, to those before it and to that seller's ladder. */
  ghost predicate SweptExactly(settings: Settings, t: Tables, rows: Rows, now: int, t': Tables, total: LadderTotals, ok: bool) {
    && (ok <==> NoneBlocked(settings, t, rows))
    && (ok ==> t' == After(settings, t, rows, now) && total == TotalsOf(settings, t, rows, now))
    && (!ok ==> exists n: nat :: n < |rows| && FirstBlocked(settings, t, rows, n) && StopsAt(settings, t, rows, now, n, t', total))
  }

  predicate StopsAt(settings: Settings, t: Tables, rows: Rows, now: int, n: nat, t': Tables, total: LadderTotals)
    requires n < |rows|
  {
    var before := After(settings, t, rows[..n], now);
    t' == before.(sellers := before.sellers[rows[n].0 := Ladder(None, None)]) && total == TotalsOf(settings, t, rows[..n], now)
  }

  // ---- One turn ------------------------------------------------------------------------------------------

  lemma OneMore(settings: Settings, t: Tables, rows: Rows, now: int, n: nat)
    requires n < |rows| && DistinctSellers(rows)
    ensures var (seller, row) := rows[n];
            && seller !in Warned(settings, t, rows[..n]) + Paused(settings, t, rows[..n], now) + Restored(settings, t, rows[..n])
            && Warned(settings, t, rows[..n + 1]) == Warned(settings, t, rows[..n]) + (if Warns(settings, t, seller, row) then {seller} else {})
            && Paused(settings, t, rows[..n + 1], now) == Paused(settings, t, rows[..n], now) + (if Pauses(settings, t, seller, row, now) then {seller} else {})
            && Restored(settings, t, rows[..n + 1]) == Restored(settings, t, rows[..n]) + (if Restores(settings, t, seller, row) then {seller} else {})
  {
    hide Warns, Pauses, Restores;
    var more := rows[..n + 1];
    assert more == rows[..n] + [rows[n]];
    forall i | 0 <= i < n ensures more[i] == rows[..n][i] && rows[i].0 != rows[n].0 {}
    assert more[n] == rows[n];
  }

  lemma PauseOne(stores: Stores, paused: set<SellerId>, restored: set<SellerId>, seller: SellerId)
    requires seller !in paused + restored
    ensures PauseActive(StoresAfter(stores, paused, restored), seller) == StoresAfter(stores, paused + {seller}, restored)
    ensures |Stopped(stores, paused + {seller})| == |Stopped(stores, paused)| + |ActiveStores(StoresAfter(stores, paused, restored), seller)|
  {
    hide Stopped, ActiveStores;
    StopOne(stores, paused, restored, seller);
  }

  lemma StopOne(stores: Stores, paused: set<SellerId>, restored: set<SellerId>, seller: SellerId)
    requires seller !in paused + restored
    ensures |Stopped(stores, paused + {seller})| == |Stopped(stores, paused)| + |ActiveStores(StoresAfter(stores, paused, restored), seller)|
  {
    var more := ActiveStores(StoresAfter(stores, paused, restored), seller);
    assert Stopped(stores, paused + {seller}) == Stopped(stores, paused) + more && Stopped(stores, paused) !! more;
  }

  lemma ReactivateOne(stores: Stores, paused: set<SellerId>, restored: set<SellerId>, seller: SellerId)
    requires seller !in paused + restored
    ensures Reactivate(StoresAfter(stores, paused, restored), seller) == StoresAfter(stores, paused, restored + {seller})
  {}

  /** The index refuses a restore exactly when the seller has another store that is not suspended. */
  lemma RestoreFits(stores: Stores, seller: SellerId)
    requires OneActivePerSeller(stores)
    ensures OneActivePerSeller(Reactivate(stores, seller)) <==> !Blocked(stores, seller)
  {
    var after := Reactivate(stores, seller);
    if a, b :| a in stores && b in stores && a != b && stores[a].seller == stores[b].seller == seller
               && stores[a].status != Suspended && stores[b].status != Suspended {
      assert after[a].status == after[b].status == Active;
    }
  }

  lemma StillOneActive(stores: Stores, paused: set<SellerId>, restored: set<SellerId>)
    requires OneActivePerSeller(stores) && paused !! restored && forall seller | seller in restored :: !Blocked(stores, seller)
    ensures OneActivePerSeller(StoresAfter(stores, paused, restored))
  {
    var after := StoresAfter(stores, paused, restored);
    forall a, b | a in after && b in after && after[a].status == after[b].status == Active && after[a].seller == after[b].seller ensures a == b {
    }
  }

  lemma SameStores(stores: Stores, paused: set<SellerId>, restored: set<SellerId>, seller: SellerId)
    requires seller !in paused + restored
    ensures Blocked(StoresAfter(stores, paused, restored), seller) <==> Blocked(stores, seller)
  {
    var after := StoresAfter(stores, paused, restored);
    if a, b :| a in stores && b in stores && a != b && stores[a].seller == stores[b].seller == seller
               && stores[a].status != Suspended && stores[b].status != Suspended {
      assert after[a] == stores[a] && after[b] == stores[b];
    }
  }

  lemma Disjoint(settings: Settings, t: Tables, rows: Rows, now: int)
    requires DistinctSellers(rows)
    ensures Paused(settings, t, rows, now) !! Restored(settings, t, rows)
    ensures NoneBlocked(settings, t, rows) ==> forall seller | seller in Restored(settings, t, rows) :: !Blocked(t.stores, seller)
  {
    hide Blocked;
  }

  lemma LadderOne(settings: Settings, sellers: map<SellerId, Ladder>, warned: set<SellerId>, restored: set<SellerId>, seller: SellerId, now: int)
    requires seller !in warned + restored
    ensures var after := SellersAfter(settings, sellers, warned, restored, now);
            && SellersAfter(settings, sellers, warned, restored + {seller}, now) == after[seller := Ladder(None, None)]
            && SellersAfter(settings, sellers, warned + {seller}, restored, now)
               == after[seller := Ladder(Some(now), Some(now + settings.walletGraceDays * DAY_MS))]
  {}

  lemma RestoreTurn(settings: Settings, t: Tables, rows: Rows, now: int, n: nat)
    requires n < |rows| && DistinctSellers(rows) && OneActivePerSeller(t.stores) && NoneBlocked(settings, t, rows[..n])
    requires Restores(settings, t, rows[n].0, rows[n].1)
    ensures var t', total, seller, row := After(settings, t, rows[..n], now), TotalsOf(settings, t, rows[..n], now), rows[n].0, rows[n].1;
            && LadderVisit(settings, t', seller, row, now) ==
               (if Blocked(t.stores, seller) then (t'.(sellers := t'.sellers[seller := Ladder(None, None)]), false)
                else (After(settings, t, rows[..n + 1], now), true))
            && LadderCount(settings, t', seller, row, now, total) == if Blocked(t.stores, seller) then total else TotalsOf(settings, t, rows[..n + 1], now)
  {
    hide Blocked, StoresAfter, SellersAfter, Reactivate, Paused, Restored, Warned, OneActivePerSeller, NoneBlocked, Stopped;
    var (seller, row) := rows[n];
    var warned, paused, restored := Warned(settings, t, rows[..n]), Paused(settings, t, rows[..n], now), Restored(settings, t, rows[..n]);
    OneMore(settings, t, rows, now, n);
    Disjoint(settings, t, rows[..n], now);
    StillOneActive(t.stores, paused, restored);
    SameStores(t.stores, paused, restored, seller);
    RestoreFits(StoresAfter(t.stores, paused, restored), seller);
    ReactivateOne(t.stores, paused, restored, seller);
    LadderOne(settings, t.sellers, warned, restored, seller, now);
    assert !Pauses(settings, t, seller, row, now) && !Warns(settings, t, seller, row);
    assert warned + {} == warned && paused + {} == paused;
  }

  lemma PauseTurn(settings: Settings, t: Tables, rows: Rows, now: int, n: nat)
    requires n < |rows| && DistinctSellers(rows) && Pauses(settings, t, rows[n].0, rows[n].1, now)
    ensures var t', total, seller, row := After(settings, t, rows[..n], now), TotalsOf(settings, t, rows[..n], now), rows[n].0, rows[n].1;
            && LadderVisit(settings, t', seller, row, now) == (After(settings, t, rows[..n + 1], now), true)
            && LadderCount(settings, t', seller, row, now, total) == TotalsOf(settings, t, rows[..n + 1], now)
  {
    hide StoresAfter, SellersAfter, PauseActive, Paused, Restored, Warned, DistinctSellers, Stopped, ActiveStores, CheckAndRestore;
    var (seller, row) := rows[n];
    var warned, paused, restored := Warned(settings, t, rows[..n]), Paused(settings, t, rows[..n], now), Restored(settings, t, rows[..n]);
    OneMore(settings, t, rows, now, n);
    PauseOne(t.stores, paused, restored, seller);
    assert !Warns(settings, t, seller, row) && !Restores(settings, t, seller, row);
    assert warned + {} == warned && restored + {} == restored;
  }

  lemma WarnTurn(settings: Settings, t: Tables, rows: Rows, now: int, n: nat)
    requires n < |rows| && DistinctSellers(rows) && Warns(settings, t, rows[n].0, rows[n].1)
    ensures var t', total, seller, row := After(settings, t, rows[..n], now), TotalsOf(settings, t, rows[..n], now), rows[n].0, rows[n].1;
            && LadderVisit(settings, t', seller, row, now) == (After(settings, t, rows[..n + 1], now), true)
            && LadderCount(settings, t', seller, row, now, total) == TotalsOf(settings, t, rows[..n + 1], now)
  {
    hide StoresAfter, SellersAfter, PauseActive, Paused, Restored, Warned, DistinctSellers, Stopped, ActiveStores, CheckAndRestore;
    var (seller, row) := rows[n];
    var warned, paused, restored := Warned(settings, t, rows[..n]), Paused(settings, t, rows[..n], now), Restored(settings, t, rows[..n]);
    OneMore(settings, t, rows, now, n);
    LadderOne(settings, t.sellers, warned, restored, seller, now);
    assert !Pauses(settings, t, seller, row, now) && !Restores(settings, t, seller, row);
    assert restored + {} == restored && paused + {} == paused;
  }

  lemma IdleTurn(settings: Settings, t: Tables, rows: Rows, now: int, n: nat)
    requires n < |rows| && DistinctSellers(rows)
    requires !Restores(settings, t, rows[n].0, rows[n].1) && !Pauses(settings, t, rows[n].0, rows[n].1, now) && !Warns(settings, t, rows[n].0, rows[n].1)
    ensures var t', total, seller, row := After(settings, t, rows[..n], now), TotalsOf(settings, t, rows[..n], now), rows[n].0, rows[n].1;
            && LadderVisit(settings, t', seller, row, now) == (After(settings, t, rows[..n + 1], now), true)
            && LadderCount(settings, t', seller, row, now, total) == TotalsOf(settings, t, rows[..n + 1], now)
  {
    hide StoresAfter, SellersAfter, PauseActive, Paused, Restored, Warned, DistinctSellers, Stopped, ActiveStores, CheckAndRestore;
    var warned, paused, restored := Warned(settings, t, rows[..n]), Paused(settings, t, rows[..n], now), Restored(settings, t, rows[..n]);
    OneMore(settings, t, rows, now, n);
    assert warned + {} == warned && restored + {} == restored && paused + {} == paused;
  }

  lemma Turn(settings: Settings, t: Tables, rows: Rows, now: int, n: nat)
    requires n < |rows| && DistinctSellers(rows) && OneActivePerSeller(t.stores) && NoneBlocked(settings, t, rows[..n + 1])
    ensures var t', total, seller, row := After(settings, t, rows[..n], now), TotalsOf(settings, t, rows[..n], now), rows[n].0, rows[n].1;
            && LadderVisit(settings, t', seller, row, now) == (After(settings, t, rows[..n + 1], now), true)
            && LadderCount(settings, t', seller, row, now, total) == TotalsOf(settings, t, rows[..n + 1], now)
  {
    Fewer(settings, t, rows, n + 1);
    hide LadderVisit, LadderCount, TotalsOf, After, OneActivePerSeller, DistinctSellers, NoneBlocked, Blocked;
    if Restores(settings, t, rows[n].0, rows[n].1) { RestoreTurn(settings, t, rows, now, n); }
    else if Pauses(settings, t, rows[n].0, rows[n].1, now) { PauseTurn(settings, t, rows, now, n); }
    else if Warns(settings, t, rows[n].0, rows[n].1) { WarnTurn(settings, t, rows, now, n); }
    else { IdleTurn(settings, t, rows, now, n); }
  }

  // ---- The whole sweep -----------------------------------------------------------------------------------

  lemma {:induction false} SweepPrefix(settings: Settings, t: Tables, rows: Rows, now: int, n: nat)
    requires n <= |rows| && DistinctSellers(rows) && OneActivePerSeller(t.stores) && NoneBlocked(settings, t, rows[..n])
    ensures LadderSweep(settings, t, rows, now, LadderTotals(0, 0, 0))
         == LadderSweep(settings, After(settings, t, rows[..n], now), rows[n..], now, TotalsOf(settings, t, rows[..n], now))
  {
    hide LadderVisit, LadderCount, TotalsOf, After, OneActivePerSeller, DistinctSellers;
    if n == 0 {
      NothingYet(settings, t, rows, now);
    } else {
      Fewer(settings, t, rows, n);
      SweepPrefix(settings, t, rows, now, n - 1);
      Turn(settings, t, rows, now, n - 1);
      assert rows[n - 1..][0] == rows[n - 1] && rows[n - 1..][1..] == rows[n..];
    }
  }

  lemma NothingYet(settings: Settings, t: Tables, rows: Rows, now: int)
    ensures After(settings, t, rows[..0], now) == t && TotalsOf(settings, t, rows[..0], now) == LadderTotals(0, 0, 0) && rows[0..] == rows
  {
    assert Stopped(t.stores, {}) == {};
    assert StoresAfter(t.stores, {}, {}) == t.stores && SellersAfter(settings, t.sellers, {}, {}, now) == t.sellers;
    assert Warned(settings, t, []) == {} && Paused(settings, t, [], now) == {} && Restored(settings, t, []) == {};
  }

  lemma Fewer(settings: Settings, t: Tables, rows: Rows, n: nat)
    requires 0 < n <= |rows| && NoneBlocked(settings, t, rows[..n])
    ensures NoneBlocked(settings, t, rows[..n - 1])
    ensures Restores(settings, t, rows[n - 1].0, rows[n - 1].1) ==> !Blocked(t.stores, rows[n - 1].0)
  {
    hide Restores, Blocked;
    forall i | 0 <= i < n ensures rows[..n][i] == rows[i] {}
    forall i | 0 <= i < n - 1 ensures rows[..n - 1][i] == rows[..n][i] {}
  }

  lemma {:induction false} FindBlocked(settings: Settings, t: Tables, rows: Rows, k: nat) returns (n: nat)
    requires k <= |rows| && !NoneBlocked(settings, t, rows[..k])
    ensures n < k && FirstBlocked(settings, t, rows, n)
  {
    hide Restores, Blocked;
    if k > 0 && !NoneBlocked(settings, t, rows[..k - 1]) {
      n := FindBlocked(settings, t, rows, k - 1);
    } else {
      n := k - 1;
      assert forall j | 0 <= j < n :: rows[..n][j] == rows[..k][j];
      var i :| 0 <= i < k && Restores(settings, t, rows[..k][i].0, rows[..k][i].1) && Blocked(t.stores, rows[..k][i].0);
    }
  }

  /** The sweep's result does not depend on the order of the sellers, up to a refused restore. */
  lemma SweepIsExact(settings: Settings, t: Tables, rows: Rows, now: int)
    requires DistinctSellers(rows) && OneActivePerSeller(t.stores)
    ensures var (t', total, ok) := LadderSweep(settings, t, rows, now, LadderTotals(0, 0, 0)); SweptExactly(settings, t, rows, now, t', total, ok)
  {
    hide LadderVisit, LadderCount, TotalsOf, After, OneActivePerSeller, DistinctSellers;
    assert rows[..|rows|] == rows;
    if NoneBlocked(settings, t, rows) {
      SweepPrefix(settings, t, rows, now, |rows|);
    } else {
      var n := FindBlocked(settings, t, rows, |rows|);
      SweepPrefix(settings, t, rows, now, n);
      RestoreTurn(settings, t, rows, now, n);
      assert rows[n..][0] == rows[n];
      var t', total := LadderSweep(settings, t, rows, now, LadderTotals(0, 0, 0)).0, LadderSweep(settings, t, rows, now, LadderTotals(0, 0, 0)).1;
      assert StopsAt(settings, t, rows, now, n, t', total);
    }
  }
}
