/**
 * wallet.service.ts, ledger.service.ts and wallet-reconciliation.service.ts: the append-only
 * ledger, the cached balance kept beside it, and the sweep that compares the two. Money is in
 * the smallest currency unit.
 */
module Ledger {
  import opened Common

  type SellerId = nat
  type OrderId = nat
  type InvoiceId = nat

  datatype EntryType =
    | SaleCredit | CommissionDebit | GatewayFeeDebit | HoldRelease | ReserveHold | ReserveRelease
    | PayoutDebit | RefundAdjustment | CommissionAccrued | CommissionWaived
    | WalletTopupCredit | WalletPlanFeeDebit | WalletTeamSeatFeeDebit | WalletDeviceSlotFeeDebit
    | ProgramCommissionCredit | ProgramRewardCredit | ProgramClawbackDebit
    | VerificationFeeDebit | VerificationFeeRefundCredit | AdminManualCredit | AdminManualDebit

  const DEBIT_TYPES: set<EntryType> := {
    CommissionAccrued, WalletPlanFeeDebit, WalletTeamSeatFeeDebit, WalletDeviceSlotFeeDebit,
    PayoutDebit, ProgramClawbackDebit, VerificationFeeDebit, AdminManualDebit
  }

  const CREDIT_TYPES: set<EntryType> := {
    WalletTopupCredit, ProgramCommissionCredit, ProgramRewardCredit, VerificationFeeRefundCredit, AdminManualCredit
  }

  /** What an entry does to the balance; the dormant types do nothing. */
  function SignedContribution(kind: EntryType, amount: int): int {
    if kind in CREDIT_TYPES then amount
    else if kind in {CommissionWaived, RefundAdjustment} then -amount
    else if kind in DEBIT_TYPES then -amount
    else 0
  }

  /**
   * The sign convention over all types: a debit lowers the balance by its amount, a credit raises
   * it, a waiver or refund is entered negative and raises it, and the dormant types leave it alone.
   */
  lemma SignConvention(kind: EntryType, amount: int)
    ensures SignedContribution(kind, amount) == amount || SignedContribution(kind, amount) == -amount || SignedContribution(kind, amount) == 0
    ensures amount > 0 ==> (SignedContribution(kind, amount) > 0 <==>
              kind in {WalletTopupCredit, ProgramCommissionCredit, ProgramRewardCredit, VerificationFeeRefundCredit, AdminManualCredit})
    ensures amount > 0 ==> (SignedContribution(kind, amount) < 0 <==>
              kind in {CommissionAccrued, WalletPlanFeeDebit, WalletTeamSeatFeeDebit, WalletDeviceSlotFeeDebit,
                       PayoutDebit, ProgramClawbackDebit, VerificationFeeDebit, AdminManualDebit, CommissionWaived, RefundAdjustment})
    ensures SignedContribution(CommissionWaived, -amount) == SignedContribution(RefundAdjustment, -amount) == amount
    ensures amount > 0 ==> (SignedContribution(kind, amount) == 0 <==>
              kind in {SaleCredit, CommissionDebit, GatewayFeeDebit, HoldRelease, ReserveHold, ReserveRelease})
    ensures DEBIT_TYPES !! CREDIT_TYPES
  {
    match kind case SaleCredit => case CommissionDebit => case GatewayFeeDebit => case _ =>
  }

  datatype Entry = Entry(seller: SellerId, kind: EntryType, amount: int, createdAt: int, order: Option<OrderId>, invoice: Option<InvoiceId>)

  function ContributionTo(e: Entry, seller: SellerId): int {
    if e.seller == seller then SignedContribution(e.kind, e.amount) else 0
  }

  /** The from-scratch balance. */
  function LedgerBalance(entries: seq<Entry>, seller: SellerId): int {
    if entries == [] then 0 else LedgerBalance(entries[..|entries| - 1], seller) + ContributionTo(entries[|entries| - 1], seller)
  }

  type Balances = map<SellerId, int>

  /** The cached balance; a seller without activity has no row. */
  function Cached(balances: Balances, seller: SellerId): int {
    if seller in balances then balances[seller] else 0
  }

  function Drift(balances: Balances, entries: seq<Entry>, seller: SellerId): int {
    Cached(balances, seller) - LedgerBalance(entries, seller)
  }

  lemma {:induction false} BalanceAppend(a: seq<Entry>, b: seq<Entry>, seller: SellerId)
    ensures LedgerBalance(a + b, seller) == LedgerBalance(a, seller) + LedgerBalance(b, seller)
  {
    if b == [] {
      assert a + b == a;
    } else {
      BalanceAppend(a, b[..|b| - 1], seller);
      assert (a + b)[..|a + b| - 1] == a + b[..|b| - 1];
    }
  }

  lemma PostKeepsDrift(balances: Balances, entries: seq<Entry>, e: Entry, seller: SellerId)
    ensures Drift(balances[e.seller := Cached(balances, e.seller) + ContributionTo(e, e.seller)], entries + [e], seller) ==
            Drift(balances, entries, seller)
  {
    assert (entries + [e])[..|entries|] == entries;
  }

  class WalletService {
    var entries: seq<Entry>
    var balances: Balances

    constructor ()
      ensures entries == [] && balances == map[]
    {
      entries, balances := [], map[];
    }

    /** Both writes, in the caller's transaction: nobody's cache drifts from their ledger. */
    method PostLedgerEntry(e: Entry)
      modifies this
      ensures entries == old(entries) + [e]
      ensures balances.Keys == old(balances).Keys + {e.seller}
      ensures forall seller :: Cached(balances, seller) == Cached(old(balances), seller) + ContributionTo(e, seller)
      ensures forall seller :: Drift(balances, entries, seller) == Drift(old(balances), old(entries), seller)
    {
      forall seller: SellerId { PostKeepsDrift(balances, entries, e, seller); }
      entries := entries + [e];
      var delta := SignedContribution(e.kind, e.amount);
      if e.seller in balances {
        balances := balances[e.seller := balances[e.seller] + delta];
      } else {
        balances := balances[e.seller := delta];
      }
    }

    method GetBalance(seller: SellerId) returns (balance: int)
      ensures balance == LedgerBalance(entries, seller) + Drift(balances, entries, seller)
    {
      balance := if seller in balances then balances[seller] else 0;
    }

    method ComputeLedgerBalance(seller: SellerId) returns (sum: int)
      ensures sum == LedgerBalance(entries, seller)
    {
      sum := 0;
      for i := 0 to |entries|
        invariant sum == LedgerBalance(entries[..i], seller)
      {
        assert entries[..i + 1][..i] == entries[..i];
        if entries[i].seller == seller { sum := sum + SignedContribution(entries[i].kind, entries[i].amount); }
      }
      assert entries[..|entries|] == entries;
    }
  }

  // ---- ledger.service.ts ---------------------------------------------------------------------------

  datatype Order = Order(id: OrderId, totalAmount: nat, taxAmount: nat)

  /** Percentages are in hundredths of a percent. */
  datatype LaunchCampaign = LaunchCampaign(discount: int, expiry: Option<int>, sellerLimit: int)

  function LaunchDiscount(campaign: LaunchCampaign, rank: Option<nat>, now: int): int {
    if campaign.discount <= 0 then 0
    else if campaign.expiry.Some? && campaign.expiry.value < now then 0
    else if campaign.sellerLimit > 0 && (rank.None? || rank.value > campaign.sellerLimit) then 0
    else campaign.discount
  }

  /** `round2` of a share of an amount in cents: halves round up. */
  function RoundedShare(base: int, rate: int): int { (2 * base * rate + 10_000) / 20_000 }

  function CommissionOn(order: Order, baseRate: int, campaign: LaunchCampaign, rank: Option<nat>, now: int): int {
    RoundedShare(order.totalAmount - order.taxAmount, Max(0, baseRate - LaunchDiscount(campaign, rank, now)))
  }

  lemma ShareMonotone(base: nat, rate: nat, higher: nat)
    requires rate <= higher
    ensures 0 <= RoundedShare(base, rate) <= RoundedShare(base, higher)
    ensures RoundedShare(base, 0) == 0 && RoundedShare(base, 10_000) == base
  {
    assert 2 * base * rate <= 2 * base * higher by {
      assert base * rate <= base * higher;
    }
  }

  /** The whole unit nearest to `base * rate / 10_000`, the higher of two that are equally near. */
  lemma ShareIsNearest(base: int, rate: int)
    ensures 2 * base * rate - 10_000 < 20_000 * RoundedShare(base, rate) <= 2 * base * rate + 10_000
  {}

  /** The launch discount applies while the campaign has one, has not expired and has room for the seller's rank. */
  lemma DiscountExactly(campaign: LaunchCampaign, rank: Option<nat>, now: int)
    ensures LaunchDiscount(campaign, rank, now) ==
            if && campaign.discount > 0
               && (campaign.expiry == None || now <= campaign.expiry.value)
               && (campaign.sellerLimit <= 0 || (rank.Some? && rank.value <= campaign.sellerLimit))
            then campaign.discount else 0
  {}

  /**
   * An order's commission is its taxless total times the rate, to the nearest unit with halves
   * up; the rate is the base rate, less the discount of a live campaign but never below zero.
   */
  lemma CommissionExactly(order: Order, baseRate: int, campaign: LaunchCampaign, rank: Option<nat>, now: int)
    ensures var live := && campaign.discount > 0
                        && (campaign.expiry == None || now <= campaign.expiry.value)
                        && (campaign.sellerLimit <= 0 || (rank.Some? && rank.value <= campaign.sellerLimit));
            var base, rate := order.totalAmount - order.taxAmount, Max(0, if live then baseRate - campaign.discount else baseRate);
            2 * base * rate - 10_000 < 20_000 * CommissionOn(order, baseRate, campaign, rank, now) <= 2 * base * rate + 10_000
  {
    DiscountExactly(campaign, rank, now);
    hide RoundedShare, LaunchDiscount;
    ShareIsNearest(order.totalAmount - order.taxAmount, Max(0, baseRate - LaunchDiscount(campaign, rank, now)));
  }

  /**
   * Commission is never negative, never more than the taxless order, and a campaign never raises
   * it: without a discount it is the base rate's share, to within half a unit.
   */
  lemma CommissionBounds(order: Order, baseRate: nat, campaign: LaunchCampaign, rank: Option<nat>, now: int)
    requires order.taxAmount <= order.totalAmount && baseRate <= 10_000
    ensures var base, full := order.totalAmount - order.taxAmount, CommissionOn(order, baseRate, campaign.(discount := 0), rank, now);
            && 0 <= CommissionOn(order, baseRate, campaign, rank, now) <= full <= base
            && 2 * base * baseRate - 10_000 < 20_000 * full <= 2 * base * baseRate + 10_000
  {
    CommissionExactly(order, baseRate, campaign.(discount := 0), rank, now);
    hide RoundedShare;
    var base: nat := order.totalAmount - order.taxAmount;
    var rate: nat := Max(0, baseRate - LaunchDiscount(campaign, rank, now));
    ShareMonotone(base, rate, baseRate);
    ShareMonotone(base, baseRate, 10_000);
  }

  class LedgerService {
    const wallet: WalletService

    constructor (wallet: WalletService)
      ensures this.wallet == wallet
    {
      this.wallet := wallet;
    }

    method AccrueCommission(seller: SellerId, order: Order, baseRate: int, campaign: LaunchCampaign, rank: Option<nat>, now: int)
      modifies wallet
      ensures var amount := CommissionOn(order, baseRate, campaign, rank, now);
              && wallet.entries == old(wallet.entries) + [Entry(seller, CommissionAccrued, amount, now, Some(order.id), None)]
              && Cached(wallet.balances, seller) == Cached(old(wallet.balances), seller) - amount
      ensures var live := && campaign.discount > 0
                          && (campaign.expiry == None || now <= campaign.expiry.value)
                          && (campaign.sellerLimit <= 0 || (rank.Some? && rank.value <= campaign.sellerLimit));
              var base, rate := order.totalAmount - order.taxAmount, Max(0, if live then baseRate - campaign.discount else baseRate);
              && |wallet.entries| == |old(wallet.entries)| + 1
              && var e := wallet.entries[|old(wallet.entries)|];
                 && e.kind == CommissionAccrued && e.seller == seller && e.order == Some(order.id)
                 && 2 * base * rate - 10_000 < 20_000 * e.amount <= 2 * base * rate + 10_000
      ensures forall s :: Drift(wallet.balances, wallet.entries, s) == Drift(old(wallet.balances), old(wallet.entries), s)
    {
      CommissionExactly(order, baseRate, campaign, rank, now);
      var base := order.totalAmount - order.taxAmount;
      var rate := Max(0, baseRate - LaunchDiscount(campaign, rank, now));
      wallet.PostLedgerEntry(Entry(seller, CommissionAccrued, RoundedShare(base, rate), now, Some(order.id), None));
    }

    /** Whatever the sign of the amount given, a waiver gives the seller money back. */
    method WaiveCommission(seller: SellerId, order: OrderId, amount: int, now: int)
      modifies wallet
      ensures |wallet.entries| == |old(wallet.entries)| + 1 && wallet.entries[..|old(wallet.entries)|] == old(wallet.entries)
      ensures wallet.entries[|old(wallet.entries)|] == Entry(seller, CommissionWaived, if amount < 0 then amount else -amount, now, Some(order), None)
      ensures Cached(wallet.balances, seller) == Cached(old(wallet.balances), seller) + Max(amount, -amount) >= Cached(old(wallet.balances), seller)
      ensures forall s :: Drift(wallet.balances, wallet.entries, s) == Drift(old(wallet.balances), old(wallet.entries), s)
    {
      wallet.PostLedgerEntry(Entry(seller, CommissionWaived, -Max(amount, -amount), now, Some(order), None));
    }

    method ReverseCommissionForRefund(seller: SellerId, order: OrderId, amount: int, now: int)
      modifies wallet
      ensures amount <= 0 ==> wallet.entries == old(wallet.entries) && wallet.balances == old(wallet.balances)
      ensures amount > 0 ==> wallet.entries == old(wallet.entries) + [Entry(seller, RefundAdjustment, -amount, now, Some(order), None)]
      ensures Cached(wallet.balances, seller) == Cached(old(wallet.balances), seller) + Max(0, amount)
      ensures forall s :: Drift(wallet.balances, wallet.entries, s) == Drift(old(wallet.balances), old(wallet.entries), s)
    {
      if amount <= 0 { return; }
      wallet.PostLedgerEntry(Entry(seller, RefundAdjustment, -amount, now, Some(order), None));
    }
  }

  // ---- wallet-reconciliation.service.ts ---------------------------------------------------------------

  datatype DriftRow = DriftRow(seller: SellerId, cachedBalance: int, ledgerBalance: int, driftAmount: int)

  function DriftOf(balances: Balances, entries: seq<Entry>, seller: SellerId): DriftRow {
    DriftRow(seller, Cached(balances, seller), LedgerBalance(entries, seller), Drift(balances, entries, seller))
  }

  function Drifters(balances: Balances, entries: seq<Entry>, sellers: set<SellerId>): set<SellerId> {
    set s | s in sellers && Drift(balances, entries, s) != 0
  }

  /** The rows a sweep over these sellers reports. */
  function Reports(balances: Balances, entries: seq<Entry>, sellers: seq<SellerId>): seq<DriftRow> {
    if sellers == [] then []
    else
      var n := |sellers| - 1;
      Reports(balances, entries, sellers[..n]) + if Drift(balances, entries, sellers[n]) != 0 then [DriftOf(balances, entries, sellers[n])] else []
  }

  lemma ReportsNext(balances: Balances, entries: seq<Entry>, sellers: seq<SellerId>, i: nat)
    requires i < |sellers|
    ensures Reports(balances, entries, sellers[..0]) == []
    ensures Reports(balances, entries, sellers[..i + 1]) ==
            Reports(balances, entries, sellers[..i]) + if Drift(balances, entries, sellers[i]) != 0 then [DriftOf(balances, entries, sellers[i])] else []
  {
    assert sellers[..i + 1][..i] == sellers[..i];
  }

  lemma DriftersAdd(balances: Balances, entries: seq<Entry>, sellers: set<SellerId>, seller: SellerId)
    requires seller !in sellers
    ensures |Drifters(balances, entries, sellers + {seller})| ==
            |Drifters(balances, entries, sellers)| + if Drift(balances, entries, seller) != 0 then 1 else 0
  {
    hide Drift;
    var before := Drifters(balances, entries, sellers);
    assert Drifters(balances, entries, sellers + {seller}) == if Drift(balances, entries, seller) != 0 then before + {seller} else before;
  }

  lemma LastIsNew(sellers: seq<SellerId>)
    requires sellers != [] && NoDuplicates(sellers)
    ensures var n := |sellers| - 1;
            NoDuplicates(sellers[..n]) && sellers[n] !in Elements(sellers[..n]) && Elements(sellers) == Elements(sellers[..n]) + {sellers[n]}
  {
    assert sellers == sellers[..|sellers| - 1] + [sellers[|sellers| - 1]];
  }

  lemma {:induction false} ReportsCount(balances: Balances, entries: seq<Entry>, sellers: seq<SellerId>)
    requires NoDuplicates(sellers)
    ensures |Reports(balances, entries, sellers)| == |Drifters(balances, entries, Elements(sellers))|
  {
    if sellers == [] {
      assert Drifters(balances, entries, Elements(sellers)) == {};
    } else {
      var n := |sellers| - 1;
      LastIsNew(sellers);
      hide Drift, DriftOf, Drifters, Elements, NoDuplicates;
      ReportsCount(balances, entries, sellers[..n]);
      DriftersAdd(balances, entries, Elements(sellers[..n]), sellers[n]);
    }
  }

  lemma {:induction false} ReportedRow(balances: Balances, entries: seq<Entry>, sellers: seq<SellerId>, row: DriftRow)
    ensures row in Reports(balances, entries, sellers) <==>
            row.seller in sellers && Drift(balances, entries, row.seller) != 0 && row == DriftOf(balances, entries, row.seller)
  {
    hide Drift, LedgerBalance;
    if sellers != [] {
      var n := |sellers| - 1;
      ReportedRow(balances, entries, sellers[..n], row);
      assert sellers == sellers[..n] + [sellers[n]];
    }
  }

  lemma ReportsExactly(balances: Balances, entries: seq<Entry>, sellers: seq<SellerId>)
    requires NoDuplicates(sellers)
    ensures Reports(balances, entries, []) == []
    ensures |Reports(balances, entries, sellers)| == |Drifters(balances, entries, Elements(sellers))|
    ensures forall s :: DriftOf(balances, entries, s) in Reports(balances, entries, sellers) <==> s in sellers && Drift(balances, entries, s) != 0
    ensures forall row | row in Reports(balances, entries, sellers) :: row == DriftOf(balances, entries, row.seller)
  {
    ReportsCount(balances, entries, sellers);
    assert Reports(balances, entries, []) == [];
    hide Drift, LedgerBalance, Drifters, Reports;
    forall s: SellerId { ReportedRow(balances, entries, sellers, DriftOf(balances, entries, s)); }
    forall row | row in Reports(balances, entries, sellers) { ReportedRow(balances, entries, sellers, row); }
  }

  class WalletReconciliationService {
    const wallet: WalletService
    var drifts: seq<DriftRow>

    constructor (wallet: WalletService)
      ensures this.wallet == wallet && drifts == []
    {
      this.wallet := wallet;
      drifts := [];
    }

    /**
     * Reports each seller whose cache has drifted, once, with the amounts, and nobody else. It
     * repairs nothing: the wallet is not among what it may modify.
     */
    method RunSweep(sellers: seq<SellerId>) returns (checked: nat, driftsDetected: nat)
      requires NoDuplicates(sellers)
      modifies `drifts
      ensures checked == |sellers|
      ensures driftsDetected == |drifts| - |old(drifts)| == |Drifters(wallet.balances, wallet.entries, Elements(sellers))|
      ensures old(drifts) <= drifts
      ensures forall s :: DriftOf(wallet.balances, wallet.entries, s) in drifts[|old(drifts)|..] <==>
                          s in sellers && Drift(wallet.balances, wallet.entries, s) != 0
      ensures forall row | row in drifts[|old(drifts)|..] :: row == DriftOf(wallet.balances, wallet.entries, row.seller)
    {
      hide LedgerBalance, Reports;
      checked, driftsDetected := 0, 0;
      ReportsExactly(wallet.balances, wallet.entries, sellers);
      for i := 0 to |sellers|
        invariant checked == i && drifts == old(drifts) + Reports(wallet.balances, wallet.entries, sellers[..i])
        invariant driftsDetected == |Reports(wallet.balances, wallet.entries, sellers[..i])|
      {
        var seller := sellers[i];
        ReportsNext(wallet.balances, wallet.entries, sellers, i);
        checked := checked + 1;
        var cachedBalance := wallet.GetBalance(seller);
        var ledgerBalance := wallet.ComputeLedgerBalance(seller);
        var driftAmount := cachedBalance - ledgerBalance;
        if driftAmount == 0 { continue; }
        driftsDetected := driftsDetected + 1;
        drifts := drifts + [DriftRow(seller, cachedBalance, ledgerBalance, driftAmount)];
      }
      assert sellers[..|sellers|] == sellers;
    }
  }
}
