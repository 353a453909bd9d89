/**
 * subscription-refund.service.ts: cancelling a subscription, with a one-time refund of the first
 * cycle. The refund's ledger row is inserted without touching the cached balance.
 */
module SubscriptionRefund {
  import opened Common
  import opened Ledger

  const DAY_MS := 86_400_000

  datatype Subscription = Subscription(cancelled: bool, firstCycleRefundedAt: Option<int>)

  datatype Payment = Payment(planFee: nat, verifiedAt: int)

  /** `refundPercent` is in hundredths of a percent. */
  datatype Settings = Settings(refundWindowDays: nat, refundPercent: nat)

  datatype Failure = ReasonRequired | NotFound | AlreadyCancelled

  datatype Outcome = Refunded(amount: int) | NotRefunded(why: Ineligible)

  datatype Ineligible = AlreadyUsed | Referred | NotFirstCycle | WindowClosed

  function Ineligibility(settings: Settings, refundedBefore: bool, referred: bool, payments: seq<Payment>, now: int): Option<Ineligible> {
    if refundedBefore then Some(AlreadyUsed)
    else if referred then Some(Referred)
    else if |payments| != 1 then Some(NotFirstCycle)
    else if now > payments[0].verifiedAt + settings.refundWindowDays * DAY_MS then Some(WindowClosed)
    else None
  }

  class SubscriptionRefundService {
    const wallet: WalletService
    var subscriptions: map<SellerId, Subscription>
    var referred: set<SellerId>
    /** Verified plan-fee payments, oldest first. */
    var payments: map<SellerId, seq<Payment>>

    constructor (wallet: WalletService)
      ensures this.wallet == wallet && subscriptions == map[] && referred == {} && payments == map[]
    {
      this.wallet := wallet;
      subscriptions, referred, payments := map[], {}, map[];
    }

    function PaymentsOf(seller: SellerId): seq<Payment> reads this { if seller in payments then payments[seller] else [] }

    /**
     * A qualifying cancellation credits the ledger once and for ever uses up the refund; every
     * unit of it is a unit by which the cached balance now falls short of the ledger.
     */
    method CancelWithRefund(settings: Settings, seller: SellerId, reasonGiven: bool, now: int) returns (r: Result<Outcome, Failure>)
      modifies this`subscriptions, wallet`entries
      ensures r.Ok? <==> reasonGiven && seller in old(subscriptions) && !old(subscriptions)[seller].cancelled
      ensures r.Err? ==> subscriptions == old(subscriptions) && wallet.entries == old(wallet.entries)
      ensures r.Ok? ==>
                var was := old(subscriptions)[seller];
                var why := Ineligibility(settings, was.firstCycleRefundedAt.Some?, seller in referred, PaymentsOf(seller), now);
                && subscriptions == old(subscriptions)[seller := Subscription(true, if why.None? then Some(now) else was.firstCycleRefundedAt)]
                && r.value == (if why.Some? then NotRefunded(why.value) else Refunded(RoundedShare(PaymentsOf(seller)[0].planFee, settings.refundPercent)))
      ensures r.Ok? ==>
                var was, paid := old(subscriptions)[seller], PaymentsOf(seller);
                && (r.value == NotRefunded(AlreadyUsed) <==> was.firstCycleRefundedAt.Some?)
                && (r.value == NotRefunded(Referred) <==> was.firstCycleRefundedAt.None? && seller in referred)
                && (r.value == NotRefunded(NotFirstCycle) <==> was.firstCycleRefundedAt.None? && seller !in referred && |paid| != 1)
                && (r.value.Refunded? <==>
                      && was.firstCycleRefundedAt.None? && seller !in referred && |paid| == 1
                      && now - paid[0].verifiedAt <= settings.refundWindowDays * (24 * 60 * 60 * 1000))
                && (r.value.Refunded? ==>
                      var share := 2 * paid[0].planFee * settings.refundPercent;
                      share - 10_000 < 20_000 * r.value.amount <= share + 10_000)
      ensures r.Err? ==> r.error == if !reasonGiven then ReasonRequired else if seller !in old(subscriptions) then NotFound else AlreadyCancelled
      ensures r.Ok? && r.value.Refunded? ==> old(subscriptions)[seller].firstCycleRefundedAt.None? && subscriptions[seller].firstCycleRefundedAt.Some?
      ensures var amount := if r.Ok? && r.value.Refunded? then Max(0, r.value.amount) else 0;
              && wallet.entries == old(wallet.entries) + (if amount > 0 then [Entry(seller, RefundAdjustment, -amount, now, None, None)] else [])
              && forall s :: Drift(wallet.balances, wallet.entries, s) ==
                             Drift(wallet.balances, old(wallet.entries), s) - if s == seller then amount else 0
    {
      if !reasonGiven { return Err(ReasonRequired); }
      if seller !in subscriptions { return Err(NotFound); }
      var subscription := subscriptions[seller];
      if subscription.cancelled { return Err(AlreadyCancelled); }
      var why := Ineligibility(settings, subscription.firstCycleRefundedAt.Some?, seller in referred, PaymentsOf(seller), now);
      if why.Some? {
        subscriptions := subscriptions[seller := subscription.(cancelled := true)];
        return Ok(NotRefunded(why.value));
      }
      subscriptions := subscriptions[seller := Subscription(true, Some(now))];
      ShareIsNearest(PaymentsOf(seller)[0].planFee, settings.refundPercent);
      var refundAmount := PostRefund(settings, seller, PaymentsOf(seller)[0], now);
      return Ok(Refunded(refundAmount));
    }

    method PostRefund(settings: Settings, seller: SellerId, firstPayment: Payment, now: int) returns (amount: int)
      modifies wallet`entries
      ensures amount == RoundedShare(firstPayment.planFee, settings.refundPercent)
      ensures 2 * firstPayment.planFee * settings.refundPercent - 10_000 < 20_000 * amount <= 2 * firstPayment.planFee * settings.refundPercent + 10_000
      ensures wallet.entries == old(wallet.entries) + (if amount > 0 then [Entry(seller, RefundAdjustment, -amount, now, None, None)] else [])
      ensures forall s :: Drift(wallet.balances, wallet.entries, s) ==
                          Drift(wallet.balances, old(wallet.entries), s) - if s == seller then Max(0, amount) else 0
    {
      amount := RoundedShare(firstPayment.planFee, settings.refundPercent);
      ShareIsNearest(firstPayment.planFee, settings.refundPercent);
      ShareMonotone(firstPayment.planFee, 0, settings.refundPercent);
      if amount <= 0 { return; }
      var e := Entry(seller, RefundAdjustment, -amount, now, None, None);
      forall s: SellerId ensures LedgerBalance(wallet.entries + [e], s) == LedgerBalance(wallet.entries, s) + ContributionTo(e, s) {
        assert (wallet.entries + [e])[..|wallet.entries|] == wallet.entries;
      }
      wallet.entries := wallet.entries + [e];
    }
  }
}
