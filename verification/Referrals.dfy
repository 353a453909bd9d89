/** program-commission.service.ts: what a referred seller's plan-fee payments earn the referrer. */
module Referrals {
  import opened Common
  import opened Calendar
  import Ledger

  type SellerId = Ledger.SellerId

  datatype Program = StudentReferral | Ambassador | Creator

  datatype Attribution = Attribution(
    program: Program, referrer: SellerId, windowEndsAt: int, renewalPayoutCount: nat, commissionMonthsPaid: nat)

  datatype Rates = Rates(studentFlat: int, studentMaxPayouts: nat, perMonth: int, maxMonths: nat, creatorRate: int)

  /** A verified plan-fee payment; `interval` is the billing interval of the payer's subscription, if it has one. */
  datatype Payment = Payment(renewal: bool, planFee: nat, interval: Option<Interval>, at: int, approved: bool)

  function PaidMonths(interval: Interval): nat {
    match interval case Quarterly => 3 case SixMonth => 6 case Yearly => 12 case _ => 1
  }

  datatype Payout = Payout(attribution: Attribution, amount: int)

  function AccrueStudent(r: Rates, a: Attribution, p: Payment): Payout {
    if !p.renewal || a.renewalPayoutCount >= r.studentMaxPayouts || r.studentFlat <= 0 then Payout(a, 0)
    else Payout(a.(renewalPayoutCount := a.renewalPayoutCount + 1), r.studentFlat)
  }

  function AccrueAmbassador(r: Rates, a: Attribution, p: Payment): Payout {
    var monthsRemaining := r.maxMonths - a.commissionMonthsPaid;
    if !p.renewal || monthsRemaining <= 0 || p.interval.None? then Payout(a, 0)
    else
      var monthsToPay := Min(PaidMonths(p.interval.value), monthsRemaining);
      if monthsToPay <= 0 || r.perMonth * monthsToPay <= 0 then Payout(a, 0)
      else Payout(a.(commissionMonthsPaid := a.commissionMonthsPaid + monthsToPay), r.perMonth * monthsToPay)
  }

  function Accrue(r: Rates, a: Attribution, p: Payment): Payout {
    if a.windowEndsAt < p.at || !p.approved then Payout(a, 0)
    else
      match a.program
      case StudentReferral => AccrueStudent(r, a, p)
      case Ambassador => AccrueAmbassador(r, a, p)
      case Creator => Payout(a, Max(0, Ledger.RoundedShare(p.planFee, r.creatorRate)))
  }

  // ---- The service ----------------------------------------------------------------------------------

  class ProgramCommissionService {
    const wallet: Ledger.WalletService
    var attributions: map<SellerId, Attribution>

    constructor (wallet: Ledger.WalletService)
      ensures this.wallet == wallet && attributions == map[]
    {
      this.wallet := wallet;
      attributions := map[];
    }

    /** The counter and the credit it gates move together, and no seller's cache drifts. */
    method AccrueReferralCommissionIfApplicable(r: Rates, referred: SellerId, p: Payment)
      modifies this, wallet
      ensures referred !in old(attributions) ==> attributions == old(attributions) && wallet.entries == old(wallet.entries)
      ensures referred in old(attributions) ==>
                var was := old(attributions)[referred];
                var due := Accrue(r, was, p);
                && attributions == old(attributions)[referred := due.attribution]
                && wallet.entries == old(wallet.entries) +
                     (if due.amount > 0 then [Ledger.Entry(was.referrer, Ledger.ProgramCommissionCredit, due.amount, p.at, None, None)] else [])
                && Ledger.Cached(wallet.balances, was.referrer) == Ledger.Cached(old(wallet.balances), was.referrer) + due.amount
      ensures forall s :: Ledger.Drift(wallet.balances, wallet.entries, s) == Ledger.Drift(old(wallet.balances), old(wallet.entries), s)
    {
      if referred !in attributions { return; }
      var a := attributions[referred];
      if a.windowEndsAt < p.at { return; }
      if !p.approved { return; }
      match a.program
      case StudentReferral =>
        if !p.renewal { return; }
        if a.renewalPayoutCount >= r.studentMaxPayouts { return; }
        if r.studentFlat <= 0 { return; }
        wallet.PostLedgerEntry(Ledger.Entry(a.referrer, Ledger.ProgramCommissionCredit, r.studentFlat, p.at, None, None));
        attributions := attributions[referred := a.(renewalPayoutCount := a.renewalPayoutCount + 1)];
      case Ambassador =>
        if !p.renewal { return; }
        var monthsRemaining := r.maxMonths - a.commissionMonthsPaid;
        if monthsRemaining <= 0 { return; }
        if p.interval.None? { return; }
        var monthsToPay := Min(PaidMonths(p.interval.value), monthsRemaining);
        if monthsToPay <= 0 { return; }
        var amount := r.perMonth * monthsToPay;
        if amount <= 0 { return; }
        wallet.PostLedgerEntry(Ledger.Entry(a.referrer, Ledger.ProgramCommissionCredit, amount, p.at, None, None));
        attributions := attributions[referred := a.(commissionMonthsPaid := a.commissionMonthsPaid + monthsToPay)];
      case Creator =>
        var amount := Ledger.RoundedShare(p.planFee, r.creatorRate);
        if amount <= 0 { return; }
        wallet.PostLedgerEntry(Ledger.Entry(a.referrer, Ledger.ProgramCommissionCredit, amount, p.at, None, None));
    }
  }

  // ---- Closed forms -----------------------------------------------------------------------------------

  /** The attribution and the total paid after a sequence of payments. */
  function AccrueAll(r: Rates, a: Attribution, payments: seq<Payment>): Payout {
    if payments == [] then Payout(a, 0)
    else
      var before := AccrueAll(r, a, payments[..|payments| - 1]);
      var last := Accrue(r, before.attribution, payments[|payments| - 1]);
      Payout(last.attribution, before.amount + last.amount)
  }

  function Renewals(payments: seq<Payment>): nat {
    if payments == [] then 0 else Renewals(payments[..|payments| - 1]) + if payments[|payments| - 1].renewal then 1 else 0
  }

  /** The months of plan fee the payment renews. */
  function MonthsOf(p: Payment): nat { if p.renewal && p.interval.Some? then PaidMonths(p.interval.value) else 0 }

  /** A renewal counts the months of its billing interval, and anything else counts none. */
  lemma MonthsRenewed(p: Payment)
    ensures MonthsOf(p) == if !p.renewal || p.interval.None? then 0
                           else if p.interval.value == Yearly then 12 else if p.interval.value == SixMonth then 6
                           else if p.interval.value == Quarterly then 3 else 1
  {}

  /**
   * What one payment earns: nothing outside the window or without approval; for a student the flat
   * amount while renewals are left; for an ambassador the monthly amount for the renewed months that
   * are left; for a creator, whose attribution counts nothing, a share of the fee to the nearest unit.
   */
  lemma EarnsExactly(r: Rates, a: Attribution, p: Payment)
    ensures p.at > a.windowEndsAt || !p.approved ==> Accrue(r, a, p) == Payout(a, 0)
    ensures p.at <= a.windowEndsAt && p.approved ==>
              var b := Accrue(r, a, p);
              match a.program
              case StudentReferral =>
                if p.renewal && a.renewalPayoutCount < r.studentMaxPayouts && r.studentFlat > 0
                then b == Payout(a.(renewalPayoutCount := a.renewalPayoutCount + 1), r.studentFlat) else b == Payout(a, 0)
              case Ambassador =>
                var months := Min(MonthsOf(p), r.maxMonths - a.commissionMonthsPaid);
                if months > 0 && r.perMonth > 0
                then b == Payout(a.(commissionMonthsPaid := a.commissionMonthsPaid + months), months * r.perMonth) else b == Payout(a, 0)
              case Creator =>
                var share := 2 * p.planFee * r.creatorRate;
                && b.attribution == a && b.amount >= 0
                && (r.creatorRate >= 0 ==> share - 10_000 < 20_000 * b.amount <= share + 10_000)
                && (r.creatorRate < 0 ==> b.amount == 0)
  {
    Ledger.ShareIsNearest(p.planFee, r.creatorRate);
    if r.creatorRate < 0 { assert p.planFee * r.creatorRate <= 0; } else { assert p.planFee * r.creatorRate >= 0; }
    var months := Min(MonthsOf(p), r.maxMonths - a.commissionMonthsPaid);
    if months > 0 {
      if r.perMonth > 0 { Positive(r.perMonth, months); } else { NotPositive(r.perMonth, months); }
    }
    hide Ledger.RoundedShare;
  }

  lemma NotPositive(a: int, b: int)
    requires a <= 0 && b > 0
    ensures a * b <= 0
  {}

  function RenewedMonths(payments: seq<Payment>): nat {
    if payments == [] then 0 else RenewedMonths(payments[..|payments| - 1]) + MonthsOf(payments[|payments| - 1])
  }

  /** Within the window and while approved. */
  predicate AllEligible(a: Attribution, payments: seq<Payment>) {
    forall i | 0 <= i < |payments| :: payments[i].at <= a.windowEndsAt && payments[i].approved
  }

  lemma {:induction false} SameAttribution(r: Rates, a: Attribution, payments: seq<Payment>)
    ensures var b := AccrueAll(r, a, payments).attribution;
            b.program == a.program && b.windowEndsAt == a.windowEndsAt && b.referrer == a.referrer
  {
    if payments != [] { SameAttribution(r, a, payments[..|payments| - 1]); }
  }

  /** A student referral has earned the flat amount once per renewal, up to the cap. */
  lemma {:induction false} StudentClosedForm(r: Rates, a: Attribution, payments: seq<Payment>)
    requires a.program == StudentReferral && a.renewalPayoutCount == 0 && r.studentFlat > 0 && AllEligible(a, payments)
    ensures AccrueAll(r, a, payments).attribution.renewalPayoutCount == Min(r.studentMaxPayouts, Renewals(payments))
    ensures AccrueAll(r, a, payments).amount == r.studentFlat * Min(r.studentMaxPayouts, Renewals(payments))
  {
    if payments != [] {
      var n := |payments| - 1;
      StudentClosedForm(r, a, payments[..n]);
      SameAttribution(r, a, payments[..n]);
      var paid := Min(r.studentMaxPayouts, Renewals(payments[..n]));
      assert r.studentFlat * (paid + 1) == r.studentFlat * paid + r.studentFlat;
    }
  }

  lemma AmbassadorStep(r: Rates, a: Attribution, p: Payment)
    requires a.program == Ambassador && a.commissionMonthsPaid <= r.maxMonths && r.perMonth > 0 && p.at <= a.windowEndsAt && p.approved
    ensures var months := Min(MonthsOf(p), r.maxMonths - a.commissionMonthsPaid);
            Accrue(r, a, p) == Payout(a.(commissionMonthsPaid := a.commissionMonthsPaid + months), r.perMonth * months)
  {
    var months := Min(MonthsOf(p), r.maxMonths - a.commissionMonthsPaid);
    if months > 0 { Positive(r.perMonth, months); }
  }

  /** An ambassador has earned the monthly amount for every renewed month, up to the cap. */
  lemma {:induction false} AmbassadorClosedForm(r: Rates, a: Attribution, payments: seq<Payment>)
    requires a.program == Ambassador && a.commissionMonthsPaid == 0 && r.perMonth > 0 && AllEligible(a, payments)
    ensures AccrueAll(r, a, payments).attribution.commissionMonthsPaid == Min(r.maxMonths, RenewedMonths(payments))
    ensures AccrueAll(r, a, payments).amount == r.perMonth * Min(r.maxMonths, RenewedMonths(payments))
  {
    hide Accrue, PaidMonths;
    if payments != [] {
      var n := |payments| - 1;
      AmbassadorClosedForm(r, a, payments[..n]);
      SameAttribution(r, a, payments[..n]);
      var before := AccrueAll(r, a, payments[..n]).attribution;
      AmbassadorStep(r, before, payments[n]);
      Distribute(r.perMonth, before.commissionMonthsPaid, Min(MonthsOf(payments[n]), r.maxMonths - before.commissionMonthsPaid));
    }
  }

  lemma Distribute(a: int, b: int, c: int)
    ensures a * (b + c) == a * b + a * c
  {}

  lemma Positive(a: int, b: int)
    requires a > 0 && b > 0
    ensures a * b > 0
  {}

  /**
   * Whatever payments come, in or out of the window, approved or not: what was paid is what the
   * counters say, and the counters stay within their caps.
   */
  lemma {:induction false} CountersAreWhatWasPaid(r: Rates, a: Attribution, payments: seq<Payment>)
    requires !a.program.Creator? && a.renewalPayoutCount == 0 == a.commissionMonthsPaid
    ensures var b := AccrueAll(r, a, payments);
            && b.amount == (if a.program == StudentReferral then r.studentFlat * b.attribution.renewalPayoutCount
                            else r.perMonth * b.attribution.commissionMonthsPaid)
            && b.attribution.renewalPayoutCount <= r.studentMaxPayouts && b.attribution.commissionMonthsPaid <= r.maxMonths
  {
    if payments != [] {
      var n := |payments| - 1;
      CountersAreWhatWasPaid(r, a, payments[..n]);
      SameAttribution(r, a, payments[..n]);
      var before, after := AccrueAll(r, a, payments[..n]).attribution, AccrueAll(r, a, payments).attribution;
      var months := after.commissionMonthsPaid - before.commissionMonthsPaid;
      assert r.perMonth * (before.commissionMonthsPaid + months) == r.perMonth * before.commissionMonthsPaid + r.perMonth * months;
      assert r.studentFlat * (before.renewalPayoutCount + 1) == r.studentFlat * before.renewalPayoutCount + r.studentFlat;
    }
  }
}
