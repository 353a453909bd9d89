/** invoices.service.ts as the code runs it, on the wallet's ledger. */
module InvoicesServices {
  import opened Common
  import opened Calendar
  import opened Ledger
  import opened Invoices
  import BillingTables

  /** `StoreConflict`: the unique index refuses to reactivate two stores of a seller. */
  datatype Failure = NotFound | AlreadyPaid | StoreConflict

  // ---- Overdue invoices and suspended stores -------------------------------------------------------

  predicate FallsDue(i: Invoice, now: int) { i.status == Pending && i.dueDate < now }

  /** Each invoice in `swept` that has fallen due is marked overdue. */
  function MarkOverdue(invoices: seq<Invoice>, swept: set<InvoiceId>, now: int): seq<Invoice> {
    seq(|invoices|, i requires 0 <= i < |invoices| =>
      if i in swept && FallsDue(invoices[i], now) then invoices[i].(status := Overdue) else invoices[i])
  }

  function Debtors(invoices: seq<Invoice>, swept: set<InvoiceId>, now: int): set<SellerId> {
    set i | 0 <= i < |invoices| && i in swept && FallsDue(invoices[i], now) && invoices[i].kind == CommissionInvoice :: invoices[i].seller
  }

  function Suspend(stores: BillingTables.Stores, sellers: set<SellerId>): BillingTables.Stores {
    map id | id in stores ::
      var s := stores[id];
      if s.seller in sellers && s.status == BillingTables.Active then s.(status := BillingTables.Suspended) else s
  }

  function SellingStores(stores: BillingTables.Stores, sellers: set<SellerId>): set<BillingTables.StoreId> {
    set id | id in stores && stores[id].seller in sellers && stores[id].status == BillingTables.Active
  }

  function DueIds(invoices: seq<Invoice>, now: int): set<InvoiceId> { set i: InvoiceId | i < |invoices| && FallsDue(invoices[i], now) }

  // ---- Overdue group invoices and sponsored seats --------------------------------------------------

  type PlanId = nat

  /** A seller's subscription: its plan, the one it changes to at the period's end, and its sponsor. */
  datatype Seat = Seat(plan: PlanId, pending: Option<PlanId>, sponsor: Option<TeamId>, periodEnd: Option<int>)

  /** `scheduleDowngradeToFallbackTierAtPeriodEnd`: without a period to wait for, one starts on the fallback plan at once. */
  function Downgrade(s: Seat, fallback: PlanId, at: int): Seat {
    if s.periodEnd.None? then Seat(fallback, None, None, Some(AddInterval(at, Monthly))) else s.(pending := Some(fallback), sponsor := None)
  }

  function Downgraded(s: Seat, times: nat, fallback: PlanId, at: int): Seat {
    if times == 0 then s else Downgrade(Downgraded(s, times - 1, fallback, at), fallback, at)
  }

  function ActiveIn(members: map<TeamId, seq<SellerId>>, team: TeamId): seq<SellerId> { if team in members then members[team] else [] }

  /** The sellers that the group invoices in `swept` downgrade, once for each such invoice of a team they are active in. */
  function Owing(invoices: seq<Invoice>, swept: set<InvoiceId>, now: int, members: map<TeamId, seq<SellerId>>): multiset<SellerId> {
    if invoices == [] then multiset{}
    else
      var last := |invoices| - 1;
      Owing(invoices[..last], swept, now, members) +
      if last in swept && FallsDue(invoices[last], now) && invoices[last].kind.GroupSponsorship? then multiset(ActiveIn(members, invoices[last].kind.team)) else multiset{}
  }

  function DowngradeAll(seats: map<SellerId, Seat>, owing: multiset<SellerId>, fallback: PlanId, at: int): map<SellerId, Seat> {
    map s | s in seats :: Downgraded(seats[s], owing[s], fallback, at)
  }

  lemma DowngradeOne(seats: map<SellerId, Seat>, owing: multiset<SellerId>, seller: SellerId, fallback: PlanId, at: int)
    requires seller in seats
    ensures seller in DowngradeAll(seats, owing, fallback, at)
    ensures var all := DowngradeAll(seats, owing, fallback, at);
            DowngradeAll(seats, owing + multiset{seller}, fallback, at) == all[seller := Downgrade(all[seller], fallback, at)]
  {
    hide Downgrade;
  }

  lemma {:induction false} OwingMore(invoices: seq<Invoice>, swept: set<InvoiceId>, id: InvoiceId, now: int, members: map<TeamId, seq<SellerId>>)
    requires id !in swept
    ensures Owing(invoices, swept + {id}, now, members) == Owing(invoices, swept, now, members) +
            if id < |invoices| && FallsDue(invoices[id], now) && invoices[id].kind.GroupSponsorship? then multiset(ActiveIn(members, invoices[id].kind.team))
            else multiset{}
  {
    hide FallsDue;
    if invoices != [] { OwingMore(invoices[..|invoices| - 1], swept, id, now, members); }
  }

  lemma {:induction false} OwingNobody(invoices: seq<Invoice>, now: int, members: map<TeamId, seq<SellerId>>)
    ensures Owing(invoices, {}, now, members) == multiset{}
  {
    if invoices != [] { OwingNobody(invoices[..|invoices| - 1], now, members); }
  }

  /** A seller owes through a group invoice that has fallen due, of a team the seller is active in, and only so. */
  lemma {:induction false} OwingExactly(invoices: seq<Invoice>, swept: set<InvoiceId>, now: int, members: map<TeamId, seq<SellerId>>, seller: SellerId)
    ensures seller in Owing(invoices, swept, now, members) <==>
            exists i | 0 <= i < |invoices| :: i in swept && FallsDue(invoices[i], now) && invoices[i].kind.GroupSponsorship?
              && seller in ActiveIn(members, invoices[i].kind.team)
  {
    hide FallsDue, ActiveIn;
    if invoices != [] { OwingExactly(invoices[..|invoices| - 1], swept, now, members, seller); }
  }

  lemma {:induction false} DowngradedMeans(s: Seat, times: nat, fallback: PlanId, at: int)
    ensures Downgraded(s, times, fallback, at) ==
            if times == 0 then s
            else if s.periodEnd.Some? then s.(pending := Some(fallback), sponsor := None)
            else Seat(fallback, if times == 1 then None else Some(fallback), None, Some(AddInterval(at, Monthly)))
  {
    hide AddInterval;
    if times > 0 { DowngradedMeans(s, times - 1, fallback, at); }
  }

  /**
   * What an overdue group invoice costs: a sponsored member keeps its sponsor through the sweep if
   * and only if no group invoice of a team it is active in has fallen due. It then pays for itself,
   * at once if it had no period of its own to wait for. Its membership is not touched.
   */
  lemma SponsoredExactly(invoices: seq<Invoice>, now: int, members: map<TeamId, seq<SellerId>>, seats: map<SellerId, Seat>, seller: SellerId,
      fallback: PlanId, at: int)
    requires seller in seats && seats[seller].sponsor.Some?
    ensures var s, s' := seats[seller], DowngradeAll(seats, Owing(invoices, DueIds(invoices, now), now, members), fallback, at)[seller];
            && (s'.sponsor == s.sponsor <==>
                  !exists i | 0 <= i < |invoices| :: invoices[i].status == Pending && invoices[i].dueDate < now && invoices[i].kind.GroupSponsorship?
                    && seller in ActiveIn(members, invoices[i].kind.team))
            && (s'.sponsor == s.sponsor ==> s' == s)
            && (s'.sponsor != s.sponsor ==>
                  s'.sponsor == None && if s.periodEnd.None? then s'.plan == fallback && s'.periodEnd == Some(AddInterval(at, Monthly))
                                        else s'.plan == s.plan && s'.pending == Some(fallback) && s'.periodEnd == s.periodEnd)
  {
    hide AddInterval, ActiveIn, Downgraded, Owing;
    var owing := Owing(invoices, DueIds(invoices, now), now, members);
    OwingExactly(invoices, DueIds(invoices, now), now, members, seller);
    DowngradedMeans(seats[seller], owing[seller], fallback, at);
  }

  /**
   * The memberships stay active, though, and they are what the next group invoice counts: a team
   * whose invoice has fallen due is billed again for every seat, with nobody left who is sponsored.
   */
  lemma BilledUnsponsored(invoices: seq<Invoice>, now: int, members: map<TeamId, seq<SellerId>>, seats: map<SellerId, Seat>, t: Team,
      unpaid: InvoiceId, fallback: PlanId, at: int, p: Period, graceDays: nat)
    requires unpaid < |invoices| && FallsDue(invoices[unpaid], now) && invoices[unpaid].kind == GroupSponsorship(t.id)
    requires t.activeMembers == |ActiveIn(members, t.id)| > 0 && !GroupInvoiced(invoices, t.id, p.start)
    requires forall s | s in ActiveIn(members, t.id) :: s in seats
    ensures var owing := Owing(invoices, DueIds(invoices, now), now, members);
            forall s | s in ActiveIn(members, t.id) :: DowngradeAll(seats, owing, fallback, at)[s].sponsor == None
    ensures var marked := MarkOverdue(invoices, DueIds(invoices, now), now);
            InvoiceTeams(marked, [t], p, graceDays) == marked + [Invoice(t.leader, GroupSponsorship(t.id), p.start, p.end,
                                                                         |ActiveIn(members, t.id)| * t.seatPrice, p.end + graceDays * DAY_MS, Pending)]
  {
    hide FallsDue, ActiveIn, DowngradeAll, InvoiceTeams, Owing, MarkOverdue;
    forall s | s in ActiveIn(members, t.id) { LosesSponsor(invoices, now, members, seats, s, unpaid, t.id, fallback, at); }
    BilledNext(invoices, DueIds(invoices, now), now, t, p, graceDays);
  }

  lemma LosesSponsor(invoices: seq<Invoice>, now: int, members: map<TeamId, seq<SellerId>>, seats: map<SellerId, Seat>, seller: SellerId,
      unpaid: InvoiceId, team: TeamId, fallback: PlanId, at: int)
    requires unpaid < |invoices| && FallsDue(invoices[unpaid], now) && invoices[unpaid].kind == GroupSponsorship(team)
    requires seller in ActiveIn(members, team) && seller in seats
    ensures var all := DowngradeAll(seats, Owing(invoices, DueIds(invoices, now), now, members), fallback, at); seller in all && all[seller].sponsor == None
  {
    var owing := Owing(invoices, DueIds(invoices, now), now, members);
    assert unpaid in DueIds(invoices, now);
    hide FallsDue, ActiveIn, Downgraded, DueIds, Owing;
    OwingExactly(invoices, DueIds(invoices, now), now, members, seller);
    DowngradedMeans(seats[seller], owing[seller], fallback, at);
  }

  lemma BilledNext(invoices: seq<Invoice>, swept: set<InvoiceId>, now: int, t: Team, p: Period, graceDays: nat)
    requires t.activeMembers > 0 && !GroupInvoiced(invoices, t.id, p.start)
    ensures var marked := MarkOverdue(invoices, swept, now);
            InvoiceTeams(marked, [t], p, graceDays) == marked + [Invoice(t.leader, GroupSponsorship(t.id), p.start, p.end,
                                                                         t.activeMembers * t.seatPrice, p.end + graceDays * DAY_MS, Pending)]
  {
    hide FallsDue;
    var marked := MarkOverdue(invoices, swept, now);
    forall i | 0 <= i < |marked| ensures !(marked[i].kind == GroupSponsorship(t.id) && marked[i].periodStart == p.start) {
      assert marked[i] == invoices[i].(status := marked[i].status);
    }
    assert !GroupInvoiced(marked, t.id, p.start);
    assert InvoiceTeams(marked, [], p, graceDays) == marked && [t][..0] == [];
  }

  lemma SweptOne(invoices: seq<Invoice>, stores: BillingTables.Stores, swept: set<InvoiceId>, id: InvoiceId, now: int)
    requires id < |invoices| && id !in swept && FallsDue(invoices[id], now)
    ensures MarkOverdue(invoices, swept + {id}, now) == MarkOverdue(invoices, swept, now)[id := invoices[id].(status := Overdue)]
    ensures Debtors(invoices, swept + {id}, now) ==
            Debtors(invoices, swept, now) + (if invoices[id].kind == CommissionInvoice then {invoices[id].seller} else {})
  {}

  lemma SuspendOne(stores: BillingTables.Stores, sellers: set<SellerId>, seller: SellerId)
    ensures Suspend(stores, sellers + {seller}) ==
            BillingTables.Recolour(Suspend(stores, sellers), seller, BillingTables.Active, BillingTables.Suspended)
    ensures |SellingStores(stores, sellers + {seller})| == |SellingStores(stores, sellers)| + |SellingStores(Suspend(stores, sellers), {seller})|
  {
    var more := SellingStores(Suspend(stores, sellers), {seller});
    assert SellingStores(stores, sellers + {seller}) == SellingStores(stores, sellers) + more && SellingStores(stores, sellers) !! more;
  }

  lemma {:induction false} AttachKeepsBalance(entries: seq<Entry>, seller: SellerId, p: Period, id: InvoiceId, s: SellerId)
    ensures LedgerBalance(Attach(entries, seller, p, id), s) == LedgerBalance(entries, s)
  {
    if entries != [] {
      AttachKeepsBalance(entries[..|entries| - 1], seller, p, id, s);
      assert Attach(entries, seller, p, id)[..|entries| - 1] == Attach(entries[..|entries| - 1], seller, p, id);
    }
  }

  lemma BilledLength(invoices: seq<Invoice>, teams: seq<Team>, p: Period, graceDays: nat, later: seq<Invoice>)
    requires GroupBilled(invoices, teams, p, graceDays, later)
    ensures |later| == |invoices| + |SponsoredTeams(invoices, teams, p.start)|
  {}

  class InvoicesService {
    const wallet: WalletService
    var invoices: seq<Invoice>
    var stores: BillingTables.Stores
    /** The active members of each team, and every seller's subscription. */
    var members: map<TeamId, seq<SellerId>>
    var seats: map<SellerId, Seat>

    constructor (wallet: WalletService, stores: BillingTables.Stores, members: map<TeamId, seq<SellerId>>, seats: map<SellerId, Seat>)
      ensures this.wallet == wallet && invoices == [] && this.stores == stores && this.members == members && this.seats == seats
    {
      this.wallet, this.stores, this.members, this.seats := wallet, stores, members, seats;
      invoices := [];
    }

    function View(): Books reads this, wallet { Books(wallet.entries, invoices) }

    /** The transaction of one seller's turn: read, add up, insert the invoice, attach. */
    method InvoiceOne(seller: SellerId, p: Period, graceDays: nat)
      requires !Invoiced(invoices, seller, p.start)
      modifies `invoices, wallet`entries
      ensures View() == InvoiceSeller(old(View()), seller, p, graceDays)
      ensures Sound(old(View())) ==>
                invoices == old(invoices) + [Invoice(seller, CommissionInvoice, p.start, p.end, AttachedTotal(wallet.entries, |old(invoices)|),
                                                     p.end + graceDays * DAY_MS, Pending)]
      ensures forall s :: LedgerBalance(wallet.entries, s) == LedgerBalance(old(wallet.entries), s)
    {
      if Sound(View()) { InvoiceSellerSound(View(), seller, p, graceDays); }
      var entries, id := wallet.entries, |invoices|;
      var totalAmount := 0;
      for i := 0 to |entries|
        invariant totalAmount == Collected(entries[..i], seller, p)
      {
        assert entries[..i + 1][..i] == entries[..i];
        if Collectable(entries[i], seller, p) { totalAmount := totalAmount + entries[i].amount; }
      }
      assert entries[..|entries|] == entries;
      invoices := invoices + [Invoice(seller, CommissionInvoice, p.start, p.end, totalAmount, p.end + graceDays * DAY_MS, Pending)];
      for i := 0 to |entries|
        invariant |wallet.entries| == |entries| && invoices == old(invoices) + [CommissionInvoiceFor(old(View()), seller, p, graceDays)]
        invariant forall j | 0 <= j < |entries| :: wallet.entries[j] == if j < i then AttachOne(entries[j], seller, p, id) else entries[j]
      {
        if Collectable(entries[i], seller, p) { wallet.entries := wallet.entries[i := entries[i].(invoice := Some(id))]; }
      }
      assert wallet.entries == Attach(entries, seller, p, id);
      forall s: SellerId { AttachKeepsBalance(entries, seller, p, id, s); }
    }

    /** Billing moves no money: no balance, cached or recomputed, changes. */
    method GenerateMonthlyInvoices(now: int, graceDays: nat, sellersWithActivity: seq<SellerId>) returns (generated: nat)
      requires Lists(sellersWithActivity, SellersWithActivity(wallet.entries, PreviousCalendarMonth(now)))
      modifies `invoices, wallet`entries
      ensures View() == InvoiceAll(old(View()), sellersWithActivity, PreviousCalendarMonth(now), graceDays)
      ensures generated == |invoices| - |old(invoices)|
      ensures forall s :: LedgerBalance(wallet.entries, s) == LedgerBalance(old(wallet.entries), s)
    {
      hide PreviousCalendarMonth, Lists, CommissionInvoiceFor, Attach, LedgerBalance;
      generated := 0;
      var p := PreviousCalendarMonth(now);
      for i := 0 to |sellersWithActivity|
        invariant View() == InvoiceAll(old(View()), sellersWithActivity[..i], p, graceDays)
        invariant generated == |invoices| - |old(invoices)|
        invariant forall s :: LedgerBalance(wallet.entries, s) == LedgerBalance(old(wallet.entries), s)
      {
        var seller := sellersWithActivity[i];
        assert sellersWithActivity[..i + 1][..i] == sellersWithActivity[..i];
        if Invoiced(invoices, seller, p.start) { continue; }
        InvoiceOne(seller, p, graceDays);
        generated := generated + 1;
      }
      assert sellersWithActivity[..|sellersWithActivity|] == sellersWithActivity;
    }

    /** A team's id is its primary key. */
    method GenerateMonthlyGroupInvoices(now: int, graceDays: nat, teams: seq<Team>) returns (generated: nat)
      modifies `invoices
      ensures invoices == InvoiceTeams(old(invoices), teams, PreviousCalendarMonth(now), graceDays)
      ensures DistinctTeams(teams) ==>
                && GroupBilled(old(invoices), teams, PreviousCalendarMonth(now), graceDays, invoices)
                && generated == |SponsoredTeams(old(invoices), teams, PreviousCalendarMonth(now).start)|
                && SponsoredTeams(invoices, teams, PreviousCalendarMonth(now).start) == {}
      ensures generated == |invoices| - |old(invoices)|
    {
      hide PreviousCalendarMonth, GroupBilled, SponsoredTeams, DistinctTeams;
      generated := 0;
      var p := PreviousCalendarMonth(now);
      for i := 0 to |teams|
        invariant invoices == InvoiceTeams(old(invoices), teams[..i], p, graceDays)
        invariant generated == |invoices| - |old(invoices)|
      {
        var t := teams[i];
        assert teams[..i + 1][..i] == teams[..i];
        if GroupInvoiced(invoices, t.id, p.start) { continue; }
        if t.activeMembers == 0 { continue; }
        invoices := invoices + [Invoice(t.leader, GroupSponsorship(t.id), p.start, p.end, t.activeMembers * t.seatPrice, p.end + graceDays * DAY_MS, Pending)];
        generated := generated + 1;
      }
      assert teams[..|teams|] == teams;
      if DistinctTeams(teams) {
        GroupRunExactly(old(invoices), teams, p, graceDays);
        NoneSponsoredAfter(old(invoices), teams, p, graceDays, invoices);
        BilledLength(old(invoices), teams, p, graceDays, invoices);
      }
    }

    /** A waiver is a new entry against an accrued order; the accrued entry itself is not touched. */
    method WaiveCommission(seller: SellerId, order: OrderId, amount: int, now: int) returns (r: Result<Entry, Failure>)
      modifies wallet
      ensures r.Ok? <==> exists i | 0 <= i < |old(wallet.entries)| :: old(wallet.entries)[i].seller == seller
                           && old(wallet.entries)[i].order == Some(order) && old(wallet.entries)[i].kind == CommissionAccrued
      ensures r.Err? ==> wallet.entries == old(wallet.entries) && wallet.balances == old(wallet.balances)
      ensures r.Ok? ==> r.value.kind == CommissionWaived && r.value.amount <= 0 && wallet.entries == old(wallet.entries) + [r.value]
      ensures r.Ok? ==> Cached(wallet.balances, seller) == Cached(old(wallet.balances), seller) + Max(amount, -amount)
      ensures forall s :: Drift(wallet.balances, wallet.entries, s) == Drift(old(wallet.balances), old(wallet.entries), s)
    {
      var found := exists i | 0 <= i < |wallet.entries| ::
        wallet.entries[i].seller == seller && wallet.entries[i].order == Some(order) && wallet.entries[i].kind == CommissionAccrued;
      if !found {
        return Err(NotFound);
      }
      var entry := Entry(seller, CommissionWaived, -Max(amount, -amount), now, Some(order), None);
      wallet.PostLedgerEntry(entry);
      return Ok(entry);
    }

    /** One overdue group invoice: its team's active members are downgraded one after another. */
    method DowngradeMembers(team: TeamId, fallback: PlanId, at: int)
      requires forall s | s in ActiveIn(members, team) :: s in seats
      modifies `seats
      ensures seats == DowngradeAll(old(seats), multiset(ActiveIn(members, team)), fallback, at)
    {
      var activeMembers := ActiveIn(members, team);
      hide ActiveIn, Downgrade;
      for k := 0 to |activeMembers|
        invariant seats == DowngradeAll(old(seats), multiset(activeMembers[..k]), fallback, at)
      {
        assert activeMembers[..k + 1] == activeMembers[..k] + [activeMembers[k]];
        DowngradeOne(old(seats), multiset(activeMembers[..k]), activeMembers[k], fallback, at);
        seats := seats[activeMembers[k] := Downgrade(seats[activeMembers[k]], fallback, at)];
      }
      assert activeMembers[..|activeMembers|] == activeMembers;
    }

    /**
     * Every invoice that has fallen due is marked. The sellers of the commission invoices among them
     * stop selling, and the active members of the group invoices' teams are downgraded; `due` lists
     * the rows in the database's order. Every seller has a subscription from signup on.
     */
    method SweepOverdueInvoicesAndSuspend(due: seq<InvoiceId>, fallback: PlanId, now: int, at: int) returns (suspended: nat)
      requires Lists(due, DueIds(invoices, now))
      requires forall team, s | team in members && s in members[team] :: s in seats
      modifies `invoices, `stores, `seats
      ensures invoices == MarkOverdue(old(invoices), DueIds(old(invoices), now), now)
      ensures stores == Suspend(old(stores), Debtors(old(invoices), DueIds(old(invoices), now), now))
      ensures suspended == |SellingStores(old(stores), Debtors(old(invoices), DueIds(old(invoices), now), now))|
      ensures seats == DowngradeAll(old(seats), Owing(old(invoices), DueIds(old(invoices), now), now, members), fallback, at)
      ensures |invoices| == |old(invoices)|
      ensures forall i | 0 <= i < |invoices| ::
                var was := old(invoices)[i]; invoices[i] == if was.status == Pending && was.dueDate < now then was.(status := Overdue) else was
      ensures forall id | id in old(stores) ::
                var was := old(stores)[id];
                && id in stores
                && stores[id] == was.(status := stores[id].status)
                && (stores[id].status != was.status <==>
                      && was.status == BillingTables.Active
                      && exists i | 0 <= i < |old(invoices)| :: old(invoices)[i].seller == was.seller && old(invoices)[i].kind == CommissionInvoice
                           && old(invoices)[i].status == Pending && old(invoices)[i].dueDate < now)
                && (stores[id].status != was.status ==> stores[id].status == BillingTables.Suspended)
    {
      OverdueInNumbers(invoices, stores, now);
      hide MarkOverdue, Debtors, Suspend, SellingStores, BillingTables.Recolour, Owing, DowngradeAll;
      ghost var was, wasStores, wasSeats, swept: set<InvoiceId> := invoices, stores, seats, {};
      NothingSwept(was, wasStores, now);
      NobodyDowngraded(was, now, members, wasSeats, fallback, at);
      var rows := invoices;
      suspended := 0;
      for k := 0 to |due|
        invariant swept == Elements(due[..k]) && |invoices| == |was|
        invariant invoices == MarkOverdue(was, swept, now) && stores == Suspend(wasStores, Debtors(was, swept, now))
        invariant suspended == |SellingStores(wasStores, Debtors(was, swept, now))|
        invariant seats == DowngradeAll(wasSeats, Owing(was, swept, now, members), fallback, at) && seats.Keys == wasSeats.Keys
      {
        var id := due[k];
        assert id in due && id !in due[..k];
        assert Elements(due[..k + 1]) == swept + {id};
        SweptOne(was, wasStores, swept, id, now);
        SuspendOne(wasStores, Debtors(was, swept, now), rows[id].seller);
        SameButStatus(was, swept, id, now);
        OwingMore(was, swept, id, now, members);
        invoices := invoices[id := invoices[id].(status := Overdue)];
        match rows[id].kind {
          case GroupSponsorship(team) =>
            DowngradeTwice(wasSeats, Owing(was, swept, now, members), multiset(ActiveIn(members, team)), fallback, at);
            DowngradeMembers(team, fallback, at);
            assert Debtors(was, swept + {id}, now) == Debtors(was, swept, now);
          case CommissionInvoice =>
            assert Owing(was, swept + {id}, now, members) == Owing(was, swept, now, members);
            suspended := suspended + |SellingStores(stores, {rows[id].seller})|;
            stores := BillingTables.Recolour(stores, rows[id].seller, BillingTables.Active, BillingTables.Suspended);
        }
        swept := swept + {id};
      }
      assert due[..|due|] == due && swept == DueIds(was, now);
    }

    /**
     * Pays an existing unpaid invoice. A commission invoice then reactivates every suspended store of
     * its seller, all or nothing; if the index refuses that, the invoice is paid all the same.
     */
    method MarkPaid(id: InvoiceId) returns (r: Result<Invoice, Failure>)
      modifies `invoices, `stores
      ensures r == Err(NotFound) <==> id >= |old(invoices)|
      ensures r == Err(AlreadyPaid) <==> id < |old(invoices)| && old(invoices)[id].status == Paid
      ensures invoices == if id < |old(invoices)| then old(invoices)[id := old(invoices)[id].(status := Paid)] else old(invoices)
      ensures id < |old(invoices)| && old(invoices)[id].status != Paid ==>
                var lifted := BillingTables.Recolour(old(stores), invoices[id].seller, BillingTables.Suspended, BillingTables.Active);
                if invoices[id].kind != CommissionInvoice then r == Ok(invoices[id]) && stores == old(stores)
                else if BillingTables.OneActivePerSeller(lifted) then r == Ok(invoices[id]) && stores == lifted
                else r == Err(StoreConflict) && stores == old(stores)
      ensures id >= |old(invoices)| || old(invoices)[id].status == Paid ==> stores == old(stores)
    {
      if id >= |invoices| { return Err(NotFound); }
      if invoices[id].status == Paid {
        assert invoices[id := invoices[id].(status := Paid)] == invoices;
        return Err(AlreadyPaid);
      }
      var after := invoices[id].(status := Paid);
      invoices := invoices[id := after];
      if after.kind == CommissionInvoice {
        var lifted := BillingTables.Recolour(stores, after.seller, BillingTables.Suspended, BillingTables.Active);
        if !BillingTables.OneActivePerSeller(lifted) { return Err(StoreConflict); }
        stores := lifted;
      }
      return Ok(after);
    }
  }

  /** Which invoices a sweep marks and which stores it stops, in numbers. */
  lemma OverdueInNumbers(invoices: seq<Invoice>, stores: BillingTables.Stores, now: int)
    ensures var marked := MarkOverdue(invoices, DueIds(invoices, now), now);
            |marked| == |invoices| && forall i | 0 <= i < |invoices| ::
              marked[i] == if invoices[i].status == Pending && invoices[i].dueDate < now then invoices[i].(status := Overdue) else invoices[i]
    ensures var stopped := Suspend(stores, Debtors(invoices, DueIds(invoices, now), now));
            stopped.Keys == stores.Keys && forall id | id in stores ::
              && stopped[id] == stores[id].(status := stopped[id].status)
              && (stopped[id].status != stores[id].status <==>
                    && stores[id].status == BillingTables.Active
                    && exists i | 0 <= i < |invoices| :: invoices[i].seller == stores[id].seller && invoices[i].kind == CommissionInvoice
                         && invoices[i].status == Pending && invoices[i].dueDate < now)
              && (stopped[id].status != stores[id].status ==> stopped[id].status == BillingTables.Suspended)
  {
    var debtors := Debtors(invoices, DueIds(invoices, now), now);
    forall s ensures s in debtors <==>
      exists i | 0 <= i < |invoices| :: invoices[i].seller == s && invoices[i].kind == CommissionInvoice && invoices[i].status == Pending && invoices[i].dueDate < now
    {
      if i :| 0 <= i < |invoices| && invoices[i].seller == s && invoices[i].kind == CommissionInvoice && invoices[i].status == Pending && invoices[i].dueDate < now {
        assert i in DueIds(invoices, now) && FallsDue(invoices[i], now);
      }
    }
  }

  lemma NothingSwept(invoices: seq<Invoice>, stores: BillingTables.Stores, now: int)
    ensures MarkOverdue(invoices, {}, now) == invoices && Debtors(invoices, {}, now) == {}
    ensures Suspend(stores, {}) == stores && SellingStores(stores, {}) == {}
  {}

  lemma NobodyDowngraded(invoices: seq<Invoice>, now: int, members: map<TeamId, seq<SellerId>>, seats: map<SellerId, Seat>, fallback: PlanId, at: int)
    ensures DowngradeAll(seats, Owing(invoices, {}, now, members), fallback, at) == seats
  {
    OwingNobody(invoices, now, members);
  }

  lemma {:induction false} DowngradedTwice(s: Seat, first: nat, second: nat, fallback: PlanId, at: int)
    ensures Downgraded(Downgraded(s, first, fallback, at), second, fallback, at) == Downgraded(s, first + second, fallback, at)
  {
    hide Downgrade;
    if second > 0 { DowngradedTwice(s, first, second - 1, fallback, at); }
  }

  lemma DowngradeTwice(seats: map<SellerId, Seat>, first: multiset<SellerId>, second: multiset<SellerId>, fallback: PlanId, at: int)
    ensures DowngradeAll(seats, first, fallback, at).Keys == DowngradeAll(seats, first + second, fallback, at).Keys == seats.Keys
    ensures DowngradeAll(DowngradeAll(seats, first, fallback, at), second, fallback, at) == DowngradeAll(seats, first + second, fallback, at)
  {
    hide Downgraded;
    forall s | s in seats { DowngradedTwice(seats[s], first[s], second[s], fallback, at); }
  }

  lemma SameButStatus(invoices: seq<Invoice>, swept: set<InvoiceId>, id: InvoiceId, now: int)
    requires id < |invoices| && id !in swept
    ensures |MarkOverdue(invoices, swept, now)| == |invoices| && MarkOverdue(invoices, swept, now)[id] == invoices[id]
  {}

  // ---- What paying one of two invoices lifts ---------------------------------------------------------

  /**
   * Paying is said to lift the suspension that this invoice caused. It lifts every suspension of the
   * seller: a store that the sweep stopped sells again as soon as one of its seller's overdue
   * invoices is paid, and the next sweep stops it again if and only if another invoice of the
   * seller falls due that was not overdue yet.
   */
  lemma OnePaidLiftsAll(invoices: seq<Invoice>, stores: BillingTables.Stores, id: BillingTables.StoreId, swept: int, paid: InvoiceId, again: int)
    requires id in stores && stores[id].status == BillingTables.Active && paid < |invoices| && swept <= again
    requires stores[id].seller in Debtors(invoices, DueIds(invoices, swept), swept) && invoices[paid].seller == stores[id].seller
    ensures var marked := MarkOverdue(invoices, DueIds(invoices, swept), swept); var left := marked[paid := marked[paid].(status := Paid)];
            var stopped := Suspend(stores, Debtors(invoices, DueIds(invoices, swept), swept));
            var lifted := BillingTables.Recolour(stopped, stores[id].seller, BillingTables.Suspended, BillingTables.Active);
            var later := Suspend(lifted, Debtors(left, DueIds(left, again), again));
            && stopped[id].status == BillingTables.Suspended && lifted[id].status == BillingTables.Active
            && (later[id].status == BillingTables.Suspended <==>
                  exists i | 0 <= i < |invoices| && i != paid :: invoices[i].seller == stores[id].seller && invoices[i].kind == CommissionInvoice
                    && invoices[i].status == Pending && swept <= invoices[i].dueDate < again)
  {
    var marked := MarkOverdue(invoices, DueIds(invoices, swept), swept);
    var left := marked[paid := marked[paid].(status := Paid)];
    DebtorsAgain(invoices, swept, paid, again, stores[id].seller);
    hide Debtors, DueIds, MarkOverdue;
  }

  lemma DebtorsAgain(invoices: seq<Invoice>, swept: int, paid: InvoiceId, again: int, seller: SellerId)
    requires paid < |invoices| && swept <= again
    ensures |MarkOverdue(invoices, DueIds(invoices, swept), swept)| == |invoices|
    ensures var marked := MarkOverdue(invoices, DueIds(invoices, swept), swept); var left := marked[paid := marked[paid].(status := Paid)];
            seller in Debtors(left, DueIds(left, again), again) <==>
            exists i | 0 <= i < |invoices| && i != paid :: invoices[i].seller == seller && invoices[i].kind == CommissionInvoice
              && invoices[i].status == Pending && swept <= invoices[i].dueDate < again
  {
    var marked := MarkOverdue(invoices, DueIds(invoices, swept), swept);
    var left := marked[paid := marked[paid].(status := Paid)];
    forall i | 0 <= i < |invoices| && i != paid
      ensures FallsDue(left[i], again) <==> invoices[i].status == Pending && swept <= invoices[i].dueDate < again
    {}
    assert !FallsDue(left[paid], again);
    if i :| 0 <= i < |invoices| && i != paid && invoices[i].seller == seller && invoices[i].kind == CommissionInvoice
            && invoices[i].status == Pending && swept <= invoices[i].dueDate < again {
      assert FallsDue(left[i], again) && i in DueIds(left, again) && left[i].seller == seller;
    }
  }
}
