/**
 * invoices.service.ts: monthly invoices collect each seller's commission entries; group
 * sponsorship invoices are billed to a team's leader beside them.
 */
module Invoices {
  import opened Common
  import opened Calendar
  import opened Ledger

  type TeamId = nat

  datatype InvoiceKind = CommissionInvoice | GroupSponsorship(team: TeamId)

  datatype InvoiceStatus = Pending | Overdue | Paid

  datatype Invoice = Invoice(seller: SellerId, kind: InvoiceKind, periodStart: int, periodEnd: int, total: int, dueDate: int, status: InvoiceStatus)

  datatype Team = Team(id: TeamId, leader: SellerId, activeMembers: nat, seatPrice: nat)

  /** An invoice's id is its position. */
  datatype Books = Books(entries: seq<Entry>, invoices: seq<Invoice>)

  datatype Period = Period(start: int, end: int)

  /** `previousCalendarMonth`. */
  function PreviousCalendarMonth(now: int): Period {
    var end := StartOfMonth(now);
    Period(MonthStart(MonthOf(Day(end)) - 1), end)
  }

  /** A whole calendar month, over by the time it is billed; two runs bill the same month or disjoint ones. */
  lemma PreviousMonthIsWhole(now: int, later: int)
    requires now <= later
    ensures var p, q := PreviousCalendarMonth(now), PreviousCalendarMonth(later);
            && p == Period(MonthStart(MonthOf(Day(now)) - 1), MonthStart(MonthOf(Day(now))))
            && p.start < p.end <= now
            && (p == q || p.end <= q.start)
  {
    hide FirstDay;
    var m, n := MonthOf(Day(now)), MonthOf(Day(later));
    MonthStartsBefore(now); MonthStartsBefore(later);
    MonthOfStart(m); MonthOfStart(n);
    MonthStartsIncrease(m - 1, m);
    if n < m { FirstDayMonotone(n + 1, m); }
    if m < n - 1 { MonthStartsIncrease(m, n - 1); }
  }

  lemma MonthOfStart(month: int)
    ensures MonthOf(Day(MonthStart(month))) == month
  {
    hide FirstDay;
    FirstDayMonotone(month, month + 1);
    MonthOfUnique(FirstDay(month), month);
  }

  // ---- One month's run ----------------------------------------------------------------------------

  predicate IsCommission(kind: EntryType) { kind in {CommissionAccrued, CommissionWaived, RefundAdjustment} }

  predicate Collectable(e: Entry, seller: SellerId, p: Period) {
    e.seller == seller && e.invoice.None? && IsCommission(e.kind) && p.start <= e.createdAt < p.end
  }

  function SellersWithActivity(entries: seq<Entry>, p: Period): set<SellerId> {
    set i | 0 <= i < |entries| && Collectable(entries[i], entries[i].seller, p) :: entries[i].seller
  }

  /** `alreadyInvoiced`: an invoice of any kind for the seller and the period's start. */
  predicate Invoiced(invoices: seq<Invoice>, seller: SellerId, start: int) {
    exists i | 0 <= i < |invoices| :: invoices[i].seller == seller && invoices[i].periodStart == start
  }

  function Collected(entries: seq<Entry>, seller: SellerId, p: Period): int {
    if entries == [] then 0
    else
      var last := entries[|entries| - 1];
      Collected(entries[..|entries| - 1], seller, p) + if Collectable(last, seller, p) then last.amount else 0
  }

  function AttachOne(e: Entry, seller: SellerId, p: Period, id: InvoiceId): Entry {
    if Collectable(e, seller, p) then e.(invoice := Some(id)) else e
  }

  function Attach(entries: seq<Entry>, seller: SellerId, p: Period, id: InvoiceId): (r: seq<Entry>)
    ensures |r| == |entries|
  {
    seq(|entries|, i requires 0 <= i < |entries| => AttachOne(entries[i], seller, p, id))
  }

  function CommissionInvoiceFor(b: Books, seller: SellerId, p: Period, graceDays: nat): Invoice {
    Invoice(seller, CommissionInvoice, p.start, p.end, Collected(b.entries, seller, p), p.end + graceDays * DAY_MS, Pending)
  }

  function InvoiceSeller(b: Books, seller: SellerId, p: Period, graceDays: nat): Books {
    if Invoiced(b.invoices, seller, p.start) then b
    else Books(Attach(b.entries, seller, p, |b.invoices|), b.invoices + [CommissionInvoiceFor(b, seller, p, graceDays)])
  }

  function InvoiceAll(b: Books, sellers: seq<SellerId>, p: Period, graceDays: nat): Books {
    if sellers == [] then b
    else InvoiceSeller(InvoiceAll(b, sellers[..|sellers| - 1], p, graceDays), sellers[|sellers| - 1], p, graceDays)
  }

  function GroupInvoice(t: Team, p: Period, graceDays: nat): Invoice {
    Invoice(t.leader, GroupSponsorship(t.id), p.start, p.end, t.activeMembers * t.seatPrice, p.end + graceDays * DAY_MS, Pending)
  }

  predicate GroupInvoiced(invoices: seq<Invoice>, team: TeamId, start: int) {
    exists i | 0 <= i < |invoices| :: invoices[i].kind == GroupSponsorship(team) && invoices[i].periodStart == start
  }

  function InvoiceTeam(invoices: seq<Invoice>, t: Team, p: Period, graceDays: nat): seq<Invoice> {
    if GroupInvoiced(invoices, t.id, p.start) || t.activeMembers == 0 then invoices else invoices + [GroupInvoice(t, p, graceDays)]
  }

  function InvoiceTeams(invoices: seq<Invoice>, teams: seq<Team>, p: Period, graceDays: nat): seq<Invoice> {
    if teams == [] then invoices
    else InvoiceTeam(InvoiceTeams(invoices, teams[..|teams| - 1], p, graceDays), teams[|teams| - 1], p, graceDays)
  }

  // ---- One month's group invoices -----------------------------------------------------------------------

  predicate DistinctTeams(teams: seq<Team>) { forall i, j | 0 <= i < j < |teams| :: teams[i].id != teams[j].id }

  /** The team has members and no group invoice for the month. */
  predicate Sponsored(invoices: seq<Invoice>, t: Team, start: int) { t.activeMembers > 0 && !GroupInvoiced(invoices, t.id, start) }

  function SponsoredTeams(invoices: seq<Invoice>, teams: seq<Team>, start: int): set<TeamId> {
    set i | 0 <= i < |teams| && Sponsored(invoices, teams[i], start) :: teams[i].id
  }

  /** `later` is `invoices` and one more group invoice for each sponsored team, in some order. */
  ghost predicate GroupBilled(invoices: seq<Invoice>, teams: seq<Team>, p: Period, graceDays: nat, later: seq<Invoice>) {
    && |later| == |invoices| + |SponsoredTeams(invoices, teams, p.start)| && later[..|invoices|] == invoices
    && (forall k | |invoices| <= k < |later| :: later[k].kind.GroupSponsorship? && later[k].periodStart == p.start
          && later[k].kind.team in SponsoredTeams(invoices, teams, p.start))
    && (forall j, k | |invoices| <= j < k < |later| :: later[j].kind != later[k].kind)
    && (forall i | 0 <= i < |teams| && Sponsored(invoices, teams[i], p.start) :: GroupInvoice(teams[i], p, graceDays) in later[|invoices|..])
  }

  lemma GroupInvoicedNow(invoices: seq<Invoice>, teams: seq<Team>, p: Period, graceDays: nat, later: seq<Invoice>, t: Team)
    requires GroupBilled(invoices, teams, p, graceDays, later) && t.id !in SponsoredTeams(invoices, teams, p.start)
    ensures GroupInvoiced(later, t.id, p.start) <==> GroupInvoiced(invoices, t.id, p.start)
  {
    forall k | 0 <= k < |later| && later[k].kind == GroupSponsorship(t.id) && later[k].periodStart == p.start
      ensures GroupInvoiced(invoices, t.id, p.start)
    {
      assert k < |invoices| && invoices[k] == later[k];
    }
    forall k | 0 <= k < |invoices| ensures later[k] == invoices[k] {}
  }

  lemma OneMoreTeam(invoices: seq<Invoice>, teams: seq<Team>, t: Team, start: int)
    ensures SponsoredTeams(invoices, teams + [t], start) == SponsoredTeams(invoices, teams, start) + (if Sponsored(invoices, t, start) then {t.id} else {})
    ensures DistinctTeams(teams + [t]) ==> DistinctTeams(teams) && t.id !in SponsoredTeams(invoices, teams, start)
  {
    hide Sponsored;
    var more := teams + [t];
    assert more[|teams|] == t && forall i | 0 <= i < |teams| :: more[i] == teams[i];
  }

  lemma SponsoredOneMore(invoices: seq<Invoice>, teams: seq<Team>, t: Team, p: Period, graceDays: nat, later: seq<Invoice>)
    requires GroupBilled(invoices, teams, p, graceDays, later) && Sponsored(invoices, t, p.start) && t.id !in SponsoredTeams(invoices, teams, p.start)
    requires SponsoredTeams(invoices, teams + [t], p.start) == SponsoredTeams(invoices, teams, p.start) + {t.id}
    ensures GroupBilled(invoices, teams + [t], p, graceDays, later + [GroupInvoice(t, p, graceDays)])
  {
    hide Sponsored, SponsoredTeams;
    var g := GroupInvoice(t, p, graceDays);
    var after, all := later + [g], teams + [t];
    assert after[|invoices|..] == later[|invoices|..] + [g];
    assert after[..|invoices|] == later[..|invoices|];
    forall i | 0 <= i < |all| && Sponsored(invoices, all[i], p.start) ensures GroupInvoice(all[i], p, graceDays) in after[|invoices|..] {
      if i < |teams| { assert all[i] == teams[i]; }
    }
  }

  lemma UnsponsoredOneMore(invoices: seq<Invoice>, teams: seq<Team>, t: Team, p: Period, graceDays: nat, later: seq<Invoice>)
    requires GroupBilled(invoices, teams, p, graceDays, later) && !Sponsored(invoices, t, p.start)
    requires SponsoredTeams(invoices, teams + [t], p.start) == SponsoredTeams(invoices, teams, p.start)
    ensures GroupBilled(invoices, teams + [t], p, graceDays, later)
  {
    hide Sponsored, SponsoredTeams;
    var all := teams + [t];
    forall i | 0 <= i < |all| && Sponsored(invoices, all[i], p.start) ensures GroupInvoice(all[i], p, graceDays) in later[|invoices|..] {
      assert i < |teams| && all[i] == teams[i];
    }
  }

  lemma BilledOneMore(invoices: seq<Invoice>, teams: seq<Team>, t: Team, p: Period, graceDays: nat, later: seq<Invoice>)
    requires GroupBilled(invoices, teams, p, graceDays, later) && DistinctTeams(teams + [t])
    ensures GroupBilled(invoices, teams + [t], p, graceDays, InvoiceTeam(later, t, p, graceDays))
  {
    hide GroupInvoiced, SponsoredTeams, DistinctTeams, GroupBilled;
    OneMoreTeam(invoices, teams, t, p.start);
    GroupInvoicedNow(invoices, teams, p, graceDays, later, t);
    if Sponsored(invoices, t, p.start) {
      SponsoredOneMore(invoices, teams, t, p, graceDays, later);
    } else {
      UnsponsoredOneMore(invoices, teams, t, p, graceDays, later);
    }
  }

  /** A run bills each sponsored team exactly once, whatever order it visits them in, and leaves what was there alone. */
  lemma {:induction false} GroupRunExactly(invoices: seq<Invoice>, teams: seq<Team>, p: Period, graceDays: nat)
    requires DistinctTeams(teams)
    ensures GroupBilled(invoices, teams, p, graceDays, InvoiceTeams(invoices, teams, p, graceDays))
  {
    if teams == [] {
      assert SponsoredTeams(invoices, teams, p.start) == {};
    } else {
      hide GroupBilled, InvoiceTeam;
      var init := teams[..|teams| - 1];
      assert teams == init + [teams[|teams| - 1]];
      GroupRunExactly(invoices, init, p, graceDays);
      BilledOneMore(invoices, init, teams[|teams| - 1], p, graceDays, InvoiceTeams(invoices, init, p, graceDays));
    }
  }

  /** So running the same month again adds nothing, as long as no team gained its first member since. */
  lemma {:induction false} GroupRerunIsIdle(invoices: seq<Invoice>, teams: seq<Team>, p: Period, graceDays: nat)
    requires SponsoredTeams(invoices, teams, p.start) == {}
    ensures InvoiceTeams(invoices, teams, p, graceDays) == invoices
  {
    if teams != [] {
      var init, t := teams[..|teams| - 1], teams[|teams| - 1];
      assert teams == init + [t];
      OneMoreTeam(invoices, init, t, p.start);
      GroupRerunIsIdle(invoices, init, p, graceDays);
      assert !Sponsored(invoices, t, p.start);
    }
  }

  lemma NotSponsoredAfter(invoices: seq<Invoice>, teams: seq<Team>, p: Period, graceDays: nat, later: seq<Invoice>, i: nat)
    requires GroupBilled(invoices, teams, p, graceDays, later) && i < |teams|
    ensures !Sponsored(later, teams[i], p.start)
  {
    hide SponsoredTeams;
    if Sponsored(invoices, teams[i], p.start) {
      var g := GroupInvoice(teams[i], p, graceDays);
      var k :| 0 <= k < |later[|invoices|..]| && later[|invoices|..][k] == g;
      assert later[|invoices| + k] == g;
    } else if teams[i].activeMembers > 0 {
      var k :| 0 <= k < |invoices| && invoices[k].kind == GroupSponsorship(teams[i].id) && invoices[k].periodStart == p.start;
      assert later[k] == later[..|invoices|][k] == invoices[k];
    }
  }

  lemma NoneSponsoredAfter(invoices: seq<Invoice>, teams: seq<Team>, p: Period, graceDays: nat, later: seq<Invoice>)
    requires GroupBilled(invoices, teams, p, graceDays, later)
    ensures SponsoredTeams(later, teams, p.start) == {}
  {
    hide GroupBilled, Sponsored;
    forall i | 0 <= i < |teams| ensures !Sponsored(later, teams[i], p.start) { NotSponsoredAfter(invoices, teams, p, graceDays, later, i); }
  }

  // ---- The invariant --------------------------------------------------------------------------------

  function AttachedTotal(entries: seq<Entry>, id: InvoiceId): int {
    if entries == [] then 0
    else AttachedTotal(entries[..|entries| - 1], id) + if entries[|entries| - 1].invoice == Some(id) then entries[|entries| - 1].amount else 0
  }

  /** The total of an invoice's entries is a plain sum of their amounts. */
  lemma {:induction false} AttachedAdds(a: seq<Entry>, b: seq<Entry>, e: Entry, id: InvoiceId)
    ensures AttachedTotal([], id) == 0 && AttachedTotal([e], id) == if e.invoice == Some(id) then e.amount else 0
    ensures AttachedTotal(a + b, id) == AttachedTotal(a, id) + AttachedTotal(b, id)
    decreases b
  {
    assert [e][..0] == [];
    if b == [] {
      assert a + b == a;
    } else {
      AttachedAdds(a, b[..|b| - 1], e, id);
      assert (a + b)[..|a + b| - 1] == a + b[..|b| - 1];
    }
  }

  function AttachedContribution(entries: seq<Entry>, id: InvoiceId): int {
    if entries == [] then 0
    else
      var last := entries[|entries| - 1];
      AttachedContribution(entries[..|entries| - 1], id) + if last.invoice == Some(id) then SignedContribution(last.kind, last.amount) else 0
  }

  predicate WellAttached(e: Entry, invoices: seq<Invoice>) {
    e.invoice.Some? ==>
      && e.invoice.value < |invoices| && IsCommission(e.kind)
      && var i := invoices[e.invoice.value];
         i.kind == CommissionInvoice && i.seller == e.seller && i.periodStart <= e.createdAt < i.periodEnd
  }

  /** Entries are on invoices of their own seller and month, and a commission invoice says what its entries come to. */
  ghost predicate Sound(b: Books) {
    && (forall i | 0 <= i < |b.entries| :: WellAttached(b.entries[i], b.invoices))
    && (forall id | 0 <= id < |b.invoices| && b.invoices[id].kind == CommissionInvoice :: b.invoices[id].total == AttachedTotal(b.entries, id))
  }

  /** `later` continues `b`: nothing attached is re-attached, nothing billed is re-billed, nothing is removed. */
  ghost predicate Continues(b: Books, later: Books) {
    && |b.entries| <= |later.entries| && |b.invoices| <= |later.invoices|
    && (forall i | 0 <= i < |b.entries| ::
          && later.entries[i] == b.entries[i].(invoice := later.entries[i].invoice)
          && (b.entries[i].invoice.Some? ==> later.entries[i].invoice == b.entries[i].invoice))
    && (forall i | 0 <= i < |b.invoices| :: later.invoices[i] == b.invoices[i].(status := later.invoices[i].status))
  }

  lemma ContinuesTransitive(a: Books, b: Books, c: Books)
    requires Continues(a, b) && Continues(b, c)
    ensures Continues(a, c)
  {}

  lemma {:induction false} AttachTotals(entries: seq<Entry>, seller: SellerId, p: Period, id: InvoiceId, other: InvoiceId)
    requires forall i | 0 <= i < |entries| :: entries[i].invoice != Some(id)
    ensures AttachedTotal(Attach(entries, seller, p, id), id) == Collected(entries, seller, p)
    ensures other != id ==> AttachedTotal(Attach(entries, seller, p, id), other) == AttachedTotal(entries, other)
  {
    if entries != [] {
      var init := entries[..|entries| - 1];
      AttachTotals(init, seller, p, id, other);
      assert Attach(entries, seller, p, id)[..|init|] == Attach(init, seller, p, id);
    }
  }

  lemma InvoiceSellerSound(b: Books, seller: SellerId, p: Period, graceDays: nat)
    requires Sound(b)
    ensures Sound(InvoiceSeller(b, seller, p, graceDays)) && Continues(b, InvoiceSeller(b, seller, p, graceDays))
    ensures var after := InvoiceSeller(b, seller, p, graceDays);
            if exists k | 0 <= k < |b.invoices| :: b.invoices[k].seller == seller && b.invoices[k].periodStart == p.start then after == b
            else after.invoices == b.invoices + [Invoice(seller, CommissionInvoice, p.start, p.end, AttachedTotal(after.entries, |b.invoices|),
                                                         p.end + graceDays * DAY_MS, Pending)]
  {
    assert Invoiced(b.invoices, seller, p.start) <==> exists k | 0 <= k < |b.invoices| :: b.invoices[k].seller == seller && b.invoices[k].periodStart == p.start;
    hide AttachedTotal, Collected, Invoiced;
    var b', n := InvoiceSeller(b, seller, p, graceDays), |b.invoices|;
    if !Invoiced(b.invoices, seller, p.start) {
      forall i | 0 <= i < |b.entries| ensures b.entries[i].invoice != Some(n) { assert WellAttached(b.entries[i], b.invoices); }
      forall id | 0 <= id <= n { AttachTotals(b.entries, seller, p, n, id); }
      forall i | 0 <= i < |b.entries| ensures WellAttached(b'.entries[i], b'.invoices) { assert WellAttached(b.entries[i], b.invoices); }
    }
  }

  lemma {:induction false} InvoiceAllSound(b: Books, sellers: seq<SellerId>, p: Period, graceDays: nat)
    requires Sound(b)
    ensures Sound(InvoiceAll(b, sellers, p, graceDays)) && Continues(b, InvoiceAll(b, sellers, p, graceDays))
  {
    hide Sound, Continues, InvoiceSeller;
    if sellers == [] {
      ContinuesRefl(b);
    } else {
      var init := InvoiceAll(b, sellers[..|sellers| - 1], p, graceDays);
      InvoiceAllSound(b, sellers[..|sellers| - 1], p, graceDays);
      InvoiceSellerSound(init, sellers[|sellers| - 1], p, graceDays);
      ContinuesTransitive(b, init, InvoiceAll(b, sellers, p, graceDays));
    }
  }

  lemma ContinuesRefl(b: Books)
    ensures Continues(b, b)
  {}

  /** What a sound commission invoice asks for is what its entries took from the seller's balance. */
  lemma {:induction false} TotalIsMinusContribution(entries: seq<Entry>, invoices: seq<Invoice>, id: InvoiceId)
    requires forall i | 0 <= i < |entries| :: WellAttached(entries[i], invoices)
    ensures AttachedTotal(entries, id) == 0 - AttachedContribution(entries, id)
  {
    if entries != [] {
      TotalIsMinusContribution(entries[..|entries| - 1], invoices, id);
      assert WellAttached(entries[|entries| - 1], invoices);
    }
  }

  // ---- Which entries a run collects --------------------------------------------------------------------

  lemma InvoicedLater(invoices: seq<Invoice>, later: seq<Invoice>, seller: SellerId, start: int)
    requires |invoices| <= |later|
    requires forall i | 0 <= i < |invoices| :: later[i] == invoices[i].(status := later[i].status)
    ensures Invoiced(invoices, seller, start) ==> Invoiced(later, seller, start)
  {
    if Invoiced(invoices, seller, start) {
      var i :| 0 <= i < |invoices| && invoices[i].seller == seller && invoices[i].periodStart == start;
      assert later[i].seller == seller && later[i].periodStart == start;
    }
  }

  /** After the run a seller is invoiced for the month if it was before or is on the list. */
  lemma {:induction false} InvoicedAfter(b: Books, sellers: seq<SellerId>, p: Period, graceDays: nat, seller: SellerId)
    requires Sound(b)
    ensures Invoiced(InvoiceAll(b, sellers, p, graceDays).invoices, seller, p.start) <==> Invoiced(b.invoices, seller, p.start) || seller in sellers
  {
    if sellers != [] {
      var init, last := sellers[..|sellers| - 1], sellers[|sellers| - 1];
      InvoicedAfter(b, init, p, graceDays, seller);
      var before, after := InvoiceAll(b, init, p, graceDays), InvoiceAll(b, sellers, p, graceDays);
      InvoicedOne(before, last, p, graceDays, seller);
      assert sellers == init + [last];
    }
  }

  lemma InvoicedOne(b: Books, last: SellerId, p: Period, graceDays: nat, seller: SellerId)
    ensures Invoiced(InvoiceSeller(b, last, p, graceDays).invoices, seller, p.start) <==> Invoiced(b.invoices, seller, p.start) || seller == last
  {
    hide Collected;
    var after := InvoiceSeller(b, last, p, graceDays).invoices;
    InvoicedLater(b.invoices, after, seller, p.start);
    if !Invoiced(b.invoices, last, p.start) {
      assert after[|b.invoices|].seller == last && after[|b.invoices|].periodStart == p.start;
    }
  }

  /**
   * A run attaches an entry if and only if it was collectable and its seller was on the list with
   * no invoice of either kind for the month.
   */
  lemma {:induction false} AttachedExactly(b: Books, sellers: seq<SellerId>, p: Period, graceDays: nat, i: nat)
    requires Sound(b) && i < |b.entries|
    ensures var e, after := b.entries[i], InvoiceAll(b, sellers, p, graceDays);
            && |after.entries| == |b.entries|
            && (after.entries[i].invoice != e.invoice <==>
                  && e.invoice == None && e.kind in {CommissionAccrued, CommissionWaived, RefundAdjustment} && p.start <= e.createdAt < p.end
                  && e.seller in sellers && !exists k | 0 <= k < |b.invoices| :: b.invoices[k].seller == e.seller && b.invoices[k].periodStart == p.start)
            && after.entries[i] == e.(invoice := after.entries[i].invoice)
            && (after.entries[i].invoice.None? ==> e.invoice.None?)
  {
    var e := b.entries[i];
    assert Invoiced(b.invoices, e.seller, p.start) <==> exists k | 0 <= k < |b.invoices| :: b.invoices[k].seller == e.seller && b.invoices[k].periodStart == p.start;
    hide Collected, Invoiced;
    if sellers != [] {
      var init, last := sellers[..|sellers| - 1], sellers[|sellers| - 1];
      AttachedExactly(b, init, p, graceDays, i);
      InvoicedAfter(b, init, p, graceDays, last);
      assert sellers == init + [last];
    }
  }

  /** Every seller with something to collect has its invoice: running the month again would do nothing. */
  ghost predicate Settled(b: Books, p: Period) {
    forall i | 0 <= i < |b.entries| && Collectable(b.entries[i], b.entries[i].seller, p) :: Invoiced(b.invoices, b.entries[i].seller, p.start)
  }

  lemma RunSettles(b: Books, sellers: seq<SellerId>, p: Period, graceDays: nat)
    requires Sound(b) && Lists(sellers, SellersWithActivity(b.entries, p))
    ensures Settled(InvoiceAll(b, sellers, p, graceDays), p)
  {
    hide Invoiced, InvoiceAll;
    var after := InvoiceAll(b, sellers, p, graceDays);
    forall i | 0 <= i < |after.entries| && Collectable(after.entries[i], after.entries[i].seller, p)
      ensures Invoiced(after.invoices, after.entries[i].seller, p.start)
    {
      SameLength(b, sellers, p, graceDays);
      AttachedExactly(b, sellers, p, graceDays, i);
      assert b.entries[i].seller in SellersWithActivity(b.entries, p);
      InvoicedAfter(b, sellers, p, graceDays, b.entries[i].seller);
    }
  }

  lemma {:induction false} SameLength(b: Books, sellers: seq<SellerId>, p: Period, graceDays: nat)
    ensures |InvoiceAll(b, sellers, p, graceDays).entries| == |b.entries|
  {
    if sellers != [] { SameLength(b, sellers[..|sellers| - 1], p, graceDays); }
  }

  lemma {:induction false} SettledRunIsIdle(b: Books, sellers: seq<SellerId>, p: Period, graceDays: nat)
    requires forall s | s in sellers :: Invoiced(b.invoices, s, p.start)
    ensures InvoiceAll(b, sellers, p, graceDays) == b
  {
    if sellers != [] { SettledRunIsIdle(b, sellers[..|sellers| - 1], p, graceDays); }
  }
}
