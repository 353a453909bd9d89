/**
 * Invoices over whole runs: entries are posted, sellers and teams are billed for one month or
 * another, and invoices are paid or fall overdue, in any order. A seller's turn in the monthly
 * run is one step, so postings may come between two sellers of the same run; InvoiceCalls takes
 * the turn apart.
 */
module InvoiceRuns {
  import opened Common
  import opened Calendar
  import opened Ledger
  import opened Invoices

  datatype Step =
    | Post(e: Entry)
    | BillSeller(seller: SellerId, now: int, graceDays: nat)
    | BillTeam(team: Team, now: int, graceDays: nat)
    | SetStatus(id: InvoiceId, status: InvoiceStatus)

  predicate Enabled(b: Books, step: Step) {
    match step
    case Post(e) => e.invoice.None?
    case SetStatus(id, _) => id < |b.invoices|
    case _ => true
  }

  function Next(b: Books, step: Step): Books
    requires Enabled(b, step)
  {
    match step
    case Post(e) => b.(entries := b.entries + [e])
    case BillSeller(seller, now, graceDays) => InvoiceSeller(b, seller, PreviousCalendarMonth(now), graceDays)
    case BillTeam(team, now, graceDays) => b.(invoices := InvoiceTeam(b.invoices, team, PreviousCalendarMonth(now), graceDays))
    case SetStatus(id, status) => b.(invoices := b.invoices[id := b.invoices[id].(status := status)])
  }

  lemma SoundStep(b: Books, step: Step)
    requires Sound(b) && Enabled(b, step)
    ensures Sound(Next(b, step)) && Continues(b, Next(b, step))
  {
    hide PreviousCalendarMonth;
    var b' := Next(b, step);
    match step
    case BillSeller(seller, now, graceDays) => InvoiceSellerSound(b, seller, PreviousCalendarMonth(now), graceDays);
    case Post(e) =>
      assert b'.entries[..|b.entries|] == b.entries;
      forall i | 0 <= i < |b.entries| ensures WellAttached(b'.entries[i], b'.invoices) { assert WellAttached(b.entries[i], b.invoices); }
    case _ =>
      forall i | 0 <= i < |b.entries| ensures WellAttached(b'.entries[i], b'.invoices) { assert WellAttached(b.entries[i], b.invoices); }
  }

  datatype Run = Run(states: seq<Books>, steps: seq<Step>)

  ghost predicate Taken(r: Run, k: nat)
    requires |r.states| == |r.steps| + 1 && k < |r.steps|
  {
    Enabled(r.states[k], r.steps[k]) && r.states[k + 1] == Next(r.states[k], r.steps[k])
  }

  ghost predicate IsRun(r: Run) {
    |r.states| == |r.steps| + 1 && r.states[0] == Books([], []) && forall k: nat | k < |r.steps| :: Taken(r, k)
  }

  lemma {:induction false} SoundThroughout(r: Run, k: nat)
    requires IsRun(r) && k < |r.states|
    ensures Sound(r.states[k])
  {
    hide Sound, Next, Enabled, Continues;
    if k == 0 {
      EmptyIsSound();
    } else {
      SoundThroughout(r, k - 1);
      assert Taken(r, k - 1);
      SoundStep(r.states[k - 1], r.steps[k - 1]);
    }
  }

  lemma EmptyIsSound()
    ensures Sound(Books([], []))
  {}

  lemma {:induction false} ContinuesThroughout(r: Run, i: nat, j: nat)
    requires IsRun(r) && i <= j < |r.states|
    ensures Continues(r.states[i], r.states[j])
  {
    hide Sound, Next, Enabled, Continues;
    if i == j {
      ContinuesRefl(r.states[i]);
    } else {
      ContinuesThroughout(r, i, j - 1);
      SoundThroughout(r, j - 1);
      assert Taken(r, j - 1);
      SoundStep(r.states[j - 1], r.steps[j - 1]);
      ContinuesTransitive(r.states[i], r.states[j - 1], r.states[j]);
    }
  }

  // ---- Running a month again --------------------------------------------------------------------------

  lemma OnlyPostAdds(b: Books, step: Step)
    requires Enabled(b, step)
    ensures |Next(b, step).entries| == |b.entries| + if step.Post? then 1 else 0
    ensures step.Post? ==> Next(b, step).entries[|b.entries|] == step.e
  {
    hide Invoiced, InvoiceTeam, CommissionInvoiceFor, PreviousCalendarMonth;
  }

  lemma SettledStep(b: Books, step: Step, p: Period)
    requires Sound(b) && Settled(b, p) && Enabled(b, step)
    requires step.Post? ==> !(p.start <= step.e.createdAt < p.end)
    ensures Settled(Next(b, step), p)
  {
    SoundStep(b, step);
    OnlyPostAdds(b, step);
    hide Sound, Next, Enabled, Settled, Continues;
    SettledContinues(b, Next(b, step), p);
  }

  lemma SettledContinues(b: Books, b': Books, p: Period)
    requires Settled(b, p) && Continues(b, b')
    requires forall n | |b.entries| <= n < |b'.entries| :: !(p.start <= b'.entries[n].createdAt < p.end)
    ensures Settled(b', p)
  {
    hide Invoiced;
    forall n | 0 <= n < |b'.entries| && Collectable(b'.entries[n], b'.entries[n].seller, p) ensures Invoiced(b'.invoices, b'.entries[n].seller, p.start) {
      assert n < |b.entries| && Collectable(b.entries[n], b.entries[n].seller, p);
      InvoicedLater(b.invoices, b'.invoices, b.entries[n].seller, p.start);
    }
  }

  lemma {:induction false} SettledStays(r: Run, i: nat, j: nat, p: Period)
    requires IsRun(r) && i <= j < |r.states| && Settled(r.states[i], p)
    requires forall k | i <= k < j && r.steps[k].Post? :: !(p.start <= r.steps[k].e.createdAt < p.end)
    ensures Settled(r.states[j], p)
  {
    hide Sound, Settled, Next, Enabled;
    if i < j {
      SettledStays(r, i, j - 1, p);
      SoundThroughout(r, j - 1);
      assert Taken(r, j - 1);
      SettledStep(r.states[j - 1], r.steps[j - 1], p);
    }
  }

  /**
   * After a month has been billed, billing it again changes nothing, whatever happened in
   * between, as long as nothing is posted with a date in the closed month.
   */
  lemma RerunChangesNothing(r: Run, i: nat, j: nat, p: Period, first: seq<SellerId>, again: seq<SellerId>, graceDays: nat)
    requires IsRun(r) && i <= j < |r.states|
    requires exists b :: Sound(b) && Lists(first, SellersWithActivity(b.entries, p)) && r.states[i] == InvoiceAll(b, first, p, graceDays)
    requires forall k | i <= k < j && r.steps[k].Post? :: !(p.start <= r.steps[k].e.createdAt < p.end)
    requires Lists(again, SellersWithActivity(r.states[j].entries, p))
    ensures InvoiceAll(r.states[j], again, p, graceDays) == r.states[j]
  {
    hide Sound, Invoiced, InvoiceAll;
    var b :| Sound(b) && Lists(first, SellersWithActivity(b.entries, p)) && r.states[i] == InvoiceAll(b, first, p, graceDays);
    RunSettles(b, first, p, graceDays);
    SettledStays(r, i, j, p);
    var y := r.states[j];
    forall s | s in again ensures Invoiced(y.invoices, s, p.start) {
      assert s in SellersWithActivity(y.entries, p);
      var n :| 0 <= n < |y.entries| && Collectable(y.entries[n], y.entries[n].seller, p) && y.entries[n].seller == s;
    }
    SettledRunIsIdle(y, again, p, graceDays);
  }

  // ---- Entries that are never billed ---------------------------------------------------------------------

  /** Billing a team with members gives its leader an invoice for the month, and that blocks the leader's own. */
  lemma GroupInvoiceCounts(b: Books, t: Team, p: Period, graceDays: nat)
    requires t.activeMembers > 0 && !GroupInvoiced(b.invoices, t.id, p.start)
    ensures Invoiced(InvoiceTeam(b.invoices, t, p, graceDays), t.leader, p.start)
  {
    assert InvoiceTeam(b.invoices, t, p, graceDays)[|b.invoices|] == GroupInvoice(t, p, graceDays);
  }

  ghost predicate Stuck(b: Books, n: nat, p: Period) {
    n < |b.entries| && Collectable(b.entries[n], b.entries[n].seller, p) && Invoiced(b.invoices, b.entries[n].seller, p.start)
  }

  lemma StuckWhileBilling(b: Books, seller: SellerId, q: Period, graceDays: nat, n: nat, p: Period)
    requires Stuck(b, n, p) && (p == q || p.end <= q.start || q.end <= p.start)
    ensures var after := InvoiceSeller(b, seller, q, graceDays);
            n < |after.entries| && after.entries[n] == b.entries[n]
  {
    hide Invoiced, CommissionInvoiceFor;
  }

  lemma StuckStep(b: Books, step: Step, n: nat, p: Period, billedAt: int)
    requires Sound(b) && Enabled(b, step) && Stuck(b, n, p) && p == PreviousCalendarMonth(billedAt)
    ensures Stuck(Next(b, step), n, p)
  {
    hide Sound, Invoiced, InvoiceSeller, InvoiceTeam, PreviousCalendarMonth;
    SoundStep(b, step);
    var b' := Next(b, step);
    InvoicedLater(b.invoices, b'.invoices, b.entries[n].seller, p.start);
    if step.BillSeller? {
      if billedAt <= step.now { PreviousMonthIsWhole(billedAt, step.now); } else { PreviousMonthIsWhole(step.now, billedAt); }
      StuckWhileBilling(b, step.seller, PreviousCalendarMonth(step.now), step.graceDays, n, p);
    }
  }

  /**
   * A commission entry that is still loose when its seller already has any invoice for that month
   * is never billed: a group invoice made before the commission run loses the leader's commission.
   */
  lemma {:induction false} NeverBilled(r: Run, i: nat, j: nat, n: nat, p: Period, billedAt: int)
    requires IsRun(r) && i <= j < |r.states| && p == PreviousCalendarMonth(billedAt) && Stuck(r.states[i], n, p)
    ensures Stuck(r.states[j], n, p) && r.states[j].entries[n].invoice == None
  {
    hide Sound, Next, Enabled, PreviousCalendarMonth, Invoiced;
    if i < j {
      NeverBilled(r, i, j - 1, n, p, billedAt);
      SoundThroughout(r, j - 1);
      assert Taken(r, j - 1);
      StuckStep(r.states[j - 1], r.steps[j - 1], n, p, billedAt);
    }
  }

  /** Billing the seller for the entry's month bills the entry if and only if no invoice of theirs stands in the way. */
  lemma BilledExactly(b: Books, n: nat, now: int, graceDays: nat)
    requires Sound(b) && n < |b.entries| && Collectable(b.entries[n], b.entries[n].seller, PreviousCalendarMonth(now))
    ensures var after := Next(b, BillSeller(b.entries[n].seller, now, graceDays));
            after.entries[n].invoice.Some? <==> !Stuck(b, n, PreviousCalendarMonth(now))
  {
    hide PreviousCalendarMonth, Collected;
  }

  /** Step k bills entry n: a turn of its seller, for the month of the entry, with no invoice in the way. */
  ghost predicate Bills(r: Run, k: nat, n: nat)
    requires |r.states| == |r.steps| + 1 && k < |r.steps|
  {
    && r.steps[k].BillSeller? && n < |r.states[k].entries| && r.steps[k].seller == r.states[k].entries[n].seller
    && Collectable(r.states[k].entries[n], r.steps[k].seller, PreviousCalendarMonth(r.steps[k].now))
    && !Invoiced(r.states[k].invoices, r.steps[k].seller, PreviousCalendarMonth(r.steps[k].now).start)
  }

  lemma BillsStep(r: Run, k: nat, n: nat)
    requires IsRun(r) && k < |r.steps| && n < |r.states[k].entries|
    ensures n < |r.states[k + 1].entries|
    ensures r.states[k].entries[n].invoice.None? ==> (r.states[k + 1].entries[n].invoice.Some? <==> Bills(r, k, n))
  {
    assert Taken(r, k);
    hide PreviousCalendarMonth, Invoiced, CommissionInvoiceFor, InvoiceTeam;
  }

  /** In every run a loose entry comes to be on an invoice if and only if some turn bills it. */
  lemma {:induction false} BilledInRunExactly(r: Run, i: nat, j: nat, n: nat)
    requires IsRun(r) && i <= j < |r.states| && n < |r.states[i].entries| && r.states[i].entries[n].invoice.None?
    ensures n < |r.states[j].entries|
    ensures r.states[j].entries[n].invoice.Some? <==> exists k :: i <= k < j && Bills(r, k, n)
  {
    hide Next, Enabled, Bills;
    if i < j {
      BilledInRunExactly(r, i, j - 1, n);
      BillsStep(r, j - 1, n);
      AttachedKept(r, j - 1, n);
      var last := j - 1;
      if Bills(r, last, n) && r.states[last].entries[n].invoice.None? { assert i <= last < j && Bills(r, last, n); }
      if Bills(r, last, n) { BillsLoose(r, last, n); }
    }
  }

  lemma BillsLoose(r: Run, k: nat, n: nat)
    requires |r.states| == |r.steps| + 1 && k < |r.steps| && Bills(r, k, n)
    ensures n < |r.states[k].entries| && r.states[k].entries[n].invoice.None?
  {
    hide PreviousCalendarMonth, Invoiced;
  }

  lemma AttachedKept(r: Run, k: nat, n: nat)
    requires IsRun(r) && k < |r.steps| && n < |r.states[k].entries|
    ensures n < |r.states[k + 1].entries|
    ensures r.states[k].entries[n].invoice.Some? ==> r.states[k + 1].entries[n] == r.states[k].entries[n]
  {
    hide Next, Enabled, Sound;
    ContinuesThroughout(r, k, k + 1);
  }

  /**
   * Such entries arise: a commission posted in the month, and the group run before the commission
   * run, for any leader of a team with members.
   */
  lemma GroupInvoiceFirst(e: Entry, team: Team, now: int, graceDays: nat) returns (r: Run)
    requires e.seller == team.leader && team.activeMembers > 0 && Collectable(e, e.seller, PreviousCalendarMonth(now))
    ensures IsRun(r) && r.steps == [Post(e), BillTeam(team, now, graceDays)]
    ensures Stuck(r.states[2], 0, PreviousCalendarMonth(now))
  {
    hide PreviousCalendarMonth;
    var p := PreviousCalendarMonth(now);
    var posted := Books([e], []);
    assert [] + [e] == [e];
    GroupInvoiceCounts(posted, team, p, graceDays);
    r := Run([Books([], []), posted, Books([e], InvoiceTeam([], team, p, graceDays))], [Post(e), BillTeam(team, now, graceDays)]);
    assert Taken(r, 0) && Taken(r, 1);
  }
}
