/**
 * The monthly invoice run with other runs beside it: each seller's turn looks for an invoice,
 * then reads the loose entries, then commits, and anything may commit in between, the same
 * seller's turn of another run included. Nothing locks the seller or the entries.
 */
module InvoiceCalls {
  import opened Common
  import opened Calendar
  import opened Ledger
  import opened Invoices

  type CallId = nat

  /** One seller's turn; `found` are the entries its transaction read, by position. */
  datatype Call =
    | Checked(seller: SellerId, p: Period, graceDays: nat)
    | HasRead(seller: SellerId, p: Period, graceDays: nat, found: set<nat>, total: int)
    | Done

  datatype State = State(books: Books, calls: map<CallId, Call>)

  datatype Step =
    /** `alreadyInvoiced` finds nothing; a turn that finds an invoice ends there. */
    | Check(call: CallId, seller: SellerId, now: int, graceDays: nat)
    | Read(call: CallId)
    | Commit(call: CallId)
    | Post(e: Entry)
    | BillTeam(team: Team, now: int, graceDays: nat)
    | SetStatus(id: InvoiceId, status: InvoiceStatus)

  function Loose(entries: seq<Entry>, seller: SellerId, p: Period): set<nat> {
    set i: nat | i < |entries| && Collectable(entries[i], seller, p)
  }

  function TotalOf(entries: seq<Entry>, found: set<nat>): int {
    if entries == [] then 0
    else TotalOf(entries[..|entries| - 1], found) + if |entries| - 1 in found then entries[|entries| - 1].amount else 0
  }

  /** `updateMany` by id: it does not look again whether the entries are still loose. */
  function AttachFound(entries: seq<Entry>, found: set<nat>, id: InvoiceId): (r: seq<Entry>)
    ensures |r| == |entries|
  {
    seq(|entries|, i requires 0 <= i < |entries| => if i in found then entries[i].(invoice := Some(id)) else entries[i])
  }

  function InvoiceOf(c: Call): Invoice
    requires c.HasRead?
  {
    Invoice(c.seller, CommissionInvoice, c.p.start, c.p.end, c.total, c.p.end + c.graceDays * DAY_MS, Pending)
  }

  predicate Enabled(y: State, step: Step) {
    match step
    case Check(call, seller, now, _) => call !in y.calls && !Invoiced(y.books.invoices, seller, PreviousCalendarMonth(now).start)
    case Read(call) => call in y.calls && y.calls[call].Checked?
    case Commit(call) => call in y.calls && y.calls[call].HasRead?
    case Post(e) => e.invoice.None?
    case SetStatus(id, _) => id < |y.books.invoices|
    case BillTeam(_, _, _) => true
  }

  function Next(y: State, step: Step): State
    requires Enabled(y, step)
  {
    var b := y.books;
    match step
    case Check(call, seller, now, graceDays) => y.(calls := y.calls[call := Checked(seller, PreviousCalendarMonth(now), graceDays)])
    case Read(call) =>
      var c := y.calls[call];
      var found := Loose(b.entries, c.seller, c.p);
      y.(calls := y.calls[call := HasRead(c.seller, c.p, c.graceDays, found, TotalOf(b.entries, found))])
    case Commit(call) =>
      var c := y.calls[call];
      State(Books(AttachFound(b.entries, c.found, |b.invoices|), b.invoices + [InvoiceOf(c)]), y.calls[call := Done])
    case Post(e) => y.(books := b.(entries := b.entries + [e]))
    case BillTeam(team, now, graceDays) => y.(books := b.(invoices := InvoiceTeam(b.invoices, team, PreviousCalendarMonth(now), graceDays)))
    case SetStatus(id, status) => y.(books := b.(invoices := b.invoices[id := b.invoices[id].(status := status)]))
  }

  datatype Run = Run(states: seq<State>, steps: seq<Step>)

  ghost predicate Taken(r: Run, k: nat)
    requires |r.states| == |r.steps| + 1 && k < |r.steps|
  {
    Enabled(r.states[k], r.steps[k]) && r.states[k + 1] == Next(r.states[k], r.steps[k])
  }

  ghost predicate IsRun(r: Run) {
    |r.states| == |r.steps| + 1 && r.states[0] == State(Books([], []), map[]) && forall k: nat | k < |r.steps| :: Taken(r, k)
  }

  // ---- A turn with nothing in between --------------------------------------------------------------------

  lemma {:induction false} TotalOfLoose(entries: seq<Entry>, seller: SellerId, p: Period, found: set<nat>)
    requires forall i: nat | i < |entries| :: i in found <==> Collectable(entries[i], seller, p)
    ensures TotalOf(entries, found) == Collected(entries, seller, p)
  {
    if entries != [] { TotalOfLoose(entries[..|entries| - 1], seller, p, found); }
  }

  lemma Checks(y: State, call: CallId, seller: SellerId, now: int, graceDays: nat)
    requires Enabled(y, Check(call, seller, now, graceDays))
    ensures Next(y, Check(call, seller, now, graceDays)) == y.(calls := y.calls[call := Checked(seller, PreviousCalendarMonth(now), graceDays)])
  {
    hide PreviousCalendarMonth, Invoiced;
  }

  lemma Reads(y: State, call: CallId)
    requires call in y.calls && y.calls[call].Checked?
    ensures Enabled(y, Read(call))
    ensures var c := y.calls[call]; var found := Loose(y.books.entries, c.seller, c.p);
            Next(y, Read(call)) == y.(calls := y.calls[call := HasRead(c.seller, c.p, c.graceDays, found, TotalOf(y.books.entries, found))])
  {
    hide TotalOf, Loose;
  }

  lemma Commits(y: State, call: CallId)
    requires call in y.calls && y.calls[call].HasRead?
    ensures Enabled(y, Commit(call))
    ensures var b, c := y.books, y.calls[call];
            Next(y, Commit(call)) == State(Books(AttachFound(b.entries, c.found, |b.invoices|), b.invoices + [InvoiceOf(c)]), y.calls[call := Done])
  {
    hide AttachFound;
  }

  lemma BilledAtOnce(b: Books, seller: SellerId, p: Period, graceDays: nat)
    requires !Invoiced(b.invoices, seller, p.start)
    ensures var found := Loose(b.entries, seller, p); var c := HasRead(seller, p, graceDays, found, TotalOf(b.entries, found));
            Books(AttachFound(b.entries, found, |b.invoices|), b.invoices + [InvoiceOf(c)]) == InvoiceSeller(b, seller, p, graceDays)
  {
    hide Collected, TotalOf, Invoiced;
    var found := Loose(b.entries, seller, p);
    TotalOfLoose(b.entries, seller, p, found);
    assert AttachFound(b.entries, found, |b.invoices|) == Attach(b.entries, seller, p, |b.invoices|);
  }

  /** Undisturbed, a turn is the single step that the other invoice theorems take it for. */
  lemma UndisturbedTurn(y: State, call: CallId, seller: SellerId, now: int, graceDays: nat)
    requires Enabled(y, Check(call, seller, now, graceDays))
    ensures var y1 := Next(y, Check(call, seller, now, graceDays));
            && Enabled(y1, Read(call)) && Enabled(Next(y1, Read(call)), Commit(call))
            && Next(Next(y1, Read(call)), Commit(call)).books == InvoiceSeller(y.books, seller, PreviousCalendarMonth(now), graceDays)
  {
    assert !Invoiced(y.books.invoices, seller, PreviousCalendarMonth(now).start);
    hide PreviousCalendarMonth, Next, Enabled, InvoiceSeller, AttachFound, TotalOf, Loose, Invoiced;
    Checks(y, call, seller, now, graceDays);
    var y1 := Next(y, Check(call, seller, now, graceDays));
    Reads(y1, call);
    Commits(Next(y1, Read(call)), call);
    BilledAtOnce(y.books, seller, PreviousCalendarMonth(now), graceDays);
  }

  // ---- What a turn that has read still knows -----------------------------------------------------------------

  /** But for the invoice it may be on by now, a found entry is as it was read. */
  predicate Fits(e: Entry, c: Call)
    requires c.HasRead?
  {
    e.seller == c.seller && IsCommission(e.kind) && c.p.start <= e.createdAt < c.p.end
  }

  ghost predicate FoundFits(b: Books, c: Call) {
    c.HasRead? ==>
      && (forall n | n in c.found :: n < |b.entries| && Fits(b.entries[n], c))
      && c.total == TotalOf(b.entries, c.found)
  }

  ghost predicate CallsFit(y: State) { forall call | call in y.calls :: FoundFits(y.books, y.calls[call]) }

  lemma {:induction false} SameTotal(entries: seq<Entry>, later: seq<Entry>, found: set<nat>)
    requires |entries| <= |later| && (forall n | n in found :: n < |entries|)
    requires forall i | 0 <= i < |entries| :: later[i].amount == entries[i].amount
    ensures TotalOf(later, found) == TotalOf(entries, found)
  {
    if later != [] {
      var init := later[..|later| - 1];
      if |later| > |entries| { SameTotal(entries, init, found); }
      else { OneLess(entries, init, found); }
    }
  }

  lemma {:induction false} OneLess(entries: seq<Entry>, init: seq<Entry>, found: set<nat>)
    requires entries != [] && |init| == |entries| - 1
    requires forall i | 0 <= i < |init| :: init[i].amount == entries[i].amount
    ensures TotalOf(init, found) == TotalOf(entries[..|entries| - 1], found)
  {
    if init != [] {
      OneLess(entries[..|entries| - 1], init[..|init| - 1], found);
    }
  }

  /** No step changes anything of an entry but the invoice it is on. */
  lemma EntriesKept(y: State, step: Step)
    requires Enabled(y, step)
    ensures var entries, later := y.books.entries, Next(y, step).books.entries;
            && |entries| <= |later|
            && forall i | 0 <= i < |entries| :: later[i] == entries[i].(invoice := later[i].invoice)
    ensures |y.books.invoices| <= |Next(y, step).books.invoices|
  {
    hide PreviousCalendarMonth;
  }

  lemma FitsStep(y: State, step: Step)
    requires CallsFit(y) && Enabled(y, step)
    ensures CallsFit(Next(y, step))
  {
    EntriesKept(y, step);
    var y' := Next(y, step);
    forall call | call in y'.calls ensures FoundFits(y'.books, y'.calls[call]) {
      if call in y.calls && y'.calls[call] == y.calls[call] { KeptFits(y, y', call); } else { ChangedFits(y, step, call); }
    }
  }

  lemma ChangedFits(y: State, step: Step, call: CallId)
    requires Enabled(y, step) && call in Next(y, step).calls && !(call in y.calls && Next(y, step).calls[call] == y.calls[call])
    ensures FoundFits(Next(y, step).books, Next(y, step).calls[call])
  {
    hide TotalOf, PreviousCalendarMonth;
  }

  lemma KeptFits(y: State, y': State, call: CallId)
    requires call in y.calls && call in y'.calls && y'.calls[call] == y.calls[call] && FoundFits(y.books, y.calls[call])
    requires |y.books.entries| <= |y'.books.entries|
    requires forall i | 0 <= i < |y.books.entries| :: y'.books.entries[i] == y.books.entries[i].(invoice := y'.books.entries[i].invoice)
    ensures FoundFits(y'.books, y'.calls[call])
  {
    if y.calls[call].HasRead? { SameTotal(y.books.entries, y'.books.entries, y.calls[call].found); }
    hide TotalOf;
  }

  lemma {:induction false} FitsThroughout(r: Run, k: nat)
    requires IsRun(r) && k < |r.states|
    ensures CallsFit(r.states[k])
  {
    hide Next, Enabled;
    if k > 0 {
      hide CallsFit;
      FitsThroughout(r, k - 1);
      assert Taken(r, k - 1);
      FitsStep(r.states[k - 1], r.steps[k - 1]);
    }
  }

  // ---- When a commit finds an entry already billed -------------------------------------------------------------

  /** Where the turn that commits at step `k` read its entries. */
  function ReadAt(steps: seq<Step>, call: CallId, k: nat): (i: nat)
    requires k <= |steps|
    ensures i <= k
  {
    if k == 0 then 0 else if steps[k - 1] == Read(call) then k - 1 else ReadAt(steps, call, k - 1)
  }

  /** Step m is the commit of a turn that found entry n. */
  ghost predicate Bills(r: Run, m: nat, n: nat)
    requires |r.states| == |r.steps| + 1
  {
    m < |r.steps| && r.steps[m].Commit? && Enabled(r.states[m], r.steps[m]) && n in r.states[m].calls[r.steps[m].call].found
  }

  lemma InvoiceAfter(y: State, step: Step, n: nat)
    requires Enabled(y, step) && n < |y.books.entries|
    ensures n < |Next(y, step).books.entries|
    ensures Next(y, step).books.entries[n].invoice ==
            if step.Commit? && n in y.calls[step.call].found then Some(|y.books.invoices|) else y.books.entries[n].invoice
  {
    hide PreviousCalendarMonth, Invoiced, TotalOf, InvoiceTeam;
  }

  lemma InvoiceStep(r: Run, m: nat, n: nat)
    requires IsRun(r) && m < |r.steps| && n < |r.states[m].books.entries|
    ensures n < |r.states[m + 1].books.entries|
    ensures r.states[m + 1].books.entries[n].invoice ==
            if Bills(r, m, n) then Some(|r.states[m].books.invoices|) else r.states[m].books.entries[n].invoice
  {
    assert Taken(r, m);
    hide Next;
    InvoiceAfter(r.states[m], r.steps[m], n);
  }

  lemma ReadIsLoose(r: Run, m: nat, call: CallId, n: nat)
    requires IsRun(r) && m < |r.steps| && r.steps[m] == Read(call) && call in r.states[m + 1].calls
    requires r.states[m + 1].calls[call].HasRead? && n in r.states[m + 1].calls[call].found
    ensures n < |r.states[m + 1].books.entries| && r.states[m + 1].books.entries[n].invoice.None? && !Bills(r, m, n)
  {
    assert Taken(r, m);
    hide PreviousCalendarMonth, Invoiced, TotalOf;
  }

  lemma SameCall(r: Run, m: nat, call: CallId)
    requires IsRun(r) && m < |r.steps| && r.steps[m] != Read(call) && call in r.states[m + 1].calls && r.states[m + 1].calls[call].HasRead?
    ensures call in r.states[m].calls && r.states[m].calls[call] == r.states[m + 1].calls[call]
  {
    assert Taken(r, m);
    hide PreviousCalendarMonth, Invoiced, TotalOf;
  }

  /** After its read, a turn's entry is on an invoice exactly when another turn has committed it since. */
  lemma {:induction false} BilledSinceRead(r: Run, k: nat, call: CallId, n: nat)
    requires IsRun(r) && k < |r.states| && call in r.states[k].calls && r.states[k].calls[call].HasRead? && n in r.states[k].calls[call].found
    ensures n < |r.states[k].books.entries|
    ensures r.states[k].books.entries[n].invoice.Some? <==> exists m: nat :: ReadAt(r.steps, call, k) <= m < k && Bills(r, m, n)
  {
    hide Bills, Next, Enabled;
    assert k > 0;
    if r.steps[k - 1] == Read(call) {
      ReadIsLoose(r, k - 1, call, n);
    } else {
      SameCall(r, k - 1, call);
      BilledSinceRead(r, k - 1, call, n);
      InvoiceStep(r, k - 1, n);
      var last := k - 1;
      if Bills(r, last, n) { assert ReadAt(r.steps, call, k) <= last < k && Bills(r, last, n); }
    }
  }

  /** Turn m' commits entry n between turn m's read of it and turn m's own commit. */
  ghost predicate Shares(r: Run, m': nat, m: nat, n: nat)
    requires |r.states| == |r.steps| + 1
  {
    m' < m && Bills(r, m', n) && Bills(r, m, n) && ReadAt(r.steps, r.steps[m].call, m) <= m'
  }

  /** A commit bills an entry for the second time exactly when another turn's commit came after its read. */
  lemma RebilledExactly(r: Run, m: nat, n: nat)
    requires IsRun(r) && Bills(r, m, n)
    ensures n < |r.states[m].books.entries|
    ensures r.states[m].books.entries[n].invoice.Some? <==> exists m': nat :: Shares(r, m', m, n)
  {
    hide Next;
    BilledSinceRead(r, m, r.steps[m].call, n);
    if m': nat :| ReadAt(r.steps, r.steps[m].call, m) <= m' < m && Bills(r, m', n) { assert Shares(r, m', m, n); }
  }

  ghost predicate Stays(r: Run, i: nat, j: nat, n: nat)
    requires i <= j < |r.states|
  {
    n < |r.states[i].books.entries| && r.states[i].books.entries[n].invoice.Some? ==>
      n < |r.states[j].books.entries| && r.states[j].books.entries[n] == r.states[i].books.entries[n]
  }

  ghost predicate InvoicesExist(b: Books) { forall i | 0 <= i < |b.entries| && b.entries[i].invoice.Some? :: b.entries[i].invoice.value < |b.invoices| }

  lemma {:induction false} InvoicesExistThroughout(r: Run, k: nat)
    requires IsRun(r) && k < |r.states|
    ensures InvoicesExist(r.states[k].books)
  {
    hide Invoiced, TotalOf, PreviousCalendarMonth;
    if k > 0 {
      InvoicesExistThroughout(r, k - 1);
      assert Taken(r, k - 1);
    }
  }

  lemma {:induction false} StaysUnlessShared(r: Run, i: nat, j: nat, n: nat)
    requires IsRun(r) && i <= j < |r.states| && forall m', m: nat | m < j :: !Shares(r, m', m, n)
    ensures Stays(r, i, j, n)
  {
    hide Bills, Shares, Next, Enabled;
    if i < j && n < |r.states[i].books.entries| && r.states[i].books.entries[n].invoice.Some? {
      StaysUnlessShared(r, i, j - 1, n);
      assert Taken(r, j - 1);
      InvoiceStep(r, j - 1, n);
      EntriesKept(r.states[j - 1], r.steps[j - 1]);
      if Bills(r, j - 1, n) { RebilledExactly(r, j - 1, n); }
    }
  }

  lemma SharedMoves(r: Run, m': nat, m: nat, n: nat)
    requires IsRun(r) && m < |r.steps| && Shares(r, m', m, n)
    ensures !Stays(r, m, m + 1, n)
  {
    RebilledExactly(r, m, n);
    InvoiceStep(r, m, n);
    InvoicesExistThroughout(r, m);
    hide Next, Enabled;
  }

  /**
   * Up to any moment of a run, every entry that was put on an invoice stayed on that one if and
   * only if no two turns that shared an entry overlapped from read to commit.
   */
  lemma AttachedOnceExactly(r: Run, k: nat)
    requires IsRun(r) && k < |r.states|
    ensures (forall i: nat, j: nat, n: nat | i <= j <= k :: Stays(r, i, j, n)) <==>
            forall m': nat, m: nat, n: nat | m < k :: !Shares(r, m', m, n)
  {
    hide Stays, Shares;
    if m': nat, m: nat, n: nat :| m < k && Shares(r, m', m, n) {
      SharedMoves(r, m', m, n);
      assert m <= m + 1 <= k && !Stays(r, m, m + 1, n);
    } else {
      forall i: nat, j: nat, n: nat | i <= j <= k ensures Stays(r, i, j, n) { StaysUnlessShared(r, i, j, n); }
    }
  }

  // ---- When a seller gets two invoices for a month -----------------------------------------------------------------

  function CheckAt(steps: seq<Step>, call: CallId, k: nat): (i: nat)
    requires k <= |steps|
    ensures i <= k
  {
    if k == 0 then 0 else if steps[k - 1].Check? && steps[k - 1].call == call then k - 1 else CheckAt(steps, call, k - 1)
  }

  /** Step m inserts an invoice of the seller for the month that starts then: a turn's commit, or the seller's team's. */
  ghost predicate Inserts(r: Run, m: nat, seller: SellerId, start: int)
    requires |r.states| == |r.steps| + 1
  {
    && m < |r.steps| && |r.states[m].books.invoices| < |r.states[m + 1].books.invoices|
    && var i := r.states[m + 1].books.invoices[|r.states[m].books.invoices|]; i.seller == seller && i.periodStart == start
  }

  /** One invoice more, at most, is one more that may stand in the way. */
  lemma InvoicedWithOneMore(before: seq<Invoice>, after: seq<Invoice>, seller: SellerId, start: int)
    requires |before| <= |after| <= |before| + 1
    requires forall i | 0 <= i < |before| :: after[i].seller == before[i].seller && after[i].periodStart == before[i].periodStart
    ensures Invoiced(after, seller, start) <==>
            Invoiced(before, seller, start) || (|before| < |after| && after[|before|].seller == seller && after[|before|].periodStart == start)
  {
    if i :| 0 <= i < |before| && before[i].seller == seller && before[i].periodStart == start {
      assert after[i].seller == seller && after[i].periodStart == start;
    }
    if i :| 0 <= i < |after| && after[i].seller == seller && after[i].periodStart == start {
      if i < |before| { assert before[i].seller == seller && before[i].periodStart == start; }
    }
  }

  lemma InsertStep(r: Run, m: nat, seller: SellerId, start: int)
    requires IsRun(r) && m < |r.steps|
    ensures Invoiced(r.states[m + 1].books.invoices, seller, start) <==> Invoiced(r.states[m].books.invoices, seller, start) || Inserts(r, m, seller, start)
  {
    assert Taken(r, m);
    hide Next, Enabled, Invoiced;
    OneInvoiceMore(r.states[m], r.steps[m]);
    InvoicedWithOneMore(r.states[m].books.invoices, r.states[m + 1].books.invoices, seller, start);
  }

  lemma OneInvoiceMore(y: State, step: Step)
    requires Enabled(y, step)
    ensures var before, after := y.books.invoices, Next(y, step).books.invoices;
            && |before| <= |after| <= |before| + 1
            && forall i | 0 <= i < |before| :: after[i] == before[i].(status := after[i].status)
  {
    hide PreviousCalendarMonth, Invoiced, TotalOf, GroupInvoiced;
  }

  ghost predicate TurnOf(y: State, call: CallId, seller: SellerId, start: int) {
    call in y.calls && !y.calls[call].Done? && y.calls[call].seller == seller && y.calls[call].p.start == start
  }

  lemma TurnStep(r: Run, m: nat, call: CallId, seller: SellerId, start: int)
    requires IsRun(r) && m < |r.steps| && TurnOf(r.states[m + 1], call, seller, start)
    ensures !(r.steps[m].Check? && r.steps[m].call == call) ==> TurnOf(r.states[m], call, seller, start)
    ensures r.steps[m].Check? && r.steps[m].call == call ==>
              !Invoiced(r.states[m].books.invoices, seller, start) && r.states[m + 1].books == r.states[m].books
  {
    assert Taken(r, m);
    hide PreviousCalendarMonth, Invoiced, TotalOf, GroupInvoiced;
  }

  /** While a turn is under way its seller is invoiced for the month exactly when that happened after its check. */
  lemma {:induction false} InvoicedSinceCheck(r: Run, k: nat, call: CallId, seller: SellerId, start: int)
    requires IsRun(r) && k < |r.states| && TurnOf(r.states[k], call, seller, start)
    ensures Invoiced(r.states[k].books.invoices, seller, start) <==>
            exists m: nat :: CheckAt(r.steps, call, k) <= m < k && Inserts(r, m, seller, start)
  {
    hide Inserts, Invoiced, Next, Enabled;
    assert k > 0;
    InsertStep(r, k - 1, seller, start);
    TurnStep(r, k - 1, call, seller, start);
    var last := k - 1;
    if r.steps[last].Check? && r.steps[last].call == call {
      CheckInsertsNothing(r, last, seller, start);
    } else {
      InvoicedSinceCheck(r, k - 1, call, seller, start);
      if Inserts(r, last, seller, start) { assert CheckAt(r.steps, call, k) <= last < k && Inserts(r, last, seller, start); }
    }
  }

  lemma CheckInsertsNothing(r: Run, m: nat, seller: SellerId, start: int)
    requires IsRun(r) && m < |r.steps| && r.states[m + 1].books == r.states[m].books
    ensures !Inserts(r, m, seller, start)
  {}

  /**
   * A commit gives a seller a second invoice for the month if and only if the first was inserted
   * between the turn's check and its commit.
   */
  lemma SecondInvoiceExactly(r: Run, m: nat)
    requires IsRun(r) && m < |r.steps| && r.steps[m].Commit? && Taken(r, m)
    ensures var c := r.states[m].calls[r.steps[m].call];
            Invoiced(r.states[m].books.invoices, c.seller, c.p.start) <==>
            exists m': nat :: CheckAt(r.steps, r.steps[m].call, m) <= m' < m && Inserts(r, m', c.seller, c.p.start)
  {
    var c := r.states[m].calls[r.steps[m].call];
    hide Inserts, Invoiced, Next;
    InvoicedSinceCheck(r, m, r.steps[m].call, c.seller, c.p.start);
  }

  // ---- Totals -----------------------------------------------------------------------------------------------------------

  lemma {:induction false} FoundTotals(entries: seq<Entry>, found: set<nat>, id: InvoiceId, other: InvoiceId)
    requires forall i | 0 <= i < |entries| :: entries[i].invoice != Some(id)
    requires forall n | n in found && n < |entries| :: entries[n].invoice.None?
    ensures AttachedTotal(AttachFound(entries, found, id), id) == TotalOf(entries, found)
    ensures other != id ==> AttachedTotal(AttachFound(entries, found, id), other) == AttachedTotal(entries, other)
  {
    if entries != [] {
      var init := entries[..|entries| - 1];
      FoundTotals(init, found, id, other);
      assert AttachFound(entries, found, id)[..|init|] == AttachFound(init, found, id);
    }
  }

  lemma CommitSound(y: State, call: CallId)
    requires Sound(y.books) && CallsFit(y) && Enabled(y, Commit(call))
    requires forall n | n in y.calls[call].found :: n < |y.books.entries| && y.books.entries[n].invoice.None?
    ensures Sound(Next(y, Commit(call)).books)
  {
    hide AttachedTotal, TotalOf;
    var b, b', c := y.books, Next(y, Commit(call)).books, y.calls[call];
    assert FoundFits(b, c);
    var id := |b.invoices|;
    forall i | 0 <= i < |b.entries| ensures b.entries[i].invoice != Some(id) { assert WellAttached(b.entries[i], b.invoices); }
    forall other | 0 <= other <= id { FoundTotals(b.entries, c.found, id, other); }
    forall i | 0 <= i < |b'.entries| ensures WellAttached(b'.entries[i], b'.invoices) {
      assert WellAttached(b.entries[i], b.invoices);
    }
  }

  lemma OtherSound(y: State, step: Step)
    requires Sound(y.books) && Enabled(y, step) && !step.Commit?
    ensures Sound(Next(y, step).books)
  {
    hide PreviousCalendarMonth, Invoiced, GroupInvoiced, TotalOf;
    var b, b' := y.books, Next(y, step).books;
    if step.Post? { assert b'.entries[..|b.entries|] == b.entries; }
    forall i | 0 <= i < |b.entries| ensures WellAttached(b'.entries[i], b'.invoices) { assert WellAttached(b.entries[i], b.invoices); }
  }

  lemma EmptyIsSound()
    ensures Sound(Books([], []))
  {}

  /** As long as no turns share an entry, every commission invoice says what its entries come to. */
  lemma {:induction false} TotalsRightUnlessShared(r: Run, k: nat)
    requires IsRun(r) && k < |r.states| && forall m': nat, m: nat, n: nat | m < k :: !Shares(r, m', m, n)
    ensures Sound(r.states[k].books)
  {
    hide Sound, Next, Shares, CallsFit;
    if k == 0 {
      EmptyIsSound();
    } else {
      TotalsRightUnlessShared(r, k - 1);
      assert Taken(r, k - 1);
      var y, step := r.states[k - 1], r.steps[k - 1];
      if step.Commit? {
        FitsThroughout(r, k - 1);
        forall n | n in y.calls[step.call].found ensures n < |y.books.entries| && y.books.entries[n].invoice.None? {
          assert Bills(r, k - 1, n);
          RebilledExactly(r, k - 1, n);
        }
        CommitSound(y, step.call);
      } else {
        OtherSound(y, step);
      }
    }
  }

  /** What an invoice says, its status apart, never changes. */
  lemma {:induction false} InvoiceNeverChanges(r: Run, i: nat, j: nat, id: InvoiceId)
    requires IsRun(r) && i <= j < |r.states| && id < |r.states[i].books.invoices|
    ensures id < |r.states[j].books.invoices|
    ensures r.states[j].books.invoices[id] == r.states[i].books.invoices[id].(status := r.states[j].books.invoices[id].status)
  {
    hide Next, Enabled;
    if i < j {
      InvoiceNeverChanges(r, i, j - 1, id);
      assert Taken(r, j - 1);
      OneInvoiceMore(r.states[j - 1], r.steps[j - 1]);
    }
  }

  /**
   * So, unless turns share an entry, a commission invoice's total is at all times the sum of its
   * entries, and minus what they take from the seller's balance.
   */
  lemma TotalsStayRight(r: Run, i: nat, j: nat, id: InvoiceId)
    requires IsRun(r) && i <= j < |r.states| && id < |r.states[i].books.invoices| && r.states[i].books.invoices[id].kind == CommissionInvoice
    requires forall m': nat, m: nat, n: nat | m < j :: !Shares(r, m', m, n)
    ensures id < |r.states[j].books.invoices|
    ensures var b := r.states[j].books;
            b.invoices[id].total == r.states[i].books.invoices[id].total == AttachedTotal(b.entries, id) == 0 - AttachedContribution(b.entries, id)
  {
    InvoiceNeverChanges(r, i, j, id);
    TotalsRightUnlessShared(r, j);
    TotalIsMinusContribution(r.states[j].books.entries, r.states[j].books.invoices, id);
  }

  // ---- Two runs at once ---------------------------------------------------------------------------------------------------

  function Last(r: Run): State
    requires r.states != []
  {
    r.states[|r.states| - 1]
  }

  lemma Extend(r: Run, step: Step) returns (r': Run)
    requires IsRun(r) && Enabled(Last(r), step)
    ensures IsRun(r') && Last(r') == Next(Last(r), step) && r'.steps == r.steps + [step]
  {
    hide Next, Enabled;
    r' := Run(r.states + [Next(Last(r), step)], r.steps + [step]);
    forall k: nat | k < |r'.steps| ensures Taken(r', k) {
      if k < |r.steps| { assert Taken(r, k); }
    }
  }

  lemma BothCheck(e: Entry, now: int, graceDays: nat) returns (r: Run)
    requires Collectable(e, e.seller, PreviousCalendarMonth(now))
    ensures IsRun(r)
    ensures var c := Checked(e.seller, PreviousCalendarMonth(now), graceDays); Last(r) == State(Books([e], []), map[0 := c, 1 := c])
  {
    hide PreviousCalendarMonth;
    r := Run([State(Books([], []), map[])], []);
    r := Extend(r, Post(e));
    assert [] + [e] == [e];
    r := Extend(r, Check(0, e.seller, now, graceDays));
    r := Extend(r, Check(1, e.seller, now, graceDays));
  }

  lemma OneLoose(e: Entry, p: Period)
    requires Collectable(e, e.seller, p)
    ensures Loose([e], e.seller, p) == {0} && TotalOf([e], {0}) == e.amount
  {
    assert [e][..0] == [];
  }

  lemma BothRead(e: Entry, now: int, graceDays: nat) returns (r: Run)
    requires Collectable(e, e.seller, PreviousCalendarMonth(now))
    ensures IsRun(r)
    ensures var c := HasRead(e.seller, PreviousCalendarMonth(now), graceDays, {0}, e.amount); Last(r) == State(Books([e], []), map[0 := c, 1 := c])
  {
    r := BothCheck(e, now, graceDays);
    OneLoose(e, PreviousCalendarMonth(now));
    Reads(Last(r), 0);
    hide PreviousCalendarMonth, IsRun, Next, Enabled, Loose, TotalOf;
    r := Extend(r, Read(0));
    Reads(Last(r), 1);
    r := Extend(r, Read(1));
  }

  lemma AttachOnly(e: Entry, id: InvoiceId)
    ensures AttachFound([e], {0}, id) == [e.(invoice := Some(id))]
  {}

  lemma CommitsFirst(y: State, e: Entry, c: Call)
    requires c.HasRead? && c.found == {0} && y == State(Books([e], []), map[0 := c, 1 := c])
    ensures Enabled(y, Commit(0)) && Next(y, Commit(0)) == State(Books([e.(invoice := Some(0))], [InvoiceOf(c)]), map[0 := Done, 1 := c])
  {
    AttachOnly(e, 0);
    Commits(y, 0);
    hide Next, Enabled, AttachFound, InvoiceOf;
    assert [] + [InvoiceOf(c)] == [InvoiceOf(c)];
  }

  lemma CommitsSecond(y: State, e: Entry, c: Call, first: Invoice)
    requires c.HasRead? && c.found == {0} && y == State(Books([e], [first]), map[0 := Done, 1 := c])
    ensures Enabled(y, Commit(1)) && Next(y, Commit(1)).books == Books([e.(invoice := Some(1))], [first, InvoiceOf(c)])
  {
    AttachOnly(e, 1);
    Commits(y, 1);
    hide Next, Enabled, AttachFound, InvoiceOf;
    assert [first] + [InvoiceOf(c)] == [first, InvoiceOf(c)];
  }

  lemma FirstCommits(e: Entry, now: int, graceDays: nat) returns (r: Run)
    requires Collectable(e, e.seller, PreviousCalendarMonth(now))
    ensures IsRun(r)
    ensures var c := HasRead(e.seller, PreviousCalendarMonth(now), graceDays, {0}, e.amount);
            Last(r) == State(Books([e.(invoice := Some(0))], [InvoiceOf(c)]), map[0 := Done, 1 := c])
  {
    r := BothRead(e, now, graceDays);
    CommitsFirst(Last(r), e, HasRead(e.seller, PreviousCalendarMonth(now), graceDays, {0}, e.amount));
    hide PreviousCalendarMonth, IsRun, Next, Enabled, InvoiceOf;
    r := Extend(r, Commit(0));
  }

  /**
   * Two overlapping runs bill one commission entry twice: two invoices ask for it, and it is on
   * the second only, so that the first asks for an entry it no longer has.
   */
  lemma OverlapBillsTwice(e: Entry, now: int, graceDays: nat) returns (r: Run)
    requires Collectable(e, e.seller, PreviousCalendarMonth(now))
    ensures IsRun(r)
    ensures var b := Last(r).books;
            && |b.invoices| == 2 && b.invoices[0] == b.invoices[1] && b.invoices[0].seller == e.seller && b.invoices[0].total == e.amount
            && b.entries == [e.(invoice := Some(1))] && AttachedTotal(b.entries, 0) == 0
  {
    var c := HasRead(e.seller, PreviousCalendarMonth(now), graceDays, {0}, e.amount);
    r := FirstCommits(e, now, graceDays);
    CommitsSecond(Last(r), e.(invoice := Some(0)), c, InvoiceOf(c));
    hide PreviousCalendarMonth, IsRun, Next, Enabled;
    r := Extend(r, Commit(1));
    assert Last(r).books.entries[..0] == [];
  }
}
