/**
 * supplier-wallet.service.ts and the supplier half of plan-fee-debit.service.ts: a supplier's
 * balance is the sum of its ledger entries, and the debit that pays the plan fee is one
 * transaction of the lock-guarded protocol.
 */
module SupplierWallet {
  import opened Common
  import opened Calendar
  import opened GuardedInserts

  type SupplierId = nat
  type TopUpId = nat

  datatype EntryType = TopUpCredit | PlanFeeDebit

  datatype Entry = Entry(supplier: SupplierId, kind: EntryType, amount: nat)

  /** Sellers' requests live in the same table. */
  datatype Owner = SupplierOwner(supplier: SupplierId) | SellerOwner

  datatype TopUpStatus = Pending | Verified | Rejected

  datatype TopUp = TopUp(owner: Owner, amount: nat, status: TopUpStatus)

  datatype Subscription = Subscription(price: int, interval: Interval, periodEnd: Option<int>)

  datatype Failure = NonPositiveAmount | NotFound | AlreadyResolved | NotASupplierRequest

  function SignedContribution(kind: EntryType, amount: nat): int {
    if kind == TopUpCredit then amount else 0 - amount
  }

  function SumEntries(entries: seq<Entry>, supplier: SupplierId): int {
    if entries == [] then 0
    else
      var last := entries[|entries| - 1];
      SumEntries(entries[..|entries| - 1], supplier) +
      if last.supplier == supplier then SignedContribution(last.kind, last.amount) else 0
  }

  /** A plain sum: a top-up adds its amount to its own supplier's balance, a plan fee takes its amount from it. */
  lemma SumAppend(entries: seq<Entry>, e: Entry, supplier: SupplierId)
    ensures SumEntries(entries + [e], supplier) ==
            SumEntries(entries, supplier) + if e.supplier != supplier then 0 else if e.kind == TopUpCredit then e.amount else 0 - e.amount
    ensures SumEntries([], supplier) == 0
  {
    assert (entries + [e])[..|entries|] == entries;
  }

  // ---- The service ------------------------------------------------------------------------------

  /** The supplier pays in this sweep: due, on a paid plan, and able to afford it. */
  predicate Pays(entries: seq<Entry>, s: Subscription, supplier: SupplierId, now: int) {
    s.periodEnd.Some? && s.periodEnd.value <= now && 0 < s.price <= SumEntries(entries, supplier)
  }

  function DueSuppliers(subscriptions: map<SupplierId, Subscription>, now: int): set<SupplierId> {
    set id | id in subscriptions && subscriptions[id].periodEnd.Some? && subscriptions[id].periodEnd.value <= now
  }

  class SupplierWalletService {
    var entries: seq<Entry>
    var topUps: map<TopUpId, TopUp>
    var subscriptions: map<SupplierId, Subscription>

    constructor ()
      ensures entries == [] && topUps == map[] && subscriptions == map[]
    {
      entries, topUps, subscriptions := [], map[], map[];
    }

    /** The decision and the insert; the row lock is what lets them be one step. */
    method DebitIfSufficientBalance(supplier: SupplierId, amount: nat) returns (ok: bool)
      modifies `entries
      ensures ok <==> amount <= old(SumEntries(entries, supplier))
      ensures entries == if ok then old(entries) + [Entry(supplier, PlanFeeDebit, amount)] else old(entries)
      ensures SumEntries(entries, supplier) == old(SumEntries(entries, supplier)) - if ok then amount else 0
    {
      var balance := SumEntries(entries, supplier);
      if balance < amount { return false; }
      SumAppend(entries, Entry(supplier, PlanFeeDebit, amount), supplier);
      entries := entries + [Entry(supplier, PlanFeeDebit, amount)];
      return true;
    }

    method RequestTopUp(id: TopUpId, supplier: SupplierId, amount: int) returns (r: Result<TopUpId, Failure>)
      requires id !in topUps
      modifies `topUps
      ensures r == if amount <= 0 then Err(NonPositiveAmount) else Ok(id)
      ensures r.Err? ==> topUps == old(topUps)
      ensures r.Ok? ==> topUps == old(topUps)[id := TopUp(SupplierOwner(supplier), amount, Pending)]
    {
      if amount <= 0 { return Err(NonPositiveAmount); }
      topUps := topUps[id := TopUp(SupplierOwner(supplier), amount, Pending)];
      return Ok(id);
    }

    /** A request is credited at most once: verifying it leaves nothing pending to verify again. */
    method VerifyTopUp(id: TopUpId) returns (r: Result<SupplierId, Failure>)
      modifies `topUps, `entries
      ensures r.Ok? <==> id in old(topUps) && old(topUps)[id].status == Pending && old(topUps)[id].owner.SupplierOwner?
      ensures r.Err? ==> topUps == old(topUps) && entries == old(entries)
      ensures r.Err? ==> r.error == if id !in topUps then NotFound
                                    else if topUps[id].status != Pending then AlreadyResolved else NotASupplierRequest
      ensures r.Ok? ==> topUps == old(topUps)[id := old(topUps)[id].(status := Verified)]
      ensures r.Ok? ==> r.value == old(topUps)[id].owner.supplier
      ensures r.Ok? ==> SumEntries(entries, r.value) == old(SumEntries(entries, topUps[id].owner.supplier) + topUps[id].amount)
      ensures r.Ok? ==> forall other | other != r.value :: SumEntries(entries, other) == old(SumEntries(entries, other))
    {
      if id !in topUps { return Err(NotFound); }
      var request := topUps[id];
      if request.status != Pending { return Err(AlreadyResolved); }
      if !request.owner.SupplierOwner? { return Err(NotASupplierRequest); }
      topUps := topUps[id := request.(status := Verified)];
      var credit := Entry(request.owner.supplier, TopUpCredit, request.amount);
      forall supplier: SupplierId { SumAppend(entries, credit, supplier); }
      entries := entries + [credit];
      return Ok(request.owner.supplier);
    }

    /**
     * One sweep by itself: who can pay is debited once and moved on by one interval from the
     * period's own end, and everyone else, however overdue, is left exactly as before.
     */
    method DebitDueSupplierPlanFees(now: int, due: seq<SupplierId>) returns (debited: nat)
      requires Lists(due, DueSuppliers(subscriptions, now))
      modifies `entries, `subscriptions
      ensures Swept(old(entries), old(subscriptions), entries, subscriptions, Payers(old(entries), old(subscriptions), now))
      ensures debited == |entries| - |old(entries)| == |Payers(old(entries), old(subscriptions), now)|
      ensures forall id | id in old(subscriptions) ::
                var s, balance := old(subscriptions)[id], SumEntries(old(entries), id);
                id in subscriptions &&
                if s.periodEnd.Some? && s.periodEnd.value <= now && 0 < s.price <= balance
                then subscriptions[id] == s.(periodEnd := Some(AddInterval(s.periodEnd.value, s.interval))) && SumEntries(entries, id) == balance - s.price
                else subscriptions[id] == s && SumEntries(entries, id) == balance
    {
      hide AddInterval, SumEntries, Swept, Payers, Moved, Lists;
      debited := 0;
      ghost var wasEntries := entries;
      var was := subscriptions;
      ghost var payers := Payers(wasEntries, was, now);
      ghost var paid: set<SupplierId> := {};
      SweepStart(wasEntries, was, now, due);
      for i := 0 to |due|
        invariant paid == Elements(due[..i]) * payers
        invariant debited == |paid| == |entries| - |wasEntries|
        invariant Swept(wasEntries, was, entries, subscriptions, paid)
      {
        var supplier := due[i];
        NextDue(wasEntries, was, now, due, i);
        var row := was[supplier];
        if row.price <= 0 { continue; }
        SweptBalance(wasEntries, was, entries, subscriptions, paid, supplier);
        ghost var before, beforeRows := entries, subscriptions;
        var ok := DebitIfSufficientBalance(supplier, row.price);
        if ok {
          subscriptions := subscriptions[supplier := Moved(row)];
          debited := debited + 1;
          SweptStep(wasEntries, was, before, beforeRows, paid, supplier);
          paid := paid + {supplier};
        }
      }
      assert due[..|due|] == due;
      SweptInNumbers(wasEntries, was, entries, subscriptions, now);
    }
  }

  lemma SweptInNumbers(was: seq<Entry>, wasRows: map<SupplierId, Subscription>, entries: seq<Entry>, rows: map<SupplierId, Subscription>, now: int)
    requires Swept(was, wasRows, entries, rows, Payers(was, wasRows, now))
    ensures forall id | id in wasRows ::
              var s, balance := wasRows[id], SumEntries(was, id);
              id in rows &&
              if s.periodEnd.Some? && s.periodEnd.value <= now && 0 < s.price <= balance
              then rows[id] == s.(periodEnd := Some(AddInterval(s.periodEnd.value, s.interval))) && SumEntries(entries, id) == balance - s.price
              else rows[id] == s && SumEntries(entries, id) == balance
  {
    hide AddInterval, SumEntries;
  }

  function Moved(row: Subscription): Subscription
    requires row.periodEnd.Some?
  {
    row.(periodEnd := Some(AddInterval(row.periodEnd.value, row.interval)))
  }

  function Payers(entries: seq<Entry>, subscriptions: map<SupplierId, Subscription>, now: int): set<SupplierId> {
    set id | id in subscriptions && Pays(entries, subscriptions[id], id, now)
  }

  /** Exactly the suppliers in `paid` have been debited their fee and moved on. */
  predicate Swept(was: seq<Entry>, wasRows: map<SupplierId, Subscription>, entries: seq<Entry>, rows: map<SupplierId, Subscription>,
      paid: set<SupplierId>)
  {
    && rows.Keys == wasRows.Keys
    && forall id | id in wasRows ::
         if id in paid then
           && wasRows[id].periodEnd.Some? && rows[id] == Moved(wasRows[id])
           && SumEntries(entries, id) == SumEntries(was, id) - wasRows[id].price
         else
           rows[id] == wasRows[id] && SumEntries(entries, id) == SumEntries(was, id)
  }

  lemma SweepStart(was: seq<Entry>, wasRows: map<SupplierId, Subscription>, now: int, due: seq<SupplierId>)
    requires Lists(due, DueSuppliers(wasRows, now))
    ensures Swept(was, wasRows, was, wasRows, {})
    ensures Elements(due[..0]) == {} && Elements(due) * Payers(was, wasRows, now) == Payers(was, wasRows, now)
  {
    forall id | id in Payers(was, wasRows, now) ensures id in due { assert id in DueSuppliers(wasRows, now); }
  }

  lemma NextDue(was: seq<Entry>, wasRows: map<SupplierId, Subscription>, now: int, due: seq<SupplierId>, i: nat)
    requires Lists(due, DueSuppliers(wasRows, now)) && i < |due|
    ensures due[i] in wasRows && wasRows[due[i]].periodEnd.Some?
    ensures due[i] in Payers(was, wasRows, now) <==> 0 < wasRows[due[i]].price <= SumEntries(was, due[i])
    ensures due[i] !in Elements(due[..i]) && Elements(due[..i + 1]) == Elements(due[..i]) + {due[i]}
  {
    assert due[i] in due && due[i] in DueSuppliers(wasRows, now);
    assert due[..i + 1] == due[..i] + [due[i]];
  }

  lemma SweptBalance(was: seq<Entry>, wasRows: map<SupplierId, Subscription>, entries: seq<Entry>, rows: map<SupplierId, Subscription>,
      paid: set<SupplierId>, supplier: SupplierId)
    requires Swept(was, wasRows, entries, rows, paid) && supplier in wasRows && supplier !in paid
    ensures SumEntries(entries, supplier) == SumEntries(was, supplier) && rows.Keys == wasRows.Keys
  {}

  lemma SweptStep(was: seq<Entry>, wasRows: map<SupplierId, Subscription>, entries: seq<Entry>, rows: map<SupplierId, Subscription>,
      paid: set<SupplierId>, supplier: SupplierId)
    requires Swept(was, wasRows, entries, rows, paid) && supplier in wasRows && supplier !in paid
    requires wasRows[supplier].periodEnd.Some? && wasRows[supplier].price > 0
    ensures Swept(was, wasRows, entries + [Entry(supplier, PlanFeeDebit, wasRows[supplier].price)],
                  rows[supplier := Moved(wasRows[supplier])], paid + {supplier})
  {
    hide AddInterval, SumEntries;
    forall id: SupplierId { SumAppend(entries, Entry(supplier, PlanFeeDebit, wasRows[supplier].price), id); }
  }

  // ---- Refinement of the protocol ----------------------------------------------------------------

  /** The supplier's entries as the protocol sees them; every check adds up all of them. */
  function Rows(entries: seq<Entry>, supplier: SupplierId): seq<Row> {
    if entries == [] then []
    else
      var last := entries[|entries| - 1];
      Rows(entries[..|entries| - 1], supplier) +
      if last.supplier == supplier then [Row(SignedContribution(last.kind, last.amount), 0, 0)] else []
  }

  lemma {:induction false} BalanceIsHeadroom(entries: seq<Entry>, supplier: SupplierId)
    ensures SumEntries(entries, supplier) == Headroom(0, Rows(entries, supplier), 0)
  {
    if entries != [] {
      var init, last := entries[..|entries| - 1], entries[|entries| - 1];
      BalanceIsHeadroom(init, supplier);
      TotalAppend(Rows(init, supplier), Row(SignedContribution(last.kind, last.amount), 0, 0), 0, None);
      assert Rows(init, supplier) + [] == Rows(init, supplier);
    }
  }

  lemma AppendRow(entries: seq<Entry>, e: Entry)
    ensures Rows(entries + [e], e.supplier) == Rows(entries, e.supplier) + [Row(SignedContribution(e.kind, e.amount), 0, 0)]
  {
    assert (entries + [e])[..|entries|] == entries;
  }

  /** The protocol up to the decision, with nobody else about: what it counts is the balance. */
  function Decided(y: State, id: TxnId, amount: nat): State
    requires y.owner == None && id !in y.txns
  {
    var g := Guard(0, true);
    Next(g, Next(g, Next(g, Next(g, y, Begin(id, amount, 0, 0)), Lock(id)), Count(id)), Decide(id))
  }

  /** What `DebitIfSufficientBalance` does in one step is what an undisturbed transaction does in five. */
  lemma DebitIsOneTransaction(y: State, id: TxnId, entries: seq<Entry>, supplier: SupplierId, amount: nat)
    requires y.owner == None && id !in y.txns && y.rows == Rows(entries, supplier)
    ensures Enabled(Guard(0, true), Decided(y, id, amount), Commit(id)) <==> amount <= SumEntries(entries, supplier)
    ensures amount > SumEntries(entries, supplier) ==> Decided(y, id, amount) == y.(txns := y.txns[id := Refused])
    ensures amount <= SumEntries(entries, supplier) ==>
              var after := Next(Guard(0, true), Decided(y, id, amount), Commit(id));
              && after.rows == Rows(entries + [Entry(supplier, PlanFeeDebit, amount)], supplier)
              && after.owner == None && after.txns == y.txns[id := Committed] && after.advances == y.advances + 1
  {
    hide SumEntries, Headroom;
    BalanceIsHeadroom(entries, supplier);
    AppendRow(entries, Entry(supplier, PlanFeeDebit, amount));
    hide Rows;
    var g := Guard(0, true);
    var y1 := Next(g, y, Begin(id, amount, 0, 0));
    var y2 := Next(g, y1, Lock(id));
    var y3 := Next(g, y2, Count(id));
    assert y3.txns[id] == Counted(amount, 0, 0, Headroom(0, y.rows, 0));
    assert y3 == State(y.rows, Some(id), y.txns[id := y3.txns[id]], y.advances);
  }

  /**
   * No interleaving of debits and top-ups takes the balance below zero, and at every moment the
   * debits committed are as many as the period updates committed with them.
   */
  lemma SupplierNeverOverdrawn(r: Run, k: nat, entries: seq<Entry>, supplier: SupplierId)
    requires IsRun(Guard(0, true), r) && k < |r.states| && ChecksEverything(r, 0) && NoRaises(r)
    requires r.states[0].rows == Rows(entries, supplier) && 0 <= SumEntries(entries, supplier) && r.states[0].advances == 0
    ensures 0 <= Headroom(0, r.states[k].rows, 0)
    ensures |r.states[k].rows| - Credits(r.steps, k) - |Rows(entries, supplier)| == Commits(r.steps, k) == r.states[k].advances
  {
    BalanceIsHeadroom(entries, supplier);
    NeverOverdrawn(Guard(0, true), r, k, 0);
    PairedWrites(Guard(0, true), r, k);
  }

  // ---- Overlapping sweeps ---------------------------------------------------------------------------

  /** Where the transaction that commits at step `k` had its subscription row read: as its sweep began. */
  function ReadAt(steps: seq<Step>, id: TxnId, k: nat): (i: nat)
    requires k <= |steps|
    ensures i <= k
  {
    if k == 0 then 0
    else if steps[k - 1].Begin? && steps[k - 1].id == id then k - 1
    else ReadAt(steps, id, k - 1)
  }

  /** `currentPeriodEnd` after `k` steps: each commit writes one interval past the row its sweep read. */
  function PeriodEnd(steps: seq<Step>, start: int, interval: Interval, k: nat): int
    requires k <= |steps|
  {
    if k == 0 then start
    else if steps[k - 1].Commit? then AddInterval(PeriodEnd(steps, start, interval, ReadAt(steps, steps[k - 1].id, k - 1)), interval)
    else PeriodEnd(steps, start, interval, k - 1)
  }

  /** No debit committed between another debit's read of the row and its own commit. */
  predicate SweepsDoNotOverlap(steps: seq<Step>, k: nat)
    requires k <= |steps|
  {
    forall j, l | 0 <= l < k && steps[l].Commit? && ReadAt(steps, steps[l].id, l) <= j < l :: !steps[j].Commit?
  }

  function Level(steps: seq<Step>, k: nat): nat
    requires k <= |steps|
  {
    if k == 0 then 0
    else if steps[k - 1].Commit? then Level(steps, ReadAt(steps, steps[k - 1].id, k - 1)) + 1
    else Level(steps, k - 1)
  }

  lemma {:induction false} PeriodEndIsLevel(steps: seq<Step>, start: int, interval: Interval, k: nat)
    requires k <= |steps|
    ensures PeriodEnd(steps, start, interval, k) == Cycles(start, interval, Level(steps, k))
  {
    hide AddInterval;
    if k > 0 {
      PeriodEndIsLevel(steps, start, interval, if steps[k - 1].Commit? then ReadAt(steps, steps[k - 1].id, k - 1) else k - 1);
    }
  }

  lemma {:induction false} CommitsBetween(steps: seq<Step>, a: nat, b: nat)
    requires a <= b <= |steps|
    ensures Commits(steps, a) <= Commits(steps, b)
    ensures Commits(steps, a) == Commits(steps, b) <==> forall j | a <= j < b :: !steps[j].Commit?
  {
    if a < b { CommitsBetween(steps, a, b - 1); }
  }

  lemma {:induction false} LevelBound(steps: seq<Step>, k: nat)
    requires k <= |steps|
    ensures Level(steps, k) <= Commits(steps, k)
    ensures Level(steps, k) == Commits(steps, k) <==> SweepsDoNotOverlap(steps, k)
  {
    if k > 0 {
      LevelBound(steps, k - 1);
      if steps[k - 1].Commit? {
        var i := ReadAt(steps, steps[k - 1].id, k - 1);
        LevelBound(steps, i);
        CommitsBetween(steps, i, k - 1);
      }
    }
  }

  /**
   * The supplier has been granted exactly one period per fee taken if and only if no two sweeps
   * overlapped on its subscription: the debit re-reads the balance under the lock, but not the row.
   */
  lemma PeriodsGrantedExactly(r: Run, start: int, interval: Interval, k: nat)
    requires IsRun(Guard(0, true), r) && k <= |r.steps| && r.states[0].advances == 0
    ensures PeriodEnd(r.steps, start, interval, k) == Cycles(start, interval, r.states[k].advances) <==> SweepsDoNotOverlap(r.steps, k)
    ensures PeriodEnd(r.steps, start, interval, k) <= Cycles(start, interval, r.states[k].advances)
  {
    hide AddInterval, Cycles;
    PairedWrites(Guard(0, true), r, k);
    PeriodEndIsLevel(r.steps, start, interval, k);
    LevelBound(r.steps, k);
    if Level(r.steps, k) < Commits(r.steps, k) { CyclesIncrease(start, interval, Level(r.steps, k), Commits(r.steps, k)); }
  }

  lemma {:induction false} ReadAtBegin(steps: seq<Step>, id: TxnId, b: nat, k: nat)
    requires b < k <= |steps| && steps[b].Begin? && steps[b].id == id
    requires forall j | b < j < k :: !(steps[j].Begin? && steps[j].id == id)
    ensures ReadAt(steps, id, k) == b
  {
    if b < k - 1 { ReadAtBegin(steps, id, b, k - 1); }
  }

  lemma {:induction false} NoCommitsYet(steps: seq<Step>, start: int, interval: Interval, k: nat)
    requires k <= |steps| && forall j | 0 <= j < k :: !steps[j].Commit?
    ensures PeriodEnd(steps, start, interval, k) == start
  {
    if k > 0 { NoCommitsYet(steps, start, interval, k - 1); }
  }

  /** The debit of one sweep from the lock to the commit, with nobody else in the way. */
  lemma Debits(r: Run, id: TxnId, price: nat) returns (r': Run)
    requires IsRun(Guard(0, true), r) && Last(r).owner == None && id in Last(r).txns && Last(r).txns[id] == Waiting(price, 0, 0)
    requires price <= Headroom(0, Last(r).rows, 0)
    ensures IsRun(Guard(0, true), r') && r'.states[0] == r.states[0]
    ensures r'.steps == r.steps + [Lock(id), Count(id), Decide(id), Commit(id)]
    ensures Last(r').rows == Last(r).rows + [Row(0 - price, 0, 0)] && Last(r').owner == None && Last(r').advances == Last(r).advances + 1
    ensures Last(r').txns == Last(r).txns[id := Committed]
  {
    hide Headroom, IsRun;
    var g := Guard(0, true);
    r' := Extend(g, r, Lock(id));
    r' := Extend(g, r', Count(id));
    r' := Extend(g, r', Decide(id));
    r' := Extend(g, r', Commit(id));
  }

  lemma CanPayTwice(supplier: SupplierId, price: nat)
    ensures Headroom(0, Rows([Entry(supplier, TopUpCredit, 2 * price)], supplier), 0) == 2 * price
  {
    var entries := [Entry(supplier, TopUpCredit, 2 * price)];
    BalanceIsHeadroom(entries, supplier);
    SumAppend([], entries[0], supplier);
    assert [] + entries == entries;
  }

  /** Both sweeps have read the subscription. */
  lemma BothBegin(rows: seq<Row>, price: nat) returns (r: Run)
    ensures IsRun(Guard(0, true), r) && r.steps == [Begin(0, price, 0, 0), Begin(1, price, 0, 0)]
    ensures r.states[0] == State(rows, None, map[], 0)
    ensures Last(r) == State(rows, None, map[0 := Waiting(price, 0, 0), 1 := Waiting(price, 0, 0)], 0)
  {
    var g := Guard(0, true);
    r := Run([State(rows, None, map[], 0)], []);
    assert IsRun(g, r);
    hide IsRun;
    r := Extend(g, r, Begin(0, price, 0, 0));
    r := Extend(g, r, Begin(1, price, 0, 0));
  }

  /**
   * Two sweeps that both read the subscription before either debits it: a supplier who can pay
   * twice pays two fees, and is moved on by one period.
   */
  lemma TwoFeesForOnePeriod(supplier: SupplierId, price: nat, start: int, interval: Interval) returns (r: Run)
    requires price > 0
    ensures IsRun(Guard(0, true), r) && r.states[0].rows == Rows([Entry(supplier, TopUpCredit, 2 * price)], supplier) && r.states[0].advances == 0
    ensures Headroom(0, Last(r).rows, 0) == 0 && Last(r).advances == 2
    ensures PeriodEnd(r.steps, start, interval, |r.steps|) == Cycles(start, interval, 1)
  {
    CanPayTwice(supplier, price);
    var fee := Row(0 - price, 0, 0);
    r := BothBegin(Rows([Entry(supplier, TopUpCredit, 2 * price)], supplier), price);
    hide Rows, Total, AddInterval, IsRun;
    TotalAppend(Last(r).rows, fee, 0, None);
    r := Debits(r, 0, price);
    TotalAppend(Last(r).rows, fee, 0, None);
    r := Debits(r, 1, price);
    OnePeriod(r.steps, price, start, interval);
  }

  lemma OnePeriod(steps: seq<Step>, price: nat, start: int, interval: Interval)
    requires steps == [Begin(0, price, 0, 0), Begin(1, price, 0, 0)] + [Lock(0), Count(0), Decide(0), Commit(0)] + [Lock(1), Count(1), Decide(1), Commit(1)]
    ensures PeriodEnd(steps, start, interval, |steps|) == Cycles(start, interval, 1)
  {
    hide AddInterval;
    ReadAtBegin(steps, 1, 1, 9);
    NoCommitsYet(steps, start, interval, 1);
    assert Cycles(start, interval, 1) == AddInterval(Cycles(start, interval, 0), interval);
  }
}
