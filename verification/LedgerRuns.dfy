/**
 * The ledger under concurrent transactions. `postLedgerEntry` runs inside its caller's
 * transaction: the insert and the `balance = balance + delta` stay invisible until the commit,
 * and the updated balance row stays locked. Some services insert ledger rows directly.
 */
module LedgerRuns {
  import opened Common
  import opened Ledger

  type TxnId = nat

  /** `working` holds the balance rows this transaction has updated but not committed. */
  datatype Txn = Open(pending: seq<Entry>, working: Balances) | Done

  datatype State = State(entries: seq<Entry>, balances: Balances, locks: map<SellerId, TxnId>, txns: map<TxnId, Txn>)

  datatype Step =
    | Begin(id: TxnId)
    | Post(id: TxnId, e: Entry)
    | Commit(id: TxnId)
    | Abort(id: TxnId)
    /** `postRefund` and the discount chargeback: an insert that bypasses `postLedgerEntry`. */
    | InsertDirectly(e: Entry)

  predicate IsOpen(y: State, id: TxnId) { id in y.txns && y.txns[id].Open? }

  /** `rowLocks` is what the database's UPDATE gives: a second writer waits for the first to finish. */
  predicate Enabled(rowLocks: bool, y: State, step: Step) {
    match step
    case Begin(id) => id !in y.txns
    case Post(id, e) => IsOpen(y, id) && (rowLocks && e.seller in y.locks ==> y.locks[e.seller] == id)
    case Commit(id) => IsOpen(y, id)
    case Abort(id) => IsOpen(y, id)
    case InsertDirectly(_) => true
  }

  function Unlock(locks: map<SellerId, TxnId>, id: TxnId): map<SellerId, TxnId> { map s | s in locks && locks[s] != id :: locks[s] }

  function Next(y: State, step: Step): State
    requires Enabled(false, y, step)
  {
    match step
    case Begin(id) => y.(txns := y.txns[id := Open([], map[])])
    case Post(id, e) =>
      var t := y.txns[id];
      var balance := if e.seller in t.working then t.working[e.seller] else Cached(y.balances, e.seller);
      var t' := Open(t.pending + [e], t.working[e.seller := balance + SignedContribution(e.kind, e.amount)]);
      y.(locks := y.locks[e.seller := id], txns := y.txns[id := t'])
    case Commit(id) =>
      var t := y.txns[id];
      State(y.entries + t.pending, y.balances + t.working, Unlock(y.locks, id), y.txns[id := Done])
    case Abort(id) => y.(locks := Unlock(y.locks, id), txns := y.txns[id := Done])
    case InsertDirectly(e) => y.(entries := y.entries + [e])
  }

  /** With nothing in between, a transaction of one post is `postLedgerEntry`: entry and balance, and its lock is gone. */
  lemma UndisturbedPost(y: State, id: TxnId, e: Entry) returns (y1: State, y2: State, y3: State)
    requires id !in y.txns && e.seller !in y.locks && forall s | s in y.locks :: y.locks[s] != id
    ensures Enabled(true, y, Begin(id)) && y1 == Next(y, Begin(id))
    ensures Enabled(true, y1, Post(id, e)) && y2 == Next(y1, Post(id, e))
    ensures Enabled(true, y2, Commit(id)) && y3 == Next(y2, Commit(id))
    ensures y3.entries == y.entries + [e] && y3.locks == y.locks && y3.txns == y.txns[id := Done]
    ensures forall s :: Cached(y3.balances, s) == Cached(y.balances, s) + ContributionTo(e, s)
  {
    hide SignedContribution;
    y1 := Next(y, Begin(id));
    y2 := Next(y1, Post(id, e));
    y3 := Next(y2, Commit(id));
    assert y1.txns[id].working == map[];
    assert y2.txns[id].pending == [e];
  }

  // ---- The invariant --------------------------------------------------------------------------------

  /** An open transaction's copy of a balance row is the committed one plus what it has posted. */
  ghost predicate WorkingAgrees(y: State, id: TxnId)
    requires IsOpen(y, id)
  {
    var t := y.txns[id];
    && (forall s | s in t.working :: s in y.locks && y.locks[s] == id && t.working[s] == Cached(y.balances, s) + LedgerBalance(t.pending, s))
    && (forall s | s !in t.working :: LedgerBalance(t.pending, s) == 0)
  }

  ghost predicate Agrees(y: State) { forall id | IsOpen(y, id) :: WorkingAgrees(y, id) }

  lemma BalanceOne(pending: seq<Entry>, e: Entry, s: SellerId)
    ensures LedgerBalance(pending + [e], s) == LedgerBalance(pending, s) + ContributionTo(e, s)
  {
    assert (pending + [e])[..|pending|] == pending;
  }

  lemma PostAgrees(y: State, step: Step)
    requires step.Post? && Agrees(y) && Enabled(true, y, step)
    ensures Agrees(Next(y, step))
  {
    hide LedgerBalance, SignedContribution;
    var y' := Next(y, step);
    assert WorkingAgrees(y, step.id);
    forall id | IsOpen(y', id) ensures WorkingAgrees(y', id) {
      if id == step.id {
        forall s { BalanceOne(y.txns[id].pending, step.e, s); }
      } else {
        assert WorkingAgrees(y, id);
      }
    }
  }

  /** Two open transactions never hold the same row, so a commit leaves the others' copies right. */
  lemma AgreesStep(y: State, step: Step)
    requires Agrees(y) && Enabled(true, y, step)
    ensures Agrees(Next(y, step))
  {
    hide LedgerBalance;
    if step.Post? {
      PostAgrees(y, step);
    } else {
      var y' := Next(y, step);
      forall id | IsOpen(y', id) ensures WorkingAgrees(y', id) {
        if step.Begin? && id == step.id {
          forall s: SellerId { EmptyLedger(s); }
        } else {
          assert IsOpen(y, id) && WorkingAgrees(y, id);
          if step.Commit? { assert WorkingAgrees(y, step.id); }
        }
      }
    }
  }

  lemma EmptyLedger(s: SellerId)
    ensures LedgerBalance([], s) == 0
  {}

  // ---- Runs -------------------------------------------------------------------------------------------

  datatype Run = Run(states: seq<State>, steps: seq<Step>)

  ghost predicate Taken(rowLocks: bool, r: Run, k: nat)
    requires |r.states| == |r.steps| + 1 && k < |r.steps|
  {
    Enabled(rowLocks, r.states[k], r.steps[k]) && Enabled(false, r.states[k], r.steps[k]) && r.states[k + 1] == Next(r.states[k], r.steps[k])
  }

  ghost predicate IsRun(rowLocks: bool, r: Run) {
    && |r.states| == |r.steps| + 1
    && r.states[0].txns == map[] && r.states[0].locks == map[]
    && forall k: nat | k < |r.steps| :: Taken(rowLocks, r, k)
  }

  /** What the direct inserts among the first `k` steps added to the seller's ledger. */
  function InsertedDirectly(steps: seq<Step>, seller: SellerId, k: nat): int
    requires k <= |steps|
  {
    if k == 0 then 0
    else InsertedDirectly(steps, seller, k - 1) + if steps[k - 1].InsertDirectly? then ContributionTo(steps[k - 1].e, seller) else 0
  }

  lemma {:induction false} AgreesThroughout(r: Run, k: nat)
    requires IsRun(true, r) && k < |r.states|
    ensures Agrees(r.states[k])
  {
    hide Next, Enabled;
    if k > 0 {
      AgreesThroughout(r, k - 1);
      assert Taken(true, r, k - 1);
      AgreesStep(r.states[k - 1], r.steps[k - 1]);
    }
  }

  lemma DriftStep(y: State, step: Step, seller: SellerId)
    requires Agrees(y) && Enabled(true, y, step)
    ensures var y' := Next(y, step);
            Drift(y'.balances, y'.entries, seller) ==
            Drift(y.balances, y.entries, seller) - if step.InsertDirectly? then ContributionTo(step.e, seller) else 0
  {
    hide LedgerBalance, ContributionTo;
    match step
    case Commit(id) =>
      assert WorkingAgrees(y, id);
      BalanceAppend(y.entries, y.txns[id].pending, seller);
    case InsertDirectly(e) => BalanceOne(y.entries, e, seller);
    case _ =>
  }

  /**
   * In every run of interleaved transactions the cached balance falls short of the ledger by
   * exactly what was inserted around `postLedgerEntry`, and by nothing else.
   */
  lemma {:induction false} DriftIsWhatBypassed(r: Run, k: nat, seller: SellerId)
    requires IsRun(true, r) && k < |r.states|
    ensures Drift(r.states[k].balances, r.states[k].entries, seller) ==
            Drift(r.states[0].balances, r.states[0].entries, seller) - InsertedDirectly(r.steps, seller, k)
  {
    hide Next, Enabled, Drift;
    if k > 0 {
      DriftIsWhatBypassed(r, k - 1, seller);
      AgreesThroughout(r, k - 1);
      assert Taken(true, r, k - 1);
      DriftStep(r.states[k - 1], r.steps[k - 1], seller);
    }
  }

  /** From an empty database, the sweep reports a seller if and only if the bypassing inserts do not cancel out. */
  lemma ReportedExactly(r: Run, k: nat, sellers: set<SellerId>, seller: SellerId)
    requires IsRun(true, r) && k < |r.states| && r.states[0].entries == [] && r.states[0].balances == map[]
    ensures seller in Drifters(r.states[k].balances, r.states[k].entries, sellers) <==>
            seller in sellers && InsertedDirectly(r.steps, seller, k) != 0
  {
    DriftIsWhatBypassed(r, k, seller);
  }

  /**
   * The sweep reads the cache at one moment (i) and the ledger at another (j), in either order.
   * Without bypassing inserts it still raises a false alarm exactly when the balance moved in
   * between.
   */
  lemma TornReadAlarm(r: Run, i: nat, j: nat, seller: SellerId)
    requires IsRun(true, r) && i < |r.states| && j < |r.states| && r.states[0].entries == [] && r.states[0].balances == map[]
    requires forall k | 0 <= k < |r.steps| :: !r.steps[k].InsertDirectly?
    ensures Cached(r.states[i].balances, seller) - LedgerBalance(r.states[j].entries, seller) != 0 <==>
            LedgerBalance(r.states[i].entries, seller) != LedgerBalance(r.states[j].entries, seller)
  {
    DriftIsWhatBypassed(r, i, seller);
    DriftIsWhatBypassed(r, j, seller);
    NothingBypassed(r.steps, seller, i);
    NothingBypassed(r.steps, seller, j);
  }

  lemma {:induction false} NothingBypassed(steps: seq<Step>, seller: SellerId, k: nat)
    requires k <= |steps| && forall j | 0 <= j < |steps| :: !steps[j].InsertDirectly?
    ensures InsertedDirectly(steps, seller, k) == 0
  {
    if k > 0 { NothingBypassed(steps, seller, k - 1); }
  }

  // ---- Runs that fail ------------------------------------------------------------------------

  function Last(r: Run): State
    requires r.states != []
  {
    r.states[|r.states| - 1]
  }

  lemma LocksOnlyRefuse(rowLocks: bool, y: State, step: Step)
    requires Enabled(rowLocks, y, step)
    ensures Enabled(false, y, step)
  {}

  lemma Extend(rowLocks: bool, r: Run, step: Step) returns (r': Run)
    requires IsRun(rowLocks, r) && Enabled(rowLocks, Last(r), step)
    ensures IsRun(rowLocks, r') && r'.states[0] == r.states[0] && r'.steps == r.steps + [step] && Last(r') == Next(Last(r), step)
  {
    LocksOnlyRefuse(rowLocks, Last(r), step);
    hide Next, Enabled;
    r' := Run(r.states + [Next(Last(r), step)], r.steps + [step]);
    forall k: nat | k < |r'.steps| ensures Taken(rowLocks, r', k) {
      if k < |r.steps| { assert Taken(rowLocks, r, k); }
    }
  }

  /** Nothing makes the second writer wait, so both work from a balance of zero. */
  lemma BothPost(seller: SellerId, e: Entry) returns (r: Run)
    requires e.seller == seller
    ensures IsRun(false, r) && r.states[0] == State([], map[], map[], map[])
    ensures forall k | 0 <= k < |r.steps| :: !r.steps[k].InsertDirectly?
    ensures Last(r).entries == [] && Last(r).balances == map[] && IsOpen(Last(r), 0) && IsOpen(Last(r), 1)
    ensures Last(r).txns[0] == Last(r).txns[1] == Open([e], map[seller := SignedContribution(e.kind, e.amount)])
  {
    hide SignedContribution;
    r := Run([State([], map[], map[], map[])], []);
    r := Extend(false, r, Begin(0));
    r := Extend(false, r, Begin(1));
    r := Extend(false, r, Post(0, e));
    r := Extend(false, r, Post(1, e));
    assert [] + [e] == [e];
  }

  /** If a balance could be read and written back without the lock, one of two credits would be lost. */
  lemma WithoutTheLockAnUpdateIsLost(seller: SellerId, amount: int) returns (r: Run)
    requires amount != 0
    ensures IsRun(false, r) && r.states[0] == State([], map[], map[], map[])
    ensures forall k | 0 <= k < |r.steps| :: !r.steps[k].InsertDirectly?
    ensures Drift(Last(r).balances, Last(r).entries, seller) == -amount
  {
    hide LedgerBalance;
    var e := Entry(seller, WalletTopupCredit, amount, 0, None, None);
    r := BothPost(seller, e);
    r := Extend(false, r, Commit(0));
    r := Extend(false, r, Commit(1));
    assert Last(r).entries == ([] + [e]) + [e] && Cached(Last(r).balances, seller) == amount;
    BalanceOne([], e, seller);
    BalanceOne([] + [e], e, seller);
    EmptyLedger(seller);
  }

  /** One entry inserted around `postLedgerEntry`, whatever it is, has its seller reported as drifted. */
  lemma DirectInsertIsReported(e: Entry) returns (r: Run)
    requires SignedContribution(e.kind, e.amount) != 0
    ensures IsRun(true, r) && r.states[0] == State([], map[], map[], map[]) && r.steps == [InsertDirectly(e)]
    ensures e.seller in Drifters(Last(r).balances, Last(r).entries, {e.seller})
  {
    r := Run([State([], map[], map[], map[])], []);
    r := Extend(true, r, InsertDirectly(e));
    assert InsertedDirectly(r.steps, e.seller, 1) == InsertedDirectly(r.steps, e.seller, 0) + ContributionTo(e, e.seller);
    ReportedExactly(r, 1, {e.seller}, e.seller);
  }

  lemma StartsInStep(seller: SellerId)
    ensures Drift(map[], [], seller) == 0
  {}

  /**
   * A top-up that commits between the sweep's two reads: the cache never drifts, and the sweep
   * still finds the seller short by the whole amount.
   */
  lemma TopUpRaisesFalseAlarm(seller: SellerId, amount: int) returns (r: Run)
    requires amount != 0
    ensures IsRun(true, r) && r.states[0] == State([], map[], map[], map[])
    ensures forall k | 0 <= k < |r.states| :: Drift(r.states[k].balances, r.states[k].entries, seller) == 0
    ensures Cached(r.states[0].balances, seller) - LedgerBalance(Last(r).entries, seller) == -amount
  {
    var e := Entry(seller, WalletTopupCredit, amount, 0, None, None);
    hide LedgerBalance, Drift;
    r := Run([State([], map[], map[], map[])], []);
    r := Extend(true, r, Begin(0));
    r := Extend(true, r, Post(0, e));
    r := Extend(true, r, Commit(0));
    assert Last(r).entries == [] + [e];
    BalanceOne([], e, seller);
    EmptyLedger(seller);
    StartsInStep(seller);
    forall k | 0 <= k < |r.states| ensures Drift(r.states[k].balances, r.states[k].entries, seller) == 0 {
      DriftIsWhatBypassed(r, k, seller);
      NothingBypassed(r.steps, seller, k);
    }
  }
}
