/**
 * A supplier's top-ups with other calls beside them: the look at the request and the transaction
 * that decides it are separate, and nothing in the transaction looks at the status again.
 */
module SupplierTopUps {
  import opened Common
  import opened SupplierWallet

  type CallId = nat

  /** `calls` are the decisions under way: each has found its request pending. */
  datatype State = State(topUps: map<TopUpId, TopUp>, entries: seq<Entry>, calls: map<CallId, TopUpId>)

  datatype Step =
    | Request(id: TopUpId, owner: Owner, amount: nat)
    | LookUp(call: CallId, id: TopUpId)
    | Verify(call: CallId)
    | Reject(call: CallId)
    | Debit(supplier: SupplierId, amount: nat)

  predicate Enabled(y: State, step: Step) {
    match step
    case Request(id, _, amount) => id !in y.topUps && amount > 0
    case LookUp(call, id) => call !in y.calls && id in y.topUps && y.topUps[id].status == Pending
    case Verify(call) => call in y.calls && y.calls[call] in y.topUps && y.topUps[y.calls[call]].owner.SupplierOwner?
    case Reject(call) => call in y.calls && y.calls[call] in y.topUps
    case Debit(supplier, amount) => amount <= SumEntries(y.entries, supplier)
  }

  function Credit(t: TopUp): Entry
    requires t.owner.SupplierOwner?
  {
    Entry(t.owner.supplier, TopUpCredit, t.amount)
  }

  function Next(y: State, step: Step): State
    requires Enabled(y, step)
  {
    match step
    case Request(id, owner, amount) => y.(topUps := y.topUps[id := TopUp(owner, amount, Pending)])
    case LookUp(call, id) => y.(calls := y.calls[call := id])
    case Verify(call) =>
      var id := y.calls[call];
      State(y.topUps[id := y.topUps[id].(status := Verified)], y.entries + [Credit(y.topUps[id])], y.calls - {call})
    case Reject(call) =>
      var id := y.calls[call];
      y.(topUps := y.topUps[id := y.topUps[id].(status := Rejected)], calls := y.calls - {call})
    case Debit(supplier, amount) => y.(entries := y.entries + [Entry(supplier, PlanFeeDebit, amount)])
  }

  /** With nothing in between, the look and the transaction are what `VerifyTopUp` of `SupplierWallet` does. */
  lemma UndisturbedVerification(y: State, call: CallId, id: TopUpId)
    requires Enabled(y, LookUp(call, id)) && y.topUps[id].owner.SupplierOwner?
    ensures var y1 := Next(y, LookUp(call, id));
            && Enabled(y1, Verify(call))
            && Next(y1, Verify(call)) == y.(topUps := y.topUps[id := y.topUps[id].(status := Verified)], entries := y.entries + [Credit(y.topUps[id])])
  {
    assert y.calls[call := id] - {call} == y.calls;
  }

  datatype Run = Run(states: seq<State>, steps: seq<Step>)

  ghost predicate Taken(r: Run, k: nat)
    requires |r.states| == |r.steps| + 1 && k < |r.steps|
  {
    Enabled(r.states[k], r.steps[k]) && r.states[k + 1] == Next(r.states[k], r.steps[k])
  }

  ghost predicate IsRun(r: Run) {
    && |r.states| == |r.steps| + 1 && r.states[0] == State(map[], [], map[])
    && forall k: nat | k < |r.steps| :: Taken(r, k)
  }

  // ---- Decisions ---------------------------------------------------------------------------------------

  /** Step m verifies the request, or rejects it. */
  predicate Decides(r: Run, m: nat, id: TopUpId)
    requires |r.states| == |r.steps| + 1
  {
    && m < |r.steps| && (r.steps[m].Verify? || r.steps[m].Reject?)
    && r.steps[m].call in r.states[m].calls && r.states[m].calls[r.steps[m].call] == id
  }

  /** Where the call that decides at step `k` looked its request up. */
  function LookAt(steps: seq<Step>, call: CallId, k: nat): (i: nat)
    requires k <= |steps|
    ensures i <= k
  {
    if k == 0 then 0 else if steps[k - 1].LookUp? && steps[k - 1].call == call then k - 1 else LookAt(steps, call, k - 1)
  }

  /** Step m decides a request that step m' decided after the call of m had looked it up. */
  predicate Overlap(r: Run, m': nat, m: nat, id: TopUpId)
    requires |r.states| == |r.steps| + 1
  {
    m' < m && Decides(r, m', id) && Decides(r, m, id) && LookAt(r.steps, r.steps[m].call, m) <= m'
  }

  predicate IsDecided(y: State, id: TopUpId) { id in y.topUps && y.topUps[id].status != Pending }

  /** A request is decided after a step if and only if it was before, or the step decides it. */
  lemma DecidedStep(r: Run, m: nat, id: TopUpId)
    requires IsRun(r) && m < |r.steps|
    ensures IsDecided(r.states[m + 1], id) <==> IsDecided(r.states[m], id) || Decides(r, m, id)
  {
    assert Taken(r, m);
  }

  lemma LookStep(r: Run, m: nat, call: CallId, id: TopUpId)
    requires IsRun(r) && m < |r.steps| && call in r.states[m + 1].calls && r.states[m + 1].calls[call] == id
    ensures if r.steps[m].LookUp? && r.steps[m].call == call then !IsDecided(r.states[m], id)
            else call in r.states[m].calls && r.states[m].calls[call] == id
  {
    assert Taken(r, m);
  }

  lemma {:induction false} DecidedStays(r: Run, m: nat, k: nat, id: TopUpId)
    requires IsRun(r) && m < k < |r.states| && Decides(r, m, id)
    ensures IsDecided(r.states[k], id)
  {
    hide Decides, IsDecided;
    DecidedStep(r, k - 1, id);
    if m < k - 1 { DecidedStays(r, m, k - 1, id); }
  }

  /** A call that still has the request to decide looked it up before any decision on it that came so far. */
  lemma {:induction false} LookedBefore(r: Run, m: nat, k: nat, call: CallId, id: TopUpId)
    requires IsRun(r) && m < k < |r.states| && Decides(r, m, id) && call in r.states[k].calls && r.states[k].calls[call] == id
    ensures LookAt(r.steps, call, k) <= m
  {
    hide Next, Enabled, Decides, IsDecided;
    LookStep(r, k - 1, call, id);
    if r.steps[k - 1].LookUp? && r.steps[k - 1].call == call {
      if m < k - 1 { DecidedStays(r, m, k - 1, id); }
    } else if m < k - 1 {
      LookedBefore(r, m, k - 1, call, id);
    }
  }

  lemma AtCall(r: Run, m: nat, id: TopUpId)
    requires |r.states| == |r.steps| + 1 && Decides(r, m, id)
    ensures m < |r.steps| && (r.steps[m].Verify? || r.steps[m].Reject?)
    ensures r.steps[m].call in r.states[m].calls && r.states[m].calls[r.steps[m].call] == id
  {}

  /** A request is decided at most once in a run if and only if no two decisions on it overlap from look to commit. */
  lemma DecidedOnceExactly(r: Run, k: nat, id: TopUpId)
    requires IsRun(r) && k < |r.states|
    ensures (forall m': nat, m: nat | m' < m < k :: !(Decides(r, m', id) && Decides(r, m, id))) <==>
            forall m': nat, m: nat | m < k :: !Overlap(r, m', m, id)
  {
    hide Decides, Taken;
    if m': nat, m: nat :| m' < m < k && Decides(r, m', id) && Decides(r, m, id) {
      AtCall(r, m, id);
      LookedBefore(r, m', m, r.steps[m].call, id);
      assert Overlap(r, m', m, id);
    }
  }

  // ---- The balance ----------------------------------------------------------------------------------------

  /** What step m credits to the supplier. */
  function CreditAt(r: Run, m: nat, supplier: SupplierId): nat
    requires IsRun(r) && m < |r.steps|
  {
    assert Taken(r, m);
    if r.steps[m].Verify? then
      var t := r.states[m].topUps[r.states[m].calls[r.steps[m].call]];
      if t.owner.supplier == supplier then t.amount else 0
    else 0
  }

  function DebitAt(r: Run, m: nat, supplier: SupplierId): nat
    requires IsRun(r) && m < |r.steps|
  {
    if r.steps[m].Debit? && r.steps[m].supplier == supplier then r.steps[m].amount else 0
  }

  /** Step m credits the supplier for a request that an earlier step has credited already. */
  ghost predicate CreditsAgain(r: Run, m: nat, supplier: SupplierId)
    requires IsRun(r) && m < |r.steps|
  {
    CreditAt(r, m, supplier) > 0 && exists m': nat :: m' < m && SameRequest(r, m', m)
  }

  predicate SameRequest(r: Run, m': nat, m: nat)
    requires |r.states| == |r.steps| + 1 && m' < |r.steps| && m < |r.steps|
  {
    && r.steps[m'].Verify? && r.steps[m].Verify? && r.steps[m'].call in r.states[m'].calls && r.steps[m].call in r.states[m].calls
    && r.states[m'].calls[r.steps[m'].call] == r.states[m].calls[r.steps[m].call]
  }

  /** Two verifications of one request of the supplier, the second of which had looked it up when the first was made. */
  ghost predicate CreditsOverlap(r: Run, m': nat, m: nat, supplier: SupplierId)
    requires IsRun(r) && m < |r.steps|
  {
    m' < m && SameRequest(r, m', m) && CreditAt(r, m, supplier) > 0 && LookAt(r.steps, r.steps[m].call, m) <= m'
  }

  lemma CreditsAgainExactly(r: Run, m: nat, supplier: SupplierId)
    requires IsRun(r) && m < |r.steps|
    ensures CreditsAgain(r, m, supplier) <==> exists m': nat :: CreditsOverlap(r, m', m, supplier)
  {
    hide CreditAt;
    if m': nat :| m' < m && SameRequest(r, m', m) {
      if CreditAt(r, m, supplier) > 0 {
        LookedBefore(r, m', m, r.steps[m].call, r.states[m].calls[r.steps[m].call]);
        assert CreditsOverlap(r, m', m, supplier);
      }
    }
    if m': nat :| CreditsOverlap(r, m', m, supplier) { assert m' < m && SameRequest(r, m', m); }
  }

  /** The supplier's verified top-ups less its fees, each request counted once. */
  ghost function Earned(r: Run, k: nat, supplier: SupplierId): int
    requires IsRun(r) && k < |r.states|
  {
    if k == 0 then 0
    else Earned(r, k - 1, supplier) + (if CreditsAgain(r, k - 1, supplier) then 0 else CreditAt(r, k - 1, supplier)) - DebitAt(r, k - 1, supplier)
  }

  lemma BalanceStep(r: Run, m: nat, supplier: SupplierId)
    requires IsRun(r) && m < |r.steps|
    ensures SumEntries(r.states[m + 1].entries, supplier) ==
            SumEntries(r.states[m].entries, supplier) + CreditAt(r, m, supplier) - DebitAt(r, m, supplier)
  {
    hide SumEntries;
    assert Taken(r, m);
    var before, after := r.states[m].entries, r.states[m + 1].entries;
    if |after| > |before| {
      assert after == before + [after[|before|]];
      SumAppend(before, after[|before|], supplier);
    }
  }

  lemma {:induction false} BalanceIsEarned(r: Run, k: nat, supplier: SupplierId)
    requires IsRun(r) && k < |r.states|
    ensures Earned(r, k, supplier) <= SumEntries(r.states[k].entries, supplier)
    ensures Earned(r, k, supplier) == SumEntries(r.states[k].entries, supplier) <==> forall m: nat | m < k :: !CreditsAgain(r, m, supplier)
  {
    hide Taken, CreditAt, DebitAt, SameRequest, SumEntries;
    if k == 0 {
      NothingYet(r, supplier);
    } else {
      BalanceIsEarned(r, k - 1, supplier);
      BalanceStep(r, k - 1, supplier);
    }
  }

  lemma NothingYet(r: Run, supplier: SupplierId)
    requires IsRun(r)
    ensures r.states[0].entries == [] && SumEntries([], supplier) == 0
  {}

  /**
   * In every run the balance is never short of what the verified requests, each counted once, and
   * the fees come to. It is equal to that if and only if no two verifications of one request of
   * the supplier overlapped from look to commit.
   */
  lemma BalanceExactly(r: Run, k: nat, supplier: SupplierId)
    requires IsRun(r) && k < |r.states|
    ensures Earned(r, k, supplier) <= SumEntries(r.states[k].entries, supplier)
    ensures Earned(r, k, supplier) == SumEntries(r.states[k].entries, supplier) <==>
            forall m': nat, m: nat | m < k :: !CreditsOverlap(r, m', m, supplier)
  {
    hide Taken, CreditsAgain, CreditsOverlap, SumEntries, Earned;
    BalanceIsEarned(r, k, supplier);
    if m: nat :| m < k && CreditsAgain(r, m, supplier) { CreditsAgainExactly(r, m, supplier); }
    if m': nat, m: nat :| m < k && CreditsOverlap(r, m', m, supplier) { CreditsAgainExactly(r, m, supplier); }
  }

  // ---- Two admins at once -----------------------------------------------------------------------------------

  function BothLooked(owner: Owner, amount: nat): State { State(map[0 := TopUp(owner, amount, Pending)], [], map[0 := 0, 1 := 0]) }

  lemma BothLookUp(owner: Owner, amount: nat) returns (r: Run)
    requires amount > 0
    ensures IsRun(r) && r.steps == [Request(0, owner, amount), LookUp(0, 0), LookUp(1, 0)] && r.states[3] == BothLooked(owner, amount)
  {
    var y0 := State(map[], [], map[]);
    var y1 := Next(y0, Request(0, owner, amount));
    var y2 := Next(y1, LookUp(0, 0));
    r := Run([y0, y1, y2, BothLooked(owner, amount)], [Request(0, owner, amount), LookUp(0, 0), LookUp(1, 0)]);
    forall k: nat | k < 3 ensures Taken(r, k) {}
  }

  lemma Extend(r: Run, step: Step) returns (r': Run)
    requires IsRun(r) && Enabled(r.states[|r.steps|], step)
    ensures IsRun(r') && r'.steps == r.steps + [step] && r'.states == r.states + [Next(r.states[|r.steps|], step)]
  {
    hide Next, Enabled;
    r' := Run(r.states + [Next(r.states[|r.steps|], step)], r.steps + [step]);
    forall k: nat | k < |r'.steps| ensures Taken(r', k) {
      if k < |r.steps| { assert Taken(r, k); }
    }
  }

  lemma BothVerify(supplier: SupplierId, amount: nat) returns (r: Run)
    requires amount > 0
    ensures IsRun(r) && r.steps == [Request(0, SupplierOwner(supplier), amount), LookUp(0, 0), LookUp(1, 0), Verify(0), Verify(1)]
    ensures CreditAt(r, 3, supplier) == CreditAt(r, 4, supplier) == amount && SameRequest(r, 3, 4)
  {
    r := BothLookUp(SupplierOwner(supplier), amount);
    hide IsRun;
    r := Extend(r, Verify(0));
    r := Extend(r, Verify(1));
  }

  /** Two admins who both find the top-up pending: it is credited twice, and the supplier has twice what was paid. */
  lemma CreditedTwice(supplier: SupplierId, amount: nat) returns (r: Run)
    requires amount > 0
    ensures IsRun(r) && r.steps == [Request(0, SupplierOwner(supplier), amount), LookUp(0, 0), LookUp(1, 0), Verify(0), Verify(1)]
    ensures SumEntries(r.states[5].entries, supplier) == 2 * amount && Earned(r, 5, supplier) == amount
  {
    r := BothVerify(supplier, amount);
    assert CreditsAgain(r, 4, supplier) && !CreditsAgain(r, 3, supplier);
    NothingYet(r, supplier);
    hide SumEntries, CreditsAgain, SameRequest, Taken;
    BalanceStep(r, 0, supplier);
    BalanceStep(r, 1, supplier);
    BalanceStep(r, 2, supplier);
    BalanceStep(r, 3, supplier);
    BalanceStep(r, 4, supplier);
    assert Earned(r, 3, supplier) == Earned(r, 2, supplier) == Earned(r, 1, supplier) == Earned(r, 0, supplier) == 0;
    assert Earned(r, 5, supplier) == Earned(r, 4, supplier) == amount;
  }
}
