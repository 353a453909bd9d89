/**
 * The one concurrency protocol behind the supplier debit, the campaign quota and the product
 * limit: a transaction locks a row with SELECT ... FOR UPDATE, adds up what is committed,
 * refuses or inserts, and commits. Any number of transactions interleave; credits, and changes of
 * the cost of a committed row, take no lock and commit in between. Reads see committed rows only.
 */
module GuardedInserts {
  import opened Common

  type TxnId = nat

  /** A row adds `effect` to the headroom; `since` is the start of the window its check added up. */
  datatype Row = Row(effect: int, at: int, since: int)

  datatype Txn =
    | Waiting(cost: int, at: int, since: int)
    | Locked(cost: int, at: int, since: int)
    | Counted(cost: int, at: int, since: int, headroom: int)
    | Inserted(row: Row)
    | Committed
    | Refused

  /** `advances` counts the writes that are paired with an insert in the same transaction. */
  datatype State = State(rows: seq<Row>, owner: Option<TxnId>, txns: map<TxnId, Txn>, advances: nat)

  datatype Step =
    | Begin(id: TxnId, cost: int, at: int, since: int)
    | Lock(id: TxnId)
    | Count(id: TxnId)
    | Decide(id: TxnId)
    | Commit(id: TxnId)
    | Abort(id: TxnId)
    | Credit(amount: nat, at: int)
    /** A committed row's cost is rewritten without the lock, as the campaign worker does. */
    | Amend(i: nat, effect: int)

  /** Sum of the effects of the rows in [lo, hi). */
  function Total(rows: seq<Row>, lo: int, hi: Option<int>): int {
    if rows == [] then 0
    else
      var last := rows[|rows| - 1];
      Total(rows[..|rows| - 1], lo, hi) + if lo <= last.at && (hi == None || last.at < hi.value) then last.effect else 0
  }

  function AmendRow(rows: seq<Row>, i: nat, effect: int): seq<Row>
    requires i < |rows|
  {
    rows[i := rows[i].(effect := effect)]
  }

  function Headroom(limit: int, rows: seq<Row>, since: int): int { limit + Total(rows, since, None) }

  /** Whether the row that FOR UPDATE names exists: locking a missing row locks nothing. */
  datatype Guard = Guard(limit: int, lockRowExists: bool)

  predicate Holds(y: State, id: TxnId) { y.owner == Some(id) }

  predicate Enabled(g: Guard, y: State, step: Step) {
    match step
    case Begin(id, cost, at, since) => id !in y.txns && 0 <= cost && since <= at
    case Lock(id) => id in y.txns && y.txns[id].Waiting? && (g.lockRowExists ==> y.owner == None)
    case Count(id) => id in y.txns && y.txns[id].Locked?
    case Decide(id) => id in y.txns && y.txns[id].Counted?
    case Commit(id) => id in y.txns && y.txns[id].Inserted?
    case Abort(id) => id in y.txns && !y.txns[id].Committed?
    case Credit(_, _) => true
    case Amend(i, effect) => i < |y.rows| && y.rows[i].effect <= 0 && effect <= 0
  }

  function Release(y: State, id: TxnId): Option<TxnId> { if Holds(y, id) then None else y.owner }

  function Next(g: Guard, y: State, step: Step): State
    requires Enabled(g, y, step)
  {
    match step
    case Begin(id, cost, at, since) => y.(txns := y.txns[id := Waiting(cost, at, since)])
    case Lock(id) =>
      var x := y.txns[id];
      y.(owner := if g.lockRowExists then Some(id) else y.owner, txns := y.txns[id := Locked(x.cost, x.at, x.since)])
    case Count(id) =>
      var x := y.txns[id];
      y.(txns := y.txns[id := Counted(x.cost, x.at, x.since, Headroom(g.limit, y.rows, x.since))])
    case Decide(id) =>
      var x := y.txns[id];
      if x.headroom < x.cost then y.(owner := Release(y, id), txns := y.txns[id := Refused])
      else y.(txns := y.txns[id := Inserted(Row(-x.cost, x.at, x.since))])
    case Commit(id) =>
      y.(rows := y.rows + [y.txns[id].row], owner := Release(y, id), txns := y.txns[id := Committed], advances := y.advances + 1)
    case Abort(id) => y.(owner := Release(y, id), txns := y.txns[id := Refused])
    case Credit(amount, at) => y.(rows := y.rows + [Row(amount, at, at)])
    case Amend(i, effect) => y.(rows := AmendRow(y.rows, i, effect))
  }

  // ---- The invariant --------------------------------------------------------------------------------

  predicate Active(x: Txn) { x.Locked? || x.Counted? || x.Inserted? }

  predicate WellFormed(x: Txn) {
    match x
    case Inserted(row) => row.since <= row.at && row.effect <= 0
    case Committed => true
    case Refused => true
    case _ => 0 <= x.cost && x.since <= x.at
  }

  ghost predicate Exclusive(y: State) {
    forall id | id in y.txns :: WellFormed(y.txns[id]) && (Active(y.txns[id]) ==> Holds(y, id))
  }

  lemma ExclusiveStep(g: Guard, y: State, step: Step)
    requires g.lockRowExists && Exclusive(y) && Enabled(g, y, step)
    ensures Exclusive(Next(g, y, step))
  {
    hide Headroom;
  }

  /** What a transaction saw, or is about to write, still fits: credits and lowered costs only ever add headroom. */
  predicate StillFits(limit: int, rows: seq<Row>, x: Txn) {
    match x
    case Counted(_, _, since, headroom) => headroom <= Headroom(limit, rows, since)
    case Inserted(row) => 0 <= Headroom(limit, rows, row.since) + row.effect
    case _ => true
  }

  ghost predicate LockInvariant(g: Guard, y: State) {
    Exclusive(y) && forall id | id in y.txns :: StillFits(g.limit, y.rows, y.txns[id])
  }

  /** The sum is plain: a committed row adds its effect to every window it is dated in, and to no other. */
  lemma {:induction false} TotalAppend(rows: seq<Row>, row: Row, lo: int, hi: Option<int>)
    ensures Total(rows + [row], lo, hi)
         == Total(rows, lo, hi) + if lo <= row.at && (hi == None || row.at < hi.value) then row.effect else 0
    ensures Total([], lo, hi) == 0
  {
    assert (rows + [row])[..|rows|] == rows;
  }

  lemma {:induction false} TotalAmend(rows: seq<Row>, i: nat, effect: int, lo: int, hi: Option<int>)
    requires i < |rows|
    ensures Total(AmendRow(rows, i, effect), lo, hi)
         == Total(rows, lo, hi) + if lo <= rows[i].at && (hi == None || rows[i].at < hi.value) then effect - rows[i].effect else 0
  {
    var n := |rows| - 1;
    if i < n {
      assert AmendRow(rows, i, effect)[..n] == AmendRow(rows[..n], i, effect);
      TotalAmend(rows[..n], i, effect, lo, hi);
    } else {
      assert AmendRow(rows, i, effect)[..n] == rows[..n];
    }
  }

  /** The step makes a committed row cost more. */
  predicate Raises(y: State, step: Step) { step.Amend? && step.i < |y.rows| && step.effect < y.rows[step.i].effect }

  /** Only the lock owner can insert, so what it counted cannot shrink before it commits, unless a cost is raised. */
  lemma LockInvariantStep(g: Guard, y: State, step: Step)
    requires g.lockRowExists && LockInvariant(g, y) && Enabled(g, y, step) && !Raises(y, step)
    ensures LockInvariant(g, Next(g, y, step))
  {
    ExclusiveStep(g, y, step);
    hide Total, Exclusive, AmendRow;
    if step.Credit? {
      forall since { TotalAppend(y.rows, Row(step.amount, step.at, step.at), since, None); }
    } else if step.Amend? {
      forall since { TotalAmend(y.rows, step.i, step.effect, since, None); }
    } else {
      assert forall id | id in y.txns && Active(y.txns[id]) :: Holds(y, id) && WellFormed(y.txns[id]) by { ActiveHolds(y); }
    }
  }

  lemma ActiveHolds(y: State)
    requires Exclusive(y)
    ensures forall id | id in y.txns && Active(y.txns[id]) :: Holds(y, id) && WellFormed(y.txns[id])
  {}

  // ---- Runs -------------------------------------------------------------------------------------------

  datatype Run = Run(states: seq<State>, steps: seq<Step>)

  ghost predicate Taken(g: Guard, r: Run, k: nat)
    requires |r.states| == |r.steps| + 1 && k < |r.steps|
  {
    Enabled(g, r.states[k], r.steps[k]) && r.states[k + 1] == Next(g, r.states[k], r.steps[k])
  }

  ghost predicate IsRun(g: Guard, r: Run) {
    && |r.states| == |r.steps| + 1 && r.states[0].txns == map[] && r.states[0].owner == None
    && forall k: nat | k < |r.steps| :: Taken(g, r, k)
  }

  /** No row of the run is made to cost more. */
  ghost predicate NoRaises(r: Run) {
    forall k | 0 <= k < |r.steps| && k < |r.states| :: !Raises(r.states[k], r.steps[k])
  }

  lemma {:induction false} ExclusiveThroughout(g: Guard, r: Run, k: nat)
    requires IsRun(g, r) && g.lockRowExists && k < |r.states|
    ensures Exclusive(r.states[k])
  {
    hide Next, Enabled;
    if k > 0 {
      hide Exclusive;
      ExclusiveThroughout(g, r, k - 1);
      assert Taken(g, r, k - 1);
      ExclusiveStep(g, r.states[k - 1], r.steps[k - 1]);
    }
  }

  lemma {:induction false} LockInvariantHolds(g: Guard, r: Run, k: nat)
    requires IsRun(g, r) && g.lockRowExists && k < |r.states| && NoRaises(r)
    ensures LockInvariant(g, r.states[k])
  {
    hide Next, Enabled, Raises;
    if k > 0 {
      LockInvariantHolds(g, r, k - 1);
      assert Taken(g, r, k - 1);
      LockInvariantStep(g, r.states[k - 1], r.steps[k - 1]);
    }
  }

  /** Two transactions that have the lock are one: their critical sections never overlap. */
  lemma MutualExclusion(g: Guard, r: Run, k: nat, a: TxnId, b: TxnId)
    requires IsRun(g, r) && g.lockRowExists && k < |r.states|
    requires a in r.states[k].txns && b in r.states[k].txns && Active(r.states[k].txns[a]) && Active(r.states[k].txns[b])
    ensures a == b
  {
    ExclusiveThroughout(g, r, k);
  }

  // ---- Safety -----------------------------------------------------------------------------------------

  /** Every check in the run adds up all the rows there are. */
  ghost predicate ChecksEverything(r: Run, since: int) {
    && (forall k | 0 <= k < |r.steps| && r.steps[k].Begin? :: r.steps[k].since == since)
    && (forall k | 0 <= k < |r.steps| && r.steps[k].Credit? :: since <= r.steps[k].at)
  }

  lemma {:induction false} ChecksKept(g: Guard, r: Run, k: nat, since: int)
    requires IsRun(g, r) && k < |r.states| && ChecksEverything(r, since)
    ensures forall id | id in r.states[k].txns && r.states[k].txns[id].Inserted? :: r.states[k].txns[id].row.since == since
    ensures forall id | id in r.states[k].txns && (r.states[k].txns[id].Waiting? || r.states[k].txns[id].Locked? || r.states[k].txns[id].Counted?) ::
              r.states[k].txns[id].since == since
  {
    hide Headroom;
    if k > 0 {
      ChecksKept(g, r, k - 1, since);
      assert Taken(g, r, k - 1);
    }
  }

  /**
   * With the lock, the headroom is never negative in any interleaving of guarded transactions
   * with unlocked credits and lowered costs.
   */
  lemma {:induction false} NeverOverdrawn(g: Guard, r: Run, k: nat, since: int)
    requires IsRun(g, r) && g.lockRowExists && k < |r.states| && ChecksEverything(r, since) && NoRaises(r)
    requires 0 <= Headroom(g.limit, r.states[0].rows, since)
    ensures 0 <= Headroom(g.limit, r.states[k].rows, since)
  {
    hide Total;
    if k > 0 {
      NeverOverdrawn(g, r, k - 1, since);
      LockInvariantHolds(g, r, k - 1);
      ChecksKept(g, r, k - 1, since);
      assert Taken(g, r, k - 1);
      var y, step := r.states[k - 1], r.steps[k - 1];
      if step.Commit? { TotalAppend(y.rows, y.txns[step.id].row, since, None); }
      if step.Credit? { TotalAppend(y.rows, Row(step.amount, step.at, step.at), since, None); }
      if step.Amend? { TotalAmend(y.rows, step.i, step.effect, since, None); }
    }
  }

  /** Number of committed transactions. */
  function CommittedTxns(y: State): set<TxnId> { set id | id in y.txns && y.txns[id].Committed? }

  /** How many of the first `k` steps are commits, and how many are credits. */
  function Commits(steps: seq<Step>, k: nat): nat
    requires k <= |steps|
  {
    if k == 0 then 0 else Commits(steps, k - 1) + if steps[k - 1].Commit? then 1 else 0
  }

  function Credits(steps: seq<Step>, k: nat): nat
    requires k <= |steps|
  {
    if k == 0 then 0 else Credits(steps, k - 1) + if steps[k - 1].Credit? then 1 else 0
  }

  lemma PairedWritesStep(g: Guard, y: State, step: Step)
    requires Enabled(g, y, step)
    ensures var y' := Next(g, y, step);
            var wrote := if step.Commit? then 1 else 0;
            && y'.advances == y.advances + wrote && |CommittedTxns(y')| == |CommittedTxns(y)| + wrote
            && |y'.rows| == |y.rows| + wrote + if step.Credit? then 1 else 0
  {
    hide Headroom;
    var y' := Next(g, y, step);
    if step.Commit? {
      assert CommittedTxns(y') == CommittedTxns(y) + {step.id} && step.id !in CommittedTxns(y);
    } else {
      assert CommittedTxns(y') == CommittedTxns(y);
    }
  }

  /** One paired write and one row for every transaction that committed, and no others but credits. */
  lemma {:induction false} PairedWrites(g: Guard, r: Run, k: nat)
    requires IsRun(g, r) && k < |r.states| && r.states[0].advances == 0
    ensures r.states[k].advances == |CommittedTxns(r.states[k])| == Commits(r.steps, k)
    ensures |r.states[k].rows| == |r.states[0].rows| + Commits(r.steps, k) + Credits(r.steps, k)
  {
    hide Next, Enabled;
    if k > 0 {
      PairedWrites(g, r, k - 1);
      assert Taken(g, r, k - 1);
      PairedWritesStep(g, r.states[k - 1], r.steps[k - 1]);
    } else {
      assert CommittedTxns(r.states[0]) == {};
    }
  }

  // ---- Quotas per window --------------------------------------------------------------------------------

  /** Every row in the window was inserted by a check that added up at least that window. */
  ghost predicate CheckedWindow(rows: seq<Row>, lo: int, hi: int) {
    forall i | 0 <= i < |rows| && lo <= rows[i].at < hi :: rows[i].since <= lo
  }

  predicate OnlyCosts(rows: seq<Row>) { forall i | 0 <= i < |rows| :: rows[i].effect <= 0 }

  lemma {:induction false} NarrowerIsMore(rows: seq<Row>, since: int, lo: int, hi: int)
    requires since <= lo && OnlyCosts(rows)
    ensures Total(rows, since, None) <= Total(rows, lo, Some(hi)) <= 0
  {
    if rows != [] { NarrowerIsMore(rows[..|rows| - 1], since, lo, hi); }
  }

  lemma RowsKeepTheirTimes(g: Guard, y: State, step: Step)
    requires Enabled(g, y, step)
    ensures var rows, rows' := y.rows, Next(g, y, step).rows;
            && |rows| <= |rows'| && (forall i | 0 <= i < |rows| :: rows'[i].(effect := rows[i].effect) == rows[i])
            && (!step.Commit? && !step.Amend? && !step.Credit? ==> rows' == rows)
            && (step.Commit? ==> rows' == rows + [y.txns[step.id].row])
            && (step.Amend? ==> rows' == AmendRow(rows, step.i, step.effect))
  {
    hide Headroom;
  }

  /**
   * With the lock, and no credits or raised costs, what is spent in any window stays within the
   * limit, for every window whose rows were all checked over at least that window.
   */
  lemma {:induction false} QuotaPerWindow(g: Guard, r: Run, k: nat, lo: int, hi: int)
    requires IsRun(g, r) && g.lockRowExists && k < |r.states| && 0 <= g.limit && NoRaises(r)
    requires r.states[0].rows == [] && forall j | 0 <= j < |r.steps| :: !r.steps[j].Credit?
    requires CheckedWindow(r.states[k].rows, lo, hi)
    ensures OnlyCosts(r.states[k].rows)
    ensures 0 <= g.limit + Total(r.states[k].rows, lo, Some(hi))
  {
    if k > 0 {
      assert Taken(g, r, k - 1);
      var y, step := r.states[k - 1], r.steps[k - 1];
      LockInvariantHolds(g, r, k - 1);
      var rows, rows' := y.rows, r.states[k].rows;
      RowsKeepTheirTimes(g, y, step);
      assert CheckedWindow(rows, lo, hi) by { assert forall i | 0 <= i < |rows| :: rows'[i].(effect := rows[i].effect) == rows[i]; }
      QuotaPerWindow(g, r, k - 1, lo, hi);
      if step.Amend? { TotalAmend(rows, step.i, step.effect, lo, Some(hi)); }
      if step.Commit? {
        var row := y.txns[step.id].row;
        TotalAppend(rows, row, lo, Some(hi));
        assert rows'[|rows|] == row;
        if lo <= row.at < hi { NarrowerIsMore(rows, row.since, lo, hi); }
      }
    }
  }

  ghost predicate FromBegin(steps: seq<Step>, at: int, since: int) {
    exists j | 0 <= j < |steps| :: steps[j].Begin? && steps[j].at == at && steps[j].since == since
  }

  ghost predicate TxnFromBegin(steps: seq<Step>, x: Txn) {
    match x
    case Waiting(_, at, since) => FromBegin(steps, at, since)
    case Locked(_, at, since) => FromBegin(steps, at, since)
    case Counted(_, at, since, _) => FromBegin(steps, at, since)
    case Inserted(row) => FromBegin(steps, row.at, row.since)
    case _ => true
  }

  /** A row carries the time and the window of the request that inserted it. */
  lemma {:induction false} RowsFromBegins(g: Guard, r: Run, k: nat)
    requires IsRun(g, r) && k < |r.states| && r.states[0].rows == []
    requires forall j | 0 <= j < |r.steps| :: !r.steps[j].Credit?
    ensures forall i | 0 <= i < |r.states[k].rows| :: FromBegin(r.steps, r.states[k].rows[i].at, r.states[k].rows[i].since)
    ensures forall id | id in r.states[k].txns :: TxnFromBegin(r.steps, r.states[k].txns[id])
  {
    hide Headroom, FromBegin;
    if k > 0 {
      RowsFromBegins(g, r, k - 1);
      assert Taken(g, r, k - 1);
      var step := r.steps[k - 1];
      if step.Begin? { assert FromBegin(r.steps, step.at, step.since) by { BeginIsThere(r.steps, k - 1); } }
    }
  }

  lemma BeginIsThere(steps: seq<Step>, k: nat)
    requires k < |steps| && steps[k].Begin?
    ensures FromBegin(steps, steps[k].at, steps[k].since)
  {}

  // ---- Raised costs ---------------------------------------------------------------------------------------

  /** What the transaction in its critical section has been let in to spend in the window. */
  function InFlight(y: State, lo: int, hi: int): int {
    if y.owner == None || y.owner.value !in y.txns then 0
    else
      match y.txns[y.owner.value]
      case Counted(cost, at, _, headroom) => if cost <= headroom && lo <= at < hi then cost else 0
      case Inserted(row) => if lo <= row.at < hi then 0 - row.effect else 0
      case _ => 0
  }

  /** What is left of the window's limit once the transaction in flight has been served. */
  function Left(g: Guard, y: State, lo: int, hi: int): int { g.limit + Total(y.rows, lo, Some(hi)) - InFlight(y, lo, hi) }

  predicate RaisesWithin(y: State, step: Step, lo: int, hi: int) { Raises(y, step) && lo <= y.rows[step.i].at < hi }

  /** The guard a caller can check before raising a cost: the rise is left over. */
  predicate RaiseFits(g: Guard, y: State, step: Step, lo: int, hi: int) {
    RaisesWithin(y, step, lo, hi) ==> y.rows[step.i].effect - step.effect <= Left(g, y, lo, hi)
  }

  predicate RoomLeft(g: Guard, y: State, lo: int, hi: int) { 0 <= Left(g, y, lo, hi) }

  /** Each transaction about to be let in for the window adds up at least that window. */
  ghost predicate CountsWindow(y: State, lo: int, hi: int) {
    forall id | id in y.txns && y.txns[id].Locked? && lo <= y.txns[id].at < hi :: y.txns[id].since <= lo
  }

  lemma LeftAfterCount(g: Guard, y: State, id: TxnId, lo: int, hi: int)
    requires g.lockRowExists && Exclusive(y) && OnlyCosts(y.rows) && CountsWindow(y, lo, hi) && Enabled(g, y, Count(id)) && RoomLeft(g, y, lo, hi)
    ensures RoomLeft(g, Next(g, y, Count(id)), lo, hi)
  {
    hide Total;
    var x := y.txns[id];
    assert Active(x);
    if lo <= x.at < hi { NarrowerIsMore(y.rows, x.since, lo, hi); }
  }

  lemma LeftAfterAmend(g: Guard, y: State, step: Step, lo: int, hi: int)
    requires Enabled(g, y, step) && step.Amend?
    ensures var rise := y.rows[step.i].effect - step.effect;
            Left(g, Next(g, y, step), lo, hi) == Left(g, y, lo, hi) - if lo <= y.rows[step.i].at < hi then rise else 0
  {
    TotalAmend(y.rows, step.i, step.effect, lo, Some(hi));
    hide Total;
  }

  lemma LeftAfterCommit(g: Guard, y: State, id: TxnId, lo: int, hi: int)
    requires g.lockRowExists && Exclusive(y) && Enabled(g, y, Commit(id))
    ensures Left(g, Next(g, y, Commit(id)), lo, hi) == Left(g, y, lo, hi)
  {
    TotalAppend(y.rows, y.txns[id].row, lo, Some(hi));
    hide Total;
    assert Active(y.txns[id]);
  }

  /** No step but a raise takes away from what is left once it is there. */
  lemma LeftStep(g: Guard, y: State, step: Step, lo: int, hi: int)
    requires g.lockRowExists && Exclusive(y) && OnlyCosts(y.rows) && CountsWindow(y, lo, hi) && Enabled(g, y, step) && !step.Credit?
    requires RoomLeft(g, y, lo, hi)
    ensures RoomLeft(g, Next(g, y, step), lo, hi) <==> RaiseFits(g, y, step, lo, hi)
  {
    hide Total;
    match step
    case Count(id) => LeftAfterCount(g, y, id, lo, hi);
    case Amend(_, _) => LeftAfterAmend(g, y, step, lo, hi);
    case Commit(id) => LeftAfterCommit(g, y, id, lo, hi);
    case Decide(id) => assert Active(y.txns[id]);
    case _ =>
  }

  ghost predicate ChecksWindow(steps: seq<Step>, lo: int, hi: int) {
    forall j | 0 <= j < |steps| && steps[j].Begin? && lo <= steps[j].at < hi :: steps[j].since <= lo
  }

  lemma CountsFromChecks(g: Guard, r: Run, k: nat, lo: int, hi: int)
    requires IsRun(g, r) && k < |r.states| && r.states[0].rows == [] && ChecksWindow(r.steps, lo, hi)
    requires forall j | 0 <= j < |r.steps| :: !r.steps[j].Credit?
    ensures CountsWindow(r.states[k], lo, hi)
  {
    RowsFromBegins(g, r, k);
    var y := r.states[k];
    forall id | id in y.txns && y.txns[id].Locked? && lo <= y.txns[id].at < hi ensures y.txns[id].since <= lo {
      assert TxnFromBegin(r.steps, y.txns[id]);
    }
  }

  lemma {:induction false} CostsThroughout(g: Guard, r: Run, k: nat)
    requires IsRun(g, r) && g.lockRowExists && k < |r.states| && r.states[0].rows == []
    requires forall j | 0 <= j < |r.steps| :: !r.steps[j].Credit?
    ensures OnlyCosts(r.states[k].rows)
  {
    hide Headroom;
    if k > 0 {
      CostsThroughout(g, r, k - 1);
      ExclusiveThroughout(g, r, k - 1);
      assert Taken(g, r, k - 1);
    }
  }

  /**
   * When costs may also be raised, something is left of the window at every moment of a run if
   * and only if every raise found its rise left over.
   */
  lemma {:induction false} RoomLeftExactly(g: Guard, r: Run, k: nat, lo: int, hi: int)
    requires IsRun(g, r) && g.lockRowExists && k < |r.states| && 0 <= g.limit && r.states[0].rows == []
    requires ChecksWindow(r.steps, lo, hi) && forall j | 0 <= j < |r.steps| :: !r.steps[j].Credit?
    ensures (forall j | 0 <= j <= k :: RoomLeft(g, r.states[j], lo, hi)) <==> forall j | 0 <= j < k :: RaiseFits(g, r.states[j], r.steps[j], lo, hi)
  {
    hide Next, Enabled, RaiseFits;
    if k > 0 {
      hide RoomLeft, ChecksWindow;
      RoomLeftExactly(g, r, k - 1, lo, hi);
      assert Taken(g, r, k - 1);
      ExclusiveThroughout(g, r, k - 1);
      CostsThroughout(g, r, k - 1);
      CountsFromChecks(g, r, k - 1, lo, hi);
      if RoomLeft(g, r.states[k - 1], lo, hi) { LeftStep(g, r.states[k - 1], r.steps[k - 1], lo, hi); }
    }
  }

  /** Something left means the limit holds, now and after the transaction in flight. */
  lemma RoomLeftIsWithin(g: Guard, y: State, lo: int, hi: int)
    requires Exclusive(y) && RoomLeft(g, y, lo, hi)
    ensures 0 <= InFlight(y, lo, hi) <= g.limit + Total(y.rows, lo, Some(hi))
  {
    hide Total;
  }

  // ---- What breaks it --------------------------------------------------------------------------------------

  function Last(r: Run): State
    requires r.states != []
  {
    r.states[|r.states| - 1]
  }

  lemma Extend(g: Guard, r: Run, step: Step) returns (r': Run)
    requires IsRun(g, r) && Enabled(g, Last(r), step)
    ensures IsRun(g, r') && r'.states[0] == r.states[0] && Last(r') == Next(g, Last(r), step) && r'.steps == r.steps + [step]
  {
    hide Next, Enabled;
    r' := Run(r.states + [Next(g, Last(r), step)], r.steps + [step]);
    forall k: nat | k < |r'.steps| ensures Taken(g, r', k) {
      if k < |r.steps| { assert Taken(g, r, k); }
    }
  }

  /** Nothing stops a second transaction from counting while the first has not committed. */
  lemma BothCount(g: Guard, cost: int) returns (r: Run)
    requires 0 <= cost && !g.lockRowExists
    ensures IsRun(g, r) && r.states[0].rows == []
    ensures Last(r) == State([], None, map[0 := Counted(cost, 0, 0, g.limit), 1 := Counted(cost, 0, 0, g.limit)], 0)
  {
    r := Run([State([], None, map[], 0)], []);
    r := Extend(g, r, Begin(0, cost, 0, 0));
    r := Extend(g, r, Begin(1, cost, 0, 0));
    r := Extend(g, r, Lock(0));
    r := Extend(g, r, Lock(1));
    r := Extend(g, r, Count(0));
    r := Extend(g, r, Count(1));
  }

  /**
   * Without the lock row the check is a race, for every limit that fits the cost once but not
   * twice: two transactions that both count before either commits overdraw it.
   */
  lemma MissingLockRowOverdraws(limit: int, cost: int) returns (r: Run)
    requires 0 < cost <= limit < 2 * cost
    ensures IsRun(Guard(limit, false), r) && r.states[0].rows == []
    ensures Headroom(limit, Last(r).rows, 0) < 0
  {
    var g, row := Guard(limit, false), Row(-cost, 0, 0);
    r := BothCount(g, cost);
    r := Extend(g, r, Decide(0));
    r := Extend(g, r, Decide(1));
    r := Extend(g, r, Commit(0));
    assert Last(r).rows == [row];
    r := Extend(g, r, Commit(1));
    assert Last(r).rows == [row] + [row];
    TotalAppend([], row, 0, None);
    TotalAppend([row], row, 0, None);
    assert [] + [row] == [row];
  }

  /** Raising a committed row's cost keeps within the limit exactly when the headroom covers the rise. */
  lemma RaisingACost(limit: int, rows: seq<Row>, i: nat, effect: int, since: int)
    requires i < |rows| && since <= rows[i].at
    ensures 0 <= Headroom(limit, AmendRow(rows, i, effect), since) <==> rows[i].effect - effect <= Headroom(limit, rows, since)
  {
    TotalAmend(rows, i, effect, since, None);
  }

  /** Nothing left means the limit is broken as soon as the transaction in flight has been served. */
  lemma NothingLeftOverdraws(g: Guard, r: Run, lo: int, hi: int) returns (r': Run)
    requires IsRun(g, r) && g.lockRowExists && !RoomLeft(g, Last(r), lo, hi)
    ensures IsRun(g, r') && r'.states[0] == r.states[0] && r.steps <= r'.steps && |r'.steps| <= |r.steps| + 2
    ensures g.limit + Total(Last(r').rows, lo, Some(hi)) < 0
  {
    hide Total;
    ExclusiveThroughout(g, r, |r.states| - 1);
    r' := r;
    var y := Last(r);
    if InFlight(y, lo, hi) > 0 {
      var id := y.owner.value;
      if y.txns[id].Counted? { r' := Extend(g, r', Decide(id)); }
      TotalAppend(Last(r').rows, Last(r').txns[id].row, lo, Some(hi));
      r' := Extend(g, r', Commit(id));
    }
  }

  /** One request of any cost within the limit, and a raise above the limit afterwards. */
  lemma RaiseOverdraws(limit: nat, cost: nat, raised: nat) returns (r: Run)
    requires cost <= limit < raised
    ensures IsRun(Guard(limit, true), r) && r.states[0].rows == [] && Last(r).rows == [Row(0 - raised, 0, 0)]
    ensures limit + Total(Last(r).rows, 0, Some(1)) < 0
  {
    var g := Guard(limit, true);
    r := Run([State([], None, map[], 0)], []);
    r := Extend(g, r, Begin(0, cost, 0, 0));
    r := Extend(g, r, Lock(0));
    r := Extend(g, r, Count(0));
    r := Extend(g, r, Decide(0));
    r := Extend(g, r, Commit(0));
    r := Extend(g, r, Amend(0, 0 - raised));
    TotalAppend([], Row(0 - raised, 0, 0), 0, Some(1));
    assert [] + [Row(0 - raised, 0, 0)] == [Row(0 - raised, 0, 0)];
  }
}
