/**
 * Accruals for one attribution that overlap: each reads the counter, decides what it may still
 * pay, and only later posts the credit and increments the counter, in one transaction.
 */
module ReferralCalls {
  import opened Common
  import opened Calendar
  import opened Referrals

  type CallId = nat

  /** A payout that is decided: the counter it was decided on, and the payouts or months it covers. */
  datatype Call = Due(read: nat, units: nat)

  /** The attribution's row, and what the referrer has been credited for it. */
  datatype State = State(row: Attribution, credited: int, calls: map<CallId, Call>)

  datatype Step =
    | Read(call: CallId, p: Payment)
    | Commit(call: CallId)

  /** Students are counted by renewals paid out, ambassadors by months. */
  function Counter(a: Attribution): nat { if a.program == StudentReferral then a.renewalPayoutCount else a.commissionMonthsPaid }

  function Cap(r: Rates, a: Attribution): nat { if a.program == StudentReferral then r.studentMaxPayouts else r.maxMonths }

  function Rate(r: Rates, a: Attribution): int { if a.program == StudentReferral then r.studentFlat else r.perMonth }

  /** `increment`: on the counter as it is by then. */
  function Increment(a: Attribution, units: nat): Attribution {
    if a.program == StudentReferral then a.(renewalPayoutCount := a.renewalPayoutCount + units)
    else a.(commissionMonthsPaid := a.commissionMonthsPaid + units)
  }

  /** What the payment would cover of what is left. */
  function Units(r: Rates, a: Attribution, p: Payment): nat {
    if a.program == StudentReferral then 1 else Max(0, Min(MonthsOf(p), r.maxMonths - a.commissionMonthsPaid))
  }

  predicate Enabled(y: State, step: Step) {
    match step
    case Read(call, _) => call !in y.calls
    case Commit(call) => call in y.calls
  }

  function Next(r: Rates, y: State, step: Step): State
    requires Enabled(y, step)
  {
    match step
    case Read(call, p) =>
      if Accrue(r, y.row, p).amount > 0 then y.(calls := y.calls[call := Due(Counter(y.row), Units(r, y.row, p))]) else y
    case Commit(call) =>
      var units := y.calls[call].units;
      State(Increment(y.row, units), y.credited + Rate(r, y.row) * units, y.calls - {call})
  }

  /** With nothing in between, reading and committing is the accrual of the service. */
  lemma UndisturbedAccrual(r: Rates, y: State, call: CallId, p: Payment)
    requires !y.row.program.Creator? && call !in y.calls
    ensures var due, y1 := Accrue(r, y.row, p), Next(r, y, Read(call, p));
            if due.amount > 0 then call in y1.calls && Next(r, y1, Commit(call)) == y.(row := due.attribution, credited := y.credited + due.amount)
            else y1 == y && due.attribution == y.row
  {
    if Accrue(r, y.row, p).amount > 0 { UnitsAreLeft(r, y.row, p); }
    var y1 := Next(r, y, Read(call, p));
    if call in y1.calls { assert y1.calls - {call} == y.calls; }
  }

  /** A payout that is decided fits what the counter leaves, and costs the rate for each unit. */
  lemma UnitsAreLeft(r: Rates, a: Attribution, p: Payment)
    requires !a.program.Creator? && Accrue(r, a, p).amount > 0
    ensures Counter(a) + Units(r, a, p) <= Cap(r, a) && Accrue(r, a, p) == Payout(Increment(a, Units(r, a, p)), Rate(r, a) * Units(r, a, p))
  {}

  // ---- Runs ------------------------------------------------------------------------------------------------

  datatype Run = Run(states: seq<State>, steps: seq<Step>)

  ghost predicate Taken(rates: Rates, r: Run, k: nat)
    requires |r.states| == |r.steps| + 1 && k < |r.steps|
  {
    Enabled(r.states[k], r.steps[k]) && r.states[k + 1] == Next(rates, r.states[k], r.steps[k])
  }

  ghost predicate IsRun(rates: Rates, r: Run) {
    && |r.states| == |r.steps| + 1 && r.states[0].calls == map[] && !r.states[0].row.program.Creator?
    && forall k: nat | k < |r.steps| :: Taken(rates, r, k)
  }

  /** The payouts or months committed from step i up to step k. */
  ghost function CommittedUnits(r: Run, i: nat, k: nat): nat
    requires |r.states| == |r.steps| + 1 && i <= k < |r.states|
    decreases k
  {
    if i == k then 0
    else
      CommittedUnits(r, i, k - 1) +
      if r.steps[k - 1].Commit? && r.steps[k - 1].call in r.states[k - 1].calls then r.states[k - 1].calls[r.steps[k - 1].call].units else 0
  }

  /** Counter and credit move together in every interleaving. */
  lemma {:induction false} CounterIsCommitted(rates: Rates, r: Run, i: nat, k: nat)
    requires IsRun(rates, r) && i <= k < |r.states|
    ensures r.states[k].row.program == r.states[i].row.program
    ensures Counter(r.states[k].row) == Counter(r.states[i].row) + CommittedUnits(r, i, k)
    ensures r.states[k].credited == r.states[i].credited + Rate(rates, r.states[i].row) * CommittedUnits(r, i, k)
    decreases k
  {
    hide Accrue, Units;
    if i < k {
      CounterIsCommitted(rates, r, i, k - 1);
      assert Taken(rates, r, k - 1);
      Distribute(Rate(rates, r.states[i].row), CommittedUnits(r, i, k - 1), CommittedUnits(r, i, k) - CommittedUnits(r, i, k - 1));
    }
  }

  /** Where the call that commits at step `k` read the counter. */
  function ReadAt(steps: seq<Step>, call: CallId, k: nat): (i: nat)
    requires k <= |steps|
    ensures i <= k
  {
    if k == 0 then 0 else if steps[k - 1].Read? && steps[k - 1].call == call then k - 1 else ReadAt(steps, call, k - 1)
  }

  lemma {:induction false} ReadThen(rates: Rates, r: Run, k: nat, call: CallId)
    requires IsRun(rates, r) && k < |r.states| && call in r.states[k].calls
    ensures var i := ReadAt(r.steps, call, k);
            i < k && r.states[k].calls[call].read == Counter(r.states[i].row)
            && Counter(r.states[i].row) + r.states[k].calls[call].units <= Cap(rates, r.states[i].row)
    decreases k
  {
    hide Accrue, Units;
    assert k > 0 && Taken(rates, r, k - 1);
    var y, step := r.states[k - 1], r.steps[k - 1];
    if step.Read? && step.call == call {
      CounterIsCommitted(rates, r, 0, k - 1);
      UnitsAreLeft(rates, y.row, step.p);
    } else {
      ReadThen(rates, r, k - 1, call);
    }
  }

  /** What other calls committed between step m's read and step m is within what that read left beside its own payout. */
  ghost predicate StillFits(rates: Rates, r: Run, m: nat)
    requires |r.states| == |r.steps| + 1 && m < |r.steps|
  {
    r.steps[m].Commit? && r.steps[m].call in r.states[m].calls ==>
      var c := r.states[m].calls[r.steps[m].call];
      CommittedUnits(r, ReadAt(r.steps, r.steps[m].call, m), m) + c.read + c.units <= Cap(rates, r.states[0].row)
  }

  lemma CapStep(rates: Rates, r: Run, m: nat)
    requires IsRun(rates, r) && m < |r.steps| && Counter(r.states[m].row) <= Cap(rates, r.states[0].row)
    ensures Counter(r.states[m + 1].row) <= Cap(rates, r.states[0].row) <==> StillFits(rates, r, m)
  {
    assert Taken(rates, r, m);
    if r.steps[m].Commit? {
      ReadThen(rates, r, m, r.steps[m].call);
      CounterIsCommitted(rates, r, ReadAt(r.steps, r.steps[m].call, m), m);
    }
    hide Accrue, Units;
  }

  /**
   * The counter keeps to its cap throughout a run if and only if every payout still fits when it
   * commits: what others committed since its read is within what the read left over.
   */
  lemma {:induction false} CapKeptExactly(rates: Rates, r: Run, k: nat)
    requires IsRun(rates, r) && k < |r.states| && Counter(r.states[0].row) <= Cap(rates, r.states[0].row)
    ensures (forall j | 0 <= j <= k :: Counter(r.states[j].row) <= Cap(rates, r.states[0].row)) <==> forall m | 0 <= m < k :: StillFits(rates, r, m)
    decreases k
  {
    hide StillFits;
    if k > 0 {
      CapKeptExactly(rates, r, k - 1);
      if Counter(r.states[k - 1].row) <= Cap(rates, r.states[0].row) { CapStep(rates, r, k - 1); }
    }
  }

  /** In particular when no call commits between another's read and its commit. */
  lemma ApartKeepsCap(rates: Rates, r: Run, k: nat)
    requires IsRun(rates, r) && k < |r.states| && Counter(r.states[0].row) <= Cap(rates, r.states[0].row)
    requires forall j, m | 0 <= m < k && r.steps[m].Commit? && ReadAt(r.steps, r.steps[m].call, m) <= j < m :: !r.steps[j].Commit?
    ensures Counter(r.states[k].row) <= Cap(rates, r.states[0].row)
    ensures r.states[k].credited - r.states[0].credited == Rate(rates, r.states[0].row) * (Counter(r.states[k].row) - Counter(r.states[0].row))
  {
    hide StillFits;
    forall m | 0 <= m < k ensures StillFits(rates, r, m) { FitsApart(rates, r, m); }
    CapKeptExactly(rates, r, k);
    CounterIsCommitted(rates, r, 0, k);
  }

  lemma FitsApart(rates: Rates, r: Run, m: nat)
    requires IsRun(rates, r) && m < |r.steps|
    requires r.steps[m].Commit? ==> forall j | ReadAt(r.steps, r.steps[m].call, m) <= j < m :: !r.steps[j].Commit?
    ensures StillFits(rates, r, m)
  {
    if r.steps[m].Commit? && r.steps[m].call in r.states[m].calls {
      ReadThen(rates, r, m, r.steps[m].call);
      NothingCommitted(r, ReadAt(r.steps, r.steps[m].call, m), m);
      CounterIsCommitted(rates, r, 0, ReadAt(r.steps, r.steps[m].call, m));
    }
  }

  lemma {:induction false} NothingCommitted(r: Run, i: nat, k: nat)
    requires |r.states| == |r.steps| + 1 && i <= k < |r.states| && forall j | i <= j < k :: !r.steps[j].Commit?
    ensures CommittedUnits(r, i, k) == 0
    decreases k
  {
    if i < k { NothingCommitted(r, i, k - 1); }
  }

  // ---- A run that passes the cap ----------------------------------------------------------------------------

  function Last(r: Run): State
    requires r.states != []
  {
    r.states[|r.states| - 1]
  }

  lemma Extend(rates: Rates, r: Run, step: Step) returns (r': Run)
    requires IsRun(rates, r) && Enabled(Last(r), step)
    ensures IsRun(rates, r') && Last(r') == Next(rates, Last(r), step) && r'.states[0] == r.states[0]
  {
    hide Next, Enabled;
    r' := Run(r.states + [Next(rates, Last(r), step)], r.steps + [step]);
    forall k: nat | k < |r'.steps| ensures Taken(rates, r', k) {
      if k < |r.steps| { assert Taken(rates, r, k); }
    }
  }

  /** Two renewals that both read the count before its last payout: both are paid, and the count ends past the cap. */
  lemma PaidPastTheCap(rates: Rates, a: Attribution, p: Payment) returns (r: Run)
    requires a.program == StudentReferral && a.renewalPayoutCount + 1 == rates.studentMaxPayouts
    requires rates.studentFlat > 0 && p.renewal && p.approved && p.at <= a.windowEndsAt
    ensures IsRun(rates, r) && r.states[0].row == a
    ensures Counter(Last(r).row) == rates.studentMaxPayouts + 1 && Last(r).credited == r.states[0].credited + 2 * rates.studentFlat
  {
    r := Run([State(a, 0, map[])], []);
    assert IsRun(rates, r);
    hide IsRun;
    r := Extend(rates, r, Read(0, p));
    r := Extend(rates, r, Read(1, p));
    r := Extend(rates, r, Commit(0));
    r := Extend(rates, r, Commit(1));
  }
}
