/**
 * api-client.ts `runWithConcurrency`: runners that share one cursor. Between its awaits a runner
 * is not interrupted, so taking an index is one step; workers end in any order.
 */
module WorkerPool {
  import opened Common

  datatype Runner = Looping | Working(index: nat) | Returned

  /** `handed` records the indices in the order they were taken, `done` the workers that have ended. */
  datatype Pool = Pool(n: nat, cursor: nat, runners: seq<Runner>, handed: seq<nat>, done: set<nat>)

  datatype Step = Take(r: nat) | Finish(r: nat) | Return(r: nat)

  function Start(n: nat, concurrency: nat): Pool { Pool(n, 0, seq(Min(concurrency, n), _ => Looping), [], {}) }

  predicate Enabled(y: Pool, step: Step) {
    match step
    case Take(r) => r < |y.runners| && y.runners[r].Looping? && y.cursor < y.n
    case Finish(r) => r < |y.runners| && y.runners[r].Working?
    case Return(r) => r < |y.runners| && y.runners[r].Looping? && y.cursor >= y.n
  }

  function Next(y: Pool, step: Step): Pool
    requires Enabled(y, step)
  {
    match step
    case Take(r) => y.(cursor := y.cursor + 1, runners := y.runners[r := Working(y.cursor)], handed := y.handed + [y.cursor])
    case Finish(r) => y.(runners := y.runners[r := Looping], done := y.done + {y.runners[r].index})
    case Return(r) => y.(runners := y.runners[r := Returned])
  }

  function InFlight(y: Pool): set<nat> { set r | 0 <= r < |y.runners| && y.runners[r].Working? :: y.runners[r].index }

  function Busy(y: Pool): set<nat> { set r: nat | r < |y.runners| && y.runners[r].Working? }

  /** Every index below the cursor is in flight on one runner or done; nothing is on two runners. */
  ghost predicate Consistent(y: Pool) {
    && y.cursor <= y.n && y.handed == seq(y.cursor, i => i)
    && (forall r | 0 <= r < |y.runners| && y.runners[r].Working? :: y.runners[r].index < y.cursor && y.runners[r].index !in y.done)
    && (forall r, q | 0 <= r < q < |y.runners| && y.runners[r].Working? && y.runners[q].Working? :: y.runners[r].index != y.runners[q].index)
    && (forall i | 0 <= i < y.cursor :: i in y.done || i in InFlight(y))
    && (forall i | i in y.done :: i < y.cursor)
    && (forall r | 0 <= r < |y.runners| && y.runners[r].Returned? :: y.cursor == y.n)
  }

  lemma ConsistentStep(y: Pool, step: Step)
    requires Consistent(y) && Enabled(y, step)
    ensures Consistent(Next(y, step))
  {
    var y' := Next(y, step);
    forall i | 0 <= i < y'.cursor ensures i in y'.done || i in InFlight(y') {
      if i < y.cursor && i !in y.done {
        var r :| 0 <= r < |y.runners| && y.runners[r].Working? && y.runners[r].index == i;
        if r == step.r {
          assert step.Finish?;
        } else {
          assert y'.runners[r] == y.runners[r];
        }
      } else if i == y.cursor {
        assert y'.runners[step.r] == Working(i);
      }
    }
  }

  datatype Run = Run(states: seq<Pool>, steps: seq<Step>)

  ghost predicate Taken(r: Run, k: nat)
    requires |r.states| == |r.steps| + 1 && k < |r.steps|
  {
    Enabled(r.states[k], r.steps[k]) && r.states[k + 1] == Next(r.states[k], r.steps[k])
  }

  ghost predicate IsRun(r: Run, n: nat, concurrency: nat) {
    |r.states| == |r.steps| + 1 && r.states[0] == Start(n, concurrency) && forall k: nat | k < |r.steps| :: Taken(r, k)
  }

  lemma {:induction false} ConsistentThroughout(r: Run, n: nat, concurrency: nat, k: nat)
    requires IsRun(r, n, concurrency) && k < |r.states|
    ensures Consistent(r.states[k]) && r.states[k].n == n && |r.states[k].runners| == Min(concurrency, n)
  {
    if k > 0 {
      hide Consistent;
      ConsistentThroughout(r, n, concurrency, k - 1);
      assert Taken(r, k - 1);
      ConsistentStep(r.states[k - 1], r.steps[k - 1]);
    }
  }

  lemma {:induction false} AtMostRunners(m: nat, s: set<nat>)
    requires forall x | x in s :: x < m
    ensures |s| <= m
  {
    if m == 0 {
      assert s == {};
    } else {
      AtMostRunners(m - 1, s - {m - 1});
    }
  }

  /** Indices are handed out in order, each once, and never more than min(concurrency, n) workers are in flight. */
  lemma EachIndexOnce(r: Run, n: nat, concurrency: nat, k: nat)
    requires IsRun(r, n, concurrency) && k < |r.states|
    ensures var y := r.states[k];
            && y.cursor <= n && y.handed == seq(y.cursor, i => i) && NoDuplicates(y.handed)
            && |Busy(y)| <= Min(concurrency, n)
  {
    ConsistentThroughout(r, n, concurrency, k);
    AtMostRunners(Min(concurrency, n), Busy(r.states[k]));
  }

  // ---- Ending -----------------------------------------------------------------------------------------

  function Cost(x: Runner): nat { match x case Working(_) => 2 case Looping => 1 case Returned => 0 }

  function Costs(runners: seq<Runner>): nat {
    if runners == [] then 0 else Costs(runners[..|runners| - 1]) + Cost(runners[|runners| - 1])
  }

  /** Items left count twice, so that taking one pays for the runner that becomes busy. */
  function WorkLeft(y: Pool): nat
    requires y.cursor <= y.n
  {
    2 * (y.n - y.cursor) + Costs(y.runners)
  }

  lemma {:induction false} CostsUpdate(runners: seq<Runner>, r: nat, x: Runner)
    requires r < |runners|
    ensures Costs(runners[r := x]) == Costs(runners) - Cost(runners[r]) + Cost(x)
  {
    var m := |runners| - 1;
    if r < m {
      assert runners[r := x][..m] == runners[..m][r := x];
      CostsUpdate(runners[..m], r, x);
    } else {
      assert runners[r := x][..m] == runners[..m];
    }
  }

  /** Every step leaves less to do, so every run ends. */
  lemma WorkShrinks(y: Pool, step: Step)
    requires Consistent(y) && Enabled(y, step)
    ensures Next(y, step).cursor <= y.n && WorkLeft(Next(y, step)) < WorkLeft(y)
  {
    CostsUpdate(y.runners, step.r, Next(y, step).runners[step.r]);
  }

  lemma {:induction false} CostsAtStart(m: nat)
    ensures Costs(seq(m, _ => Looping)) == m
  {
    if m > 0 {
      CostsAtStart(m - 1);
      assert seq(m, _ => Looping)[..m - 1] == seq(m - 1, _ => Looping);
    }
  }

  lemma {:induction false} RunsAreShort(r: Run, n: nat, concurrency: nat, k: nat)
    requires IsRun(r, n, concurrency) && k < |r.states|
    ensures r.states[k].cursor <= r.states[k].n && k + WorkLeft(r.states[k]) <= 2 * n + Min(concurrency, n)
  {
    hide WorkLeft, Consistent, Next, Enabled;
    if k > 0 {
      RunsAreShort(r, n, concurrency, k - 1);
      ConsistentThroughout(r, n, concurrency, k - 1);
      assert Taken(r, k - 1);
      WorkShrinks(r.states[k - 1], r.steps[k - 1]);
      assert r.states[k].n == r.states[k - 1].n by { SameItems(r.states[k - 1], r.steps[k - 1]); }
    } else {
      WorkAtStart(n, concurrency);
    }
  }

  lemma SameItems(y: Pool, step: Step)
    requires Enabled(y, step)
    ensures Next(y, step).n == y.n
  {}

  lemma WorkAtStart(n: nat, concurrency: nat)
    ensures WorkLeft(Start(n, concurrency)) == 2 * n + Min(concurrency, n)
  {
    CostsAtStart(Min(concurrency, n));
  }

  /** The pool has come to its end when no step is left. */
  ghost predicate Ended(y: Pool) { forall step :: !Enabled(y, step) }

  /** With at least one runner allowed, the pool ends with every item done. */
  lemma EndsWithAllDone(r: Run, n: nat, concurrency: nat, k: nat)
    requires IsRun(r, n, concurrency) && k < |r.states| && concurrency >= 1 && Ended(r.states[k])
    ensures forall i: nat :: i in r.states[k].done <==> i < n
    ensures forall q | 0 <= q < |r.states[k].runners| :: r.states[k].runners[q].Returned?
  {
    ConsistentThroughout(r, n, concurrency, k);
    var y := r.states[k];
    forall q: nat | q < |y.runners| ensures y.runners[q].Returned? {
      assert !Enabled(y, Take(q)) && !Enabled(y, Finish(q)) && !Enabled(y, Return(q));
    }
    if n > 0 { assert y.runners[0].Returned?; }
    assert InFlight(y) == {};
  }
}
