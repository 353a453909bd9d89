/**
 * What a request of dashboard-api.ts comes to, in every run of the refresh protocol: its result is
 * the server's last answer to it, and it is sent again exactly when the refresh it waited for ended
 * with a new token.
 */
module RefreshOutcomes {
  import opened Common
  import opened Sessions
  import opened RefreshProtocol

  /** The server's last answer to request `q` before step `k`. */
  function LastAnswer(steps: seq<Step>, q: nat, k: nat): Option<Status>
    requires k <= |steps|
  {
    if k == 0 then None else if steps[k - 1].Answer? && steps[k - 1].q == q then Some(steps[k - 1].status) else LastAnswer(steps, q, k - 1)
  }

  ghost predicate SettledBefore(steps: seq<Step>, f: nat, k: nat)
    requires k <= |steps|
  {
    exists j: nat | j < k :: steps[j] == Settle(f)
  }

  ghost predicate RequestSays(p: Phase, last: Option<Status>) {
    match p
    case Ready(retry) => last == if retry then Some(Unauthorized401) else None
    case Sent(retry) => last == if retry then Some(Unauthorized401) else None
    case Answered(_, status) => last == Some(status)
    case Waiting(_) => last == Some(Unauthorized401)
    case Finished(ok) => last.Some? && (ok <==> last == Some(Success))
  }

  lemma RequestStep(c: Config, y: State, step: Step, q: nat, last: Option<Status>)
    requires Enabled(y, step) && q < |y.requests| && RequestSays(y.requests[q].phase, last)
    ensures var y' := Next(c, y, step);
            && |y'.requests| == |y.requests|
            && RequestSays(y'.requests[q].phase, if step.Answer? && step.q == q then Some(step.status) else last)
  {
    hide Refresh, Validate, DestroyAllSessionsForUser;
  }

  lemma {:induction false} AnswersMatch(c: Config, r: Run, k: nat, q: nat)
    requires IsRun(c, r) && k < |r.states| && q < |r.states[0].requests|
    ensures q < |r.states[k].requests| && RequestSays(r.states[k].requests[q].phase, LastAnswer(r.steps, q, k))
  {
    hide Next, Enabled, RequestSays;
    if k > 0 {
      AnswersMatch(c, r, k - 1, q);
      assert Taken(c, r, k - 1);
      RequestStep(c, r.states[k - 1], r.steps[k - 1], q, LastAnswer(r.steps, q, k - 1));
    } else {
      Unanswered(c, r, q);
    }
  }

  lemma Unanswered(c: Config, r: Run, q: nat)
    requires IsRun(c, r) && q < |r.states[0].requests|
    ensures RequestSays(r.states[0].requests[q].phase, None) && LastAnswer(r.steps, q, 0) == None
  {}

  /** A request that has returned succeeded if and only if the last answer to it was a success, and no answer was left out. */
  lemma ResultIsLastAnswer(c: Config, r: Run, k: nat, q: nat)
    requires IsRun(c, r) && k < |r.states| && q < |r.states[0].requests|
    ensures q < |r.states[k].requests|
    ensures r.states[k].requests[q].phase.Finished? ==>
              LastAnswer(r.steps, q, k).Some? && (r.states[k].requests[q].phase.ok <==> LastAnswer(r.steps, q, k) == Some(Success))
  {
    AnswersMatch(c, r, k, q);
  }

  /** Whether the refresh's `.then` has taken its new token, by phase; a refresh that has not started has taken none. */
  ghost predicate FlightSays(y: State, f: nat, settled: bool) {
    if f >= |y.flights| then !settled
    else
      match y.flights[f].phase
      case Settled(ok) => ok <==> settled
      case Cleared(ok) => ok <==> settled
      case _ => !settled
  }

  lemma FlightStep(c: Config, y: State, step: Step, f: nat, settled: bool)
    requires Enabled(y, step) && FlightSays(y, f, settled)
    ensures FlightSays(Next(c, y, step), f, settled || step == Settle(f))
  {
    hide Refresh, Validate, DestroyAllSessionsForUser;
  }

  lemma {:induction false} FlightsMatch(c: Config, r: Run, k: nat, f: nat)
    requires IsRun(c, r) && k < |r.states|
    ensures FlightSays(r.states[k], f, SettledBefore(r.steps, f, k))
  {
    hide Next, Enabled, FlightSays;
    if k > 0 {
      FlightsMatch(c, r, k - 1, f);
      assert Taken(c, r, k - 1);
      FlightStep(c, r.states[k - 1], r.steps[k - 1], f, SettledBefore(r.steps, f, k - 1));
      assert SettledBefore(r.steps, f, k) <==> SettledBefore(r.steps, f, k - 1) || r.steps[k - 1] == Settle(f);
    } else {
      NothingSettled(c, r, f);
    }
  }

  lemma NothingSettled(c: Config, r: Run, f: nat)
    requires IsRun(c, r)
    ensures FlightSays(r.states[0], f, false) && !SettledBefore(r.steps, f, 0)
  {}

  /**
   * A request whose first answer is a 401 waits for its tab's refresh, and no other does. When it
   * resumes it is sent once more if that refresh ended with a new token, and gives up if not.
   */
  lemma RetriedExactly(c: Config, r: Run, k: nat, q: nat)
    requires IsRun(c, r) && k < |r.steps| && q < |r.states[0].requests|
    ensures q < |r.states[k].requests| && q < |r.states[k + 1].requests|
    ensures r.steps[k] == Receive(q) ==>
              (r.states[k + 1].requests[q].phase.Waiting? <==> LastAnswer(r.steps, q, k) == Some(Unauthorized401) && r.states[k].requests[q].sends == 1)
    ensures r.steps[k] == Resume(q) ==>
              && r.states[k].requests[q].phase.Waiting?
              && var f := r.states[k].requests[q].phase.flight;
                 r.states[k + 1].requests[q].phase ==
                 if exists j: nat | j < k :: r.steps[j] == Settle(f) then Ready(true) else Finished(false)
  {
    assert Taken(c, r, k);
    AnswersMatch(c, r, k, q);
    AnswersMatch(c, r, k + 1, q);
    AtMostTwoSends(c, r, k);
    if r.steps[k] == Resume(q) { FlightsMatch(c, r, k, r.states[k].requests[q].phase.flight); }
    hide IsRun, Refresh, Validate, DestroyAllSessionsForUser, LastAnswer;
  }
}
