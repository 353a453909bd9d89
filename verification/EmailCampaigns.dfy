/**
 * email-campaigns.service.ts: a campaign reserves its recipients against the month's quota when
 * it is created, and is sent later to whoever is eligible by then.
 */
module EmailCampaigns {
  import opened Common
  import opened Calendar
  import opened GuardedInserts

  datatype Status = Queued | Sending | Sent | Failed

  datatype Campaign = Campaign(createdAt: int, recipientCount: nat, status: Status, sentCount: nat, failedCount: nat)

  datatype Member = Member(unsubscribed: bool)

  datatype Sender = Sender(ownedBySeller: bool, active: bool)

  datatype Failure = RateLimited | SenderNotFound | SenderNotActive | QuotaExceeded(remaining: int)

  function Eligible(members: seq<Member>): nat {
    if members == [] then 0 else (if members[0].unsubscribed then 0 else 1) + Eligible(members[1..])
  }

  /** The members who have not unsubscribed, counted. */
  lemma {:induction false} EligibleCounts(members: seq<Member>)
    ensures Eligible(members) == multiset(members)[Member(false)]
  {
    if members != [] {
      assert members == [members[0]] + members[1..];
      EligibleCounts(members[1..]);
    }
  }

  /** Recipients reserved by the campaigns created at `since` or later. */
  function Reserved(campaigns: seq<Campaign>, since: int): nat {
    if campaigns == [] then 0
    else
      var last := campaigns[|campaigns| - 1];
      Reserved(campaigns[..|campaigns| - 1], since) + if since <= last.createdAt then last.recipientCount else 0
  }

  lemma ReservedAppend(campaigns: seq<Campaign>, c: Campaign, since: int)
    ensures Reserved(campaigns + [c], since) == Reserved(campaigns, since) + if since <= c.createdAt then c.recipientCount else 0
  {
    assert (campaigns + [c])[..|campaigns|] == campaigns;
  }

  /** The reservations of the campaigns created since are what is summed: nothing else counts. */
  lemma {:induction false} ReservedAdds(a: seq<Campaign>, b: seq<Campaign>, c: Campaign, since: int)
    ensures Reserved([], since) == 0 && Reserved([c], since) == if c.createdAt >= since then c.recipientCount else 0
    ensures Reserved(a + b, since) == Reserved(a, since) + Reserved(b, since)
    decreases b
  {
    assert [c][..0] == [];
    if b == [] {
      assert a + b == a;
    } else {
      ReservedAdds(a, b[..|b| - 1], c, since);
      assert (a + b)[..|a + b| - 1] == a + b[..|b| - 1];
    }
  }

  class EmailCampaignsService {
    var campaigns: seq<Campaign>

    constructor ()
      ensures campaigns == []
    {
      campaigns := [];
    }

    /** All or nothing: a send over what remains is refused whole, and one that fits is reserved whole. */
    method Create(rateOk: bool, members: seq<Member>, sender: Option<Sender>, monthlyLimit: int, now: int, createdAt: int)
      returns (r: Result<nat, Failure>)
      requires now <= createdAt
      modifies this
      ensures r.Ok? <==> rateOk && sender == Some(Sender(true, true)) && Eligible(members) <= monthlyLimit - Reserved(old(campaigns), StartOfMonth(now))
      ensures r == Err(RateLimited) <==> !rateOk
      ensures r == Err(SenderNotFound) <==> rateOk && (sender.None? || !sender.value.ownedBySeller)
      ensures r == Err(SenderNotActive) <==> rateOk && sender.Some? && sender.value.ownedBySeller && !sender.value.active
      ensures r.Err? ==> campaigns == old(campaigns)
      ensures r.Err? && r.error.QuotaExceeded? ==> r.error.remaining == monthlyLimit - Reserved(campaigns, StartOfMonth(now))
      ensures r.Ok? ==> r.value == |old(campaigns)| && campaigns == old(campaigns) + [Campaign(createdAt, Eligible(members), Queued, 0, 0)]
      ensures r.Ok? ==> campaigns[r.value].recipientCount == multiset(members)[Member(false)]
      ensures r.Ok? ==> Reserved(campaigns, StartOfMonth(now)) == Reserved(old(campaigns), StartOfMonth(now)) + Eligible(members) <= monthlyLimit
    {
      EligibleCounts(members);
      if !rateOk { return Err(RateLimited); }
      var eligibleCount := Eligible(members);
      if sender.None? || !sender.value.ownedBySeller { return Err(SenderNotFound); }
      if !sender.value.active { return Err(SenderNotActive); }
      var remaining := monthlyLimit - Reserved(campaigns, StartOfMonth(now));
      if eligibleCount > remaining { return Err(QuotaExceeded(remaining)); }
      var created := Campaign(createdAt, eligibleCount, Queued, 0, 0);
      ReservedAppend(campaigns, created, StartOfMonth(now));
      MonthStartsBefore(now);
      r := Ok(|campaigns|);
      campaigns := campaigns + [created];
    }

    /**
     * The worker sends to the members eligible by now (`delivered` says which sends succeed), and
     * the campaign then records them in place of the number it reserved. A segment that can no
     * longer be read fails the campaign and leaves its reservation.
     */
    method ProcessCampaign(id: nat, segment: Option<seq<Member>>, delivered: seq<bool>)
      requires segment.Some? ==> |delivered| == Eligible(segment.value)
      modifies this
      ensures id >= |old(campaigns)| ==> campaigns == old(campaigns)
      ensures id < |old(campaigns)| && segment.None? ==> campaigns == old(campaigns)[id := old(campaigns)[id].(status := Failed)]
      ensures id < |old(campaigns)| && segment.Some? ==>
                && |campaigns| == |old(campaigns)| && campaigns == old(campaigns)[id := campaigns[id]]
                && campaigns[id].status == Sent && campaigns[id].createdAt == old(campaigns)[id].createdAt
                && campaigns[id].recipientCount == Eligible(segment.value) == campaigns[id].sentCount + campaigns[id].failedCount
                && campaigns[id].sentCount == multiset(delivered)[true]
                && campaigns[id].recipientCount == multiset(segment.value)[Member(false)]
      ensures id < |old(campaigns)| && segment.Some? ==> Rows(campaigns) == AmendRow(Rows(old(campaigns)), id, 0 - Eligible(segment.value))
      ensures id >= |old(campaigns)| || segment.None? ==> Rows(campaigns) == Rows(old(campaigns))
    {
      if id >= |campaigns| { return; }
      if segment.Some? { EligibleCounts(segment.value); }
      campaigns := campaigns[id := campaigns[id].(status := Sending)];
      if segment.None? {
        campaigns := campaigns[id := campaigns[id].(status := Failed)];
        return;
      }
      var sentCount, failedCount := 0, 0;
      for i := 0 to |delivered|
        invariant sentCount + failedCount == i && sentCount == multiset(delivered[..i])[true]
        invariant campaigns == old(campaigns)[id := old(campaigns)[id].(status := Sending)]
      {
        assert delivered[..i + 1] == delivered[..i] + [delivered[i]];
        if delivered[i] { sentCount := sentCount + 1; } else { failedCount := failedCount + 1; }
      }
      assert delivered[..|delivered|] == delivered;
      campaigns := campaigns[id := campaigns[id].(status := Sent, recipientCount := |delivered|, sentCount := sentCount, failedCount := failedCount)];
    }
  }

  // ---- Refinement of the protocol ------------------------------------------------------------------

  function Rows(campaigns: seq<Campaign>): seq<Row> {
    seq(|campaigns|, i requires 0 <= i < |campaigns| => Row(0 - campaigns[i].recipientCount, campaigns[i].createdAt, campaigns[i].createdAt))
  }

  /** What remains of the quota is the protocol's headroom, so `Create` refuses exactly when a decision there does. */
  lemma {:induction false} RemainingIsHeadroom(limit: int, campaigns: seq<Campaign>, since: int)
    ensures Headroom(limit, Rows(campaigns), since) == limit - Reserved(campaigns, since)
  {
    if campaigns != [] {
      var init := campaigns[..|campaigns| - 1];
      RemainingIsHeadroom(limit, init, since);
      assert Rows(campaigns)[..|init|] == Rows(init);
    }
  }

  /** Each request computed its month's start from a clock reading no later than its insert. */
  ghost predicate ChecksItsMonth(steps: seq<Step>) {
    forall j | 0 <= j < |steps| && steps[j].Begin? :: exists asked: int :: asked <= steps[j].at && steps[j].since == StartOfMonth(asked)
  }

  lemma WindowStartsInTime(asked: int, at: int, month: int)
    requires asked <= at && at < MonthStart(month + 1)
    ensures StartOfMonth(asked) <= MonthStart(month)
  {
    hide FirstDay;
    MonthStartsBefore(asked);
    if month < MonthOf(Day(asked)) { FirstDayMonotone(month + 1, MonthOf(Day(asked))); }
    FirstDayMonotone(MonthOf(Day(asked)), month);
  }

  lemma ChecksCoverMonth(steps: seq<Step>, month: int)
    requires ChecksItsMonth(steps)
    ensures ChecksWindow(steps, MonthStart(month), MonthStart(month + 1))
  {
    hide MonthStart, StartOfMonth;
    forall j | 0 <= j < |steps| && steps[j].Begin? && MonthStart(month) <= steps[j].at < MonthStart(month + 1)
      ensures steps[j].since <= MonthStart(month)
    {
      var asked: int :| asked <= steps[j].at && steps[j].since == StartOfMonth(asked);
      WindowStartsInTime(asked, steps[j].at, month);
    }
  }

  /** The month's reservations, and the one the `create` in flight has been let in to make, are within the limit. */
  ghost predicate MonthFits(limit: nat, y: State, month: int) {
    RoomLeft(Guard(limit, true), y, MonthStart(month), MonthStart(month + 1))
  }

  /** A worker's step that records a larger audience finds the increase left over in that campaign's month. */
  ghost predicate AudienceFits(limit: nat, y: State, step: Step, month: int) {
    RaiseFits(Guard(limit, true), y, step, MonthStart(month), MonthStart(month + 1))
  }

  /**
   * In every interleaving of `create` calls and of workers that record the live audience, the
   * month fits at every moment if and only if every audience that grew found its increase left
   * over. The worker itself does not look.
   */
  lemma MonthlyQuotaExactly(limit: nat, r: Run, k: nat, month: int)
    requires IsRun(Guard(limit, true), r) && k < |r.states| && r.states[0].rows == []
    requires ChecksItsMonth(r.steps) && forall j | 0 <= j < |r.steps| :: !r.steps[j].Credit?
    ensures (forall j | 0 <= j <= k :: MonthFits(limit, r.states[j], month)) <==>
            forall j | 0 <= j < k :: AudienceFits(limit, r.states[j], r.steps[j], month)
  {
    hide MonthStart, RoomLeft, RaiseFits, ChecksItsMonth, ChecksWindow;
    var g, lo, hi := Guard(limit, true), MonthStart(month), MonthStart(month + 1);
    ChecksCoverMonth(r.steps, month);
    RoomLeftExactly(g, r, k, lo, hi);
    assert forall j | 0 <= j <= k :: MonthFits(limit, r.states[j], month) <==> RoomLeft(g, r.states[j], lo, hi);
    assert forall j | 0 <= j < k :: AudienceFits(limit, r.states[j], r.steps[j], month) <==> RaiseFits(g, r.states[j], r.steps[j], lo, hi);
  }

  /** A month that fits is within its quota, and one that does not is over it once the `create` in flight has returned. */
  lemma FitsIsQuota(limit: nat, r: Run, month: int) returns (r': Run)
    requires IsRun(Guard(limit, true), r)
    ensures IsRun(Guard(limit, true), r') && r'.states[0] == r.states[0] && r.steps <= r'.steps && |r'.steps| <= |r.steps| + 2
    ensures MonthFits(limit, Last(r), month) ==> r' == r && 0 - Total(Last(r).rows, MonthStart(month), Some(MonthStart(month + 1))) <= limit
    ensures !MonthFits(limit, Last(r), month) ==> 0 - Total(Last(r').rows, MonthStart(month), Some(MonthStart(month + 1))) > limit
  {
    var g, lo, hi := Guard(limit, true), MonthStart(month), MonthStart(month + 1);
    hide MonthStart, RoomLeft;
    r' := r;
    if MonthFits(limit, Last(r), month) {
      ExclusiveThroughout(g, r, |r.states| - 1);
      RoomLeftIsWithin(g, Last(r), lo, hi);
    } else {
      r' := NothingLeftOverdraws(g, r, lo, hi);
    }
  }

  /** So as long as no audience grows, the recipients of a month's campaigns stay within the limit in every interleaving. */
  lemma MonthlyQuota(limit: nat, r: Run, k: nat, month: int)
    requires IsRun(Guard(limit, true), r) && k < |r.states| && r.states[0].rows == [] && NoRaises(r)
    requires ChecksItsMonth(r.steps) && forall j | 0 <= j < |r.steps| :: !r.steps[j].Credit?
    ensures 0 - Total(r.states[k].rows, MonthStart(month), Some(MonthStart(month + 1))) <= limit
  {
    hide MonthStart, RoomLeft, ChecksItsMonth;
    assert forall j | 0 <= j < k :: AudienceFits(limit, r.states[j], r.steps[j], month);
    MonthlyQuotaExactly(limit, r, k, month);
    assert MonthFits(limit, r.states[k], month);
    var g := Guard(limit, true);
    ExclusiveThroughout(g, r, k);
    RoomLeftIsWithin(g, r.states[k], MonthStart(month), MonthStart(month + 1));
  }

  /** Sending keeps the month within the limit exactly when the audience grew by no more than what remained. */
  lemma SendingKeepsQuota(limit: int, campaigns: seq<Campaign>, id: nat, eligible: nat, since: int)
    requires id < |campaigns| && since <= campaigns[id].createdAt
    ensures Reserved(campaigns[id := campaigns[id].(recipientCount := eligible)], since) <= limit <==>
            eligible - campaigns[id].recipientCount <= limit - Reserved(campaigns, since)
  {
    var after := campaigns[id := campaigns[id].(recipientCount := eligible)];
    var rows := Rows(campaigns);
    RemainingIsHeadroom(limit, campaigns, since);
    RemainingIsHeadroom(limit, after, since);
    assert Rows(after) == AmendRow(rows, id, 0 - eligible);
    RaisingACost(limit, rows, id, 0 - eligible, since);
  }
}
