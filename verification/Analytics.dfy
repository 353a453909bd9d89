/**
 * Sales over time: orders are totalled per calendar bucket, and a bounded loop walks the
 * buckets of a date range. A bucket is named by the day it starts on; money is in cents.
 */
module Analytics {
  import opened Common
  import opened Calendar

  const MAX_POINTS := 10_000

  datatype Bucket = ByDay | ByWeek | ByMonth

  datatype Order = Order(placedAt: int, totalAmount: int)

  datatype Totals = Totals(orderCount: nat, revenue: int)

  datatype Point = Point(bucketStart: int, orderCount: nat, revenue: int)

  /** `getUTCDay` counts from Sunday, and day 0 was a Thursday; this counts from Monday. */
  function DaysSinceMonday(day: int): int { ((day + 4) % 7 + 6) % 7 }

  function BucketKey(time: int, bucket: Bucket): int {
    var day := Day(time);
    match bucket
    case ByDay => day
    case ByWeek => day - DaysSinceMonday(day)
    case ByMonth => FirstDay(MonthOf(day))
  }

  function StepBucket(key: int, bucket: Bucket): int {
    match bucket
    case ByDay => key + 1
    case ByWeek => key + 7
    case ByMonth => FirstDay(MonthOf(key) + 1) + (key - FirstDay(MonthOf(key)))
  }

  // ---- The buckets as a numbered line --------------------------------------------------

  /** The number of the bucket a day lies in: days, weeks since the Monday before day 0, months. */
  function IndexOf(day: int, bucket: Bucket): int {
    match bucket case ByDay => day case ByWeek => (day + 3) / 7 case ByMonth => MonthOf(day)
  }

  function StartOf(index: int, bucket: Bucket): int {
    match bucket case ByDay => index case ByWeek => 7 * index - 3 case ByMonth => FirstDay(index)
  }

  /** Buckets are gap-free and do not overlap: each ends where the next one starts. */
  lemma BucketsTile(day: int, bucket: Bucket)
    ensures var i := IndexOf(day, bucket); StartOf(i, bucket) <= day < StartOf(i + 1, bucket)
  {
    hide FirstDay;
  }

  lemma {:induction false} StartsIncrease(i: int, j: int, bucket: Bucket)
    requires i < j
    ensures StartOf(i, bucket) < StartOf(j, bucket)
  {
    hide FirstDay;
    FirstDayMonotone(i, j);
  }

  lemma IndexMonotone(d: int, e: int, bucket: Bucket)
    requires d <= e
    ensures IndexOf(d, bucket) <= IndexOf(e, bucket)
  {
    hide FirstDay;
    var i, j := IndexOf(d, bucket), IndexOf(e, bucket);
    BucketsTile(d, bucket); BucketsTile(e, bucket);
    if j + 1 < i { StartsIncrease(j + 1, i, bucket); }
  }

  /** The code's key of a time is the start of the bucket that holds the time's day. */
  lemma KeyIsStart(time: int, bucket: Bucket)
    ensures BucketKey(time, bucket) == StartOf(IndexOf(Day(time), bucket), bucket)
  {
    hide FirstDay;
  }

  /** The code's step from one bucket start is the next bucket start. */
  lemma StepIsNext(index: int, bucket: Bucket)
    ensures StepBucket(StartOf(index, bucket), bucket) == StartOf(index + 1, bucket)
  {
    hide FirstDay;
    if bucket == ByMonth {
      FirstDayMonotone(index, index + 1);
      MonthOfUnique(FirstDay(index), index);
    }
  }

  // ---- Totals ---------------------------------------------------------------------------

  function Add(a: Totals, b: Totals): Totals { Totals(a.orderCount + b.orderCount, a.revenue + b.revenue) }

  /** Count and revenue of the orders whose bucket number is in [lo, hi). */
  function TotalsBetween(orders: seq<Order>, bucket: Bucket, lo: int, hi: int): Totals {
    if orders == [] then Totals(0, 0)
    else
      var last := orders[|orders| - 1];
      var rest := TotalsBetween(orders[..|orders| - 1], bucket, lo, hi);
      if lo <= IndexOf(Day(last.placedAt), bucket) < hi then Add(rest, Totals(1, last.totalAmount)) else rest
  }

  lemma {:induction false} TotalsSplit(orders: seq<Order>, bucket: Bucket, lo: int, mid: int, hi: int)
    requires lo <= mid <= hi
    ensures TotalsBetween(orders, bucket, lo, hi)
         == Add(TotalsBetween(orders, bucket, lo, mid), TotalsBetween(orders, bucket, mid, hi))
  {
    if orders != [] { TotalsSplit(orders[..|orders| - 1], bucket, lo, mid, hi); }
  }

  function SumPoints(points: seq<Point>): Totals {
    if points == [] then Totals(0, 0)
    else
      var last := points[|points| - 1];
      Add(SumPoints(points[..|points| - 1]), Totals(last.orderCount, last.revenue))
  }

  function PointAt(orders: seq<Order>, bucket: Bucket, index: int): Point {
    var t := TotalsBetween(orders, bucket, index, index + 1);
    Point(StartOf(index, bucket), t.orderCount, t.revenue)
  }

  /** The points of `n` consecutive buckets, the first of them bucket number `first`. */
  function Points(orders: seq<Order>, bucket: Bucket, first: int, n: nat): (points: seq<Point>)
    ensures |points| == n
    ensures forall k :: 0 <= k < n ==> points[k] == PointAt(orders, bucket, first + k)
  {
    if n == 0 then [] else Points(orders, bucket, first, n - 1) + [PointAt(orders, bucket, first + n - 1)]
  }

  /** Conservation: consecutive points add up to the orders that lie in their buckets. */
  lemma {:induction false} PointsConserve(orders: seq<Order>, bucket: Bucket, first: int, n: nat)
    ensures SumPoints(Points(orders, bucket, first, n)) == TotalsBetween(orders, bucket, first, first + n)
  {
    hide IndexOf, StartOf, TotalsBetween;
    if n == 0 {
      NoneBetween(orders, bucket, first);
    } else {
      var points := Points(orders, bucket, first, n);
      assert points[..n - 1] == Points(orders, bucket, first, n - 1);
      PointsConserve(orders, bucket, first, n - 1);
      TotalsSplit(orders, bucket, first, first + n - 1, first + n);
    }
  }

  lemma {:induction false} NoneBetween(orders: seq<Order>, bucket: Bucket, at: int)
    ensures TotalsBetween(orders, bucket, at, at) == Totals(0, 0)
  {
    if orders != [] { NoneBetween(orders[..|orders| - 1], bucket, at); }
  }

  // ---- Totals against the orders themselves ---------------------------------------------------

  /** Plain sum: it knows no buckets. */
  function Revenue(orders: seq<Order>): int {
    if orders == [] then 0 else orders[0].totalAmount + Revenue(orders[1..])
  }

  /** The orders placed on the days from `from` up to, and not including, `to`. */
  function PlacedBetween(orders: seq<Order>, from: int, to: int): seq<Order> {
    if orders == [] then []
    else (if from <= Day(orders[0].placedAt) < to then [orders[0]] else []) + PlacedBetween(orders[1..], from, to)
  }

  lemma {:induction false} RevenueAppend(a: seq<Order>, b: seq<Order>)
    ensures Revenue(a + b) == Revenue(a) + Revenue(b)
  {
    if a == [] { assert a + b == b; }
    else {
      assert (a + b)[1..] == a[1..] + b;
      RevenueAppend(a[1..], b);
    }
  }

  lemma {:induction false} PlacedAppend(a: seq<Order>, b: seq<Order>, from: int, to: int)
    ensures PlacedBetween(a + b, from, to) == PlacedBetween(a, from, to) + PlacedBetween(b, from, to)
  {
    if a == [] { assert a + b == b; }
    else {
      assert (a + b)[1..] == a[1..] + b;
      PlacedAppend(a[1..], b, from, to);
    }
  }

  /** As many as there are indices of such orders. */
  lemma {:induction false} PlacedCount(orders: seq<Order>, from: int, to: int)
    ensures |PlacedBetween(orders, from, to)| == |set i | 0 <= i < |orders| && from <= Day(orders[i].placedAt) < to|
  {
    hide Day;
    if orders != [] {
      var n := |orders| - 1;
      var init := orders[..n];
      assert orders == init + [orders[n]];
      PlacedAppend(init, [orders[n]], from, to);
      OnePlaced(orders[n], from, to);
      hide PlacedBetween;
      PlacedCount(init, from, to);
      var before, after := set i | 0 <= i < n && from <= Day(init[i].placedAt) < to, set i | 0 <= i < |orders| && from <= Day(orders[i].placedAt) < to;
      assert after == if from <= Day(orders[n].placedAt) < to then before + {n as int} else before;
    }
  }

  lemma {:induction false} AllPlaced(orders: seq<Order>, from: int, to: int)
    requires forall o | o in orders :: from <= Day(o.placedAt) < to
    ensures PlacedBetween(orders, from, to) == orders
  {
    if orders != [] { AllPlaced(orders[1..], from, to); }
  }

  /** A day lies in the buckets from `lo` up to `hi` exactly if it lies between their starts. */
  lemma BucketsByDay(day: int, bucket: Bucket, lo: int, hi: int)
    ensures lo <= IndexOf(day, bucket) < hi <==> StartOf(lo, bucket) <= day < StartOf(hi, bucket)
  {
    var i := IndexOf(day, bucket);
    BucketsTile(day, bucket);
    hide IndexOf, StartOf;
    if lo < i { StartsIncrease(lo, i, bucket); }
    if i + 1 < lo { StartsIncrease(i + 1, lo, bucket); }
    if hi < i { StartsIncrease(hi, i, bucket); }
    if i + 1 < hi { StartsIncrease(i + 1, hi, bucket); }
  }

  lemma OnePlaced(o: Order, from: int, to: int)
    ensures PlacedBetween([o], from, to) == if from <= Day(o.placedAt) < to then [o] else []
    ensures Revenue([o]) == o.totalAmount && Revenue([]) == 0 && PlacedBetween([], from, to) == []
  {
    assert [o][1..] == [];
  }

  /** The totals of consecutive buckets are the number of the orders placed on their days, and what these add up to. */
  lemma {:induction false} TotalsAreOrders(orders: seq<Order>, bucket: Bucket, lo: int, hi: int)
    ensures var placed := PlacedBetween(orders, StartOf(lo, bucket), StartOf(hi, bucket));
            TotalsBetween(orders, bucket, lo, hi) == Totals(|placed|, Revenue(placed))
  {
    hide IndexOf, StartOf, Day, PlacedBetween, Revenue;
    var from, to := StartOf(lo, bucket), StartOf(hi, bucket);
    if orders != [] {
      var n := |orders| - 1;
      var init, last := orders[..n], orders[n];
      assert orders == init + [last];
      TotalsAreOrders(init, bucket, lo, hi);
      PlacedAppend(init, [last], from, to);
      OnePlaced(last, from, to);
      BucketsByDay(Day(last.placedAt), bucket, lo, hi);
      RevenueAppend(PlacedBetween(init, from, to), PlacedBetween([last], from, to));
    } else {
      OnePlaced(Order(0, 0), from, to);
    }
  }

  /** Where a bucket starts: at the day itself, at the last Monday (day 4 was one, 5 January 1970), or on the first of the month. */
  lemma BucketStarts(time: int, bucket: Bucket)
    ensures var key, day := BucketKey(time, bucket), Day(time);
            && (bucket == ByDay ==> key == day)
            && (bucket == ByWeek ==> key <= day < key + 7 && (key - 4) % 7 == 0)
            && (bucket == ByMonth ==> key == FirstDay(MonthOf(day)))
  {
    hide FirstDay;
  }

  // ---- The bounded walk -------------------------------------------------------------------

  method TotalOrders(orders: seq<Order>, bucket: Bucket) returns (totals: map<int, Totals>)
    ensures forall i :: (StartOf(i, bucket) in totals ==> totals[StartOf(i, bucket)] == TotalsBetween(orders, bucket, i, i + 1))
    ensures forall i :: (StartOf(i, bucket) !in totals ==> TotalsBetween(orders, bucket, i, i + 1) == Totals(0, 0))
    ensures forall i ::
              var placed := PlacedBetween(orders, StartOf(i, bucket), StartOf(i + 1, bucket));
              if StartOf(i, bucket) in totals then totals[StartOf(i, bucket)] == Totals(|placed|, Revenue(placed)) else placed == []
  {
    forall i { TotalsAreOrders(orders, bucket, i, i + 1); }
    hide FirstDay, StartOf, IndexOf, BucketKey;
    totals := map[];
    for n := 0 to |orders|
      invariant forall i :: (StartOf(i, bucket) in totals ==> totals[StartOf(i, bucket)] == TotalsBetween(orders[..n], bucket, i, i + 1))
      invariant forall i :: (StartOf(i, bucket) !in totals ==> TotalsBetween(orders[..n], bucket, i, i + 1) == Totals(0, 0))
    {
      var order := orders[n];
      var key := BucketKey(order.placedAt, bucket);
      var existing := if key in totals then totals[key] else Totals(0, 0);
      ghost var was := totals;
      totals := totals[key := Totals(existing.orderCount + 1, existing.revenue + order.totalAmount)];
      ghost var at := IndexOf(Day(order.placedAt), bucket);
      KeyIsStart(order.placedAt, bucket);
      assert orders[..n + 1][..n] == orders[..n];
      forall i | i != at ensures StartOf(i, bucket) != key {
        if i < at { StartsIncrease(i, at, bucket); } else { StartsIncrease(at, i, bucket); }
      }
    }
    assert orders[..|orders|] == orders;
  }

  /** Buckets from the range's first to its last; not positive for an inverted range. */
  function Span(rangeStart: int, rangeEnd: int, bucket: Bucket): int {
    IndexOf(Day(rangeEnd), bucket) - IndexOf(Day(rangeStart), bucket) + 1
  }

  /** Consecutive points from the range's first bucket, 10,000 of them unless the last bucket comes sooner. */
  function Chart(orders: seq<Order>, bucket: Bucket, rangeStart: int, rangeEnd: int): seq<Point> {
    var span := Span(rangeStart, rangeEnd, bucket);
    Points(orders, bucket, IndexOf(Day(rangeStart), bucket), if 1 <= span <= MAX_POINTS then span else MAX_POINTS)
  }

  /** Each point shows the number of the orders placed from its start up to the next one's, and what they add up to. */
  lemma PointsAreOrders(orders: seq<Order>, bucket: Bucket, rangeStart: int, rangeEnd: int)
    ensures forall p | p in Chart(orders, bucket, rangeStart, rangeEnd) ::
              var placed := PlacedBetween(orders, p.bucketStart, StepBucket(p.bucketStart, bucket));
              p.orderCount == |placed| && p.revenue == Revenue(placed)
  {
    hide FirstDay, StartOf, IndexOf, StepBucket, TotalsBetween, PlacedBetween, Revenue;
    var first := IndexOf(Day(rangeStart), bucket);
    var points := Chart(orders, bucket, rangeStart, rangeEnd);
    forall k | 0 <= k < |points|
      ensures var placed := PlacedBetween(orders, points[k].bucketStart, StepBucket(points[k].bucketStart, bucket));
              points[k].orderCount == |placed| && points[k].revenue == Revenue(placed)
    {
      TotalsAreOrders(orders, bucket, first + k, first + k + 1);
      StepIsNext(first + k, bucket);
    }
  }

  method BucketSalesOverTime(orders: seq<Order>, bucket: Bucket, rangeStart: int, rangeEnd: int) returns (points: seq<Point>)
    ensures points == Chart(orders, bucket, rangeStart, rangeEnd)
    ensures forall p | p in points ::
              var placed := PlacedBetween(orders, p.bucketStart, StepBucket(p.bucketStart, bucket));
              p.orderCount == |placed| && p.revenue == Revenue(placed)
  {
    hide FirstDay, StartOf, IndexOf, BucketKey, StepBucket, PlacedBetween, Revenue, TotalsBetween;
    var totals := TotalOrders(orders, bucket);
    points := [];
    var cursor := BucketKey(rangeStart, bucket);
    var endKey := BucketKey(rangeEnd, bucket);
    ghost var first, last := IndexOf(Day(rangeStart), bucket), IndexOf(Day(rangeEnd), bucket);
    KeyIsStart(rangeStart, bucket);
    KeyIsStart(rangeEnd, bucket);
    var guard := 0;
    while guard < MAX_POINTS
      invariant 0 <= guard <= MAX_POINTS
      invariant cursor == StartOf(first + guard, bucket)
      invariant points == Points(orders, bucket, first, guard)
      invariant first <= last ==> guard <= last - first
      decreases MAX_POINTS - guard
    {
      var entry := if cursor in totals then totals[cursor] else Totals(0, 0);
      points := points + [Point(cursor, entry.orderCount, entry.revenue)];
      assert points == Points(orders, bucket, first, guard + 1);
      SameStart(first + guard, last, bucket);
      if cursor == endKey { break; }
      cursor := StepBucket(cursor, bucket);
      StepIsNext(first + guard, bucket);
      guard := guard + 1;
    }
    PointsAreOrders(orders, bucket, rangeStart, rangeEnd);
  }

  lemma SameStart(i: int, j: int, bucket: Bucket)
    ensures StartOf(i, bucket) == StartOf(j, bucket) <==> i == j
  {
    hide StartOf;
    if i < j { StartsIncrease(i, j, bucket); }
    if j < i { StartsIncrease(j, i, bucket); }
  }

  /**
   * The chart starts at the range's first bucket, steps without a gap, and ends at the range's
   * last bucket exactly when the range is not inverted and spans at most 10,000 buckets.
   */
  lemma ChartCoversRange(orders: seq<Order>, bucket: Bucket, rangeStart: int, rangeEnd: int)
    ensures var points := Chart(orders, bucket, rangeStart, rangeEnd);
            && points[0].bucketStart == BucketKey(rangeStart, bucket)
            && (forall j, k :: 0 <= j && k == j + 1 < |points| ==>
                  points[k].bucketStart == StepBucket(points[j].bucketStart, bucket) > points[j].bucketStart)
            && (points[|points| - 1].bucketStart == BucketKey(rangeEnd, bucket) <==> 1 <= Span(rangeStart, rangeEnd, bucket) <= 10_000)
            && |points| == if 1 <= Span(rangeStart, rangeEnd, bucket) <= 10_000 then Span(rangeStart, rangeEnd, bucket) else 10_000
  {
    hide FirstDay, StartOf, IndexOf, BucketKey, StepBucket, TotalsBetween;
    var first, last := IndexOf(Day(rangeStart), bucket), IndexOf(Day(rangeEnd), bucket);
    var points := Chart(orders, bucket, rangeStart, rangeEnd);
    KeyIsStart(rangeStart, bucket);
    KeyIsStart(rangeEnd, bucket);
    forall j, k | 0 <= j && k == j + 1 < |points|
      ensures points[k].bucketStart == StepBucket(points[j].bucketStart, bucket) > points[j].bucketStart
    {
      StepIsNext(first + j, bucket);
      StartsIncrease(first + j, first + k, bucket);
    }
    SameStart(first + |points| - 1, last, bucket);
  }

  /**
   * A covered range keeps every order's count and money: the points add up to the number of the
   * orders placed on the days shown and to the sum of their amounts, so to all the orders' when
   * all were placed within the range.
   */
  lemma ChartConserves(orders: seq<Order>, bucket: Bucket, rangeStart: int, rangeEnd: int)
    requires 1 <= Span(rangeStart, rangeEnd, bucket) <= 10_000
    ensures var from, to := BucketKey(rangeStart, bucket), StepBucket(BucketKey(rangeEnd, bucket), bucket);
            var shown := PlacedBetween(orders, from, to);
            && SumPoints(Chart(orders, bucket, rangeStart, rangeEnd)) == Totals(|shown|, Revenue(shown))
            && |shown| == |set i | 0 <= i < |orders| && from <= Day(orders[i].placedAt) < to|
    ensures (forall o | o in orders :: rangeStart <= o.placedAt <= rangeEnd) ==>
              SumPoints(Chart(orders, bucket, rangeStart, rangeEnd)) == Totals(|orders|, Revenue(orders))
  {
    hide FirstDay, StartOf, IndexOf, BucketKey, StepBucket, TotalsBetween, PlacedBetween, Revenue, SumPoints;
    var first, last := IndexOf(Day(rangeStart), bucket), IndexOf(Day(rangeEnd), bucket);
    PointsConserve(orders, bucket, first, Span(rangeStart, rangeEnd, bucket));
    TotalsAreOrders(orders, bucket, first, last + 1);
    KeyIsStart(rangeStart, bucket);
    KeyIsStart(rangeEnd, bucket);
    StepIsNext(last, bucket);
    PlacedCount(orders, StartOf(first, bucket), StartOf(last + 1, bucket));
    if forall o | o in orders :: rangeStart <= o.placedAt <= rangeEnd {
      forall o | o in orders ensures StartOf(first, bucket) <= Day(o.placedAt) < StartOf(last + 1, bucket) {
        IndexMonotone(Day(rangeStart), Day(o.placedAt), bucket);
        IndexMonotone(Day(o.placedAt), Day(rangeEnd), bucket);
        BucketsByDay(Day(o.placedAt), bucket, first, last + 1);
      }
      AllPlaced(orders, StartOf(first, bucket), StartOf(last + 1, bucket));
    }
  }

  /** A single order fills one point with exactly its amount, and leaves every other point empty. */
  lemma OneOrderOnePoint(order: Order, bucket: Bucket, rangeStart: int, rangeEnd: int, k: nat)
    requires k < |Chart([order], bucket, rangeStart, rangeEnd)|
    ensures var p := Chart([order], bucket, rangeStart, rangeEnd)[k];
            p == if p.bucketStart == BucketKey(order.placedAt, bucket) then Point(p.bucketStart, 1, order.totalAmount) else Point(p.bucketStart, 0, 0)
  {
    hide FirstDay, StartOf, IndexOf, BucketKey;
    var first, at := IndexOf(Day(rangeStart), bucket), IndexOf(Day(order.placedAt), bucket);
    KeyIsStart(order.placedAt, bucket);
    SameStart(first + k, at, bucket);
    assert [order][..0] == [];
    assert TotalsBetween([], bucket, first + k, first + k + 1) == Totals(0, 0);
    assert TotalsBetween([order], bucket, first + k, first + k + 1) == if first + k == at then Totals(1, order.totalAmount) else Totals(0, 0);
  }

  /** Every order placed in a covered range belongs to exactly one point of the chart, number `k`. */
  lemma OrderHasOnePoint(orders: seq<Order>, bucket: Bucket, rangeStart: int, rangeEnd: int, order: Order) returns (k: int)
    requires rangeStart <= order.placedAt <= rangeEnd && Span(rangeStart, rangeEnd, bucket) <= MAX_POINTS
    ensures var points := Chart(orders, bucket, rangeStart, rangeEnd);
            && 0 <= k < |points|
            && forall j :: 0 <= j < |points| ==> (points[j].bucketStart == BucketKey(order.placedAt, bucket) <==> j == k)
  {
    hide FirstDay, StartOf, IndexOf, BucketKey, TotalsBetween;
    var first, at := IndexOf(Day(rangeStart), bucket), IndexOf(Day(order.placedAt), bucket);
    IndexMonotone(Day(rangeStart), Day(order.placedAt), bucket);
    IndexMonotone(Day(order.placedAt), Day(rangeEnd), bucket);
    KeyIsStart(order.placedAt, bucket);
    k := at - first;
    var points := Chart(orders, bucket, rangeStart, rangeEnd);
    forall j | 0 <= j < |points| ensures points[j].bucketStart == BucketKey(order.placedAt, bucket) <==> j == k {
      SameStart(first + j, at, bucket);
    }
  }
}
