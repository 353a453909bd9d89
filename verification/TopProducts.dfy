/** analytics.util.ts `computeTopProducts`: items totalled per product, ranked, and cut. */
module TopProducts {
  import opened Common

  type ProductId = nat

  datatype Item = Item(product: ProductId, title: string, quantity: nat, unitPrice: nat)

  datatype TopRow = TopRow(product: ProductId, title: string, units: nat, revenue: nat)

  datatype Order = ByRevenue | ByUnits

  function Metric(row: TopRow, order: Order): nat { if order == ByRevenue then row.revenue else row.units }

  // ---- Totals -----------------------------------------------------------------------------------

  /** The position of the product's row, or the number of rows. */
  function IndexOf(rows: seq<TopRow>, product: ProductId): (i: nat)
    ensures i <= |rows| && (i < |rows| ==> rows[i].product == product)
    ensures forall j | 0 <= j < i :: rows[j].product != product
  {
    if rows == [] then 0 else if rows[0].product == product then 0 else IndexOf(rows[1..], product) + 1
  }

  function NewRow(item: Item): TopRow { TopRow(item.product, item.title, item.quantity, item.quantity * item.unitPrice) }

  function AddTo(row: TopRow, item: Item): TopRow {
    row.(units := row.units + item.quantity, revenue := row.revenue + item.quantity * item.unitPrice)
  }

  function AddItem(rows: seq<TopRow>, item: Item): seq<TopRow> {
    var i := IndexOf(rows, item.product);
    if i < |rows| then rows[i := AddTo(rows[i], item)] else rows + [NewRow(item)]
  }

  function Aggregate(items: seq<Item>): seq<TopRow> {
    if items == [] then [] else AddItem(Aggregate(items[..|items| - 1]), items[|items| - 1])
  }

  function UnitsOf(items: seq<Item>, product: ProductId): nat {
    if items == [] then 0
    else UnitsOf(items[..|items| - 1], product) + if items[|items| - 1].product == product then items[|items| - 1].quantity else 0
  }

  function RevenueOf(items: seq<Item>, product: ProductId): nat {
    if items == [] then 0
    else
      var last := items[|items| - 1];
      RevenueOf(items[..|items| - 1], product) + if last.product == product then last.quantity * last.unitPrice else 0
  }

  /** A product's totals are sums over the items: each adds its quantity and its price to its own product's, and nothing to others'. */
  lemma {:induction false} TotalsAdd(a: seq<Item>, b: seq<Item>, x: Item, product: ProductId)
    ensures UnitsOf([], product) == RevenueOf([], product) == 0
    ensures UnitsOf([x], product) == if x.product == product then x.quantity else 0
    ensures RevenueOf([x], product) == if x.product == product then x.quantity * x.unitPrice else 0
    ensures UnitsOf(a + b, product) == UnitsOf(a, product) + UnitsOf(b, product)
    ensures RevenueOf(a + b, product) == RevenueOf(a, product) + RevenueOf(b, product)
    decreases b
  {
    assert [x][..0] == [];
    if b == [] {
      assert a + b == a;
    } else {
      TotalsAdd(a, b[..|b| - 1], x, product);
      assert (a + b)[..|a + b| - 1] == a + b[..|b| - 1];
    }
  }

  /** The title of the first item of the product. */
  function FirstTitle(items: seq<Item>, product: ProductId): string
    requires exists item | item in items :: item.product == product
  {
    if items[0].product == product then items[0].title else FirstTitle(items[1..], product)
  }

  lemma {:induction false} FirstTitleStays(a: seq<Item>, b: seq<Item>, product: ProductId)
    requires exists item | item in a :: item.product == product
    ensures FirstTitle(a + b, product) == FirstTitle(a, product)
  {
    assert forall item | item in a :: item in a + b;
    if a[0].product != product {
      assert a == [a[0]] + a[1..];
      FirstTitleStays(a[1..], b, product);
      assert (a + b)[1..] == a[1..] + b;
    }
  }

  lemma {:induction false} FirstTitleNew(a: seq<Item>, x: Item)
    requires forall item | item in a :: item.product != x.product
    ensures FirstTitle(a + [x], x.product) == x.title
  {
    assert x in a + [x];
    if a != [] {
      assert a[0] in a;
      FirstTitleNew(a[1..], x);
      assert (a + [x])[1..] == a[1..] + [x];
    }
  }

  predicate OneRowEach(rows: seq<TopRow>) { forall i, j | 0 <= i < j < |rows| :: rows[i].product != rows[j].product }

  predicate Covered(rows: seq<TopRow>, product: ProductId) { exists k | 0 <= k < |rows| :: rows[k].product == product }

  lemma AddItemRows(rows: seq<TopRow>, item: Item, product: ProductId)
    requires OneRowEach(rows)
    ensures OneRowEach(AddItem(rows, item))
    ensures Covered(AddItem(rows, item), product) <==> Covered(rows, product) || item.product == product
  {
    hide IndexOf;
    var after := AddItem(rows, item);
    forall k | 0 <= k < |rows| ensures after[k].product == rows[k].product {}
    if |after| > |rows| { assert after[|rows|].product == item.product; }
  }

  /** One row for each product sold, and for no other. */
  lemma {:induction false} OneRowPerProduct(items: seq<Item>, product: ProductId)
    ensures OneRowEach(Aggregate(items))
    ensures Covered(Aggregate(items), product) <==> exists item | item in items :: item.product == product
  {
    hide OneRowEach, Covered, AddItem;
    if items != [] {
      var n := |items| - 1;
      OneRowPerProduct(items[..n], product);
      AddItemRows(Aggregate(items[..n]), items[n], product);
      assert items == items[..n] + [items[n]];
    } else {
      NoRows(product);
    }
  }

  lemma NoRows(product: ProductId)
    ensures OneRowEach([]) && !Covered([], product)
  {}

  /** And each row has all of its product's units and revenue. */
  lemma {:induction false} RowIsExact(items: seq<Item>, k: nat)
    requires k < |Aggregate(items)|
    ensures var row := Aggregate(items)[k]; row.units == UnitsOf(items, row.product) && row.revenue == RevenueOf(items, row.product)
  {
    hide IndexOf;
    var n := |items| - 1;
    var before, last := Aggregate(items[..n]), items[n];
    OneRowPerProduct(items[..n], last.product);
    var i := IndexOf(before, last.product);
    if k < |before| {
      RowIsExact(items[..n], k);
      if k != i { assert i < |before| ==> before[k].product != before[i].product; }
    } else {
      NothingYet(items[..n], last.product);
    }
  }

  /** A row keeps the title its product was first sold under. */
  lemma {:induction false} TitleIsFirst(items: seq<Item>, k: nat)
    requires k < |Aggregate(items)|
    ensures var row := Aggregate(items)[k];
            (exists item | item in items :: item.product == row.product) && row.title == FirstTitle(items, row.product)
  {
    var n := |items| - 1;
    var before, last := Aggregate(items[..n]), items[n];
    OneRowPerProduct(items[..n], last.product);
    OneRowPerProduct(items, Aggregate(items)[k].product);
    assert items == items[..n] + [last];
    assert Covered(Aggregate(items), Aggregate(items)[k].product);
    if k < |before| {
      TitleIsFirst(items[..n], k);
      FirstTitleStays(items[..n], [last], before[k].product);
    } else {
      assert !Covered(before, last.product);
      FirstTitleNew(items[..n], last);
    }
  }

  lemma {:induction false} NothingYet(items: seq<Item>, product: ProductId)
    requires forall item | item in items :: item.product != product
    ensures UnitsOf(items, product) == 0 == RevenueOf(items, product)
  {
    if items != [] {
      assert items[|items| - 1] in items;
      NothingYet(items[..|items| - 1], product);
    }
  }

  // ---- Ranking ----------------------------------------------------------------------------------

  /** After the rows that do not rank lower: equal rows keep their order. */
  function Insert(rows: seq<TopRow>, row: TopRow, order: Order): seq<TopRow> {
    if rows == [] then [row]
    else
      var last := rows[|rows| - 1];
      if Metric(last, order) >= Metric(row, order) then rows + [row] else Insert(rows[..|rows| - 1], row, order) + [last]
  }

  /** `Array.prototype.sort` with the descending comparison: a stable sort. */
  function Ranked(rows: seq<TopRow>, order: Order): seq<TopRow> {
    if rows == [] then [] else Insert(Ranked(rows[..|rows| - 1], order), rows[|rows| - 1], order)
  }

  predicate Descending(rows: seq<TopRow>, order: Order) { forall i, j | 0 <= i < j < |rows| :: Metric(rows[i], order) >= Metric(rows[j], order) }

  predicate AllAtLeast(rows: seq<TopRow>, order: Order, bound: nat) { forall i | 0 <= i < |rows| :: Metric(rows[i], order) >= bound }

  lemma {:induction false} InsertKeeps(rows: seq<TopRow>, row: TopRow, order: Order)
    ensures multiset(Insert(rows, row, order)) == multiset(rows) + multiset{row}
  {
    hide Metric;
    if rows != [] {
      InsertKeeps(rows[..|rows| - 1], row, order);
      assert rows == rows[..|rows| - 1] + [rows[|rows| - 1]];
    }
  }

  lemma {:induction false} InsertBounded(rows: seq<TopRow>, row: TopRow, order: Order, bound: nat)
    requires AllAtLeast(rows, order, bound) && Metric(row, order) >= bound
    ensures AllAtLeast(Insert(rows, row, order), order, bound)
  {
    hide Metric;
    if rows != [] { InsertBounded(rows[..|rows| - 1], row, order, bound); }
  }

  lemma {:induction false} InsertRanks(rows: seq<TopRow>, row: TopRow, order: Order)
    requires Descending(rows, order)
    ensures Descending(Insert(rows, row, order), order)
  {
    hide Metric;
    if rows != [] {
      var init, last := rows[..|rows| - 1], rows[|rows| - 1];
      InsertRanks(init, row, order);
      if Metric(last, order) < Metric(row, order) { InsertBounded(init, row, order, Metric(last, order)); }
    }
  }

  lemma RankedStep(rows: seq<TopRow>, order: Order)
    ensures rows == [] ==> Ranked(rows, order) == [] && Descending([], order)
    ensures rows != [] ==> Ranked(rows, order) == Insert(Ranked(rows[..|rows| - 1], order), rows[|rows| - 1], order)
  {
    hide Insert;
  }

  lemma {:induction false} RankedIsSorted(rows: seq<TopRow>, order: Order)
    ensures Descending(Ranked(rows, order), order) && multiset(Ranked(rows, order)) == multiset(rows)
  {
    RankedStep(rows, order);
    hide Ranked, Insert, Descending;
    if rows != [] {
      var init, last := rows[..|rows| - 1], rows[|rows| - 1];
      RankedIsSorted(init, order);
      InsertRanks(Ranked(init, order), last, order);
      InsertKeeps(Ranked(init, order), last, order);
      assert rows == init + [last];
    }
  }

  /** Rows that rank equally stand in the order they have in `all`. */
  predicate TiesInOrder(ranked: seq<TopRow>, all: seq<TopRow>, order: Order) {
    forall i, j | 0 <= i < j < |ranked| && Metric(ranked[i], order) == Metric(ranked[j], order) :: IndexOf(all, ranked[i].product) < IndexOf(all, ranked[j].product)
  }

  lemma {:induction false} InsertKeepsTies(ranked: seq<TopRow>, row: TopRow, all: seq<TopRow>, order: Order)
    requires TiesInOrder(ranked, all, order) && forall x | x in ranked :: IndexOf(all, x.product) < IndexOf(all, row.product)
    ensures TiesInOrder(Insert(ranked, row, order), all, order)
  {
    hide Metric, IndexOf;
    if ranked != [] && Metric(ranked[|ranked| - 1], order) < Metric(row, order) {
      var init, last := ranked[..|ranked| - 1], ranked[|ranked| - 1];
      InsertKeepsTies(init, row, all, order);
      InsertKeeps(init, row, order);
      assert init + [last] == ranked;
      LastKeepsTies(init, row, Insert(init, row, order), last, all, order);
    }
  }

  lemma LastKeepsTies(init: seq<TopRow>, row: TopRow, inner: seq<TopRow>, last: TopRow, all: seq<TopRow>, order: Order)
    requires TiesInOrder(init + [last], all, order) && TiesInOrder(inner, all, order)
    requires multiset(inner) == multiset(init) + multiset{row} && Metric(last, order) < Metric(row, order)
    ensures TiesInOrder(inner + [last], all, order)
  {
    hide Metric, IndexOf;
    forall i | 0 <= i < |inner| && Metric(inner[i], order) == Metric(last, order) ensures IndexOf(all, inner[i].product) < IndexOf(all, last.product) {
      assert inner[i] in multiset(inner);
      var k :| 0 <= k < |init| && init[k] == inner[i];
      assert (init + [last])[k] == init[k] && (init + [last])[|init|] == last;
    }
  }

  lemma {:induction false} PositionOf(rows: seq<TopRow>, k: nat)
    requires OneRowEach(rows) && k < |rows|
    ensures IndexOf(rows, rows[k].product) == k
  {}

  lemma {:induction false} RankedKeepsTies(all: seq<TopRow>, n: nat, order: Order)
    requires OneRowEach(all) && n <= |all|
    ensures TiesInOrder(Ranked(all[..n], order), all, order)
  {
    RankedStep(all[..n], order);
    hide Ranked, Insert, IndexOf, Metric;
    if n > 0 {
      assert all[..n][..n - 1] == all[..n - 1];
      RankedKeepsTies(all, n - 1, order);
      RankedIsSorted(all[..n - 1], order);
      PositionOf(all, n - 1);
      forall x | x in Ranked(all[..n - 1], order) ensures IndexOf(all, x.product) < n - 1 {
        assert x in multiset(all[..n - 1]);
        var k :| 0 <= k < n - 1 && all[k] == x;
        PositionOf(all, k);
      }
      InsertKeepsTies(Ranked(all[..n - 1], order), all[n - 1], all, order);
    }
  }

  function Top(items: seq<Item>, order: Order, limit: nat): seq<TopRow> {
    var ranked := Ranked(Aggregate(items), order);
    if limit < |ranked| then ranked[..limit] else ranked
  }

  method ComputeTopProducts(items: seq<Item>, order: Order, limit: nat) returns (top: seq<TopRow>)
    ensures top == Top(items, order, limit)
  {
    hide Ranked, IndexOf;
    var rows: seq<TopRow> := [];
    var totals: map<ProductId, nat> := map[];
    for n := 0 to |items|
      invariant rows == Aggregate(items[..n])
      invariant forall i | 0 <= i < |rows| :: rows[i].product in totals && totals[rows[i].product] == i
      invariant forall p | p in totals :: totals[p] < |rows| && rows[totals[p]].product == p
    {
      var item := items[n];
      assert items[..n + 1][..n] == items[..n];
      if item.product in totals {
        var i := totals[item.product];
        assert IndexOf(rows, item.product) == i;
        rows := rows[i := AddTo(rows[i], item)];
      } else {
        assert IndexOf(rows, item.product) == |rows|;
        totals := totals[item.product := |rows|];
        rows := rows + [NewRow(item)];
      }
    }
    assert items[..|items|] == items;
    top := Ranked(rows, order);
    if limit < |top| { top := top[..limit]; }
  }

  lemma RankedRows(items: seq<Item>, order: Order)
    ensures var ranked, all := Ranked(Aggregate(items), order), Aggregate(items);
            |ranked| == |all| && (forall row :: row in ranked <==> row in all) && Descending(ranked, order) && TiesInOrder(ranked, all, order)
  {
    var all := Aggregate(items);
    var ranked := Ranked(all, order);
    RankedIsSorted(all, order);
    OneRowPerProduct(items, 0);
    RankedKeepsTies(all, |all|, order);
    assert all[..|all|] == all;
    hide Ranked, Aggregate, Descending, TiesInOrder, Metric;
    assert |ranked| == |multiset(ranked)| == |multiset(all)| == |all|;
    forall row ensures row in ranked <==> row in all { assert row in multiset(ranked) <==> row in multiset(all); }
  }

  lemma RowIsTrue(items: seq<Item>, row: TopRow)
    requires row in Aggregate(items)
    ensures row.units == UnitsOf(items, row.product) && row.revenue == RevenueOf(items, row.product)
    ensures (exists item | item in items :: item.product == row.product) && row.title == FirstTitle(items, row.product)
  {
    hide Aggregate, UnitsOf, RevenueOf;
    var k :| 0 <= k < |Aggregate(items)| && Aggregate(items)[k] == row;
    RowIsExact(items, k);
    TitleIsFirst(items, k);
  }

  /**
   * The list holds true totals under each product's first title, best first, ties in the order the
   * products were first sold, and no product left out beats one that is in.
   */
  lemma TopIsTop(items: seq<Item>, order: Order, limit: nat)
    ensures var top, all := Top(items, order, limit), Aggregate(items);
            && |top| == (if limit < |all| then limit else |all|)
            && (forall row | row in top ::
                  && row in all && row.units == UnitsOf(items, row.product) && row.revenue == RevenueOf(items, row.product)
                  && (exists item | item in items :: item.product == row.product) && row.title == FirstTitle(items, row.product))
            && (forall i, j | 0 <= i < j < |top| ::
                  if order == ByRevenue then top[i].revenue >= top[j].revenue else top[i].units >= top[j].units)
            && (forall i, j | 0 <= i < j < |top| && (if order == ByRevenue then top[i].revenue == top[j].revenue else top[i].units == top[j].units) ::
                  IndexOf(all, top[i].product) < IndexOf(all, top[j].product))
            && (forall row, other | row in top && other in all && other !in top ::
                  if order == ByRevenue then other.revenue <= row.revenue else other.units <= row.units)
  {
    RankedRows(items, order);
    hide UnitsOf, RevenueOf, Aggregate, Ranked, IndexOf, FirstTitle;
    var top, all, ranked := Top(items, order, limit), Aggregate(items), Ranked(Aggregate(items), order);
    assert top == ranked[..|top|];
    forall row | row in top
      ensures row in all && row.units == UnitsOf(items, row.product) && row.revenue == RevenueOf(items, row.product)
      ensures (exists item | item in items :: item.product == row.product) && row.title == FirstTitle(items, row.product)
    {
      assert row in ranked;
      RowIsTrue(items, row);
    }
    forall row, other | row in top && other in all && other !in top ensures Metric(other, order) <= Metric(row, order) {
      CutKeepsBest(ranked, |top|, order, row, other);
    }
  }

  lemma CutKeepsBest(ranked: seq<TopRow>, cut: nat, order: Order, row: TopRow, other: TopRow)
    requires Descending(ranked, order) && cut <= |ranked| && row in ranked[..cut] && other in ranked && other !in ranked[..cut]
    ensures Metric(other, order) <= Metric(row, order)
  {
    hide Metric;
    forall x | 0 <= x < cut ensures ranked[x] in ranked[..cut] { assert ranked[..cut][x] == ranked[x]; }
    var i :| 0 <= i < |ranked| && ranked[i] == other;
    var j :| 0 <= j < cut && ranked[..cut][j] == row;
  }

  function RowRevenue(rows: seq<TopRow>): nat { if rows == [] then 0 else RowRevenue(rows[..|rows| - 1]) + rows[|rows| - 1].revenue }

  function ItemRevenue(items: seq<Item>): nat {
    if items == [] then 0 else ItemRevenue(items[..|items| - 1]) + items[|items| - 1].quantity * items[|items| - 1].unitPrice
  }

  lemma {:induction false} RevenueUpdate(rows: seq<TopRow>, i: nat, row: TopRow)
    requires i < |rows|
    ensures RowRevenue(rows[i := row]) == RowRevenue(rows) - rows[i].revenue + row.revenue
  {
    var m := |rows| - 1;
    if i < m {
      assert rows[i := row][..m] == rows[..m][i := row];
      RevenueUpdate(rows[..m], i, row);
    } else {
      assert rows[i := row][..m] == rows[..m];
    }
  }

  /** Nothing is lost or counted twice in the totals. */
  lemma {:induction false} AggregateConserves(items: seq<Item>)
    ensures RowRevenue(Aggregate(items)) == ItemRevenue(items)
  {
    hide IndexOf;
    if items != [] {
      var n := |items| - 1;
      var before, after := Aggregate(items[..n]), Aggregate(items);
      AggregateConserves(items[..n]);
      var i := IndexOf(before, items[n].product);
      if i < |before| {
        RevenueUpdate(before, i, after[i]);
      } else {
        assert after[..|before|] == before;
      }
    }
  }
}
