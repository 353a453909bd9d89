/** product-import.util.ts: rows grouped by handle into products, variants and images. */
module ProductImport {
  import opened Common
  import opened Text

  const HANDLE := "Handle"
  const TITLE := "Title"
  const BODY := "Body (HTML)"
  const OPTION1_NAME := "Option1 Name"
  const OPTION1_VALUE := "Option1 Value"
  const OPTION2_NAME := "Option2 Name"
  const OPTION2_VALUE := "Option2 Value"
  const OPTION3_NAME := "Option3 Name"
  const OPTION3_VALUE := "Option3 Value"
  const SKU := "Variant SKU"
  const PRICE := "Variant Price"
  const QUANTITY := "Variant Inventory Qty"
  const IMAGE := "Image Src"

  const CORE_COLUMNS: set<string> := {
    HANDLE, TITLE, BODY, OPTION1_NAME, OPTION1_VALUE, OPTION2_NAME, OPTION2_VALUE, OPTION3_NAME, OPTION3_VALUE, SKU, PRICE, QUANTITY, IMAGE
  }

  datatype Attribute = Attribute(name: string, value: string)

  datatype ParsedVariant = ParsedVariant(sku: string, price: real, stockQuantity: real, attributes: seq<Attribute>)

  datatype ParsedProduct = ParsedProduct(title: string, description: string, variants: seq<ParsedVariant>, imageUrls: seq<string>)

  datatype RowError = NoTitle(row: nat, handle: string) | InvalidPrice(row: nat, raw: string) | NoValidPrice(row: nat, handle: string)

  datatype ParseResult = ParseResult(products: seq<ParsedProduct>, unmappedFields: seq<string>, rowErrors: seq<RowError>)

  datatype Group = Group(handle: string, rows: seq<Row>, rowNumbers: seq<nat>)

  // ---- Grouping -------------------------------------------------------------------------------------

  function HandleOf(h: Host, row: Row, rowNumber: nat): string {
    if Cell(row, HANDLE) != "" then Cell(row, HANDLE)
    else if Cell(row, TITLE) != "" then Cell(row, TITLE)
    else "row-" + h.show(rowNumber as real)
  }

  /** The position of the handle's group, or the number of groups. */
  function IndexOf(groups: seq<Group>, handle: string): (i: nat)
    ensures i <= |groups| && (i < |groups| ==> groups[i].handle == handle)
    ensures forall j | 0 <= j < i :: groups[j].handle != handle
  {
    if groups == [] then 0 else if groups[0].handle == handle then 0 else IndexOf(groups[1..], handle) + 1
  }

  function AddRow(groups: seq<Group>, handle: string, row: Row, rowNumber: nat): seq<Group> {
    var i := IndexOf(groups, handle);
    if i < |groups| then groups[i := Group(handle, groups[i].rows + [row], groups[i].rowNumbers + [rowNumber])]
    else groups + [Group(handle, [row], [rowNumber])]
  }

  /** Row numbers count from 1 and include the header. */
  function GroupRows(h: Host, rows: seq<Row>): seq<Group> {
    if rows == [] then []
    else
      var n := |rows| - 1;
      AddRow(GroupRows(h, rows[..n]), HandleOf(h, rows[n], n + 2), rows[n], n + 2)
  }

  // ---- One group --------------------------------------------------------------------------------------

  function FirstTitled(rows: seq<Row>): Option<Row> {
    if rows == [] then None else if Cell(rows[0], TITLE) != "" then Some(rows[0]) else FirstTitled(rows[1..])
  }

  /** `attributes[name] = value`. */
  function SetAttribute(attributes: seq<Attribute>, name: string, value: string): seq<Attribute> {
    if attributes == [] then [Attribute(name, value)]
    else if attributes[0].name == name then [Attribute(name, value)] + attributes[1..]
    else [attributes[0]] + SetAttribute(attributes[1..], name, value)
  }

  function WithOption(attributes: seq<Attribute>, name: string, value: string): seq<Attribute> {
    if name != "" && value != "" then SetAttribute(attributes, name, value) else attributes
  }

  function AttributesOf(row: Row): seq<Attribute> {
    var one := WithOption([], Cell(row, OPTION1_NAME), Cell(row, OPTION1_VALUE));
    var two := WithOption(one, Cell(row, OPTION2_NAME), Cell(row, OPTION2_VALUE));
    WithOption(two, Cell(row, OPTION3_NAME), Cell(row, OPTION3_VALUE))
  }

  datatype RowOutcome = ImageOnly | Bad(error: RowError) | Good(variant: ParsedVariant)

  function StockOf(h: Host, raw: string): real {
    if raw == "" then 0.0
    else match h.read(raw) case None => 0.0 case Some(x) => if x < 0.0 then 0.0 else x
  }

  function ReadRow(h: Host, handle: string, row: Row, idx: nat, rowNumber: nat): RowOutcome {
    var raw := Cell(row, PRICE);
    if raw == "" then ImageOnly
    else
      var price := h.read(raw);
      if price.None? || price.value < 0.0 then Bad(InvalidPrice(rowNumber, raw))
      else
        var sku := if Cell(row, SKU) != "" then Cell(row, SKU) else handle + "-" + h.show((idx + 1) as real);
        Good(ParsedVariant(sku, price.value, StockOf(h, Cell(row, QUANTITY)), AttributesOf(row)))
  }

  function OutcomeAt(h: Host, g: Group, idx: nat): RowOutcome
    requires |g.rows| == |g.rowNumbers| && idx < |g.rows|
  {
    ReadRow(h, g.handle, g.rows[idx], idx, g.rowNumbers[idx])
  }

  function VariantsUpTo(h: Host, g: Group, k: nat): seq<ParsedVariant>
    requires |g.rows| == |g.rowNumbers| && k <= |g.rows|
  {
    if k == 0 then []
    else VariantsUpTo(h, g, k - 1) + match OutcomeAt(h, g, k - 1) case Good(v) => [v] case _ => []
  }

  function ErrorsUpTo(h: Host, g: Group, k: nat): seq<RowError>
    requires |g.rows| == |g.rowNumbers| && k <= |g.rows|
  {
    if k == 0 then []
    else ErrorsUpTo(h, g, k - 1) + match OutcomeAt(h, g, k - 1) case Bad(e) => [e] case _ => []
  }

  /** `[...new Set(urls)]`: first occurrences, in order. */
  function Distinct(urls: seq<string>): (r: seq<string>)
    ensures forall u :: u in r <==> u in urls
    ensures NoDuplicates(r)
  {
    if urls == [] then []
    else
      var init, last := Distinct(urls[..|urls| - 1]), urls[|urls| - 1];
      assert urls == urls[..|urls| - 1] + [last];
      if last in init then init else init + [last]
  }

  function ImageCells(rows: seq<Row>): seq<string> {
    if rows == [] then []
    else ImageCells(rows[..|rows| - 1]) + if Cell(rows[|rows| - 1], IMAGE) != "" then [Cell(rows[|rows| - 1], IMAGE)] else []
  }

  datatype GroupResult = GroupResult(product: Option<ParsedProduct>, errors: seq<RowError>)

  function ParseGroup(h: Host, g: Group): GroupResult
    requires |g.rows| == |g.rowNumbers| > 0
  {
    var titled := FirstTitled(g.rows);
    if titled.None? then GroupResult(None, [NoTitle(g.rowNumbers[0], g.handle)])
    else
      var variants, errors := VariantsUpTo(h, g, |g.rows|), ErrorsUpTo(h, g, |g.rows|);
      if variants == [] then GroupResult(None, errors + [NoValidPrice(g.rowNumbers[0], g.handle)])
      else GroupResult(Some(ParsedProduct(Cell(titled.value, TITLE), Cell(titled.value, BODY), variants, Distinct(ImageCells(g.rows)))), errors)
  }

  predicate WellFormed(groups: seq<Group>) { forall i | 0 <= i < |groups| :: |groups[i].rows| == |groups[i].rowNumbers| > 0 }

  function Products(h: Host, groups: seq<Group>): seq<ParsedProduct>
    requires WellFormed(groups)
  {
    if groups == [] then []
    else Products(h, groups[..|groups| - 1]) + match ParseGroup(h, groups[|groups| - 1]).product case Some(p) => [p] case None => []
  }

  function Errors(h: Host, groups: seq<Group>): seq<RowError>
    requires WellFormed(groups)
  {
    if groups == [] then [] else Errors(h, groups[..|groups| - 1]) + ParseGroup(h, groups[|groups| - 1]).errors
  }

  function Unmapped(header: seq<string>): seq<string> {
    if header == [] then []
    else Unmapped(header[..|header| - 1]) + if header[|header| - 1] in CORE_COLUMNS then [] else [header[|header| - 1]]
  }

  lemma {:induction false} GroupsWellFormed(h: Host, rows: seq<Row>)
    ensures WellFormed(GroupRows(h, rows))
  {
    if rows != [] {
      GroupsWellFormed(h, rows[..|rows| - 1]);
      hide HandleOf;
    }
  }

  function Parse(h: Host, rows: seq<Row>, header: seq<string>): ParseResult {
    GroupsWellFormed(h, rows);
    var groups := GroupRows(h, rows);
    ParseResult(Products(h, groups), Unmapped(header), Errors(h, groups))
  }

  // ---- No row is lost -------------------------------------------------------------------------------

  /** The group holds the row, under its number. */
  predicate Holds(g: Group, row: Row, rowNumber: nat) {
    |g.rows| == |g.rowNumbers| && exists k | 0 <= k < |g.rows| :: g.rows[k] == row && g.rowNumbers[k] == rowNumber
  }

  ghost predicate DistinctHandles(groups: seq<Group>) { forall i, j | 0 <= i < j < |groups| :: groups[i].handle != groups[j].handle }

  function RowsIn(groups: seq<Group>): nat { if groups == [] then 0 else RowsIn(groups[..|groups| - 1]) + |groups[|groups| - 1].rows| }

  lemma {:induction false} RowsInUpdate(groups: seq<Group>, i: nat, g: Group)
    requires i < |groups|
    ensures RowsIn(groups[i := g]) == RowsIn(groups) - |groups[i].rows| + |g.rows|
  {
    var n := |groups| - 1;
    if i < n {
      assert groups[i := g][..n] == groups[..n][i := g];
      RowsInUpdate(groups[..n], i, g);
    } else {
      assert groups[i := g][..n] == groups[..n];
    }
  }

  ghost predicate InGroup(groups: seq<Group>, handle: string, row: Row, rowNumber: nat) {
    exists i | 0 <= i < |groups| :: groups[i].handle == handle && Holds(groups[i], row, rowNumber)
  }

  lemma AddRowAdds(groups: seq<Group>, handle: string, row: Row, rowNumber: nat)
    requires WellFormed(groups) && DistinctHandles(groups)
    ensures var after := AddRow(groups, handle, row, rowNumber);
            DistinctHandles(after) && RowsIn(after) == RowsIn(groups) + 1 && InGroup(after, handle, row, rowNumber)
  {
    hide IndexOf;
    var after, i := AddRow(groups, handle, row, rowNumber), IndexOf(groups, handle);
    if i < |groups| {
      RowsInUpdate(groups, i, after[i]);
      assert after[i].rows[|groups[i].rows|] == row && after[i].rowNumbers[|groups[i].rows|] == rowNumber;
    } else {
      assert after[..|groups|] == groups;
      assert after[i].rows[0] == row && after[i].rowNumbers[0] == rowNumber;
    }
    assert Holds(after[i], row, rowNumber);
  }

  lemma AddRowKeeps(groups: seq<Group>, handle: string, row: Row, rowNumber: nat, owner: string, other: Row, otherNumber: nat)
    requires InGroup(groups, owner, other, otherNumber)
    ensures InGroup(AddRow(groups, handle, row, rowNumber), owner, other, otherNumber)
  {
    hide IndexOf;
    var after := AddRow(groups, handle, row, rowNumber);
    var i :| 0 <= i < |groups| && groups[i].handle == owner && Holds(groups[i], other, otherNumber);
    var k :| 0 <= k < |groups[i].rows| && groups[i].rows[k] == other && groups[i].rowNumbers[k] == otherNumber;
    assert after[i].rows[k] == other && after[i].rowNumbers[k] == otherNumber;
  }

  /**
   * Grouping partitions the file: handles name one group each, every row is in the group of its
   * own handle under its own number, and the groups hold as many rows as the file.
   */
  lemma {:induction false} GroupsPartition(h: Host, rows: seq<Row>, n: nat)
    ensures DistinctHandles(GroupRows(h, rows)) && RowsIn(GroupRows(h, rows)) == |rows|
    ensures n < |rows| ==> InGroup(GroupRows(h, rows), HandleOf(h, rows[n], n + 2), rows[n], n + 2)
  {
    hide HandleOf, AddRow, InGroup, WellFormed;
    if rows != [] {
      var m := |rows| - 1;
      var before, handle := GroupRows(h, rows[..m]), HandleOf(h, rows[m], m + 2);
      GroupsWellFormed(h, rows[..m]);
      GroupsPartition(h, rows[..m], n);
      AddRowAdds(before, handle, rows[m], m + 2);
      if n < m { AddRowKeeps(before, handle, rows[m], m + 2, HandleOf(h, rows[n], n + 2), rows[n], n + 2); }
    }
  }

  /** The three option columns of a row. */
  function OptionAt(row: Row, n: nat): Attribute {
    if n == 1 then Attribute(Cell(row, "Option1 Name"), Cell(row, "Option1 Value"))
    else if n == 2 then Attribute(Cell(row, "Option2 Name"), Cell(row, "Option2 Value"))
    else Attribute(Cell(row, "Option3 Name"), Cell(row, "Option3 Value"))
  }

  predicate Filled(a: Attribute) { a.name != "" && a.value != "" }

  /** A variant has exactly the attributes its row fills in, and of two with one name the later. */
  lemma AttributesExactly(row: Row, a: Attribute)
    ensures a in AttributesOf(row) <==>
            Filled(a) && exists n: nat | 1 <= n <= 3 ::
              OptionAt(row, n) == a && forall m: nat | n < m <= 3 :: Filled(OptionAt(row, m)) ==> OptionAt(row, m).name != a.name
  {
    var x, y, z := OptionAt(row, 1), OptionAt(row, 2), OptionAt(row, 3);
    var one := WithOption([], x.name, x.value);
    var two := WithOption(one, y.name, y.value);
    assert AttributesOf(row) == WithOption(two, z.name, z.value);
    hide WithOption, OptionAt, Filled, NamesDistinct, AttributesOf;
    assert NamesDistinct([]) by { NothingNamed(); }
    WithOptionHas([], x, a);
    WithOptionHas(one, y, a);
    WithOptionHas(two, z, a);
  }

  lemma NothingNamed()
    ensures NamesDistinct([])
  {}

  /** A filled-in option replaces an attribute of its name; another is passed over. */
  lemma WithOptionHas(attributes: seq<Attribute>, x: Attribute, a: Attribute)
    requires NamesDistinct(attributes)
    ensures var after := WithOption(attributes, x.name, x.value);
            NamesDistinct(after) && (a in after <==> (Filled(x) && a == x) || (a in attributes && !(Filled(x) && x.name == a.name)))
  {
    SetAttributeHas(attributes, x.name, x.value, a);
    SetAttributeNames(attributes, x.name, x.value);
    hide SetAttribute;
  }

  ghost predicate NamesDistinct(attributes: seq<Attribute>) {
    forall i, j | 0 <= i < j < |attributes| :: attributes[i].name != attributes[j].name
  }

  lemma {:induction false} SetAttributeHas(attributes: seq<Attribute>, name: string, value: string, a: Attribute)
    requires NamesDistinct(attributes)
    ensures a in SetAttribute(attributes, name, value) <==> a == Attribute(name, value) || (a in attributes && a.name != name)
  {
    if attributes != [] {
      var head, tail := attributes[0], attributes[1..];
      assert attributes == [head] + tail;
      SetAttributeHas(tail, name, value, a);
    }
  }

  lemma {:induction false} SetAttributeNames(attributes: seq<Attribute>, name: string, value: string)
    requires NamesDistinct(attributes)
    ensures NamesDistinct(SetAttribute(attributes, name, value))
  {
    if attributes != [] {
      var head, tail := attributes[0], attributes[1..];
      assert attributes == [head] + tail;
      SetAttributeNames(tail, name, value);
      if head.name != name {
        var rest := SetAttribute(tail, name, value);
        forall a | a in rest ensures a.name != head.name {
          SetAttributeHas(tail, name, value, a);
          if a in tail { var k :| 0 <= k < |tail| && tail[k] == a; assert attributes[k + 1] == a; }
        }
        forall j | 0 <= j < |rest| ensures rest[j].name != head.name { assert rest[j] in rest; }
      }
    }
  }

  // ---- What a row, a group and a header come to, cell by cell -------------------------------------------

  /** The handle of a row is its handle cell, else its title, else a name made of its number. */
  lemma HandleIs(h: Host, row: Row, rowNumber: nat)
    ensures HandleOf(h, row, rowNumber) ==
            if Cell(row, "Handle") != "" then Cell(row, "Handle")
            else if Cell(row, "Title") != "" then Cell(row, "Title") else "row-" + h.show(rowNumber as real)
  {}

  /** Row `idx` of the group is a variant at a price that is given, reads as a number and is not negative. */
  ghost predicate IsVariantOf(h: Host, g: Group, idx: nat, v: ParsedVariant)
    requires idx < |g.rows|
  {
    var row := g.rows[idx];
    var stock := Cell(row, "Variant Inventory Qty");
    && Cell(row, "Variant Price") != "" && h.read(Cell(row, "Variant Price")) == Some(v.price) && v.price >= 0.0
    && v.sku == (if Cell(row, "Variant SKU") != "" then Cell(row, "Variant SKU") else g.handle + "-" + h.show((idx + 1) as real))
    && v.stockQuantity == (if stock != "" && h.read(stock).Some? && h.read(stock).value > 0.0 then h.read(stock).value else 0.0)
    && v.attributes == AttributesOf(row)
  }

  /** Row `idx` of the group has a price that cannot be read or is negative. */
  ghost predicate IsErrorOf(h: Host, g: Group, idx: nat, e: RowError)
    requires |g.rows| == |g.rowNumbers| && idx < |g.rows|
  {
    var raw := Cell(g.rows[idx], "Variant Price");
    raw != "" && (h.read(raw) == None || h.read(raw).value < 0.0) && e == InvalidPrice(g.rowNumbers[idx], raw)
  }

  lemma OutcomeIs(h: Host, g: Group, idx: nat, v: ParsedVariant, e: RowError)
    requires |g.rows| == |g.rowNumbers| && idx < |g.rows|
    ensures OutcomeAt(h, g, idx) == Good(v) <==> IsVariantOf(h, g, idx, v)
    ensures OutcomeAt(h, g, idx) == Bad(e) <==> IsErrorOf(h, g, idx, e)
    ensures OutcomeAt(h, g, idx) == ImageOnly <==> Cell(g.rows[idx], "Variant Price") == ""
  {
    hide Cell, AttributesOf;
  }

  /** A group's variants and errors are those of its rows. */
  lemma {:induction false} RowsReadExactly(h: Host, g: Group, k: nat, v: ParsedVariant, e: RowError)
    requires |g.rows| == |g.rowNumbers| && k <= |g.rows|
    ensures v in VariantsUpTo(h, g, k) <==> exists idx: nat | idx < k :: IsVariantOf(h, g, idx, v)
    ensures e in ErrorsUpTo(h, g, k) <==> exists idx: nat | idx < k :: IsErrorOf(h, g, idx, e)
  {
    hide OutcomeAt, IsVariantOf, IsErrorOf;
    if k > 0 {
      RowsReadExactly(h, g, k - 1, v, e);
      OutcomeIs(h, g, k - 1, v, e);
    }
  }

  ghost function PricedRows(g: Group, k: nat): set<nat>
    requires k <= |g.rows|
  {
    set idx: nat | idx < k && Cell(g.rows[idx], "Variant Price") != ""
  }

  lemma OneMore(before: set<nat>, after: set<nat>, k: nat, added: bool)
    requires k !in before && forall i: nat :: i in after <==> i in before || (added && i == k)
    ensures |after| == |before| + if added then 1 else 0
  {
    if added { assert after == before + {k}; } else { assert after == before; }
  }

  lemma PricedOneMore(g: Group, k: nat)
    requires 0 < k <= |g.rows|
    ensures |PricedRows(g, k)| == |PricedRows(g, k - 1)| + if Cell(g.rows[k - 1], "Variant Price") != "" then 1 else 0
  {
    hide Cell;
    var priced := Cell(g.rows[k - 1], "Variant Price") != "";
    forall i: nat ensures i in PricedRows(g, k) <==> i in PricedRows(g, k - 1) || (priced && i == k - 1) {}
    hide PricedRows;
    assert k - 1 !in PricedRows(g, k - 1) by { NotYet(g, k - 1); }
    OneMore(PricedRows(g, k - 1), PricedRows(g, k), k - 1, priced);
  }

  lemma NotYet(g: Group, k: nat)
    requires k <= |g.rows|
    ensures k !in PricedRows(g, k)
  {}

  /** Each row with a price gives either a variant or an error. */
  lemma {:induction false} RowsCounted(h: Host, g: Group, k: nat)
    requires |g.rows| == |g.rowNumbers| && k <= |g.rows|
    ensures |VariantsUpTo(h, g, k)| + |ErrorsUpTo(h, g, k)| == |set idx: nat | idx < k && Cell(g.rows[idx], "Variant Price") != ""|
  {
    hide OutcomeAt, Cell;
    if k > 0 {
      RowsCounted(h, g, k - 1);
      PricedOneMore(g, k);
      PriceDecides(h, g, k - 1);
    }
  }

  lemma PriceDecides(h: Host, g: Group, idx: nat)
    requires |g.rows| == |g.rowNumbers| && idx < |g.rows|
    ensures OutcomeAt(h, g, idx) == ImageOnly <==> Cell(g.rows[idx], "Variant Price") == ""
  {
    hide Cell, AttributesOf, StockOf;
  }

  lemma {:induction false} FirstTitledIs(rows: seq<Row>)
    ensures match FirstTitled(rows)
            case None => forall i | 0 <= i < |rows| :: Cell(rows[i], "Title") == ""
            case Some(row) => exists i | 0 <= i < |rows| :: rows[i] == row && Cell(row, "Title") != "" && forall j | 0 <= j < i :: Cell(rows[j], "Title") == ""
  {
    hide Cell;
    if rows != [] {
      if Cell(rows[0], "Title") == "" {
        FirstTitledIs(rows[1..]);
        match FirstTitled(rows[1..])
        case None =>
          forall i | 0 <= i < |rows| ensures Cell(rows[i], "Title") == "" { if i > 0 { assert rows[i] == rows[1..][i - 1]; } }
        case Some(row) =>
          var i :| 0 <= i < |rows[1..]| && rows[1..][i] == row && Cell(row, "Title") != "" && forall j | 0 <= j < i :: Cell(rows[1..][j], "Title") == "";
          forall j | 0 <= j < i + 1 ensures Cell(rows[j], "Title") == "" { if j > 0 { assert rows[j] == rows[1..][j - 1]; } }
          assert rows[i + 1] == row;
      } else {
        assert rows[0] == FirstTitled(rows).value;
      }
    }
  }

  lemma {:induction false} ImageCellsAre(rows: seq<Row>, url: string)
    ensures url in ImageCells(rows) <==> url != "" && exists i | 0 <= i < |rows| :: Cell(rows[i], "Image Src") == url
  {
    hide Cell;
    if rows != [] {
      var n := |rows| - 1;
      ImageCellsAre(rows[..n], url);
      assert forall i | 0 <= i < n :: rows[..n][i] == rows[i];
    }
  }

  /**
   * A group is a product exactly if some row has a title and some row gives a variant. The product
   * has the title and description of the first titled row, every variant, and each image once. Its
   * errors are its rows', and one more, on its first row, if it is no product.
   */
  lemma GroupReadsExactly(h: Host, g: Group, url: string)
    requires |g.rows| == |g.rowNumbers| > 0
    ensures var r, variants, errors := ParseGroup(h, g), VariantsUpTo(h, g, |g.rows|), ErrorsUpTo(h, g, |g.rows|);
            var titled := exists i | 0 <= i < |g.rows| :: Cell(g.rows[i], "Title") != "";
            && (r.product.Some? <==> titled && variants != [])
            && r.errors == (if !titled then [NoTitle(g.rowNumbers[0], g.handle)]
                            else if variants == [] then errors + [NoValidPrice(g.rowNumbers[0], g.handle)] else errors)
            && (r.product.Some? ==>
                  var p := r.product.value;
                  && p.variants == variants && NoDuplicates(p.imageUrls)
                  && (url in p.imageUrls <==> url != "" && exists i | 0 <= i < |g.rows| :: Cell(g.rows[i], "Image Src") == url)
                  && exists i | 0 <= i < |g.rows| ::
                       && Cell(g.rows[i], "Title") == p.title != "" && Cell(g.rows[i], "Body (HTML)") == p.description
                       && forall j | 0 <= j < i :: Cell(g.rows[j], "Title") == "")
  {
    FirstTitledIs(g.rows);
    ImageCellsAre(g.rows, url);
    hide Cell, VariantsUpTo, ErrorsUpTo, FirstTitled, ImageCells, Distinct;
  }

  /** The header columns reported as unmapped are the ones the importer does not know. */
  lemma {:induction false} UnmappedExactly(header: seq<string>, column: string)
    ensures column in Unmapped(header) <==>
            && column in header
            && column !in ["Handle", "Title", "Body (HTML)", "Option1 Name", "Option1 Value", "Option2 Name", "Option2 Value", "Option3 Name", "Option3 Value",
                           "Variant SKU", "Variant Price", "Variant Inventory Qty", "Image Src"]
  {
    if header != [] {
      UnmappedExactly(header[..|header| - 1], column);
      assert header == header[..|header| - 1] + [header[|header| - 1]];
    }
  }

  // ---- The code ---------------------------------------------------------------------------------------

  /** The Map from handle to group: `order` keeps its insertion order. */
  ghost predicate Indexes(positions: map<string, nat>, groups: seq<Group>) {
    && (forall i | 0 <= i < |groups| :: groups[i].handle in positions && positions[groups[i].handle] == i)
    && (forall k | k in positions :: positions[k] < |groups| && groups[positions[k]].handle == k)
  }

  lemma Finds(positions: map<string, nat>, groups: seq<Group>, handle: string)
    requires Indexes(positions, groups)
    ensures IndexOf(groups, handle) == if handle in positions then positions[handle] else |groups|
  {
    hide IndexOf;
    if handle in positions {
      var p := positions[handle];
      assert groups[p].handle == handle;
    }
  }

  method GroupByHandle(h: Host, rows: seq<Row>) returns (groups: seq<Group>)
    ensures groups == GroupRows(h, rows)
  {
    hide HandleOf, IndexOf;
    groups := [];
    var positions: map<string, nat> := map[];
    for i := 0 to |rows|
      invariant groups == GroupRows(h, rows[..i]) && Indexes(positions, groups)
    {
      var row, rowNumber := rows[i], i + 2;
      assert rows[..i + 1][..i] == rows[..i];
      var handle := HandleOf(h, row, rowNumber);
      Finds(positions, groups, handle);
      if handle in positions {
        var p := positions[handle];
        groups := groups[p := Group(handle, groups[p].rows + [row], groups[p].rowNumbers + [rowNumber])];
      } else {
        positions := positions[handle := |groups|];
        groups := groups + [Group(handle, [row], [rowNumber])];
      }
    }
    assert rows[..|rows|] == rows;
  }

  /** The inner loop over a group's rows. */
  method ParseRows(h: Host, g: Group) returns (variants: seq<ParsedVariant>, errors: seq<RowError>)
    requires |g.rows| == |g.rowNumbers|
    ensures variants == VariantsUpTo(h, g, |g.rows|) && errors == ErrorsUpTo(h, g, |g.rows|)
  {
    hide Cell, AttributesOf, StockOf;
    variants, errors := [], [];
    for idx := 0 to |g.rows|
      invariant variants == VariantsUpTo(h, g, idx) && errors == ErrorsUpTo(h, g, idx)
    {
      var row := g.rows[idx];
      var priceRaw := Cell(row, PRICE);
      if priceRaw == "" { continue; }
      var price := h.read(priceRaw);
      if price.None? || price.value < 0.0 {
        errors := errors + [InvalidPrice(g.rowNumbers[idx], priceRaw)];
        continue;
      }
      var sku := if Cell(row, SKU) != "" then Cell(row, SKU) else g.handle + "-" + h.show((idx + 1) as real);
      variants := variants + [ParsedVariant(sku, price.value, StockOf(h, Cell(row, QUANTITY)), AttributesOf(row))];
    }
  }

  method ParseProductImportCsv(h: Host, rows: seq<Row>, header: seq<string>) returns (r: ParseResult)
    ensures r == Parse(h, rows, header)
  {
    var unmappedFields := Unmapped(header);
    var groups := GroupByHandle(h, rows);
    GroupsWellFormed(h, rows);
    hide GroupRows, ReadRow, ImageCells, FirstTitled;
    var products, rowErrors := [], [];
    for i := 0 to |groups|
      invariant products == Products(h, groups[..i]) && rowErrors == Errors(h, groups[..i])
    {
      var g := groups[i];
      assert groups[..i + 1][..i] == groups[..i];
      var titleRow := FirstTitled(g.rows);
      if titleRow.None? {
        rowErrors := rowErrors + [NoTitle(g.rowNumbers[0], g.handle)];
        continue;
      }
      var variants, errors := ParseRows(h, g);
      rowErrors := rowErrors + errors;
      if |variants| == 0 {
        rowErrors := rowErrors + [NoValidPrice(g.rowNumbers[0], g.handle)];
        continue;
      }
      products := products + [ParsedProduct(Cell(titleRow.value, TITLE), Cell(titleRow.value, BODY), variants, Distinct(ImageCells(g.rows)))];
    }
    assert groups[..|groups|] == groups;
    r := ParseResult(products, unmappedFields, rowErrors);
  }
}
