/** A store's products, exported and imported again. */
module ProductRoundTrip {
  import opened Common
  import opened Text
  import opened Csv
  import opened ProductImport
  import opened ProductExport

  // ---- Rows by column -----------------------------------------------------------------------------------

  /** One record of a file with the given header. */
  function RowOf(header: seq<string>, fields: seq<string>): Row
    requires |header| == |fields|
  {
    if header == [] then map[] else RowOf(header[..|header| - 1], fields[..|header| - 1])[header[|header| - 1] := fields[|header| - 1]]
  }

  lemma {:induction false} RowOfReads(header: seq<string>, fields: seq<string>)
    requires |header| == |fields| && NoDuplicates(header)
    ensures RowOf(header, fields).Keys == Elements(header)
    ensures forall i | 0 <= i < |header| :: header[i] in RowOf(header, fields) && RowOf(header, fields)[header[i]] == fields[i]
  {
    if header != [] {
      var n := |header| - 1;
      RowOfReads(header[..n], fields[..n]);
      var row := RowOf(header, fields);
      assert header == header[..n] + [header[n]];
      forall i | 0 <= i < |header| ensures header[i] in row && row[header[i]] == fields[i] {
        if i < n { assert header[..n][i] == header[i] && fields[..n][i] == fields[i]; }
      }
    }
  }

  /** Tells the column names apart: their length, first character, and seventh. */
  function Mark(s: string): (nat, char, char) { (|s|, if s == "" then ' ' else s[0], if |s| < 7 then ' ' else s[6]) }

  lemma Marks()
    ensures Mark(HANDLE) == (6, 'H', ' ') && Mark(TITLE) == (5, 'T', ' ') && Mark(BODY) == (11, 'B', 'H')
    ensures Mark(OPTION1_NAME) == (12, 'O', '1') && Mark(OPTION1_VALUE) == (13, 'O', '1')
    ensures Mark(OPTION2_NAME) == (12, 'O', '2') && Mark(OPTION2_VALUE) == (13, 'O', '2')
    ensures Mark(OPTION3_NAME) == (12, 'O', '3') && Mark(OPTION3_VALUE) == (13, 'O', '3')
    ensures Mark(SKU) == (11, 'V', 't') && Mark(PRICE) == (13, 'V', 't') && Mark(QUANTITY) == (21, 'V', 't') && Mark(IMAGE) == (9, 'I', 'S')
  {}

  const MARKS: seq<(nat, char, char)> := [
    (6, 'H', ' '), (5, 'T', ' '), (11, 'B', 'H'), (12, 'O', '1'), (13, 'O', '1'), (12, 'O', '2'), (13, 'O', '2'),
    (11, 'V', 't'), (13, 'V', 't'), (21, 'V', 't'), (9, 'I', 'S')
  ]

  lemma HeaderDistinct()
    ensures NoDuplicates(PRODUCT_EXPORT_HEADER) && |PRODUCT_EXPORT_HEADER| == 11
    ensures OPTION3_NAME !in PRODUCT_EXPORT_HEADER && OPTION3_VALUE !in PRODUCT_EXPORT_HEADER
  {
    Marks();
    hide Mark;
    var header := PRODUCT_EXPORT_HEADER;
    assert forall i | 0 <= i < 11 :: Mark(header[i]) == MARKS[i];
    assert forall i, j | 0 <= i < j < 11 :: MARKS[i] != MARKS[j];
    assert forall i | 0 <= i < 11 :: MARKS[i] != (12, 'O', '3') && MARKS[i] != (13, 'O', '3');
  }

  predicate AllTrimmed(fields: seq<string>) { forall i | 0 <= i < |fields| :: Trimmed(fields[i]) }

  lemma CellsByColumn(fields: seq<string>)
    requires |fields| == |PRODUCT_EXPORT_HEADER| && AllTrimmed(fields)
    ensures var row := RowOf(PRODUCT_EXPORT_HEADER, fields);
            && (forall i | 0 <= i < |fields| :: Cell(row, PRODUCT_EXPORT_HEADER[i]) == fields[i])
            && Cell(row, OPTION3_NAME) == "" && Cell(row, OPTION3_VALUE) == ""
  {
    HeaderDistinct();
    RowOfReads(PRODUCT_EXPORT_HEADER, fields);
    var row := RowOf(PRODUCT_EXPORT_HEADER, fields);
    hide RowOf, Trim;
    forall i | 0 <= i < 11 ensures Cell(row, PRODUCT_EXPORT_HEADER[i]) == fields[i] { TrimKeeps(fields[i]); }
    TrimKeeps("");
    assert OPTION3_NAME !in row && OPTION3_VALUE !in row;
  }

  /** A record of trimmed fields reads back field by field. */
  lemma CellsRead(fields: seq<string>)
    requires |fields| == |PRODUCT_EXPORT_HEADER| && AllTrimmed(fields)
    ensures var row := RowOf(PRODUCT_EXPORT_HEADER, fields);
            && Cell(row, HANDLE) == fields[0] && Cell(row, TITLE) == fields[1] && Cell(row, BODY) == fields[2]
            && Cell(row, OPTION1_NAME) == fields[3] && Cell(row, OPTION1_VALUE) == fields[4]
            && Cell(row, OPTION2_NAME) == fields[5] && Cell(row, OPTION2_VALUE) == fields[6]
            && Cell(row, OPTION3_NAME) == "" && Cell(row, OPTION3_VALUE) == ""
            && Cell(row, SKU) == fields[7] && Cell(row, PRICE) == fields[8] && Cell(row, QUANTITY) == fields[9] && Cell(row, IMAGE) == fields[10]
  {
    hide RowOf, Cell, AllTrimmed;
    CellsByColumn(fields);
    assert PRODUCT_EXPORT_HEADER[0] == HANDLE && PRODUCT_EXPORT_HEADER[1] == TITLE && PRODUCT_EXPORT_HEADER[2] == BODY;
    assert PRODUCT_EXPORT_HEADER[3] == OPTION1_NAME && PRODUCT_EXPORT_HEADER[4] == OPTION1_VALUE;
    assert PRODUCT_EXPORT_HEADER[5] == OPTION2_NAME && PRODUCT_EXPORT_HEADER[6] == OPTION2_VALUE;
    assert PRODUCT_EXPORT_HEADER[7] == SKU && PRODUCT_EXPORT_HEADER[8] == PRICE && PRODUCT_EXPORT_HEADER[9] == QUANTITY;
    assert PRODUCT_EXPORT_HEADER[10] == IMAGE;
  }

  // ---- What can be exported -----------------------------------------------------------------------------

  predicate Plain(s: string) { s != "" && Trimmed(s) }

  predicate ExportableVariant(h: Host, v: Variant) {
    && Plain(v.sku) && 0.0 <= v.price && ShowsBack(h, v.price) && ShowsBack(h, v.stockQuantity)
    && (forall k | 0 <= k < |v.attributes| && k < 2 :: Plain(v.attributes[k].name) && Plain(v.attributes[k].value))
    && (|v.attributes| >= 2 ==> v.attributes[0].name != v.attributes[1].name)
  }

  /** The id starts like a UUID, texts carry no blanks at their ends, and only the description may be empty. */
  predicate Exportable(h: Host, p: Product) {
    && |p.id| >= 8 && SlugText(Prefix(p.id))
    && Plain(p.title) && Trimmed(p.description)
    && (forall i | 0 <= i < |p.variants| :: ExportableVariant(h, p.variants[i]))
    && (forall i | 0 <= i < |p.images| :: Plain(p.images[i]))
  }

  predicate AllExportable(h: Host, products: seq<Product>) { forall i | 0 <= i < |products| :: Exportable(h, products[i]) }

  ghost predicate PrefixesDistinct(products: seq<Product>) {
    forall i, j | 0 <= i < j < |products| :: Prefix(products[i].id) != Prefix(products[j].id)
  }

  // ---- What comes back -----------------------------------------------------------------------------------

  function FirstTwo(attributes: seq<Attribute>): seq<Attribute> { if |attributes| <= 2 then attributes else attributes[..2] }

  function ImportedVariant(v: Variant): ParsedVariant {
    ParsedVariant(v.sku, v.price, if v.stockQuantity < 0.0 then 0.0 else v.stockQuantity, FirstTwo(v.attributes))
  }

  function ImportedVariants(variants: seq<Variant>): seq<ParsedVariant> {
    if variants == [] then [] else ImportedVariants(variants[..|variants| - 1]) + [ImportedVariant(variants[|variants| - 1])]
  }

  function Imported(p: Product): ParsedProduct {
    ParsedProduct(p.title, p.description, ImportedVariants(p.variants), Distinct(p.images))
  }

  /** The products that have a variant. */
  function ImportedAll(products: seq<Product>): seq<ParsedProduct> {
    if products == [] then []
    else
      var last := products[|products| - 1];
      ImportedAll(products[..|products| - 1]) + if last.variants == [] then [] else [Imported(last)]
  }

  /** And one error for each of the others, at its first row. */
  function LostAll(h: Host, products: seq<Product>): seq<RowError> {
    if products == [] then []
    else
      var init, last := products[..|products| - 1], products[|products| - 1];
      LostAll(h, init) +
      if last.variants == [] then [NoValidPrice(|ExportRows(h, init)| + 2, SlugifyHandle(h, last.title, last.id))] else []
  }

  // ---- One product's block of rows ---------------------------------------------------------------------------

  function Records(rows: seq<seq<string>>): seq<Row>
    requires forall i | 0 <= i < |rows| :: |rows[i]| == |PRODUCT_EXPORT_HEADER|
  {
    seq(|rows|, i requires 0 <= i < |rows| => RowOf(PRODUCT_EXPORT_HEADER, rows[i]))
  }

  function HandleOfProduct(h: Host, p: Product): string { SlugifyHandle(h, p.title, p.id) }

  function Numbers(first: nat, n: nat): seq<nat> { seq(n, k requires 0 <= k => first + k) }

  function Block(h: Host, p: Product, first: nat): Group {
    Group(HandleOfProduct(h, p), Records(ProductRows(h, p)), Numbers(first, RowTotal(p)))
  }

  lemma SlugNotSpace(s: string)
    requires SlugText(s)
    ensures Trimmed(s)
  {}

  lemma HandlePlain(h: Host, p: Product)
    requires Exportable(h, p)
    ensures Plain(HandleOfProduct(h, p))
  {
    SlugHasNoOuterDashes(h, p.title);
    assert SlugText(HandleOfProduct(h, p));
    SlugNotSpace(HandleOfProduct(h, p));
  }

  lemma VariantFieldsTrimmed(h: Host, p: Product, k: nat)
    requires Exportable(h, p) && k < |p.variants|
    ensures var v := p.variants[k];
            && Trimmed(v.sku) && Trimmed(h.show(v.price)) && Trimmed(h.show(v.stockQuantity))
            && Trimmed(NameAt(v.attributes, 0)) && Trimmed(ValueAt(v.attributes, 0)) && Trimmed(NameAt(v.attributes, 1)) && Trimmed(ValueAt(v.attributes, 1))
  {
    hide IsSpace;
    var v := p.variants[k];
    assert ExportableVariant(h, v);
    forall n: nat | n < 2 ensures Trimmed(NameAt(v.attributes, n)) && Trimmed(ValueAt(v.attributes, n)) {
      if n < |v.attributes| { assert Plain(v.attributes[n].name) && Plain(v.attributes[n].value); }
    }
  }

  lemma OtherFieldsTrimmed(h: Host, p: Product)
    requires Exportable(h, p)
    ensures Trimmed("") && Trimmed(HandleOfProduct(h, p)) && Trimmed(p.title) && Trimmed(p.description)
    ensures forall i | 0 <= i < |p.images| :: Trimmed(p.images[i])
  {
    HandlePlain(h, p);
    hide SlugifyHandle, IsSpace;
  }

  lemma VariantRowTrimmed(h: Host, p: Product, k: nat)
    requires Exportable(h, p) && k < RowCount(p)
    ensures |VariantRow(h, p, k)| == 11 && AllTrimmed(VariantRow(h, p, k))
  {
    OtherFieldsTrimmed(h, p);
    if k < |p.variants| { VariantFieldsTrimmed(h, p, k); }
    hide Trimmed, Exportable, SlugifyHandle, NameAt, ValueAt;
    if k >= |p.variants| { NoAttributes(); }
  }

  lemma NoAttributes()
    ensures NameAt([], 0) == ValueAt([], 0) == NameAt([], 1) == ValueAt([], 1) == ""
  {}

  lemma ImageRowTrimmed(h: Host, p: Product, i: nat)
    requires Exportable(h, p) && i < |p.images|
    ensures |ImageRow(h, p, i)| == 11 && AllTrimmed(ImageRow(h, p, i))
  {
    OtherFieldsTrimmed(h, p);
    hide Trimmed, Exportable, SlugifyHandle;
  }

  lemma RowTrimmed(h: Host, p: Product, k: nat)
    requires Exportable(h, p) && k < RowTotal(p)
    ensures AllTrimmed(ProductRow(h, p, k)) && |ProductRow(h, p, k)| == |PRODUCT_EXPORT_HEADER|
  {
    hide Trimmed, AllTrimmed, VariantRow, ImageRow;
    if k < RowCount(p) { VariantRowTrimmed(h, p, k); } else { ImageRowTrimmed(h, p, k - RowCount(p) + 1); }
  }

  /** Row `k` of the block, as the importer reads it. */
  lemma BlockCells(h: Host, p: Product, first: nat, k: nat)
    requires Exportable(h, p) && k < RowTotal(p)
    ensures var row := Block(h, p, first).rows[k];
            && Cell(row, HANDLE) == HandleOfProduct(h, p) != ""
            && Cell(row, TITLE) == (if k == 0 then p.title else "") && Cell(row, BODY) == (if k == 0 then p.description else "")
            && Cell(row, IMAGE) == (if k == 0 then (if p.images == [] then "" else p.images[0]) else if k < RowCount(p) then "" else p.images[k - RowCount(p) + 1])
            && (k >= |p.variants| ==> Cell(row, PRICE) == "")
            && (k < |p.variants| ==>
                  var v := p.variants[k];
                  && Cell(row, SKU) == v.sku && Cell(row, PRICE) == h.show(v.price) && Cell(row, QUANTITY) == h.show(v.stockQuantity)
                  && Cell(row, OPTION1_NAME) == NameAt(v.attributes, 0) && Cell(row, OPTION1_VALUE) == ValueAt(v.attributes, 0)
                  && Cell(row, OPTION2_NAME) == NameAt(v.attributes, 1) && Cell(row, OPTION2_VALUE) == ValueAt(v.attributes, 1)
                  && Cell(row, OPTION3_NAME) == "" == Cell(row, OPTION3_VALUE))
  {
    hide RowOf, Cell, SlugifyHandle, Trimmed, AllTrimmed, Exportable;
    RowTrimmed(h, p, k);
    CellsRead(ProductRow(h, p, k));
    HandlePlain(h, p);
  }

  lemma AttributesBack(row: Row, attributes: seq<Attribute>)
    requires forall k | 0 <= k < |attributes| && k < 2 :: Plain(attributes[k].name) && Plain(attributes[k].value)
    requires |attributes| >= 2 ==> attributes[0].name != attributes[1].name
    requires Cell(row, OPTION1_NAME) == NameAt(attributes, 0) && Cell(row, OPTION1_VALUE) == ValueAt(attributes, 0)
    requires Cell(row, OPTION2_NAME) == NameAt(attributes, 1) && Cell(row, OPTION2_VALUE) == ValueAt(attributes, 1)
    requires Cell(row, OPTION3_NAME) == "" == Cell(row, OPTION3_VALUE)
    ensures AttributesOf(row) == FirstTwo(attributes)
  {
    hide Cell, Trimmed;
    if |attributes| >= 2 {
      var a, b := attributes[0], attributes[1];
      assert SetAttribute([], a.name, a.value) == [a];
      assert SetAttribute([a], b.name, b.value) == [a] + [b];
      assert FirstTwo(attributes) == [a, b];
    } else if |attributes| == 1 {
      assert SetAttribute([], attributes[0].name, attributes[0].value) == [attributes[0]];
    }
  }

  lemma VariantBack(h: Host, handle: string, row: Row, v: Variant, idx: nat, rowNumber: nat)
    requires ExportableVariant(h, v) && Cell(row, SKU) == v.sku && Cell(row, PRICE) == h.show(v.price) && Cell(row, QUANTITY) == h.show(v.stockQuantity)
    requires AttributesOf(row) == FirstTwo(v.attributes)
    ensures ReadRow(h, handle, row, idx, rowNumber) == Good(ImportedVariant(v))
  {
    hide Cell, AttributesOf, FirstTwo, Trimmed;
  }

  lemma RowBack(h: Host, p: Product, first: nat, k: nat)
    requires Exportable(h, p) && k < RowTotal(p) == |Block(h, p, first).rows| == |Block(h, p, first).rowNumbers|
    ensures OutcomeAt(h, Block(h, p, first), k) == if k < |p.variants| then Good(ImportedVariant(p.variants[k])) else ImageOnly
  {
    BlockCells(h, p, first, k);
    hide Cell, Block, AttributesOf, ExportableVariant, ImportedVariant;
    var g := Block(h, p, first);
    if k < |p.variants| {
      ExportableAttributes(h, p, k);
      AttributesBack(g.rows[k], p.variants[k].attributes);
      VariantBack(h, g.handle, g.rows[k], p.variants[k], k, g.rowNumbers[k]);
    }
  }

  lemma ExportableAttributes(h: Host, p: Product, k: nat)
    requires Exportable(h, p) && k < |p.variants|
    ensures ExportableVariant(h, p.variants[k])
    ensures var attributes := p.variants[k].attributes;
            && (forall n | 0 <= n < |attributes| && n < 2 :: Plain(attributes[n].name) && Plain(attributes[n].value))
            && (|attributes| >= 2 ==> attributes[0].name != attributes[1].name)
  {
    assert ExportableVariant(h, p.variants[k]);
  }

  lemma {:induction false} VariantsBack(h: Host, g: Group, variants: seq<Variant>, k: nat)
    requires |g.rows| == |g.rowNumbers| && k <= |g.rows|
    requires forall i | 0 <= i < |g.rows| :: OutcomeAt(h, g, i) == if i < |variants| then Good(ImportedVariant(variants[i])) else ImageOnly
    ensures VariantsUpTo(h, g, k) == ImportedVariants(variants[..if k < |variants| then k else |variants|])
    ensures ErrorsUpTo(h, g, k) == []
  {
    hide OutcomeAt, ImportedVariant;
    if k > 0 {
      VariantsBack(h, g, variants, k - 1);
      if k <= |variants| { NextImported(variants, k); }
    }
  }

  lemma NextImported(variants: seq<Variant>, k: nat)
    requires 0 < k <= |variants|
    ensures ImportedVariants(variants[..k]) == ImportedVariants(variants[..k - 1]) + [ImportedVariant(variants[k - 1])]
  {
    hide ImportedVariant;
    assert variants[..k][..k - 1] == variants[..k - 1];
  }

  function ImageAt(p: Product, k: nat): string
    requires k < RowTotal(p)
  {
    if k == 0 then (if p.images == [] then "" else p.images[0]) else if k < RowCount(p) then "" else p.images[k - RowCount(p) + 1]
  }

  lemma {:induction false} ImagesBack(rows: seq<Row>, p: Product, k: nat)
    requires |rows| == RowTotal(p) && 0 < k <= |rows|
    requires forall i | 0 <= i < |p.images| :: p.images[i] != ""
    requires forall i | 0 <= i < |rows| :: Cell(rows[i], IMAGE) == ImageAt(p, i)
    ensures ImageCells(rows[..k]) == if p.images == [] then [] else if k <= RowCount(p) then p.images[..1] else p.images[..k - RowCount(p) + 1]
  {
    hide Cell;
    assert rows[..k][..k - 1] == rows[..k - 1];
    if k == 1 {
      assert ImageCells(rows[..0]) == [];
    } else {
      ImagesBack(rows, p, k - 1);
    }
  }

  lemma BlockShape(h: Host, p: Product, first: nat)
    requires Exportable(h, p)
    ensures var g := Block(h, p, first);
            |g.rows| == |g.rowNumbers| == RowTotal(p) > 0 && g.rowNumbers[0] == first && g.handle == HandleOfProduct(h, p)
  {
    forall k | 0 <= k < RowTotal(p) { RowTrimmed(h, p, k); }
    hide SlugifyHandle, VariantRow, ImageRow;
  }

  lemma BlockVariants(h: Host, p: Product, first: nat)
    requires Exportable(h, p)
    ensures var g := Block(h, p, first);
            && |g.rows| == |g.rowNumbers| == RowTotal(p)
            && VariantsUpTo(h, g, |g.rows|) == ImportedVariants(p.variants) && ErrorsUpTo(h, g, |g.rows|) == []
  {
    var g := Block(h, p, first);
    BlockShape(h, p, first);
    forall k: nat | k < RowTotal(p) ensures OutcomeAt(h, g, k) == if k < |p.variants| then Good(ImportedVariant(p.variants[k])) else ImageOnly {
      RowBack(h, p, first, k);
    }
    hide Block, OutcomeAt, ImportedVariant, Exportable;
    VariantsBack(h, g, p.variants, RowTotal(p));
    assert p.variants[..|p.variants|] == p.variants;
  }

  lemma BlockImages(h: Host, p: Product, first: nat)
    requires Exportable(h, p)
    ensures ImageCells(Block(h, p, first).rows) == p.images
  {
    hide Cell, ImageCells, Trimmed, HandleOfProduct;
    var rows, n := Block(h, p, first).rows, RowTotal(p);
    BlockShape(h, p, first);
    forall k: nat | k < n ensures Cell(rows[k], IMAGE) == ImageAt(p, k) { BlockCells(h, p, first, k); }
    hide Block;
    ImagesBack(rows, p, n);
    assert rows[..n] == rows;
    assert p.images != [] ==> p.images[..n - RowCount(p) + 1] == p.images;
  }

  /** The importer makes of a product's block the product, or one error if it has no variant. */
  lemma BlockBack(h: Host, p: Product, first: nat)
    requires Exportable(h, p)
    ensures |Block(h, p, first).rows| == |Block(h, p, first).rowNumbers| > 0
    ensures ParseGroup(h, Block(h, p, first)) ==
            if p.variants == [] then GroupResult(None, [NoValidPrice(first, HandleOfProduct(h, p))]) else GroupResult(Some(Imported(p)), [])
  {
    BlockShape(h, p, first);
    BlockCells(h, p, first, 0);
    hide Block, Cell, HandleOfProduct, ImageCells, VariantsUpTo, ErrorsUpTo, Distinct, Trimmed, ImportedVariants;
    BlockVariants(h, p, first);
    BlockImages(h, p, first);
    ImportedLength(p.variants);
    FirstIsTitled(Block(h, p, first).rows);
    hide ParseGroup, FirstTitled;
    GroupParses(h, Block(h, p, first));
  }

  lemma GroupParses(h: Host, g: Group)
    requires |g.rows| == |g.rowNumbers| > 0 && FirstTitled(g.rows) == Some(g.rows[0])
    ensures var variants, errors := VariantsUpTo(h, g, |g.rows|), ErrorsUpTo(h, g, |g.rows|);
            ParseGroup(h, g) ==
            if variants == [] then GroupResult(None, errors + [NoValidPrice(g.rowNumbers[0], g.handle)])
            else GroupResult(Some(ParsedProduct(Cell(g.rows[0], TITLE), Cell(g.rows[0], BODY), variants, Distinct(ImageCells(g.rows)))), errors)
  {
    hide Cell, Distinct, ImageCells, VariantsUpTo, ErrorsUpTo, FirstTitled;
  }

  lemma FirstIsTitled(rows: seq<Row>)
    requires rows != [] && Cell(rows[0], TITLE) != ""
    ensures FirstTitled(rows) == Some(rows[0])
  {
    hide Cell;
  }

  lemma {:induction false} ImportedLength(variants: seq<Variant>)
    ensures |ImportedVariants(variants)| == |variants|
    ensures forall i | 0 <= i < |variants| :: ImportedVariants(variants)[i] == ImportedVariant(variants[i])
  {
    if variants != [] { ImportedLength(variants[..|variants| - 1]); }
  }

  // ---- The whole file ------------------------------------------------------------------------------------------

  function Blocks(h: Host, products: seq<Product>): seq<Group> {
    if products == [] then []
    else
      var init := products[..|products| - 1];
      Blocks(h, init) + [Block(h, products[|products| - 1], |ExportRows(h, init)| + 2)]
  }

  lemma {:induction false} ExportShape(h: Host, products: seq<Product>)
    requires AllExportable(h, products)
    ensures forall i | 0 <= i < |ExportRows(h, products)| :: |ExportRows(h, products)[i]| == |PRODUCT_EXPORT_HEADER|
  {
    hide Block, HandleOfProduct, Exportable, ProductRows, Records, Cell;
    if products != [] {
      var n := |products| - 1;
      ExportShape(h, products[..n]);
      BlockOf(h, products[n], 0);
    }
  }

  lemma {:induction false} BlocksShape(h: Host, products: seq<Product>)
    requires AllExportable(h, products)
    ensures |Blocks(h, products)| == |products|
    ensures forall i | 0 <= i < |products| :: Blocks(h, products)[i].handle == HandleOfProduct(h, products[i])
  {
    hide Block, HandleOfProduct, Exportable, ExportRows;
    if products != [] {
      var n := |products| - 1;
      BlocksShape(h, products[..n]);
      BlockShape(h, products[n], |ExportRows(h, products[..n])| + 2);
    }
  }

  lemma NewHandle(h: Host, products: seq<Product>)
    requires products != [] && AllExportable(h, products) && PrefixesDistinct(products)
    ensures var n := |products| - 1;
            forall i | 0 <= i < n :: HandleOfProduct(h, products[i]) != HandleOfProduct(h, products[n])
  {
    var n := |products| - 1;
    forall i | 0 <= i < n ensures HandleOfProduct(h, products[i]) != HandleOfProduct(h, products[n]) {
      assert Prefix(products[i].id) != Prefix(products[n].id);
      if HandleOfProduct(h, products[i]) == HandleOfProduct(h, products[n]) {
        HandleInjective(h, products[i].title, products[i].id, products[n].title, products[n].id);
      }
    }
  }

  ghost predicate NoneNamed(groups: seq<Group>, handle: string) { forall i | 0 <= i < |groups| :: groups[i].handle != handle }

  lemma AddToNew(groups: seq<Group>, handle: string, row: Row, rowNumber: nat)
    requires NoneNamed(groups, handle)
    ensures AddRow(groups, handle, row, rowNumber) == groups + [Group(handle, [row], [rowNumber])]
  {
    hide IndexOf;
  }

  lemma AddToLast(groups: seq<Group>, g: Group, row: Row, rowNumber: nat)
    requires NoneNamed(groups, g.handle)
    ensures AddRow(groups + [g], g.handle, row, rowNumber) == groups + [Group(g.handle, g.rows + [row], g.rowNumbers + [rowNumber])]
  {
    hide IndexOf;
    var all := groups + [g];
    var i := IndexOf(all, g.handle);
    assert all[|groups|] == g;
    assert forall j | 0 <= j < |groups| :: all[j] == groups[j];
  }

  lemma GroupOneMore(h: Host, rows: seq<Row>, row: Row, handle: string)
    requires Cell(row, HANDLE) == handle != ""
    ensures GroupRows(h, rows + [row]) == AddRow(GroupRows(h, rows), handle, row, |rows| + 2)
  {
    hide Cell, AddRow;
    assert (rows + [row])[..|rows|] == rows;
  }

  /** A run of rows with one new handle becomes one new group. */
  lemma {:induction false} NewBlock(h: Host, before: seq<Row>, rows: seq<Row>, handle: string)
    requires rows != [] && NoneNamed(GroupRows(h, before), handle)
    requires forall k | 0 <= k < |rows| :: Cell(rows[k], HANDLE) == handle != ""
    ensures GroupRows(h, before + rows) == GroupRows(h, before) + [Group(handle, rows, Numbers(|before| + 2, |rows|))]
    decreases |rows|
  {
    hide Cell, AddRow, NoneNamed, GroupRows;
    var n := |rows| - 1;
    var init, row, m := rows[..n], rows[n], |before| + n;
    GroupOneMore(h, before + init, row, handle);
    assert before + init + [row] == before + rows;
    assert rows == init + [row];
    if n == 0 {
      assert before + init == before && rows == [row] && Numbers(m + 2, 1) == [m + 2];
      AddToNew(GroupRows(h, before), handle, row, m + 2);
    } else {
      NewBlock(h, before, init, handle);
      AddToLast(GroupRows(h, before), Group(handle, init, Numbers(|before| + 2, n)), row, m + 2);
      assert Numbers(|before| + 2, n + 1) == Numbers(|before| + 2, n) + [m + 2];
    }
  }

  lemma RecordsAppend(a: seq<seq<string>>, b: seq<seq<string>>)
    requires forall i | 0 <= i < |a| :: |a[i]| == |PRODUCT_EXPORT_HEADER|
    requires forall i | 0 <= i < |b| :: |b[i]| == |PRODUCT_EXPORT_HEADER|
    ensures forall i | 0 <= i < |a + b| :: |(a + b)[i]| == |PRODUCT_EXPORT_HEADER|
    ensures Records(a + b) == Records(a) + Records(b)
  {
    hide RowOf;
  }

  lemma InitDistinct(h: Host, products: seq<Product>)
    requires products != [] && AllExportable(h, products) && PrefixesDistinct(products)
    ensures var n := |products| - 1;
            AllExportable(h, products[..n]) && PrefixesDistinct(products[..n]) && Exportable(h, products[n])
  {
    hide Exportable;
  }

  /** No block of the earlier products has the last one's handle. */
  lemma NewBlockHandle(h: Host, products: seq<Product>)
    requires products != [] && AllExportable(h, products) && PrefixesDistinct(products)
    ensures var n := |products| - 1; NoneNamed(Blocks(h, products[..n]), HandleOfProduct(h, products[n]))
  {
    var n := |products| - 1;
    InitDistinct(h, products);
    NewHandle(h, products);
    hide Exportable, HandleOfProduct;
    BlocksShape(h, products[..n]);
  }

  /** Grouping the exported rows by handle recovers the products' blocks, in order. */
  lemma {:induction false} GroupsAreBlocks(h: Host, products: seq<Product>)
    requires AllExportable(h, products) && PrefixesDistinct(products)
    ensures forall i | 0 <= i < |ExportRows(h, products)| :: |ExportRows(h, products)[i]| == |PRODUCT_EXPORT_HEADER|
    ensures GroupRows(h, Records(ExportRows(h, products))) == Blocks(h, products)
  {
    hide Cell, HandleOfProduct, Block, RowOf, Exportable, PrefixesDistinct, AllExportable, NoneNamed, ProductRows;
    ExportShape(h, products);
    if products != [] {
      var n := |products| - 1;
      var init, last := products[..n], products[n];
      var first := |ExportRows(h, init)| + 2;
      InitDistinct(h, products);
      ExportShape(h, init);
      GroupsAreBlocks(h, init);
      NewBlockHandle(h, products);
      BlockOf(h, last, first);
      hide GroupRows;
      RecordsAppend(ExportRows(h, init), ProductRows(h, last));
      NewBlock(h, Records(ExportRows(h, init)), Records(ProductRows(h, last)), HandleOfProduct(h, last));
    }
  }

  lemma BlockOf(h: Host, p: Product, first: nat)
    requires Exportable(h, p)
    ensures forall k | 0 <= k < |ProductRows(h, p)| :: |ProductRows(h, p)[k]| == |PRODUCT_EXPORT_HEADER|
    ensures var rows := Records(ProductRows(h, p));
            && Block(h, p, first) == Group(HandleOfProduct(h, p), rows, Numbers(first, |rows|)) && rows != []
            && forall k | 0 <= k < |rows| :: Cell(rows[k], HANDLE) == HandleOfProduct(h, p) != ""
  {
    forall k: nat | k < RowTotal(p) { RowTrimmed(h, p, k); }
    forall k: nat | k < RowTotal(p) ensures Cell(Block(h, p, first).rows[k], HANDLE) == HandleOfProduct(h, p) != "" { BlockCells(h, p, first, k); }
    hide Cell, SlugifyHandle, VariantRow, ImageRow, RowOf;
  }

  lemma {:induction false} BlocksBack(h: Host, products: seq<Product>)
    requires AllExportable(h, products)
    ensures WellFormed(Blocks(h, products))
    ensures Products(h, Blocks(h, products)) == ImportedAll(products) && Errors(h, Blocks(h, products)) == LostAll(h, products)
  {
    if products == [] {
      NoBlocks(h);
    } else {
      var n := |products| - 1;
      var init := Blocks(h, products[..n]);
      var block := Block(h, products[n], |ExportRows(h, products[..n])| + 2);
      assert Blocks(h, products) == init + [block] && Exportable(h, products[n]);
      LastImported(h, products);
      hide Block, ParseGroup, Imported, Exportable, ExportRows, Blocks, Products, Errors, ImportedAll, LostAll, HandleOfProduct, WellFormed;
      BlocksBack(h, products[..n]);
      BlockBack(h, products[n], |ExportRows(h, products[..n])| + 2);
      LastGroup(h, init, block);
    }
  }

  lemma NoBlocks(h: Host)
    ensures Blocks(h, []) == [] && Products(h, []) == ImportedAll([]) && Errors(h, []) == LostAll(h, []) && WellFormed([])
  {}

  lemma LastGroup(h: Host, init: seq<Group>, g: Group)
    requires WellFormed(init) && |g.rows| == |g.rowNumbers| > 0
    ensures WellFormed(init + [g])
    ensures Products(h, init + [g]) == Products(h, init) + match ParseGroup(h, g).product case None => [] case Some(p) => [p]
    ensures Errors(h, init + [g]) == Errors(h, init) + ParseGroup(h, g).errors
  {
    hide ParseGroup;
    assert (init + [g])[..|init|] == init;
  }

  lemma LastImported(h: Host, products: seq<Product>)
    requires products != []
    ensures var n := |products| - 1;
            && ImportedAll(products) == ImportedAll(products[..n]) + (if products[n].variants == [] then [] else [Imported(products[n])])
            && LostAll(h, products) == LostAll(h, products[..n]) +
                 (if products[n].variants == [] then [NoValidPrice(|ExportRows(h, products[..n])| + 2, HandleOfProduct(h, products[n]))] else [])
  {
    hide Imported, ExportRows, SlugifyHandle;
  }

  lemma HeaderIsCore()
    ensures Unmapped(PRODUCT_EXPORT_HEADER) == []
  {
    AllCore(PRODUCT_EXPORT_HEADER);
  }

  lemma {:induction false} AllCore(header: seq<string>)
    requires forall i | 0 <= i < |header| :: header[i] in CORE_COLUMNS
    ensures Unmapped(header) == []
  {
    if header != [] { AllCore(header[..|header| - 1]); }
  }

  /**
   * Importing an export gives back, in order, every product that has a variant, with its first
   * two attributes and its images once each, and one row error for every product that has none.
   */
  lemma ImportOfExport(h: Host, products: seq<Product>)
    requires AllExportable(h, products) && PrefixesDistinct(products)
    ensures forall i | 0 <= i < |ExportRows(h, products)| :: |ExportRows(h, products)[i]| == |PRODUCT_EXPORT_HEADER|
    ensures Parse(h, Records(ExportRows(h, products)), PRODUCT_EXPORT_HEADER) == ParseResult(ImportedAll(products), [], LostAll(h, products))
  {
    GroupsAreBlocks(h, products);
    BlocksBack(h, products);
    HeaderIsCore();
  }

  // ---- The round trip the code promises ------------------------------------------------------------------------

  /** Nothing of the product is cut off: it has a variant, no third attribute, no image twice, no negative stock. */
  ghost predicate Whole(p: Product) {
    && p.variants != [] && NoDuplicates(p.images)
    && (forall i | 0 <= i < |p.variants| :: |p.variants[i].attributes| <= 2 && 0.0 <= p.variants[i].stockQuantity)
  }

  function SameVariant(v: Variant): ParsedVariant { ParsedVariant(v.sku, v.price, v.stockQuantity, v.attributes) }

  function SameProduct(p: Product): ParsedProduct {
    ParsedProduct(p.title, p.description, seq(|p.variants|, i requires 0 <= i < |p.variants| => SameVariant(p.variants[i])), p.images)
  }

  lemma {:induction false} DistinctKeeps(urls: seq<string>)
    requires NoDuplicates(urls)
    ensures Distinct(urls) == urls
  {
    if urls != [] { DistinctKeeps(urls[..|urls| - 1]); }
  }

  /** A product comes back as it was if and only if nothing of it is cut off. */
  lemma SameExactly(p: Product)
    ensures p.variants != [] && Imported(p) == SameProduct(p) <==> Whole(p)
  {
    ImportedLength(p.variants);
    if NoDuplicates(p.images) { DistinctKeeps(p.images); }
    var a, b := ImportedVariants(p.variants), SameProduct(p).variants;
    if a == b {
      forall i | 0 <= i < |p.variants| ensures |p.variants[i].attributes| <= 2 && 0.0 <= p.variants[i].stockQuantity {
        assert a[i] == b[i] && a[i] == ImportedVariant(p.variants[i]);
      }
    }
    if forall i | 0 <= i < |p.variants| :: |p.variants[i].attributes| <= 2 && 0.0 <= p.variants[i].stockQuantity {
      assert a == b;
    }
  }

  lemma {:induction false} AllWhole(h: Host, products: seq<Product>)
    requires forall i | 0 <= i < |products| :: Whole(products[i])
    ensures ImportedAll(products) == SameProducts(products)
    ensures LostAll(h, products) == []
  {
    hide SameProduct, Imported, SlugifyHandle, NoDuplicates;
    if products != [] {
      var init, last := products[..|products| - 1], products[|products| - 1];
      assert Whole(last) && last.variants != [];
      hide Whole;
      AllWhole(h, init);
      SameExactly(last);
    }
  }

  /** A product without a variant costs an error row, so with none lost every product has come back. */
  lemma {:induction false} NoneLost(h: Host, products: seq<Product>)
    requires LostAll(h, products) == []
    ensures |ImportedAll(products)| == |products|
    ensures forall i | 0 <= i < |products| :: products[i].variants != [] && ImportedAll(products)[i] == Imported(products[i])
  {
    hide Imported;
    if products != [] { NoneLost(h, products[..|products| - 1]); }
  }

  /** The upload: the file's text, read as CSV, keyed by its first record, and parsed. */
  function ImportFile(h: Host, text: string): Option<ParseResult> {
    match ReadCsv(text)
    case None => None
    case Some(table) =>
      if table != [] && forall i | 0 <= i < |table| :: |table[i]| == |table[0]| then
        Some(Parse(h, seq(|table| - 1, i requires 0 <= i < |table| - 1 => RowOf(table[0], table[i + 1])), table[0]))
      else None
  }

  lemma ImportReads(h: Host, text: string, rows: seq<seq<string>>)
    requires ReadCsv(text) == Some([PRODUCT_EXPORT_HEADER] + rows)
    requires forall i | 0 <= i < |rows| :: |rows[i]| == |PRODUCT_EXPORT_HEADER|
    ensures ImportFile(h, text) == Some(Parse(h, Records(rows), PRODUCT_EXPORT_HEADER))
  {
    hide Parse, ReadCsv, RowOf;
    var table := [PRODUCT_EXPORT_HEADER] + rows;
    assert seq(|table| - 1, i requires 0 <= i < |table| - 1 => RowOf(table[0], table[i + 1])) == Records(rows);
  }

  function ExportText(h: Host, products: seq<Product>): string { JoinLines(Lines([PRODUCT_EXPORT_HEADER] + ExportRows(h, products))) }

  lemma TrimmedEndsInNoCR(s: string)
    requires Trimmed(s)
    ensures !EndsInBareCR(s)
  {
    assert IsSpace('\r');
  }

  /** A field may hold any carriage return but a last one that is bare, and a trimmed text has none there. */
  lemma {:induction false} LastFieldsTrimmed(h: Host, products: seq<Product>)
    requires AllExportable(h, products)
    ensures forall i | 0 <= i < |ExportRows(h, products)| ::
              |ExportRows(h, products)[i]| == |PRODUCT_EXPORT_HEADER| && Trimmed(ExportRows(h, products)[i][|PRODUCT_EXPORT_HEADER| - 1])
  {
    hide Exportable, ProductRow, Trimmed;
    if products != [] {
      var n := |products| - 1;
      LastFieldsTrimmed(h, products[..n]);
      forall k: nat | k < RowTotal(products[n]) { RowTrimmed(h, products[n], k); }
    }
  }

  lemma ExportReads(h: Host, products: seq<Product>)
    requires AllExportable(h, products)
    ensures ReadCsv(ExportText(h, products)) == Some([PRODUCT_EXPORT_HEADER] + ExportRows(h, products))
  {
    hide Exportable, ReadCsv, JoinLines, Lines, Trimmed, EndsInBareCR, ExportRows;
    LastFieldsTrimmed(h, products);
    var table := [PRODUCT_EXPORT_HEADER] + ExportRows(h, products);
    forall i | 0 <= i < |table| ensures table[i] != [] && table[i] != [""] && !EndsInBareCR(table[i][|table[i]| - 1]) {
      assert Trimmed(table[i][|table[i]| - 1]) by { HeaderTrimmed(); }
      TrimmedEndsInNoCR(table[i][|table[i]| - 1]);
    }
    RoundTripsExactly(table);
  }

  lemma HeaderTrimmed()
    ensures Trimmed(PRODUCT_EXPORT_HEADER[|PRODUCT_EXPORT_HEADER| - 1])
  {}

  /** The export's text, imported again: what comes back of any products, whatever their texts hold. */
  lemma ImportOfExportText(h: Host, products: seq<Product>)
    requires AllExportable(h, products) && PrefixesDistinct(products)
    ensures ImportFile(h, ExportText(h, products)) == Some(ParseResult(ImportedAll(products), [], LostAll(h, products)))
  {
    hide Exportable, Parse, ReadCsv, ExportText, ImportFile, AllExportable, PrefixesDistinct, Records, ExportRows;
    ExportReads(h, products);
    ImportOfExport(h, products);
    ImportReads(h, ExportText(h, products), ExportRows(h, products));
  }

  function SameProducts(products: seq<Product>): seq<ParsedProduct> { seq(|products|, i requires 0 <= i < |products| => SameProduct(products[i])) }

  /** The products themselves, with nothing unmapped and no error, if and only if every one of them is whole. */
  lemma SelfExportRoundTrips(h: Host, products: seq<Product>)
    requires AllExportable(h, products) && PrefixesDistinct(products)
    ensures ImportFile(h, ExportText(h, products)) == Some(ParseResult(SameProducts(products), [], [])) <==>
            forall i | 0 <= i < |products| :: Whole(products[i])
  {
    hide Whole, SameProduct, ExportText, ImportFile, AllExportable, PrefixesDistinct, Imported, LostAll, ImportedAll;
    ImportOfExportText(h, products);
    if forall i | 0 <= i < |products| :: Whole(products[i]) { AllWhole(h, products); }
    if ImportedAll(products) == SameProducts(products) && LostAll(h, products) == [] {
      NoneLost(h, products);
      forall i | 0 <= i < |products| ensures Whole(products[i]) {
        assert SameProducts(products)[i] == SameProduct(products[i]);
        SameExactly(products[i]);
      }
    }
  }
}
