/**
 * stock-import.util.ts and product-import.service.ts `processStockImport`: quantities by SKU for
 * one store, with an append-only log of what changed.
 */
module StockImport {
  import opened Common
  import opened Text

  const SKU := "SKU"
  const QUANTITY := "Quantity"

  datatype Update = Update(row: nat, sku: string, quantity: real)

  datatype RowError = MissingSku(row: nat) | InvalidQuantity(row: nat, raw: string, sku: string) | UnknownSku(row: nat, sku: string)

  // ---- Parsing ----------------------------------------------------------------------------------

  datatype Outcome = Parsed(update: Update) | Failed(error: RowError)

  function ReadRow(h: Host, row: Row, rowNumber: nat): Outcome {
    var sku, raw := Cell(row, SKU), Cell(row, QUANTITY);
    if sku == "" then Failed(MissingSku(rowNumber))
    else
      var quantity := h.read(raw);
      if raw == "" || quantity.None? || quantity.value < 0.0 then Failed(InvalidQuantity(rowNumber, raw, sku))
      else Parsed(Update(rowNumber, sku, quantity.value))
  }

  function UpdatesOf(h: Host, rows: seq<Row>): seq<Update> {
    if rows == [] then []
    else
      var n := |rows| - 1;
      UpdatesOf(h, rows[..n]) + match ReadRow(h, rows[n], n + 2) case Parsed(u) => [u] case Failed(_) => []
  }

  function ErrorsOf(h: Host, rows: seq<Row>): seq<RowError> {
    if rows == [] then []
    else
      var n := |rows| - 1;
      ErrorsOf(h, rows[..n]) + match ReadRow(h, rows[n], n + 2) case Parsed(_) => [] case Failed(e) => [e]
  }

  method ParseStockImportCsv(h: Host, rows: seq<Row>) returns (updates: seq<Update>, rowErrors: seq<RowError>)
    ensures updates == UpdatesOf(h, rows) && rowErrors == ErrorsOf(h, rows)
  {
    updates, rowErrors := [], [];
    for i := 0 to |rows|
      invariant updates == UpdatesOf(h, rows[..i]) && rowErrors == ErrorsOf(h, rows[..i])
    {
      var row, rowNumber := rows[i], i + 2;
      assert rows[..i + 1][..i] == rows[..i];
      var sku := Cell(row, SKU);
      if sku == "" {
        rowErrors := rowErrors + [MissingSku(rowNumber)];
        continue;
      }
      var quantityRaw := Cell(row, QUANTITY);
      var quantity := h.read(quantityRaw);
      if quantityRaw == "" || quantity.None? || quantity.value < 0.0 {
        rowErrors := rowErrors + [InvalidQuantity(rowNumber, quantityRaw, sku)];
        continue;
      }
      updates := updates + [Update(rowNumber, sku, quantity.value)];
    }
    assert rows[..|rows|] == rows;
  }

  /** Every row of the file gives one update or one error: none is lost and none counts twice. */
  lemma {:induction false} OneOutcomePerRow(h: Host, rows: seq<Row>)
    ensures |UpdatesOf(h, rows)| + |ErrorsOf(h, rows)| == |rows|
    ensures forall i, j | 0 <= i < j < |UpdatesOf(h, rows)| :: UpdatesOf(h, rows)[i].row < UpdatesOf(h, rows)[j].row <= |rows| + 1
  {
    if rows != [] {
      var n := |rows| - 1;
      OneOutcomePerRow(h, rows[..n]);
      RowNumbered(h, rows[n], n + 2);
      forall i | 0 <= i < |UpdatesOf(h, rows[..n])| ensures UpdatesOf(h, rows[..n])[i].row < n + 2 {
        UpdateIsRead(h, rows[..n], UpdatesOf(h, rows[..n])[i]);
      }
      hide ReadRow;
    }
  }

  lemma EmptyFile(h: Host)
    ensures UpdatesOf(h, []) == [] && ErrorsOf(h, []) == []
  {}

  lemma LastUpdate(h: Host, rows: seq<Row>, u: Update)
    requires rows != []
    ensures var n := |rows| - 1; u in UpdatesOf(h, rows) <==> u in UpdatesOf(h, rows[..n]) || ReadRow(h, rows[n], n + 2) == Parsed(u)
  {
    hide ReadRow;
  }

  lemma LastError(h: Host, rows: seq<Row>, e: RowError)
    requires rows != []
    ensures var n := |rows| - 1; e in ErrorsOf(h, rows) <==> e in ErrorsOf(h, rows[..n]) || ReadRow(h, rows[n], n + 2) == Failed(e)
  {
    hide ReadRow;
  }

  /** An update is parsed if and only if it is what reading the row of its number gives. */
  lemma {:induction false} UpdateIsRead(h: Host, rows: seq<Row>, u: Update)
    ensures u in UpdatesOf(h, rows) <==> 2 <= u.row < |rows| + 2 && ReadRow(h, rows[u.row - 2], u.row) == Parsed(u)
  {
    hide ReadRow, UpdatesOf;
    if rows == [] {
      EmptyFile(h);
    } else {
      var n := |rows| - 1;
      UpdateIsRead(h, rows[..n], u);
      LastUpdate(h, rows, u);
      RowNumbered(h, rows[n], n + 2);
    }
  }

  lemma {:induction false} ErrorIsRead(h: Host, rows: seq<Row>, e: RowError)
    ensures e in ErrorsOf(h, rows) <==> 2 <= e.row < |rows| + 2 && ReadRow(h, rows[e.row - 2], e.row) == Failed(e)
  {
    hide ReadRow, ErrorsOf;
    if rows == [] {
      EmptyFile(h);
    } else {
      var n := |rows| - 1;
      ErrorIsRead(h, rows[..n], e);
      LastError(h, rows, e);
      RowNumbered(h, rows[n], n + 2);
    }
  }

  /**
   * An update is parsed if and only if the row of its number has its SKU, and a quantity that reads
   * as the update's and is not negative. The first row of the file is the header.
   */
  lemma UpdateFromItsRow(h: Host, rows: seq<Row>, u: Update)
    ensures u in UpdatesOf(h, rows) <==>
              && 2 <= u.row <= |rows| + 1
              && var row := rows[u.row - 2];
                 && Cell(row, "SKU") == u.sku != "" && Cell(row, "Quantity") != ""
                 && h.read(Cell(row, "Quantity")) == Some(u.quantity) && u.quantity >= 0.0
  {
    UpdateIsRead(h, rows, u);
    hide UpdatesOf, Cell;
  }

  /** An error is reported if and only if the row of its number has no SKU, or one whose quantity is absent, unreadable or negative. */
  lemma ErrorFromItsRow(h: Host, rows: seq<Row>, e: RowError)
    ensures e in ErrorsOf(h, rows) <==>
              && 2 <= e.row <= |rows| + 1
              && var row := rows[e.row - 2];
                 match e
                 case MissingSku(_) => Cell(row, "SKU") == ""
                 case InvalidQuantity(_, raw, sku) =>
                   && Cell(row, "SKU") == sku != "" && Cell(row, "Quantity") == raw
                   && (raw == "" || h.read(raw) == None || h.read(raw).value < 0.0)
                 case UnknownSku(_, _) => false
  {
    ErrorIsRead(h, rows, e);
    hide ErrorsOf, Cell;
  }

  lemma RowNumbered(h: Host, row: Row, rowNumber: nat)
    ensures match ReadRow(h, row, rowNumber) case Parsed(u) => u.row == rowNumber case Failed(e) => e.row == rowNumber
  {
    hide Cell;
  }

  // ---- Applying -------------------------------------------------------------------------------------

  type Stock = map<string, int>

  datatype Adjustment = Adjustment(sku: string, quantityBefore: int, quantityAfter: int)

  datatype Shelf = Shelf(stock: Stock, log: seq<Adjustment>, errors: seq<RowError>)

  predicate IsWhole(x: real) { x.Floor as real == x }

  /** The update changes a quantity to something the integer column cannot hold. */
  predicate Breaks(s: Shelf, u: Update) { u.sku in s.stock && s.stock[u.sku] as real != u.quantity && !IsWhole(u.quantity) }

  function Apply(s: Shelf, u: Update): Shelf {
    if u.sku !in s.stock then s.(errors := s.errors + [UnknownSku(u.row, u.sku)])
    else if s.stock[u.sku] as real == u.quantity then s
    else Shelf(s.stock[u.sku := u.quantity.Floor], s.log + [Adjustment(u.sku, s.stock[u.sku], u.quantity.Floor)], s.errors)
  }

  /** None when a write throws: the transaction is rolled back. */
  function ApplyAll(s: Shelf, updates: seq<Update>): Option<Shelf> {
    if updates == [] then Some(s)
    else
      var n := |updates| - 1;
      match ApplyAll(s, updates[..n])
      case None => None
      case Some(t) => if Breaks(t, updates[n]) then None else Some(Apply(t, updates[n]))
  }

  class StockImportService {
    var stock: Stock
    var adjustments: seq<Adjustment>

    constructor (stock: Stock)
      ensures this.stock == stock && adjustments == []
    {
      this.stock := stock;
      adjustments := [];
    }

    /** All of the file's updates, or none of them. */
    method ProcessStockImport(updates: seq<Update>) returns (r: Result<seq<RowError>, string>)
      modifies this
      ensures r.Ok? <==> ApplyAll(Shelf(old(stock), old(adjustments), []), updates).Some?
      ensures r.Ok? <==> forall u | u in updates && u.sku in old(stock) :: IsWhole(u.quantity)
      ensures r.Ok? ==> ApplyAll(Shelf(old(stock), old(adjustments), []), updates).value == Shelf(stock, adjustments, r.value)
      ensures r.Err? ==> stock == old(stock) && adjustments == old(adjustments)
    {
      ghost var start := Shelf(stock, adjustments, []);
      FailsExactly(start, updates);
      var before, beforeLog := stock, adjustments;
      var rowErrors := [];
      for i := 0 to |updates|
        invariant ApplyAll(start, updates[..i]) == Some(Shelf(stock, adjustments, rowErrors))
      {
        var update := updates[i];
        assert updates[..i + 1][..i] == updates[..i];
        if update.sku !in stock {
          rowErrors := rowErrors + [UnknownSku(update.row, update.sku)];
          continue;
        }
        var quantity := stock[update.sku];
        if quantity as real == update.quantity { continue; }
        if !IsWhole(update.quantity) {
          BreaksForGood(start, updates, i);
          stock, adjustments := before, beforeLog;
          return Err("Invalid value for stockQuantity");
        }
        stock := stock[update.sku := update.quantity.Floor];
        adjustments := adjustments + [Adjustment(update.sku, quantity, update.quantity.Floor)];
      }
      assert updates[..|updates|] == updates;
      return Ok(rowErrors);
    }
  }

  /** A write throws exactly when some quantity for a SKU of the store is not a whole number. */
  lemma {:induction false} FailsExactly(s: Shelf, updates: seq<Update>)
    ensures ApplyAll(s, updates).Some? <==> forall u | u in updates && u.sku in s.stock :: IsWhole(u.quantity)
    ensures ApplyAll(s, updates).Some? ==> ApplyAll(s, updates).value.stock.Keys == s.stock.Keys
  {
    if updates != [] {
      var n := |updates| - 1;
      FailsExactly(s, updates[..n]);
      assert updates == updates[..n] + [updates[n]];
    }
  }

  lemma {:induction false} BreaksForGood(s: Shelf, updates: seq<Update>, i: nat)
    requires i < |updates| && ApplyAll(s, updates[..i]).Some? && Breaks(ApplyAll(s, updates[..i]).value, updates[i])
    ensures ApplyAll(s, updates).None?
    decreases |updates|
  {
    var n := |updates| - 1;
    if i < n {
      assert updates[..n][..i] == updates[..i];
      BreaksForGood(s, updates[..n], i);
    } else {
      assert updates[..n] == updates[..i];
    }
  }

  // ---- What the log says -------------------------------------------------------------------------------

  /** The last update for the SKU, if there is one. */
  function LastFor(updates: seq<Update>, sku: string): Option<Update> {
    if updates == [] then None
    else if updates[|updates| - 1].sku == sku then Some(updates[|updates| - 1])
    else LastFor(updates[..|updates| - 1], sku)
  }

  /** A matched variant ends with the last quantity given for its SKU, and an unmentioned one keeps its own. */
  lemma {:induction false} LastValueWins(s: Shelf, updates: seq<Update>, sku: string)
    requires ApplyAll(s, updates).Some? && sku in s.stock
    ensures var t := ApplyAll(s, updates).value;
            t.stock.Keys == s.stock.Keys &&
            t.stock[sku] as real == match LastFor(updates, sku) case Some(u) => u.quantity case None => s.stock[sku] as real
  {
    if updates != [] { LastValueWins(s, updates[..|updates| - 1], sku); }
  }

  function For(log: seq<Adjustment>, sku: string): seq<Adjustment> {
    if log == [] then [] else For(log[..|log| - 1], sku) + if log[|log| - 1].sku == sku then [log[|log| - 1]] else []
  }

  /** The entries lead from `from` to `to`, each from where the one before left off, and each somewhere else. */
  predicate Chains(entries: seq<Adjustment>, from: int, to: int) {
    if entries == [] then from == to
    else
      var last := entries[|entries| - 1];
      last.quantityAfter == to && last.quantityBefore != last.quantityAfter && Chains(entries[..|entries| - 1], from, last.quantityBefore)
  }

  /** For every variant, the entries the import logged lead from its quantity before to its quantity after. */
  lemma {:induction false} LogTelescopes(s: Shelf, updates: seq<Update>, sku: string)
    requires ApplyAll(s, updates).Some? && sku in s.stock && s.log == []
    ensures var t := ApplyAll(s, updates).value;
            sku in t.stock && Chains(For(t.log, sku), s.stock[sku], t.stock[sku])
  {
    if updates != [] {
      var n := |updates| - 1;
      LogTelescopes(s, updates[..n], sku);
      var before := ApplyAll(s, updates[..n]).value;
      var after := Apply(before, updates[n]);
      if |after.log| > |before.log| {
        assert after.log[..|before.log|] == before.log;
        if updates[n].sku == sku {
          var chain := For(before.log, sku);
          assert (chain + [after.log[|before.log|]])[..|chain|] == chain;
        } else {
          assert For(before.log, sku) + [] == For(before.log, sku);
        }
      }
    }
  }

  /** And an entry is logged for no SKU the store does not have: each of those adds one error instead. */
  lemma {:induction false} UnknownSkusAreErrors(s: Shelf, updates: seq<Update>)
    requires ApplyAll(s, updates).Some? && s.errors == [] && s.log == []
    ensures var t := ApplyAll(s, updates).value;
            && t.stock.Keys == s.stock.Keys
            && (forall e :: e in t.errors <==> exists i | 0 <= i < |updates| :: updates[i].sku !in s.stock && e == UnknownSku(updates[i].row, updates[i].sku))
            && (forall a | a in t.log :: a.sku in s.stock)
            && |t.errors| == Unknown(updates, s.stock)
  {
    if updates != [] {
      UnknownSkusAreErrors(s, updates[..|updates| - 1]);
    }
  }

  function Unknown(updates: seq<Update>, stock: Stock): nat {
    if updates == [] then 0 else Unknown(updates[..|updates| - 1], stock) + if updates[|updates| - 1].sku in stock then 0 else 1
  }
}
