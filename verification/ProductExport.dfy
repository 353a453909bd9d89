/** csv-export.service.ts `exportProducts`: one row per variant or further image, grouped by handle. */
module ProductExport {
  import opened Common
  import opened Text
  import opened ProductImport

  const PRODUCT_EXPORT_HEADER: seq<string> := [
    HANDLE, TITLE, BODY, OPTION1_NAME, OPTION1_VALUE, OPTION2_NAME, OPTION2_VALUE, SKU, PRICE, QUANTITY, IMAGE
  ]

  /** The columns under the names the importer and Shopify use, in this order. */
  lemma ExportColumns()
    ensures PRODUCT_EXPORT_HEADER ==
            ["Handle", "Title", "Body (HTML)", "Option1 Name", "Option1 Value", "Option2 Name", "Option2 Value",
             "Variant SKU", "Variant Price", "Variant Inventory Qty", "Image Src"]
  {}

  datatype Variant = Variant(sku: string, price: real, stockQuantity: real, attributes: seq<Attribute>)

  /** `attributes` and `images` in the order the code reads them. */
  datatype Product = Product(id: string, title: string, description: string, variants: seq<Variant>, images: seq<string>)

  // ---- Handles ----------------------------------------------------------------------------------------

  predicate IsSlugChar(c: char) { 'a' <= c <= 'z' || '0' <= c <= '9' }

  /** The same characters, one by one. */
  lemma SlugCharacters(c: char)
    ensures IsSlugChar(c) <==> c in "abcdefghijklmnopqrstuvwxyz0123456789"
  {}

  /** `.replace(/[^a-z0-9]+/g, "-")`; `inRun` says that the previous character was replaced. */
  function Collapse(s: string, inRun: bool): string {
    if s == "" then ""
    else if IsSlugChar(s[0]) then [s[0]] + Collapse(s[1..], false)
    else (if inRun then "" else "-") + Collapse(s[1..], true)
  }

  /** `.replace(/(^-|-$)/g, "")`. */
  function StripDashes(s: string): string {
    var s' := if s != "" && s[0] == '-' then s[1..] else s;
    if s' != "" && s'[|s'| - 1] == '-' then s'[..|s'| - 1] else s'
  }

  /** `id.slice(0, 8)`. */
  function Prefix(id: string): string { if |id| < 8 then id else id[..8] }

  function SlugifyHandle(h: Host, title: string, id: string): string {
    StripDashes(Collapse(h.lower(title), false)) + "-" + Prefix(id)
  }

  predicate SlugText(s: string) { forall i | 0 <= i < |s| :: IsSlugChar(s[i]) || s[i] == '-' }

  lemma {:induction false} CollapseIsSlug(s: string, inRun: bool)
    ensures SlugText(Collapse(s, inRun))
  {
    if s != "" {
      CollapseIsSlug(s[1..], !IsSlugChar(s[0]));
    }
  }

  predicate NoRuns(s: string) { forall i | 0 < i < |s| :: !(s[i - 1] == '-' && s[i] == '-') }

  lemma PrependNoRuns(c: char, s: string)
    requires NoRuns(s) && (c != '-' || s == "" || s[0] != '-')
    ensures NoRuns([c] + s)
  {
    var r := [c] + s;
    forall i | 0 < i < |r| ensures !(r[i - 1] == '-' && r[i] == '-') {
      assert r[i] == s[i - 1];
      if i > 1 {
        var j := i - 1;
        assert r[i - 1] == s[j - 1] && r[i] == s[j];
      }
    }
  }

  /** No two dashes in a row, so stripping one at each end strips them all. */
  lemma {:induction false} CollapseHasNoRuns(s: string, inRun: bool)
    ensures NoRuns(Collapse(s, inRun)) && (inRun && Collapse(s, inRun) != "" ==> Collapse(s, inRun)[0] != '-')
  {
    if s != "" {
      var tail := Collapse(s[1..], !IsSlugChar(s[0]));
      CollapseHasNoRuns(s[1..], !IsSlugChar(s[0]));
      if IsSlugChar(s[0]) {
        PrependNoRuns(s[0], tail);
      } else if !inRun {
        PrependNoRuns('-', tail);
        assert "-" + tail == ['-'] + tail;
      } else {
        assert "" + tail == tail;
      }
    }
  }

  lemma SlugHasNoOuterDashes(h: Host, title: string)
    ensures var slug := StripDashes(Collapse(h.lower(title), false));
            SlugText(slug) && (slug != "" ==> slug[0] != '-' && slug[|slug| - 1] != '-')
  {
    CollapseIsSlug(h.lower(title), false);
    CollapseHasNoRuns(h.lower(title), false);
  }

  /** The maximal runs of slug characters, in order. */
  function Words(s: string): seq<string> {
    if s == "" then []
    else
      var rest := Words(s[1..]);
      if !IsSlugChar(s[0]) then rest
      else if |s| > 1 && IsSlugChar(s[1]) && rest != [] then [[s[0]] + rest[0]] + rest[1..]
      else [[s[0]]] + rest
  }

  function Dashed(words: seq<string>): string {
    if words == [] then "" else if |words| == 1 then words[0] else words[0] + "-" + Dashed(words[1..])
  }

  lemma {:induction false} WordsEnd(s: string)
    requires s != ""
    ensures Words(s) == [] ==> !IsSlugChar(s[|s| - 1])
    ensures IsSlugChar(s[0]) ==> Words(s) != []
  {
    if |s| > 1 { WordsEnd(s[1..]); }
  }

  function GapBefore(s: string, inRun: bool): string { if s != "" && !IsSlugChar(s[0]) && !inRun then "-" else "" }

  function GapAfter(s: string): string { if s != "" && !IsSlugChar(s[|s| - 1]) && Words(s) != [] then "-" else "" }

  /** Collapsing joins the words by dashes, with one more for a gap at either end. */
  lemma {:induction false} CollapseIsWords(s: string, inRun: bool)
    ensures Collapse(s, inRun) == GapBefore(s, inRun) + Dashed(Words(s)) + GapAfter(s)
  {
    if s != "" {
      CollapseIsWords(s[1..], !IsSlugChar(s[0]));
      if IsSlugChar(s[0]) { LetterFirst(s); } else { GapFirst(s); }
      hide IsSlugChar, Words, Dashed, GapAfter;
    }
  }

  lemma GapFirst(s: string)
    requires s != "" && !IsSlugChar(s[0])
    ensures Words(s) == Words(s[1..]) && GapAfter(s) == GapAfter(s[1..]) && GapBefore(s[1..], true) == ""
  {
    hide IsSlugChar;
    if s[1..] != "" { assert s[1..][|s| - 2] == s[|s| - 1]; }
  }

  lemma LetterFirst(s: string)
    requires s != "" && IsSlugChar(s[0])
    ensures Dashed(Words(s)) + GapAfter(s) == [s[0]] + (GapBefore(s[1..], false) + Dashed(Words(s[1..])) + GapAfter(s[1..]))
  {
    var c, tail := s[0], s[1..];
    LetterWords(s);
    LetterGaps(s);
    hide IsSlugChar, Words, Dashed, GapBefore, GapAfter;
    if tail == "" {
      DashedOne(c, []);
      assert [[c]] + [] == [[c]];
      assert Dashed(Words(s)) == [c] && GapAfter(s) == "";
    } else if IsSlugChar(tail[0]) {
      DashedFirst(c, Words(tail));
      Glue([c], "", Dashed(Words(tail)), GapAfter(tail));
    } else {
      DashedOne(c, Words(tail));
      NothingDashed();
      if Words(tail) != [] { Glue([c], "-", Dashed(Words(tail)), GapAfter(tail)); }
    }
  }

  lemma Glue(c: string, gap: string, d: string, after: string)
    ensures c + gap + d + after == c + (gap + d + after) && c + d + after == c + ("" + d + after)
  {
    assert "" + d + after == d + after;
  }

  lemma LetterGaps(s: string)
    requires s != "" && IsSlugChar(s[0])
    ensures var tail := s[1..];
            && (tail == "" ==> GapAfter(s) == GapAfter(tail) == GapBefore(tail, false) == "")
            && (tail != "" ==> GapBefore(tail, false) == if IsSlugChar(tail[0]) then "" else "-")
            && (tail != "" ==> GapAfter(s) == if Words(tail) == [] then "-" else GapAfter(tail))
  {
    var tail := s[1..];
    hide IsSlugChar;
    LetterWords(s);
    if tail != "" { WordsEnd(tail); assert tail[|tail| - 1] == s[|s| - 1]; }
  }

  lemma LetterWords(s: string)
    requires s != "" && IsSlugChar(s[0])
    ensures var tail, c := s[1..], s[0];
            if tail == "" then Words(s) == [[c]] && Words(tail) == [] && Dashed([]) == ""
            else if IsSlugChar(tail[0]) then Words(tail) != [] && Words(s) == [[c] + Words(tail)[0]] + Words(tail)[1..]
            else Words(s) == [[c]] + Words(tail)
  {
    hide IsSlugChar, Dashed;
    if s[1..] != "" { WordsEnd(s[1..]); } else { assert Words("") == []; NothingDashed(); }
  }

  lemma NothingDashed()
    ensures Dashed([]) == ""
  {}

  lemma DashedOne(c: char, words: seq<string>)
    ensures Dashed([[c]] + words) == if words == [] then [c] else [c] + "-" + Dashed(words)
  {
    assert ([[c]] + words)[1..] == words;
  }

  lemma DashedFirst(c: char, words: seq<string>)
    requires words != []
    ensures Dashed([[c] + words[0]] + words[1..]) == [c] + Dashed(words)
  {
    assert ([[c] + words[0]] + words[1..])[1..] == words[1..];
    if |words| > 1 { assert [c] + (words[0] + "-" + Dashed(words[1..])) == ([c] + words[0]) + "-" + Dashed(words[1..]); }
  }

  /** A handle is the title's words in lower case, joined by single dashes, and the first eight characters of the id. */
  lemma HandleIsWords(h: Host, title: string, id: string)
    ensures SlugifyHandle(h, title, id) == Dashed(Words(h.lower(title))) + "-" + (if |id| < 8 then id else id[..8])
  {
    var s := h.lower(title);
    CollapseIsWords(s, false);
    DashedIsClean(s);
    StripsTheGaps(GapBefore(s, false), Dashed(Words(s)), GapAfter(s));
    hide IsSlugChar, Words, Dashed, Collapse, StripDashes;
  }

  lemma StripsTheGaps(before: string, d: string, after: string)
    requires before in {"", "-"} && after in {"", "-"} && (d == "" ==> after == "") && (d != "" ==> d[0] != '-' && d[|d| - 1] != '-')
    ensures StripDashes(before + d + after) == d
  {
    var t := before + d + after;
    var u := d + after;
    assert (if t != "" && t[0] == '-' then t[1..] else t) == u;
    assert after != "" ==> u[..|u| - 1] == d;
  }

  /** Words have only slug characters, so joining them leaves no dash at an end. */
  lemma {:induction false} DashedIsClean(s: string)
    ensures forall w | w in Words(s) :: w != "" && w[0] != '-' && w[|w| - 1] != '-'
    ensures var d := Dashed(Words(s)); (d != "" <==> Words(s) != []) && (d != "" ==> d[0] != '-' && d[|d| - 1] != '-')
  {
    if s != "" {
      DashedIsClean(s[1..]);
      var rest := Words(s[1..]);
      if rest != [] { assert rest == [rest[0]] + rest[1..]; }
    }
    WordsJoin(Words(s));
  }

  lemma {:induction false} WordsJoin(words: seq<string>)
    requires forall w | w in words :: w != "" && w[0] != '-' && w[|w| - 1] != '-'
    ensures var d := Dashed(words); (d != "" <==> words != []) && (d != "" ==> d[0] != '-' && d[|d| - 1] != '-')
  {
    if |words| > 1 { WordsJoin(words[1..]); }
  }

  /** Whatever the titles, handles differ when the ids' first eight characters do. */
  lemma HandleInjective(h: Host, title: string, id: string, title': string, id': string)
    requires |id| >= 8 && |id'| >= 8 && SlugifyHandle(h, title, id) == SlugifyHandle(h, title', id')
    ensures Prefix(id) == Prefix(id')
    ensures StripDashes(Collapse(h.lower(title), false)) == StripDashes(Collapse(h.lower(title'), false))
  {
    var a, a' := StripDashes(Collapse(h.lower(title), false)), StripDashes(Collapse(h.lower(title'), false));
    SuffixesAgree(a + "-", Prefix(id), a' + "-", Prefix(id'));
    assert (a + "-")[..|a|] == a && (a' + "-")[..|a'|] == a';
  }

  lemma SuffixesAgree(a: string, b: string, a': string, b': string)
    requires a + b == a' + b' && |b| == |b'|
    ensures a == a' && b == b'
  {
    assert |a| == |a'|;
    assert a == (a + b)[..|a|] && a' == (a' + b')[..|a'|];
    assert b == (a + b)[|a|..] && b' == (a' + b')[|a'|..];
  }

  // ---- Rows ---------------------------------------------------------------------------------------------

  function NameAt(attributes: seq<Attribute>, k: nat): string { if k < |attributes| then attributes[k].name else "" }

  function ValueAt(attributes: seq<Attribute>, k: nat): string {
    if k < |attributes| && attributes[k].name != "" then attributes[k].value else ""
  }

  function VariantRow(h: Host, p: Product, i: nat): seq<string> {
    var attributes := if i < |p.variants| then p.variants[i].attributes else [];
    [ SlugifyHandle(h, p.title, p.id),
      if i == 0 then p.title else "",
      if i == 0 then p.description else "",
      NameAt(attributes, 0), ValueAt(attributes, 0), NameAt(attributes, 1), ValueAt(attributes, 1),
      if i < |p.variants| then p.variants[i].sku else "",
      if i < |p.variants| then h.show(p.variants[i].price) else "",
      if i < |p.variants| then h.show(p.variants[i].stockQuantity) else "",
      if i == 0 && p.images != [] then p.images[0] else "" ]
  }

  function ImageRow(h: Host, p: Product, i: nat): seq<string>
    requires i < |p.images|
  {
    [SlugifyHandle(h, p.title, p.id), "", "", "", "", "", "", "", "", "", p.images[i]]
  }

  function RowCount(p: Product): nat { if |p.variants| == 0 then 1 else |p.variants| }

  /** The rows of a product: one per variant, at least one, then one per image after the first. */
  function ProductRow(h: Host, p: Product, k: nat): seq<string>
    requires k < RowTotal(p)
  {
    if k < RowCount(p) then VariantRow(h, p, k) else ImageRow(h, p, k - RowCount(p) + 1)
  }

  function RowTotal(p: Product): nat { RowCount(p) + if p.images == [] then 0 else |p.images| - 1 }

  function ProductRows(h: Host, p: Product): seq<seq<string>> {
    seq(RowTotal(p), k requires 0 <= k < RowTotal(p) => ProductRow(h, p, k))
  }

  function ExportRows(h: Host, products: seq<Product>): seq<seq<string>> {
    if products == [] then [] else ExportRows(h, products[..|products| - 1]) + ProductRows(h, products[|products| - 1])
  }

  lemma CellsOf(h: Host, p: Product)
    ensures forall i | 0 <= i < |p.variants| ::
              var row, v := VariantRow(h, p, i), p.variants[i];
              && |row| == 11 && row[7] == v.sku && row[8] == h.show(v.price) && row[9] == h.show(v.stockQuantity)
              && (forall k: nat | k < 2 && k < |v.attributes| ::
                    row[3 + 2 * k] == v.attributes[k].name && row[4 + 2 * k] == if v.attributes[k].name != "" then v.attributes[k].value else "")
    ensures var row := VariantRow(h, p, 0); |row| == 11 && row[1] == p.title && row[2] == p.description
  {
    hide SlugifyHandle;
  }

  /** The two inner loops. */
  method ExportProduct(h: Host, product: Product) returns (rows: seq<seq<string>>)
    ensures rows == ProductRows(h, product)
    ensures |rows| == (if product.variants == [] then 1 else |product.variants|) + (if product.images == [] then 0 else |product.images| - 1)
    ensures forall i | 0 <= i < |product.variants| ::
              var row, v := rows[i], product.variants[i];
              && |row| == 11 && row[7] == v.sku && row[8] == h.show(v.price) && row[9] == h.show(v.stockQuantity)
              && (forall k: nat | k < 2 && k < |v.attributes| ::
                    row[3 + 2 * k] == v.attributes[k].name && row[4 + 2 * k] == if v.attributes[k].name != "" then v.attributes[k].value else "")
    ensures |rows[0]| == 11 && rows[0][1] == product.title && rows[0][2] == product.description
  {
    CellsOf(h, product);
    hide VariantRow, ImageRow;
    rows := [];
    var rowCount := if |product.variants| > 1 then |product.variants| else 1;
    for i := 0 to rowCount
      invariant rows == ProductRows(h, product)[..i]
    {
      rows := rows + [VariantRow(h, product, i)];
    }
    if product.images == [] { return; }
    for m := 1 to |product.images|
      invariant rows == ProductRows(h, product)[..rowCount + m - 1]
    {
      rows := rows + [ImageRow(h, product, m)];
    }
  }

  method ExportProducts(h: Host, products: seq<Product>) returns (rows: seq<seq<string>>)
    ensures rows == ExportRows(h, products)
  {
    hide ProductRows;
    rows := [];
    for n := 0 to |products|
      invariant rows == ExportRows(h, products[..n])
    {
      assert products[..n + 1][..n] == products[..n];
      var more := ExportProduct(h, products[n]);
      rows := rows + more;
    }
    assert products[..|products|] == products;
  }
}
