/** The string functions the importers share, in the terms of ECMA-262. */
module Text {
  import opened Common

  /** WhiteSpace and LineTerminator of sections 12.2 and 12.3 of ECMA-262, in the basic plane. */
  predicate IsSpace(c: char) {
    || c == ' ' || ('\t' <= c <= '\r') || c == '\U{00a0}' || c == '\U{1680}' || ('\U{2000}' <= c <= '\U{200a}')
    || c == '\U{2028}' || c == '\U{2029}' || c == '\U{202f}' || c == '\U{205f}' || c == '\U{3000}' || c == '\U{feff}'
  }

  /** The same by number, with each of the ranges written out. */
  lemma BlankCodes(c: char)
    ensures IsSpace(c) <==> (c as int) in [
              0x9, 0xA, 0xB, 0xC, 0xD, 0x20, 0xA0, 0x1680,
              0x2000, 0x2001, 0x2002, 0x2003, 0x2004, 0x2005, 0x2006, 0x2007, 0x2008, 0x2009, 0x200A,
              0x2028, 0x2029, 0x202F, 0x205F, 0x3000, 0xFEFF]
  {}

  function TrimStart(s: string): string { if s != "" && IsSpace(s[0]) then TrimStart(s[1..]) else s }

  function TrimEnd(s: string): string { if s != "" && IsSpace(s[|s| - 1]) then TrimEnd(s[..|s| - 1]) else s }

  function Trim(s: string): string { TrimEnd(TrimStart(s)) }

  predicate Trimmed(s: string) { s == "" || (!IsSpace(s[0]) && !IsSpace(s[|s| - 1])) }

  /** Trimming takes off blanks at the ends, all of them, and nothing else. */
  lemma TrimExactly(s: string) returns (before: string, after: string)
    ensures s == before + Trim(s) + after && Trimmed(Trim(s))
    ensures (forall c | c in before :: IsSpace(c)) && (forall c | c in after :: IsSpace(c))
  {
    hide IsSpace;
    before := TrimStartExactly(s);
    after := TrimEndExactly(TrimStart(s));
    assert before + (Trim(s) + after) == before + Trim(s) + after;
  }

  lemma {:induction false} TrimStartExactly(s: string) returns (before: string)
    ensures s == before + TrimStart(s) && (forall c | c in before :: IsSpace(c))
    ensures TrimStart(s) == "" || !IsSpace(TrimStart(s)[0])
  {
    hide IsSpace;
    before := "";
    if s != "" && IsSpace(s[0]) {
      var rest := TrimStartExactly(s[1..]);
      before := [s[0]] + rest;
      assert s == [s[0]] + s[1..];
    }
  }

  lemma {:induction false} TrimEndExactly(s: string) returns (after: string)
    ensures s == TrimEnd(s) + after && (forall c | c in after :: IsSpace(c))
    ensures TrimEnd(s) == "" || (!IsSpace(TrimEnd(s)[|TrimEnd(s)| - 1]) && TrimEnd(s)[0] == s[0])
  {
    hide IsSpace;
    after := "";
    if s != "" && IsSpace(s[|s| - 1]) {
      var rest := TrimEndExactly(s[..|s| - 1]);
      after := rest + [s[|s| - 1]];
      assert s == s[..|s| - 1] + [s[|s| - 1]];
    }
  }

  lemma TrimKeeps(s: string)
    requires Trimmed(s)
    ensures Trim(s) == s
  {}

  /**
   * Number conversions and case mapping belong to the host. `read` is `Number(raw)`, with None
   * for NaN; `show` is `String(n)`.
   */
  datatype Host = Host(show: real -> string, read: string -> Option<real>, lower: string -> string)

  /** The number survives being printed and read back, and prints without blanks at its ends. */
  predicate ShowsBack(h: Host, x: real) {
    h.read(h.show(x)) == Some(x) && h.show(x) != "" && Trimmed(h.show(x))
  }

  /** Rows keyed by column name, as `parse` with `columns: true` returns them. */
  type Row = map<string, string>

  /** `row[column]?.trim()`, with the empty text for an absent column: the code never tells them apart. */
  function Cell(row: Row, column: string): string { Trim(if column in row then row[column] else "") }
}
