/**
 * csv.util.ts `toCsv`, against a reader for section 2 of RFC 4180 that takes LF or CRLF as the
 * line break. A cell is its text, as `String(cell)` gives it.
 */
module Csv {
  import opened Common

  predicate NeedsQuotes(s: string) { '"' in s || ',' in s || '\n' in s }

  /** `value.replace(/"/g, '""')`. */
  function DoubleQuotes(s: string): string {
    if s == "" then "" else (if s[0] == '"' then "\"\"" else [s[0]]) + DoubleQuotes(s[1..])
  }

  function EscapeField(s: string): string {
    if NeedsQuotes(s) then "\"" + DoubleQuotes(s) + "\"" else s
  }

  /** A field is quoted exactly if it holds a quote, a comma or a line feed, and is otherwise written as it is. */
  lemma QuotedExactly(s: string)
    ensures EscapeField(s) != s <==> '"' in s || ',' in s || '\n' in s
    ensures EscapeField(s) != s ==> |EscapeField(s)| >= |s| + 2 && EscapeField(s)[0] == '"' == EscapeField(s)[|EscapeField(s)| - 1]
  {
    DoublingGrows(s);
  }

  lemma {:induction false} DoublingGrows(s: string)
    ensures |DoubleQuotes(s)| >= |s|
  {
    if s != "" { DoublingGrows(s[1..]); }
  }

  function Line(row: seq<string>): string {
    if row == [] then "" else if |row| == 1 then EscapeField(row[0]) else EscapeField(row[0]) + "," + Line(row[1..])
  }

  function JoinLines(lines: seq<string>): string {
    if lines == [] then "" else if |lines| == 1 then lines[0] else lines[0] + "\n" + JoinLines(lines[1..])
  }

  function Lines(table: seq<seq<string>>): seq<string> {
    seq(|table|, i requires 0 <= i < |table| => Line(table[i]))
  }

  method ToCsv(header: seq<string>, rows: seq<seq<string>>) returns (text: string)
    ensures text == JoinLines(Lines([header] + rows))
  {
    var lines := [Line(header)];
    for i := 0 to |rows|
      invariant lines == Lines([header] + rows[..i])
    {
      lines := lines + [Line(rows[i])];
    }
    assert rows[..|rows|] == rows;
    text := JoinLines(lines);
  }

  // ---- The reader ---------------------------------------------------------------------------------

  datatype Piece<T> = Piece(value: T, rest: string)

  predicate AtLineBreak(s: string) { s != "" && (s[0] == '\n' || (s[0] == '\r' && |s| > 1 && s[1] == '\n')) }

  function AfterLineBreak(s: string): string
    requires AtLineBreak(s)
  {
    if s[0] == '\n' then s[1..] else s[2..]
  }

  /** Non-escaped field: up to a comma, a line break or the end, and without quotes. */
  function ReadBare(s: string): (r: Option<Piece<string>>)
    ensures r.Some? ==> |r.value.rest| <= |s| && (r.value.rest == "" || r.value.rest[0] == ',' || AtLineBreak(r.value.rest))
  {
    if s == "" || s[0] == ',' || AtLineBreak(s) then Some(Piece("", s))
    else if s[0] == '"' then None
    else
      match ReadBare(s[1..])
      case None => None
      case Some(p) => Some(Piece([s[0]] + p.value, p.rest))
  }

  /** Escaped field, after its opening quote. */
  function ReadQuoted(s: string): (r: Option<Piece<string>>)
    ensures r.Some? ==> |r.value.rest| < |s|
  {
    if s == "" then None
    else if s[0] != '"' then
      match ReadQuoted(s[1..])
      case None => None
      case Some(p) => Some(Piece([s[0]] + p.value, p.rest))
    else if |s| > 1 && s[1] == '"' then
      match ReadQuoted(s[2..])
      case None => None
      case Some(p) => Some(Piece("\"" + p.value, p.rest))
    else Some(Piece("", s[1..]))
  }

  function ReadField(s: string): (r: Option<Piece<string>>)
    ensures r.Some? ==> |r.value.rest| <= |s| && (r.value.rest == "" || r.value.rest[0] == ',' || AtLineBreak(r.value.rest))
  {
    if s != "" && s[0] == '"' then
      match ReadQuoted(s[1..])
      case Some(p) => if p.rest == "" || p.rest[0] == ',' || AtLineBreak(p.rest) then Some(p) else None
      case None => None
    else ReadBare(s)
  }

  datatype Read = Read(fields: seq<string>, more: Option<string>)

  /** One record, and what follows its line break. */
  function ReadRecord(s: string): (r: Option<Read>)
    ensures r.Some? && r.value.more.Some? ==> |r.value.more.value| < |s|
    decreases |s|
  {
    match ReadField(s)
    case None => None
    case Some(p) =>
      if p.rest == "" then Some(Read([p.value], None))
      else if AtLineBreak(p.rest) then Some(Read([p.value], Some(AfterLineBreak(p.rest))))
      else
        match ReadRecord(p.rest[1..])
        case None => None
        case Some(tail) => Some(Read([p.value] + tail.fields, tail.more))
  }

  /** A line break after the last record ends it and starts no other. */
  function ReadCsv(s: string): Option<seq<seq<string>>>
    decreases |s|
  {
    if s == "" then Some([])
    else
      match ReadRecord(s)
      case None => None
      case Some(first) =>
        if first.more.None? then Some([first.fields])
        else
          match ReadCsv(first.more.value)
          case None => None
          case Some(others) => Some([first.fields] + others)
  }

  // ---- What survives ------------------------------------------------------------------------------

  predicate EndsInBareCR(s: string) { !NeedsQuotes(s) && s != "" && s[|s| - 1] == '\r' }

  /** A carriage return that ends an unquoted field is taken for part of the line break after it. */
  function WithoutCR(row: seq<string>): seq<string> {
    if row != [] && EndsInBareCR(row[|row| - 1]) then row[|row| - 1 := row[|row| - 1][..|row[|row| - 1]| - 1]] else row
  }

  /** A record without fields is written like one with one empty field. */
  function AsRecord(row: seq<string>): seq<string> { if row == [] then [""] else row }

  function Normalised(table: seq<seq<string>>): seq<seq<string>> {
    if table == [] then []
    else if |table| == 1 then (if AsRecord(table[0]) == [""] then [] else [table[0]])
    else [WithoutCR(AsRecord(table[0]))] + Normalised(table[1..])
  }

  predicate Stops(rest: string) { rest == "" || rest[0] == ',' || rest[0] == '\n' }

  lemma {:induction false} ReadsQuoted(s: string, rest: string)
    requires Stops(rest)
    ensures ReadQuoted(DoubleQuotes(s) + "\"" + rest) == Some(Piece(s, rest))
  {
    var text := DoubleQuotes(s) + "\"" + rest;
    if s == "" {
      assert text == "\"" + rest;
    } else {
      ReadsQuoted(s[1..], rest);
      var tail := DoubleQuotes(s[1..]) + "\"" + rest;
      if s[0] == '"' {
        assert text == "\"\"" + tail;
        assert text[2..] == tail;
      } else {
        assert text == [s[0]] + tail;
        assert text[1..] == tail;
      }
      assert s == [s[0]] + s[1..];
    }
  }

  lemma {:induction false} ReadsBare(s: string, rest: string)
    requires !NeedsQuotes(s) && Stops(rest)
    ensures ReadBare(s + rest) == Some(AfterBare(s, rest))
  {
    var text := s + rest;
    if s == "" {
      assert text == rest;
    } else if |s| == 1 && s[0] == '\r' && rest != "" && rest[0] == '\n' {
      assert text == "\r" + rest && s[..0] == "";
    } else {
      var tail := s[1..];
      assert s[0] in s && s == [s[0]] + tail;
      assert forall c | c in tail :: c in s;
      assert text[1..] == tail + rest && text[0] == s[0];
      assert !AtLineBreak(text) by { if |s| > 1 { assert text[1] == s[1] && s[1] in s; } }
      ReadsBare(tail, rest);
      AfterBareStep(s, rest);
    }
  }

  /** What is read of an unquoted field: all of it, or all but a final CR that the next line break swallows. */
  function AfterBare(s: string, rest: string): Piece<string> {
    if EndsInBareCR(s) && rest != "" && rest[0] == '\n' then Piece(s[..|s| - 1], "\r" + rest) else Piece(s, rest)
  }

  lemma AfterBareStep(s: string, rest: string)
    requires s != "" && !NeedsQuotes(s) && !(|s| == 1 && s[0] == '\r' && rest != "" && rest[0] == '\n')
    ensures AfterBare(s, rest) == Piece([s[0]] + AfterBare(s[1..], rest).value, AfterBare(s[1..], rest).rest)
  {
    var tail := s[1..];
    assert s == [s[0]] + tail;
    assert forall c | c in tail :: c in s;
    if |s| > 1 { assert s[..|s| - 1] == [s[0]] + tail[..|tail| - 1]; }
  }

  lemma BareStart(s: string, rest: string)
    requires !NeedsQuotes(s) && Stops(rest) && s + rest != ""
    ensures (s + rest)[0] != '"'
  {
    if s != "" { assert s[0] in s; }
  }

  lemma ReadsField(s: string, rest: string)
    requires Stops(rest)
    ensures ReadField(EscapeField(s) + rest) == Some(AfterBare(s, rest))
  {
    hide ReadBare, ReadQuoted, DoubleQuotes;
    var text := EscapeField(s) + rest;
    if NeedsQuotes(s) {
      ReadsQuoted(s, rest);
      assert text == "\"" + (DoubleQuotes(s) + "\"" + rest);
      assert text[1..] == DoubleQuotes(s) + "\"" + rest;
    } else {
      ReadsBare(s, rest);
      if text != "" { BareStart(s, rest); }
    }
  }

  function After(more: Option<string>): string { if more.None? then "" else "\n" + more.value }

  lemma LastFieldRead(field: string, more: Option<string>)
    ensures ReadRecord(EscapeField(field) + After(more)) == Some(Read(if more.None? then [field] else WithoutCR([field]), more))
  {
    hide ReadField, EscapeField;
    ReadsField(field, After(more));
    if more.Some? {
      assert After(more)[1..] == more.value;
      if EndsInBareCR(field) {
        assert ("\r" + After(more))[2..] == more.value;
        assert WithoutCR([field]) == [field[..|field| - 1]];
      }
    }
  }

  lemma FieldThenRecord(field: string, rest: string, tail: Read)
    requires ReadRecord(rest) == Some(tail)
    ensures ReadRecord(EscapeField(field) + ("," + rest)) == Some(Read([field] + tail.fields, tail.more))
  {
    hide ReadField, EscapeField;
    ReadsField(field, "," + rest);
    assert ("," + rest)[1..] == rest;
  }

  lemma LineStep(row: seq<string>, after: string)
    requires |row| > 1
    ensures Line(row) + after == EscapeField(row[0]) + ("," + (Line(row[1..]) + after))
  {
    var a, c := EscapeField(row[0]), Line(row[1..]);
    assert Line(row) == a + "," + c;
    hide EscapeField, Line;
    Regroup(a, ",", c, after);
  }

  lemma Regroup<T>(a: seq<T>, b: seq<T>, c: seq<T>, d: seq<T>)
    ensures a + b + c + d == a + (b + (c + d))
  {}

  lemma WithoutCRStep(row: seq<string>)
    requires |row| > 1
    ensures WithoutCR(row) == [row[0]] + WithoutCR(row[1..])
  {
    hide EndsInBareCR;
    assert row == [row[0]] + row[1..];
    assert row[1..][|row| - 2] == row[|row| - 1];
  }

  /** A written record followed by nothing, or by a line break and more. */
  lemma {:induction false} ReadsRecord(row: seq<string>, more: Option<string>)
    requires row != []
    ensures ReadRecord(Line(row) + After(more)) == Some(Read(if more.None? then row else WithoutCR(row), more))
    decreases |row|
  {
    hide ReadRecord, EscapeField, After, WithoutCR;
    assert row == [row[0]] + row[1..];
    if |row| == 1 {
      assert row == [row[0]];
      LastFieldRead(row[0], more);
    } else {
      ReadsRecord(row[1..], more);
      FieldThenRecord(row[0], Line(row[1..]) + After(more), Read(if more.None? then row[1..] else WithoutCR(row[1..]), more));
      LineStep(row, After(more));
      WithoutCRStep(row);
    }
  }

  lemma {:induction false} LineIsEmpty(row: seq<string>)
    ensures Line(row) == Line(AsRecord(row))
    ensures Line(row) == "" <==> AsRecord(row) == [""]
  {}

  lemma LastRecordRead(row: seq<string>)
    requires row != []
    ensures ReadCsv(Line(row)) == Some(if row == [""] then [] else [row])
  {
    hide ReadRecord;
    ReadsRecord(row, None);
    LineIsEmpty(row);
    assert Line(row) + After(None) == Line(row);
  }

  lemma NextRecordRead(row: seq<string>, rest: string, others: seq<seq<string>>)
    requires row != [] && ReadCsv(rest) == Some(others)
    ensures ReadCsv(Line(row) + ("\n" + rest)) == Some([WithoutCR(row)] + others)
  {
    hide ReadRecord;
    ReadsRecord(row, Some(rest));
  }

  /** Exactly what a reader gets back from any table at all. */
  lemma {:induction false} ReadsWhatSurvives(table: seq<seq<string>>)
    ensures ReadCsv(JoinLines(Lines(table))) == Some(Normalised(table))
    decreases |table|
  {
    hide ReadCsv, Line, WithoutCR;
    if table == [] {
      EmptyReads();
    } else {
      var row := AsRecord(table[0]);
      LineIsEmpty(table[0]);
      if |table| == 1 {
        LastRecordRead(row);
      } else {
        var rest := JoinLines(Lines(table[1..]));
        ReadsWhatSurvives(table[1..]);
        NextRecordRead(row, rest, Normalised(table[1..]));
        assert Lines(table)[1..] == Lines(table[1..]);
        assert JoinLines(Lines(table)) == Line(row) + ("\n" + rest);
      }
    }
  }

  lemma EmptyReads()
    ensures ReadCsv("") == Some([])
  {}

  /** No record is without fields, the last is not one empty field, and no other ends in an unquoted carriage return. */
  predicate Writable(table: seq<seq<string>>) {
    && (forall i | 0 <= i < |table| :: table[i] != [])
    && (forall i | 0 <= i < |table| - 1 :: !EndsInBareCR(table[i][|table[i]| - 1]))
    && (table != [] ==> table[|table| - 1] != [""])
  }

  lemma {:induction false} NormalisedExactly(table: seq<seq<string>>)
    ensures Normalised(table) == table <==> Writable(table)
    ensures |Normalised(table)| <= |table|
  {
    if |table| > 1 {
      NormalisedExactly(table[1..]);
      var n := Normalised(table);
      assert n[0] == WithoutCR(AsRecord(table[0])) && n[1..] == Normalised(table[1..]);
      assert table == [table[0]] + table[1..];
      if Writable(table[1..]) && table[0] != [] && !EndsInBareCR(table[0][|table[0]| - 1]) {
        assert Writable(table) by { TailWritable(table); }
      }
      if Writable(table) { TailWritable(table); }
    }
  }

  lemma TailWritable(table: seq<seq<string>>)
    requires |table| > 1 && table[0] != []
    ensures Writable(table) <==> Writable(table[1..]) && !EndsInBareCR(table[0][|table[0]| - 1])
  {
    var tail := table[1..];
    if Writable(tail) && !EndsInBareCR(table[0][|table[0]| - 1]) {
      forall i | 0 <= i < |table| ensures table[i] != [] && (i < |table| - 1 ==> !EndsInBareCR(table[i][|table[i]| - 1])) {
        if i > 0 { assert table[i] == tail[i - 1]; }
      }
    }
    if Writable(table) {
      forall i | 0 <= i < |tail| ensures tail[i] != [] && (i < |tail| - 1 ==> !EndsInBareCR(tail[i][|tail[i]| - 1])) {
        assert tail[i] == table[i + 1];
      }
    }
  }

  /** The round trip holds for a table if and only if it is writable. */
  lemma RoundTripsExactly(table: seq<seq<string>>)
    ensures ReadCsv(JoinLines(Lines(table))) == Some(table) <==> Writable(table)
  {
    ReadsWhatSurvives(table);
    NormalisedExactly(table);
  }

  predicate FreeOfCR(table: seq<seq<string>>) { forall i, j | 0 <= i < |table| && 0 <= j < |table[i]| :: '\r' !in table[i][j] }

  /** In particular for all fields without carriage returns, whatever quotes, commas and line feeds they hold. */
  lemma RoundTripsWithoutCR(header: seq<string>, rows: seq<seq<string>>)
    requires FreeOfCR([header] + rows)
    requires forall i | 0 <= i < |[header] + rows| :: |([header] + rows)[i]| == |header| >= 2
    ensures ReadCsv(JoinLines(Lines([header] + rows))) == Some([header] + rows)
  {
    var table := [header] + rows;
    assert Writable(table) by {
      forall i | 0 <= i < |table| - 1 ensures !EndsInBareCR(table[i][|table[i]| - 1]) {
        assert '\r' !in table[i][|table[i]| - 1];
      }
    }
    RoundTripsExactly(table);
  }
}
