/**
 The CSV printer and the hand-written scanner behind the bulk upload. Text is a sequence of UTF-16
 code units. The scanner is one step per loop iteration; printing then parsing gives back every cell
 but for the apostrophe put before a formula lead.
 */
module Csv {

  // A UTF-16 code unit.
  type Code = int
  type Text = seq<Code>
  type Cell = Text

  const TAB: Code := 9
  const LF: Code := 10
  const CR: Code := 13
  const QUOTE: Code := 34
  const APOSTROPHE: Code := 39
  const COMMA: Code := 44
  const BOM: Code := 0xfeff

  const CSV_MAX_BYTES: nat := 512 * 1024
  const CSV_MAX_COLUMNS: nat := 50

  datatype Error = Empty | NoRows | TooManyRows | TooLarge | TooManyColumns | UnterminatedQuote | BadQuote

  datatype Result = Ok(header: seq<Cell>, rows: seq<seq<Cell>>, lines: seq<nat>) | Err(error: Error)

  /** What String.trim removes: white space and line terminators. */
  predicate IsSpace(c: Code) {
    9 <= c <= 13 || c == 32 || c == 160 || c == 0x1680 || 0x2000 <= c <= 0x200a || c == 0x2028 || c == 0x2029
    || c == 0x202f || c == 0x205f || c == 0x3000 || c == BOM
  }

  /** Tab to carriage return, the blanks of Unicode, both separators and the byte-order mark. */
  lemma SpacesExactly(c: Code)
    ensures IsSpace(c) <==>
              c in {0x09, 0x0a, 0x0b, 0x0c, 0x0d, 0x20, 0xa0, 0x1680, 0x2000, 0x2001, 0x2002, 0x2003, 0x2004, 0x2005, 0x2006,
                    0x2007, 0x2008, 0x2009, 0x200a, 0x2028, 0x2029, 0x202f, 0x205f, 0x3000, 0xfeff}
  {
  }

  predicate Blank(c: Cell) { forall i :: 0 <= i < |c| ==> IsSpace(c[i]) }

  predicate BlankRow(cells: seq<Cell>) { forall i :: 0 <= i < |cells| ==> Blank(cells[i]) }

  // ---- Printing ----

  predicate FormulaLead(c: Code) { c == 61 || c == 43 || c == 45 || c == 64 || c == TAB || c == CR }

  predicate NeedsQuotes(v: Cell) { COMMA in v || QUOTE in v || CR in v || LF in v }

  function Safe(v: Cell): Cell { if v != [] && FormulaLead(v[0]) then [APOSTROPHE] + v else v }

  /** The characters that make a spreadsheet read a cell as a formula. */
  const FORMULA_LEADS: set<Code> := {'=' as int, '+' as int, '-' as int, '@' as int, '\t' as int, '\r' as int}

  /** No cell is left that starts a formula; one that did has an apostrophe before it, and any other is as it was. */
  lemma NoFormulaIsLeft(v: Cell)
    ensures Safe(v) != [] ==> Safe(v)[0] !in FORMULA_LEADS
    ensures if v != [] && v[0] in FORMULA_LEADS then Safe(v) == ['\'' as int] + v else Safe(v) == v
  {
  }

  /** Every quote doubled. */
  function Doubled(v: Cell): Text {
    if v == [] then [] else (if v[0] == QUOTE then [QUOTE, QUOTE] else [v[0]]) + Doubled(v[1..])
  }

  function CsvCell(v: Cell): Text {
    if NeedsQuotes(Safe(v)) then [QUOTE] + Doubled(Safe(v)) + [QUOTE] else Safe(v)
  }

  function Join(parts: seq<Text>, sep: Text): Text {
    if parts == [] then [] else if |parts| == 1 then parts[0] else parts[0] + sep + Join(parts[1..], sep)
  }

  function Printed(row: seq<Cell>): seq<Text> { if row == [] then [] else [CsvCell(row[0])] + Printed(row[1..]) }

  function RowTexts(rows: seq<seq<Cell>>): seq<Text> {
    if rows == [] then [] else [Join(Printed(rows[0]), [COMMA])] + RowTexts(rows[1..])
  }

  function ToCsv(rows: seq<seq<Cell>>): Text { Join(RowTexts(rows), [CR, LF]) + [CR, LF] }

  // ---- The scanner, one step at a time ----

  /** A kept row, the line it starts on and where it starts. */
  datatype Record = Record(cells: seq<Cell>, line: nat, start: nat)

  datatype Scan = Scan(records: seq<Record>, cells: seq<Cell>, field: Cell, line: nat, rowStart: nat, start: nat,
                       i: nat, quoted: bool, afterQuote: bool)

  datatype Outcome = Next(s: Scan) | Fail(error: Error)

  function EndField(s: Scan): Scan {
    s.(cells := s.cells + [s.field], field := [], quoted := false, afterQuote := false)
  }

  function EndRow(s: Scan, maxRows: nat): Outcome {
    var t := EndField(s);
    if BlankRow(t.cells) then Next(t.(cells := []))
    else if |t.cells| > CSV_MAX_COLUMNS then Fail(TooManyColumns)
    else if |t.records| + 1 > maxRows + 1 then Fail(TooManyRows)
    else Next(t.(records := t.records + [Record(t.cells, t.rowStart, t.start)], cells := []))
  }

  predicate At(src: Text, i: nat, c: Code) { i < |src| && src[i] == c }

  function StepQuoted(src: Text, s: Scan): Scan
    requires s.i < |src|
  {
    var ch := src[s.i];
    if ch == QUOTE && At(src, s.i + 1, QUOTE) then s.(field := s.field + [QUOTE], i := s.i + 2)
    else if ch == QUOTE then s.(afterQuote := true, i := s.i + 1)
    else s.(field := s.field + [ch], i := s.i + 1,
            line := s.line + if ch == LF || (ch == CR && !At(src, s.i + 1, LF)) then 1 else 0)
  }

  function StepBreak(src: Text, s: Scan, maxRows: nat): Outcome
    requires s.i < |src|
  {
    var next := s.i + if src[s.i] == CR && At(src, s.i + 1, LF) then 2 else 1;
    match EndRow(s, maxRows)
    case Fail(e) => Fail(e)
    case Next(t) => Next(t.(i := next, line := s.line + 1, rowStart := s.line + 1, start := next))
  }

  function Step(src: Text, s: Scan, maxRows: nat): (o: Outcome)
    requires s.i < |src|
    ensures o.Next? ==> o.s.i > s.i
  {
    var ch := src[s.i];
    if s.quoted && !s.afterQuote then Next(StepQuoted(src, s))
    else if ch == COMMA then Next(EndField(s).(i := s.i + 1))
    else if ch == CR || ch == LF then StepBreak(src, s, maxRows)
    else if s.afterQuote then Fail(BadQuote)
    else if ch == QUOTE then (if s.field != [] then Fail(BadQuote) else Next(s.(quoted := true, i := s.i + 1)))
    else Next(s.(field := s.field + [ch], i := s.i + 1))
  }

  function CellsOf(records: seq<Record>): seq<seq<Cell>> {
    seq(|records|, k requires 0 <= k < |records| => records[k].cells)
  }

  function LinesOf(records: seq<Record>): seq<nat> {
    seq(|records|, k requires 0 <= k < |records| => records[k].line)
  }

  function Report(records: seq<Record>): Result {
    if records == [] then Err(Empty)
    else if |records| == 1 then Err(NoRows)
    else Ok(records[0].cells, CellsOf(records[1..]), LinesOf(records[1..]))
  }

  /** The kept rows at the end of the text, or the error. */
  datatype Kept = Kept(records: seq<Record>) | Bad(error: Error)

  function ScanFrom(src: Text, s: Scan, maxRows: nat): Kept
    decreases |src| - s.i
  {
    if s.i >= |src| then
      if s.quoted && !s.afterQuote then Bad(UnterminatedQuote)
      else match EndRow(s, maxRows)
           case Fail(e) => Bad(e)
           case Next(t) => Kept(t.records)
    else
      match Step(src, s, maxRows)
      case Fail(e) => Bad(e)
      case Next(t) => ScanFrom(src, t, maxRows)
  }

  function Source(text: Text): Text { if text != [] && text[0] == BOM then text[1..] else text }

  function Begin(): Scan { Scan([], [], [], 1, 1, 0, 0, false, false) }

  function Records(text: Text, maxRows: nat): Kept { ScanFrom(Source(text), Begin(), maxRows) }

  function Parsed(text: Text, maxRows: nat): Result {
    if |text| > CSV_MAX_BYTES then Err(TooLarge)
    else match Records(text, maxRows)
         case Bad(e) => Err(e)
         case Kept(records) => Report(records)
  }

  lemma ScanStep(src: Text, s: Scan, t: Scan, maxRows: nat)
    requires s.i < |src| && Step(src, s, maxRows) == Next(t)
    ensures ScanFrom(src, s, maxRows) == ScanFrom(src, t, maxRows)
  {
  }

  lemma ScanFails(src: Text, s: Scan, e: Error, maxRows: nat)
    requires s.i < |src| && Step(src, s, maxRows) == Fail(e)
    ensures ScanFrom(src, s, maxRows) == Bad(e)
  {
  }

  lemma ScanEnds(src: Text, s: Scan, maxRows: nat)
    requires s.i >= |src|
    ensures ScanFrom(src, s, maxRows) ==
            if s.quoted && !s.afterQuote then Bad(UnterminatedQuote)
            else match EndRow(s, maxRows)
                 case Fail(e) => Bad(e)
                 case Next(t) => Kept(t.records)
  {
  }

  /** parseCsv: the loop over local variables. */
  method ParseCsv(text: Text, maxRows: nat) returns (r: Result)
    ensures r == Parsed(text, maxRows)
  {
    hide ScanFrom;
    if |text| > CSV_MAX_BYTES { return Err(TooLarge); }
    var src := Source(text);
    var records: seq<Record>, cells: seq<Cell>, field: Cell := [], [], [];
    var line: nat, rowStart: nat, start: nat, i: nat := 1, 1, 0, 0;
    var quoted, afterQuote := false, false;
    ghost var s := Begin();
    while i < |src|
      invariant s == Scan(records, cells, field, line, rowStart, start, i, quoted, afterQuote)
      invariant ScanFrom(src, s, maxRows) == Records(text, maxRows)
      decreases |src| - i
    {
      ghost var was := s;
      var ch := src[i];
      if quoted && !afterQuote {
        if ch == QUOTE {
          if i + 1 < |src| && src[i + 1] == QUOTE {
            field, i := field + [QUOTE], i + 2;
          } else {
            afterQuote, i := true, i + 1;
          }
        } else {
          if ch == LF || (ch == CR && !(i + 1 < |src| && src[i + 1] == LF)) { line := line + 1; }
          field, i := field + [ch], i + 1;
        }
      } else if ch == COMMA {
        cells, field, quoted, afterQuote, i := cells + [field], [], false, false, i + 1;
      } else if ch == CR || ch == LF {
        cells, field, quoted, afterQuote := cells + [field], [], false, false;
        if !BlankRow(cells) {
          if |cells| > CSV_MAX_COLUMNS {
            ScanFails(src, was, TooManyColumns, maxRows);
            return Err(TooManyColumns);
          }
          records := records + [Record(cells, rowStart, start)];
          if |records| > maxRows + 1 {
            ScanFails(src, was, TooManyRows, maxRows);
            return Err(TooManyRows);
          }
        }
        cells := [];
        i := i + if ch == CR && i + 1 < |src| && src[i + 1] == LF then 2 else 1;
        line := line + 1;
        rowStart, start := line, i;
      } else if afterQuote {
        ScanFails(src, was, BadQuote, maxRows);
        return Err(BadQuote);
      } else if ch == QUOTE {
        if field != [] {
          ScanFails(src, was, BadQuote, maxRows);
          return Err(BadQuote);
        }
        quoted, i := true, i + 1;
      } else {
        field, i := field + [ch], i + 1;
      }
      s := Scan(records, cells, field, line, rowStart, start, i, quoted, afterQuote);
      ScanStep(src, was, s, maxRows);
    }
    ScanEnds(src, s, maxRows);
    if quoted && !afterQuote { return Err(UnterminatedQuote); }
    cells := cells + [field];
    if !BlankRow(cells) {
      if |cells| > CSV_MAX_COLUMNS { return Err(TooManyColumns); }
      records := records + [Record(cells, rowStart, start)];
      if |records| > maxRows + 1 { return Err(TooManyRows); }
    }
    r := Report(records);
  }

  // ---- Lines ----

  /** A line ends at LF, and at a CR that no LF follows: CRLF counts once. */
  predicate IsBreak(src: Text, j: nat)
    requires j < |src|
  {
    src[j] == LF || (src[j] == CR && !At(src, j + 1, LF))
  }

  /** The line breaks before offset n, quoted or not. */
  function Breaks(src: Text, n: nat): nat
    requires n <= |src|
  {
    if n == 0 then 0 else Breaks(src, n - 1) + if IsBreak(src, n - 1) then 1 else 0
  }

  /** A row may start here: at the beginning, or right after a line break. */
  predicate RowStart(src: Text, n: nat) { n <= |src| && (n == 0 || src[n - 1] == LF || src[n - 1] == CR) }

  ghost predicate LineRight(src: Text, line: nat, n: nat) {
    RowStart(src, n) && line == 1 + Breaks(src, n)
  }

  ghost predicate RecordsRight(src: Text, records: seq<Record>) {
    && (forall k :: 0 <= k < |records| ==> LineRight(src, records[k].line, records[k].start))
    && (forall k, j :: 0 <= k < j < |records| ==> records[k].start < records[j].start)
  }

  ghost predicate ScanRight(src: Text, s: Scan) {
    && s.start <= s.i <= |src| && s.line == 1 + Breaks(src, s.i)
    && LineRight(src, s.rowStart, s.start)
    && RecordsRight(src, s.records)
    && (forall k :: 0 <= k < |s.records| ==> s.records[k].start < s.start)
  }

  ghost predicate OnLine(src: Text, s: Scan) { s.i <= |src| && s.line == 1 + Breaks(src, s.i) }

  /** The line counter always matches the position. */
  lemma StepKeepsLine(src: Text, s: Scan, maxRows: nat)
    requires OnLine(src, s) && s.i < |src| && Step(src, s, maxRows).Next?
    ensures OnLine(src, Step(src, s, maxRows).s)
  {
    var t := Step(src, s, maxRows).s;
    assert Breaks(src, s.i + 1) == Breaks(src, s.i) + if IsBreak(src, s.i) then 1 else 0;
    if t.i == s.i + 2 {
      assert Breaks(src, s.i + 2) == Breaks(src, s.i + 1) + if IsBreak(src, s.i + 1) then 1 else 0;
    }
  }

  lemma StepKeepsLines(src: Text, s: Scan, maxRows: nat)
    requires ScanRight(src, s) && s.i < |src| && Step(src, s, maxRows).Next?
    ensures ScanRight(src, Step(src, s, maxRows).s)
  {
    StepKeepsLine(src, s, maxRows);
  }

  lemma {:induction false} ScanKeepsLines(src: Text, s: Scan, maxRows: nat)
    requires ScanRight(src, s)
    ensures ScanFrom(src, s, maxRows).Kept? ==> RecordsRight(src, ScanFrom(src, s, maxRows).records)
    decreases |src| - s.i
  {
    if s.i < |src| && Step(src, s, maxRows).Next? {
      StepKeepsLines(src, s, maxRows);
      ScanKeepsLines(src, Step(src, s, maxRows).s, maxRows);
    }
  }

  /** Each reported line is one plus the breaks before the row's start; the rows start in order, each at a line start. */
  lemma LinesCountBreaks(text: Text, maxRows: nat) returns (starts: seq<nat>)
    requires Parsed(text, maxRows).Ok?
    ensures var r := Parsed(text, maxRows);
            && |starts| == |r.lines| == |r.rows|
            && (forall k :: 0 <= k < |starts| ==>
                 RowStart(Source(text), starts[k]) && r.lines[k] == 1 + Breaks(Source(text), starts[k]))
            && (forall k, j :: 0 <= k < j < |starts| ==> starts[k] < starts[j])
  {
    ScanKeepsLines(Source(text), Begin(), maxRows);
    var records := Records(text, maxRows).records;
    starts := seq(|records| - 1, k requires 0 <= k < |records| - 1 => records[k + 1].start);
  }

  // ---- Printing, then parsing ----

  /** src continues with `part` at offset i. */
  ghost predicate Reads(src: Text, i: nat, part: Text) {
    i + |part| <= |src| && src[i..i + |part|] == part
  }

  lemma ReadsSplit(src: Text, i: nat, a: Text, b: Text)
    requires Reads(src, i, a + b)
    ensures Reads(src, i, a) && Reads(src, i + |a|, b)
  {
    assert src[i..i + |a|] == (a + b)[..|a|];
    assert src[i + |a|..i + |a| + |b|] == (a + b)[|a|..];
  }

  ghost predicate Unquoted(s: Scan) { !s.quoted && !s.afterQuote }

  lemma {:induction false} ScanPlain(src: Text, s: Scan, v: Cell, maxRows: nat)
    requires Unquoted(s) && Reads(src, s.i, v) && !NeedsQuotes(v)
    ensures ScanFrom(src, s, maxRows) == ScanFrom(src, s.(field := s.field + v, i := s.i + |v|), maxRows)
    decreases |v|
  {
    hide ScanFrom;
    if v == [] {
      assert s.field + v == s.field;
    } else {
      ReadsSplit(src, s.i, [v[0]], v[1..]);
      assert [v[0]] + v[1..] == v;
      assert src[s.i] == v[0];
      var t := s.(field := s.field + [v[0]], i := s.i + 1);
      ScanStep(src, s, t, maxRows);
      ScanPlain(src, t, v[1..], maxRows);
      assert t.field + v[1..] == s.field + v;
    }
  }

  /** Past i code units of a field: v was appended to it. */
  function Moved(src: Text, s: Scan, v: Cell, n: nat, q: bool, after: bool): Scan
    requires s.i + n <= |src|
  {
    s.(field := s.field + v, i := s.i + n, line := 1 + Breaks(src, s.i + n), quoted := q, afterQuote := after)
  }

  function Head(c: Code): Text { if c == QUOTE then [QUOTE, QUOTE] else [c] }

  lemma StepInside(src: Text, s: Scan, c: Code, maxRows: nat)
    requires s.quoted && !s.afterQuote && OnLine(src, s) && Reads(src, s.i, Head(c))
    ensures Step(src, s, maxRows) == Next(Moved(src, s, [c], |Head(c)|, true, false))
  {
    assert src[s.i] == src[s.i..s.i + |Head(c)|][0] == c;
    if c == QUOTE { assert src[s.i + 1] == src[s.i..s.i + 2][1] == QUOTE; }
    StepKeepsLine(src, s, maxRows);
  }

  lemma StepClosing(src: Text, s: Scan, maxRows: nat)
    requires s.quoted && !s.afterQuote && OnLine(src, s) && Reads(src, s.i, [QUOTE]) && !At(src, s.i + 1, QUOTE)
    ensures Step(src, s, maxRows) == Next(Moved(src, s, [], 1, true, true))
  {
    assert src[s.i] == src[s.i..s.i + 1][0];
    assert s.field + [] == s.field;
    StepKeepsLine(src, s, maxRows);
  }

  lemma MovedTwice(src: Text, s: Scan, a: Cell, m: nat, b: Cell, n: nat, q: bool, after: bool, t: Scan)
    requires s.i + m + n <= |src| && t == Moved(src, s, a, m, q, false)
    ensures Moved(src, t, b, n, q, after) == Moved(src, s, a + b, m + n, q, after)
  {
    assert s.field + a + b == s.field + (a + b);
  }

  /** The inside of a quoted field and its closing quote. */
  lemma {:induction false} ScanDoubled(src: Text, s: Scan, v: Cell, maxRows: nat)
    requires s.quoted && !s.afterQuote && OnLine(src, s)
    requires Reads(src, s.i, Doubled(v) + [QUOTE]) && !At(src, s.i + |Doubled(v)| + 1, QUOTE)
    ensures ScanFrom(src, s, maxRows) == ScanFrom(src, Moved(src, s, v, |Doubled(v)| + 1, true, true), maxRows)
    decreases |v|
  {
    hide ScanFrom, Step;
    if v == [] {
      assert Doubled(v) + [QUOTE] == [QUOTE];
      StepClosing(src, s, maxRows);
      ScanStep(src, s, Moved(src, s, [], 1, true, true), maxRows);
    } else {
      var rest := Doubled(v[1..]);
      assert Doubled(v) + [QUOTE] == Head(v[0]) + (rest + [QUOTE]);
      ReadsSplit(src, s.i, Head(v[0]), rest + [QUOTE]);
      StepInside(src, s, v[0], maxRows);
      var t := Moved(src, s, [v[0]], |Head(v[0])|, true, false);
      ScanStep(src, s, t, maxRows);
      ScanDoubled(src, t, v[1..], maxRows);
      MovedTwice(src, s, [v[0]], |Head(v[0])|, v[1..], |rest| + 1, true, true, t);
      assert [v[0]] + v[1..] == v;
    }
  }

  lemma StepOpening(src: Text, s: Scan, maxRows: nat)
    requires Unquoted(s) && s.field == [] && OnLine(src, s) && Reads(src, s.i, [QUOTE])
    ensures Step(src, s, maxRows) == Next(Moved(src, s, [], 1, true, false))
  {
    assert src[s.i] == src[s.i..s.i + 1][0];
    assert s.field + [] == s.field;
    StepKeepsLine(src, s, maxRows);
  }

  lemma ScanQuotedCell(src: Text, s: Scan, u: Cell, maxRows: nat)
    requires Unquoted(s) && s.field == [] && OnLine(src, s)
    requires Reads(src, s.i, [QUOTE] + Doubled(u) + [QUOTE]) && !At(src, s.i + |Doubled(u)| + 2, QUOTE)
    ensures ScanFrom(src, s, maxRows) == ScanFrom(src, Moved(src, s, u, |Doubled(u)| + 2, true, true), maxRows)
  {
    hide ScanFrom, Step;
    assert [QUOTE] + Doubled(u) + [QUOTE] == [QUOTE] + (Doubled(u) + [QUOTE]);
    ReadsSplit(src, s.i, [QUOTE], Doubled(u) + [QUOTE]);
    var t := Moved(src, s, [], 1, true, false);
    StepOpening(src, s, maxRows);
    ScanStep(src, s, t, maxRows);
    ScanDoubled(src, t, u, maxRows);
    MovedTwice(src, s, [], 1, u, |Doubled(u)| + 1, true, true, t);
    assert [] + u == u;
  }

  /** One printed cell, followed by anything but a quote. */
  lemma ScanCell(src: Text, s: Scan, v: Cell, maxRows: nat)
    requires Unquoted(s) && s.field == [] && OnLine(src, s)
    requires Reads(src, s.i, CsvCell(v)) && !At(src, s.i + |CsvCell(v)|, QUOTE)
    ensures var q := NeedsQuotes(Safe(v));
            ScanFrom(src, s, maxRows) == ScanFrom(src, Moved(src, s, Safe(v), |CsvCell(v)|, q, q), maxRows)
  {
    hide ScanFrom, Step, Safe;
    var u := Safe(v);
    if NeedsQuotes(u) {
      ScanQuotedCell(src, s, u, maxRows);
    } else {
      ScanPlain(src, s, u, maxRows);
      PlainHasNoBreaks(src, s.i, u, |u|);
    }
  }

  lemma {:induction false} PlainHasNoBreaks(src: Text, i: nat, v: Cell, n: nat)
    requires Reads(src, i, v) && !NeedsQuotes(v) && n <= |v|
    ensures Breaks(src, i + n) == Breaks(src, i)
    decreases n
  {
    if n > 0 {
      PlainHasNoBreaks(src, i, v, n - 1);
      assert src[i + n - 1] == src[i..i + |v|][n - 1] == v[n - 1];
    }
  }

  /** The cells a printed row is read back as; a row without cells prints as one empty cell. */
  function SafeCells(row: seq<Cell>): seq<Cell> {
    if row == [] then [] else [Safe(row[0])] + SafeCells(row[1..])
  }

  function ReadBack(row: seq<Cell>): seq<Cell> { if row == [] then [[]] else SafeCells(row) }

  function RowText(row: seq<Cell>): Text { Join(Printed(row), [COMMA]) }

  /** The scanner at the start of a row. */
  function RowAt(records: seq<Record>, line: nat, n: nat): Scan {
    Scan(records, [], [], line, line, n, n, false, false)
  }

  /** What the scanner does at the end of a row with these cells. */
  function CloseRow(src: Text, s: Scan, cells: seq<Cell>, next: nat, maxRows: nat): Kept
    requires next <= |src|
  {
    var line := 1 + Breaks(src, next);
    if BlankRow(cells) then ScanFrom(src, RowAt(s.records, line, next), maxRows)
    else if |cells| > CSV_MAX_COLUMNS then Bad(TooManyColumns)
    else if |s.records| + 1 > maxRows + 1 then Bad(TooManyRows)
    else ScanFrom(src, RowAt(s.records + [Record(cells, s.rowStart, s.start)], line, next), maxRows)
  }

  lemma ScanBreak(src: Text, s: Scan, maxRows: nat)
    requires (s.quoted ==> s.afterQuote) && OnLine(src, s) && Reads(src, s.i, [CR, LF])
    ensures ScanFrom(src, s, maxRows) == CloseRow(src, s, s.cells + [s.field], s.i + 2, maxRows)
  {
    assert src[s.i] == src[s.i..s.i + 2][0] && src[s.i + 1] == src[s.i..s.i + 2][1];
    assert Breaks(src, s.i + 2) == Breaks(src, s.i + 1) + 1 == Breaks(src, s.i) + 1;
  }

  lemma CloseRowOnCells(src: Text, s: Scan, t: Scan, cells: seq<Cell>, next: nat, maxRows: nat)
    requires next <= |src| && t.records == s.records && t.rowStart == s.rowStart && t.start == s.start
    ensures CloseRow(src, t, cells, next, maxRows) == CloseRow(src, s, cells, next, maxRows)
  {
  }

  lemma RowTextSplits(row: seq<Cell>)
    requires |row| >= 2
    ensures RowText(row) == CsvCell(row[0]) + ([COMMA] + RowText(row[1..]))
  {
    assert Printed(row)[1..] == Printed(row[1..]);
    assert |Printed(row)| >= 2 by { assert Printed(row[1..]) != []; }
  }

  lemma ScanComma(src: Text, s: Scan, maxRows: nat)
    requires (s.quoted ==> s.afterQuote) && Reads(src, s.i, [COMMA])
    ensures ScanFrom(src, s, maxRows) == ScanFrom(src, EndField(s).(i := s.i + 1), maxRows)
    ensures Breaks(src, s.i + 1) == Breaks(src, s.i)
  {
    assert src[s.i] == src[s.i..s.i + 1][0];
  }

  lemma NoQuoteAt(src: Text, i: nat, c: Code, rest: Text)
    requires Reads(src, i, [c] + rest) && c != QUOTE
    ensures !At(src, i, QUOTE)
  {
    assert src[i] == src[i..i + 1 + |rest|][0];
  }

  /** One cell and the comma after it. */
  lemma ScanCellComma(src: Text, s: Scan, v: Cell, maxRows: nat)
    requires Unquoted(s) && s.field == [] && OnLine(src, s) && Reads(src, s.i, CsvCell(v) + [COMMA])
    ensures var n := |CsvCell(v)| + 1;
            ScanFrom(src, s, maxRows)
            == ScanFrom(src, s.(cells := s.cells + [Safe(v)], i := s.i + n, line := 1 + Breaks(src, s.i + n)), maxRows)
  {
    hide ScanFrom, Step, CsvCell, Safe;
    var n, q := |CsvCell(v)|, NeedsQuotes(Safe(v));
    ReadsSplit(src, s.i, CsvCell(v), [COMMA]);
    assert [COMMA] + [] == [COMMA];
    NoQuoteAt(src, s.i + n, COMMA, []);
    ScanCell(src, s, v, maxRows);
    var t := Moved(src, s, Safe(v), n, q, q);
    assert s.field + Safe(v) == Safe(v);
    ScanComma(src, t, maxRows);
  }

  /** The last cell of a row and its line break. */
  lemma ScanCellBreak(src: Text, s: Scan, v: Cell, maxRows: nat)
    requires Unquoted(s) && s.field == [] && OnLine(src, s) && Reads(src, s.i, CsvCell(v) + [CR, LF])
    ensures ScanFrom(src, s, maxRows) == CloseRow(src, s, s.cells + [Safe(v)], s.i + |CsvCell(v)| + 2, maxRows)
  {
    hide ScanFrom, Step, CsvCell, Safe, CloseRow;
    var n, q := |CsvCell(v)|, NeedsQuotes(Safe(v));
    ReadsSplit(src, s.i, CsvCell(v), [CR, LF]);
    assert [CR] + [LF] == [CR, LF];
    NoQuoteAt(src, s.i + n, CR, [LF]);
    ScanCell(src, s, v, maxRows);
    var t := Moved(src, s, Safe(v), n, q, q);
    assert s.field + Safe(v) == Safe(v);
    ScanBreak(src, t, maxRows);
    CloseRowOnCells(src, s, t, s.cells + [Safe(v)], s.i + n + 2, maxRows);
  }

  lemma OneCellRow(row: seq<Cell>)
    requires |row| == 1
    ensures RowText(row) == CsvCell(row[0]) && SafeCells(row) == [Safe(row[0])]
  {
    assert Printed(row[1..]) == [] && Printed(row) == [CsvCell(row[0])];
    assert SafeCells(row[1..]) == [];
  }

  lemma ManyCellRow(row: seq<Cell>)
    requires |row| >= 2
    ensures RowText(row) + [CR, LF] == (CsvCell(row[0]) + [COMMA]) + (RowText(row[1..]) + [CR, LF])
    ensures |RowText(row)| == |CsvCell(row[0])| + 1 + |RowText(row[1..])|
    ensures SafeCells(row) == [Safe(row[0])] + SafeCells(row[1..])
  {
    RowTextSplits(row);
  }

  /** One printed row and its line break. */
  lemma {:induction false} ScanRow(src: Text, s: Scan, row: seq<Cell>, maxRows: nat)
    requires row != [] && Unquoted(s) && s.field == [] && OnLine(src, s) && Reads(src, s.i, RowText(row) + [CR, LF])
    ensures ScanFrom(src, s, maxRows)
            == CloseRow(src, s, s.cells + SafeCells(row), s.i + |RowText(row)| + 2, maxRows)
    decreases |row|
  {
    hide ScanFrom, Step, CsvCell, Safe, CloseRow, RowText, SafeCells, Breaks;
    if |row| == 1 {
      OneCellRow(row);
      ScanCellBreak(src, s, row[0], maxRows);
    } else {
      var v, rest := row[0], row[1..];
      ManyCellRow(row);
      ReadsSplit(src, s.i, CsvCell(v) + [COMMA], RowText(rest) + [CR, LF]);
      ScanCellComma(src, s, v, maxRows);
      var n := |CsvCell(v)| + 1;
      var t := s.(cells := s.cells + [Safe(v)], i := s.i + n, line := 1 + Breaks(src, s.i + n));
      ScanRow(src, t, rest, maxRows);
      assert t.cells + SafeCells(rest) == s.cells + SafeCells(row);
      CloseRowOnCells(src, s, t, s.cells + SafeCells(row), s.i + |RowText(row)| + 2, maxRows);
    }
  }

  /** A table, or the first cap it breaks. */
  datatype Table = Table(rows: seq<seq<Cell>>) | Refused(error: Error)

  function TableOf(k: Kept): Table {
    match k
    case Kept(records) => Table(CellsOf(records))
    case Bad(e) => Refused(e)
  }

  /** What printing `rows` and reading them back must give: the non-blank rows, under the caps. */
  function Gather(kept: seq<seq<Cell>>, rows: seq<seq<Cell>>, maxRows: nat): Table
    decreases |rows|
  {
    if rows == [] then Table(kept)
    else
      var cells := ReadBack(rows[0]);
      if BlankRow(cells) then Gather(kept, rows[1..], maxRows)
      else if |cells| > CSV_MAX_COLUMNS then Refused(TooManyColumns)
      else if |kept| + 1 > maxRows + 1 then Refused(TooManyRows)
      else Gather(kept + [cells], rows[1..], maxRows)
  }

  function RowsText(rows: seq<seq<Cell>>): Text {
    if rows == [] then [] else RowText(rows[0]) + [CR, LF] + RowsText(rows[1..])
  }

  ghost predicate AtRowStart(src: Text, s: Scan) {
    Unquoted(s) && s.field == [] && s.cells == [] && OnLine(src, s) && s.rowStart == s.line && s.start == s.i
  }

  lemma {:induction false} ScanRows(src: Text, s: Scan, rows: seq<seq<Cell>>, maxRows: nat)
    requires AtRowStart(src, s) && src[s.i..] == RowsText(rows)
    ensures TableOf(ScanFrom(src, s, maxRows)) == Gather(CellsOf(s.records), rows, maxRows)
    decreases |rows|
  {
    hide ScanFrom, Step, RowText, ReadBack;
    if rows == [] {
      assert s.cells + [s.field] == [[]];
      ScanEnds(src, s, maxRows);
    } else {
      var row := rows[0];
      var text, n := RowText(row) + [CR, LF], |RowText(row)| + 2;
      assert RowsText(rows) == text + RowsText(rows[1..]);
      assert src[s.i..s.i + n] == src[s.i..][..n] == text;
      assert src[s.i + n..] == src[s.i..][n..] == RowsText(rows[1..]);
      assert Reads(src, s.i, text);
      OneRow(src, s, row, maxRows);
      var cells, line := ReadBack(row), 1 + Breaks(src, s.i + n);
      if BlankRow(cells) {
        ScanRows(src, RowAt(s.records, line, s.i + n), rows[1..], maxRows);
      } else if |cells| <= CSV_MAX_COLUMNS && |s.records| + 1 <= maxRows + 1 {
        var more := s.records + [Record(cells, s.rowStart, s.start)];
        assert CellsOf(more) == CellsOf(s.records) + [cells];
        ScanRows(src, RowAt(more, line, s.i + n), rows[1..], maxRows);
      }
    }
  }

  lemma OneRow(src: Text, s: Scan, row: seq<Cell>, maxRows: nat)
    requires AtRowStart(src, s) && Reads(src, s.i, RowText(row) + [CR, LF])
    ensures ScanFrom(src, s, maxRows) == CloseRow(src, s, ReadBack(row), s.i + |RowText(row)| + 2, maxRows)
  {
    if row == [] {
      assert Printed(row) == [] && RowText(row) + [CR, LF] == [CR, LF];
      ScanBreak(src, s, maxRows);
      assert s.cells + [s.field] == [[]];
    } else {
      ScanRow(src, s, row, maxRows);
      assert s.cells + SafeCells(row) == SafeCells(row);
    }
  }

  lemma {:induction false} JoinedRows(rows: seq<seq<Cell>>)
    requires rows != []
    ensures Join(RowTexts(rows), [CR, LF]) + [CR, LF] == RowsText(rows)
    decreases |rows|
  {
    var more := RowTexts(rows[1..]);
    assert RowTexts(rows)[1..] == more;
    if |rows| > 1 {
      assert more != [];
      JoinedRows(rows[1..]);
    }
  }

  /** The parser's answer for a table: its first row is the header. */
  ghost predicate Answers(r: Result, t: Table) {
    match t
    case Refused(e) => r == Err(e)
    case Table(rows) =>
      if rows == [] then r == Err(Empty)
      else if |rows| == 1 then r == Err(NoRows)
      else r.Ok? && [r.header] + r.rows == rows
  }

  lemma AnswersOf(text: Text, maxRows: nat)
    requires |text| <= CSV_MAX_BYTES
    ensures Answers(Parsed(text, maxRows), TableOf(Records(text, maxRows)))
  {
    hide ScanFrom;
    var k := Records(text, maxRows);
    if k.Kept? && |k.records| >= 2 {
      assert CellsOf(k.records) == [k.records[0].cells] + CellsOf(k.records[1..]);
    }
  }

  /**
   Printing any rows and parsing the text keeps exactly the non-blank rows, cell by cell, but for the
   apostrophes, or names the first cap they break, unless the text is too large or starts with a BOM.
   */
  lemma RoundTrip(rows: seq<seq<Cell>>, maxRows: nat)
    requires |ToCsv(rows)| <= CSV_MAX_BYTES && ToCsv(rows)[0] != BOM
    ensures Answers(Parsed(ToCsv(rows), maxRows), Gather([], rows, maxRows))
  {
    hide ScanFrom, ReadBack;
    var text := ToCsv(rows);
    var printed := if rows == [] then [[]] else rows;
    if rows == [] {
      assert RowsText([[]]) == [CR, LF] by { assert RowText([]) == []; }
      assert Gather([], [[]], maxRows) == Gather([], [], maxRows) by { EmptyRowIsBlank(); }
    } else {
      JoinedRows(rows);
    }
    assert Source(text) == text && text[0..] == text;
    ScanRows(text, Begin(), printed, maxRows);
    assert CellsOf([]) == [];
    AnswersOf(text, maxRows);
  }

  lemma EmptyRowIsBlank()
    ensures ReadBack([]) == [[]] && BlankRow([[]])
  {
  }

  function SafeRows(rows: seq<seq<Cell>>): seq<seq<Cell>> {
    if rows == [] then [] else [SafeCells(rows[0])] + SafeRows(rows[1..])
  }

  /** A row the parser keeps: some cell is not blank, and it has at most fifty. */
  ghost predicate KeepsRow(row: seq<Cell>) { !BlankRow(row) && |row| <= CSV_MAX_COLUMNS }

  lemma {:induction false} SafeCellsAt(row: seq<Cell>, i: nat)
    requires i < |row|
    ensures |SafeCells(row)| == |row| && SafeCells(row)[i] == Safe(row[i])
    decreases |row|
  {
    if i > 0 { SafeCellsAt(row[1..], i - 1); }
    else if |row| > 1 { SafeCellsAt(row[1..], 0); }
    else { assert SafeCells(row[1..]) == []; }
  }

  lemma SafeKeepsRow(row: seq<Cell>)
    requires KeepsRow(row)
    ensures KeepsRow(SafeCells(row)) && ReadBack(row) == SafeCells(row)
  {
    var i :| 0 <= i < |row| && !Blank(row[i]);
    SafeCellsAt(row, i);
    var j :| 0 <= j < |row[i]| && !IsSpace(row[i][j]);
    assert Safe(row[i]) != row[i] ==> Safe(row[i])[0] == APOSTROPHE;
    assert !Blank(Safe(row[i]));
  }

  lemma {:induction false} GatherKeepsAll(kept: seq<seq<Cell>>, rows: seq<seq<Cell>>, maxRows: nat)
    requires |kept| + |rows| <= maxRows + 1 && forall i :: 0 <= i < |rows| ==> KeepsRow(rows[i])
    ensures Gather(kept, rows, maxRows) == Table(kept + SafeRows(rows))
    decreases |rows|
  {
    hide BlankRow, SafeCells, ReadBack;
    if rows == [] {
      assert kept + SafeRows(rows) == kept;
    } else {
      SafeKeepsRow(rows[0]);
      GatherKeepsAll(kept + [SafeCells(rows[0])], rows[1..], maxRows);
      assert kept + [SafeCells(rows[0])] + SafeRows(rows[1..]) == kept + SafeRows(rows);
    }
  }

  /** A table of at least two rows within the caps, none blank, comes back whole: section 2 of RFC 4180. */
  lemma TableComesBack(rows: seq<seq<Cell>>, maxRows: nat)
    requires 2 <= |rows| <= maxRows + 1 && forall i :: 0 <= i < |rows| ==> KeepsRow(rows[i])
    requires |ToCsv(rows)| <= CSV_MAX_BYTES && ToCsv(rows)[0] != BOM
    ensures var r := Parsed(ToCsv(rows), maxRows); r.Ok? && [r.header] + r.rows == SafeRows(rows)
  {
    hide ScanFrom, ToCsv, Parsed;
    GatherKeepsAll([], rows, maxRows);
    assert [] + SafeRows(rows) == SafeRows(rows);
    SafeRowsLength(rows);
    RoundTrip(rows, maxRows);
  }

  lemma {:induction false} SafeRowsLength(rows: seq<seq<Cell>>)
    ensures |SafeRows(rows)| == |rows|
    decreases |rows|
  {
    if rows != [] { SafeRowsLength(rows[1..]); }
  }

  // ---- Re-printing what was accepted ----

  ghost predicate RecordsKept(records: seq<Record>, maxRows: nat) {
    |records| <= maxRows + 1 && forall k :: 0 <= k < |records| ==> KeepsRow(records[k].cells)
  }

  lemma EndRowKeeps(s: Scan, maxRows: nat)
    requires RecordsKept(s.records, maxRows) && EndRow(s, maxRows).Next?
    ensures RecordsKept(EndRow(s, maxRows).s.records, maxRows)
  {
  }

  lemma StepKeepsRecords(src: Text, s: Scan, maxRows: nat)
    requires RecordsKept(s.records, maxRows) && s.i < |src| && Step(src, s, maxRows).Next?
    ensures RecordsKept(Step(src, s, maxRows).s.records, maxRows)
  {
    if EndRow(s, maxRows).Next? { EndRowKeeps(s, maxRows); }
  }

  lemma {:induction false} ScanKeepsRecords(src: Text, s: Scan, maxRows: nat)
    requires RecordsKept(s.records, maxRows)
    ensures ScanFrom(src, s, maxRows).Kept? ==> RecordsKept(ScanFrom(src, s, maxRows).records, maxRows)
    decreases |src| - s.i
  {
    hide EndRow, Step;
    if s.i < |src| {
      if Step(src, s, maxRows).Next? {
        StepKeepsRecords(src, s, maxRows);
        ScanKeepsRecords(src, Step(src, s, maxRows).s, maxRows);
      }
    } else if EndRow(s, maxRows).Next? {
      EndRowKeeps(s, maxRows);
    }
  }

  /** Printing an accepted table and parsing it again gives the same table up to the apostrophes. */
  lemma ReprintComesBack(text: Text, maxRows: nat)
    requires Parsed(text, maxRows).Ok?
    ensures var r := Parsed(text, maxRows);
            var table := [r.header] + r.rows;
            var again := ToCsv(table);
            |again| <= CSV_MAX_BYTES && again[0] != BOM ==>
              && Parsed(again, maxRows).Ok?
              && [Parsed(again, maxRows).header] + Parsed(again, maxRows).rows == SafeRows(table)
              && ToCsv(SafeRows(table)) == again
  {
    hide ScanFrom, RowTexts;
    var r := Parsed(text, maxRows);
    var table := [r.header] + r.rows;
    ScanKeepsRecords(Source(text), Begin(), maxRows);
    var records := Records(text, maxRows).records;
    assert forall k :: 0 <= k < |table| ==> table[k] == records[k].cells;
    var again := ToCsv(table);
    if |again| <= CSV_MAX_BYTES && again[0] != BOM {
      TableComesBack(table, maxRows);
      PrintIsStable(table);
    }
  }

  lemma {:induction false} PrintedIsStable(row: seq<Cell>)
    ensures Printed(SafeCells(row)) == Printed(row)
    decreases |row|
  {
    if row != [] {
      assert Safe(Safe(row[0])) == Safe(row[0]);
      PrintedIsStable(row[1..]);
      assert SafeCells(row)[1..] == SafeCells(row[1..]);
    }
  }

  lemma {:induction false} RowTextsAreStable(rows: seq<seq<Cell>>)
    ensures RowTexts(SafeRows(rows)) == RowTexts(rows)
    decreases |rows|
  {
    if rows != [] {
      PrintedIsStable(rows[0]);
      RowTextsAreStable(rows[1..]);
      assert SafeRows(rows)[1..] == SafeRows(rows[1..]);
    }
  }

  /** The apostrophe is added once: what was read back prints to the same text. */
  lemma PrintIsStable(rows: seq<seq<Cell>>)
    ensures ToCsv(SafeRows(rows)) == ToCsv(rows)
  {
    RowTextsAreStable(rows);
  }

  // ---- A first cell that starts with a BOM ----

  /** The text of a row after its first cell. */
  function RestOfRow(row: seq<Cell>): Text { (if row == [] then [] else [COMMA] + RowText(row)) + [CR, LF] }

  /** The text after the first cell of a table. */
  function AfterFirst(row: seq<Cell>, rows: seq<seq<Cell>>): Text { RestOfRow(row) + RowsText(rows) }

  lemma FirstRowText(v: Cell, row: seq<Cell>)
    ensures RowText([v] + row) == CsvCell(v) + (if row == [] then [] else [COMMA] + RowText(row))
  {
    hide CsvCell;
    var first := [v] + row;
    assert first[1..] == row;
    if row == [] { OneCellRow(first); } else { RowTextSplits(first); }
  }

  lemma FirstCellPrints(v: Cell, row: seq<Cell>, rows: seq<seq<Cell>>)
    ensures ToCsv([[v] + row] + rows) == CsvCell(v) + AfterFirst(row, rows)
  {
    hide CsvCell, RowText, RowTexts, Join;
    var first := [v] + row;
    var table := [first] + rows;
    assert table[0] == first && table[1..] == rows;
    JoinedRows(table);
    FirstRowText(v, row);
  }

  lemma NoSafeCells()
    ensures SafeCells([]) == []
  {
  }

  lemma CloseKeptRow(src: Text, s: Scan, cells: seq<Cell>, next: nat, maxRows: nat)
    requires next <= |src| && KeepsRow(cells) && |s.records| <= maxRows
    ensures var line := 1 + Breaks(src, next);
            CloseRow(src, s, cells, next, maxRows) ==
            ScanFrom(src, RowAt(s.records + [Record(cells, s.rowStart, s.start)], line, next), maxRows)
  {
    hide ScanFrom, Blank;
  }

  /** A bare cell and a comma, or a line break. */
  lemma ScanBareComma(src: Text, s: Scan, w: Cell, maxRows: nat)
    requires !NeedsQuotes(w) && AtRowStart(src, s) && Reads(src, s.i, w + [COMMA])
    ensures var n := s.i + |w| + 1;
            ScanFrom(src, s, maxRows) == ScanFrom(src, s.(cells := [w], i := n, line := 1 + Breaks(src, n)), maxRows)
  {
    hide ScanFrom, Step, Breaks, NeedsQuotes;
    ReadsSplit(src, s.i, w, [COMMA]);
    ScanPlain(src, s, w, maxRows);
    PlainHasNoBreaks(src, s.i, w, |w|);
    var t := s.(field := s.field + w, i := s.i + |w|);
    assert s.field + w == w;
    ScanComma(src, t, maxRows);
    assert s.cells + [w] == [w];
  }

  lemma ScanBareBreak(src: Text, s: Scan, w: Cell, maxRows: nat)
    requires !NeedsQuotes(w) && AtRowStart(src, s) && Reads(src, s.i, w + [CR, LF])
    ensures ScanFrom(src, s, maxRows) == CloseRow(src, s, [w], s.i + |w| + 2, maxRows)
  {
    hide ScanFrom, Step, CloseRow, Breaks, NeedsQuotes;
    ReadsSplit(src, s.i, w, [CR, LF]);
    ScanPlain(src, s, w, maxRows);
    PlainHasNoBreaks(src, s.i, w, |w|);
    var t := s.(field := s.field + w, i := s.i + |w|);
    assert s.field + w == w && t.cells + [t.field] == [w];
    ScanBreak(src, t, maxRows);
    CloseRowOnCells(src, s, t, [w], t.i + 2, maxRows);
  }

  /** A first row whose first cell stands bare in the text. */
  lemma ScanBareRow(src: Text, s: Scan, w: Cell, row: seq<Cell>, maxRows: nat)
    requires !NeedsQuotes(w) && AtRowStart(src, s)
    requires Reads(src, s.i, w + RestOfRow(row))
    ensures ScanFrom(src, s, maxRows) == CloseRow(src, s, [w] + SafeCells(row), s.i + |w + RestOfRow(row)|, maxRows)
  {
    hide ScanFrom, Step, CloseRow, RowText, SafeCells, NeedsQuotes, Breaks;
    if row == [] {
      assert [] + [CR, LF] == [CR, LF];
      NoSafeCells();
      assert [w] + SafeCells([]) == [w];
      ScanBareBreak(src, s, w, maxRows);
    } else {
      var n := s.i + |w| + 1;
      assert w + ([COMMA] + RowText(row) + [CR, LF]) == (w + [COMMA]) + (RowText(row) + [CR, LF]);
      ReadsSplit(src, s.i, w + [COMMA], RowText(row) + [CR, LF]);
      ScanBareComma(src, s, w, maxRows);
      var u := s.(cells := [w], i := n, line := 1 + Breaks(src, n));
      ScanRow(src, u, row, maxRows);
      CloseRowOnCells(src, s, u, [w] + SafeCells(row), n + |RowText(row)| + 2, maxRows);
    }
  }

  lemma BareKeepsRow(w: Cell, row: seq<Cell>)
    requires KeepsRow([[BOM] + w] + row)
    ensures KeepsRow([w] + SafeCells(row))
  {
    var was, now := [[BOM] + w] + row, [w] + SafeCells(row);
    var i :| 0 <= i < |was| && !Blank(was[i]);
    if i == 0 {
      var j :| 0 <= j < |was[0]| && !IsSpace(was[0][j]);
      assert was[0][j] == w[j - 1];
      assert !Blank(now[0]);
    } else {
      var v := row[i - 1];
      assert was[i] == v;
      SafeCellsAt(row, i - 1);
      SafeStaysNonBlank(v);
      assert now[i] == Safe(v);
    }
    if row != [] { SafeCellsAt(row, 0); } else { assert SafeCells(row) == []; }
  }

  lemma SafeStaysNonBlank(v: Cell)
    requires !Blank(v)
    ensures !Blank(Safe(v))
  {
    var j :| 0 <= j < |v| && !IsSpace(v[j]);
    assert Safe(v) != v ==> Safe(v)[0] == APOSTROPHE;
  }

  lemma BomSource(w: Cell, row: seq<Cell>, rows: seq<seq<Cell>>)
    requires !NeedsQuotes(w)
    ensures Source(ToCsv([[[BOM] + w] + row] + rows)) == w + RestOfRow(row) + RowsText(rows)
  {
    hide ToCsv, RowText, RowsText;
    FirstCellPrints([BOM] + w, row, rows);
    assert !FormulaLead(([BOM] + w)[0]) && !NeedsQuotes([BOM] + w);
    assert ToCsv([[[BOM] + w] + row] + rows) == [BOM] + (w + RestOfRow(row) + RowsText(rows));
  }

  /** Such a table comes back with the BOM missing from its first cell, which is read as it stands. */
  lemma LeadingBomIsLost(w: Cell, row: seq<Cell>, rows: seq<seq<Cell>>, maxRows: nat)
    requires var table := [[[BOM] + w] + row] + rows;
             && 2 <= |table| <= maxRows + 1 && (forall i :: 0 <= i < |table| ==> KeepsRow(table[i]))
             && !NeedsQuotes(w) && |ToCsv(table)| <= CSV_MAX_BYTES
    ensures var r := Parsed(ToCsv([[[BOM] + w] + row] + rows), maxRows);
            r.Ok? && [r.header] + r.rows == [[w] + SafeCells(row)] + SafeRows(rows)
  {
    hide ScanFrom, Step, ToCsv, RowText, RowsText, KeepsRow, Gather;
    hide SafeCells, SafeRows, CloseRow, Parsed, NeedsQuotes, Source, CsvCell;
    var table := [[[BOM] + w] + row] + rows;
    var src := Source(ToCsv(table));
    BomSource(w, row, rows);
    var n := |w + RestOfRow(row)|;
    assert src[..n] == w + RestOfRow(row) && src[n..] == RowsText(rows);
    var s := Begin();
    ScanBareRow(src, s, w, row, maxRows);
    assert table[0] == [[BOM] + w] + row;
    BareKeepsRow(w, row);
    BareTable(src, s, [w] + SafeCells(row), n, rows, maxRows) by {
      assert forall i :: 0 <= i < |rows| ==> rows[i] == table[i + 1];
    }
    AnswersOf(ToCsv(table), maxRows);
    SafeRowsLength(rows);
  }

  lemma RowAtStarts(src: Text, records: seq<Record>, n: nat)
    requires n <= |src|
    ensures var s := RowAt(records, 1 + Breaks(src, n), n); AtRowStart(src, s) && s.records == records && s.i == n
  {
  }

  lemma OneRecord(s: Scan, cells: seq<Cell>)
    requires s.records == []
    ensures CellsOf(s.records + [Record(cells, s.rowStart, s.start)]) == [cells]
  {
  }

  /** A kept first row and the printed rows after it. */
  lemma BareTable(src: Text, s: Scan, cells: seq<Cell>, n: nat, rows: seq<seq<Cell>>, maxRows: nat)
    requires n <= |src| && src[n..] == RowsText(rows) && KeepsRow(cells) && s.records == []
    requires 1 + |rows| <= maxRows + 1 && forall i :: 0 <= i < |rows| ==> KeepsRow(rows[i])
    ensures TableOf(CloseRow(src, s, cells, n, maxRows)) == Table([cells] + SafeRows(rows))
  {
    hide ScanFrom, Step, RowsText, Gather, CloseRow, KeepsRow, Breaks, SafeRows, IsBreak, RowAt, AtRowStart, CellsOf;
    var line := 1 + Breaks(src, n);
    var records := s.records + [Record(cells, s.rowStart, s.start)];
    OneRecord(s, cells);
    CloseKeptRow(src, s, cells, n, maxRows);
    RowAtStarts(src, records, n);
    ScanRows(src, RowAt(records, line, n), rows, maxRows);
    GatherKeepsAll([cells], rows, maxRows);
  }

  /** Within the caps a table without blank rows comes back whole if and only if its text does not start with a BOM. */
  lemma TableComesBackExactly(rows: seq<seq<Cell>>, maxRows: nat)
    requires 2 <= |rows| <= maxRows + 1 && forall i :: 0 <= i < |rows| ==> KeepsRow(rows[i])
    requires |ToCsv(rows)| <= CSV_MAX_BYTES
    ensures var r := Parsed(ToCsv(rows), maxRows);
            r.Ok? && [r.header] + r.rows == SafeRows(rows) <==> ToCsv(rows)[0] != BOM
  {
    hide ScanFrom, Parsed, Printed, RowTexts, Join, Doubled;
    if ToCsv(rows)[0] != BOM {
      TableComesBack(rows, maxRows);
    } else {
      var v, row, more := rows[0][0], rows[0][1..], rows[1..];
      assert rows[0] == [v] + row && rows == [[v] + row] + more;
      FirstCellPrints(v, row, more);
      BomLeads(v, AfterFirst(row, more));
      var w := v[1..];
      assert v == [BOM] + w;
      LeadingBomIsLost(w, row, more, maxRows);
      assert SafeRows(rows)[0] == SafeCells(rows[0]);
      assert SafeCells(rows[0])[0] == v;
      var r := Parsed(ToCsv(rows), maxRows);
      assert ([r.header] + r.rows)[0][0] == w;
      assert |w| != |v|;
    }
  }

  lemma BomLeads(v: Cell, after: Text)
    requires after != [] && after[0] != BOM && (CsvCell(v) + after)[0] == BOM
    ensures v != [] && v[0] == BOM && Safe(v) == v && !NeedsQuotes(v)
  {
  }
}
