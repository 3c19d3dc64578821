/** How the text of a bank statement becomes rows: the delimiter is the most frequent candidate of the first
    line, and reading with any delimiter is reading with commas after the two have changed places. */
module BankStatement {
  import opened Csv
  import opened Sorting

  const TAB: char := '\t'
  const SEMICOLON: char := ';'
  const CANDIDATES: seq<char> := [COMMA, TAB, SEMICOLON]

  // ----- the delimiter and the comma change places -----

  /** A character that can delimit cells. */
  predicate Delimits(d: char) {
    d != QUOTE && d != NEWLINE && d != RETURN
  }

  function Swap(d: char, c: char): char {
    if c == d then COMMA else if c == COMMA then d else c
  }

  function SwapText(d: char, text: string): (r: string)
    ensures |r| == |text|
    ensures forall i :: 0 <= i < |text| ==> r[i] == Swap(d, text[i])
  {
    seq(|text|, i requires 0 <= i < |text| => Swap(d, text[i]))
  }

  function SwapRecord(d: char, record: Record): (r: Record)
    ensures |r| == |record|
    ensures forall i :: 0 <= i < |record| ==> r[i] == SwapText(d, record[i])
  {
    seq(|record|, i requires 0 <= i < |record| => SwapText(d, record[i]))
  }

  function SwapRecords(d: char, records: seq<Record>): (r: seq<Record>)
    ensures |r| == |records|
    ensures forall i :: 0 <= i < |records| ==> r[i] == SwapRecord(d, records[i])
  {
    seq(|records|, i requires 0 <= i < |records| => SwapRecord(d, records[i]))
  }

  function SwapOutcome(d: char, outcome: Outcome): Outcome {
    if outcome.Accepted? then Accepted(SwapRecords(d, outcome.records)) else outcome
  }

  function SwapState(d: char, st: Lenient): Lenient {
    Lenient(SwapRecords(d, st.rows), SwapRecord(d, st.row), SwapText(d, st.cell), st.quoted)
  }

  lemma SwapTwice(d: char, text: string)
    ensures SwapText(d, SwapText(d, text)) == text
  {
  }

  lemma SwapRecordTwice(d: char, record: Record)
    ensures SwapRecord(d, SwapRecord(d, record)) == record
  {
    forall i | 0 <= i < |record| ensures SwapText(d, SwapText(d, record[i])) == record[i] {
      SwapTwice(d, record[i]);
    }
  }

  lemma SwapRecordsTwice(d: char, records: seq<Record>)
    ensures SwapRecords(d, SwapRecords(d, records)) == records
  {
    forall i | 0 <= i < |records| ensures SwapRecord(d, SwapRecord(d, records[i])) == records[i] {
      SwapRecordTwice(d, records[i]);
    }
  }

  lemma SwapDropsReturn(d: char, cell: string)
    requires Delimits(d)
    ensures SwapText(d, DropReturn(cell)) == DropReturn(SwapText(d, cell))
  {
  }

  lemma SwapFinishCell(d: char, st: Lenient)
    ensures SwapState(d, st.FinishCell()) == SwapState(d, st).FinishCell()
  {
    assert SwapRecord(d, st.row + [st.cell]) == SwapRecord(d, st.row) + [SwapText(d, st.cell)];
  }

  lemma SwapFinishRow(d: char, st: Lenient)
    requires Delimits(d)
    ensures SwapState(d, st.FinishRow()) == SwapState(d, st).FinishRow()
  {
    var row := st.row + [DropReturn(st.cell)];
    SwapDropsReturn(d, st.cell);
    assert SwapRecord(d, row) == SwapRecord(d, st.row) + [SwapText(d, DropReturn(st.cell))];
    assert SwapRecords(d, st.rows + [row]) == SwapRecords(d, st.rows) + [SwapRecord(d, row)];
  }

  lemma SwapAddsCharacter(d: char, st: Lenient, c: char)
    ensures SwapState(d, st.(cell := st.cell + [c]))
         == SwapState(d, st).(cell := SwapState(d, st).cell + [Swap(d, c)])
  {
    assert SwapText(d, st.cell + [c]) == SwapText(d, st.cell) + [Swap(d, c)];
  }

  /** Reading with a delimiter step by step is reading the swapped text with commas. */
  lemma {:induction false} RunSwaps(source: string, d: char, st: Lenient)
    requires Delimits(d)
    ensures LenientRun(SwapText(d, source), COMMA, SwapState(d, st)) == SwapOutcome(d, LenientRun(source, d, st))
    decreases |source|
  {
    var swapped := SwapText(d, source);
    if source == [] {
      SwapFinishRow(d, st);
    } else {
      var c := source[0];
      assert swapped[1..] == SwapText(d, source[1..]);
      assert |source| > 1 ==> swapped[2..] == SwapText(d, source[2..]);
      SwapAddsCharacter(d, st, c);
      if st.quoted {
        if c == QUOTE {
          if |source| > 1 && source[1] == QUOTE {
            RunSwaps(source[2..], d, st.(cell := st.cell + [QUOTE]));
          } else {
            RunSwaps(source[1..], d, st.(quoted := false));
          }
        } else {
          RunSwaps(source[1..], d, st.(cell := st.cell + [c]));
        }
      } else if c == QUOTE {
        if st.cell == [] {
          RunSwaps(source[1..], d, st.(quoted := true));
        }
      } else if c == d {
        SwapFinishCell(d, st);
        RunSwaps(source[1..], d, st.FinishCell());
      } else if c == NEWLINE {
        SwapFinishRow(d, st);
        RunSwaps(source[1..], d, st.FinishRow());
      } else {
        RunSwaps(source[1..], d, st.(cell := st.cell + [c]));
      }
    }
  }

  lemma {:induction false} RowsAreSwapped(source: string, d: char)
    requires Delimits(d)
    ensures LenientRun(source, d, LENIENT_START)
         == SwapOutcome(d, LenientRun(SwapText(d, source), COMMA, LENIENT_START))
  {
    assert SwapState(d, LENIENT_START) == LENIENT_START;
    RunSwaps(source, d, LENIENT_START);
    var outcome := LenientRun(source, d, LENIENT_START);
    if outcome.Accepted? {
      SwapRecordsTwice(d, outcome.records);
    }
  }

  /** What the strict reader finds in the swapped text, swapped back: the last return of a record and the blank
      records are dropped. */
  function StrictRows(source: string, d: char): Outcome {
    NonBlank(SwapOutcome(d, WithoutLastReturns(StrictParse(SwapText(d, source)))))
  }

  lemma MirrorsSwap(d: char, lenient: Outcome, strict: Outcome)
    requires Mirrors(lenient, strict)
    ensures Mirrors(SwapOutcome(d, lenient), SwapOutcome(d, strict))
  {
    if lenient.Accepted? && strict.Accepted? && lenient.records + [BLANK] == strict.records {
      assert SwapText(d, []) == [];
      assert SwapRecord(d, BLANK) == BLANK;
      assert SwapRecords(d, lenient.records + [BLANK]) == SwapRecords(d, lenient.records) + [BLANK];
    }
  }

  /** With any delimiter the lenient reader finds what the strict one finds with commas, once delimiter and
      comma have changed places in the text and back again in the cells, exactly if no text stands behind a
      closing quote. */
  lemma AnyDelimiterIff(source: string, d: char)
    requires Delimits(d)
    ensures LenientParse(source, d) == StrictRows(source, d) <==> !TextAfterClosingQuote(SwapText(d, source))
  {
    var text := SwapText(d, source);
    RowsAreSwapped(source, d);
    StrictRejectsTextAfterQuote(text);
    LenientKeepsTextAfterQuote(source, d, LENIENT_START);
    if !TextAfterClosingQuote(text) {
      assert Map(DropLastReturn, []) == [];
      StepwiseAgreement(text, STRICT_START);
      MirrorsSwap(d, LenientRun(text, COMMA, LENIENT_START), WithoutLastReturns(StrictParse(text)));
      MirrorsKeepText(SwapOutcome(d, LenientRun(text, COMMA, LENIENT_START)),
                      SwapOutcome(d, WithoutLastReturns(StrictParse(text))));
    }
  }

  // ----- records written with a delimiter -----

  /** A cell in quotes if it holds a quote, the delimiter or a line break. */
  function WriteCellWith(cell: string, d: char): string {
    if QUOTE in cell || d in cell || RETURN in cell || NEWLINE in cell then [QUOTE] + DoubleQuotes(cell) + [QUOTE]
    else cell
  }

  function WriteCellsWith(cells: Record, d: char): string {
    if cells == [] then []
    else if |cells| == 1 then WriteCellWith(cells[0], d)
    else WriteCellWith(cells[0], d) + [d] + WriteCellsWith(cells[1..], d)
  }

  function WriteWith(records: seq<Record>, d: char): string {
    if records == [] then [] else WriteCellsWith(records[0], d) + [NEWLINE] + WriteWith(records[1..], d)
  }

  lemma SwapConcat(d: char, a: string, b: string)
    ensures SwapText(d, a + b) == SwapText(d, a) + SwapText(d, b)
  {
  }

  lemma SwapKeeps(d: char, text: string, c: char)
    ensures Swap(d, c) in SwapText(d, text) <==> c in text
  {
    if c in text {
      var i :| 0 <= i < |text| && text[i] == c;
      assert SwapText(d, text)[i] == Swap(d, c);
    }
  }

  lemma {:induction false} SwapDoubled(d: char, cell: string)
    requires Delimits(d)
    ensures SwapText(d, DoubleQuotes(cell)) == DoubleQuotes(SwapText(d, cell))
  {
    if cell == [] {
      assert SwapText(d, []) == [];
    } else {
      var first := if cell[0] == QUOTE then [QUOTE, QUOTE] else [cell[0]];
      SwapDoubled(d, cell[1..]);
      assert SwapText(d, cell)[1..] == SwapText(d, cell[1..]);
      SwapConcat(d, first, DoubleQuotes(cell[1..]));
      assert SwapText(d, first) == if cell[0] == QUOTE then [QUOTE, QUOTE] else [Swap(d, cell[0])];
    }
  }

  lemma SwapCell(d: char, cell: string)
    requires Delimits(d)
    ensures SwapText(d, WriteCellWith(cell, d)) == WriteCell(SwapText(d, cell))
  {
    SwapKeeps(d, cell, QUOTE);
    SwapKeeps(d, cell, RETURN);
    SwapKeeps(d, cell, NEWLINE);
    SwapKeeps(d, cell, d);
    SwapDoubled(d, cell);
    SwapConcat(d, [QUOTE] + DoubleQuotes(cell), [QUOTE]);
    SwapConcat(d, [QUOTE], DoubleQuotes(cell));
    assert SwapText(d, [QUOTE]) == [QUOTE];
  }

  lemma {:induction false} SwapCells(d: char, cells: Record)
    requires Delimits(d)
    ensures SwapText(d, WriteCellsWith(cells, d)) == WriteCells(SwapRecord(d, cells))
  {
    if cells == [] {
      assert SwapText(d, []) == [];
    } else {
      SwapCell(d, cells[0]);
      if |cells| > 1 {
        SwapCells(d, cells[1..]);
        assert SwapRecord(d, cells)[1..] == SwapRecord(d, cells[1..]);
        SwapConcat(d, WriteCellWith(cells[0], d) + [d], WriteCellsWith(cells[1..], d));
        SwapConcat(d, WriteCellWith(cells[0], d), [d]);
        assert SwapText(d, [d]) == [COMMA];
      }
    }
  }

  lemma {:induction false} SwapWritten(d: char, records: seq<Record>)
    requires Delimits(d)
    ensures SwapText(d, WriteWith(records, d)) == WriteTerminated(SwapRecords(d, records), [NEWLINE])
  {
    if records == [] {
      assert SwapText(d, []) == [];
    } else {
      SwapCells(d, records[0]);
      SwapWritten(d, records[1..]);
      assert SwapRecords(d, records)[1..] == SwapRecords(d, records[1..]);
      SwapConcat(d, WriteCellsWith(records[0], d) + [NEWLINE], WriteWith(records[1..], d));
      SwapConcat(d, WriteCellsWith(records[0], d), [NEWLINE]);
      assert SwapText(d, [NEWLINE]) == [NEWLINE];
    }
  }

  lemma SwapLastReturn(d: char, record: Record)
    requires Delimits(d)
    ensures SwapRecord(d, DropLastReturn(SwapRecord(d, record))) == DropLastReturn(record)
  {
    if record != [] {
      var n := |record| - 1;
      var swapped := SwapRecord(d, record);
      assert swapped[..n] == SwapRecord(d, record[..n]);
      SwapRecordTwice(d, record[..n]);
      SwapDropsReturn(d, record[n]);
      SwapTwice(d, DropReturn(record[n]));
      assert SwapRecord(d, swapped[..n] + [DropReturn(swapped[n])])
          == SwapRecord(d, swapped[..n]) + [SwapText(d, DropReturn(swapped[n]))];
    }
  }

  lemma {:induction false} SwapLastReturns(d: char, records: seq<Record>)
    requires Delimits(d)
    ensures SwapRecords(d, Map(DropLastReturn, SwapRecords(d, records))) == Map(DropLastReturn, records)
  {
    forall i | 0 <= i < |records|
      ensures SwapRecord(d, DropLastReturn(SwapRecord(d, records[i]))) == DropLastReturn(records[i])
    {
      SwapLastReturn(d, records[i]);
    }
  }

  /** Records written with a delimiter and read with it come back, up to blank ones and trailing returns. */
  lemma {:induction false} DelimitedRoundTrip(records: seq<Record>, d: char)
    requires Delimits(d) && NonEmptyRecords(records)
    ensures LenientParse(WriteWith(records, d), d) == Accepted(Filter(HasText, Map(DropLastReturn, records)))
  {
    var source, swapped := WriteWith(records, d), SwapRecords(d, records);
    SwapWritten(d, records);
    forall r | r in swapped ensures r != [] {
      var i :| 0 <= i < |swapped| && swapped[i] == r;
      assert records[i] in records;
    }
    RoundTrip(swapped);
    StrictRejectsTextAfterQuote(SwapText(d, source));
    AnyDelimiterIff(source, d);
    SwapLastReturns(d, records);
  }

  // ----- the delimiter of a statement -----

  function Count(text: string, c: char): nat {
    if text == [] then 0 else (if text[0] == c then 1 else 0) + Count(text[1..], c)
  }

  /** What stands before the first line break. */
  function FirstLine(source: string): string {
    if source == [] || source[0] == NEWLINE then []
    else if source[0] == RETURN && |source| > 1 && source[1] == NEWLINE then []
    else [source[0]] + FirstLine(source[1..])
  }

  function ChooseDelimiter(source: string): char {
    var line := FirstLine(source);
    var sorted := Sort(CANDIDATES, (a: char, b: char) => Count(line, a) >= Count(line, b));
    if sorted != [] then sorted[0] else COMMA
  }

  /** The most frequent candidate is chosen, and of equally frequent ones the comma, then the tab. */
  lemma {:induction false} ChosenIff(source: string, d: char)
    ensures var line := FirstLine(source);
            var commas, tabs, semicolons := Count(line, ','), Count(line, '\t'), Count(line, ';');
            ChooseDelimiter(source) == d <==>
            || (d == ',' && commas >= tabs && commas >= semicolons)
            || (d == '\t' && tabs > commas && tabs >= semicolons)
            || (d == ';' && semicolons > commas && semicolons > tabs)
  {
    var line := FirstLine(source);
    var le := (a: char, b: char) => Count(line, a) >= Count(line, b);
    assert CANDIDATES[1..] == [TAB, SEMICOLON] && [TAB, SEMICOLON][1..] == [SEMICOLON] && [SEMICOLON][1..] == [];
    assert Insert(TAB, [], le) == [TAB] && Insert(COMMA, [], le) == [COMMA] && Insert(SEMICOLON, [], le) == [SEMICOLON];
    assert Sort([SEMICOLON], le) == [SEMICOLON];
    assert Insert(TAB, [SEMICOLON], le) == if le(TAB, SEMICOLON) then [TAB, SEMICOLON] else [SEMICOLON, TAB];
    assert Sort([TAB, SEMICOLON], le) == Insert(TAB, [SEMICOLON], le);
    assert Sort(CANDIDATES, le) == Insert(COMMA, Sort([TAB, SEMICOLON], le), le);
  }

  /** The rows of a statement, before its columns are looked at. */
  function StatementRows(text: string): Outcome {
    var source := ReadSource(text);
    LenientParse(source, ChooseDelimiter(source))
  }

  /** A cell without quotes, line breaks and candidates. */
  predicate IsPlain(cell: string) {
    forall c :: c in cell ==> c !in {'"', '\n', '\r', ',', '\t', ';', BYTE_ORDER_MARK}
  }

  lemma {:induction false} CountAppend(a: string, b: string, c: char)
    ensures Count(a + b, c) == Count(a, c) + Count(b, c)
  {
    if a == [] {
      assert a + b == b;
    } else {
      assert (a + b)[1..] == a[1..] + b;
      CountAppend(a[1..], b, c);
    }
  }

  lemma {:induction false} CountNone(text: string, c: char)
    requires c !in text
    ensures Count(text, c) == 0
  {
    if text != [] {
      assert text[0] in text && forall x :: x in text[1..] ==> x in text;
      CountNone(text[1..], c);
    }
  }

  lemma {:induction false} FirstLineIs(line: string, rest: string)
    requires NEWLINE !in line && RETURN !in line
    ensures FirstLine(line + [NEWLINE] + rest) == line
  {
    var source := line + [NEWLINE] + rest;
    if line != [] {
      assert line[0] in line && forall c :: c in line[1..] ==> c in line;
      assert source[1..] == line[1..] + [NEWLINE] + rest;
      FirstLineIs(line[1..], rest);
    }
  }

  ghost predicate PlainCells(cells: Record) {
    forall i :: 0 <= i < |cells| ==> IsPlain(cells[i])
  }

  lemma {:induction false} PlainHeader(cells: Record, d: char)
    requires cells != [] && d in CANDIDATES && PlainCells(cells)
    ensures forall c :: c in WriteCellsWith(cells, d) ==> c !in {NEWLINE, RETURN, QUOTE, BYTE_ORDER_MARK}
    ensures forall c | c in CANDIDATES :: Count(WriteCellsWith(cells, d), c) == if c == d then |cells| - 1 else 0
  {
    var first := cells[0];
    forall c | c in CANDIDATES ensures Count(first, c) == 0 {
      CountNone(first, c);
    }
    if |cells| > 1 {
      var rest := WriteCellsWith(cells[1..], d);
      PlainHeader(cells[1..], d);
      forall c | c in CANDIDATES ensures Count(first + [d] + rest, c) == if c == d then |cells| - 1 else 0 {
        CountAppend(first + [d], rest, c);
        CountAppend(first, [d], c);
        assert [d][1..] == [];
      }
    }
  }

  lemma {:induction false} NothingToNormalize(text: string)
    requires RETURN !in text
    ensures NormalizeNewlines(text) == text
  {
    if text != [] {
      assert text[0] in text && forall c :: c in text[1..] ==> c in text;
      NothingToNormalize(text[1..]);
    }
  }

  lemma {:induction false} NoReturnWritten(cells: Record, d: char)
    requires d != RETURN && CellsWithoutReturns(cells)
    ensures RETURN !in WriteCellsWith(cells, d)
  {
    if cells != [] {
      NoReturnDoubled(cells[0]);
      if |cells| > 1 {
        NoReturnWritten(cells[1..], d);
      }
    }
  }

  lemma {:induction false} NoReturnDoubled(cell: string)
    requires RETURN !in cell
    ensures RETURN !in DoubleQuotes(cell)
  {
    if cell != [] {
      assert cell[0] in cell && forall c :: c in cell[1..] ==> c in cell;
      NoReturnDoubled(cell[1..]);
    }
  }

  lemma {:induction false} NoReturnsWritten(records: seq<Record>, d: char)
    requires d != RETURN && WithoutReturns(records)
    ensures RETURN !in WriteWith(records, d)
  {
    if records != [] {
      assert CellsWithoutReturns(records[0]);
      NoReturnWritten(records[0], d);
      assert forall i :: 0 <= i < |records| - 1 ==> records[1..][i] == records[i + 1];
      NoReturnsWritten(records[1..], d);
    }
  }

  lemma {:induction false} HeaderChooses(header: string, rest: string, cells: Record, d: char)
    requires d in {',', '\t', ';'} && |cells| > 1 && PlainCells(cells) && header == WriteCellsWith(cells, d)
    ensures ChooseDelimiter(header + [NEWLINE] + rest) == d
    ensures (header + [NEWLINE] + rest)[0] != BYTE_ORDER_MARK
  {
    assert d in CANDIDATES by {
      assert CANDIDATES[0] == ',' && CANDIDATES[1] == '\t' && CANDIDATES[2] == ';';
    }
    PlainHeader(cells, d);
    FirstLineIs(header, rest);
    ChosenIff(header + [NEWLINE] + rest, d);
    assert header != [] ==> header[0] in header;
  }

  /** A statement written with a comma, tab or semicolon under a plain header of several columns is read with
      that delimiter and gives back its records, blank ones left out. */
  lemma {:induction false} StatementReadBack(records: seq<Record>, d: char)
    requires d in {',', '\t', ';'} && NonEmptyRecords(records) && WithoutReturns(records)
    requires records != [] && |records[0]| > 1 && PlainCells(records[0])
    ensures StatementRows(WriteWith(records, d)) == Accepted(Filter(HasText, records))
  {
    var text := WriteWith(records, d);
    HeaderChooses(WriteCellsWith(records[0], d), WriteWith(records[1..], d), records[0], d);
    NoReturnsWritten(records, d);
    NothingToNormalize(text);
    DelimitedRoundTrip(records, d);
    NoLastReturns(records);
  }
}
