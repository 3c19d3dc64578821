/** The CSV writer of the insight export and the two CSV readers: the strict one behind the
    Buyer PIC directory and the lenient one behind the bank-statement import. All three follow
    section 2 of RFC 4180. A reader is a character loop; the recursive function beside it says
    what the loop computes from any intermediate state. */
module Csv {
  import opened Sorting
  import opened Texts

  type Record = seq<string>

  datatype Outcome =
    | Accepted(records: seq<Record>)
    | TextAfterQuote
    | QuoteInsideCell
    | UnterminatedQuote

  const QUOTE: char := '"'
  const COMMA: char := ','
  const NEWLINE: char := '\n'
  const RETURN: char := '\r'

  // ----- writer -----

  predicate NeedsQuotes(cell: string) {
    QUOTE in cell || COMMA in cell || RETURN in cell || NEWLINE in cell
  }

  function DoubleQuotes(cell: string): string {
    if cell == [] then []
    else (if cell[0] == QUOTE then [QUOTE, QUOTE] else [cell[0]]) + DoubleQuotes(cell[1..])
  }

  function WriteCell(cell: string): string {
    if NeedsQuotes(cell) then [QUOTE] + DoubleQuotes(cell) + [QUOTE] else cell
  }

  function WriteCells(cells: Record): string {
    if cells == [] then []
    else if |cells| == 1 then WriteCell(cells[0])
    else WriteCell(cells[0]) + [COMMA] + WriteCells(cells[1..])
  }

  /** Every record ended by `newline`. */
  function WriteTerminated(records: seq<Record>, newline: string): string {
    if records == [] then [] else WriteCells(records[0]) + newline + WriteTerminated(records[1..], newline)
  }

  /** Records separated by `newline`, none after the last: the export's own layout. */
  function WriteSeparated(records: seq<Record>, newline: string): string {
    if records == [] then []
    else if |records| == 1 then WriteCells(records[0])
    else WriteCells(records[0]) + newline + WriteSeparated(records[1..], newline)
  }

  // ----- strict reader -----

  /** The variables of the strict loop. */
  datatype Strict = Strict(records: seq<Record>, record: Record, cell: string, quoted: bool, afterQuote: bool) {
    function FinishCell(): Strict {
      this.(record := record + [cell], cell := [], afterQuote := false)
    }

    function FinishRecord(): Strict {
      var st := FinishCell();
      st.(records := st.records + [st.record], record := [])
    }
  }

  const STRICT_START := Strict([], [], [], false, false)

  /** What the strict loop returns when `source` is still to be read in state `st`. */
  function StrictRun(source: string, st: Strict): Outcome
    decreases |source|
  {
    if source == [] then
      if st.quoted then UnterminatedQuote
      else if st.record != [] || st.cell != [] || st.afterQuote then Accepted(st.FinishRecord().records)
      else Accepted(st.records)
    else
      var c := source[0];
      if st.quoted then
        if c == QUOTE then
          if |source| > 1 && source[1] == QUOTE then StrictRun(source[2..], st.(cell := st.cell + [QUOTE]))
          else StrictRun(source[1..], st.(quoted := false, afterQuote := true))
        else StrictRun(source[1..], st.(cell := st.cell + [c]))
      else if st.afterQuote then
        if c == COMMA then StrictRun(source[1..], st.FinishCell())
        else if c == NEWLINE then StrictRun(source[1..], st.FinishRecord())
        else TextAfterQuote
      else if c == QUOTE then
        if st.cell != [] then QuoteInsideCell else StrictRun(source[1..], st.(quoted := true))
      else if c == COMMA then StrictRun(source[1..], st.FinishCell())
      else if c == NEWLINE then StrictRun(source[1..], st.FinishRecord())
      else StrictRun(source[1..], st.(cell := st.cell + [c]))
  }

  function StrictParse(source: string): Outcome {
    StrictRun(source, STRICT_START)
  }

  method ParseCsvRecords(source: string) returns (result: Outcome)
    ensures result == StrictParse(source)
  {
    var records: seq<Record> := [];
    var record: Record := [];
    var cell: string := [];
    var quoted, afterQuote := false, false;
    var index := 0;
    while index < |source|
      invariant 0 <= index <= |source|
      invariant StrictRun(source[index..], Strict(records, record, cell, quoted, afterQuote)) == StrictParse(source)
    {
      var character := source[index];
      assert source[index..][1..] == source[index + 1..];
      if quoted {
        if character == QUOTE {
          if index + 1 < |source| && source[index + 1] == QUOTE {
            assert source[index..][2..] == source[index + 2..];
            cell := cell + [QUOTE];
            index := index + 1;
          } else {
            quoted := false;
            afterQuote := true;
          }
        } else {
          cell := cell + [character];
        }
      } else if afterQuote {
        if character == COMMA {
          record, cell, afterQuote := record + [cell], [], false;
        } else if character == NEWLINE {
          record, cell, afterQuote := record + [cell], [], false;
          records, record := records + [record], [];
        } else {
          return TextAfterQuote;
        }
      } else if character == QUOTE {
        if cell != [] {
          return QuoteInsideCell;
        }
        quoted := true;
      } else if character == COMMA {
        record, cell, afterQuote := record + [cell], [], false;
      } else if character == NEWLINE {
        record, cell, afterQuote := record + [cell], [], false;
        records, record := records + [record], [];
      } else {
        cell := cell + [character];
      }
      index := index + 1;
    }
    assert source[index..] == [];
    if quoted {
      return UnterminatedQuote;
    }
    if record != [] || cell != [] || afterQuote {
      record, cell, afterQuote := record + [cell], [], false;
      records, record := records + [record], [];
    }
    return Accepted(records);
  }

  // ----- round trip -----

  /** The strict reader takes the doubled body of a quoted cell back to the cell. */
  lemma {:induction false} StrictReadsQuotedBody(cell: string, rest: string, st: Strict)
    requires st.quoted && !st.afterQuote
    requires rest != [] ==> rest[0] != QUOTE
    ensures StrictRun(DoubleQuotes(cell) + [QUOTE] + rest, st)
         == StrictRun(rest, st.(cell := st.cell + cell, quoted := false, afterQuote := true))
    decreases |cell|
  {
    var text := DoubleQuotes(cell) + [QUOTE] + rest;
    if cell == [] {
      assert text == [QUOTE] + rest;
      assert st.cell + cell == st.cell;
    } else {
      var tail := DoubleQuotes(cell[1..]) + [QUOTE] + rest;
      if cell[0] == QUOTE {
        assert text == [QUOTE, QUOTE] + tail;
      } else {
        assert text == [cell[0]] + tail;
      }
      StrictReadsQuotedBody(cell[1..], rest, st.(cell := st.cell + [cell[0]]));
      assert st.cell + [cell[0]] + cell[1..] == st.cell + cell;
    }
  }

  lemma {:induction false} StrictReadsPlainCell(cell: string, rest: string, st: Strict)
    requires !st.quoted && !st.afterQuote
    requires !NeedsQuotes(cell)
    ensures StrictRun(cell + rest, st) == StrictRun(rest, st.(cell := st.cell + cell))
    decreases |cell|
  {
    if cell == [] {
      assert cell + rest == rest;
      assert st.cell + cell == st.cell;
    } else {
      assert cell[0] in cell;
      assert cell + rest == [cell[0]] + (cell[1..] + rest);
      StrictReadsPlainCell(cell[1..], rest, st.(cell := st.cell + [cell[0]]));
      assert st.cell + [cell[0]] + cell[1..] == st.cell + cell;
    }
  }

  /** A written cell is read back as itself, up to the delimiter that follows it. */
  lemma {:induction false} StrictReadsCell(cell: string, rest: string, st: Strict)
    requires !st.quoted && !st.afterQuote && st.cell == []
    requires rest != [] ==> rest[0] != QUOTE
    ensures StrictRun(WriteCell(cell) + rest, st)
         == StrictRun(rest, st.(cell := cell, afterQuote := NeedsQuotes(cell)))
  {
    if NeedsQuotes(cell) {
      assert WriteCell(cell) + rest == [QUOTE] + (DoubleQuotes(cell) + [QUOTE] + rest);
      StrictReadsQuotedBody(cell, rest, st.(quoted := true));
      assert [] + cell == cell;
    } else {
      StrictReadsPlainCell(cell, rest, st);
      assert [] + cell == cell;
    }
  }

  lemma {:induction false} StrictReadsDelimiter(rest: string, st: Strict)
    requires !st.quoted
    ensures StrictRun([COMMA] + rest, st) == StrictRun(rest, st.FinishCell())
    ensures StrictRun([NEWLINE] + rest, st) == StrictRun(rest, st.FinishRecord())
  {
    assert ([COMMA] + rest)[1..] == rest;
    assert ([NEWLINE] + rest)[1..] == rest;
  }

  lemma {:induction false} StrictReadsCellThenComma(cell: string, rest: string, st: Strict)
    requires !st.quoted && !st.afterQuote && st.cell == []
    ensures StrictRun(WriteCell(cell) + [COMMA] + rest, st)
         == StrictRun(rest, Strict(st.records, st.record + [cell], [], false, false))
  {
    var reached := st.(cell := cell, afterQuote := NeedsQuotes(cell));
    var after := [COMMA] + rest;
    assert WriteCell(cell) + [COMMA] + rest == WriteCell(cell) + after;
    assert StrictRun(WriteCell(cell) + after, st) == StrictRun(after, reached) by { StrictReadsCell(cell, after, st); }
    assert StrictRun(after, reached) == StrictRun(rest,
        reached.FinishCell()) by { StrictReadsDelimiter(rest, reached); }
  }

  lemma {:induction false} StrictReadsCellThenNewline(cell: string, rest: string, st: Strict)
    requires !st.quoted && !st.afterQuote && st.cell == []
    ensures StrictRun(WriteCell(cell) + [NEWLINE] + rest, st)
         == StrictRun(rest, Strict(st.records + [st.record + [cell]], [], [], false, false))
  {
    var reached := st.(cell := cell, afterQuote := NeedsQuotes(cell));
    var after := [NEWLINE] + rest;
    assert WriteCell(cell) + [NEWLINE] + rest == WriteCell(cell) + after;
    assert StrictRun(WriteCell(cell) + after, st) == StrictRun(after, reached) by { StrictReadsCell(cell, after, st); }
    assert StrictRun(after, reached) == StrictRun(rest,
        reached.FinishRecord()) by { StrictReadsDelimiter(rest, reached); }
  }

  lemma {:induction false} StrictReadsRecord(cells: Record, rest: string, st: Strict)
    requires cells != []
    requires !st.quoted && !st.afterQuote && st.cell == []
    ensures StrictRun(WriteCells(cells) + [NEWLINE] + rest, st)
         == StrictRun(rest, Strict(st.records + [st.record + cells], [], [], false, false))
    decreases |cells|
  {
    if |cells| == 1 {
      assert cells == [cells[0]];
      StrictReadsCellThenNewline(cells[0], rest, st);
    } else {
      var after := WriteCells(cells[1..]) + [NEWLINE] + rest;
      var next := Strict(st.records, st.record + [cells[0]], [], false, false);
      assert WriteCells(cells) + [NEWLINE] + rest == WriteCell(cells[0]) + [COMMA] + after;
      StrictReadsCellThenComma(cells[0], after, st);
      StrictReadsRecord(cells[1..], rest, next);
      assert next.record + cells[1..] == st.record + cells;
    }
  }

  ghost predicate NonEmptyRecords(records: seq<Record>) {
    forall r :: r in records ==> r != []
  }

  lemma {:induction false} StrictReadsRecords(records: seq<Record>, rest: string, before: seq<Record>)
    requires NonEmptyRecords(records)
    ensures StrictRun(WriteTerminated(records, [NEWLINE]) + rest, Strict(before, [], [], false, false))
         == StrictRun(rest, Strict(before + records, [], [], false, false))
    decreases |records|
  {
    if records == [] {
      assert WriteTerminated(records, [NEWLINE]) + rest == rest;
      assert before + records == before;
    } else {
      var st := Strict(before, [], [], false, false);
      var first, others := records[0], records[1..];
      var tail := WriteTerminated(others, [NEWLINE]) + rest;
      assert first in records && forall r :: r in others ==> r in records;
      Regroup(WriteCells(first) + [NEWLINE], WriteTerminated(others, [NEWLINE]), rest);
      StrictReadsRecord(first, tail, st);
      assert [] + first == first;
      StrictReadsRecords(others, rest, before + [first]);
      Regroup(before, [first], others);
      assert [first] + others == records;
    }
  }

  /** Writing any non-empty records and reading them back is the identity. */
  lemma {:induction false} RoundTrip(records: seq<Record>)
    requires NonEmptyRecords(records)
    ensures StrictParse(WriteTerminated(records, [NEWLINE])) == Accepted(records)
  {
    StrictReadsRecords(records, [], []);
    assert WriteTerminated(records, [NEWLINE]) + [] == WriteTerminated(records, [NEWLINE]);
    assert [] + records == records;
  }

  lemma {:induction false} StrictRecordsAreNonEmpty(source: string, st: Strict)
    requires NonEmptyRecords(st.records)
    requires StrictRun(source, st).Accepted?
    ensures NonEmptyRecords(StrictRun(source, st).records)
    decreases |source|
  {
    if source != [] {
      var c := source[0];
      if st.quoted {
        if c == QUOTE {
          if |source| > 1 && source[1] == QUOTE {
            StrictRecordsAreNonEmpty(source[2..], st.(cell := st.cell + [QUOTE]));
          } else {
            StrictRecordsAreNonEmpty(source[1..], st.(quoted := false, afterQuote := true));
          }
        } else {
          StrictRecordsAreNonEmpty(source[1..], st.(cell := st.cell + [c]));
        }
      } else if c == COMMA {
        StrictRecordsAreNonEmpty(source[1..], st.FinishCell());
      } else if c == NEWLINE {
        StrictRecordsAreNonEmpty(source[1..], st.FinishRecord());
      } else if c == QUOTE {
        StrictRecordsAreNonEmpty(source[1..], st.(quoted := true));
      } else {
        StrictRecordsAreNonEmpty(source[1..], st.(cell := st.cell + [c]));
      }
    }
  }

  /** Rewriting an accepted source loses nothing: the rewritten text reads as the same records. */
  lemma Normalizes(source: string)
    requires StrictParse(source).Accepted?
    ensures StrictParse(WriteTerminated(StrictParse(source).records, [NEWLINE])) == StrictParse(source)
  {
    StrictRecordsAreNonEmpty(source, STRICT_START);
    RoundTrip(StrictParse(source).records);
  }

  // ----- lenient reader -----

  /** The variables of the lenient loop. */
  datatype Lenient = Lenient(rows: seq<Record>, row: Record, cell: string, quoted: bool) {
    function FinishCell(): Lenient {
      this.(row := row + [cell], cell := [])
    }

    function FinishRow(): Lenient {
      this.(rows := rows + [row + [DropReturn(cell)]], row := [], cell := [])
    }
  }

  const LENIENT_START := Lenient([], [], [], false)

  function DropReturn(cell: string): string {
    if cell != [] && cell[|cell| - 1] == RETURN then cell[..|cell| - 1] else cell
  }

  predicate HasText(row: Record) {
    exists i, j :: 0 <= i < |row| && 0 <= j < |row[i]| && !IsSpace(row[i][j])
  }

  /** The rows the lenient loop collects when `source` is still to be read in state `st`. */
  function LenientRun(source: string, delimiter: char, st: Lenient): Outcome
    decreases |source|
  {
    if source == [] then
      if st.quoted then UnterminatedQuote
      else Accepted((if st.cell != [] || st.row != [] then st.FinishRow() else st).rows)
    else
      var c := source[0];
      if st.quoted then
        if c == QUOTE && |source| > 1 && source[1] == QUOTE then
          LenientRun(source[2..], delimiter, st.(cell := st.cell + [QUOTE]))
        else if c == QUOTE then LenientRun(source[1..], delimiter, st.(quoted := false))
        else LenientRun(source[1..], delimiter, st.(cell := st.cell + [c]))
      else if c == QUOTE then
        if st.cell != [] then QuoteInsideCell else LenientRun(source[1..], delimiter, st.(quoted := true))
      else if c == delimiter then LenientRun(source[1..], delimiter, st.FinishCell())
      else if c == NEWLINE then LenientRun(source[1..], delimiter, st.FinishRow())
      else LenientRun(source[1..], delimiter, st.(cell := st.cell + [c]))
  }

  /** Blank rows are left out in the end. */
  function NonBlank(outcome: Outcome): Outcome {
    if outcome.Accepted? then Accepted(Filter(HasText, outcome.records)) else outcome
  }

  function LenientParse(source: string, delimiter: char): Outcome {
    NonBlank(LenientRun(source, delimiter, LENIENT_START))
  }

  method ParseDelimited(source: string, delimiter: char) returns (result: Outcome)
    ensures result == LenientParse(source, delimiter)
  {
    var rows: seq<Record> := [];
    var row: Record := [];
    var cell: string := [];
    var quoted := false;
    var index := 0;
    while index < |source|
      invariant 0 <= index <= |source|
      invariant LenientRun(source[index..], delimiter, Lenient(rows, row, cell, quoted))
                == LenientRun(source, delimiter, LENIENT_START)
    {
      var character := source[index];
      assert source[index..][1..] == source[index + 1..];
      if quoted {
        if character == QUOTE && index + 1 < |source| && source[index + 1] == QUOTE {
          assert source[index..][2..] == source[index + 2..];
          cell := cell + [QUOTE];
          index := index + 1;
        } else if character == QUOTE {
          quoted := false;
        } else {
          cell := cell + [character];
        }
      } else if character == QUOTE {
        if cell != [] {
          return QuoteInsideCell;
        }
        quoted := true;
      } else if character == delimiter {
        row, cell := row + [cell], [];
      } else if character == NEWLINE {
        row := row + [DropReturn(cell)];
        rows, row, cell := rows + [row], [], [];
      } else {
        cell := cell + [character];
      }
      index := index + 1;
    }
    assert source[index..] == [];
    if quoted {
      return UnterminatedQuote;
    }
    if cell != [] || row != [] {
      row := row + [DropReturn(cell)];
      rows := rows + [row];
    }
    return Accepted(Filter(HasText, rows));
  }

  // ----- the two readers agree -----

  function DropLastReturn(record: Record): Record {
    if record == [] then [] else record[..|record| - 1] + [DropReturn(record[|record| - 1])]
  }

  function WithoutLastReturns(outcome: Outcome): Outcome {
    if outcome.Accepted? then Accepted(Map(DropLastReturn, outcome.records)) else outcome
  }

  /** The lenient result that a strict result stands for. */
  function Relaxed(outcome: Outcome): Outcome {
    NonBlank(WithoutLastReturns(outcome))
  }

  /** The lenient state that simulates a strict one: it forgets that a quote was just closed. */
  function Simulating(st: Strict): Lenient {
    Lenient(Map(DropLastReturn, st.records), st.record, st.cell, st.quoted)
  }

  lemma FinishRecordSimulates(st: Strict)
    ensures Simulating(st.FinishRecord()) == Simulating(st.(afterQuote := false)).FinishRow()
  {
    var record := st.record + [st.cell];
    assert record[..|record| - 1] == st.record;
    assert Map(DropLastReturn, st.records + [record]) == Map(DropLastReturn, st.records) + [DropLastReturn(record)];
  }

  const BLANK: Record := [[]]

  /** The same result; only a closing empty quoted cell is a record to the strict reader alone. */
  predicate Mirrors(lenient: Outcome, strict: Outcome) {
    if lenient.Accepted? && strict.Accepted?
    then lenient.records == strict.records || lenient.records + [BLANK] == strict.records
    else lenient == strict
  }

  lemma {:induction false} StepwiseAgreement(source: string, st: Strict)
    requires st.afterQuote ==> !st.quoted
    requires !StrictRun(source, st).TextAfterQuote?
    ensures Mirrors(LenientRun(source, COMMA, Simulating(st)), WithoutLastReturns(StrictRun(source, st)))
    decreases |source|
  {
    if source == [] {
      if !st.quoted {
        FinishRecordSimulates(st);
        if st.record == [] && st.cell == [] && st.afterQuote {
          // A closing empty quoted cell.
          assert st.FinishRecord().records == st.records + [BLANK];
          assert Map(DropLastReturn, st.records + [BLANK]) == Map(DropLastReturn, st.records) + [BLANK];
        }
      }
    } else {
      var c := source[0];
      if st.quoted {
        if c == QUOTE {
          if |source| > 1 && source[1] == QUOTE {
            StepwiseAgreement(source[2..], st.(cell := st.cell + [QUOTE]));
          } else {
            StepwiseAgreement(source[1..], st.(quoted := false, afterQuote := true));
          }
        } else {
          StepwiseAgreement(source[1..], st.(cell := st.cell + [c]));
        }
      } else if c == COMMA {
        StepwiseAgreement(source[1..], st.FinishCell());
      } else if c == NEWLINE {
        FinishRecordSimulates(st);
        StepwiseAgreement(source[1..], st.FinishRecord());
      } else if c == QUOTE {
        if st.cell == [] {
          StepwiseAgreement(source[1..], st.(quoted := true));
        }
      } else {
        StepwiseAgreement(source[1..], st.(cell := st.cell + [c]));
      }
    }
  }

  lemma MirrorsKeepText(lenient: Outcome, strict: Outcome)
    requires Mirrors(lenient, strict)
    ensures NonBlank(lenient) == NonBlank(strict)
  {
    if lenient.Accepted? && strict.Accepted? {
      FilterAppend(HasText, lenient.records, [BLANK]);
      assert Filter(HasText, [BLANK]) == [];
    }
  }

  /** On every source whose quoted cells are properly closed off, the lenient reader returns what
      the strict one returns, with a carriage return dropped from the end of each record and blank
      records removed; it rejects the same sources for the same reason. */
  lemma ReadersAgree(source: string)
    requires !StrictParse(source).TextAfterQuote?
    ensures LenientParse(source, COMMA) == Relaxed(StrictParse(source))
  {
    assert Map(DropLastReturn, []) == [];
    StepwiseAgreement(source, STRICT_START);
    MirrorsKeepText(LenientRun(source, COMMA, LENIENT_START), WithoutLastReturns(StrictParse(source)));
  }

  ghost predicate WithoutReturns(records: seq<Record>) {
    forall i, j :: 0 <= i < |records| && 0 <= j < |records[i]| ==> RETURN !in records[i][j]
  }

  ghost predicate CellsWithoutReturns(record: Record) {
    forall j :: 0 <= j < |record| ==> RETURN !in record[j]
  }

  lemma {:induction false} StrictInventsNoReturns(source: string, st: Strict)
    requires RETURN !in source && RETURN !in st.cell
    requires WithoutReturns(st.records) && CellsWithoutReturns(st.record)
    requires StrictRun(source, st).Accepted?
    ensures WithoutReturns(StrictRun(source, st).records)
    decreases |source|
  {
    if source != [] {
      var c := source[0];
      assert c in source;
      assert forall d :: d in source[1..] ==> d in source;
      if st.quoted {
        if c == QUOTE {
          if |source| > 1 && source[1] == QUOTE {
            assert forall d :: d in source[2..] ==> d in source;
            StrictInventsNoReturns(source[2..], st.(cell := st.cell + [QUOTE]));
          } else {
            StrictInventsNoReturns(source[1..], st.(quoted := false, afterQuote := true));
          }
        } else {
          StrictInventsNoReturns(source[1..], st.(cell := st.cell + [c]));
        }
      } else if c == COMMA {
        StrictInventsNoReturns(source[1..], st.FinishCell());
      } else if c == NEWLINE {
        StrictInventsNoReturns(source[1..], st.FinishRecord());
      } else if c == QUOTE {
        StrictInventsNoReturns(source[1..], st.(quoted := true));
      } else {
        StrictInventsNoReturns(source[1..], st.(cell := st.cell + [c]));
      }
    }
  }

  lemma {:induction false} NoLastReturns(records: seq<Record>)
    requires WithoutReturns(records)
    ensures Map(DropLastReturn, records) == records
  {
    forall i | 0 <= i < |records| ensures DropLastReturn(records[i]) == records[i] {
      var record := records[i];
      if record != [] {
        var last := record[|record| - 1];
        assert last != [] ==> last[|last| - 1] in last;
      }
    }
  }

  /** Without carriage returns in the source, the only difference left is the blank records. */
  lemma ReadersAgreeWithoutReturns(source: string)
    requires RETURN !in source
    requires StrictParse(source).Accepted?
    ensures LenientParse(source, COMMA) == Accepted(Filter(HasText, StrictParse(source).records))
  {
    ReadersAgree(source);
    StrictInventsNoReturns(source, STRICT_START);
    NoLastReturns(StrictParse(source).records);
  }

  // ----- where the two readers disagree -----

  function QuotesIn(text: string): nat {
    if text == [] then 0 else QuotesIn(text[..|text| - 1]) + if text[|text| - 1] == QUOTE then 1 else 0
  }

  /** Position `i` lies outside quotes: an even number of quotes comes before it. */
  predicate Outside(source: string, i: nat)
    requires i <= |source|
  {
    QuotesIn(source[..i]) % 2 == 0
  }

  /** Right behind a closing quote stands something else than a comma, a line break or a quote. */
  predicate TextBehindQuote(source: string, i: nat) {
    0 < i < |source| && Outside(source, i) && source[i - 1] == QUOTE && source[i] !in {COMMA, NEWLINE, QUOTE}
  }

  /** A quote stands inside a cell that did not start with one. */
  predicate QuoteInCell(source: string, i: nat) {
    0 < i < |source| && Outside(source, i) && source[i] == QUOTE && source[i - 1] !in {COMMA, NEWLINE, QUOTE}
  }

  /** Some closing quote is followed by text, and no quote inside a plain cell comes before. */
  predicate TextAfterClosingQuote(source: string) {
    exists i :: 0 < i < |source| && TextBehindQuote(source, i) && forall j :: 0 < j < i ==> !QuoteInCell(source, j)
  }

  lemma QuotesStep(source: string, i: nat)
    requires i < |source|
    ensures QuotesIn(source[..i + 1]) == QuotesIn(source[..i]) + if source[i] == QUOTE then 1 else 0
  {
    assert source[..i + 1][..i] == source[..i];
  }

  /** The state of the strict loop at position `i`, read off the text, with no error so far. */
  ghost predicate ReadSoFar(source: string, i: nat, st: Strict)
    requires i <= |source|
  {
    && (st.quoted <==> !Outside(source, i))
    && (st.afterQuote <==> Outside(source, i) && i > 0 && source[i - 1] == QUOTE)
    && (st.afterQuote && i < |source| ==> source[i] != QUOTE)
    && (Outside(source, i) && !st.afterQuote ==> (st.cell != [] <==> i > 0 && source[i - 1] !in {COMMA, NEWLINE}))
    && (forall k: nat :: k < i ==> !TextBehindQuote(source, k) && !QuoteInCell(source, k))
  }

  /** One step inside a quoted cell. */
  lemma QuotedStep(source: string, i: nat, st: Strict) returns (n: nat, next: Strict)
    requires i < |source| && ReadSoFar(source, i, st) && st.quoted
    ensures i < n <= |source| && ReadSoFar(source, n, next)
            && StrictRun(source[i..], st) == StrictRun(source[n..], next)
  {
    var c := source[i];
    assert source[i..][0] == c && source[i..][1..] == source[i + 1..];
    QuotesStep(source, i);
    if c == QUOTE && i + 1 < |source| && source[i + 1] == QUOTE {
      QuotesStep(source, i + 1);
      assert source[i..][1] == QUOTE && source[i..][2..] == source[i + 2..];
      n, next := i + 2, st.(cell := st.cell + [QUOTE]);
    } else if c == QUOTE {
      n, next := i + 1, st.(quoted := false, afterQuote := true);
    } else {
      n, next := i + 1, st.(cell := st.cell + [c]);
    }
  }

  /** One step outside, if the reader does not stop there. */
  lemma PlainStep(source: string, i: nat, st: Strict) returns (next: Strict)
    requires i < |source| && ReadSoFar(source, i, st) && !st.quoted
    requires !TextBehindQuote(source, i) && !QuoteInCell(source, i)
    ensures ReadSoFar(source, i + 1, next) && StrictRun(source[i..], st) == StrictRun(source[i + 1..], next)
  {
    var c := source[i];
    assert source[i..][0] == c && source[i..][1..] == source[i + 1..];
    QuotesStep(source, i);
    next := if c == COMMA then st.FinishCell() else if c == NEWLINE then st.FinishRecord()
            else if c == QUOTE then st.(quoted := true) else st.(cell := st.cell + [c]);
  }

  /** Where the reader stops. */
  lemma {:induction false} StrictStops(source: string, i: nat, st: Strict)
    requires i < |source| && ReadSoFar(source, i, st) && !st.quoted
    ensures TextBehindQuote(source, i) ==> StrictRun(source[i..], st) == TextAfterQuote
    ensures QuoteInCell(source, i) ==> StrictRun(source[i..], st) == QuoteInsideCell
  {
    assert source[i..][0] == source[i];
  }

  lemma {:induction false} StrictScan(source: string, i: nat, st: Strict)
    requires i <= |source| && ReadSoFar(source, i, st)
    ensures StrictRun(source[i..], st).TextAfterQuote? <==> TextAfterClosingQuote(source)
    decreases |source| - i
  {
    if i < |source| {
      if st.quoted {
        var n, next := QuotedStep(source, i, st);
        StrictScan(source, n, next);
      } else if TextBehindQuote(source, i) || QuoteInCell(source, i) {
        StrictStops(source, i, st);
      } else {
        var next := PlainStep(source, i, st);
        StrictScan(source, i + 1, next);
      }
    }
  }

  /** The strict reader finds text after a quote exactly where the text itself shows it. */
  lemma StrictRejectsTextAfterQuote(source: string)
    ensures StrictParse(source).TextAfterQuote? <==> TextAfterClosingQuote(source)
  {
    assert source[..0] == [] && source[0..] == source;
    StrictScan(source, 0, STRICT_START);
  }

  lemma {:induction false} LenientKeepsTextAfterQuote(source: string, delimiter: char, st: Lenient)
    ensures !LenientRun(source, delimiter, st).TextAfterQuote?
    decreases |source|
  {
    if source != [] {
      var c := source[0];
      if st.quoted && c == QUOTE && |source| > 1 && source[1] == QUOTE {
        LenientKeepsTextAfterQuote(source[2..], delimiter, st.(cell := st.cell + [QUOTE]));
      } else if st.quoted && c == QUOTE {
        LenientKeepsTextAfterQuote(source[1..], delimiter, st.(quoted := false));
      } else if st.quoted || (c != QUOTE && c != delimiter && c != NEWLINE) {
        LenientKeepsTextAfterQuote(source[1..], delimiter, st.(cell := st.cell + [c]));
      } else if c == QUOTE {
        if st.cell == [] {
          LenientKeepsTextAfterQuote(source[1..], delimiter, st.(quoted := true));
        }
      } else if c == delimiter {
        LenientKeepsTextAfterQuote(source[1..], delimiter, st.FinishCell());
      } else {
        LenientKeepsTextAfterQuote(source[1..], delimiter, st.FinishRow());
      }
    }
  }

  /** The lenient reader returns what the strict one returns, with a carriage return dropped from the
      end of each record and blank records removed, and rejects the same sources for the same reason,
      exactly for the sources without text after a closing quote. */
  lemma ReadersAgreeIff(source: string)
    ensures LenientParse(source, COMMA) == Relaxed(StrictParse(source)) <==> !TextAfterClosingQuote(source)
  {
    StrictRejectsTextAfterQuote(source);
    LenientKeepsTextAfterQuote(source, COMMA, LENIENT_START);
    if !TextAfterClosingQuote(source) {
      ReadersAgree(source);
    }
  }

  /** The shortest such source: only the strict reader rejects it. */
  lemma ReadersDisagreeOnTextAfterQuote()
    ensures StrictParse("\"a\"b") == TextAfterQuote
    ensures LenientParse("\"a\"b", COMMA) == Accepted([["ab"]])
  {
    var source := "\"a\"b";
    assert source[1..] == "a\"b" && "a\"b"[1..] == "\"b" && "\"b"[1..] == "b" && "b"[1..] == "";
    var a: string, ab: string := [] + ['a'], [] + ['a'] + ['b'];
    assert a == "a" && ab == "ab";
    var strict := STRICT_START.(quoted := true);
    assert StrictRun("a\"b", strict) == StrictRun("\"b", strict.(cell := a));
    var lenient := LENIENT_START.(quoted := true);
    assert LenientRun(source, COMMA, LENIENT_START) == LenientRun("a\"b", COMMA, lenient);
    assert LenientRun("a\"b", COMMA, lenient) == LenientRun("\"b", COMMA, lenient.(cell := a));
    assert LenientRun("\"b", COMMA, lenient.(cell := a)) == LenientRun("b", COMMA, LENIENT_START.(cell := a));
    assert LenientRun("b", COMMA, LENIENT_START.(cell := a)) == LenientRun("", COMMA, LENIENT_START.(cell := ab));
    var row: Record := ["ab"];
    assert [] + [DropReturn(ab)] == row && [] + [row] == [row];
    assert !IsSpace(row[0][0]);
    assert HasText(row);
    assert Filter(HasText, [row]) == [row];
  }

  // ----- files: byte order mark and line breaks -----

  const BYTE_ORDER_MARK: char := '\U{FEFF}'

  /** The characters one step of the normalization takes. */
  function Step(text: string): (n: nat)
    requires text != []
    ensures 1 <= n <= |text|
  {
    if text[0] == RETURN && |text| > 1 && text[1] == NEWLINE then 2 else 1
  }

  /** Carriage returns, alone or before a line feed, become line feeds. */
  function NormalizeNewlines(text: string): string {
    if text == [] then []
    else [if text[0] == RETURN then NEWLINE else text[0]] + NormalizeNewlines(text[Step(text)..])
  }

  /** What the directory import reads records from. */
  function ReadSource(text: string): string {
    NormalizeNewlines(if text != [] && text[0] == BYTE_ORDER_MARK then text[1..] else text)
  }

  /** The layout of the insight export: nothing ends its last record. */
  function WriteExport(records: seq<Record>): string {
    [BYTE_ORDER_MARK] + WriteSeparated(records, [RETURN, NEWLINE])
  }

  /** The layout of the directory's own file: every record is ended. */
  function WriteFile(records: seq<Record>): string {
    [BYTE_ORDER_MARK] + WriteTerminated(records, [RETURN, NEWLINE])
  }

  predicate EndsInReturn(text: string) {
    text != [] && text[|text| - 1] == RETURN
  }

  lemma {:induction false} NormalizeConcat(a: string, b: string)
    requires EndsInReturn(a) && b != [] ==> b[0] != NEWLINE
    ensures NormalizeNewlines(a + b) == NormalizeNewlines(a) + NormalizeNewlines(b)
    decreases |a|
  {
    if a == [] {
      assert a + b == b;
    } else {
      var n := Step(a);
      assert Step(a + b) == n;
      assert (a + b)[n..] == a[n..] + b;
      NormalizeConcat(a[n..], b);
    }
  }

  lemma {:induction false} NormalizeKeepsMarks(cell: string)
    ensures NeedsQuotes(NormalizeNewlines(cell)) == NeedsQuotes(cell)
    ensures !NeedsQuotes(cell) ==> NormalizeNewlines(cell) == cell
    decreases |cell|
  {
    if cell != [] {
      var n := Step(cell);
      NormalizeKeepsMarks(cell[n..]);
      assert cell == cell[..n] + cell[n..];
    }
  }

  lemma {:induction false} DoubleQuotesConcat(a: string, b: string)
    ensures DoubleQuotes(a + b) == DoubleQuotes(a) + DoubleQuotes(b)
  {
    if a == [] {
      assert a + b == b;
    } else {
      assert (a + b)[1..] == a[1..] + b;
      DoubleQuotesConcat(a[1..], b);
    }
  }

  lemma NormalizeLineBreak()
    ensures NormalizeNewlines([RETURN, NEWLINE]) == [NEWLINE]
  {
    assert [RETURN, NEWLINE][2..] == [];
  }

  lemma NormalizeCharacter(c: char)
    ensures NormalizeNewlines([c]) == [if c == RETURN then NEWLINE else c]
  {
    assert [c][1..] == [];
  }

  lemma DoubleCharacter(c: char)
    ensures DoubleQuotes([c]) == if c == QUOTE then [QUOTE, QUOTE] else [c]
  {
    assert [c][1..] == [];
  }

  lemma {:induction false} DoubledHead(head: string)
    requires |head| == 1 || head == [RETURN, NEWLINE]
    ensures NormalizeNewlines(DoubleQuotes(head)) == DoubleQuotes(NormalizeNewlines(head))
    ensures head[0] == RETURN ==> DoubleQuotes(head) == head
    ensures !EndsInReturn(head) ==> !EndsInReturn(DoubleQuotes(head))
  {
    if |head| == 1 {
      assert head == [head[0]];
      DoubledOne(head[0]);
    } else {
      DoubledBreak();
    }
  }

  lemma DoubledOne(c: char)
    ensures NormalizeNewlines(DoubleQuotes([c])) == DoubleQuotes(NormalizeNewlines([c]))
    ensures DoubleQuotes([c]) == if c == QUOTE then [QUOTE, QUOTE] else [c]
  {
    DoubleCharacter(c);
    NormalizeCharacter(c);
    DoubleCharacter(NEWLINE);
    if c == QUOTE {
      NormalizeConcat([QUOTE], [QUOTE]);
      assert [QUOTE] + [QUOTE] == [QUOTE, QUOTE];
    }
  }

  lemma DoubledBreak()
    ensures DoubleQuotes([RETURN, NEWLINE]) == [RETURN, NEWLINE]
    ensures NormalizeNewlines([RETURN, NEWLINE]) == [NEWLINE] == DoubleQuotes([NEWLINE])
  {
    NormalizeLineBreak();
    DoubleCharacter(RETURN);
    DoubleCharacter(NEWLINE);
    DoubleQuotesConcat([RETURN], [NEWLINE]);
    assert [RETURN] + [NEWLINE] == [RETURN, NEWLINE];
  }

  lemma {:induction false} NormalizeDoubledQuotes(cell: string)
    ensures NormalizeNewlines(DoubleQuotes(cell)) == DoubleQuotes(NormalizeNewlines(cell))
    decreases |cell|
  {
    if cell != [] {
      var head, tail := cell[..Step(cell)], cell[Step(cell)..];
      assert cell == head + tail;
      NormalizeDoubledQuotes(tail);
      DoubledHead(head);
      DoubleQuotesConcat(head, tail);
      NormalizeConcat(head, tail);
      NormalizeConcat(DoubleQuotes(head), DoubleQuotes(tail));
      DoubleQuotesConcat(NormalizeNewlines(head), NormalizeNewlines(tail));
    }
  }

  /** A separator never merges with what stands before it, unless that ends in a carriage return. */
  lemma {:induction false} NormalizeJoined(a: string, separator: string, b: string)
    requires !EndsInReturn(a)
    requires separator == [COMMA] || separator == [RETURN, NEWLINE]
    ensures NormalizeNewlines(a + separator + b)
         == NormalizeNewlines(a) + (if separator == [COMMA] then [COMMA] else [NEWLINE]) + NormalizeNewlines(b)
  {
    NormalizeCharacter(COMMA);
    NormalizeLineBreak();
    NormalizeConcat(a + separator, b);
    NormalizeConcat(a, separator);
  }

  lemma {:induction false} NormalizeQuoted(body: string)
    ensures NormalizeNewlines([QUOTE] + body + [QUOTE]) == [QUOTE] + NormalizeNewlines(body) + [QUOTE]
  {
    NormalizeCharacter(QUOTE);
    NormalizeConcat([QUOTE], body);
    NormalizeConcat([QUOTE] + body, [QUOTE]);
  }

  lemma {:induction false} NormalizeWrittenCell(cell: string)
    ensures NormalizeNewlines(WriteCell(cell)) == WriteCell(NormalizeNewlines(cell))
    ensures !EndsInReturn(WriteCell(cell))
  {
    NormalizeKeepsMarks(cell);
    if NeedsQuotes(cell) {
      NormalizeDoubledQuotes(cell);
      NormalizeQuoted(DoubleQuotes(cell));
    } else if cell != [] {
      assert cell[|cell| - 1] in cell;
    }
  }

  function NormalizeRecord(record: Record): Record {
    Map(NormalizeNewlines, record)
  }

  lemma {:induction false} TailOfMap<A, B>(f: A -> B, s: seq<A>)
    requires s != []
    ensures Map(f, s) == [f(s[0])] + Map(f, s[1..])
    ensures Map(f, s)[0] == f(s[0]) && Map(f, s)[1..] == Map(f, s[1..])
  {
  }

  lemma {:induction false} NormalizeWrittenCells(cells: Record)
    requires cells != []
    ensures NormalizeNewlines(WriteCells(cells)) == WriteCells(NormalizeRecord(cells))
    ensures !EndsInReturn(WriteCells(cells))
    decreases |cells|
  {
    TailOfMap(NormalizeNewlines, cells);
    NormalizeWrittenCell(cells[0]);
    if |cells| > 1 {
      NormalizeWrittenCells(cells[1..]);
      NormalizeJoined(WriteCell(cells[0]), [COMMA], WriteCells(cells[1..]));
    }
  }

  lemma {:induction false} NormalizeSeparated(records: seq<Record>)
    requires NonEmptyRecords(records)
    ensures NormalizeNewlines(WriteSeparated(records, [RETURN, NEWLINE]))
         == WriteSeparated(Map(NormalizeRecord, records), [NEWLINE])
    decreases |records|
  {
    if records != [] {
      assert records[0] in records;
      TailOfMap(NormalizeRecord, records);
      NormalizeWrittenCells(records[0]);
      if |records| > 1 {
        assert forall r :: r in records[1..] ==> r in records;
        NormalizeSeparated(records[1..]);
        NormalizeJoined(WriteCells(records[0]), [RETURN, NEWLINE], WriteSeparated(records[1..], [RETURN, NEWLINE]));
      }
    }
  }

  /** The last record, which no newline ends, is read unless it is one empty cell. */
  lemma {:induction false} StrictReadsLastCell(cell: string, st: Strict)
    requires !st.quoted && !st.afterQuote && st.cell == []
    ensures StrictRun(WriteCell(cell), st)
         == Accepted(if st.record == [] && cell == [] then st.records else st.records + [st.record + [cell]])
  {
    StrictReadsCell(cell, [], st);
    assert WriteCell(cell) + [] == WriteCell(cell);
  }

  lemma {:induction false} StrictReadsLastRecord(cells: Record, st: Strict)
    requires cells != []
    requires !st.quoted && !st.afterQuote && st.cell == []
    ensures StrictRun(WriteCells(cells), st)
         == Accepted(if st.record == [] && cells == [[]] then st.records else st.records + [st.record + cells])
    decreases |cells|
  {
    if |cells| == 1 {
      StrictReadsLastCell(cells[0], st);
      assert cells == [cells[0]];
    } else {
      var next := Strict(st.records, st.record + [cells[0]], [], false, false);
      StrictReadsCellThenComma(cells[0], WriteCells(cells[1..]), st);
      StrictReadsLastRecord(cells[1..], next);
      assert next.record + cells[1..] == st.record + cells;
    }
  }

  lemma OneEmptyCell(record: Record)
    ensures NormalizeRecord(record) == [[]] <==> record == [[]]
  {
    if |record| == 1 {
      assert record == [record[0]];
      TailOfMap(NormalizeNewlines, record);
    }
  }

  lemma {:induction false} NormalizedRecordsAreNonEmpty(records: seq<Record>)
    requires NonEmptyRecords(records)
    ensures NonEmptyRecords(Map(NormalizeRecord, records))
  {
    var normalized := Map(NormalizeRecord, records);
    forall r | r in normalized ensures r != [] {
      var i :| 0 <= i < |normalized| && normalized[i] == r;
      assert records[i] in records;
    }
  }

  lemma {:induction false} ExportSource(records: seq<Record>)
    requires NonEmptyRecords(records)
    ensures ReadSource(WriteExport(records)) == WriteSeparated(Map(NormalizeRecord, records), [NEWLINE])
  {
    var body := WriteSeparated(records, [RETURN, NEWLINE]);
    assert ([BYTE_ORDER_MARK] + body)[1..] == body;
    NormalizeSeparated(records);
  }

  /** All but a last record that is one empty cell. */
  function Readable(records: seq<Record>): seq<Record> {
    if records != [] && records[|records| - 1] == [[]] then records[..|records| - 1] else records
  }

  lemma {:induction false} NormalizeReadable(records: seq<Record>)
    ensures Readable(Map(NormalizeRecord, records)) == Map(NormalizeRecord, Readable(records))
  {
    if records != [] {
      OneEmptyCell(records[|records| - 1]);
    }
  }

  lemma {:induction false} StrictReadsSeparated(records: seq<Record>, before: seq<Record>)
    requires records != [] && NonEmptyRecords(records)
    ensures StrictRun(WriteSeparated(records, [NEWLINE]), Strict(before, [], [], false, false))
         == Accepted(before + Readable(records))
    decreases |records|
  {
    var st := Strict(before, [], [], false, false);
    var first, others := records[0], records[1..];
    assert first in records;
    assert records == [first] + others;
    assert [] + first == first;
    if others == [] {
      StrictReadsLastRecord(first, st);
      assert before + Readable(records) == before + if first == [[]] then [] else [first];
    } else {
      var tail := WriteSeparated(others, [NEWLINE]);
      assert WriteSeparated(records, [NEWLINE]) == WriteCells(first) + [NEWLINE] + tail;
      StrictReadsRecord(first, tail, st);
      assert forall r :: r in others ==> r in records;
      StrictReadsSeparated(others, before + [first]);
      assert Readable(records) == [first] + Readable(others);
      Regroup(before, [first], Readable(others));
    }
  }

  /** What the strict reader makes of the layout of the insight export. */
  lemma ExportReadBack(records: seq<Record>)
    requires records != [] && NonEmptyRecords(records)
    ensures StrictParse(ReadSource(WriteExport(records))) == Accepted(Map(NormalizeRecord, Readable(records)))
  {
    ExportSource(records);
    NormalizedRecordsAreNonEmpty(records);
    StrictReadsSeparated(Map(NormalizeRecord, records), []);
    NormalizeReadable(records);
    assert [] + Readable(Map(NormalizeRecord, records)) == Readable(Map(NormalizeRecord, records));
  }

  /** Records whose last one has more than one cell, as a totals row has, come back with their line breaks
      normalized. */
  lemma {:induction false} ExportRoundTrip(records: seq<Record>)
    requires records != [] && NonEmptyRecords(records) && |records[|records| - 1]| > 1
    ensures StrictParse(ReadSource(WriteExport(records))) == Accepted(Map(NormalizeRecord, records))
  {
    ExportReadBack(records);
  }

  lemma {:induction false} NormalizeTerminated(records: seq<Record>)
    requires NonEmptyRecords(records)
    ensures NormalizeNewlines(WriteTerminated(records, [RETURN, NEWLINE]))
         == WriteTerminated(Map(NormalizeRecord, records), [NEWLINE])
    decreases |records|
  {
    if records != [] {
      assert records[0] in records && forall r :: r in records[1..] ==> r in records;
      TailOfMap(NormalizeRecord, records);
      NormalizeWrittenCells(records[0]);
      NormalizeTerminated(records[1..]);
      NormalizeJoined(WriteCells(records[0]), [RETURN, NEWLINE], WriteTerminated(records[1..], [RETURN, NEWLINE]));
    }
  }

  /** The directory's own file gives back its records with their line breaks normalized. */
  lemma {:induction false} FileReadBack(records: seq<Record>)
    requires NonEmptyRecords(records)
    ensures ReadSource(WriteFile(records)) == WriteTerminated(Map(NormalizeRecord, records), [NEWLINE])
    ensures StrictParse(ReadSource(WriteFile(records))) == Accepted(Map(NormalizeRecord, records))
  {
    var body := WriteTerminated(records, [RETURN, NEWLINE]);
    assert ([BYTE_ORDER_MARK] + body)[1..] == body;
    NormalizeTerminated(records);
    NormalizedRecordsAreNonEmpty(records);
    RoundTrip(Map(NormalizeRecord, records));
  }
}
