/** The Buyer PIC directory's CSV file: the writer, with its guard against spreadsheet formulas, and the
    import that reads it back. */
module PicDirectory {
  import opened Csv
  import opened Sorting
  import opened Texts

  datatype PicRow = PicRow(portRegion: string, personnel: string, team: string, supervision: string,
      vesselTypes: string)

  datatype Error =
    | TooLarge
    | EmptyFile
    | Malformed(reason: Outcome)
    | WrongHeaders
    | WrongWidth(position: nat)
    | TooManyRows
    | NoRows
    | CellTooLong(position: nat)
    | PortRequired(position: nat)

  datatype Result<T> = Ok(value: T) | Err(error: Error)

  const MAX_ROWS := 500
  const MAX_CELL_LENGTH := 4000
  const MAX_BYTES := 2_000_000

  const HEADERS: Record :=
    ["Port / Region", "Responsible Personnel", "Team", "Reporting / Supervision", "Vessel Types Covered"]

  const COLUMNS := 5

  function CellsOf(r: PicRow): Record {
    [r.portRegion, r.personnel, r.team, r.supervision, r.vesselTypes]
  }

  function RowOf(cells: Record): PicRow
    requires |cells| == COLUMNS
  {
    PicRow(cells[0], cells[1], cells[2], cells[3], cells[4])
  }

  function MapCells(f: string -> string, r: PicRow): PicRow {
    PicRow(f(r.portRegion), f(r.personnel), f(r.team), f(r.supervision), f(r.vesselTypes))
  }

  // ----- sizes -----

  /** The length of a JavaScript string. */
  function Units(text: string): nat {
    if text == [] then 0 else (if text[0] as int < 0x1_0000 then 1 else 2) + Units(text[1..])
  }

  /** The length in UTF-8. */
  function Bytes(text: string): nat {
    if text == [] then 0
    else
      var c := text[0] as int;
      (if c < 0x80 then 1 else if c < 0x800 then 2 else if c < 0x1_0000 then 3 else 4) + Bytes(text[1..])
  }

  // ----- normalization -----

  function NormalizeCell(cell: string): string {
    Trim(NormalizeNewlines(cell))
  }

  function NormalizeRow(r: PicRow): PicRow {
    MapCells(NormalizeCell, r)
  }

  predicate IsLong(cell: string) {
    Units(cell) > MAX_CELL_LENGTH
  }

  predicate HasLongCell(r: PicRow) {
    IsLong(r.portRegion) || IsLong(r.personnel) || IsLong(r.team) || IsLong(r.supervision) || IsLong(r.vesselTypes)
  }

  /** The rows from position `position` on, or the first one that is not acceptable. */
  function CheckRows(rows: seq<PicRow>, position: nat): Result<seq<PicRow>>
    decreases |rows|
  {
    if rows == [] then Ok([])
    else
      var row := NormalizeRow(rows[0]);
      if HasLongCell(row) then Err(CellTooLong(position))
      else if row.portRegion == "" then Err(PortRequired(position))
      else
        var more := CheckRows(rows[1..], position + 1);
        if more.Err? then more else Ok([row] + more.value)
  }

  function NormalizeRows(rows: seq<PicRow>, requireAtLeastOne: bool): Result<seq<PicRow>> {
    if |rows| > MAX_ROWS then Err(TooManyRows)
    else if requireAtLeastOne && rows == [] then Err(NoRows)
    else CheckRows(rows, 1)
  }

  // ----- the file -----

  /** A space or a control character. */
  predicate IsBlank(c: char) {
    IsSpace(c) || c < ' '
  }

  /** A spreadsheet would take the cell for a formula. */
  predicate FormulaLike(cell: string) {
    && cell != []
    && if IsBlank(cell[0]) then FormulaLike(cell[1..]) else cell[0] in {'=', '+', '-', '@'}
  }

  function Literal(cell: string): string {
    if FormulaLike(cell) then "'" + cell else cell
  }

  function LiteralRow(r: PicRow): PicRow {
    MapCells(Literal, r)
  }

  function LiteralCells(r: PicRow): Record {
    CellsOf(LiteralRow(r))
  }

  function FileOf(rows: seq<PicRow>): string {
    WriteFile([Map(Literal, HEADERS)] + Map(LiteralCells, rows))
  }

  function AccountPicCsv(rows: seq<PicRow>): Result<string> {
    var normal := NormalizeRows(rows, false);
    if normal.Err? then Err(normal.error) else Ok(FileOf(normal.value))
  }

  predicate HasValue(cells: Record) {
    exists k :: 0 <= k < |cells| && cells[k] != ""
  }

  function RowsFrom(records: seq<Record>, position: nat): Result<seq<PicRow>>
    decreases |records|
  {
    if records == [] then Ok([])
    else if |records[0]| != COLUMNS then Err(WrongWidth(position))
    else
      var more := RowsFrom(records[1..], position + 1);
      if more.Err? then more else Ok([NormalizeRow(RowOf(records[0]))] + more.value)
  }

  function ParseAccountPicCsv(text: string): Result<seq<PicRow>> {
    if Bytes(text) > MAX_BYTES then Err(TooLarge)
    else
      var source := ReadSource(text);
      if Trim(source) == "" then Err(EmptyFile)
      else
        var outcome := StrictParse(source);
        if !outcome.Accepted? then Err(Malformed(outcome))
        else if outcome.records == [] || outcome.records[0] != HEADERS then Err(WrongHeaders)
        else
          var rows := RowsFrom(Filter(HasValue, outcome.records[1..]), 1);
          if rows.Err? then rows else NormalizeRows(rows.value, true)
  }

  // ----- normal rows -----

  predicate NormalCell(cell: string) {
    Trimmed(cell) && RETURN !in cell
  }

  predicate NormalRow(r: PicRow) {
    && NormalCell(r.portRegion) && NormalCell(r.personnel) && NormalCell(r.team) && NormalCell(r.supervision)
    && NormalCell(r.vesselTypes)
  }

  lemma {:induction false} NoReturnsLeft(text: string)
    ensures RETURN !in NormalizeNewlines(text)
    decreases |text|
  {
    if text != [] {
      NoReturnsLeft(text[Step(text)..]);
    }
  }

  lemma {:induction false} WithoutReturnsStays(text: string)
    requires RETURN !in text
    ensures NormalizeNewlines(text) == text
  {
    if text != [] {
      assert forall c :: c in text[1..] ==> c in text;
      WithoutReturnsStays(text[1..]);
    }
  }

  lemma {:induction false} TrimLeftKeeps(text: string)
    ensures forall c :: c in TrimLeft(text) ==> c in text
  {
    if text != [] {
      TrimLeftKeeps(text[1..]);
    }
  }

  lemma NormalizeCellIsNormal(cell: string)
    ensures NormalCell(NormalizeCell(cell))
    ensures NormalCell(cell) ==> NormalizeCell(cell) == cell
  {
    var text := NormalizeNewlines(cell);
    NoReturnsLeft(cell);
    TrimLeftKeeps(text);
    TrimTrims(text);
    assert forall c :: c in Trim(text) ==> c in TrimLeft(text);
    if RETURN !in cell {
      WithoutReturnsStays(cell);
    }
  }

  lemma NormalizeRowIsNormal(r: PicRow)
    ensures NormalRow(NormalizeRow(r))
    ensures NormalRow(r) ==> NormalizeRow(r) == r
  {
    NormalizeCellIsNormal(r.portRegion);
    NormalizeCellIsNormal(r.personnel);
    NormalizeCellIsNormal(r.team);
    NormalizeCellIsNormal(r.supervision);
    NormalizeCellIsNormal(r.vesselTypes);
  }

  ghost predicate NormalRows(rows: seq<PicRow>) {
    forall k :: 0 <= k < |rows| ==> NormalRow(rows[k])
  }

  lemma {:induction false} NormalizeRowsAreNormal(rows: seq<PicRow>)
    ensures NormalRows(Map(NormalizeRow, rows))
    ensures NormalRows(rows) ==> Map(NormalizeRow, rows) == rows
  {
    forall k | 0 <= k < |rows|
      ensures NormalRow(NormalizeRow(rows[k])) && (NormalRow(rows[k]) ==> NormalizeRow(rows[k]) == rows[k])
    {
      NormalizeRowIsNormal(rows[k]);
    }
  }

  /** A normalized row that the directory accepts. */
  predicate AcceptedRow(r: PicRow) {
    !HasLongCell(r) && r.portRegion != ""
  }

  predicate AcceptedRows(rows: seq<PicRow>) {
    rows == [] || (AcceptedRow(rows[0]) && AcceptedRows(rows[1..]))
  }

  lemma {:induction false} AcceptedAt(rows: seq<PicRow>)
    ensures AcceptedRows(rows) <==> forall k :: 0 <= k < |rows| ==> AcceptedRow(rows[k])
  {
    if rows != [] {
      AcceptedAt(rows[1..]);
      assert rows == [rows[0]] + rows[1..];
    }
  }

  /** Rows are accepted exactly if all of them are acceptable once they are normalized. */
  lemma {:induction false} CheckRowsIs(rows: seq<PicRow>, position: nat)
    ensures CheckRows(rows, position).Ok? <==> AcceptedRows(Map(NormalizeRow, rows))
    ensures CheckRows(rows, position).Ok? ==> CheckRows(rows, position).value == Map(NormalizeRow, rows)
    decreases |rows|
  {
    if rows != [] {
      CheckRowsIs(rows[1..], position + 1);
      TailOfMap(NormalizeRow, rows);
    }
  }

  // ----- literal text -----

  lemma {:induction false} LiteralIsNormal(cell: string)
    requires NormalCell(cell)
    ensures NormalCell(Literal(cell)) && Literal(Literal(cell)) == Literal(cell)
    ensures cell == "" <==> Literal(cell) == ""
    ensures Literal(cell) == cell <==> !FormulaLike(cell)
  {
    if FormulaLike(cell) {
      assert |Literal(cell)| == |cell| + 1;
    }
  }

  /** Some cell would be taken for a formula. */
  predicate HasFormula(r: PicRow) {
    || FormulaLike(r.portRegion) || FormulaLike(r.personnel) || FormulaLike(r.team) || FormulaLike(r.supervision)
    || FormulaLike(r.vesselTypes)
  }

  lemma LiteralRowIsNormal(r: PicRow)
    requires NormalRow(r)
    ensures NormalRow(LiteralRow(r)) && LiteralRow(LiteralRow(r)) == LiteralRow(r)
    ensures LiteralRow(r) == r <==> !HasFormula(r)
    ensures r.portRegion == "" <==> LiteralRow(r).portRegion == ""
  {
    LiteralIsNormal(r.portRegion);
    LiteralIsNormal(r.personnel);
    LiteralIsNormal(r.team);
    LiteralIsNormal(r.supervision);
    LiteralIsNormal(r.vesselTypes);
  }

  // ----- reading the file back -----

  /** A header that neither the guard nor the line breaks change. */
  predicate PlainHeader(h: string) {
    h != "" && !IsBlank(h[0]) && h[0] !in {'=', '+', '-', '@'} && RETURN !in h
  }

  lemma {:induction false} PlainHeadersStay(headers: Record)
    requires forall k :: 0 <= k < |headers| ==> PlainHeader(headers[k])
    ensures Map(Literal, headers) == headers && NormalizeRecord(headers) == headers
  {
    forall k | 0 <= k < |headers| ensures Literal(headers[k]) == headers[k]
        && NormalizeNewlines(headers[k]) == headers[k] {
      WithoutReturnsStays(headers[k]);
    }
  }

  lemma HeadersAreLiteral()
    ensures Map(Literal, HEADERS) == HEADERS && NormalizeRecord(HEADERS) == HEADERS
  {
    assert PlainHeader("Port / Region");
    assert PlainHeader("Responsible Personnel");
    assert PlainHeader("Team");
    assert PlainHeader("Reporting / Supervision");
    assert PlainHeader("Vessel Types Covered");
    PlainHeadersStay(HEADERS);
  }

  lemma NormalRecordStays(r: PicRow)
    requires NormalRow(r)
    ensures NormalizeRecord(CellsOf(r)) == CellsOf(r)
  {
    WithoutReturnsStays(r.portRegion);
    WithoutReturnsStays(r.personnel);
    WithoutReturnsStays(r.team);
    WithoutReturnsStays(r.supervision);
    WithoutReturnsStays(r.vesselTypes);
  }

  function RecordsOf(rows: seq<PicRow>): seq<Record> {
    Map(CellsOf, rows)
  }

  lemma {:induction false} NormalRecords(rows: seq<PicRow>)
    requires NormalRows(rows)
    ensures var records := RecordsOf(Map(LiteralRow, rows));
            NonEmptyRecords(records) && Map(NormalizeRecord, records) == records
  {
    forall k | 0 <= k < |rows| ensures NormalizeRecord(CellsOf(LiteralRow(rows[k]))) == CellsOf(LiteralRow(rows[k])) {
      LiteralRowIsNormal(rows[k]);
      NormalRecordStays(LiteralRow(rows[k]));
    }
  }

  /** The records of a written file. */
  function FileRecords(rows: seq<PicRow>): seq<Record> {
    [HEADERS] + RecordsOf(Map(LiteralRow, rows))
  }

  lemma FileIsRecords(rows: seq<PicRow>)
    requires NormalRows(rows)
    ensures FileOf(rows) == WriteFile(FileRecords(rows))
    ensures NonEmptyRecords(FileRecords(rows)) && Map(NormalizeRecord, FileRecords(rows)) == FileRecords(rows)
  {
    HeadersAreLiteral();
    NormalRecords(rows);
    assert Map(LiteralCells, rows) == RecordsOf(Map(LiteralRow, rows));
    MapAppend(NormalizeRecord, [HEADERS], RecordsOf(Map(LiteralRow, rows)));
    assert Map(NormalizeRecord, [HEADERS]) == [NormalizeRecord(HEADERS)];
  }

  lemma {:induction false} FirstCharacter(records: seq<Record>)
    requires records != [] && |records[0]| > 1 && records[0][0] != "" && !NeedsQuotes(records[0][0])
    ensures var text := WriteTerminated(records, [NEWLINE]); text != "" && text[0] == records[0][0][0]
  {
    var cells := records[0];
    assert WriteCells(cells) == cells[0] + [COMMA] + WriteCells(cells[1..]);
  }

  /** The text behind the byte order mark is not blank. */
  lemma {:induction false} FileIsNotBlank(records: seq<Record>)
    requires records != [] && |records[0]| > 1
    requires records[0][0] != "" && !NeedsQuotes(records[0][0]) && !IsSpace(records[0][0][0])
    ensures Trim(WriteTerminated(records, [NEWLINE])) != ""
  {
    FirstCharacter(records);
    TrimKeepsFirst(WriteTerminated(records, [NEWLINE]));
  }

  lemma FirstHeader()
    ensures |HEADERS| > 1 && HEADERS[0] != "" && !NeedsQuotes(HEADERS[0]) && !IsSpace(HEADERS[0][0])
  {
    var h := "Port / Region";
    assert HEADERS[0] == h && h[0] == 'P' && !NeedsQuotes(h);
  }

  lemma {:induction false} TrimKeepsFirst(text: string)
    requires text != [] && !IsSpace(text[0])
    ensures TrimRight(text) != ""
  {
    if IsSpace(text[|text| - 1]) {
      TrimKeepsFirst(text[..|text| - 1]);
    }
  }

  lemma {:induction false} RowsFromRecords(rows: seq<PicRow>, position: nat)
    ensures RowsFrom(RecordsOf(rows), position) == Ok(Map(NormalizeRow, rows))
    decreases |rows|
  {
    if rows != [] {
      TailOfMap(CellsOf, rows);
      TailOfMap(NormalizeRow, rows);
      RowsFromRecords(rows[1..], position + 1);
      assert RowOf(CellsOf(rows[0])) == rows[0];
    }
  }

  lemma RecordsHaveValues(rows: seq<PicRow>)
    requires forall k :: 0 <= k < |rows| ==> rows[k].portRegion != ""
    ensures Filter(HasValue, RecordsOf(rows)) == RecordsOf(rows)
  {
    forall cells | cells in RecordsOf(rows) ensures HasValue(cells) {
      var k :| 0 <= k < |rows| && RecordsOf(rows)[k] == cells;
      assert cells[0] == rows[k].portRegion;
    }
    FilterAll(HasValue, RecordsOf(rows));
  }

  lemma {:induction false} LiteralRows(rows: seq<PicRow>)
    requires NormalRows(rows)
    ensures NormalRows(Map(LiteralRow, rows))
  {
    forall k | 0 <= k < |rows| ensures NormalRow(LiteralRow(rows[k])) {
      LiteralRowIsNormal(rows[k]);
    }
  }

  lemma {:induction false} LiteralRowsKeepPorts(rows: seq<PicRow>)
    requires NormalRows(rows) && AcceptedRows(rows)
    ensures forall k :: 0 <= k < |rows| ==> LiteralRow(rows[k]).portRegion != ""
  {
    AcceptedAt(rows);
    forall k | 0 <= k < |rows| ensures LiteralRow(rows[k]).portRegion != "" {
      LiteralRowIsNormal(rows[k]);
    }
  }

  /** What the import makes of the records of a written file. */
  lemma {:induction false} RecordsParse(rows: seq<PicRow>)
    requires NormalRows(rows) && AcceptedRows(rows)
    ensures RowsFrom(Filter(HasValue, FileRecords(rows)[1..]), 1) == Ok(Map(LiteralRow, rows))
  {
    var literal := Map(LiteralRow, rows);
    LiteralRows(rows);
    LiteralRowsKeepPorts(rows);
    assert FileRecords(rows)[1..] == RecordsOf(literal);
    RecordsHaveValues(literal);
    RowsFromRecords(literal, 1);
    NormalizeRowsAreNormal(literal);
  }

  lemma FileTextIsNotBlank(rows: seq<PicRow>)
    ensures Trim(WriteTerminated(FileRecords(rows), [NEWLINE])) != ""
  {
    FirstHeader();
    FileIsNotBlank(FileRecords(rows));
  }

  /** The import of a written file sees the literal rows, unless the file is too large. */
  lemma {:induction false} FileParses(rows: seq<PicRow>)
    requires NormalRows(rows) && AcceptedRows(rows)
    ensures ParseAccountPicCsv(FileOf(rows))
         == if Bytes(FileOf(rows)) > MAX_BYTES then Err(TooLarge) else NormalizeRows(Map(LiteralRow, rows), true)
  {
    FileIsRecords(rows);
    FileReadBack(FileRecords(rows));
    FileTextIsNotBlank(rows);
    RecordsParse(rows);
  }

  /** The guard makes some cell longer than a cell may be. */
  ghost predicate GuardOverflows(rows: seq<PicRow>) {
    exists k :: 0 <= k < |rows| && HasLongCell(LiteralRow(rows[k]))
  }

  lemma {:induction false} LiteralRowsAccepted(rows: seq<PicRow>)
    requires NormalRows(rows) && AcceptedRows(rows)
    ensures AcceptedRows(Map(LiteralRow, rows)) <==> !GuardOverflows(rows)
  {
    LiteralRowsKeepPorts(rows);
    AcceptedAt(Map(LiteralRow, rows));
    if AcceptedRows(Map(LiteralRow, rows)) {
      forall k | 0 <= k < |rows| ensures !HasLongCell(LiteralRow(rows[k])) {
        assert AcceptedRow(Map(LiteralRow, rows)[k]);
      }
    }
  }

  lemma NormalizedRows(rows: seq<PicRow>)
    requires NormalizeRows(rows, false).Ok?
    ensures var normal := NormalizeRows(rows, false).value;
            NormalRows(normal) && AcceptedRows(normal) && |normal| == |rows| <= MAX_ROWS
  {
    CheckRowsIs(rows, 1);
    NormalizeRowsAreNormal(rows);
  }

  lemma {:induction false} LiteralRowsChecked(rows: seq<PicRow>, requireAtLeastOne: bool)
    requires NormalRows(rows) && AcceptedRows(rows) && |rows| <= MAX_ROWS
    ensures var r := NormalizeRows(Map(LiteralRow, rows), requireAtLeastOne);
            && (r.Ok? <==> !(requireAtLeastOne && rows == []) && !GuardOverflows(rows))
            && (r.Ok? ==> r.value == Map(LiteralRow, rows))
  {
    var literal := Map(LiteralRow, rows);
    LiteralRows(rows);
    LiteralRowsAccepted(rows);
    CheckRowsIs(literal, 1);
    NormalizeRowsAreNormal(literal);
  }

  /** An exported directory is accepted again exactly if the file is not too large, it has rows and the
      guard makes no cell too long; what comes back is the rows with the guard's apostrophes. */
  lemma ExportImports(rows: seq<PicRow>)
    requires NormalizeRows(rows, false).Ok?
    ensures var normal := NormalizeRows(rows, false).value;
            var back := ParseAccountPicCsv(AccountPicCsv(rows).value);
            && (back.Ok? <==> Bytes(FileOf(normal)) <= MAX_BYTES && normal != [] && !GuardOverflows(normal))
            && (back.Ok? ==> back.value == Map(LiteralRow, normal))
  {
    var normal := NormalizeRows(rows, false).value;
    NormalizedRows(rows);
    FileParses(normal);
    LiteralRowsChecked(normal, true);
  }

  ghost predicate AnyFormula(rows: seq<PicRow>) {
    exists k :: 0 <= k < |rows| && HasFormula(rows[k])
  }

  lemma {:induction false} LiteralRowsStayIff(rows: seq<PicRow>)
    requires NormalRows(rows) && AcceptedRows(rows)
    ensures Map(LiteralRow, rows) == rows <==> !AnyFormula(rows)
    ensures !AnyFormula(rows) ==> !GuardOverflows(rows)
  {
    forall k | 0 <= k < |rows| ensures LiteralRow(rows[k]) == rows[k] <==> !HasFormula(rows[k]) {
      LiteralRowIsNormal(rows[k]);
    }
    if AnyFormula(rows) {
      var k :| 0 <= k < |rows| && HasFormula(rows[k]);
      assert Map(LiteralRow, rows)[k] != rows[k];
    } else {
      AcceptedAt(rows);
    }
  }

  /** Exporting a directory and importing the file gives back its rows if and only if there are rows, the
      file is not too large and no cell looks like a formula. */
  lemma RoundTripIff(rows: seq<PicRow>)
    requires NormalizeRows(rows, false).Ok?
    ensures var normal := NormalizeRows(rows, false).value;
            ParseAccountPicCsv(AccountPicCsv(rows).value) == Ok(normal) <==>
            Bytes(FileOf(normal)) <= MAX_BYTES && normal != [] && !AnyFormula(normal)
  {
    NormalizedRows(rows);
    ExportImports(rows);
    LiteralRowsStayIff(NormalizeRows(rows, false).value);
  }

  lemma {:induction false} LiteralFile(rows: seq<PicRow>)
    requires NormalRows(rows)
    ensures FileOf(Map(LiteralRow, rows)) == FileOf(rows)
  {
    forall k | 0 <= k < |rows| ensures LiteralCells(LiteralRow(rows[k])) == LiteralCells(rows[k]) {
      LiteralRowIsNormal(rows[k]);
    }
    assert Map(LiteralCells, Map(LiteralRow, rows)) == Map(LiteralCells, rows);
  }

  /** What has come back once is exported to the same file again, so a second round changes nothing. */
  lemma SecondRoundIsStable(rows: seq<PicRow>)
    requires NormalizeRows(rows, false).Ok? && ParseAccountPicCsv(AccountPicCsv(rows).value).Ok?
    ensures AccountPicCsv(ParseAccountPicCsv(AccountPicCsv(rows).value).value) == AccountPicCsv(rows)
  {
    var normal := NormalizeRows(rows, false).value;
    NormalizedRows(rows);
    ExportImports(rows);
    LiteralRowsChecked(normal, false);
    LiteralFile(normal);
  }

  /** For example, a region of one equals sign does not come back as it was. */
  lemma FormulaDoesNotComeBack()
    ensures var rows := [PicRow("=", "", "", "", "")];
            NormalizeRows(rows, false) == Ok(rows) && ParseAccountPicCsv(AccountPicCsv(rows).value) != Ok(rows)
  {
    var row := PicRow("=", "", "", "", "");
    NormalizeRowIsNormal(row);
    assert "="[1..] == "" && Units("=") == 1 + Units("");
    assert !IsLong("") && !IsLong("=");
    assert [row][1..] == [] && CheckRows([], 2) == Ok([]);
    assert CheckRows([row], 1) == Ok([row] + []) && [row] + [] == [row];
    assert NormalizeRows([row], false) == Ok([row]);
    assert FormulaLike("=") && HasFormula([row][0]);
    RoundTripIff([row]);
  }

  // ----- what is accepted and written, in terms of the cells -----

  function From(least: int, text: string): string {
    Filter((c: char) => c as int >= least, text)
  }

  /** Every character takes one byte, and one more for each of the three limits it reaches. So the length in UTF-8
      is at most four bytes a character, and one for each exactly in ASCII. */
  lemma {:induction false} BytesOfText(text: string)
    ensures |text| <= Bytes(text) <= 4 * |text|
    ensures Bytes(text) == |text| <==> forall c :: c in text ==> c as int < 0x80
    ensures Bytes(text) == |text| + |From(0x80, text)| + |From(0x800, text)| + |From(0x1_0000, text)|
  {
    if text != [] {
      BytesOfText(text[1..]);
      assert text[0] in text && forall c :: c in text <==> c == text[0] || c in text[1..];
    }
  }

  /** The first character that is not blank makes a formula. */
  lemma {:induction false} FormulaIff(cell: string)
    ensures FormulaLike(cell) <==>
            exists k :: 0 <= k < |cell| && cell[k] in {'=', '+', '-', '@'} && forall j :: 0 <= j < k ==>
                IsSpace(cell[j]) || cell[j] < ' '
  {
    if cell != [] {
      var rest := cell[1..];
      FormulaIff(rest);
      assert forall k :: 0 < k < |cell| ==> cell[k] == rest[k - 1];
      if IsBlank(cell[0]) {
        if k :| 0 <= k < |rest| && rest[k] in {'=', '+', '-', '@'} && forall j :: 0 <= j < k ==> IsBlank(rest[j]) {
          assert cell[k + 1] == rest[k];
        }
        if k :| 0 <= k < |cell| && cell[k] in {'=', '+', '-', '@'} && forall j :: 0 <= j < k ==> IsBlank(cell[j]) {
          assert k > 0;
          assert rest[k - 1] == cell[k];
          assert forall j :: 0 <= j < k - 1 ==> rest[j] == cell[j + 1];
        }
      }
    }
  }

  predicate Fits(cell: string) {
    Units(Trim(NormalizeNewlines(cell))) <= 4000
  }

  /** A directory is accepted exactly if it has at most 500 rows, at least one where that is asked for, and every row
      names a port and has no cell of more than 4000 characters, blanks around the cells aside. */
  lemma AcceptedIff(rows: seq<PicRow>, requireAtLeastOne: bool)
    ensures NormalizeRows(rows, requireAtLeastOne).Ok? <==>
            && |rows| <= 500 && (requireAtLeastOne ==> rows != [])
            && forall k :: 0 <= k < |rows| ==>
                 && Trim(NormalizeNewlines(rows[k].portRegion)) != ""
                 && Fits(rows[k].portRegion) && Fits(rows[k].personnel) && Fits(rows[k].team)
                 && Fits(rows[k].supervision) && Fits(rows[k].vesselTypes)
  {
    CheckRowsIs(rows, 1);
    AcceptedAt(Map(NormalizeRow, rows));
    forall k | 0 <= k < |rows|
      ensures AcceptedRow(Map(NormalizeRow, rows)[k]) <==>
              && Trim(NormalizeNewlines(rows[k].portRegion)) != ""
              && Fits(rows[k].portRegion) && Fits(rows[k].personnel) && Fits(rows[k].team)
              && Fits(rows[k].supervision) && Fits(rows[k].vesselTypes)
    {
      assert Map(NormalizeRow, rows)[k] == NormalizeRow(rows[k]);
    }
  }

  /** The file holds the five columns under their headers, one record a row. */
  lemma FileColumns(rows: seq<PicRow>, k: nat)
    requires NormalRows(rows) && k < |rows|
    ensures var outcome := StrictParse(ReadSource(FileOf(rows)));
            && outcome.Accepted? && |outcome.records| == |rows| + 1
            && outcome.records[0]
            == ["Port / Region", "Responsible Personnel", "Team", "Reporting / Supervision", "Vessel Types Covered"]
            && outcome.records[k + 1]
            == [Literal(rows[k].portRegion), Literal(rows[k].personnel), Literal(rows[k].team),
                Literal(rows[k].supervision), Literal(rows[k].vesselTypes)]
  {
    FileIsRecords(rows);
    FileReadBack(FileRecords(rows));
    assert FileRecords(rows)[k + 1] == RecordsOf(Map(LiteralRow, rows))[k];
    assert RecordsOf(Map(LiteralRow, rows))[k] == CellsOf(LiteralRow(rows[k]));
  }
}
