/**
 * The data side of components/schedule-table.tsx: the nurse-by-day cell
 * lookup, the grid both exports are built from, the BOM-prefixed CSV text,
 * the spreadsheet rows and column widths, and the seven-day chunks the
 * on-screen table is split into.
 */
module ScheduleTable {
  import opened Wrappers
  import opened Types
  import opened Utils
  import Text

  const NurseColumnHeader := "간호사"
  const Bom: char := '\U{FEFF}'
  const MissingOnScreen := "-"
  const FilePrefix := "간호사_근무표_"
  const CsvMimeType := "text/csv;charset=utf-8;"
  const SheetName := "근무표"
  const NameColumnWidth := 15
  const DateColumnWidth := 10
  const ChunkSize := 7

  /** `scheduleData.find((s) => s.date === dateStr)`, by position: the first day carrying `dateStr`, or `|data|` for none. */
  function FirstDayIndex(data: ScheduleResponse, dateStr: string): (k: nat)
    ensures k <= |data|
    ensures k < |data| ==> data[k].date == dateStr
    ensures forall j :: 0 <= j < k ==> data[j].date != dateStr
  {
    if data == [] then 0
    else if data[0].date == dateStr then 0
    else 1 + FirstDayIndex(data[1..], dateStr)
  }

  /** `nurses[nurseName]`, by position: the first entry with exactly that name, or `|assignments|` for none. */
  function FirstNameIndex(assignments: seq<Assignment>, name: string): (k: nat)
    ensures k <= |assignments|
    ensures k < |assignments| ==> assignments[k].name == name
    ensures forall j :: 0 <= j < k ==> assignments[j].name != name
  {
    if assignments == [] then 0
    else if assignments[0].name == name then 0
    else 1 + FirstNameIndex(assignments[1..], name)
  }

  /**
   * `scheduleData.find((s) => s.date === dateStr)?.nurses[nurseName]`: the
   * shift of `name` on the first day whose date string is `dateStr`; none when
   * no day carries that string or that day has no entry for the name.
   */
  function Lookup(data: ScheduleResponse, dateStr: string, name: string): (r: Option<Shift>)
    ensures var k := FirstDayIndex(data, dateStr);
      r.None? <==> k == |data| || forall i :: 0 <= i < |data[k].nurses| ==> data[k].nurses[i].name != name
    ensures r.Some? ==> var k := FirstDayIndex(data, dateStr);
      k < |data| && Assignment(name, r.value) in data[k].nurses
  {
    var k := FirstDayIndex(data, dateStr);
    if k == |data| then None
    else
      var i := FirstNameIndex(data[k].nurses, name);
      if i == |data[k].nurses| then None else Some(data[k].nurses[i].shift)
  }

  /** A cell of the exports: the abbreviation of the looked-up shift, and "" when there is none. */
  function CsvCell(data: ScheduleResponse, dateStr: string, name: string): (cell: string)
    ensures cell == "" <==> Lookup(data, dateStr, name).None?
    ensures Lookup(data, dateStr, name).Some? ==>
      ShiftOfAbbreviation(cell) == Lookup(data, dateStr, name)
  {
    match Lookup(data, dateStr, name)
    case Some(shift) => Abbreviation(shift)
    case None => ""
  }

  /** A cell of the on-screen table: the same lookup, shown as "-" when there is no shift. */
  function ScreenCell(data: ScheduleResponse, dateStr: string, name: string): (cell: string)
    ensures cell == MissingOnScreen <==> Lookup(data, dateStr, name).None?
    ensures Lookup(data, dateStr, name).Some? ==> cell == CsvCell(data, dateStr, name)
  {
    match Lookup(data, dateStr, name)
    case Some(shift) => Abbreviation(shift)
    case None => MissingOnScreen
  }

  /**
   * When the response lists the days of the range in order, one item per day,
   * the cell of day `c` is read from item `c`: no earlier item can carry the
   * same date string, because yyyy-MM-dd tells days apart.
   */
  lemma AlignedLookup(data: ScheduleResponse, days: seq<Date>, iso: Date -> string, c: nat, name: string)
    requires Injective(iso)
    requires |data| == |days| && c < |days|
    requires forall i, j :: 0 <= i < j < |days| ==> days[i] != days[j]
    requires forall i :: 0 <= i < |data| ==> data[i].date == iso(days[i])
    ensures FirstDayIndex(data, iso(days[c])) == c
    ensures Lookup(data, iso(days[c]), name) ==
      (var i := FirstNameIndex(data[c].nurses, name);
       if i == |data[c].nurses| then None else Some(data[c].nurses[i].shift))
  {
    var k := FirstDayIndex(data, iso(days[c]));
    assert data[c].date == iso(days[c]);
    assert k <= c;
    if k < c {
      assert false;
    }
  }

  /** The header row: "간호사", then the display label of every day. */
  function HeaderRow(days: seq<Date>, display: Date -> string): seq<string> {
    [NurseColumnHeader] + seq(|days|, c requires 0 <= c < |days| => display(days[c]))
  }

  /** A nurse's export row: the name, then one cell per day. */
  function ExportRow(data: ScheduleResponse, name: string, days: seq<Date>, iso: Date -> string): seq<string> {
    [name] + seq(|days|, c requires 0 <= c < |days| => CsvCell(data, iso(days[c]), name))
  }

  /** The grid both exports hold: the header row, then one row per nurse name in the given order. */
  function ExportGrid(data: ScheduleResponse, names: seq<string>, days: seq<Date>,
                      iso: Date -> string, display: Date -> string): seq<seq<string>>
  {
    [HeaderRow(days, display)] + seq(|names|, r requires 0 <= r < |names| => ExportRow(data, names[r], days, iso))
  }

  /** A nurse's row as handleSaveAsCSV and handleSaveAsExcel push it, cell after cell. */
  method FillNurseRow(data: ScheduleResponse, name: string, days: seq<Date>, iso: Date -> string)
    returns (row: seq<string>)
    ensures |row| == 1 + |days| && row[0] == name
    ensures forall c :: 0 <= c < |days| ==> row[c + 1] == CsvCell(data, iso(days[c]), name)
    ensures row == ExportRow(data, name, days, iso)
  {
    row := [name];
    for c := 0 to |days|
      invariant |row| == 1 + c && row[0] == name
      invariant forall j :: 0 <= j < c ==> row[j + 1] == CsvCell(data, iso(days[j]), name)
    {
      var dateStr := iso(days[c]);
      var shift := Lookup(data, dateStr, name);
      row := row + [if shift.Some? then Abbreviation(shift.value) else ""];
    }
  }

  /** The lines of a grid: each row's cells joined with commas, with no quoting. */
  function CsvLines(grid: seq<seq<string>>): (lines: seq<string>)
    ensures |lines| == |grid|
  {
    seq(|grid|, r requires 0 <= r < |grid| => Text.Join(grid[r], ','))
  }

  /** The CSV text: a byte-order mark, then the lines joined with newlines. */
  function CsvText(grid: seq<seq<string>>): string {
    [Bom] + Text.Join(CsvLines(grid), '\n')
  }

  /** How a consumer reads the CSV text back: drop the byte-order mark, split lines, split cells. */
  function ParseCsv(text: string): seq<seq<string>> {
    var body := if |text| > 0 && text[0] == Bom then text[1..] else text;
    var lines := Text.Split(body, '\n');
    seq(|lines|, r requires 0 <= r < |lines| => Text.Split(lines[r], ','))
  }

  /** A cell the unquoted CSV writer can carry: no comma and no newline. */
  predicate CsvSafe(cell: string) {
    ',' !in cell && '\n' !in cell
  }

  predicate CsvSafeGrid(grid: seq<seq<string>>) {
    forall r, c :: 0 <= r < |grid| && 0 <= c < |grid[r]| ==> CsvSafe(grid[r][c])
  }

  /** Reading the CSV text back gives the grid, when no cell holds a comma or a newline. */
  lemma CsvRoundTrip(grid: seq<seq<string>>)
    requires |grid| > 0
    requires forall r :: 0 <= r < |grid| ==> |grid[r]| > 0
    requires CsvSafeGrid(grid)
    ensures ParseCsv(CsvText(grid)) == grid
  {
    var lines := CsvLines(grid);
    forall r | 0 <= r < |grid|
      ensures Text.Free(grid[r], ',') && Text.Free(grid[r], '\n')
      ensures Text.Split(lines[r], ',') == grid[r]
      ensures '\n' !in lines[r]
    {
      Text.SplitJoin(grid[r], ',');
      Text.JoinFree(grid[r], ',', '\n');
    }
    Text.SplitJoin(lines, '\n');
    assert CsvText(grid)[1..] == Text.Join(lines, '\n');
  }

  /** A "MM월 dd일" label holds only digits, '월', a space and '일', so it is CSV-safe. */
  lemma {:induction false} MonthDayTextCsvSafe(c: CivilDate)
    ensures CsvSafe(MonthDayText(c))
  {
    var m, d := Padded(c.month, 2), Padded(c.day, 2);
    PaddedDigits(c.month, 2);
    PaddedDigits(c.day, 2);
    assert MonthDayText(c) == m + "월 " + d + "일";
    assert forall i :: 0 <= i < |m| ==> Text.IsDigit(m[i]);
    assert forall i :: 0 <= i < |d| ==> Text.IsDigit(d[i]);
  }

  /** Every cell of the export grid is CSV-safe when the nurse names and day labels are. */
  lemma ExportGridSafe(data: ScheduleResponse, names: seq<string>, days: seq<Date>,
                       iso: Date -> string, display: Date -> string)
    requires forall r :: 0 <= r < |names| ==> CsvSafe(names[r])
    requires forall c :: 0 <= c < |days| ==> CsvSafe(display(days[c]))
    ensures CsvSafeGrid(ExportGrid(data, names, days, iso, display))
  {
    var grid := ExportGrid(data, names, days, iso, display);
    forall r, c | 0 <= r < |grid| && 0 <= c < |grid[r]| ensures CsvSafe(grid[r][c]) {
      if r > 0 && c > 0 {
        match Lookup(data, iso(days[c - 1]), names[r - 1])
        case Some(shift) =>
        case None =>
      }
    }
  }

  /** The CSV export reads back as the grid when no nurse name or day label holds a comma or a newline. */
  lemma ExportRoundTrip(data: ScheduleResponse, names: seq<string>, days: seq<Date>,
                        iso: Date -> string, display: Date -> string)
    requires forall r :: 0 <= r < |names| ==> CsvSafe(names[r])
    requires forall c :: 0 <= c < |days| ==> CsvSafe(display(days[c]))
    ensures ParseCsv(CsvText(ExportGrid(data, names, days, iso, display))) == ExportGrid(data, names, days, iso, display)
  {
    ExportGridSafe(data, names, days, iso, display);
    CsvRoundTrip(ExportGrid(data, names, days, iso, display));
  }
  /** With the page's own date renderings, the CSV export reads back whenever no nurse name holds a comma or a newline. */
  lemma CalendarExportRoundTrip(data: ScheduleResponse, names: seq<string>, days: seq<Date>, calendar: Date -> CivilDate)
    requires forall r :: 0 <= r < |names| ==> CsvSafe(names[r])
    ensures var grid := ExportGrid(data, names, days, IsoRendering(calendar), DisplayRendering(calendar));
      ParseCsv(CsvText(grid)) == grid
  {
    forall c | 0 <= c < |days|
      ensures CsvSafe(DisplayRendering(calendar)(days[c]))
    {
      MonthDayTextCsvSafe(calendar(days[c]));
    }
    ExportRoundTrip(data, names, days, IsoRendering(calendar), DisplayRendering(calendar));
  }


  /** The CSV text handleSaveAsCSV builds: the header line, then one line per nurse, BOM first. */
  method CsvContent(data: ScheduleResponse, names: seq<string>, days: seq<Date>,
                    iso: Date -> string, display: Date -> string)
    returns (text: string)
    ensures text == CsvText(ExportGrid(data, names, days, iso, display))
  {
    var grid := ExportGrid(data, names, days, iso, display);
    var csvData := [Text.Join(HeaderRow(days, display), ',')];
    for r := 0 to |names|
      invariant csvData == CsvLines(grid)[..r + 1]
    {
      var row := FillNurseRow(data, names[r], days, iso);
      csvData := csvData + [Text.Join(row, ',')];
    }
    assert csvData == CsvLines(grid);
    text := [Bom] + Text.Join(csvData, '\n');
  }

  /** The rows handleSaveAsExcel gives the spreadsheet: the header row, then one row per nurse. */
  method BuildTableData(data: ScheduleResponse, names: seq<string>, days: seq<Date>,
                        iso: Date -> string, display: Date -> string)
    returns (tableData: seq<seq<string>>)
    ensures tableData == ExportGrid(data, names, days, iso, display)
    ensures |tableData| == 1 + |names|
    ensures tableData[0] == HeaderRow(days, display)
    ensures forall r :: 0 <= r < |names| ==> tableData[r + 1][0] == names[r]
  {
    var headerRow := [NurseColumnHeader];
    for c := 0 to |days|
      invariant headerRow == HeaderRow(days[..c], display)
    {
      headerRow := headerRow + [display(days[c])];
    }
    assert days[..|days|] == days;
    tableData := [headerRow];
    for r := 0 to |names|
      invariant |tableData| == 1 + r && tableData[0] == headerRow
      invariant forall j :: 0 <= j < r ==> tableData[j + 1] == ExportRow(data, names[j], days, iso)
    {
      var nurseRow := FillNurseRow(data, names[r], days, iso);
      tableData := tableData + [nurseRow];
    }
  }

  /** `colWidths`: 15 characters for the name column, then 10 for every day column. */
  function ColWidths(days: seq<Date>): (widths: seq<nat>)
    ensures |widths| == 1 + |days|
    ensures widths[0] == NameColumnWidth
    ensures forall c :: 1 <= c < |widths| ==> widths[c] == DateColumnWidth
  {
    [NameColumnWidth] + seq(|days|, _ => DateColumnWidth)
  }

  /** A file handed to the browser: its name, MIME type and text. */
  datatype Download = Download(fileName: string, mimeType: string, content: string)

  /** What handleSaveAsExcel hands to the spreadsheet library. */
  datatype Workbook = Workbook(fileName: string, sheetName: string, rows: seq<seq<string>>, colWidths: seq<nat>)

  datatype SpreadsheetExport = Spreadsheet(book: Workbook) | CsvFallback(file: Download)

  /** `간호사_근무표_<start>_<end>.<ext>` with both days as yyyy-MM-dd. */
  function ExportFileName(startDate: Date, endDate: Date, iso: Date -> string, ext: string): (fileName: string)
    ensures Text.StartsWith(fileName, FilePrefix)
    ensures |fileName| > |ext| && fileName[|fileName| - |ext| - 1..] == "." + ext
    ensures Text.Contains(fileName, iso(startDate)) && Text.Contains(fileName, iso(endDate))
  {
    var first, last := iso(startDate), iso(endDate);
    Text.ContainsMiddle(FilePrefix, first, "_" + last + "." + ext);
    Text.ContainsMiddle(FilePrefix + first + "_", last, "." + ext);
    assert FilePrefix + first + "_" + last + "." + ext == FilePrefix + first + ("_" + last + "." + ext);
    assert FilePrefix + first + "_" + last + "." + ext == (FilePrefix + first + "_") + last + ("." + ext);
    FilePrefix + first + "_" + last + "." + ext
  }

  /** handleSaveAsCSV: nothing for an empty schedule, else the BOM-prefixed CSV of the export grid. */
  method SaveAsCsv(data: ScheduleResponse, names: seq<string>, startDate: Date, endDate: Date,
                   iso: Date -> string, display: Date -> string)
    returns (file: Option<Download>)
    ensures |data| == 0 <==> file.None?
    ensures file.Some? ==> file.value == Download(ExportFileName(startDate, endDate, iso, "csv"), CsvMimeType,
      CsvText(ExportGrid(data, names, DaysInRange(startDate, endDate), iso, display)))
  {
    if |data| == 0 {
      return None;
    }
    var allDates := GetDatesInRange(startDate, endDate);
    var content := CsvContent(data, names, allDates, iso, display);
    file := Some(Download(ExportFileName(startDate, endDate, iso, "csv"), CsvMimeType, content));
  }

  /**
   * handleSaveAsExcel: nothing for an empty schedule; else a one-sheet
   * workbook of the export grid with the column widths, or, when the
   * spreadsheet library fails, the CSV download instead.
   */
  method SaveAsExcel(data: ScheduleResponse, names: seq<string>, startDate: Date, endDate: Date,
                     iso: Date -> string, display: Date -> string, libraryWorks: bool)
    returns (result: Option<SpreadsheetExport>)
    ensures |data| == 0 <==> result.None?
    ensures result.Some? && libraryWorks ==> result.value == Spreadsheet(Workbook(
      ExportFileName(startDate, endDate, iso, "xlsx"), SheetName,
      ExportGrid(data, names, DaysInRange(startDate, endDate), iso, display),
      ColWidths(DaysInRange(startDate, endDate))))
    ensures result.Some? && !libraryWorks ==> result.value == CsvFallback(Download(
      ExportFileName(startDate, endDate, iso, "csv"), CsvMimeType,
      CsvText(ExportGrid(data, names, DaysInRange(startDate, endDate), iso, display))))
  {
    if |data| == 0 {
      return None;
    }
    var allDates := GetDatesInRange(startDate, endDate);
    if libraryWorks {
      var tableData := BuildTableData(data, names, allDates, iso, display);
      var colWidths := ColWidths(allDates);
      result := Some(Spreadsheet(Workbook(ExportFileName(startDate, endDate, iso, "xlsx"), SheetName, tableData, colWidths)));
    } else {
      var file := SaveAsCsv(data, names, startDate, endDate, iso, display);
      result := Some(CsvFallback(file.value));
    }
  }

  /** The chunks laid end to end. */
  function Flatten(chunks: seq<seq<Date>>): seq<Date> {
    if chunks == [] then [] else Flatten(chunks[..|chunks| - 1]) + chunks[|chunks| - 1]
  }

  /** One block of the on-screen table: the header row, then each nurse's row with "-" for a missing shift. */
  function ScreenTable(data: ScheduleResponse, names: seq<string>, chunk: seq<Date>,
                       iso: Date -> string, display: Date -> string): seq<seq<string>>
  {
    [HeaderRow(chunk, display)] +
    seq(|names|, r requires 0 <= r < |names| =>
      [names[r]] + seq(|chunk|, c requires 0 <= c < |chunk| => ScreenCell(data, iso(chunk[c]), names[r])))
  }

  /**
   * renderTableChunks: the days cut into blocks of seven (the last block may
   * be shorter), each rendered as its own table.
   */
  method RenderTableChunks(data: ScheduleResponse, names: seq<string>, days: seq<Date>,
                           iso: Date -> string, display: Date -> string)
    returns (chunks: seq<seq<Date>>, tables: seq<seq<seq<string>>>)
    ensures Flatten(chunks) == days
    ensures forall k :: 0 <= k < |chunks| ==> 0 < |chunks[k]| <= ChunkSize
    ensures forall k :: 0 <= k < |chunks| - 1 ==> |chunks[k]| == ChunkSize
    ensures |tables| == |chunks|
    ensures forall k :: 0 <= k < |chunks| ==> tables[k] == ScreenTable(data, names, chunks[k], iso, display)
  {
    chunks, tables := [], [];
    var i := 0;
    while i < |days|
      invariant i == ChunkSize * |chunks|
      invariant i < |days| ==> Flatten(chunks) == days[..i]
      invariant i >= |days| ==> Flatten(chunks) == days
      invariant forall k :: 0 <= k < |chunks| ==> 0 < |chunks[k]| <= ChunkSize
      invariant forall k :: 0 <= k < |chunks| - 1 ==> |chunks[k]| == ChunkSize
      invariant i < |days| ==> forall k :: 0 <= k < |chunks| ==> |chunks[k]| == ChunkSize
      invariant |tables| == |chunks|
      invariant forall k :: 0 <= k < |chunks| ==> tables[k] == ScreenTable(data, names, chunks[k], iso, display)
      decreases |days| - i
    {
      var dateChunk := days[i..if i + ChunkSize < |days| then i + ChunkSize else |days|];
      assert Flatten(chunks + [dateChunk]) == Flatten(chunks) + dateChunk by {
        assert (chunks + [dateChunk])[..|chunks|] == chunks;
      }
      chunks := chunks + [dateChunk];
      tables := tables + [ScreenTable(data, names, dateChunk, iso, display)];
      if i + ChunkSize < |days| {
        assert days[..i] + dateChunk == days[..i + ChunkSize];
      } else {
        assert days[..i] + dateChunk == days;
      }
      i := i + ChunkSize;
    }
    if chunks == [] {
      assert days == [];
    }
  }

  /** The on-screen table shows the export cells, with "-" where the export has "". */
  lemma ScreenMatchesExport(data: ScheduleResponse, names: seq<string>, days: seq<Date>,
                            iso: Date -> string, display: Date -> string, r: nat, c: nat)
    requires r < |names| && c < |days|
    ensures var exported := ExportGrid(data, names, days, iso, display)[r + 1][c + 1];
      ScreenTable(data, names, days, iso, display)[r + 1][c + 1] ==
        if exported == "" then MissingOnScreen else exported
  {
  }
}
