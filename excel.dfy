/**
 * `ExcelSummaryService` (Services/ExcelSummaryService.cs): a workbook is
 * read sheet by sheet; every sheet reports how many rows were scanned, and
 * the first sheets up to a cap also contribute a preview table of their
 * first rows and columns, with each cell's text cut to a maximum length.
 */
module ExcelSummary {
  import opened Wrappers
  import opened Text
  import opened Results

  // ---------------------------------------------------------------------
  // What the reader returns
  // ---------------------------------------------------------------------

  /**
   * A cell as `IExcelDataReader.GetValue` returns it. Dates, finite doubles
   * and other formattable values arrive already printed in the invariant
   * culture (`Formatted`); the other cases are the ones `FormatCell` names.
   */
  datatype CellValue = Null | DbNull | Boolean(b: bool) | NaN | PositiveInfinity | NegativeInfinity | Formatted(text: string)

  /** A row of a sheet; its length is the reader's `FieldCount` for that row. */
  type Row = seq<CellValue>

  /** A result set of the reader: its `Name`, which may be null, and its rows. */
  datatype Sheet = Sheet(name: Option<string>, rows: seq<Row>)

  /**
   * What reading a workbook yields: the result sets read to the end, and the
   * message of the exception that stopped the reader early, if one did. A
   * file that cannot be opened or parsed fails before its first sheet.
   */
  datatype Workbook = Workbook(sheets: seq<Sheet>, failure: Option<string>)

  /** The configured Excel limits; C# `int`s, so any of them may be zero or negative. */
  datatype ExcelLimits = ExcelLimits(maxSheets: int, maxRows: int, maxColumns: int, maxRowsToScan: int, maxCellCharacters: int)

  /** The limits the loop works with. */
  datatype Caps = Caps(maxSheets: nat, maxPreviewRows: nat, maxColumns: nat, maxRowsToScan: nat, maxCellCharacters: nat)

  /** What `ExcelSummaryService.Summarize` returns: the report text and one table per previewed sheet with rows. */
  datatype ExcelSummaryResult = ExcelSummaryResult(summary: string, tables: seq<TableSummary>)

  const FailedToRead := "Failed to read workbook: "
  const PreviewSkipped := "   Preview skipped (sheet limit reached)."

  // ---------------------------------------------------------------------
  // Limits
  // ---------------------------------------------------------------------

  predicate ValidCaps(c: Caps)
  {
    c.maxSheets >= 1 && c.maxPreviewRows >= 1 && c.maxColumns >= 1 && c.maxCellCharacters >= 1
    && c.maxRowsToScan >= c.maxPreviewRows
  }

  function AtLeast(low: nat, n: int): (r: nat)
    ensures r >= low && r >= n
    ensures r == low || r == n
  {
    if n < low then low else n
  }

  /**
   * The clamps at the start of `Summarize`: every cap is at least 1, the
   * scan cap at least the preview cap, and a cap already in range is kept.
   */
  function Clamp(l: ExcelLimits): (c: Caps)
    ensures ValidCaps(c)
    ensures l.maxSheets >= 1 ==> c.maxSheets == l.maxSheets
    ensures l.maxRows >= 1 ==> c.maxPreviewRows == l.maxRows
    ensures l.maxColumns >= 1 ==> c.maxColumns == l.maxColumns
    ensures l.maxCellCharacters >= 1 ==> c.maxCellCharacters == l.maxCellCharacters
    ensures l.maxRowsToScan >= c.maxPreviewRows ==> c.maxRowsToScan == l.maxRowsToScan
    ensures l.maxSheets < 1 ==> c.maxSheets == 1
    ensures l.maxRowsToScan < c.maxPreviewRows ==> c.maxRowsToScan == c.maxPreviewRows
  {
    var maxPreviewRows := AtLeast(1, l.maxRows);
    Caps(AtLeast(1, l.maxSheets), maxPreviewRows, AtLeast(1, l.maxColumns), AtLeast(maxPreviewRows, l.maxRowsToScan),
         AtLeast(1, l.maxCellCharacters))
  }

  /** Limits already in range are left as they are: clamping twice changes nothing. */
  lemma ClampKeepsValid(c: Caps)
    requires ValidCaps(c)
    ensures Clamp(ExcelLimits(c.maxSheets, c.maxPreviewRows, c.maxColumns, c.maxRowsToScan, c.maxCellCharacters)) == c
  {
  }

  // ---------------------------------------------------------------------
  // Cells
  // ---------------------------------------------------------------------

  /** The text of a cell before truncation, as the `switch` of `FormatCell` chooses it. */
  function CellText(v: CellValue): string
  {
    match v
    case Null => ""
    case DbNull => ""
    case Boolean(b) => if b then "TRUE" else "FALSE"
    case NaN => "NaN"
    case PositiveInfinity => "Infinity"
    case NegativeInfinity => "-Infinity"
    case Formatted(t) => t
  }

  /**
   * `FormatCell`: null cells are empty, booleans read TRUE or FALSE, and a
   * text longer than the maximum keeps its first `maxCharacters` characters
   * followed by "...".
   */
  function FormatCell(v: CellValue, maxCharacters: nat): (text: string)
    ensures v.Null? || v.DbNull? ==> text == ""
    ensures v.Boolean? && maxCharacters >= 5 ==> text == if v.b then "TRUE" else "FALSE"
    ensures |CellText(v)| <= maxCharacters ==> text == CellText(v)
    ensures |CellText(v)| > maxCharacters ==>
              |text| == maxCharacters + 3 && StartsWith(CellText(v), text[..maxCharacters]) && EndsWith(text, "...")
    ensures |text| <= maxCharacters + 3
  {
    if v.Null? || v.DbNull? then ""
    else
      var t := CellText(v);
      if |t| > maxCharacters then t[..maxCharacters] + "..." else t
  }

  /** A row as the preview keeps it: its first cells up to the column cap, each formatted. */
  function PreviewRow(row: Row, maxColumns: nat, maxCharacters: nat): (cells: seq<string>)
    ensures |cells| == MinNat(|row|, maxColumns)
    ensures forall i :: 0 <= i < |cells| ==> cells[i] == FormatCell(row[i], maxCharacters)
  {
    seq(MinNat(|row|, maxColumns), i requires 0 <= i < MinNat(|row|, maxColumns) => FormatCell(row[i], maxCharacters))
  }

  /** The inner `for` of the row loop: fills a fresh array of `columnCount` formatted cells. */
  method FormatRow(row: Row, columnCount: nat, maxCharacters: nat) returns (cells: seq<string>)
    requires columnCount <= |row|
    ensures |cells| == columnCount
    ensures forall i :: 0 <= i < columnCount ==> cells[i] == FormatCell(row[i], maxCharacters)
  {
    var a := new string[columnCount](_ => "");
    for i := 0 to columnCount
      invariant forall k :: 0 <= k < i ==> a[k] == FormatCell(row[k], maxCharacters)
    {
      var text := FormatCell(row[i], maxCharacters);
      a[i] := text;
    }
    cells := a[..];
  }

  // ---------------------------------------------------------------------
  // Headers and row normalization
  // ---------------------------------------------------------------------

  function ColumnHeader(i: nat): string
  {
    "Column " + NatToString(i + 1)
  }

  /** The headers `CreateHeaders(count)` returns: "Column 1" to "Column count", none for `count <= 0`. */
  function Headers(count: int): (h: seq<string>)
    ensures |h| == if count <= 0 then 0 else count
    ensures forall i :: 0 <= i < |h| ==> h[i] == ColumnHeader(i)
  {
    if count <= 0 then [] else seq(count, i requires 0 <= i < count => ColumnHeader(i))
  }

  /** `CreateHeaders`. */
  method CreateHeaders(count: int) returns (headers: seq<string>)
    ensures headers == Headers(count)
  {
    if count <= 0 {
      return [];
    }
    var a := new string[count](_ => "");
    for i := 0 to count
      invariant forall k :: 0 <= k < i ==> a[k] == ColumnHeader(k)
    {
      a[i] := "Column " + NatToString(i + 1);
    }
    headers := a[..];
  }

  /** No two headers are alike: the column numbers differ. */
  lemma HeadersDistinct(count: int, i: nat, j: nat)
    requires i < j < |Headers(count)|
    ensures Headers(count)[i] != Headers(count)[j]
  {
    var h := Headers(count);
    if h[i] == h[j] {
      assert NatToString(i + 1) == h[i][7..] && NatToString(j + 1) == h[j][7..];
      ParseNatToString(i + 1);
      ParseNatToString(j + 1);
    }
  }

  /**
   * A row brought to `columnCount` cells: kept when it already has that
   * many, otherwise its first cells copied into a fresh row whose other
   * slots stay empty.
   */
  function NormalizedRow(row: seq<string>, columnCount: nat): (r: seq<string>)
    ensures |r| == columnCount
    ensures forall i :: 0 <= i < columnCount ==> r[i] == if i < |row| then row[i] else ""
  {
    if |row| == columnCount then row
    else seq(columnCount, i requires 0 <= i < columnCount => if i < |row| then row[i] else "")
  }

  /** `NormalizeRows` as a value: rows unchanged for a non-positive count, otherwise every row normalized. */
  function NormalizedRows(rows: seq<seq<string>>, columnCount: int): (r: seq<seq<string>>)
    ensures |r| == |rows|
    ensures columnCount > 0 ==> forall k :: 0 <= k < |r| ==> r[k] == NormalizedRow(rows[k], columnCount)
    ensures columnCount <= 0 ==> r == rows
  {
    if columnCount <= 0 then rows
    else seq(|rows|, k requires 0 <= k < |rows| => NormalizedRow(rows[k], columnCount))
  }

  /** `NormalizeRows`: the `foreach` over the rows, padding the short ones. */
  method NormalizeRows(rows: seq<seq<string>>, columnCount: int) returns (normalized: seq<seq<string>>)
    ensures normalized == NormalizedRows(rows, columnCount)
  {
    if columnCount <= 0 {
      return rows;
    }
    normalized := [];
    for k := 0 to |rows|
      invariant |normalized| == k
      invariant forall j :: 0 <= j < k ==> normalized[j] == NormalizedRow(rows[j], columnCount)
    {
      var row := rows[k];
      if |row| == columnCount {
        normalized := normalized + [row];
      } else {
        var padded := new string[columnCount](_ => "");
        for i := 0 to MinNat(|row|, columnCount)
          invariant forall j :: 0 <= j < i ==> padded[j] == row[j]
          invariant forall j :: i <= j < columnCount ==> padded[j] == ""
        {
          padded[i] := row[i];
        }
        assert padded[..] == NormalizedRow(row, columnCount);
        normalized := normalized + [padded[..]];
      }
    }
  }

  /** Normalized rows are left alone by a second normalization to the same width. */
  lemma NormalizeIdempotent(rows: seq<seq<string>>, columnCount: int)
    ensures NormalizedRows(NormalizedRows(rows, columnCount), columnCount) == NormalizedRows(rows, columnCount)
  {
  }

  // ---------------------------------------------------------------------
  // One sheet
  // ---------------------------------------------------------------------

  /**
   * The state of the row loop: rows read, preview rows kept, the three
   * truncation flags and the widest preview width.
   */
  datatype SheetScan = SheetScan(rowsSeen: nat, previewRows: seq<seq<string>>, previewRowsTruncated: bool,
                                 columnLimitHit: bool, rowScanTruncated: bool, headerColumnCount: nat)

  /** The widest row of `seen`, counted up to the column cap; 0 with no rows. */
  function Widest(seen: seq<Row>, maxColumns: nat): nat
    decreases |seen|
  {
    if |seen| == 0 then 0
    else
      var w := Widest(seen[..|seen| - 1], maxColumns);
      var c := MinNat(|seen[|seen| - 1]|, maxColumns);
      if w < c then c else w
  }

  /** Some row of `seen` has more fields than the column cap. */
  predicate AnyWider(seen: seq<Row>, maxColumns: nat)
  {
    exists k :: 0 <= k < |seen| && |seen[k]| > maxColumns
  }

  function PreviewRows(rows: seq<Row>, maxColumns: nat, maxCharacters: nat): (r: seq<seq<string>>)
    ensures |r| == |rows|
    ensures forall k :: 0 <= k < |rows| ==> r[k] == PreviewRow(rows[k], maxColumns, maxCharacters)
  {
    seq(|rows|, k requires 0 <= k < |rows| => PreviewRow(rows[k], maxColumns, maxCharacters))
  }

  /** The state of the row loop once it has read `seen` and not yet met the scan cap. */
  function Scanned(seen: seq<Row>, includePreview: bool, caps: Caps): SheetScan
  {
    SheetScan(|seen|,
              if includePreview then PreviewRows(Take(seen, caps.maxPreviewRows), caps.maxColumns, caps.maxCellCharacters) else [],
              includePreview && |seen| > caps.maxPreviewRows,
              includePreview && AnyWider(seen, caps.maxColumns),
              false,
              if includePreview then Widest(seen, caps.maxColumns) else 0)
  }

  /** The row loop of a sheet: it reads up to `maxRowsToScan` rows and stops as soon as it has read that many. */
  function SheetScanOf(rows: seq<Row>, includePreview: bool, caps: Caps): SheetScan
    requires ValidCaps(caps)
  {
    var scan := Scanned(rows[..MinNat(|rows|, caps.maxRowsToScan)], includePreview, caps);
    scan.(rowScanTruncated := |rows| >= caps.maxRowsToScan)
  }

  /** One pass of the row loop over `row`. */
  method ReadRow(scan: SheetScan, row: Row, includePreview: bool, caps: Caps) returns (next: SheetScan)
    ensures next.rowsSeen == scan.rowsSeen + 1 && next.rowScanTruncated == scan.rowScanTruncated
    ensures next.headerColumnCount
            == if includePreview && scan.headerColumnCount < MinNat(|row|, caps.maxColumns)
               then MinNat(|row|, caps.maxColumns) else scan.headerColumnCount
    ensures next.columnLimitHit == (scan.columnLimitHit || (includePreview && |row| > caps.maxColumns))
    ensures next.previewRows
            == if includePreview && |scan.previewRows| < caps.maxPreviewRows
               then scan.previewRows + [PreviewRow(row, caps.maxColumns, caps.maxCellCharacters)] else scan.previewRows
    ensures next.previewRowsTruncated
            == (scan.previewRowsTruncated || (includePreview && |scan.previewRows| >= caps.maxPreviewRows))
  {
    next := scan.(rowsSeen := scan.rowsSeen + 1);
    if includePreview {
      var fieldCount := |row|;
      var columnCount := MinNat(fieldCount, caps.maxColumns);
      if next.headerColumnCount < columnCount {
        next := next.(headerColumnCount := columnCount);
      }
      if fieldCount > caps.maxColumns {
        next := next.(columnLimitHit := true);
      }
      if |next.previewRows| < caps.maxPreviewRows {
        var cells := FormatRow(row, columnCount, caps.maxCellCharacters);
        assert cells == PreviewRow(row, caps.maxColumns, caps.maxCellCharacters);
        next := next.(previewRows := next.previewRows + [cells]);
      } else {
        next := next.(previewRowsTruncated := true);
      }
    }
  }

  lemma PreviewRowsSnoc(rows: seq<Row>, row: Row, maxColumns: nat, maxCharacters: nat)
    ensures PreviewRows(rows + [row], maxColumns, maxCharacters)
            == PreviewRows(rows, maxColumns, maxCharacters) + [PreviewRow(row, maxColumns, maxCharacters)]
  {
  }

  lemma AnyWiderSnoc(seen: seq<Row>, row: Row, maxColumns: nat)
    ensures AnyWider(seen + [row], maxColumns) == (AnyWider(seen, maxColumns) || |row| > maxColumns)
  {
    if AnyWider(seen + [row], maxColumns) && !(|row| > maxColumns) {
      var k :| 0 <= k < |seen| + 1 && |(seen + [row])[k]| > maxColumns;
      assert k < |seen| && (seen + [row])[k] == seen[k];
    }
    if |row| > maxColumns {
      assert (seen + [row])[|seen|] == row;
    }
    if AnyWider(seen, maxColumns) {
      var k :| 0 <= k < |seen| && |seen[k]| > maxColumns;
      assert (seen + [row])[k] == seen[k];
    }
  }

  lemma WidestSnoc(seen: seq<Row>, row: Row, maxColumns: nat)
    ensures Widest(seen + [row], maxColumns)
            == if Widest(seen, maxColumns) < MinNat(|row|, maxColumns) then MinNat(|row|, maxColumns) else Widest(seen, maxColumns)
  {
    assert (seen + [row])[..|seen|] == seen;
  }

  /** The loop state after one more row is that pass of the loop applied to the state before. */
  lemma ScannedSnoc(seen: seq<Row>, row: Row, includePreview: bool, caps: Caps)
    ensures var scan := Scanned(seen, includePreview, caps);
      var next := Scanned(seen + [row], includePreview, caps);
      && next.rowsSeen == scan.rowsSeen + 1 && next.rowScanTruncated == scan.rowScanTruncated
      && next.headerColumnCount
         == (if includePreview && scan.headerColumnCount < MinNat(|row|, caps.maxColumns)
             then MinNat(|row|, caps.maxColumns) else scan.headerColumnCount)
      && next.columnLimitHit == (scan.columnLimitHit || (includePreview && |row| > caps.maxColumns))
      && next.previewRows
         == (if includePreview && |scan.previewRows| < caps.maxPreviewRows
             then scan.previewRows + [PreviewRow(row, caps.maxColumns, caps.maxCellCharacters)] else scan.previewRows)
      && next.previewRowsTruncated
         == (scan.previewRowsTruncated || (includePreview && |scan.previewRows| >= caps.maxPreviewRows))
  {
    TakeSnoc(seen, row, caps.maxPreviewRows);
    PreviewRowsSnoc(Take(seen, caps.maxPreviewRows), row, caps.maxColumns, caps.maxCellCharacters);
    AnyWiderSnoc(seen, row, caps.maxColumns);
    WidestSnoc(seen, row, caps.maxColumns);
  }

  /** One turn of the row loop, from the state after `rows[..i]` to the state after `rows[..i + 1]`. */
  method ScanNext(rows: seq<Row>, i: nat, scan: SheetScan, includePreview: bool, caps: Caps) returns (next: SheetScan)
    requires i < |rows|
    requires scan == Scanned(rows[..i], includePreview, caps)
    ensures next == Scanned(rows[..i + 1], includePreview, caps)
  {
    TakeOneMore(rows, i);
    ScannedSnoc(rows[..i], rows[i], includePreview, caps);
    next := ReadRow(scan, rows[i], includePreview, caps);
  }

  /** The `while (reader.Read())` loop of one sheet. */
  method ScanSheet(rows: seq<Row>, includePreview: bool, caps: Caps) returns (scan: SheetScan)
    requires ValidCaps(caps)
    ensures scan == SheetScanOf(rows, includePreview, caps)
  {
    scan := SheetScan(0, [], false, false, false, 0);
    var i := 0;
    while i < |rows|
      invariant i <= |rows| && i < caps.maxRowsToScan
      invariant scan == Scanned(rows[..i], includePreview, caps)
    {
      scan := ScanNext(rows, i, scan, includePreview, caps);
      i := i + 1;
      if scan.rowsSeen >= caps.maxRowsToScan {
        scan := scan.(rowScanTruncated := true);
        return;
      }
    }
    assert rows[..i] == rows[..MinNat(|rows|, caps.maxRowsToScan)];
  }

  /** The widest row is at least as wide as every scanned row, counted up to the cap, and is one of them. */
  lemma {:induction false} WidestIsMax(seen: seq<Row>, maxColumns: nat)
    ensures forall k :: 0 <= k < |seen| ==> MinNat(|seen[k]|, maxColumns) <= Widest(seen, maxColumns)
    ensures Widest(seen, maxColumns) <= maxColumns
    ensures |seen| > 0 ==> exists k :: 0 <= k < |seen| && Widest(seen, maxColumns) == MinNat(|seen[k]|, maxColumns)
    decreases |seen|
  {
    if |seen| > 0 {
      var prefix := seen[..|seen| - 1];
      WidestIsMax(prefix, maxColumns);
      forall k | 0 <= k < |prefix|
        ensures seen[k] == prefix[k]
      {
      }
      if |prefix| > 0 && Widest(seen, maxColumns) == Widest(prefix, maxColumns) {
        var k :| 0 <= k < |prefix| && Widest(prefix, maxColumns) == MinNat(|prefix[k]|, maxColumns);
        assert seen[k] == prefix[k];
      }
    }
  }

  /**
   * What the row loop of a sheet gathers: at most `maxRowsToScan` rows, the
   * scan flagged as cut off exactly when the sheet has that many rows or
   * more, and, for a previewed sheet, the first `maxPreviewRows` of them,
   * flagged exactly when a further row was read.
   */
  lemma SheetScanCounts(rows: seq<Row>, includePreview: bool, caps: Caps)
    requires ValidCaps(caps)
    ensures var scan := SheetScanOf(rows, includePreview, caps);
      && scan.rowsSeen == MinNat(|rows|, caps.maxRowsToScan) && scan.rowsSeen <= caps.maxRowsToScan
      && (scan.rowScanTruncated <==> |rows| >= caps.maxRowsToScan)
      && |scan.previewRows| == (if includePreview then MinNat(scan.rowsSeen, caps.maxPreviewRows) else 0)
      && |scan.previewRows| <= caps.maxPreviewRows
      && (scan.previewRowsTruncated <==> includePreview && scan.rowsSeen > caps.maxPreviewRows)
      && (!includePreview ==> !scan.columnLimitHit && scan.headerColumnCount == 0)
  {
  }

  /**
   * The cells of a sheet's preview: preview row `k` is row `k` of the
   * sheet cut to the column cap and formatted, which makes it no wider than
   * the header count; the column flag is set exactly when some scanned row
   * has more fields than the cap.
   */
  lemma SheetScanCells(rows: seq<Row>, caps: Caps)
    requires ValidCaps(caps)
    ensures var scan := SheetScanOf(rows, true, caps);
      && (forall k :: 0 <= k < |scan.previewRows| ==>
            scan.previewRows[k] == PreviewRow(rows[k], caps.maxColumns, caps.maxCellCharacters)
            && |scan.previewRows[k]| <= scan.headerColumnCount)
      && scan.headerColumnCount <= caps.maxColumns
      && (scan.columnLimitHit <==> exists k :: 0 <= k < scan.rowsSeen && |rows[k]| > caps.maxColumns)
  {
    var seen := rows[..MinNat(|rows|, caps.maxRowsToScan)];
    WidestIsMax(seen, caps.maxColumns);
    var scan := SheetScanOf(rows, true, caps);
    forall k | 0 <= k < |scan.previewRows|
      ensures scan.previewRows[k] == PreviewRow(rows[k], caps.maxColumns, caps.maxCellCharacters)
      ensures |scan.previewRows[k]| <= scan.headerColumnCount
    {
      assert Take(seen, caps.maxPreviewRows)[k] == seen[k] == rows[k];
    }
    if scan.columnLimitHit {
      var k :| 0 <= k < |seen| && |seen[k]| > caps.maxColumns;
      assert seen[k] == rows[k];
    }
    if exists k :: 0 <= k < scan.rowsSeen && |rows[k]| > caps.maxColumns {
      var k :| 0 <= k < scan.rowsSeen && |rows[k]| > caps.maxColumns;
      assert seen[k] == rows[k];
    }
  }

  /** A blank or missing sheet name becomes "Sheet {index}". */
  function SheetName(name: Option<string>, index: nat): (r: string)
    ensures !IsNullOrWhiteSpace(name) ==> r == name.value
    ensures IsNullOrWhiteSpace(name) ==> r == "Sheet " + NatToString(index)
  {
    if IsNullOrWhiteSpace(name) then "Sheet " + NatToString(index) else name.value
  }

  function LimitedTo(limited: bool, cap: string): string
  {
    if limited then " (limited to " + cap + ")" else ""
  }

  lemma DiffersAt(a: string, b: string, i: nat)
    requires i < |a| && i < |b| && a[i] != b[i]
    ensures a != b
  {
  }

  /** The preview lines of a previewed sheet: its preview row count, then the shown column count when there is one. */
  function PreviewDetail(scan: SheetScan, caps: Caps): (lines: seq<string>)
    ensures 1 <= |lines| <= 2 && (|lines| == 2 <==> scan.headerColumnCount > 0)
    ensures PreviewSkipped !in lines
  {
    var rows := "   Preview rows: " + FormatN0(|scan.previewRows|) + LimitedTo(scan.previewRowsTruncated, FormatN0(caps.maxPreviewRows));
    DiffersAt(rows, PreviewSkipped, 11);
    if scan.headerColumnCount > 0 then
      var columns := "   Columns shown: " + NatToString(scan.headerColumnCount) + LimitedTo(scan.columnLimitHit, "first " + NatToString(caps.maxColumns));
      DiffersAt(columns, PreviewSkipped, 3);
      [rows, columns]
    else [rows]
  }

  /** The detail lines of one sheet, ending in a blank line. */
  function SheetLines(index: nat, name: string, previewed: bool, scan: SheetScan, caps: Caps): seq<string>
  {
    [NatToString(index) + ". " + name,
     "   Rows scanned: " + FormatN0(scan.rowsSeen) + LimitedTo(scan.rowScanTruncated, FormatN0(caps.maxRowsToScan))]
    + (if previewed then PreviewDetail(scan, caps) else [PreviewSkipped])
    + [""]
  }

  /** The table of one sheet: only a previewed sheet with preview rows has one. */
  function SheetTable(name: string, includePreview: bool, scan: SheetScan, caps: Caps): Option<TableSummary>
  {
    if includePreview && |scan.previewRows| > 0 then
      Some(TableSummary(name + " (first " + NatToString(MinNat(|scan.previewRows|, caps.maxPreviewRows)) + " rows)",
                        Headers(scan.headerColumnCount),
                        NormalizedRows(scan.previewRows, scan.headerColumnCount),
                        scan.previewRowsTruncated || scan.rowScanTruncated || scan.columnLimitHit))
    else Option.None
  }

  /** The body of the sheet loop for the sheet at 1-based `sheetIndex`. */
  method SummarizeSheet(sheet: Sheet, sheetIndex: nat, includePreview: bool, caps: Caps)
    returns (lines: seq<string>, table: Option<TableSummary>)
    requires ValidCaps(caps)
    ensures var scan := SheetScanOf(sheet.rows, includePreview, caps);
      var name := SheetName(sheet.name, sheetIndex);
      lines == SheetLines(sheetIndex, name, includePreview, scan, caps) && table == SheetTable(name, includePreview, scan, caps)
  {
    var sheetName := if IsNullOrWhiteSpace(sheet.name) then "Sheet " + NatToString(sheetIndex) else sheet.name.value;
    var scan := ScanSheet(sheet.rows, includePreview, caps);
    lines := SheetLines(sheetIndex, sheetName, includePreview, scan, caps);
    table := Option.None;
    if includePreview && |scan.previewRows| > 0 {
      var headers := CreateHeaders(scan.headerColumnCount);
      var normalizedRows := NormalizeRows(scan.previewRows, scan.headerColumnCount);
      table := Some(TableSummary(sheetName + " (first " + NatToString(MinNat(|scan.previewRows|, caps.maxPreviewRows)) + " rows)",
                                 headers, normalizedRows,
                                 scan.previewRowsTruncated || scan.rowScanTruncated || scan.columnLimitHit));
    }
  }

  /** A sheet past the sheet cap says its preview was skipped; a previewed sheet never does. */
  lemma PreviewSkippedIffNotPreviewed(index: nat, name: string, previewed: bool, scan: SheetScan, caps: Caps)
    ensures !previewed ==> SheetLines(index, name, previewed, scan, caps)[2] == PreviewSkipped
    ensures previewed ==> PreviewSkipped !in SheetLines(index, name, previewed, scan, caps)
  {
    if previewed {
      var head := NatToString(index) + ". " + name;
      var scanned := "   Rows scanned: " + FormatN0(scan.rowsSeen) + LimitedTo(scan.rowScanTruncated, FormatN0(caps.maxRowsToScan));
      DiffersAt(head, PreviewSkipped, 0);
      DiffersAt(scanned, PreviewSkipped, 3);
      assert SheetLines(index, name, previewed, scan, caps) == [head, scanned] + PreviewDetail(scan, caps) + [""];
    }
  }

  /**
   * A sheet has a table exactly when it is previewed and has a row; the
   * table has one header per shown column, every row as wide as the
   * headers, and is flagged truncated when any of the three limits was hit.
   */
  lemma SheetTableShape(rows: seq<Row>, name: string, includePreview: bool, caps: Caps)
    requires ValidCaps(caps)
    ensures var scan := SheetScanOf(rows, includePreview, caps);
      var t := SheetTable(name, includePreview, scan, caps);
      && (t.Some? <==> includePreview && |rows| > 0)
      && (t.Some? ==>
            && |t.value.headers| == scan.headerColumnCount
            && |t.value.rows| == |scan.previewRows| <= caps.maxPreviewRows
            && (forall k :: 0 <= k < |t.value.rows| ==> |t.value.rows[k]| == |t.value.headers|)
            && (t.value.isTruncated <==> scan.previewRowsTruncated || scan.rowScanTruncated || scan.columnLimitHit))
  {
    SheetScanCounts(rows, includePreview, caps);
    var scan := SheetScanOf(rows, includePreview, caps);
    if includePreview && |rows| > 0 {
      WidestIsMax(rows[..MinNat(|rows|, caps.maxRowsToScan)], caps.maxColumns);
      assert rows[..MinNat(|rows|, caps.maxRowsToScan)][0] == rows[0];
      assert scan.headerColumnCount > 0 || MinNat(|rows[0]|, caps.maxColumns) == 0;
    }
  }

  // ---------------------------------------------------------------------
  // The workbook
  // ---------------------------------------------------------------------

  /**
   * The result sets the sheet loop visits. The `do`/`while` visits the
   * first one even when the reader has none, which reads as an unnamed
   * empty sheet; a reader that failed visits only the complete sheets.
   */
  function ResultSets(w: Workbook): (sets: seq<Sheet>)
    ensures w.failure.None? ==> |sets| >= 1
  {
    if |w.sheets| == 0 && w.failure.None? then [Sheet(Option.None, [])] else w.sheets
  }

  /** The detail lines of the result sets, the `k`-th one previewed exactly when `k < maxSheets`. */
  function DetailsOf(sets: seq<Sheet>, caps: Caps): seq<string>
    requires ValidCaps(caps)
    decreases |sets|
  {
    if |sets| == 0 then []
    else
      var k := |sets| - 1;
      var previewed := k < caps.maxSheets;
      var name := SheetName(sets[k].name, k + 1);
      DetailsOf(sets[..k], caps) + SheetLines(k + 1, name, previewed, SheetScanOf(sets[k].rows, previewed, caps), caps)
  }

  /** The tables of the result sets, in order. */
  function TablesOf(sets: seq<Sheet>, caps: Caps): seq<TableSummary>
    requires ValidCaps(caps)
    decreases |sets|
  {
    if |sets| == 0 then []
    else
      var k := |sets| - 1;
      var previewed := k < caps.maxSheets;
      var name := SheetName(sets[k].name, k + 1);
      TablesOf(sets[..k], caps) + SheetTable(name, previewed, SheetScanOf(sets[k].rows, previewed, caps), caps).ToSeq()
  }

  /** The overview the report starts with. */
  function Overview(sheetCount: nat, sheetLimitReached: bool, caps: Caps): seq<string>
  {
    ["Sheets detected: " + FormatN0(sheetCount)]
    + (if sheetLimitReached then ["Preview limited to first " + NatToString(caps.maxSheets) + " sheets."] else [])
    + ["Rows sampled per sheet: up to " + FormatN0(caps.maxRowsToScan)
       + " (preview shows first " + FormatN0(caps.maxPreviewRows) + ").",
       "Columns sampled per sheet: up to " + NatToString(caps.maxColumns) + ".",
       ""]
  }

  /** The report of a failed read: only the failure message, whatever was gathered before. */
  function FailureReport(message: string): (summary: string)
    ensures summary == TrimEnd(FailedToRead + message)
  {
    var line := FailedToRead + message;
    LinesOfOne(line);
    TrimEndDropsBlank(line, NewLine);
    TrimEnd(Lines([FailedToRead + message]))
  }

  /** `Summarize` as a value; `readWorkbook` stands for `ExcelReaderFactory.CreateReader` and the reads it performs. */
  function ExcelSummaryOf(file: Option<seq<Byte>>, openError: string, limits: ExcelLimits,
                          readWorkbook: seq<Byte> -> Workbook): ExcelSummaryResult
  {
    if file.None? then ExcelSummaryResult(FailureReport(openError), [])
    else
      var w := readWorkbook(file.value);
      var caps := Clamp(limits);
      var sets := ResultSets(w);
      var tables := TablesOf(sets, caps);
      if w.failure.Some? then ExcelSummaryResult(FailureReport(w.failure.value), tables)
      else ExcelSummaryResult(TrimEnd(Lines(Overview(|sets|, |sets| > caps.maxSheets, caps) + DetailsOf(sets, caps))), tables)
  }

  lemma DetailsSnoc(sets: seq<Sheet>, i: nat, caps: Caps)
    requires ValidCaps(caps) && i < |sets|
    ensures var previewed := i < caps.maxSheets;
      var name := SheetName(sets[i].name, i + 1);
      var scan := SheetScanOf(sets[i].rows, previewed, caps);
      && DetailsOf(sets[..i + 1], caps) == DetailsOf(sets[..i], caps) + SheetLines(i + 1, name, previewed, scan, caps)
      && TablesOf(sets[..i + 1], caps) == TablesOf(sets[..i], caps) + SheetTable(name, previewed, scan, caps).ToSeq()
  {
    TakeOneMore(sets, i);
  }

  /** The `do`/`while` over the result sets. */
  method SummarizeSheets(sets: seq<Sheet>, caps: Caps)
    returns (details: seq<string>, tables: seq<TableSummary>, sheetIndex: nat, sheetLimitReached: bool)
    requires ValidCaps(caps)
    ensures details == DetailsOf(sets, caps) && tables == TablesOf(sets, caps)
    ensures sheetIndex == |sets| && sheetLimitReached == (|sets| > caps.maxSheets)
  {
    details, tables, sheetIndex, sheetLimitReached := [], [], 0, false;
    var previewedSheets: nat := 0;
    while sheetIndex < |sets|
      invariant sheetIndex <= |sets|
      invariant previewedSheets == MinNat(sheetIndex, caps.maxSheets)
      invariant sheetLimitReached == (sheetIndex > caps.maxSheets)
      invariant details == DetailsOf(sets[..sheetIndex], caps) && tables == TablesOf(sets[..sheetIndex], caps)
    {
      var sheet := sets[sheetIndex];
      DetailsSnoc(sets, sheetIndex, caps);
      var includePreview := previewedSheets < caps.maxSheets;
      if includePreview {
        previewedSheets := previewedSheets + 1;
      } else {
        sheetLimitReached := true;
      }
      var lines, table := SummarizeSheet(sheet, sheetIndex + 1, includePreview, caps);
      details := details + lines;
      if table.Some? {
        tables := tables + [table.value];
      }
      sheetIndex := sheetIndex + 1;
    }
    assert sets[..sheetIndex] == sets;
  }

  /** `ExcelSummaryService.Summarize`. */
  method Summarize(file: Option<seq<Byte>>, openError: string, limits: ExcelLimits, readWorkbook: seq<Byte> -> Workbook)
    returns (r: ExcelSummaryResult)
    ensures r == ExcelSummaryOf(file, openError, limits, readWorkbook)
  {
    if file.None? {
      return ExcelSummaryResult(TrimEnd(Lines([FailedToRead + openError])), []);
    }
    var caps := Clamp(limits);
    var w := readWorkbook(file.value);
    var details, tables, sheetIndex, sheetLimitReached := SummarizeSheets(ResultSets(w), caps);
    if w.failure.Some? {
      return ExcelSummaryResult(TrimEnd(Lines([FailedToRead + w.failure.value])), tables);
    }
    var overview := Overview(sheetIndex, sheetLimitReached, caps);
    r := ExcelSummaryResult(TrimEnd(Lines(overview + details)), tables);
  }

  // ---------------------------------------------------------------------
  // Properties of the workbook report
  // ---------------------------------------------------------------------

  /** Only the first `maxSheets` sheets can have a table, so there are at most that many, and no more than sheets. */
  lemma {:induction false} TablesBounded(sets: seq<Sheet>, caps: Caps)
    requires ValidCaps(caps)
    ensures |TablesOf(sets, caps)| <= MinNat(|sets|, caps.maxSheets)
    decreases |sets|
  {
    if |sets| > 0 {
      var k := |sets| - 1;
      TablesBounded(sets[..k], caps);
      var previewed := k < caps.maxSheets;
      if !previewed {
        assert SheetTable(SheetName(sets[k].name, k + 1), previewed, SheetScanOf(sets[k].rows, previewed, caps), caps).None?;
      }
    }
  }

  /** The overview names the sheet cap exactly when more sheets exist than the cap. */
  lemma OverviewSheetLimit(sheetCount: nat, caps: Caps)
    ensures var lines := Overview(sheetCount, sheetCount > caps.maxSheets, caps);
      var note := "Preview limited to first " + NatToString(caps.maxSheets) + " sheets.";
      && (sheetCount > caps.maxSheets ==> lines[1] == note)
      && (sheetCount <= caps.maxSheets ==> note !in lines)
  {
    var lines := Overview(sheetCount, sheetCount > caps.maxSheets, caps);
    var note := "Preview limited to first " + NatToString(caps.maxSheets) + " sheets.";
    if sheetCount <= caps.maxSheets {
      assert |lines| == 4;
      assert lines[0][0] == 'S' && lines[1][0] == 'R' && lines[2][0] == 'C' && lines[3] == "";
      assert note[0] == 'P';
    }
  }

  /**
   * A read that fails reports only the failure message, and keeps the
   * tables of the sheets read completely before it.
   */
  lemma FailureReported(file: seq<Byte>, openError: string, limits: ExcelLimits, readWorkbook: seq<Byte> -> Workbook)
    requires readWorkbook(file).failure.Some?
    ensures var r := ExcelSummaryOf(Some(file), openError, limits, readWorkbook);
      var w := readWorkbook(file);
      && r.summary == TrimEnd(FailedToRead + w.failure.value)
      && r.tables == TablesOf(w.sheets, Clamp(limits))
  {
  }
}
