/**
 * `CsvSummarizer.Summarize` (Services/CsvSummarizer.cs): reads the header
 * line, elects the delimiter, names the columns, scans the data lines and
 * writes the report text.
 */
module CsvSummary {
  import opened Wrappers
  import opened Text
  import opened SummaryContext
  import opened Results
  import opened Csv

  /** One line of the numeric statistics: the column's name, its least and greatest number and their mean. */
  function StatLine(names: seq<string>, k: nat, values: seq<DecimalNumber>, fmt: DecimalFormat): (line: string)
    ensures |line| > 0 && line[0] == ' '
  {
    StatText(StatName(names, k), fmt.show(MinOf(values)), fmt.show(MaxOf(values)), fmt.showN2(AverageOf(values)))
  }

  /** The name a statistics line gives column `k`: its header, or "Column k+1" past the headers. */
  function StatName(names: seq<string>, k: nat): string
  {
    if k < |names| then names[k] else "Column " + NatToString(k + 1)
  }

  function StatText(name: string, min: string, max: string, avg: string): (line: string)
    ensures |line| > 0 && line[0] == ' '
  {
    "  " + name + ": min " + min + ", max " + max + ", avg " + avg
  }

  /** The statistics lines, one per key, in the order the keys are enumerated. */
  function StatLines(names: seq<string>, keys: seq<nat>, data: seq<string>, delimiter: char, fmt: DecimalFormat): (lines: seq<string>)
    ensures |lines| == |keys|
    ensures forall i :: 0 <= i < |keys| ==> lines[i] == StatLine(names, keys[i], ColumnValues(data, delimiter, keys[i], fmt), fmt)
  {
    seq(|keys|, i requires 0 <= i < |keys| => StatLine(names, keys[i], ColumnValues(data, delimiter, keys[i], fmt), fmt))
  }

  /** The note written when the scan stopped at the row cap. */
  function StopNote(rowCount: nat): (note: string)
    ensures |note| > 2 && note[2] == 'o'
  {
    "Processing stopped early after " + FormatN0(rowCount) + " rows for performance."
  }

  /** The line counting the preview rows; it mentions the cap once the preview is full or the scan was cut short. */
  function PreviewLine(previewCount: nat, truncated: bool): (line: string)
    ensures |line| > 2 && line[2] == 'e'
  {
    "Preview rows shown: " + FormatN0(previewCount)
    + (if previewCount >= MaxPreviewRows || truncated then " (limited to first " + FormatN0(MaxPreviewRows) + ")" else "")
  }

  /** The report up to the preview count: delimiter, numbered columns, rows scanned, rows shown. */
  function ReportHead(delimiter: char, names: seq<string>, rowCount: nat, previewCount: nat, truncated: bool): (head: seq<string>)
    ensures head != [] && head[|head| - 1] == PreviewLine(previewCount, truncated)
  {
    ["Detected delimiter: " + DescribeDelimiter(delimiter), "CSV Columns:"] + ColumnLines(names)
    + ["", "Data rows scanned: " + FormatN0(rowCount), PreviewLine(previewCount, truncated)]
  }

  /** The statistics part of the report: a heading and one line per column, or nothing when no column had a number. */
  function StatSection(statLines: seq<string>): seq<string>
  {
    if statLines == [] then [] else ["", "Numeric column stats (sample):"] + statLines
  }

  /** The closing note of a scan cut short. */
  function StopSection(truncated: bool, rowCount: nat): seq<string>
  {
    if truncated then ["", StopNote(rowCount)] else []
  }

  /** The report of a CSV file with a header line, line by line as it is appended. */
  function ReportLines(delimiter: char, names: seq<string>, rowCount: nat, previewCount: nat, truncated: bool,
                       statLines: seq<string>): seq<string>
  {
    ReportHead(delimiter, names, rowCount, previewCount, truncated) + StatSection(statLines) + StopSection(truncated, rowCount)
  }

  /**
   * The report's last line is the stop note exactly when the scan was cut
   * short: otherwise it ends with a statistics line or the preview count.
   */
  lemma StopNoteIffTruncated(delimiter: char, names: seq<string>, rowCount: nat, previewCount: nat, truncated: bool,
                             statLines: seq<string>)
    requires forall i :: 0 <= i < |statLines| ==> statLines[i] != [] && statLines[i][0] == ' '
    ensures var report := ReportLines(delimiter, names, rowCount, previewCount, truncated, statLines);
      report != [] && (report[|report| - 1] == StopNote(rowCount) <==> truncated)
  {
    var head := ReportHead(delimiter, names, rowCount, previewCount, truncated);
    var note := StopNote(rowCount);
    if truncated {
      LastOfAppend(head + StatSection(statLines), StopSection(truncated, rowCount));
    } else {
      LastOfAppend(head + StatSection(statLines), []);
      if statLines == [] {
        LastOfAppend(head, []);
      } else {
        LastOfAppend(head, StatSection(statLines));
        LastOfAppend(["", "Numeric column stats (sample):"], statLines);
      }
    }
  }

  lemma LastOfAppend<T>(a: seq<T>, b: seq<T>)
    requires a + b != []
    ensures b != [] ==> (a + b)[|a + b| - 1] == b[|b| - 1]
    ensures b == [] ==> a + b == a
  {
  }

  /** The report lines for the lines of a file whose first line is the header. */
  function ReportOf(lines: seq<string>, fmt: DecimalFormat): seq<string>
    requires lines != []
  {
    var delimiter := ElectDelimiter(lines[0]);
    var names := NamedHeaders(SplitCsv(lines[0], delimiter));
    var rowCount := MinNat(|lines| - 1, MaxRowsToInspect);
    var scanned := lines[1..][..rowCount];
    ReportLines(delimiter, names, rowCount, MinNat(rowCount, MaxPreviewRows), |lines| - 1 >= MaxRowsToInspect,
                StatLines(names, KeyOrder(scanned, delimiter, |names|, fmt), scanned, delimiter, fmt))
  }

  /** The result for the lines of a file whose first line is the header. */
  function CsvReport(lines: seq<string>, fmt: DecimalFormat): (r: CsvSummaryResult)
    requires lines != []
    ensures r.rowsScanned <= MaxRowsToInspect && |r.rows| <= MaxPreviewRows
    ensures r.rowsScanned == MinNat(|lines| - 1, MaxRowsToInspect)
    ensures |r.rows| == MinNat(|lines| - 1, MaxPreviewRows)
    ensures r.previewTruncated <==> |lines| - 1 >= MaxRowsToInspect
    ensures |r.headers| == |SplitCsv(lines[0], ElectDelimiter(lines[0]))|
    ensures forall j :: 0 <= j < |r.rows| ==> r.rows[j] == PaddedRow(|r.headers|, SplitCsv(lines[j + 1], ElectDelimiter(lines[0])))
    ensures r.summaryText == Lines(ReportOf(lines, fmt))
  {
    var delimiter := ElectDelimiter(lines[0]);
    var names := NamedHeaders(SplitCsv(lines[0], delimiter));
    var data := lines[1..];
    var rowCount := MinNat(|data|, MaxRowsToInspect);
    var preview := PreviewOf(data, delimiter, |names|, MinNat(rowCount, MaxPreviewRows));
    CsvSummaryResult(names, preview, Lines(ReportOf(lines, fmt)), rowCount, |data| >= MaxRowsToInspect)
  }

  /** The headers of the report are never blank, and a header that was not blank is shown as it was. */
  lemma ReportHeaders(lines: seq<string>, fmt: DecimalFormat)
    requires lines != []
    ensures var r := CsvReport(lines, fmt);
      var given := SplitCsv(lines[0], ElectDelimiter(lines[0]));
      forall i :: 0 <= i < |r.headers| ==> !IsBlank(r.headers[i]) && (!IsBlank(given[i]) ==> r.headers[i] == given[i])
  {
    var given := SplitCsv(lines[0], ElectDelimiter(lines[0]));
    forall i | 0 <= i < |given|
      ensures !IsBlank(NamedHeaders(given)[i]) && (!IsBlank(given[i]) ==> NamedHeaders(given)[i] == given[i])
    {
      NamedHeadersNotBlank(given, i);
    }
  }

  /** The report ends with "Processing stopped early ..." exactly when it was flagged truncated. */
  lemma TruncationNoted(lines: seq<string>, fmt: DecimalFormat)
    requires lines != []
    ensures var report := ReportOf(lines, fmt);
      report != [] && (report[|report| - 1] == StopNote(CsvReport(lines, fmt).rowsScanned) <==> CsvReport(lines, fmt).previewTruncated)
  {
    var delimiter := ElectDelimiter(lines[0]);
    var names := NamedHeaders(SplitCsv(lines[0], delimiter));
    var rowCount := MinNat(|lines| - 1, MaxRowsToInspect);
    var scanned := lines[1..][..rowCount];
    var statLines := StatLines(names, KeyOrder(scanned, delimiter, |names|, fmt), scanned, delimiter, fmt);
    StopNoteIffTruncated(delimiter, names, rowCount, MinNat(rowCount, MaxPreviewRows), |lines| - 1 >= MaxRowsToInspect, statLines);
  }

  /**
   * What `Summarize` returns: for a file that cannot be opened only the
   * error line, for an empty file only "CSV appears empty.", otherwise the
   * report.
   */
  function CsvSummaryOf(file: Option<DiskFile>, openError: string, fmt: DecimalFormat): (r: CsvSummaryResult)
    ensures file.None? ==> r == CsvSummaryResult([], [], Lines(["Error summarizing CSV: " + openError]), 0, false)
    ensures file.Some? && file.value.text == [] ==> r == CsvSummaryResult([], [], Lines(["CSV appears empty."]), 0, false)
    ensures r.rowsScanned <= MaxRowsToInspect && |r.rows| <= MaxPreviewRows
    ensures forall j :: 0 <= j < |r.rows| ==> |r.rows[j]| == |r.headers|
    ensures r.previewTruncated ==> r.rowsScanned == MaxRowsToInspect
  {
    if file.None? then CsvSummaryResult([], [], Lines(["Error summarizing CSV: " + openError]), 0, false)
    else
      var lines := ReadLines(file.value.text);
      if lines == [] then CsvSummaryResult([], [], Lines(["CSV appears empty."]), 0, false)
      else CsvReport(lines, fmt)
  }

  /**
   * `Summarize`. `file` is None when opening the file fails, with
   * `openError` the exception's message; the lines are those
   * `StreamReader.ReadLine` yields.
   */
  method Summarize(file: Option<DiskFile>, openError: string, fmt: DecimalFormat) returns (r: CsvSummaryResult)
    ensures r == CsvSummaryOf(file, openError, fmt)
  {
    if file.None? {
      return CsvSummaryResult([], [], Lines(["Error summarizing CSV: " + openError]), 0, false);
    }
    var lines := ReadLines(file.value.text);
    if |lines| == 0 {
      return CsvSummaryResult([], [], Lines(["CSV appears empty."]), 0, false);
    }
    var headerLine := lines[0];
    var delimiter := DetectDelimiter(headerLine);
    var headers := SplitCsvLine(headerLine, delimiter);
    var names, columnLines := NameColumns(headers);
    var data := lines[1..];
    var rowCount, previewRows, truncated, stats := ScanRows(data, delimiter, |names|, fmt);
    var text := WriteReport(delimiter, names, columnLines, data, rowCount, previewRows, truncated, stats, fmt);
    r := CsvSummaryResult(names, previewRows, text, rowCount, truncated);
  }

  /** The appends after the scan: the counts, then the statistics lines, then the stop note. */
  method WriteReport(delimiter: char, names: seq<string>, columnLines: seq<string>, data: seq<string>, rowCount: nat,
                     previewRows: seq<seq<string>>, truncated: bool, stats: map<nat, NumericStats>, fmt: DecimalFormat)
    returns (text: string)
    requires columnLines == ColumnLines(names) && rowCount <= |data|
    requires Tallied(stats, |names|, data[..rowCount], delimiter, fmt)
    ensures text == Lines(ReportLines(delimiter, names, rowCount, |previewRows|, truncated,
                                      StatLines(names, KeyOrder(data[..rowCount], delimiter, |names|, fmt),
                                                data[..rowCount], delimiter, fmt)))
  {
    var summary := ["Detected delimiter: " + DescribeDelimiter(delimiter), "CSV Columns:"] + columnLines;
    var previewLine := CountPreview(|previewRows|, truncated);
    summary := summary + ["", "Data rows scanned: " + FormatN0(rowCount), previewLine];
    assert summary == ReportHead(delimiter, names, rowCount, |previewRows|, truncated);
    var statSection := NumericSection(names, data, rowCount, stats, delimiter, fmt);
    var stopSection: seq<string> := [];
    if truncated {
      stopSection := ["", "Processing stopped early after " + FormatN0(rowCount) + " rows for performance."];
    }
    assert stopSection == StopSection(truncated, rowCount);
    summary := summary + statSection + stopSection;
    text := Lines(summary);
  }

  /** The two ways the preview count is written. */
  method CountPreview(previewCount: nat, truncated: bool) returns (line: string)
    ensures line == PreviewLine(previewCount, truncated)
  {
    if previewCount >= MaxPreviewRows || truncated {
      line := "Preview rows shown: " + FormatN0(previewCount) + " (limited to first " + FormatN0(MaxPreviewRows) + ")";
    } else {
      line := "Preview rows shown: " + FormatN0(previewCount);
    }
  }

  /** `if (numericColumns.Count > 0)`: the heading, then the lines of the dictionary's entries. */
  method NumericSection(names: seq<string>, data: seq<string>, rowCount: nat, stats: map<nat, NumericStats>,
                        delimiter: char, fmt: DecimalFormat) returns (section: seq<string>)
    requires rowCount <= |data|
    requires Tallied(stats, |names|, data[..rowCount], delimiter, fmt)
    ensures section == StatSection(StatLines(names, KeyOrder(data[..rowCount], delimiter, |names|, fmt), data[..rowCount], delimiter, fmt))
  {
    var scanned := data[..rowCount];
    var keys := KeyOrder(scanned, delimiter, |names|, fmt);
    KeyOrderColumns(scanned, delimiter, |names|, fmt);
    StatsPresent(stats, keys, |names|, scanned, delimiter, fmt);
    section := [];
    if |stats| > 0 {
      var statLines := EnumerateStats(names, keys, stats, scanned, delimiter, fmt);
      section := ["", "Numeric column stats (sample):"] + statLines;
    }
  }

  /** The line written from an object's fields is the line of the values it was fed. */
  lemma ReadStats(s: NumericStats, names: seq<string>, k: nat, values: seq<DecimalNumber>, fmt: DecimalFormat)
    requires s.Valid() && s.pushed == values
    ensures StatText(StatName(names, k), fmt.show(s.min), fmt.show(s.max), fmt.showN2(s.Average())) == StatLine(names, k, values, fmt)
  {
  }

  /** Each key has its statistics object, which summarises that column's numbers. */
  ghost predicate StatsOf(stats: map<nat, NumericStats>, keys: seq<nat>, scanned: seq<string>, delimiter: char, fmt: DecimalFormat)
    reads stats.Values
  {
    forall i :: 0 <= i < |keys| ==>
      && keys[i] in stats && stats[keys[i]].Valid()
      && stats[keys[i]].pushed == ColumnValues(scanned, delimiter, keys[i], fmt)
  }

  /** The dictionary holds an entry exactly for the enumerated keys, so it is non-empty exactly when some key is. */
  lemma StatsPresent(stats: map<nat, NumericStats>, keys: seq<nat>, columnCount: nat, scanned: seq<string>,
                     delimiter: char, fmt: DecimalFormat)
    requires Tallied(stats, columnCount, scanned, delimiter, fmt)
    requires keys == KeyOrder(scanned, delimiter, columnCount, fmt)
    requires KeyOrderMatches(scanned, delimiter, columnCount, fmt)
    ensures StatsOf(stats, keys, scanned, delimiter, fmt)
    ensures |stats| > 0 <==> keys != []
  {
    forall i | 0 <= i < |keys|
      ensures keys[i] in stats
    {
      assert keys[i] in KeyOrder(scanned, delimiter, columnCount, fmt);
    }
    if |stats| > 0 {
      var k :| k in stats;
      assert k in keys;
    }
    if keys != [] {
      assert keys[0] in KeyOrder(scanned, delimiter, columnCount, fmt);
      assert keys[0] in stats;
    }
  }

  /**
   * The `foreach` over the statistics dictionary: one line per entry, in
   * enumeration order, reading each object's minimum, maximum and average.
   */
  method EnumerateStats(names: seq<string>, keys: seq<nat>, stats: map<nat, NumericStats>, ghost scanned: seq<string>,
                        delimiter: char, fmt: DecimalFormat) returns (lines: seq<string>)
    requires StatsOf(stats, keys, scanned, delimiter, fmt)
    ensures lines == StatLines(names, keys, scanned, delimiter, fmt)
  {
    ghost var expected := StatLines(names, keys, scanned, delimiter, fmt);
    lines := [];
    var i := 0;
    while i < |keys|
      invariant 0 <= i <= |keys|
      invariant lines == expected[..i]
    {
      var k := keys[i];
      var s := stats[k];
      var line := StatText(StatName(names, k), fmt.show(s.min), fmt.show(s.max), fmt.showN2(s.Average()));
      ReadStats(s, names, k, ColumnValues(scanned, delimiter, k, fmt), fmt);
      assert expected[..i + 1] == expected[..i] + [expected[i]];
      lines := lines + [line];
      i := i + 1;
    }
    assert expected[..|keys|] == expected;
  }
}
