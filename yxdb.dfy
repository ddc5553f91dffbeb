/**
 * `YxdbSummaryService` (Services/YxdbSummaryService.cs): an Alteryx
 * database file is described by its header, then a schema table lists its
 * fields and a second table previews its first records over its first
 * columns.
 */
module YxdbSummary {
  import opened Wrappers
  import opened Text
  import opened Results

  // ---------------------------------------------------------------------
  // What the reader exposes
  // ---------------------------------------------------------------------

  /**
   * A value as `YxdbRecord.GetValue` returns it. Dates, date-times with an
   * offset, numbers and every other value arrive already printed
   * (`Formatted`); strings, booleans and byte arrays are formatted here.
   */
  datatype YxdbValue = Null | Str(s: string) | Boolean(b: bool) | Binary(bytes: seq<Byte>) | Formatted(text: string)

  /** A schema field; `typeName` is the text of its type, the other nullable members are `Option`s. */
  datatype SchemaField = SchemaField(name: string, typeName: string, size: Option<int>, scale: Option<int>,
                                     source: Option<string>, description: Option<string>)

  /** A record: one value per schema field, in schema order. */
  type Record = seq<YxdbValue>

  /** The header members the report prints; `creationTime` arrives formatted as "yyyy-MM-dd HH:mm:ss zzz". */
  datatype YxdbHeader = YxdbHeader(fileDescription: Option<string>, recordCount: int, effectiveRecordCount: Option<int>,
                                   creationTime: string)

  /**
   * An opened file: its header, compression flag, record block count and
   * schema, the records `ReadRows` yields, and the message of the exception
   * it raises after them, if it raises one.
   */
  datatype YxdbFile = YxdbFile(header: YxdbHeader, isCompressed: bool, recordBlockCount: nat, fields: seq<SchemaField>,
                               records: seq<Record>, failure: Option<string>)

  /** What `YxdbReader.Open` yields: a file, or the message of the exception it raised. */
  datatype YxdbOpen = OpenFailed(message: string) | Opened(file: YxdbFile)

  /** The configured YXDB limits; C# `int`s, so any of them may be zero or negative. */
  datatype YxdbLimits = YxdbLimits(maxColumns: int, maxRows: int, maxValueLength: int)

  /** What `YxdbSummaryService.Summarize` returns. */
  datatype YxdbSummaryResult = YxdbSummaryResult(summary: string, tables: seq<TableSummary>)

  const FailedToRead := "Failed to read YXDB: "
  const SchemaHeaders := ["Name", "Type", "Size", "Scale", "Source", "Description"]

  function AtLeastOne(n: int): (r: nat)
    ensures r >= 1 && r >= n && (n >= 1 ==> r == n)
  {
    if n < 1 then 1 else n
  }

  // ---------------------------------------------------------------------
  // Values
  // ---------------------------------------------------------------------

  /** The hexadecimal pairs of `BitConverter.ToString`, joined by '-'. */
  function BitConverterText(bytes: seq<Byte>): string
  {
    Join("-", seq(|bytes|, i requires 0 <= i < |bytes| => Hex2(bytes[i])))
  }

  lemma HexTextCons(bytes: seq<Byte>)
    requires |bytes| > 0
    ensures HexText(bytes) == Hex2(bytes[0]) + HexText(bytes[1..])
  {
    var s := HexText(bytes);
    var t := Hex2(bytes[0]) + HexText(bytes[1..]);
    forall j | 0 <= j < |s|
      ensures s[j] == t[j]
    {
      if j >= 2 {
        assert (j - 2) / 2 == j / 2 - 1 && (j - 2) % 2 == j % 2;
      }
    }
  }

  lemma ReplaceDashAfterPair(pair: string, rest: string)
    requires |pair| == 2 && pair[0] != '-' && pair[1] != '-'
    ensures Replace(pair + "-" + rest, "-", "") == pair + Replace(rest, "-", "")
  {
    var s := pair + "-" + rest;
    assert s[..1] == [pair[0]] && s[1..][..1] == [pair[1]] && s[2..][..1] == "-";
    assert s[1..][1..] == s[2..] && s[2..][1..] == rest;
    assert Replace(s, "-", "") == [s[0]] + Replace(s[1..], "-", "");
    assert Replace(s[1..], "-", "") == [s[1]] + Replace(s[2..], "-", "");
    assert Replace(s[2..], "-", "") == Replace(rest, "-", "");
    assert [s[0]] + [s[1]] == pair;
  }

  lemma HexDigitNotDash(d: nat)
    requires d < 16
    ensures HexDigit(d) != '-'
  {
  }

  /** Removing the dashes from `BitConverter.ToString` leaves the plain upper-case hexadecimal text. */
  lemma {:induction false} DashesRemoved(bytes: seq<Byte>)
    ensures Replace(BitConverterText(bytes), "-", "") == HexText(bytes)
    decreases |bytes|
  {
    var pairs := seq(|bytes|, i requires 0 <= i < |bytes| => Hex2(bytes[i]));
    if |bytes| == 0 {
      assert HexText(bytes) == "";
    } else {
      var b := bytes[0];
      HexDigitNotDash(b / 16);
      HexDigitNotDash(b % 16);
      HexTextCons(bytes);
      if |bytes| == 1 {
        ReplaceAbsentChar(Hex2(b), '-', "");
        assert HexText(bytes[1..]) == "";
      } else {
        assert pairs[1..] == seq(|bytes[1..]|, i requires 0 <= i < |bytes[1..]| => Hex2(bytes[1..][i]));
        DashesRemoved(bytes[1..]);
        ReplaceDashAfterPair(Hex2(b), BitConverterText(bytes[1..]));
      }
    }
  }

  /**
   * `FormatBinary`: "0 bytes" for none; otherwise "0x", the hexadecimal
   * text of the first eight bytes at most, "..." when there are more, and
   * the byte count in parentheses.
   */
  function FormatBinary(bytes: seq<Byte>): (text: string)
    ensures |bytes| == 0 ==> text == "0 bytes"
    ensures |bytes| > 0 ==>
              && StartsWith(text, "0x" + HexText(bytes[..MinNat(8, |bytes|)]))
              && EndsWith(text, " (" + NatToString(|bytes|) + " bytes)")
              && (|bytes| > 8 <==> |text| == 2 + 2 * MinNat(8, |bytes|) + 3 + |" (" + NatToString(|bytes|) + " bytes)"|)
  {
    if |bytes| == 0 then "0 bytes"
    else
      var previewLength := MinNat(8, |bytes|);
      var prefix := Replace(BitConverterText(bytes[..previewLength]), "-", "");
      DashesRemoved(bytes[..previewLength]);
      var count := " (" + NatToString(|bytes|) + " bytes)";
      if |bytes| <= previewLength then
        assert ("0x" + prefix + count)[..2 + |prefix|] == "0x" + prefix;
        "0x" + prefix + count
      else
        assert ("0x" + prefix + "..." + count)[..2 + |prefix|] == "0x" + prefix;
        "0x" + prefix + "..." + count
  }

  /** The text of a value before truncation, as the `switch` of `FormatValue` chooses it. */
  function ValueText(v: YxdbValue): string
  {
    match v
    case Null => ""
    case Str(s) => s
    case Boolean(b) => if b then "TRUE" else "FALSE"
    case Binary(bytes) => FormatBinary(bytes)
    case Formatted(t) => t
  }

  /**
   * `FormatValue`: null is empty, and a text longer than `maxLength` keeps
   * its first `maxLength` characters followed by "...".
   */
  function FormatValue(v: YxdbValue, maxLength: nat): (text: string)
    ensures v.Null? ==> text == ""
    ensures |ValueText(v)| <= maxLength ==> text == ValueText(v)
    ensures |ValueText(v)| > maxLength ==>
              |text| == maxLength + 3 && StartsWith(ValueText(v), text[..maxLength]) && EndsWith(text, "...")
    ensures |text| <= maxLength + 3
  {
    if v.Null? then ""
    else
      var t := ValueText(v);
      if |t| <= maxLength then t else t[..maxLength] + "..."
  }

  // ---------------------------------------------------------------------
  // The schema table
  // ---------------------------------------------------------------------

  function OptionalInt(n: Option<int>): string
  {
    if n.Some? then IntToString(n.value) else ""
  }

  /** The schema row of one field. */
  function SchemaRow(f: SchemaField): (row: seq<string>)
    ensures |row| == |SchemaHeaders|
    ensures row[0] == f.name && row[1] == f.typeName
    ensures row[4] == f.source.GetOr("") && row[5] == f.description.GetOr("")
  {
    [f.name, f.typeName, OptionalInt(f.size), OptionalInt(f.scale), f.source.GetOr(""), f.description.GetOr("")]
  }

  function SchemaRows(fields: seq<SchemaField>): (rows: seq<seq<string>>)
    ensures |rows| == |fields|
    ensures forall k :: 0 <= k < |fields| ==> rows[k] == SchemaRow(fields[k])
  {
    seq(|fields|, k requires 0 <= k < |fields| => SchemaRow(fields[k]))
  }

  /** `AppendSchemaTable`: the `foreach` over the fields. */
  method SchemaTable(fields: seq<SchemaField>) returns (table: TableSummary)
    ensures table == TableSummary("Schema", SchemaHeaders, SchemaRows(fields), false)
  {
    var rows: seq<seq<string>> := [];
    for k := 0 to |fields|
      invariant rows == SchemaRows(fields[..k])
    {
      var field := fields[k];
      TakeOneMore(fields, k);
      rows := rows + [[field.name, field.typeName, OptionalInt(field.size), OptionalInt(field.scale),
                       field.source.GetOr(""), field.description.GetOr("")]];
    }
    assert fields[..|fields|] == fields;
    table := TableSummary("Schema", SchemaHeaders, rows, false);
  }

  // ---------------------------------------------------------------------
  // The rows preview
  // ---------------------------------------------------------------------

  /** The preview columns: the names of the first `maxColumns` fields. */
  function FieldNames(fields: seq<SchemaField>, maxColumns: nat): (names: seq<string>)
    ensures |names| == MinNat(|fields|, maxColumns)
    ensures forall i :: 0 <= i < |names| ==> names[i] == fields[i].name
  {
    seq(MinNat(|fields|, maxColumns), i requires 0 <= i < MinNat(|fields|, maxColumns) => fields[i].name)
  }

  /**
   * `record.GetValue(name)`: the value of the first field of that name; a
   * record too short for it reads as null.
   */
  function ValueOf(fields: seq<SchemaField>, record: Record, name: string): (v: YxdbValue)
    ensures forall k :: (0 <= k < |fields| && k < |record| && fields[k].name == name
                          && (forall j :: 0 <= j < k ==> fields[j].name != name)) ==> v == record[k]
  {
    var k := FirstWhere(fields, (f: SchemaField) => f.name == name);
    if k.Some? && k.value < |record| then record[k.value] else Null
  }

  /** The formatted preview cells of one record. */
  function RecordCells(fields: seq<SchemaField>, names: seq<string>, record: Record, maxLength: nat): (cells: seq<string>)
    ensures |cells| == |names|
    ensures forall i :: 0 <= i < |names| ==> cells[i] == FormatValue(ValueOf(fields, record, names[i]), maxLength)
  {
    seq(|names|, i requires 0 <= i < |names| => FormatValue(ValueOf(fields, record, names[i]), maxLength))
  }

  function RecordRows(fields: seq<SchemaField>, names: seq<string>, records: seq<Record>, maxLength: nat): (rows: seq<seq<string>>)
    ensures |rows| == |records|
    ensures forall k :: 0 <= k < |records| ==> rows[k] == RecordCells(fields, names, records[k], maxLength)
  {
    seq(|records|, k requires 0 <= k < |records| => RecordCells(fields, names, records[k], maxLength))
  }

  /** What the `foreach` over `ReadRows` gathers: the value rows, the truncation flag, and the failure it ran into. */
  datatype RowsPreview = RowsPreview(valueRows: seq<seq<string>>, rowsTruncated: bool, failure: Option<string>)

  /**
   * The loop reads one record past the cap before it stops, so it meets a
   * failure only when the file holds no more records than the cap.
   */
  function RowsPreviewOf(file: YxdbFile, names: seq<string>, maxRows: nat, maxLength: nat): RowsPreview
  {
    RowsPreview(RecordRows(file.fields, names, Take(file.records, maxRows), maxLength),
                |file.records| > maxRows,
                if |file.records| > maxRows then Option.None else file.failure)
  }

  /** The `for` loop filling the values of one record. */
  method FormatRecord(fields: seq<SchemaField>, names: seq<string>, record: Record, maxLength: nat) returns (values: seq<string>)
    ensures values == RecordCells(fields, names, record, maxLength)
  {
    var a := new string[|names|](_ => "");
    for i := 0 to |names|
      invariant forall j :: 0 <= j < i ==> a[j] == FormatValue(ValueOf(fields, record, names[j]), maxLength)
    {
      var text := FormatValue(ValueOf(fields, record, names[i]), maxLength);
      a[i] := text;
    }
    values := a[..];
  }

  /** The `foreach` over `reader.ReadRows()`. */
  method ReadPreview(file: YxdbFile, names: seq<string>, maxRows: nat, maxLength: nat) returns (preview: RowsPreview)
    requires maxRows >= 1
    ensures preview == RowsPreviewOf(file, names, maxRows, maxLength)
  {
    var valueRows: seq<seq<string>> := [];
    var i := 0;
    while i < |file.records|
      invariant i <= |file.records| && i <= maxRows
      invariant valueRows == RecordRows(file.fields, names, file.records[..i], maxLength)
    {
      if |valueRows| >= maxRows {
        assert Take(file.records, maxRows) == file.records[..i];
        return RowsPreview(valueRows, true, Option.None);
      }
      var values := FormatRecord(file.fields, names, file.records[i], maxLength);
      TakeOneMore(file.records, i);
      valueRows := valueRows + [values];
      i := i + 1;
    }
    assert Take(file.records, maxRows) == file.records[..i];
    preview := RowsPreview(valueRows, false, file.failure);
  }

  /** The rows preview table of `AppendRowPreview`. */
  function RowsTable(names: seq<string>, columnsTruncated: bool, preview: RowsPreview, declaredRecordCount: int): TableSummary
  {
    if |preview.valueRows| == 0 then TableSummary("Rows preview", names, [], declaredRecordCount > 0)
    else
      var title := if preview.rowsTruncated && declaredRecordCount > 0
        then "Rows preview (first " + FormatN0(|preview.valueRows|) + " of " + FormatN0(declaredRecordCount) + ")"
        else "Rows preview (first " + FormatN0(|preview.valueRows|) + ")";
      TableSummary(title, names, preview.valueRows, preview.rowsTruncated || columnsTruncated)
  }

  // ---------------------------------------------------------------------
  // The report
  // ---------------------------------------------------------------------

  /** The header lines, ending in a blank line. */
  function HeaderLines(file: YxdbFile): seq<string>
  {
    var h := file.header;
    [h.fileDescription.GetOr("YXDB file"), "Records declared: " + FormatN0(h.recordCount)]
    + (if h.effectiveRecordCount.Some? && h.effectiveRecordCount.value != h.recordCount
       then ["Effective records: " + FormatN0(h.effectiveRecordCount.value)] else [])
    + ["Created: " + h.creationTime,
       "Compressed: " + (if file.isCompressed then "Yes" else "No"),
       "Record blocks: " + NatToString(file.recordBlockCount),
       "Fields: " + FormatN0(|file.fields|),
       ""]
  }

  /** `Summarize` as a value; `open` stands for `YxdbReader.Open`. */
  function YxdbSummaryOf(open: YxdbOpen, limits: YxdbLimits): YxdbSummaryResult
  {
    if open.OpenFailed? then YxdbSummaryResult(TrimEnd(Lines([FailedToRead + open.message])), [])
    else
      var file := open.file;
      var names := FieldNames(file.fields, AtLeastOne(limits.maxColumns));
      var preview := RowsPreviewOf(file, names, AtLeastOne(limits.maxRows), AtLeastOne(limits.maxValueLength));
      var schema := TableSummary("Schema", SchemaHeaders, SchemaRows(file.fields), false);
      OpenedSummary(file, preview.failure, schema, RowsTable(names, |file.fields| > |names|, preview, file.header.recordCount))
  }

  /** The report of an opened file: the failure while reading its records drops the rows table and adds the failure line. */
  function OpenedSummary(file: YxdbFile, failure: Option<string>, schema: TableSummary, rowsTable: TableSummary): YxdbSummaryResult
  {
    if failure.Some? then YxdbSummaryResult(TrimEnd(Lines(HeaderLines(file) + [FailedToRead + failure.value])), [schema])
    else YxdbSummaryResult(TrimEnd(Lines(HeaderLines(file))), [schema, rowsTable])
  }

  /** `YxdbSummaryService.Summarize`. */
  method Summarize(open: YxdbOpen, limits: YxdbLimits) returns (r: YxdbSummaryResult)
    ensures r == YxdbSummaryOf(open, limits)
  {
    if open.OpenFailed? {
      return YxdbSummaryResult(TrimEnd(Lines([FailedToRead + open.message])), []);
    }
    var file := open.file;
    var lines := HeaderLines(file);
    var schema := SchemaTable(file.fields);
    var maxColumns := AtLeastOne(limits.maxColumns);
    var maxRows := AtLeastOne(limits.maxRows);
    var maxValueLength := AtLeastOne(limits.maxValueLength);
    var fieldNames := FieldNames(file.fields, maxColumns);
    var columnsTruncated := |file.fields| > |fieldNames|;
    var preview := ReadPreview(file, fieldNames, maxRows, maxValueLength);
    if preview.failure.Some? {
      return YxdbSummaryResult(TrimEnd(Lines(lines + [FailedToRead + preview.failure.value])), [schema]);
    }
    var rowsTable := RowsTable(fieldNames, columnsTruncated, preview, file.header.recordCount);
    r := YxdbSummaryResult(TrimEnd(Lines(lines)), [schema, rowsTable]);
  }

  // ---------------------------------------------------------------------
  // Properties
  // ---------------------------------------------------------------------

  /**
   * The preview shows the first `maxColumns` field names and is flagged
   * for columns exactly when the file has more fields; it holds the first
   * `maxRows` records, is flagged for rows exactly when another record
   * follows them, and a failure after the records is met only when none does.
   */
  lemma PreviewBounds(file: YxdbFile, maxColumns: nat, maxRows: nat, maxLength: nat)
    ensures var names := FieldNames(file.fields, maxColumns);
      var preview := RowsPreviewOf(file, names, maxRows, maxLength);
      && |names| <= maxColumns && (|file.fields| > |names| <==> |file.fields| > maxColumns)
      && |preview.valueRows| == MinNat(|file.records|, maxRows)
      && (preview.rowsTruncated <==> |file.records| > maxRows)
      && (preview.failure.Some? <==> file.failure.Some? && |file.records| <= maxRows)
      && (forall k :: 0 <= k < |preview.valueRows| ==> |preview.valueRows[k]| == |names|)
  {
  }

  /** With distinct preview field names, cell `i` of preview row `k` is field `i` of record `k`, formatted. */
  lemma PreviewCell(file: YxdbFile, maxColumns: nat, maxRows: nat, maxLength: nat, k: nat, i: nat)
    requires k < MinNat(|file.records|, maxRows) && i < MinNat(|file.fields|, maxColumns) && i < |file.records[k]|
    requires forall j :: 0 <= j < i ==> file.fields[j].name != file.fields[i].name
    ensures RowsPreviewOf(file, FieldNames(file.fields, maxColumns), maxRows, maxLength).valueRows[k][i]
            == FormatValue(file.records[k][i], maxLength)
  {
    var names := FieldNames(file.fields, maxColumns);
    assert Take(file.records, maxRows)[k] == file.records[k];
    assert names[i] == file.fields[i].name;
  }

  /**
   * The rows table is flagged truncated exactly when rows or columns were
   * cut, except that an empty preview is flagged whenever records were
   * declared.
   */
  lemma RowsTableShape(names: seq<string>, columnsTruncated: bool, preview: RowsPreview, declared: int)
    ensures var t := RowsTable(names, columnsTruncated, preview, declared);
      && t.headers == names && t.rows == preview.valueRows
      && (|preview.valueRows| == 0 ==> t.title == "Rows preview" && (t.isTruncated <==> declared > 0))
      && (|preview.valueRows| > 0 ==> (t.isTruncated <==> preview.rowsTruncated || columnsTruncated))
  {
  }

  /** The title of a non-empty preview names the declared record count exactly after a row cut with records declared. */
  lemma RowsTableTitle(names: seq<string>, columnsTruncated: bool, preview: RowsPreview, declared: int)
    requires |preview.valueRows| > 0
    ensures var title := RowsTable(names, columnsTruncated, preview, declared).title;
      var shown := "Rows preview (first " + FormatN0(|preview.valueRows|);
      && (preview.rowsTruncated && declared > 0 ==> title == shown + " of " + FormatN0(declared) + ")")
      && (!(preview.rowsTruncated && declared > 0) ==> title == shown + ")")
  {
  }

  /**
   * The tables of the report: none when the file does not open; the schema
   * table, one row per field and never truncated, always after that; and
   * the rows table after it unless reading the records failed.
   */
  lemma ReportTables(open: YxdbOpen, limits: YxdbLimits)
    ensures var r := YxdbSummaryOf(open, limits);
      && (open.OpenFailed? ==> r.tables == [])
      && (open.Opened? ==>
            && 1 <= |r.tables| <= 2 && r.tables[0].title == "Schema" && !r.tables[0].isTruncated
            && r.tables[0].headers == SchemaHeaders && |r.tables[0].rows| == |open.file.fields|
            && (|r.tables| == 1 <==> open.file.failure.Some? && |open.file.records| <= AtLeastOne(limits.maxRows)))
  {
  }

  /** The header lines through the field count stay at the head of the text whatever follows them. */
  lemma HeaderKept(before: seq<string>, fields: string, extra: seq<string>)
    requires StartsWith(fields, "Fields:")
    ensures StartsWith(TrimEnd(Lines(before + [fields, ""] + extra)), Lines(before) + "Fields:")
  {
    assert before + [fields, ""] + extra == before + [fields] + ([""] + extra);
    LinesHasLine(before, fields, [""] + extra);
    var text := Lines(before + [fields, ""] + extra);
    assert text == (Lines(before) + "Fields:") + (fields[7..] + NewLine + Lines([""] + extra));
    TrimEndKeepsPrefix(text, Lines(before) + "Fields:");
  }

  lemma LastTwo<T>(s: seq<T>)
    requires |s| >= 2
    ensures s == s[..|s| - 2] + [s[|s| - 2], s[|s| - 1]]
  {
  }

  /** A failure line after the header lines: its line break is trimmed away again. */
  lemma FailureAppended(h: seq<string>, prefix: string, message: string)
    ensures TrimEnd(Lines(h + [prefix + message])) == TrimEnd(Lines(h) + prefix + message)
  {
    var line := prefix + message;
    LinesAppend(h, [line]);
    LinesOfOne(line);
    assert Lines(h) + (line + NewLine) == (Lines(h) + prefix + message) + NewLine;
    TrimEndDropsBlank(Lines(h) + prefix + message, NewLine);
  }

  lemma HeaderLinesEnd(file: YxdbFile)
    ensures var h := HeaderLines(file);
      |h| >= 2 && StartsWith(h[|h| - 2], "Fields:") && h[|h| - 1] == ""
  {
    var h := HeaderLines(file);
    var fields := "Fields: " + FormatN0(|file.fields|);
    assert h[|h| - 2] == fields && fields[..7] == "Fields:";
  }

  /** Header lines ending in the field count and a blank line stay at the head of the text, before any failure line. */
  lemma HeaderText(h: seq<string>, failure: Option<string>)
    requires |h| >= 2 && StartsWith(h[|h| - 2], "Fields:") && h[|h| - 1] == ""
    ensures var text := TrimEnd(Lines(h + (if failure.Some? then [FailedToRead + failure.value] else [])));
      && StartsWith(text, Lines(h[..|h| - 2]) + "Fields:")
      && (failure.Some? ==> text == TrimEnd(Lines(h) + FailedToRead + failure.value))
  {
    var extra := if failure.Some? then [FailedToRead + failure.value] else [];
    LastTwo(h);
    HeaderKept(h[..|h| - 2], h[|h| - 2], extra);
    if failure.Some? {
      FailureAppended(h, FailedToRead, failure.value);
    }
  }

  /** The text for an opened file: the header lines through the field count first, then the failure line if there is one. */
  lemma OpenedText(file: YxdbFile, failure: Option<string>, schema: TableSummary, rowsTable: TableSummary)
    ensures var r := OpenedSummary(file, failure, schema, rowsTable);
      var h := HeaderLines(file);
      && StartsWith(r.summary, Lines(h[..|h| - 2]) + "Fields:")
      && (failure.Some? ==> r.summary == TrimEnd(Lines(h) + FailedToRead + failure.value))
  {
    HeaderLinesEnd(file);
    var h := HeaderLines(file);
    HeaderText(h, failure);
    if failure.None? {
      assert h + [] == h;
    }
  }

  /**
   * The text of the report: a file that does not open gives only the
   * failure line; an opened one starts with its header lines through the
   * field count, and a failure while reading the records is appended after
   * the complete header.
   */
  lemma ReportText(open: YxdbOpen, limits: YxdbLimits)
    ensures var r := YxdbSummaryOf(open, limits);
      && (open.OpenFailed? ==> r.summary == TrimEnd(FailedToRead + open.message))
      && (open.Opened? ==>
            var h := HeaderLines(open.file);
            && StartsWith(r.summary, Lines(h[..|h| - 2]) + "Fields:")
            && (|r.tables| == 1 ==> r.summary == TrimEnd(Lines(h) + FailedToRead + open.file.failure.value)))
  {
    if open.OpenFailed? {
      var line := FailedToRead + open.message;
      LinesOfOne(line);
      TrimEndDropsBlank(line, NewLine);
    } else {
      var file := open.file;
      var names := FieldNames(file.fields, AtLeastOne(limits.maxColumns));
      var preview := RowsPreviewOf(file, names, AtLeastOne(limits.maxRows), AtLeastOne(limits.maxValueLength));
      var schema := TableSummary("Schema", SchemaHeaders, SchemaRows(file.fields), false);
      var rowsTable := RowsTable(names, |file.fields| > |names|, preview, file.header.recordCount);
      assert YxdbSummaryOf(open, limits) == OpenedSummary(file, preview.failure, schema, rowsTable);
      OpenedText(file, preview.failure, schema, rowsTable);
    }
  }
}
