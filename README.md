# peekerino: a verified model of the file-content analysis pipeline

peekerino shows a quick summary of whatever file or folder is selected in
the Windows Explorer. This project is a Dafny model of the part of the
program that decides what a file is and what to say about it. That part
has three layers:

- **The dispatcher** (`FileSummaryService`). It orders the registered
  summarizers by their `Order` and answers blank paths, folders and missing
  items itself. It hands a file to the first summarizer that accepts it and
  prefixes the result with the file's metadata.
- **The adapters** (`Services/Summaries/*FileSummarizer.cs`). Each has a
  probing order, an acceptance test that goes by extension or by sniffing
  the content (`FileTypeInspector`), and a way to wrap its analyzer's output
  into a `FileSummaryResult`.
- **The analyzers.** Each reads a bounded part of its input and produces a
  text body, tables drawn by `TextTableBuilder`, and optionally a text
  preview:
  - CSV;
  - generic XML, with the INCA insurance-document extension;
  - Markdown;
  - zip/tar/gzip archives;
  - Excel workbooks;
  - Alteryx workflows and YXDB databases;
  - generic binary files.

Modelling choices:

- Code that builds its answer step by step is modelled by methods with loop
  invariants. These include the scanning loops, the `StringBuilder`s, the
  table builder, the dictionaries of counts and the stream reads. Each
  method is proved equal to a specification function, and the lemmas state
  properties of those functions.
- Pure helpers are modelled as functions with contracts.
- The format libraries are inputs to the model. The zip and tar readers,
  inflation, the XML parsers, ExcelDataReader, YxdbNet, SHA-256, text
  decoding and number formatting are all represented as record sequences or
  function-typed parameters. Each analyzer therefore works over what the
  library would hand it.
- A `StringBuilder` is modelled as the sequence of lines appended to it.
  `Environment.NewLine` is "\r\n".
- The configured `int` caps and sizes are modelled as Dafny `int`, because
  the code clamps or compares them before use. The running counters are
  unbounded in the model; "## Left out" lists them.

Module layout, one module per core source file plus a few shared modules:

| module | file | models |
|---|---|---|
| Wrappers, Text | wrappers.dfy, text.dfy | nullable values; the `string`, `char`, `Path` and formatting helpers the code relies on |
| Streams | streams.dfy | a seekable `FileStream` over a file's bytes |
| SummaryContext | context.dfy | `SummaryOptions`, `FileSummaryContext`, `ArchiveFormat` |
| Results | results.dfy | `FileSummaryResult`, `TableSummary`, `TextPreview`, `CsvSummaryResult` |
| TextTables | text_table.dfy | `TextTableBuilder` |
| FileTypeInspector | file_type_inspector.dfy | the format probes |
| NameCounts, Sorting | name_counts.dfy, sorting.dfy | insertion-ordered `Dictionary` counts; LINQ's stable `OrderBy` |
| XmlModel | xml_model.dfy | the `XDocument` tree and the `XmlReader` node stream |
| XmlSummarizer, IncaDocument | xml_summarizer.dfy, inca.dfy | the XML and INCA analyzers |
| Csv, CsvSummary | csv.dfy, csv_summary.dfy | the CSV analyzer |
| Markdown | markdown.dfy | the Markdown analyzer |
| AlteryxWorkflow | alteryx.dfy | the Alteryx workflow analyzer |
| ArchiveSummary | archive.dfy | the archive analyzer |
| BinarySummary | binary.dfy | the binary analyzer |
| ExcelSummary | excel.dfy | the workbook analyzer |
| YxdbSummary | yxdb.dfy | the YXDB analyzer |
| Summarizers | summaries.dfy | the ten adapters |
| FileSummaries | file_summary_service.dfy | the dispatcher |

## Model

One row per member whose contract states something about the source. Definitions without a contract are listed under "## Definitions" below, with the rows that state their behaviour.

| member | source | states |
|---|---|---|
| Results.MakeResult | Services/FileSummaryResult.cs:9-19 | title, body and preview are kept; a missing table list becomes no tables, a given one is kept in order |
| Results.SummaryText | Services/FileSummaryResult.cs:26-37 | the text is the body alone exactly when no preview with visible content exists; otherwise it starts with the body, then a blank line, "Preview: ", the preview title, a line break and the preview content |
| Results.SummaryTextEnding | Services/FileSummaryResult.cs:30-35 | with a visible preview the text ends with the truncation note exactly when the preview was cut off, and with the preview's content otherwise |
| TextTables.TextTableBuilder.constructor | Services/TextTableBuilder.cs:13-18 | the table starts with the header row, a missing header drawn as an empty cell, and the column widths fitted to it |
| TextTables.TextTableBuilder.AddRow | Services/TextTableBuilder.cs:20-25 | appends the row with missing cells as empty ones; the columns widen to fit it |
| TextTables.TextTableBuilder.AddSeparator | Services/TextTableBuilder.cs:27-30 | appends an empty row and leaves the widths alone |
| TextTables.TextTableBuilder.UpdateWidths | Services/TextTableBuilder.cs:60-73 | each column grows to the row's cell when that is wider, and columns the row is the first to reach are added with its cell's length |
| TextTables.MergeWidths | Services/TextTableBuilder.cs:60-73 | the merged widths have as many columns as the longer of the widths and the row, each the larger of the old width and the cell's length |
| TextTables.CellFitsColumn | Services/TextTableBuilder.cs:60-73 | after all rows are taken in, every cell fits in its column |
| TextTables.ColumnWidthAttained | Services/TextTableBuilder.cs:60-73 | every column is exactly as wide as some cell in it, so no column is padded beyond its widest cell |
| TextTables.ColumnCount | Services/TextTableBuilder.cs:60-73 | there are as many columns as cells in the longest row |
| TextTables.TextTableBuilder.FormatRow | Services/TextTableBuilder.cs:75-86 | a row is drawn as its cells, each padded to its column width, joined by the column separator after a two-space indent |
| TextTables.PaddedCells | Services/TextTableBuilder.cs:77-83 | one padded cell per cell; a cell beyond the known columns keeps its own length |
| TextTables.Dashes | Services/TextTableBuilder.cs:90 | one run of dashes per column, as long as the column |
| TextTables.TableLines | Services/TextTableBuilder.cs:40-55 | the header line, the separator line, then one line per further row, an empty row drawn as a separator |
| TextTables.TextTableBuilder.Build | Services/TextTableBuilder.cs:32-58 | an empty builder gives ""; otherwise the table's lines with the trailing white space trimmed |
| TextTables.FullRowAligned | Services/TextTableBuilder.cs:75-92 | with widths at the column maxima, a row filling every column is exactly as wide as the separator line |
| TextTables.VisibleInRow | Services/TextTableBuilder.cs:75-86 | every visible character of a cell appears in the drawn row |
| TextTables.TableNotBlank | Services/TextTableBuilder.cs:32-58 | a table whose header has a visible cell never draws as blank text |
| TextTables.DrawnStart | Services/TextTableBuilder.cs:32-58 | a drawn table with a visible first header cell starts with the two-space indent |
| TextTables.NullToEmpty | Services/TextTableBuilder.cs:15 | one cell per input cell, a missing one replaced by "" |
| TextTables.DrawTable | Services/TextTableBuilder.cs:13-58 | building a table from a header and rows, one `AddRow` each, draws exactly the rendering of the header followed by those rows |
| FileTypeInspector.LooksLikeXmlText | Services/Summaries/FileTypeInspector.cs:98-114 | true exactly when some '<' among the first 256 characters is preceded only by white space |
| FileTypeInspector.LooksLikeXmlFile | Services/Summaries/FileTypeInspector.cs:98-114 | a file that cannot be opened does not look like XML; an opened one is judged on its text |
| FileTypeInspector.LooksLikeXml | Services/Summaries/FileTypeInspector.cs:10-18 | a `.xml` extension in any case is enough; otherwise the content decides |
| FileTypeInspector.LooksLikeJsonFile | Services/Summaries/FileTypeInspector.cs:116-140 | the read loop finds JSON exactly when the first character that is not white space is '{' or '['; an unopenable, empty or blank file is not JSON |
| FileTypeInspector.LooksLikeJson | Services/Summaries/FileTypeInspector.cs:20-28 | true exactly for a `.json` extension in any case, or an opened file whose first non-blank character is '{' or '[' |
| FileTypeInspector.HasZipSignature | Services/Summaries/FileTypeInspector.cs:151-164 | true exactly when four bytes can be read and they start with "PK" and a third byte of 03, 05 or 07 |
| FileTypeInspector.DetectArchiveFormat | Services/Summaries/FileTypeInspector.cs:30-55 | on the lower-cased path: ".tar.gz"/".tgz" is TarGz, else ".tar" is Tar, else ".gz" is GZipSingle, else ".zip" or a zip signature is Zip, else None |
| FileTypeInspector.GzNamesAreGzip | Services/Summaries/FileTypeInspector.cs:34-47 | a path ending in ".gz" in any case is TarGz or GZipSingle, never Zip |
| FileTypeInspector.ControlCount | Services/Summaries/FileTypeInspector.cs:75-88 | the control bytes counted are no more than the sample's bytes |
| FileTypeInspector.TextSample | Services/Summaries/FileTypeInspector.cs:62-64 | the sample is the first `TextPreviewBytes` bytes, or the whole file when it is shorter |
| FileTypeInspector.IsProbablyTextFile | Services/Summaries/FileTypeInspector.cs:57-96 | true exactly when the file opens, the preview size is not negative and the sample is text: empty, or no PDF header, no NUL byte and at most one control byte in twenty |
| FileTypeInspector.PlainBytesAreText | Services/Summaries/FileTypeInspector.cs:75-90 | a sample of tabs, line breaks and bytes from space upward that does not start "%PDF" is text |
| FileTypeInspector.NoControlBytes | Services/Summaries/FileTypeInspector.cs:84-87 | a sample without control bytes counts none |
| FileTypeInspector.NulMeansBinary | Services/Summaries/FileTypeInspector.cs:79-82 | a single NUL byte anywhere in the sample makes the file not text |
| XmlSummarizer.Summarize | Services/XmlSummarizer.cs:12-121 | the summary is the INCA summary when that summarizer takes the file, and the generic summary otherwise |
| XmlSummarizer.SummarizeGeneric | Services/XmlSummarizer.cs:19-120 | the generic summary is the text of the generic lines: both passes over the node stream, with the exception handlers' lines |
| XmlSummarizer.GenericShape | Services/XmlSummarizer.cs:19-120 | a failure in the first pass leaves only its error line; otherwise the first pass's report, a blank line and "Text samples:", at most three samples, and the second pass's error line if it failed |
| XmlSummarizer.ScanElements | Services/XmlSummarizer.cs:33-71 | the first loop ends with the scan of the node stream, and with the stream's failure when it is reached before the cap |
| XmlSummarizer.ScanCounts | Services/XmlSummarizer.cs:39-71 | the first pass counts exactly the first 20000 elements (all of them when there are fewer): root name, element and attribute totals and per-name counts, and stops exactly when there are at least that many |
| XmlSummarizer.ScanCapped | Services/XmlSummarizer.cs:65-69 | the element count is the number of elements up to 20000, and the stop note is written exactly when that cap is reached |
| XmlSummarizer.ScanStays | Services/XmlSummarizer.cs:65-69 | once the cap is reached, no later node changes the scan |
| XmlSummarizer.WriteReport | Services/XmlSummarizer.cs:67-91 | the method writes exactly the report lines of the finished first pass |
| XmlSummarizer.ReportLength | Services/XmlSummarizer.cs:67-91 | the report has the stop note only when the cap was reached, then root, element and attribute lines, then, when a name was counted, a blank line, the heading and one line for each of at most twelve names |
| XmlSummarizer.ReportStopNote | Services/XmlSummarizer.cs:67 | a pass the cap stopped opens its report with the stop note |
| XmlSummarizer.ReportNames | Services/XmlSummarizer.cs:77-91 | after the heading, the report lists the first twelve name counts in the order the names were first met |
| XmlSummarizer.WriteNames | Services/XmlSummarizer.cs:81-90 | the loop writes exactly the name lines, stopping after twelve |
| XmlSummarizer.CollectSamples | Services/XmlSummarizer.cs:93-109 | the second loop writes exactly the samples of the stream, and meets the stream's failure only when it reads past the last node before three samples are found |
| XmlSummarizer.SampledFirst | Services/XmlSummarizer.cs:98-109 | the second pass writes exactly the first three samples the file offers, or all of them when there are fewer |
| XmlSummarizer.SampledStays | Services/XmlSummarizer.cs:98 | once three samples are found, no later node adds one |
| XmlSummarizer.SamplesDone | Services/XmlSummarizer.cs:98 | with three samples found before a node, the samples are final and the failure after the last node is never reached |
| XmlSummarizer.SampleShape | Services/XmlSummarizer.cs:100-107 | a sample line is "- " and between one and 201 characters with no line break |
| XmlSummarizer.SingleLine | Services/XmlSummarizer.cs:125 | replacing the line breaks keeps the length |
| XmlSummarizer.SingleLineChars | Services/XmlSummarizer.cs:125 | every carriage return and line feed becomes a space and every other character is kept |
| XmlSummarizer.TruncateOneLine | Services/XmlSummarizer.cs:123-132 | the result has no line break; text within the limit is the single-line text, longer text is its first `max` characters and "…" |
| XmlSummarizer.TruncateKeeps | Services/XmlSummarizer.cs:123-132 | text already on one line and within the limit comes back unchanged |
| NameCounts.FindKey | Services/XmlSummarizer.cs:56 | the position found holds the key; none is found exactly when no entry holds it |
| NameCounts.FindKeyAt | Services/XmlSummarizer.cs:56 | with distinct keys, the entry found for a key is the one holding it |
| NameCounts.IncrementCounts | Services/XmlSummarizer.cs:56-63 | counting a name keeps the keys distinct, adds one to that name's count and to no other, adds one to the total, and puts a new name at the end |
| NameCounts.IncrementFound | Services/XmlSummarizer.cs:56-59 | a name already present keeps its place and its count grows by one |
| NameCounts.IncrementNew | Services/XmlSummarizer.cs:60-63 | a new name is appended with count one |
| NameCounts.UpdateLookup | Services/XmlSummarizer.cs:58 | replacing an entry by one of the same key keeps the keys distinct and changes only that key's count |
| NameCounts.AppendLookup | Services/XmlSummarizer.cs:62 | appending an entry for a new key keeps the keys distinct and leaves the other counts |
| IncaDocument.TrySummarize | Services/IncaDocumentSummarizer.cs:25-66 | the file is taken exactly when its first content node is an `incaDocument` element whose namespace mentions the INCA schemas, in any case; a taken file gives the summary of the loaded document, or "Error summarizing INCA document: " and the load error |
| IncaDocument.Summarize | Services/IncaDocumentSummarizer.cs:25-66 | the method answers true exactly when the file is taken, with its summary, and "" otherwise |
| IncaDocument.BuildSummary | Services/IncaDocumentSummarizer.cs:68-131 | the method builds exactly the document's summary: "Empty INCA document." without a root, else the header and the sections, trimmed at the end |
| IncaDocument.SummaryStart | Services/IncaDocumentSummarizer.cs:79-142 | the summary of a document with a root starts with its "Document:" line |
| IncaDocument.AppendSections | Services/IncaDocumentSummarizer.cs:80-128 | the sections are appended in the source's order: addressee, companies, insurances, benefits, value reserves, persons, each only when present |
| IncaDocument.HeaderLines | Services/IncaDocumentSummarizer.cs:133-147 | the header opens with "Document: " and the root's name |
| IncaDocument.AddPart | Services/IncaDocumentSummarizer.cs:486-492 | a null or blank value leaves the parts alone; any other appends "label: value"; visible parts stay visible |
| IncaDocument.Visible | Services/IncaDocumentSummarizer.cs:211 | the kept parts are visible and come from the input; parts already visible are all kept |
| IncaDocument.VisibleValues | Services/IncaDocumentSummarizer.cs:159 | the kept values are visible, and none is kept exactly when every value is null or blank |
| IncaDocument.Flags | Services/IncaDocumentSummarizer.cs:326-333 | no flag text exactly when every flag value is null or blank |
| IncaDocument.JoinVisible | Services/IncaDocumentSummarizer.cs:335-336 | joining visible parts gives blank text exactly when there are no parts |
| IncaDocument.IdPartVisible | Services/IncaDocumentSummarizer.cs:204-207 | an "id=…" part is always visible |
| IncaDocument.IdLineStart | Services/IncaDocumentSummarizer.cs:211 | a line of parts led by an "id=" part starts with "  id=" |
| IncaDocument.FormatId | Services/IncaDocumentSummarizer.cs:494-497 | "" exactly for a null or blank id; otherwise " (personId=", the id, and ")" |
| IncaDocument.FormatRange | Services/IncaDocumentSummarizer.cs:499-517 | "" exactly when both ends are null or blank; "→ to" when only the start is blank, "from →" when only the end is blank, "from → to" otherwise |
| IncaDocument.AddressValues | Services/IncaDocumentSummarizer.cs:175-184 | the seven address fields, in the source's order |
| IncaDocument.AddressShown | Services/IncaDocumentSummarizer.cs:175-190 | the address line is written exactly when one of the seven fields is not blank |
| IncaDocument.CompanyParts | Services/IncaDocumentSummarizer.cs:204-211 | a company line's parts start with its "id=" part and are all visible |
| IncaDocument.CompanyLines | Services/IncaDocumentSummarizer.cs:202-212 | one line per company |
| IncaDocument.AppendCompanies | Services/IncaDocumentSummarizer.cs:194-213 | nothing for no companies, else the count line and one line per company |
| IncaDocument.AppendInsurance | Services/IncaDocumentSummarizer.cs:215-275 | the method builds exactly the insurance's lines: head, then its own benefits block when it has benefits |
| IncaDocument.AppendInsuranceHead | Services/IncaDocumentSummarizer.cs:217-268 | the method builds the title line, the extras, the product line and the roles table |
| IncaDocument.AppendRoles | Services/IncaDocumentSummarizer.cs:250-268 | one row per role, drawn and written indented under "  Roles:" |
| IncaDocument.RowOf | Services/IncaDocumentSummarizer.cs:255-261 | every role and every benefit gives a row to the roles and main benefit tables |
| IncaDocument.EveryRow | Services/IncaDocumentSummarizer.cs:298-316 | a table that every element adds a row to has one row per element, in order |
| IncaDocument.AppendBenefits | Services/IncaDocumentSummarizer.cs:277-445 | the method builds exactly the benefits block from the first six benefits |
| IncaDocument.FillBenefits | Services/IncaDocumentSummarizer.cs:298-399 | after the loop, each table holds its headers and the rows of the first six benefits, in order |
| IncaDocument.AddBenefit | Services/IncaDocumentSummarizer.cs:300-398 | one benefit adds its main row, and its beneficiary, payment and compensation rows when it has them; nothing else changes |
| IncaDocument.BeneficiaryShown | Services/IncaDocumentSummarizer.cs:318-347 | a beneficiary gets a row exactly when one of its id, from, to or flag values is not blank |
| IncaDocument.ShareTexts | Services/IncaDocumentSummarizer.cs:379-385 | one "share→person" text per allocation detail |
| IncaDocument.PrimaryRows | Services/IncaDocumentSummarizer.cs:298-316 | the main benefits table has one row for each of the first six benefits, in order |
| IncaDocument.BenefitsShape | Services/IncaDocumentSummarizer.cs:277-445 | the block is the count line, the main table, the beneficiary and payment tables under their headings, the compensation table, and the "more benefit node(s)" note exactly when there are more than six |
| IncaDocument.BenefitsBlockShape | Services/IncaDocumentSummarizer.cs:401-422 | the beneficiary and payment tables are always written under their headings, because a header row is never empty text |
| IncaDocument.HeadingShown | Services/IncaDocumentSummarizer.cs:406-413 | a table drawn from a visible header is never empty, so its heading and lines are written |
| IncaDocument.WriteBenefits | Services/IncaDocumentSummarizer.cs:401-444 | the filled tables are written under their headings, then the compensation block and the note |
| IncaDocument.WriteHeaded | Services/IncaDocumentSummarizer.cs:406-413 | a built table is appended under its heading when its text is not empty |
| IncaDocument.WriteCompensation | Services/IncaDocumentSummarizer.cs:424-439 | the compensation table is drawn only when it has rows, and followed by an empty line |
| IncaDocument.AppendTable | Services/IncaDocumentSummarizer.cs:401-404 | the heading, then each line of the drawn table split at line breaks, with the indent before it |
| IncaDocument.DrawBuilt | Services/IncaDocumentSummarizer.cs:426-433 | the text is the drawn table of the headers and rows |
| IncaDocument.Indented | Services/IncaDocumentSummarizer.cs:264-267 | one line per line, each prefixed with the indent |
| IncaDocument.MoreNote | Services/IncaDocumentSummarizer.cs:441-444 | the note is written once when the list is longer than its cap, and not at all otherwise |
| IncaDocument.Reserves | Services/IncaDocumentSummarizer.cs:113-115 | the first five `valueReserve` descendants in the datamodel namespace, in document order |
| IncaDocument.ReserveParts | Services/IncaDocumentSummarizer.cs:452-459 | a reserve line's parts start with its "id=" part and are all visible |
| IncaDocument.AppendValueReserves | Services/IncaDocumentSummarizer.cs:447-461 | the number shown, then one line per reserve |
| IncaDocument.PersonParts | Services/IncaDocumentSummarizer.cs:468-477 | a person line's parts start with its "id=" part and are all visible |
| IncaDocument.PersonLines | Services/IncaDocumentSummarizer.cs:466-478 | one line per person, in order |
| IncaDocument.AppendPersons | Services/IncaDocumentSummarizer.cs:463-484 | the method builds exactly the persons block |
| IncaDocument.PersonsShown | Services/IncaDocumentSummarizer.cs:463-484 | the persons block lists exactly the first six persons, in order, and holds the note with the number left out exactly when there are more than six |
| IncaDocument.PersonsBlockShape | Services/IncaDocumentSummarizer.cs:465-483 | the count line, then the listed lines in order, then the note, if any |
| IncaDocument.PersonsNote | Services/IncaDocumentSummarizer.cs:480-483 | when every listed line starts with "  id=", the note is present exactly when the count passes the cap |
| IncaDocument.PersonLinesStart | Services/IncaDocumentSummarizer.cs:468-477 | every person line starts with "  id=" |
| Csv.TrimAll | Services/CsvSummarizer.cs:138 | every cell of the row is trimmed, in place and count |
| Csv.SplitRestTrimmed | Services/CsvSummarizer.cs:115-149 | every cell the splitter emits is trimmed |
| Csv.SplitRestCount | Services/CsvSummarizer.cs:115-196 | from any state, the splitter emits one cell more than the counter counts unquoted delimiters |
| Csv.CellCount | Services/CsvSummarizer.cs:115-196 | a line splits into exactly one cell more than its unquoted delimiters, for every delimiter |
| Csv.SplitCsvLine | Services/CsvSummarizer.cs:115-149 | the index loop with the in-quotes flag yields the split the splitter's specification describes |
| Csv.CountOccurrences | Services/CsvSummarizer.cs:170-196 | the counting loop yields the number of delimiters outside quotes, quote pairs skipped |
| Csv.QuotedThenDelimiter | Services/CsvSummarizer.cs:124-140 | a quoted field followed by the delimiter yields the field's trimmed text as one cell, quotes doubled inside reading as one |
| Csv.QuotedAlone | Services/CsvSummarizer.cs:124-147 | a quoted field alone on a line yields its trimmed text |
| Csv.QuotedRoundTrip | Services/CsvSummarizer.cs:115-149 | fields written quoted, with quotes doubled, and joined by the delimiter split back into the fields, trimmed, whatever characters they hold |
| Csv.UnquotedRest | Services/CsvSummarizer.cs:136-147 | without quotes the rest of a line splits like `string.Split` on the delimiter with each piece trimmed |
| Csv.UnquotedLine | Services/CsvSummarizer.cs:115-149 | a line without quotes splits exactly like `string.Split` on the delimiter followed by trimming |
| Csv.ElectionOutcome | Services/CsvSummarizer.cs:157-165 | after the first candidates have been tried, the best so far is the first of them with the largest count |
| Csv.ElectDelimiter | Services/CsvSummarizer.cs:151-168 | the chosen delimiter is one of the five candidates; ',' when none occurs; otherwise the first candidate with the largest number of unquoted occurrences |
| Csv.DetectDelimiter | Services/CsvSummarizer.cs:151-168 | the candidate loop settles on the delimiter the election describes |
| Csv.DescribeDelimiter | Services/CsvSummarizer.cs:198-207 | each candidate has a parenthesised name; any other character is shown as itself |
| Csv.PaddedRow | Services/CsvSummarizer.cs:209-217 | a row has exactly the header count of cells: the line's cells where present, "" after them |
| Csv.ToRowArray | Services/CsvSummarizer.cs:209-217 | the array loop fills the padded row |
| Csv.NamedHeaders | Services/CsvSummarizer.cs:35-40 | the shown headers are as many as the split headers |
| Csv.NamedHeadersNotBlank | Services/CsvSummarizer.cs:37 | every shown header is non-blank; a non-blank header is kept as it was, a blank one is named "Column " and its position |
| Csv.ColumnLines | Services/CsvSummarizer.cs:38 | one numbered line per column |
| Csv.ColumnLinesNumbered | Services/CsvSummarizer.cs:38 | line i ends with column i's name and starts with the number i + 1, which reads back as i + 1 |
| Csv.NameColumns | Services/CsvSummarizer.cs:35-40 | the header loop names the blank headers in place and writes the numbered column list |
| Csv.MinOfIsLeast | Services/CsvSummarizer.cs:221-231 | the running minimum from `decimal.MaxValue` is at most every value fed, and for a non-empty column is the first of its least values |
| Csv.MaxOfIsGreatest | Services/CsvSummarizer.cs:222-236 | the running maximum from `decimal.MinValue` is at least every value fed, and for a non-empty column is the first of its greatest values |
| Csv.AverageBounds | Services/CsvSummarizer.cs:242 | the mean of a non-empty column lies between its minimum and maximum |
| Csv.NumericStats.constructor | Services/CsvSummarizer.cs:219-224 | a fresh statistics object has been fed nothing |
| Csv.NumericStats.Push | Services/CsvSummarizer.cs:226-240 | a push appends the value to what the object has been fed, keeping min, max, sum and count those of the values fed |
| Csv.NumericStats.Average | Services/CsvSummarizer.cs:242 | the average field reads the mean of the values fed, 0 before any push |
| Csv.CellValue | Services/CsvSummarizer.cs:59-61 | a cell contributes at most one number, and one exactly when the row has that cell and it parses |
| Csv.NewColumnsExactly | Services/CsvSummarizer.cs:63-67 | a row adds to the dictionary exactly the columns not yet in it where it has a number, each once, in increasing order |
| Csv.AppendNewColumns | Services/CsvSummarizer.cs:63-67 | the keys stay distinct and gain exactly the columns that got a number |
| Csv.KeyOrderColumns | Services/CsvSummarizer.cs:44-70 | the dictionary's keys are exactly the columns with a header where some scanned row holds a number, each once |
| Csv.PreviewOf | Services/CsvSummarizer.cs:54-57 | the preview holds the first data lines, split and padded to the header count |
| Csv.PushCell | Services/CsvSummarizer.cs:61-68 | a numeric cell is pushed into its column's statistics, created on first use; a cell that is not a number changes nothing |
| Csv.CellStep | Services/CsvSummarizer.cs:59-70 | after one more cell, each column has been fed its earlier values followed by this row's numbers in the cells so far |
| Csv.FeedColumn | Services/CsvSummarizer.cs:59-70 | one turn of the inner loop extends only column i's values, by its cell's number if any |
| Csv.PushCells | Services/CsvSummarizer.cs:59-70 | the inner loop feeds each column with a header and a cell in this row its number, and adds to the dictionary exactly the columns that got one |
| Csv.FedAll | Services/CsvSummarizer.cs:59 | stopping at the shorter of header and row loses no number |
| Csv.AddRowStats | Services/CsvSummarizer.cs:59-70 | after a data line every column's statistics are those of its numbers over the lines so far |
| Csv.ColumnValuesNext | Services/CsvSummarizer.cs:59-70 | a column's values over one more line are its earlier values and this line's number |
| Csv.ScanRow | Services/CsvSummarizer.cs:50-70 | one data line is counted, kept for the preview while it has room, and fed to the statistics |
| Csv.ScanRows | Services/CsvSummarizer.cs:46-77 | the scan counts the data lines up to 5000, flags truncation exactly when there are at least 5000, keeps the first 100 as the preview and feeds every number of the scanned lines to its column |
| CsvSummary.StatLines | Services/CsvSummarizer.cs:94-98 | one statistics line per dictionary entry, in enumeration order, naming the column and showing the minimum, maximum and mean of its numbers |
| CsvSummary.ReportHead | Services/CsvSummarizer.cs:33-88 | the report's head ends with the preview count |
| CsvSummary.StopNoteIffTruncated | Services/CsvSummarizer.cs:79-105 | the report's last line is the stop note exactly when the scan was cut short; otherwise a statistics line or the preview count |
| CsvSummary.CsvReport | Services/CsvSummarizer.cs:31-105 | for a file with a header: at most 5000 rows scanned and 100 previewed, counts equal to the data lines up to those caps, truncated exactly at 5000 or more, headers from the header line split on the elected delimiter, preview rows the padded split data lines |
| CsvSummary.ReportHeaders | Services/CsvSummarizer.cs:35-40 | the returned headers are never blank, and a non-blank header is returned as it was |
| CsvSummary.TruncationNoted | Services/CsvSummarizer.cs:101-105 | the report ends with "Processing stopped early ..." exactly when the result is flagged truncated |
| CsvSummary.CsvSummaryOf | Services/CsvSummarizer.cs:12-113 | a file that cannot be opened gives only the error line, an empty one only "CSV appears empty.", both with no headers, no rows and count 0; otherwise the caps hold, every preview row has the header count and truncation means the cap was reached |
| CsvSummary.Summarize | Services/CsvSummarizer.cs:12-113 | the method returns the result `CsvSummaryOf` describes |
| CsvSummary.WriteReport | Services/CsvSummarizer.cs:79-105 | the appends after the scan write the counts, the statistics section and the stop note |
| CsvSummary.CountPreview | Services/CsvSummarizer.cs:81-88 | the preview count mentions the cap of 100 exactly when the preview is full or the scan was cut short |
| CsvSummary.NumericSection | Services/CsvSummarizer.cs:90-99 | the statistics section is the heading and one line per dictionary key, empty when there is no key |
| CsvSummary.ReadStats | Services/CsvSummarizer.cs:97 | the line written from an object's fields is the line of the values it was fed |
| CsvSummary.StatsPresent | Services/CsvSummarizer.cs:90 | the dictionary holds an entry exactly for the enumerated keys, so it is non-empty exactly when some key is |
| CsvSummary.EnumerateStats | Services/CsvSummarizer.cs:94-98 | the `foreach` writes the statistics lines of the enumerated keys |
| Markdown.HashRun | Services/MarkdownSummaryService.cs:382-387 | the leading run of '#' is maximal: every character in it is '#' and the next is not |
| Markdown.HeadingOf | Services/MarkdownSummaryService.cs:377-401 | a line is a heading exactly when it opens with one to six '#' and the rest is not blank; the level is the number of '#' and the text is trimmed and non-empty |
| Markdown.TryParseHeading | Services/MarkdownSummaryService.cs:377-401 | the scanning method succeeds exactly on headings and yields their level and text |
| Markdown.HashRunIs | Services/MarkdownSummaryService.cs:382-387 | n '#' followed by a character that is not '#' are a run of n |
| Markdown.HeadingRoundTrip | Services/MarkdownSummaryService.cs:377-401 | writing a level of '#', a space and a non-blank title reads back as that level with the trimmed title |
| Markdown.CountWords | Services/MarkdownSummaryService.cs:403-425 | the loop counts the words of the line: letter-or-digit runs |
| Markdown.WordCountSplit | Services/MarkdownSummaryService.cs:403-425 | texts meeting at a separator have the sum of their word counts |
| Markdown.NoWords | Services/MarkdownSummaryService.cs:410 | a text without letters or digits has no words |
| Markdown.NonBlank | Services/MarkdownSummaryService.cs:224-227 | the characters the rule test looks at are a selection of the line |
| Markdown.IsHorizontalRule | Services/MarkdownSummaryService.cs:212-245 | the one-pass test agrees with the rule definition: at least three characters, and at least three non-space characters, all the same one of '-', '_' or '*' |
| Markdown.NonBlankPrefix | Services/MarkdownSummaryService.cs:222-242 | the characters seen after a prefix are a prefix of those of the whole line |
| Markdown.ListItemOf | Services/MarkdownSummaryService.cs:247-281 | an item's content is trimmed |
| Markdown.IsListItem | Services/MarkdownSummaryService.cs:247-281 | the method succeeds exactly on list items and yields their marker and content |
| Markdown.NumberedItem | Services/MarkdownSummaryService.cs:259-277 | digits, a dot and a space give "digits." as marker and the trimmed rest as content |
| Markdown.LinkPiece | Services/MarkdownSummaryService.cs:303-342 | each pass of the link loop moves the scan forward and stays within the text |
| Markdown.ReplaceLinks | Services/MarkdownSummaryService.cs:298-345 | the loop yields the text the link passes describe |
| Markdown.LinkStep | Services/MarkdownSummaryService.cs:305-341 | one pass of the loop appends the piece and resumes where the description says |
| Markdown.LinksWithoutBrackets | Services/MarkdownSummaryService.cs:305-309 | text without '[' is left unchanged |
| Markdown.LinkRewritten | Services/MarkdownSummaryService.cs:320-336 | a link becomes its caption followed by " (url)", or the caption alone when the url is blank |
| Markdown.LinkPieceOfLink | Services/MarkdownSummaryService.cs:320-336 | a whole link is consumed in one pass, yielding the rewritten text |
| Markdown.Ticked | Services/MarkdownSummaryService.cs:357-367 | every backtick becomes an apostrophe and every other character is kept |
| Markdown.InlineCodeOf | Services/MarkdownSummaryService.cs:347-375 | no backtick is left; the text grows by one closing apostrophe exactly when the backticks are odd in number |
| Markdown.TicklessCount | Services/MarkdownSummaryService.cs:349 | a text without backticks counts none |
| Markdown.ReplaceInlineCode | Services/MarkdownSummaryService.cs:347-375 | the copying loop yields the text the description gives |
| Markdown.InlineOf | Services/MarkdownSummaryService.cs:283-296 | formatted inline text is trimmed |
| Markdown.FormatInline | Services/MarkdownSummaryService.cs:283-296 | the method applies links, code spans and emphasis removal, then trims |
| Markdown.TicklessCode | Services/MarkdownSummaryService.cs:349-352 | text without backticks passes the code step unchanged |
| Markdown.NoEmphasis | Services/MarkdownSummaryService.cs:292-294 | text without '*', '_' or '~' passes emphasis removal unchanged |
| Markdown.PlainInline | Services/MarkdownSummaryService.cs:283-296 | text with none of the markup characters is only trimmed |
| Markdown.UnderlineLength | Services/MarkdownSummaryService.cs:124 | the underline is between 3 and 80 long, and as long as the heading when that is in range |
| Markdown.HeadingLines | Services/MarkdownSummaryService.cs:116-137 | levels 1 and 2 render as two lines, deeper levels as one |
| Markdown.HeadingLinesOf | Services/MarkdownSummaryService.cs:120-135 | levels 1 and 2 render as two lines, deeper levels as one |
| Markdown.PlainLines | Services/MarkdownSummaryService.cs:116-161 | a line outside a code block renders as one or two lines |
| Markdown.FormatLineOf | Services/MarkdownSummaryService.cs:97-162 | a line renders as one or two lines, and the code-block state flips exactly on a fence |
| Markdown.FormatMarkdownLine | Services/MarkdownSummaryService.cs:97-162 | the method yields the rendering and the code-block state the description gives |
| Markdown.FormatPlainLine | Services/MarkdownSummaryService.cs:116-161 | the branches outside a code block yield the plain rendering |
| Markdown.FormatHeading | Services/MarkdownSummaryService.cs:116-137 | the heading branch renders the heading's lines |
| Markdown.FormatHeadingLines | Services/MarkdownSummaryService.cs:118-135 | the level branches render the lines of the formatted heading text |
| Markdown.CodeBlockVerbatim | Services/MarkdownSummaryService.cs:110-114 | inside a code block every line but a fence is kept verbatim, indented by four spaces, and the block stays open |
| Markdown.FenceMarker | Services/MarkdownSummaryService.cs:103-108 | a fence renders "[code block]" when it opens the block and an empty line when it closes it |
| Markdown.HeadingLine | Services/MarkdownSummaryService.cs:116-138 | outside a code block a heading renders as its heading lines |
| Markdown.TitleUnderlined | Services/MarkdownSummaryService.cs:120-125 | a level-one heading renders with no lower-case ASCII letter over a line of '=' of its own length, kept within 3 to 80 |
| Markdown.HeadingNotFence | Services/MarkdownSummaryService.cs:103-116 | a heading line is never a fence |
| Markdown.AppendLimitedOf | Services/MarkdownSummaryService.cs:183-210 | nothing changes once truncated or for empty content; otherwise a prefix of the content is appended, the builder does not pass the limit, and it is truncated exactly when it reaches the limit |
| Markdown.AppendLimited | Services/MarkdownSummaryService.cs:183-210 | the character loop yields the text and flag the description gives |
| Markdown.AppendLineLimited | Services/MarkdownSummaryService.cs:164-181 | a line break, when the builder is not empty, then the content, both limited |
| Markdown.Clip | Services/MarkdownSummaryService.cs:183-210 | a preview is a prefix of the rendering within the limit, truncated exactly when the rendering reaches the limit, and the whole rendering otherwise |
| Markdown.RenderFromExtends | Services/MarkdownSummaryService.cs:50-57 | rendering only appends |
| Markdown.RenderFromAppend | Services/MarkdownSummaryService.cs:50-57 | rendering two runs of lines is rendering the first and carrying on with the second |
| Markdown.ClipExtension | Services/MarkdownSummaryService.cs:48 | once the rendering reaches the limit, what follows does not change the preview: skipping the rest once truncated is sound |
| Markdown.AppendLimitedClips | Services/MarkdownSummaryService.cs:183-210 | below the limit, the limited append gives the preview of the extended text |
| Markdown.AppendLineClips | Services/MarkdownSummaryService.cs:164-181 | the limited line append on a preview gives the preview of the rendering with the next line |
| Markdown.RenderingSnoc | Services/MarkdownSummaryService.cs:34-59 | one more source line adds its rendered lines after the rendering so far, in the code-block state the earlier lines leave |
| Markdown.HeadingsIn | Services/MarkdownSummaryService.cs:42-46 | there are at most as many headings as lines |
| Markdown.CharactersAreText | Services/MarkdownSummaryService.cs:39 | the character count is the length of the lines written out, one character per line break |
| Markdown.WordsAcrossLines | Services/MarkdownSummaryService.cs:40 | counting words line by line gives the word count of the text written out with line breaks |
| Markdown.LinesEnd | Services/MarkdownSummaryService.cs:39 | written-out lines end with a line break |
| Markdown.HeadingSection | Services/MarkdownSummaryService.cs:73-91 | no section without headings; otherwise a blank line, "Headings:", the first 200 heading rows in order and "... (n more)" for the rest |
| Markdown.HeadingRows | Services/MarkdownSummaryService.cs:78-85 | one row per heading, in order |
| Markdown.PreviewLimit | Services/MarkdownSummaryService.cs:20 | the preview limit is at least 1 and is the configured maximum when that is at least 1 |
| Markdown.MarkdownSummaryOf | Services/MarkdownSummaryService.cs:15-95 | the preview is a prefix of the whole rendering within the limit, truncated exactly when the rendering reaches it and complete otherwise, titled with the file name |
| Markdown.Summarize | Services/MarkdownSummaryService.cs:15-95 | the single pass returns the result the description gives |
| Markdown.CountLine | Services/MarkdownSummaryService.cs:38-46 | after a line the counts and headings are those of the lines so far |
| Markdown.PreviewSourceLine | Services/MarkdownSummaryService.cs:48-58 | after a line the preview is the clipped rendering of the lines so far, and the code-block state is right while not truncated |
| Markdown.AppendFormatted | Services/MarkdownSummaryService.cs:50-57 | the inner loop with its early break gives the clipped rendering of all the formatted lines |
| Markdown.AppendNextClips | Services/MarkdownSummaryService.cs:50-57 | one more formatted line keeps the preview the clipped rendering so far |
| Markdown.ClipRest | Services/MarkdownSummaryService.cs:53-56 | breaking once truncated loses nothing from the preview |
| Markdown.WriteSummary | Services/MarkdownSummaryService.cs:61-91 | the summary lists the counts, the truncation note when truncated, and the heading section |
| Markdown.HeadingList | Services/MarkdownSummaryService.cs:73-91 | the loop writes the heading section |
| AlteryxWorkflow.FoldEquals | Services/AlteryxWorkflowSummaryService.cs:208 | two texts are equal ignoring case exactly when their folded forms are equal |
| AlteryxWorkflow.Version | Services/AlteryxWorkflowSummaryService.cs:23-26 | the version is `yxmdVer` when present, else `yxmcVer`, else `yxpVer`, else "Unknown" |
| AlteryxWorkflow.StripPadding | Services/AlteryxWorkflowSummaryService.cs:297 | the stripped text is no longer than the original and neither starts nor ends with padding |
| AlteryxWorkflow.FormatBoolIdempotent | Services/AlteryxWorkflowSummaryService.cs:295-302 | the result is "True", "False" or "Unknown", and formatting it again gives it back |
| AlteryxWorkflow.ParseBoolText | Services/AlteryxWorkflowSummaryService.cs:297 | the words written for a boolean parse back to that boolean |
| AlteryxWorkflow.ParseUnknown | Services/AlteryxWorkflowSummaryService.cs:297-301 | "Unknown" does not parse as a boolean |
| AlteryxWorkflow.FormatBoolWords | Services/AlteryxWorkflowSummaryService.cs:295-302 | for every attribute value: "True" exactly when the padding-stripped text equals "True" ignoring case, "False" likewise, and "Unknown" for a missing attribute and for any other text |
| AlteryxWorkflow.PaddingUpper | Services/AlteryxWorkflowSummaryService.cs:295-302 | upper-casing a character keeps it a padding character or a non-padding one |
| AlteryxWorkflow.StripPaddingFold | Services/AlteryxWorkflowSummaryService.cs:295-302 | stripping the padding and upper-casing commute |
| AlteryxWorkflow.FormatBoolIgnoresCase | Services/AlteryxWorkflowSummaryService.cs:295-302 | two attribute texts equal ignoring case format to the same word |
| AlteryxWorkflow.StripPaddingAround | Services/AlteryxWorkflowSummaryService.cs:295-302 | any white space or NUL around a text is stripped together with the text's own padding |
| AlteryxWorkflow.FormatBoolIgnoresPadding | Services/AlteryxWorkflowSummaryService.cs:295-302 | padding of any length around an attribute text does not change the formatted word |
| AlteryxWorkflow.AddIfNotPresentKeepsDistinct | Services/AlteryxWorkflowSummaryService.cs:206-212 | adding keeps the list free of duplicates ignoring case and only appends; the list is unchanged exactly when the value was present and grows by it exactly when it was not |
| AlteryxWorkflow.KeptParts | Services/AlteryxWorkflowSummaryService.cs:329-330 | every kept part is non-empty and trimmed |
| AlteryxWorkflow.NormalizeExpression | Services/AlteryxWorkflowSummaryService.cs:316-333 | a missing or blank expression normalizes to "" |
| AlteryxWorkflow.NormalizedNoBreak | Services/AlteryxWorkflowSummaryService.cs:316-333 | a normalized expression holds no line break |
| AlteryxWorkflow.UnifyAvoidsReturn | Services/AlteryxWorkflowSummaryService.cs:323-325 | no carriage return is left once line breaks are unified |
| AlteryxWorkflow.SplitAvoids | Services/AlteryxWorkflowSummaryService.cs:328 | the pieces of a split hold no character the text did not |
| AlteryxWorkflow.TrimAvoids | Services/AlteryxWorkflowSummaryService.cs:329 | trimming adds no character |
| AlteryxWorkflow.KeptAvoids | Services/AlteryxWorkflowSummaryService.cs:329-330 | trimming and dropping parts introduces no character |
| AlteryxWorkflow.JoinAvoids | Services/AlteryxWorkflowSummaryService.cs:327 | a join holds no character that neither the separator nor any part holds |
| AlteryxWorkflow.NormalizedHasNoBreak | Services/AlteryxWorkflowSummaryService.cs:323-330 | after unifying and splitting at line feeds, the joined parts hold no line break |
| AlteryxWorkflow.JoinFirst | Services/AlteryxWorkflowSummaryService.cs:327 | a join starts with the first part's first character |
| AlteryxWorkflow.JoinLast | Services/AlteryxWorkflowSummaryService.cs:327 | a join ends with the last part's last character |
| AlteryxWorkflow.NormalizedIsTrimmed | Services/AlteryxWorkflowSummaryService.cs:316-333 | a normalized expression is trimmed |
| AlteryxWorkflow.NormalFormFixed | Services/AlteryxWorkflowSummaryService.cs:316-333 | a non-empty trimmed text without line breaks is its own normal form |
| AlteryxWorkflow.NormalizeIdempotent | Services/AlteryxWorkflowSummaryService.cs:316-333 | normalizing a normalized expression changes nothing |
| AlteryxWorkflow.FirstAttribute | Services/AlteryxWorkflowSummaryService.cs:282-285 | no attribute exactly when no element carries one; otherwise the value of the first element that does |
| AlteryxWorkflow.MacroOf | Services/AlteryxWorkflowSummaryService.cs:60-64 | a macro path is kept only when not blank, and then trimmed |
| AlteryxWorkflow.Listed | Services/AlteryxWorkflowSummaryService.cs:61-64 | an optional value becomes a list of that one value, or an empty list |
| AlteryxWorkflow.PresentOneMore | Services/AlteryxWorkflowSummaryService.cs:245-256 | the values present among one more option are those before followed by that option's value |
| AlteryxWorkflow.PresentFrom | Services/AlteryxWorkflowSummaryService.cs:245-256 | no more values than options, and each of them is among the options |
| AlteryxWorkflow.FileTexts | Services/AlteryxWorkflowSummaryService.cs:165-168 | one trimmed text per `File` element |
| AlteryxWorkflow.FirstNonBlankValue | Services/AlteryxWorkflowSummaryService.cs:186-194 | the result is "" or the trimmed text of one of the elements |
| AlteryxWorkflow.AddFileReferenceKeeps | Services/AlteryxWorkflowSummaryService.cs:168-181 | filing a text keeps both lists distinct, only appends, files a non-blank text among the inputs for an input tool and among the outputs for an output tool, and touches no other list |
| AlteryxWorkflow.PrefixCovers | Services/AlteryxWorkflowSummaryService.cs:206-212 | a list extending another represents all its values |
| AlteryxWorkflow.AddFileTextsKeeps | Services/AlteryxWorkflowSummaryService.cs:165-182 | over all the `File` texts the lists stay distinct and only grow |
| AlteryxWorkflow.AddFileTextsIgnored | Services/AlteryxWorkflowSummaryService.cs:174-181 | a tool that is neither input nor output files none of its `File` texts |
| AlteryxWorkflow.AddFileReferenceGrows | Services/AlteryxWorkflowSummaryService.cs:168-181 | filing never drops a reference, and an input tool's non-blank text is then among the inputs |
| AlteryxWorkflow.ContainsFoldPrefix | Services/AlteryxWorkflowSummaryService.cs:206-212 | a value represented in a list is represented in every extension of it |
| AlteryxWorkflow.AddFileTextsOutputs | Services/AlteryxWorkflowSummaryService.cs:174-181 | an input tool leaves the outputs alone |
| AlteryxWorkflow.AddFileTextsInputs | Services/AlteryxWorkflowSummaryService.cs:165-182 | an input tool files every non-blank `File` text among the inputs |
| AlteryxWorkflow.FileReferencesKeep | Services/AlteryxWorkflowSummaryService.cs:163-204 | collecting keeps the lists distinct and only appends, files a directory tool's folder reference among the inputs, and changes nothing for other tools |
| AlteryxWorkflow.FileTextsAre | Services/AlteryxWorkflowSummaryService.cs:165-168 | the texts list holds each element's trimmed text at its position |
| AlteryxWorkflow.AddFileTextsOneMore | Services/AlteryxWorkflowSummaryService.cs:166-182 | filing one more text is filing it after the earlier ones |
| AlteryxWorkflow.AddFileElements | Services/AlteryxWorkflowSummaryService.cs:165-182 | the `foreach` over the `File` elements yields the lists the filing description gives |
| AlteryxWorkflow.CollectFileReferences | Services/AlteryxWorkflowSummaryService.cs:163-204 | the method yields the lists the description gives |
| AlteryxWorkflow.AddDirectory | Services/AlteryxWorkflowSummaryService.cs:184-203 | a directory tool's non-blank folder, joined to its file pattern by '\' when there is one, is added to the inputs unless present |
| AlteryxWorkflow.NormalFormStable | Services/AlteryxWorkflowSummaryService.cs:249-253 | a captured expression is in normal form, non-blank, and normalizing it again changes nothing |
| AlteryxWorkflow.FormulaDetailNormal | Services/AlteryxWorkflowSummaryService.cs:247-255 | a captured formula carries the tool's id and a normalized expression |
| AlteryxWorkflow.FormulaFieldDetails | Services/AlteryxWorkflowSummaryService.cs:245-256 | one optional detail per formula field, in order |
| AlteryxWorkflow.FormulaDetailsFromShape | Services/AlteryxWorkflowSummaryService.cs:245-256 | at most one detail per field, each with the tool's id and a normalized expression |
| AlteryxWorkflow.ReadFormulaField | Services/AlteryxWorkflowSummaryService.cs:247-253 | one field yields its described detail |
| AlteryxWorkflow.CollectFormulaDetails | Services/AlteryxWorkflowSummaryService.cs:229-257 | the buffer gains exactly the node's formula details, and nothing for a tool that is not a formula tool |
| AlteryxWorkflow.AddFormulaDetails | Services/AlteryxWorkflowSummaryService.cs:245-256 | the `foreach` appends exactly the details present, in order |
| AlteryxWorkflow.FilterDetailNormal | Services/AlteryxWorkflowSummaryService.cs:259-278 | only a filter tool yields a detail, with the tool's id and a normalized expression |
| AlteryxWorkflow.FoldKeys | Services/AlteryxWorkflowSummaryService.cs:30 | the counts with folded keys, position by position |
| AlteryxWorkflow.IncrementFolded | Services/AlteryxWorkflowSummaryService.cs:304-314 | counting in the case-insensitive dictionary is counting the folded key in an ordinal one |
| AlteryxWorkflow.TotalFoldKeys | Services/AlteryxWorkflowSummaryService.cs:30 | folding keys keeps the total |
| AlteryxWorkflow.IncrementCounts | Services/AlteryxWorkflowSummaryService.cs:304-314 | counting a plugin keeps the keys distinct ignoring case, adds one to the total and to that plugin's count in any case and to no other, keeps earlier keys, and adds a new key only with count 1 |
| AlteryxWorkflow.AllTrimmedAppend | Services/AlteryxWorkflowSummaryService.cs:63 | joining two lists of trimmed macro paths keeps them trimmed |
| AlteryxWorkflow.FormulasNormalAppend | Services/AlteryxWorkflowSummaryService.cs:255 | joining two lists of normalized formulas keeps them normalized |
| AlteryxWorkflow.FiltersNormalAppend | Services/AlteryxWorkflowSummaryService.cs:277 | joining two lists of normalized filters keeps them normalized |
| AlteryxWorkflow.CountNodeConsistent | Services/AlteryxWorkflowSummaryService.cs:45-68 | visiting a node keeps the tally consistent |
| AlteryxWorkflow.CountNodeToolCounts | Services/AlteryxWorkflowSummaryService.cs:48 | visiting a node keeps the plugin keys distinct ignoring case and the total of the counts equal to the nodes visited |
| AlteryxWorkflow.CountNodeFiles | Services/AlteryxWorkflowSummaryService.cs:66 | visiting a node keeps the file lists distinct |
| AlteryxWorkflow.CountNodeMacros | Services/AlteryxWorkflowSummaryService.cs:60-64 | visiting a node keeps the macro paths trimmed |
| AlteryxWorkflow.CountNodeFormulas | Services/AlteryxWorkflowSummaryService.cs:67 | visiting a node keeps the formulas normalized |
| AlteryxWorkflow.CountNodeFilters | Services/AlteryxWorkflowSummaryService.cs:68 | visiting a node keeps the filters normalized |
| AlteryxWorkflow.FormulasOfNodeNormal | Services/AlteryxWorkflowSummaryService.cs:67 | a node's formulas appended to normalized ones stay normalized |
| AlteryxWorkflow.FiltersOfNodeNormal | Services/AlteryxWorkflowSummaryService.cs:68 | a node's filter appended to normalized ones stays normalized |
| AlteryxWorkflow.TallyConsistent | Services/AlteryxWorkflowSummaryService.cs:43-69 | the node loop keeps the tally consistent and counts every node once |
| AlteryxWorkflow.TallyToolCounts | Services/AlteryxWorkflowSummaryService.cs:43-69 | the count stored for a plugin, in any case, is the number of nodes using it |
| AlteryxWorkflow.TallyContainers | Services/AlteryxWorkflowSummaryService.cs:50-53 | the container count is the number of nodes of a container tool |
| AlteryxWorkflow.TallyDisabled | Services/AlteryxWorkflowSummaryService.cs:55-58 | the disabled count is the number of disabled nodes |
| AlteryxWorkflow.FoldedKeysSnoc | Services/AlteryxWorkflowSummaryService.cs:342-343 | the keys of one more item are the earlier keys and its own |
| AlteryxWorkflow.KeepFirstStep | Services/AlteryxWorkflowSummaryService.cs:342-343 | one more item is kept exactly when its key is new |
| AlteryxWorkflow.FoldedKeysOneMore | Services/AlteryxWorkflowSummaryService.cs:342-343 | the keys of a longer prefix add the next item's key |
| AlteryxWorkflow.KeepFirstShape | Services/AlteryxWorkflowSummaryService.cs:342-343 | the kept items have pairwise distinct keys ignoring case, cover every key of the input and are items of the input |
| AlteryxWorkflow.KeepFirstIsFirst | Services/AlteryxWorkflowSummaryService.cs:342-343 | an item is kept only where no earlier item has its key ignoring case |
| AlteryxWorkflow.RemoveSame | Services/AlteryxWorkflowSummaryService.cs:344 | dropping the same element from two permutations leaves permutations |
| AlteryxWorkflow.DistinctUnderPermutation | Services/AlteryxWorkflowSummaryService.cs:344 | reordering items whose keys are distinct ignoring case keeps them distinct |
| AlteryxWorkflow.WithoutOneDistinct | Services/AlteryxWorkflowSummaryService.cs:344 | dropping one item keeps the keys distinct |
| AlteryxWorkflow.OthersDiffer | Services/AlteryxWorkflowSummaryService.cs:344 | any other item has a different key from the one dropped |
| AlteryxWorkflow.Bullets | Services/AlteryxWorkflowSummaryService.cs:349-352 | one bullet line per item |
| AlteryxWorkflow.BulletsOneMore | Services/AlteryxWorkflowSummaryService.cs:349-352 | one more item adds its bullet at the end |
| AlteryxWorkflow.ListItemsFromInput | Services/AlteryxWorkflowSummaryService.cs:342-345 | the listed items are a reordering of the first-kept items, each taken from the input |
| AlteryxWorkflow.ListItemsDistinct | Services/AlteryxWorkflowSummaryService.cs:342-345 | the listed items are distinct ignoring case |
| AlteryxWorkflow.ListItemsOrdered | Services/AlteryxWorkflowSummaryService.cs:344 | the listed items are in ordinal order of their upper-cased forms |
| AlteryxWorkflow.ListItemsCover | Services/AlteryxWorkflowSummaryService.cs:342-345 | every input item is listed in some case |
| AlteryxWorkflow.AppendList | Services/AlteryxWorkflowSummaryService.cs:335-353 | the method appends the described list lines, nothing for an empty list |
| AlteryxWorkflow.ToolRows | Services/AlteryxWorkflowSummaryService.cs:110-112 | one row per tool: its name as first added and its count |
| AlteryxWorkflow.ToolUsageOrdered | Services/AlteryxWorkflowSummaryService.cs:105-108 | the sorted tools are a permutation of the counts, most used first, ties in ordinal order ignoring case, no two names equal ignoring case |
| AlteryxWorkflow.FormulaRows | Services/AlteryxWorkflowSummaryService.cs:127-132 | one row per formula detail |
| AlteryxWorkflow.FormulaRowsSnoc | Services/AlteryxWorkflowSummaryService.cs:127-132 | one more detail adds its row at the end |
| AlteryxWorkflow.FilterRows | Services/AlteryxWorkflowSummaryService.cs:149-153 | one row per filter detail |
| AlteryxWorkflow.FilterRowsSnoc | Services/AlteryxWorkflowSummaryService.cs:149-153 | one more detail adds its id-and-expression row at the end |
| AlteryxWorkflow.CollectFormulaRows | Services/AlteryxWorkflowSummaryService.cs:119-134 | the loop with its case-insensitive set of "id|field|expression" keys keeps the first row of each key |
| AlteryxWorkflow.CollectFilterRows | Services/AlteryxWorkflowSummaryService.cs:141-155 | the loop with its case-insensitive set of "id|expression" keys keeps the first row of each key |
| AlteryxWorkflow.SummaryOf | Services/AlteryxWorkflowSummaryService.cs:18-161 | a load failure raises its message, a document without root raises the missing-root message, otherwise the workflow is summarized |
| AlteryxWorkflow.TallyOneMore | Services/AlteryxWorkflowSummaryService.cs:43-69 | the tally of one more node is that node visited after the others |
| AlteryxWorkflow.WriteSummary | Services/AlteryxWorkflowSummaryService.cs:75-100 | the appends write the described summary lines |
| AlteryxWorkflow.BuildTables | Services/AlteryxWorkflowSummaryService.cs:102-158 | the tables built are the described tables |
| AlteryxWorkflow.Summarize | Services/AlteryxWorkflowSummaryService.cs:18-161 | the method returns what the description gives |
| AlteryxWorkflow.CountNodes | Services/AlteryxWorkflowSummaryService.cs:43-69 | the node loop yields the tally of all the nodes |
| AlteryxWorkflow.VisitNode | Services/AlteryxWorkflowSummaryService.cs:45-68 | one pass of the node loop updates the tally as the description gives |
| AlteryxWorkflow.CountNodeIs | Services/AlteryxWorkflowSummaryService.cs:45-68 | the updated counters and lists are the tally after the node |
| ArchiveSummary.Message | Services/ArchiveSummaryService.cs:348-353 | a message-only result has that summary, no table and no preview |
| ArchiveSummary.LowerSuffix | Services/ArchiveSummaryService.cs:240 | lower-casing keeps a suffix a suffix |
| ArchiveSummary.PreviewableEndsWithExtension | Services/ArchiveSummaryService.cs:238-242 | a previewable entry name ends, ignoring case, with one of the nine text extensions |
| ArchiveSummary.ChosenEncoding | Services/ArchiveSummaryService.cs:274-290 | UTF-16LE exactly after FF FE, UTF-16BE exactly after FE FF, UTF-8 otherwise |
| ArchiveSummary.Utf8MarkIsUtf8 | Services/ArchiveSummaryService.cs:285-290 | the UTF-8 byte order mark selects UTF-8, as plain bytes do |
| ArchiveSummary.DecodeText | Services/ArchiveSummaryService.cs:267-291 | nothing read decodes to ""; UTF-8 bytes decode with UTF-8 |
| ArchiveSummary.DrainStream | Services/ArchiveSummaryService.cs:293-311 | draining reads the stream to its end |
| ArchiveSummary.PreviewTruncation | Services/ArchiveSummaryService.cs:244-265 | text that decodes empty gives the placeholder, never truncated; otherwise the content is the decoded first read, truncated exactly when the read filled the requested size; truncation needs that many bytes |
| ArchiveSummary.ReadTextPreview | Services/ArchiveSummaryService.cs:244-265 | one read into the rented buffer, decoded, with the rest drained: the stream ends at its end and the preview is the one described |
| ArchiveSummary.LittleEndian32 | Services/ArchiveSummaryService.cs:325 | four bytes read as a little-endian 32-bit value are below 2^32 |
| ArchiveSummary.UInt32Bytes | Services/ArchiveSummaryService.cs:325 | a 32-bit value has four bytes |
| ArchiveSummary.LittleEndianOfBytes | Services/ArchiveSummaryService.cs:325 | reading back the bytes of a value gives the value |
| ArchiveSummary.BytesOfLittleEndian | Services/ArchiveSummaryService.cs:325 | writing the value of four bytes gives the bytes back |
| ArchiveSummary.ISize | Services/ArchiveSummaryService.cs:313-326 | -1 exactly for a file under four bytes; otherwise an unsigned 32-bit value |
| ArchiveSummary.ISizeOfTrailer | Services/ArchiveSummaryService.cs:313-326 | a file ending in the four bytes of n reports n |
| ArchiveSummary.TryReadGZipUncompressedSize | Services/ArchiveSummaryService.cs:313-326 | the seek to the last four bytes and back leaves the position as it was and returns the trailer's size |
| ArchiveSummary.MoreNote | Services/ArchiveSummaryService.cs:65 | the note starts "... " and ends with "entries" |
| ArchiveSummary.PreviewEntryLine | Services/ArchiveSummaryService.cs:77 | the line naming the previewed entry starts "Preview entry: " |
| ArchiveSummary.PreviewLines | Services/ArchiveSummaryService.cs:76-77 | the preview lines are blank or start with 'P' |
| ArchiveSummary.MoreNoteIffTruncated | Services/ArchiveSummaryService.cs:61-66 | the hidden-entries note appears exactly when more entries exist than the cap, counting those left out |
| ArchiveSummary.ListingNotes | Services/ArchiveSummaryService.cs:38-86 | the hidden-entries note is a line of the report and shows in its trimmed text exactly when there are more entries than the cap |
| ArchiveSummary.ZipRow | Services/ArchiveSummaryService.cs:48-55 | a zip row has five cells: full name, size, compressed size, ratio and time |
| ArchiveSummary.ZipRows | Services/ArchiveSummaryService.cs:46-58 | one row per listed entry, in order |
| ArchiveSummary.ZipHead | Services/ArchiveSummaryService.cs:39-41 | three count lines, none starting with '.' |
| ArchiveSummary.Shown | Services/ArchiveSummaryService.cs:69-74 | a preview is returned exactly when one was read, with the entry's name, content and truncation |
| ArchiveSummary.ZipListingShape | Services/ArchiveSummaryService.cs:38-86 | a zip archive with entries whose preview does not fail (no candidate, or one whose data reads at a size that is not negative) gives the trimmed report, the entries table flagged truncated when entries are hidden, and the preview |
| ArchiveSummary.ZipListingFailures | Services/ArchiveSummaryService.cs:26-92 | no entries give "Archive is empty."; with a preview candidate, a negative size gives the Rent range error and otherwise a candidate whose data fails to read gives its message, each after "Archive summary failed: " |
| ArchiveSummary.ZipListingParts | Services/ArchiveSummaryService.cs:68-91 | an archive with entries gives the failure message of its preview when that fails, and otherwise the preview its report carries |
| ArchiveSummary.ZipPreviewFacts | Services/ArchiveSummaryService.cs:68-74 | at a size that is not negative, the preview fails exactly when the candidate's data does, with its message, and otherwise is read from that data |
| ArchiveSummary.ZipListingTable | Services/ArchiveSummaryService.cs:44-84 | the table exists exactly when there are entries and the preview does not fail; it has one row per entry up to the cap and is flagged truncated exactly when more entries exist |
| ArchiveSummary.ZipTableStart | Services/ArchiveSummaryService.cs:45-59 | the drawn zip table starts with its first header's padding |
| ArchiveSummary.ZipListingNote | Services/ArchiveSummaryService.cs:61-66 | the note on hidden entries shows in the zip report exactly when there are more entries than the cap |
| ArchiveSummary.ZipNotesOf | Services/ArchiveSummaryService.cs:59-66 | the same for any listed prefix |
| ArchiveSummary.ZipListingPreview | Services/ArchiveSummaryService.cs:68-78 | the zip preview exists exactly when the first entry with a text name and content exists and its data reads, and is that entry's; when its data fails to read, the summary is "Archive summary failed: " and the message alone |
| ArchiveSummary.ZipTable | Services/ArchiveSummaryService.cs:44-59 | the table loop yields the rows and the drawn table |
| ArchiveSummary.SummarizeZip | Services/ArchiveSummaryService.cs:26-92 | the method returns the described zip result, including the failure message when the preview entry's data fails to read |
| ArchiveSummary.TarRow | Services/ArchiveSummaryService.cs:159-172 | a tar row has four cells: name, size, type name and time |
| ArchiveSummary.TarRows | Services/ArchiveSummaryService.cs:157-173 | one row per listed entry, in order |
| ArchiveSummary.TarScanOf | Services/ArchiveSummaryService.cs:113-143 | the loop completes exactly when the reader does not throw after the last entry, no data stream fails, and no preview is due at a negative size |
| ArchiveSummary.TarPreview | Services/ArchiveSummaryService.cs:128-138 | a preview exists exactly when there is a candidate whose data reads |
| ArchiveSummary.LoopFailureSnoc | Services/ArchiveSummaryService.cs:114-143 | one more pass keeps an earlier exception, else raises the entry's own |
| ArchiveSummary.LoopFailureFirst | Services/ArchiveSummaryService.cs:113-143 | the exception met pass by pass is the one read off the entries: the Rent range error when the size is negative and the first candidate comes no later than the first failing data stream, else that stream's message |
| ArchiveSummary.LoopFailureExtends | Services/ArchiveSummaryService.cs:114-143 | once the loop has raised an exception, later entries do not change it |
| ArchiveSummary.NoLoopFailureReadsAll | Services/ArchiveSummaryService.cs:114-143 | a loop that met no exception read every data stream without failure |
| ArchiveSummary.ScanOf | Services/ArchiveSummaryService.cs:114-143 | after some entries the count is their number and the list their first ones up to the cap; with no failing data, a preview exists exactly when a candidate does |
| ArchiveSummary.ScanEntry | Services/ArchiveSummaryService.cs:116-142 | one pass fails with the Rent range error when the first candidate meets a negative size, else with the message of a data stream that fails to read; otherwise it counts the entry, adds its length, lists it below the cap, and previews it when it is the first candidate |
| ArchiveSummary.TarPreviewSnoc | Services/ArchiveSummaryService.cs:128-138 | with no failing data, the preview after one more entry is the earlier one, else that entry's when it is a candidate |
| ArchiveSummary.ScanPrefix | Services/ArchiveSummaryService.cs:114-143 | with no failing data, scanning one more entry is one more pass of the loop |
| ArchiveSummary.ScanNext | Services/ArchiveSummaryService.cs:114-143 | one turn of the loop advances the scan by one entry, or ends it with the exception the pass raises |
| ArchiveSummary.ScanTar | Services/ArchiveSummaryService.cs:113-143 | the loop, stopping at the first exception and then meeting the reader's own failure, yields the described outcome |
| ArchiveSummary.TarHead | Services/ArchiveSummaryService.cs:151-152 | two count lines, none starting with '.' |
| ArchiveSummary.TarScanCounts | Services/ArchiveSummaryService.cs:113-143 | the scan completes exactly when nothing throws; it then counts every entry, sums every length, lists the first entries up to the cap and previews the first candidate |
| ArchiveSummary.TarFailureOrder | Services/ArchiveSummaryService.cs:94-204 | the exception that ends the tar loop: the Rent range error when the size is negative and the first candidate comes no later than the first failing data stream; else the first failing stream's message; else the reader's failure after its entries |
| ArchiveSummary.TarTableStart | Services/ArchiveSummaryService.cs:155-174 | the drawn tar table starts with its first header's padding |
| ArchiveSummary.TarReportParts | Services/ArchiveSummaryService.cs:150-198 | a non-empty tar report is its trimmed lines, the table of the listed entries flagged when entries are hidden, and the preview |
| ArchiveSummary.TarScanNote | Services/ArchiveSummaryService.cs:176-181 | the note on hidden entries shows in the tar report exactly when there are more entries than the cap |
| ArchiveSummary.TarPreviewFirst | Services/ArchiveSummaryService.cs:128-138 | with no failing data, the tar preview exists exactly when a regular text entry with content exists, and is the first such entry's |
| ArchiveSummary.TarTable | Services/ArchiveSummaryService.cs:155-174 | the table loop yields the rows and the drawn table |
| ArchiveSummary.SummarizeTar | Services/ArchiveSummaryService.cs:94-204 | the method returns the described tar result: the exception the loop meets, in the source's order, as "Archive summary failed: " and its message, else the report |
| ArchiveSummary.GZipSizeShown | Services/ArchiveSummaryService.cs:219-224 | with a readable trailer the reported size is the third line and shows in the text |
| ArchiveSummary.GZipReport | Services/ArchiveSummaryService.cs:206-236 | a gzip file that inflates, at a preview size that is not negative, has no table, a preview titled with the file name, and the trailer's size line exactly when it has four bytes |
| ArchiveSummary.SummarizeGZip | Services/ArchiveSummaryService.cs:206-236 | the method returns the described gzip result; the preview buffer is rented, and fails for a negative size, before the decompressor is read |
| ArchiveSummary.ArchiveFailuresReported | Services/ArchiveSummaryService.cs:26-236 | failures never escape: an unopenable or corrupt file, or a negative preview size for a gzip file, gives the handler's failure message, and an archive without entries gives "Archive is empty." |
| ArchiveSummary.TarReaderFailureReported | Services/ArchiveSummaryService.cs:94-204 | a reader that throws after its entries, with no failing data and no preview due at a negative size, gives its message; any failure leaves no table and no preview |
| ArchiveSummary.Summarize | Services/ArchiveSummaryService.cs:14-24 | each archive kind goes to its handler, and any other format is reported unsupported with the file name |
| BinarySummary.AsBytes | Services/BinarySummaryService.cs:182-196 | the loop fills a fresh array with one byte per pair of hexadecimal digits, a "0" leading an odd count |
| BinarySummary.AsBytesOfHexText | Services/BinarySummaryService.cs:182-196 | reading back the `X2` text of any bytes gives those bytes |
| BinarySummary.OddHexLeads | Services/BinarySummaryService.cs:184-187 | an odd number of digits reads as if a "0" led it: half the count rounded up, the first byte the first digit's value |
| BinarySummary.KnownSignatureBytes | Services/BinarySummaryService.cs:13-23 | the signature table as bytes: "MZ", 0x7F "ELF", "PK" 3 4, 0x89 "PNG", "%PDF", "GIF8", "BM", "ID3", with their descriptions |
| BinarySummary.PeSignature | Services/BinarySummaryService.cs:15 | the first signature is 4D 5A, "Windows Executable (PE)" |
| BinarySummary.ElfSignature | Services/BinarySummaryService.cs:16 | the second signature is 7F 45 4C 46, "ELF Executable" |
| BinarySummary.ZipSignature | Services/BinarySummaryService.cs:17 | the third signature is 50 4B 03 04, "ZIP archive" |
| BinarySummary.PngSignature | Services/BinarySummaryService.cs:18 | the fourth signature is 89 50 4E 47, "PNG image" |
| BinarySummary.PdfSignature | Services/BinarySummaryService.cs:19 | the fifth signature is 25 50 44 46, "PDF document" |
| BinarySummary.GifSignature | Services/BinarySummaryService.cs:20 | the sixth signature is 47 49 46 38, "GIF image" |
| BinarySummary.BmpSignature | Services/BinarySummaryService.cs:21 | the seventh signature is 42 4D, "BMP image" |
| BinarySummary.Mp3Signature | Services/BinarySummaryService.cs:22 | the eighth signature is 49 44 33, "MP3 audio (ID3)" |
| BinarySummary.DetectedType | Services/BinarySummaryService.cs:85-96 | the result is "" or the description of a signature that begins the head |
| BinarySummary.DetectFileType | Services/BinarySummaryService.cs:85-96 | the loop over the table yields the described detection |
| BinarySummary.FirstMatchDetected | Services/BinarySummaryService.cs:87-93 | detection reports the first matching signature |
| BinarySummary.NoMatchUndetected | Services/BinarySummaryService.cs:95 | detection gives "" when no signature matches |
| BinarySummary.NotBothPrefixes | Services/BinarySummaryService.cs:89 | two byte strings neither of which begins the other cannot both begin one head |
| BinarySummary.KnownSignaturesDisjoint | Services/BinarySummaryService.cs:13-23 | no known signature begins another |
| BinarySummary.DetectsMatchingSignature | Services/BinarySummaryService.cs:85-96 | a head starting with a known signature is reported as that signature's format, whatever the table's order |
| BinarySummary.UnknownHeadUndetected | Services/BinarySummaryService.cs:85-96 | a head starting with no known signature gets no format |
| BinarySummary.ReadBytes | Services/BinarySummaryService.cs:72-83 | a negative count fails before reading; otherwise the bytes from the position, up to the count, and the position moves past them |
| BinarySummary.Histogram | Services/BinarySummaryService.cs:114-118 | 256 buckets, one per byte value |
| BinarySummary.CountBytes | Services/BinarySummaryService.cs:114-118 | the counting loop fills a fresh array with the histogram |
| BinarySummary.SumIncrement | Services/BinarySummaryService.cs:117 | adding one to a bucket adds one to the total |
| BinarySummary.SumZeros | Services/BinarySummaryService.cs:114 | the fresh buckets total 0 |
| BinarySummary.HistogramTotal | Services/BinarySummaryService.cs:114-118 | the histogram counts every byte of the sample exactly once |
| BinarySummary.EntropySum | Services/BinarySummaryService.cs:120-133 | the summing loop skips empty buckets and yields the entropy of the buckets |
| BinarySummary.CalculateEntropy | Services/BinarySummaryService.cs:105-134 | a negative count fails; otherwise the entropy of the first bytes up to the count, with the position after them |
| BinarySummary.WholeTerm | Services/BinarySummaryService.cs:129-130 | a bucket holding every byte contributes nothing, given log2(1) = 0 |
| BinarySummary.SingleValueSum | Services/BinarySummaryService.cs:122-131 | buckets with a single full bucket sum to 0 |
| BinarySummary.CountOfRepeated | Services/BinarySummaryService.cs:115-118 | a sample of one repeated byte value counts that value its length times |
| BinarySummary.UniformSampleHasNoEntropy | Services/BinarySummaryService.cs:105-134 | a sample of one repeated byte value has entropy 0, given log2(1) = 0 |
| BinarySummary.AsciiColumn | Services/BinarySummaryService.cs:146 | one character per byte of the chunk |
| BinarySummary.Chunk | Services/BinarySummaryService.cs:141-143 | each chunk holds 1 to 16 bytes |
| BinarySummary.DumpLines | Services/BinarySummaryService.cs:139-148 | one line per 16 bytes or part thereof |
| BinarySummary.FormatHexDump | Services/BinarySummaryService.cs:136-151 | the loop yields the described dump |
| BinarySummary.DumpStep | Services/BinarySummaryService.cs:139-148 | the loop's k-th chunk is line k of the dump |
| BinarySummary.ChunkAt | Services/BinarySummaryService.cs:141-143 | the copied bytes are the k-th chunk |
| BinarySummary.LinesCount | Services/BinarySummaryService.cs:139 | the loop runs once per line |
| BinarySummary.JoinPairs | Services/BinarySummaryService.cs:145 | joined two-digit pairs take three columns each, the pair m at column 3m |
| BinarySummary.DumpLineColumns | Services/BinarySummaryService.cs:145-147 | a chunk's byte m appears as two hexadecimal digits at column w+2+3m and as its character at column w+53+m, w the offset's width |
| BinarySummary.DumpShowsEveryByte | Services/BinarySummaryService.cs:136-151 | byte j is byte j mod 16 of line j div 16, whose offset is 16 times that |
| BinarySummary.CharsOf | Services/BinarySummaryService.cs:162 | one character per byte |
| BinarySummary.Runs | Services/BinarySummaryService.cs:156-179 | there is always at least one stretch |
| BinarySummary.RunsStep | Services/BinarySummaryService.cs:156-174 | one more byte leaves at least one stretch |
| BinarySummary.RunsStepAppend | Services/BinarySummaryService.cs:156-174 | the step acts on the last stretch only |
| BinarySummary.SampleStep | Services/BinarySummaryService.cs:160-163 | one more printable byte grows the builder while it is short of the maximum |
| BinarySummary.ScanByte | Services/BinarySummaryService.cs:158-173 | a printable byte extends the builder below the maximum; any other hands out the builder when long enough and clears it |
| BinarySummary.ExtractPrintableStrings | Services/BinarySummaryService.cs:153-180 | the loop yields the described samples |
| BinarySummary.RunsPrintable | Services/BinarySummaryService.cs:158 | every stretch holds only printable bytes |
| BinarySummary.KeptBounded | Services/BinarySummaryService.cs:160-178 | every kept stretch is between the minimum and the maximum long |
| BinarySummary.SamplesArePrintable | Services/BinarySummaryService.cs:153-180 | every sample holds only characters from ' ' to '~', at least the minimum and at most the maximum of them |
| BinarySummary.RunsSplit | Services/BinarySummaryService.cs:165-173 | a non-printable byte splits the stretches |
| BinarySummary.KeptSplit | Services/BinarySummaryService.cs:167-178 | keeping stretches distributes over joined lists |
| BinarySummary.SamplesSplitAtSeparator | Services/BinarySummaryService.cs:165-173 | a non-printable byte separates the samples of the two sides, in order |
| BinarySummary.PrintableRunIsOne | Services/BinarySummaryService.cs:158-164 | a printable stretch is one run |
| BinarySummary.LongRunClipped | Services/BinarySummaryService.cs:160-163 | a printable stretch gives at most one sample, its first characters up to the maximum, never several |
| BinarySummary.SampleLines | Services/BinarySummaryService.cs:58-61 | one "- " line per sample |
| BinarySummary.ReportShape | Services/BinarySummaryService.cs:30-64 | the report leads with the format line exactly when a format was detected, then hash, entropy, dump, and one line per sample when there are samples |
| BinarySummary.ReadsOf | Services/BinarySummaryService.cs:32-51 | the header and the entropy sample both start at the first byte; the string scan reads the bytes after the sample |
| BinarySummary.ComputeSha256 | Services/BinarySummaryService.cs:98-103 | the hash covers the bytes from the position to the end, where the stream is left |
| BinarySummary.AppendSamples | Services/BinarySummaryService.cs:54-62 | no samples adds nothing; otherwise a blank line, the heading and one line per sample |
| BinarySummary.WriteReport | Services/BinarySummaryService.cs:30-64 | the appends write the described report |
| BinarySummary.Summarize | Services/BinarySummaryService.cs:25-70 | the method returns what the description gives |
| BinarySummary.TrimEndKeepsFirst | Services/BinarySummaryService.cs:64 | cutting trailing white space keeps a non-blank first character |
| BinarySummary.SummaryFailures | Services/BinarySummaryService.cs:25-70 | an unopenable file and a negative configured byte count give the failure text; otherwise the report is not a failure |
| BinarySummary.ReportStart | Services/BinarySummaryService.cs:30-64 | a report starts with the format line or the hash line, never with the failure text |
| ExcelSummary.AtLeast | Services/ExcelSummaryService.cs:38-42 | `Math.Max`: at least both, and one of them |
| ExcelSummary.Clamp | Services/ExcelSummaryService.cs:38-42 | every cap is at least 1, the scan cap at least the preview cap, and a configured value already in range is kept |
| ExcelSummary.ClampKeepsValid | Services/ExcelSummaryService.cs:38-42 | caps already in range are left as they are, so clamping twice changes nothing |
| ExcelSummary.FormatCell | Services/ExcelSummaryService.cs:221-246 | null cells are empty, booleans read TRUE or FALSE, a text within the maximum is kept, and a longer one keeps its first characters followed by "...", at most three past the maximum |
| ExcelSummary.PreviewRow | Services/ExcelSummaryService.cs:78-92 | a preview row keeps the first cells up to the column cap, each formatted |
| ExcelSummary.FormatRow | Services/ExcelSummaryService.cs:88-92 | the inner loop fills a fresh array of the formatted cells |
| ExcelSummary.Headers | Services/ExcelSummaryService.cs:180-194 | "Column 1" to "Column count", none for a count of 0 or less |
| ExcelSummary.CreateHeaders | Services/ExcelSummaryService.cs:180-194 | the loop yields those headers |
| ExcelSummary.HeadersDistinct | Services/ExcelSummaryService.cs:190 | no two headers are alike |
| ExcelSummary.NormalizedRow | Services/ExcelSummaryService.cs:207-215 | a normalized row has exactly the header count of cells: the row's cells where present, "" after them (null in the source, drawn as an empty cell) |
| ExcelSummary.NormalizedRows | Services/ExcelSummaryService.cs:196-219 | rows are unchanged for a count of 0 or less; otherwise every row is normalized, in order |
| ExcelSummary.NormalizeRows | Services/ExcelSummaryService.cs:196-219 | the `foreach` yields the normalized rows |
| ExcelSummary.NormalizeIdempotent | Services/ExcelSummaryService.cs:196-219 | normalizing again to the same width changes nothing |
| ExcelSummary.PreviewRows | Services/ExcelSummaryService.cs:86-95 | one preview row per kept row |
| ExcelSummary.ReadRow | Services/ExcelSummaryService.cs:73-100 | one pass of the row loop counts the row, widens the header count up to the cap, flags a row wider than the cap, and keeps the row while the preview has room, flagging it full otherwise |
| ExcelSummary.PreviewRowsSnoc | Services/ExcelSummaryService.cs:94 | one more preview row adds its formatted cells at the end |
| ExcelSummary.AnyWiderSnoc | Services/ExcelSummaryService.cs:81-84 | the column flag after one more row is the earlier flag or this row's |
| ExcelSummary.WidestSnoc | Services/ExcelSummaryService.cs:78-79 | the header count after one more row is the larger of the earlier count and this row's capped width |
| ExcelSummary.ScannedSnoc | Services/ExcelSummaryService.cs:70-107 | the loop state after one more row is one pass of the loop applied to the state before |
| ExcelSummary.ScanNext | Services/ExcelSummaryService.cs:70-107 | one turn of the row loop advances the state by one row |
| ExcelSummary.ScanSheet | Services/ExcelSummaryService.cs:63-107 | the `while (reader.Read())` loop with its early break yields the described scan |
| ExcelSummary.WidestIsMax | Services/ExcelSummaryService.cs:79 | the header count is at least every scanned row's capped width, within the cap, and one of those widths |
| ExcelSummary.SheetScanCounts | Services/ExcelSummaryService.cs:63-107 | at most the scan cap of rows is read, flagged cut off exactly when the sheet has that many or more; a previewed sheet keeps its first rows up to the preview cap, flagged exactly when more were read; a sheet not previewed gathers no columns |
| ExcelSummary.SheetScanCells | Services/ExcelSummaryService.cs:75-100 | preview row k is row k cut to the column cap and formatted, no wider than the header count; the column flag is set exactly when a scanned row is wider than the cap |
| ExcelSummary.SheetName | Services/ExcelSummaryService.cs:49-51 | a non-blank name is kept; a blank or missing one becomes "Sheet " and the sheet's number |
| ExcelSummary.DiffersAt | Services/ExcelSummaryService.cs:112-135 | texts that differ at a position differ |
| ExcelSummary.PreviewDetail | Services/ExcelSummaryService.cs:114-120 | one or two lines, two exactly when columns were shown, never the skip note |
| ExcelSummary.SummarizeSheet | Services/ExcelSummaryService.cs:48-138 | the sheet body yields the sheet's described lines and table |
| ExcelSummary.PreviewSkippedIffNotPreviewed | Services/ExcelSummaryService.cs:112-136 | a sheet past the sheet cap says its preview was skipped, and a previewed sheet never does |
| ExcelSummary.SheetTableShape | Services/ExcelSummaryService.cs:122-131 | a sheet has a table exactly when it is previewed and has a row; one header per shown column, every row as wide as the headers, at most the preview cap of rows, truncated exactly when one of the three limits was hit |
| ExcelSummary.ResultSets | Services/ExcelSummaryService.cs:44-140 | a reader that did not fail visits at least one result set, as the `do`/`while` enters its body once |
| ExcelSummary.FailureReport | Services/ExcelSummaryService.cs:153-158 | a failed read's summary is only the failure line, trimmed |
| ExcelSummary.DetailsSnoc | Services/ExcelSummaryService.cs:44-140 | one more sheet appends its lines and table, previewed exactly while below the sheet cap |
| ExcelSummary.SummarizeSheets | Services/ExcelSummaryService.cs:44-140 | the sheet loop yields the details and tables of all sheets, counts them, and flags the sheet limit exactly when more sheets exist than the cap |
| ExcelSummary.Summarize | Services/ExcelSummaryService.cs:18-159 | the method returns what the description gives |
| ExcelSummary.TablesBounded | Services/ExcelSummaryService.cs:53-131 | only the first sheets up to the cap can have a table |
| ExcelSummary.OverviewSheetLimit | Services/ExcelSummaryService.cs:142-149 | the overview names the sheet cap exactly when more sheets exist than the cap |
| ExcelSummary.FailureReported | Services/ExcelSummaryService.cs:29-158 | a failed read reports only its failure message, and keeps the tables of the sheets read before it |
| YxdbSummary.AtLeastOne | Services/YxdbSummaryService.cs:87-89 | `Math.Max(1, n)`: at least 1 and n, and n when that is already at least 1 |
| YxdbSummary.HexTextCons | Services/YxdbSummaryService.cs:170 | the hexadecimal text of bytes is the first byte's two digits followed by the rest's |
| YxdbSummary.ReplaceDashAfterPair | Services/YxdbSummaryService.cs:170 | removing dashes after a digit pair and a dash keeps the pair |
| YxdbSummary.HexDigitNotDash | Services/YxdbSummaryService.cs:170 | no hexadecimal digit is a dash |
| YxdbSummary.DashesRemoved | Services/YxdbSummaryService.cs:170 | removing the dashes from `BitConverter.ToString` leaves the plain upper-case hexadecimal text |
| YxdbSummary.FormatBinary | Services/YxdbSummaryService.cs:162-177 | "0 bytes" for none; otherwise "0x", the hexadecimal text of the first eight bytes at most, "..." exactly when there are more, and the byte count in parentheses |
| YxdbSummary.FormatValue | Services/YxdbSummaryService.cs:136-160 | null is empty; a text within the maximum is kept; a longer one keeps its first characters followed by "...", at most three past the maximum |
| YxdbSummary.SchemaRow | Services/YxdbSummaryService.cs:64-72 | six cells: name, type, size, scale, source and description, a missing source or description empty |
| YxdbSummary.SchemaRows | Services/YxdbSummaryService.cs:60-73 | one schema row per field, in order |
| YxdbSummary.SchemaTable | Services/YxdbSummaryService.cs:53-77 | the `foreach` yields the "Schema" table of those rows, never truncated |
| YxdbSummary.FieldNames | Services/YxdbSummaryService.cs:91 | the names of the first fields up to the column cap |
| YxdbSummary.ValueOf | Services/YxdbSummaryService.cs:110 | a record's value for a name is the value of the first field of that name |
| YxdbSummary.RecordCells | Services/YxdbSummaryService.cs:107-111 | one formatted cell per preview column |
| YxdbSummary.RecordRows | Services/YxdbSummaryService.cs:97-114 | one row of cells per previewed record |
| YxdbSummary.FormatRecord | Services/YxdbSummaryService.cs:107-111 | the `for` loop fills the record's cells |
| YxdbSummary.ReadPreview | Services/YxdbSummaryService.cs:94-114 | the `foreach` over the records, with the break once the preview is full, yields the described preview |
| YxdbSummary.Summarize | Services/YxdbSummaryService.cs:15-51 | the method returns what the description gives |
| YxdbSummary.PreviewBounds | Services/YxdbSummaryService.cs:87-114 | the preview shows the first field names up to the cap, flagged for columns exactly when more fields exist; it holds the first records up to the row cap, flagged exactly when another record follows; a read failure surfaces only when it comes before the cap; every row is as wide as the names |
| YxdbSummary.PreviewCell | Services/YxdbSummaryService.cs:107-111 | with distinct names, cell i of preview row k is field i of record k, formatted |
| YxdbSummary.RowsTableShape | Services/YxdbSummaryService.cs:116-133 | the rows table has the names as headers and the preview rows; an empty preview is titled "Rows preview" and flagged exactly when records were declared; otherwise flagged exactly when rows or columns were cut |
| YxdbSummary.RowsTableTitle | Services/YxdbSummaryService.cs:126-128 | the title names the declared count exactly after a row cut with records declared |
| YxdbSummary.ReportTables | Services/YxdbSummaryService.cs:20-51 | no table when the file does not open; otherwise the "Schema" table first, one row per field, never truncated, and the rows table after it unless reading the records failed |
| YxdbSummary.HeaderKept | Services/YxdbSummaryService.cs:29-40 | the header lines through the field count stay at the head of the text whatever follows |
| YxdbSummary.LastTwo | Services/YxdbSummaryService.cs:39-40 | the header's last two lines split off its front |
| YxdbSummary.FailureAppended | Services/YxdbSummaryService.cs:45-50 | a failure line after the header lines loses only its line break to the trim |
| YxdbSummary.HeaderLinesEnd | Services/YxdbSummaryService.cs:39-40 | the header lines end with the field count and a blank line |
| YxdbSummary.HeaderText | Services/YxdbSummaryService.cs:29-50 | header lines ending in the field count and a blank line stay at the head of the text, before any failure line |
| YxdbSummary.OpenedText | Services/YxdbSummaryService.cs:25-50 | an opened file's text is its header lines through the field count, then the failure line if there is one |
| YxdbSummary.ReportText | Services/YxdbSummaryService.cs:15-51 | a file that does not open gives only the failure line; an opened one starts with its header lines through the field count, with a failure while reading the records appended after all of them |
| Summarizers.OrdersIncrease | Services/Summaries/AlteryxWorkflowSummarizer.cs:11 | the ten adapters' `Order` values (90, 100, 200, 220, 250, 260, 300, 400, 900, 1000) are distinct and strictly increasing in rank order, the workflow adapter lowest and the binary adapter highest |
| Summarizers.ListedIgnoreCase | Services/Summaries/AlteryxWorkflowSummarizer.cs:20-28 | true exactly when the extension equals one of the listed extensions, ignoring case |
| Summarizers.CanSummarize | Services/Summaries/IFileSummarizer.cs:10 | each adapter's `CanSummarize`, including the JSON and text probes that read the file, answers exactly its acceptance predicate |
| Summarizers.BlankExtensionRejected | Services/Summaries/AlteryxWorkflowSummarizer.cs:15-18 | a blank extension is rejected by the workflow, Markdown, Excel and YXDB adapters |
| Summarizers.AlteryxAccepts | Services/Summaries/AlteryxWorkflowSummarizer.cs:9-29 | the workflow adapter takes exactly `.yxmd`, `.yxmc` and `.yxwz`, in any letter case |
| Summarizers.MarkdownAccepts | Services/Summaries/MarkdownFileSummarizer.cs:11-23 | the Markdown adapter takes exactly the five Markdown extensions, in any letter case |
| Summarizers.ExcelAccepts | Services/Summaries/ExcelFileSummarizer.cs:10-22 | the Excel adapter takes exactly `.xlsx`, `.xls` and `.xlsm`, in any letter case |
| Summarizers.ListedNotBlank | Services/Summaries/ExcelFileSummarizer.cs:16-21 | an extension matching a listed dotted extension is not blank, so the blank-extension guard never hides a listed one |
| Summarizers.CsvAndBinaryAccept | Services/Summaries/CsvFileSummarizer.cs:10-13 | the CSV adapter goes by the `.csv` extension alone, in any case; the binary adapter takes every file |
| Summarizers.XmlTakesCsvMarkup | Services/Summaries/XmlFileSummarizer.cs:8-13 | a `.csv` file whose text starts with '<' is taken by both the XML and the CSV adapters, and the XML adapter ranks first |
| Summarizers.XmlRoutedBeforeCsv | Services/Summaries/XmlFileSummarizer.cs:8-13 | with the XML and CSV adapters registered beside any others, such a file is never summarized by the CSV adapter: the summarizer used ranks below 200 |
| Summarizers.FileHeadBounds | Services/Summaries/TextFileSummarizer.cs:28-44 | the head of an opened file is a prefix of its text no longer than the byte budget or the file, cut off exactly when the file is larger than the budget; a failure gives the "Could not read file preview" note, never cut off |
| Summarizers.TextAdapterPreview | Services/Summaries/TextFileSummarizer.cs:18-26 | the text adapter's result is "Text Preview" with no tables and the file's head as preview, titled with the file name and cut off exactly when the file exceeds the budget |
| Summarizers.RentedLength | Services/ArchiveSummaryService.cs:246 | the rented buffer is at least as long as the preview size |
| Summarizers.FileBytes | Services/Summaries/FileSummaryContext.cs:16 | bytes are there exactly when the file could be opened |
| Summarizers.SummarizeAlteryx | Services/Summaries/AlteryxWorkflowSummarizer.cs:31-41 | the workflow analyzer's text and tables under "Alteryx Workflow Summary", or the analyzer's exception passed on |
| Summarizers.SummarizeXml | Services/Summaries/XmlFileSummarizer.cs:15-19 | the XML analyzer's text under "XML Summary", with no tables or preview |
| Summarizers.SummarizeCsv | Services/Summaries/CsvFileSummarizer.cs:15-29 | the CSV analyzer's text under "CSV Summary", with one table "CSV Preview" of its headers and rows, flagged by its truncation |
| Summarizers.SummarizeMarkdown | Services/Summaries/MarkdownFileSummarizer.cs:25-36 | the Markdown analyzer's text and preview, titled with the file name, no tables; a file that cannot be opened raises |
| Summarizers.SummarizeExcel | Services/Summaries/ExcelFileSummarizer.cs:24-32 | the workbook analyzer's text and tables under "Excel Summary" |
| Summarizers.SummarizeYxdb | Services/Summaries/YxdbFileSummarizer.cs:17-25 | the YXDB analyzer's text and tables under "YXDB Summary" |
| Summarizers.SummarizeArchive | Services/Summaries/ArchiveFileSummarizer.cs:16-35 | the format is detected again; an unsupported one gives "Archive"/"Unsupported archive format."; otherwise the archive analyzer's text and preview under "<format> Summary", with its one table when it has one |
| Summarizers.SummarizeBinary | Services/Summaries/BinaryFileSummarizer.cs:12-16 | the binary analyzer's text under "Binary Summary" |
| FileSummaries.NewService | Services/FileSummaryService.cs:18-22 | the constructor keeps the options and puts the summarizers in `Order` order |
| FileSummaries.ServiceOrder | Services/FileSummaryService.cs:20 | the summarizers come out by ascending `Order`, none lost or added, and those of equal `Order` stay in registration order |
| FileSummaries.Chosen | Services/FileSummaryService.cs:44-53 | the chosen summarizer takes the file and every one before it declines; none is chosen exactly when all decline |
| FileSummaries.BuildSummary | Services/FileSummaryService.cs:24-56 | the outcome is the dispatch's; a blank path, a folder or a missing item consults no summarizer; for a file, `CanSummarize` is called up to and including the first taker, whose `SummarizeAsync` is the one invoked, or on every summarizer when none takes it |
| FileSummaries.AnsweredWithoutSummarizers | Services/FileSummaryService.cs:26-39 | a blank path gives "Invalid Path", a folder its directory summary and a missing item "Not Found", none with metadata, whatever summarizers are registered |
| FileSummaries.FirstTakerSummarizes | Services/FileSummaryService.cs:44-55 | for a file, every summarizer before the first taker declined; the taker's exception is passed on and its result is wrapped in metadata; the fallback appears exactly when no summarizer takes the file |
| FileSummaries.TakerRulesOutFallback | Services/FileSummaryService.cs:44-55 | when any registered summarizer takes the file, some summarizer is used, and it ranks no higher than that one |
| FileSummaries.LowerOrderWins | Services/FileSummaryService.cs:20-53 | of two summarizers that both take the file, the one of higher `Order` is never the one used |
| FileSummaries.FirstTakerRanksLow | Services/FileSummaryService.cs:44-53 | in a list ranked by `Order`, the first taker ranks no higher than any other taker |
| FileSummaries.RankedHas | Services/FileSummaryService.cs:20 | a summarizer of a given rank that takes the file is among the summarizers of that rank |
| FileSummaries.RankedFrom | Services/FileSummaryService.cs:20 | a taker among the summarizers of a rank is a taker of the whole list with that rank |
| FileSummaries.BuildDirectorySummary | Services/FileSummaryService.cs:58-93 | the method builds exactly the folder summary: header lines, then one line per sample child |
| FileSummaries.FolderSummaryShape | Services/FileSummaryService.cs:58-93 | "Directory Summary" with no tables or preview; name, path, item count (or the access-denied note) and last write time; then nothing for an empty folder, a denied note, or "Sample contents:" and the first ten children in listing order, each marked [Dir] or [File] |
| FileSummaries.MetadataKeepsSummary | Services/FileSummaryService.cs:95-110 | title, tables and preview are kept; the body starts with the file's name, path, size and last write time, and nothing follows exactly when the summary's body is blank; otherwise a blank line and that body follow |
| Sorting.LexTotal | Services/FileSummaryService.cs:20 | any two keys compare one way or the other |
| Sorting.LexTransitive | Services/FileSummaryService.cs:20 | the key order is transitive |
| Sorting.LexAntisymmetric | Services/FileSummaryService.cs:20 | keys ordered both ways are equal |
| Sorting.LexCons | Services/FileSummaryService.cs:20 | a key that starts with a number compares by that number first |
| Sorting.Utf16 | Services/AlteryxWorkflowSummaryService.cs:107 | one code unit for a character below U+10000, otherwise a high surrogate (D800-DBFF) and a low surrogate (DC00-DFFF); every unit is below 65536 |
| Sorting.Utf16Injective | Services/AlteryxWorkflowSummaryService.cs:107 | distinct characters have distinct code units |
| Sorting.Codes | Services/AlteryxWorkflowSummaryService.cs:107 | the UTF-16 code units of the text, at least one per character; for a text without characters beyond U+FFFF exactly its characters' values |
| Sorting.CodesInjective | Services/AlteryxWorkflowSummaryService.cs:107 | texts with the same code units are the same text |
| Sorting.SurrogatesSortLow | Services/AlteryxWorkflowSummaryService.cs:107 | ordinal order is code-unit order: a text starting beyond U+FFFF sorts strictly before one starting in U+E000-U+FFFF |
| Sorting.InsertByPermutes | Services/FileSummaryService.cs:20 | inserting adds exactly the item |
| Sorting.InsertBySorted | Services/FileSummaryService.cs:20 | inserting into a sorted sequence keeps it sorted |
| Sorting.AppendAfterLast | Services/FileSummaryService.cs:20 | an item no smaller than the last of a sorted sequence can be appended to it |
| Sorting.AppendAfterMembers | Services/FileSummaryService.cs:20 | an item no smaller than the items arranged can be appended to their sorted arrangement |
| Sorting.AppendLargest | Services/FileSummaryService.cs:20 | a sorted sequence stays sorted when an item no smaller than all of it is appended |
| Sorting.SortBySorts | Services/FileSummaryService.cs:20 | `OrderBy` yields a sequence ordered by the key holding exactly the input's elements |
| Sorting.LexReflexive | Services/FileSummaryService.cs:20 | every key is ordered with itself |
| Sorting.WithKeySnoc | Services/FileSummaryService.cs:20 | the items of a key in a longer sequence gain the new item when it has that key |
| Sorting.InsertByStable | Services/FileSummaryService.cs:20 | inserting puts the item after every item of its own key |
| Sorting.SortByStable | Services/FileSummaryService.cs:20 | `OrderBy` is stable: the items of each key come out in their input order |
| Streams.ByteStream.constructor | Services/BinarySummaryService.cs:29 | an opened stream holds the file's bytes at position 0 |
| Streams.ByteStream.Read | Services/BinarySummaryService.cs:75 | a read yields the next bytes up to the count, or all that remain, and moves the position past them |
| Streams.ByteStream.ReadToEnd | Services/BinarySummaryService.cs:101 | reading to the end yields every byte from the position and leaves the position at the end |
| Streams.ByteStream.Seek | Services/BinarySummaryService.cs:33 | seeking from the beginning sets the position |

## Definitions

The table above lists members with contracts. A definition with no contract of its own, which models a source function, is described by the rows of the lemmas and methods about it:

- `AlteryxWorkflow.WorkflowOf` (Services/AlteryxWorkflowSummaryService.cs:18-161): see AlteryxWorkflow.SummaryOf, AlteryxWorkflow.Summarize.
- `AlteryxWorkflow.FileReferencesOf` (Services/AlteryxWorkflowSummaryService.cs:163-204): see AlteryxWorkflow.CollectFileReferences, AlteryxWorkflow.FileReferencesKeep.
- `AlteryxWorkflow.AddIfNotPresent` (Services/AlteryxWorkflowSummaryService.cs:206-212): see AlteryxWorkflow.AddIfNotPresentKeepsDistinct, AlteryxWorkflow.ContainsFoldPrefix, AlteryxWorkflow.PrefixCovers.
- `AlteryxWorkflow.IsInputPlugin, IsOutputPlugin, IsDirectoryPlugin, IsFormulaPlugin, IsFilterPlugin` (Services/AlteryxWorkflowSummaryService.cs:214-227): see AlteryxWorkflow.AddFileTextsInputs, AlteryxWorkflow.AddFileTextsOutputs, AlteryxWorkflow.AddDirectory, AlteryxWorkflow.CountNodeFormulas, AlteryxWorkflow.CountNodeFilters.
- `AlteryxWorkflow.FormulaDetailsOf` (Services/AlteryxWorkflowSummaryService.cs:229-257): see AlteryxWorkflow.CollectFormulaDetails, AlteryxWorkflow.FormulaDetailsFromShape.
- `AlteryxWorkflow.FilterDetailOf` (Services/AlteryxWorkflowSummaryService.cs:259-278): see AlteryxWorkflow.FilterDetailNormal.
- `AlteryxWorkflow.IsDisabled` (Services/AlteryxWorkflowSummaryService.cs:280-293): see AlteryxWorkflow.TallyDisabled.
- `AlteryxWorkflow.FormatBool, ParseBool` (Services/AlteryxWorkflowSummaryService.cs:295-302): see AlteryxWorkflow.FormatBoolWords, AlteryxWorkflow.FormatBoolIgnoresCase, AlteryxWorkflow.FormatBoolIgnoresPadding, AlteryxWorkflow.FormatBoolIdempotent, AlteryxWorkflow.ParseBoolText, AlteryxWorkflow.ParseUnknown.
- `AlteryxWorkflow.Increment` (Services/AlteryxWorkflowSummaryService.cs:304-314): see AlteryxWorkflow.IncrementFolded, AlteryxWorkflow.IncrementCounts.
- `AlteryxWorkflow.ListLines, ListItems` (Services/AlteryxWorkflowSummaryService.cs:335-353): see AlteryxWorkflow.AppendList, AlteryxWorkflow.ListItemsDistinct, AlteryxWorkflow.ListItemsOrdered, AlteryxWorkflow.ListItemsCover.
- `ArchiveSummary.ArchiveSummaryOf` (Services/ArchiveSummaryService.cs:14-24): see ArchiveSummary.Summarize, ArchiveSummary.ArchiveFailuresReported.
- `ArchiveSummary.ZipSummaryOf, ZipListing` (Services/ArchiveSummaryService.cs:26-92): see ArchiveSummary.SummarizeZip, ArchiveSummary.ZipListingFailures, ArchiveSummary.ZipListingShape, ArchiveSummary.ZipListingTable, ArchiveSummary.ZipListingPreview.
- `ArchiveSummary.TarSummaryOf, TarScanOf` (Services/ArchiveSummaryService.cs:94-204): see ArchiveSummary.SummarizeTar, ArchiveSummary.ScanTar, ArchiveSummary.TarScanCounts, ArchiveSummary.TarFailureOrder.
- `ArchiveSummary.GZipSummaryOf` (Services/ArchiveSummaryService.cs:206-236): see ArchiveSummary.SummarizeGZip, ArchiveSummary.GZipReport.
- `ArchiveSummary.IsPreviewableTextEntry` (Services/ArchiveSummaryService.cs:238-242): see ArchiveSummary.PreviewableEndsWithExtension.
- `ArchiveSummary.PreviewOf` (Services/ArchiveSummaryService.cs:244-265): see ArchiveSummary.ReadTextPreview, ArchiveSummary.PreviewTruncation.
- `BinarySummary.KnownSignatures` (Services/BinarySummaryService.cs:13-23): see BinarySummary.KnownSignatureBytes, BinarySummary.KnownSignaturesDisjoint, BinarySummary.PeSignature to BinarySummary.Mp3Signature.
- `BinarySummary.BinarySummaryOf` (Services/BinarySummaryService.cs:25-70): see BinarySummary.Summarize, BinarySummary.SummaryFailures.
- `BinarySummary.EntropyOf` (Services/BinarySummaryService.cs:105-134): see BinarySummary.CalculateEntropy, BinarySummary.EntropySum, BinarySummary.UniformSampleHasNoEntropy.
- `BinarySummary.HexDumpOf` (Services/BinarySummaryService.cs:136-151): see BinarySummary.FormatHexDump, BinarySummary.DumpShowsEveryByte.
- `BinarySummary.PrintableSamples` (Services/BinarySummaryService.cs:153-180): see BinarySummary.ExtractPrintableStrings, BinarySummary.SamplesArePrintable, BinarySummary.SamplesSplitAtSeparator.
- `Csv.SplitCsv` (Services/CsvSummarizer.cs:115-149): see Csv.SplitCsvLine, Csv.QuotedRoundTrip, Csv.UnquotedLine.
- `Csv.Elect` (Services/CsvSummarizer.cs:151-168): see Csv.DetectDelimiter, Csv.ElectDelimiter.
- `CsvSummary.ReportOf` (Services/CsvSummarizer.cs:31-105): see CsvSummary.CsvReport, CsvSummary.CsvSummaryOf.
- `ExcelSummary.ExcelSummaryOf` (Services/ExcelSummaryService.cs:18-159): see ExcelSummary.Summarize, ExcelSummary.FailureReported.
- `FileSummaries.SummaryOf` (Services/FileSummaryService.cs:24-56): see FileSummaries.BuildSummary, FileSummaries.FirstTakerSummarizes.
- `FileSummaries.DirectorySummary` (Services/FileSummaryService.cs:58-93): see FileSummaries.BuildDirectorySummary, FileSummaries.FolderSummaryShape.
- `FileSummaries.CombineWithMetadata` (Services/FileSummaryService.cs:95-110): see FileSummaries.MetadataKeepsSummary.
- `FileTypeInspector.LooksLikePdfHeader` (Services/Summaries/FileTypeInspector.cs:142-149): see FileTypeInspector.IsProbablyTextFile.
- `IncaDocument.Summary` (Services/IncaDocumentSummarizer.cs:68-131): see IncaDocument.BuildSummary, IncaDocument.SummaryStart.
- `IncaDocument.AddresseeLines` (Services/IncaDocumentSummarizer.cs:149-192): see IncaDocument.AddressShown.
- `Markdown.Rendering` (Services/MarkdownSummaryService.cs:34-59): see Markdown.RenderingSnoc, Markdown.MarkdownSummaryOf.
- `Summarizers.FileHead` (Services/Summaries/TextFileSummarizer.cs:28-44): see Summarizers.FileHeadBounds, Summarizers.TextAdapterPreview.
- `XmlSummarizer.SummaryOf` (Services/XmlSummarizer.cs:12-121): see XmlSummarizer.Summarize.
- `XmlSummarizer.GenericLines` (Services/XmlSummarizer.cs:19-120): see XmlSummarizer.SummarizeGeneric, XmlSummarizer.GenericShape.
- `YxdbSummary.YxdbSummaryOf` (Services/YxdbSummaryService.cs:15-51): see YxdbSummary.Summarize, YxdbSummary.ReportText.
- `YxdbSummary.RowsPreviewOf, RowsTable` (Services/YxdbSummaryService.cs:79-133): see YxdbSummary.ReadPreview, YxdbSummary.PreviewBounds, YxdbSummary.RowsTableShape.

## Left out

- Cancellation: `CancellationToken` checks and `OperationCanceledException` rethrows are not modelled, because every model run finishes. This includes the INCA summarizer's rethrow of cancellation.
- Tasks and `async`: each summarizer call is modelled as one synchronous call.
- The encoding-provider registration lock in the Excel analyzer (Services/ExcelSummaryService.cs:161-178) is not modelled. It is concurrency set-up with no effect on the result.
- UI, Explorer integration, hotkeys and the application's start-up are not part of this model.
- Program.cs registers seven summarizers. The dispatcher is modelled over any registered list, so the choice of seven is not modelled.
- The adapters are modelled as a closed datatype (`Summarizers.Summarizer`), and the dispatcher as generic over records of an order, an acceptance test and a summary function.
  - `Summarizers.XmlRoutedBeforeCsv` connects the two layers by its requires. It takes records that agree with the adapters' own `Order` and `CanSummarize`.
  - No single term builds all ten records. Such a term would bring every analyzer's definitions into one proof.
- JSON: the JSON analyzer (Services/JsonSummarizer.cs) is not part of this model. Its text reaches the JSON adapter as an input (`Externals.jsonBody`).
- Format libraries are inputs, and are not modelled themselves:
  - ZipArchive, TarReader, GZipStream inflation;
  - XmlReader and XDocument parsing;
  - ExcelDataReader, YxdbNet;
  - SHA-256;
  - `Encoding.GetString` and the StreamReader's decoding of a file into characters;
  - `decimal.TryParse`.

  Each becomes a record sequence, a parsed value or a function-typed parameter. A library that throws becomes a failure value carrying the exception's message. The archive streams are lazy, so the model places their failures where the source meets them: a zip or tar entry's data fails when it is read, the tar reader fails after the entries it returned, and the preview buffer is rented before any of them is read.
- Floating point is not modelled. The Shannon entropy is computed in `real` with `log2` as a parameter. The zip compression percentage and the `F2` formatting of doubles are parameters. CSV `decimal` arithmetic is exact `real` arithmetic, without the 28-digit precision or overflow of `decimal`.
- Culture: `N0` is rendered in the invariant culture's digit grouping. `DateTime` values appear as the text interpolation would print them, which is an input.
- Strings: a Dafny `char` is a Unicode scalar value, and a .NET `char` is a UTF-16 code unit. Ordinal sorting compares the UTF-16 code units (`Sorting.Codes`), so sort order agrees with .NET. Every `string.Length` cap and count, however, sees one character where .NET sees two for a character beyond U+FFFF. This covers the 200-character sample cut, the YXDB value cut, the Excel cell cut, the text table widths, the Markdown character count and limit, and the text adapter's character count. A text holding a lone surrogate cannot be represented.
- Markdown.PlainLines, Markdown.FormatPlainLine: the quote test `trimmedStart.StartsWith(">")` (Services/MarkdownSummaryService.cs:140) passes no `StringComparison`, so .NET compares in the current culture, which skips ignorable characters. The model tests ordinally. A line that opens with an ignorable character that is not white space, such as U+00AD (soft hyphen) or U+200B (zero-width space), followed by '>' is a quote in the source and not in the model. The model then renders it through the rule, list or plain branch, without the "│ " prefix. Which characters a culture ignores depends on its collation data, which is not part of this model.
- Character classes: `char.IsLetterOrDigit`, `char.IsDigit`, `ToUpperInvariant`, `ToLowerInvariant` and `OrdinalIgnoreCase` comparison are restricted to ASCII. Non-ASCII letters count as separators, and they are not case-folded. `char.IsWhiteSpace` follows .NET's full list.
- Streams: one `FileStream.Read` is taken to return every requested byte that remains, as a local file read does. The archive previews make the same one-`Read` assumption about streams that need not honour it: a zip entry's `DeflateStream` (Services/ArchiveSummaryService.cs:72-73), a tar entry's `DataStream` (:135) and a `GZipStream` (:216-217). Such a stream may return fewer bytes than are wanted and still remain.
- ReadTextPreview: the one `stream.Read(buffer, 0, buffer.Length)` (Services/ArchiveSummaryService.cs:249) is taken to fill the buffer, or to return everything that remains. This holds for a decompressing stream only when it has that much output ready. A short read, where the source previews a shorter prefix with the truncated flag `false`, is not modelled.
- PreviewTruncation: the truncated flag is true exactly when the buffer was filled to `maxBytes`. This is under the same full-read assumption as `ReadTextPreview`, so for a long entry the model always reports the full prefix as truncated. `ArrayPool.Rent` may hand out a longer buffer than asked for; the extra length is a parameter (`Externals.rentSlack`).
- Configuration:
  - The Markdown, Excel and YXDB caps are plain parameters (`markdownMaxCharacters`, `ExcelLimits`, `YxdbLimits`), because Configuration/PeekerinoOptions.cs has no fields for them.
  - The error messages of exceptions raised while opening a file are inputs.
- Directory summary: `GetFileSystemInfos` and `EnumerateFileSystemInfos` read the same folder listing. They are modelled as one listing that is either present or denied, so a listing denied for one call and allowed for the other is not modelled.
- Directory summary: exceptions other than `UnauthorizedAccessException` from the file system are not modelled.
- AlteryxWorkflow: the constants `MaxToolRows`, `MaxFormulaRows`, `MaxFilterRows` and `MaxExpressionLength` (Services/AlteryxWorkflowSummaryService.cs:13-16) are declared but never used. The tables are therefore uncapped in the model, as in the code.
- AlteryxWorkflow: the de-duplication keys join fields with '|'. Two different rows whose joined texts coincide are merged, as in the code.
- XmlSummarizer, CsvSummary: the XML name counts (Services/XmlSummarizer.cs) and the CSV numeric column statistics (`foreach (var kv in numericColumns)`, Services/CsvSummarizer.cs:94) are listed in the `Dictionary`'s enumeration order. The model takes that order to be insertion order, which .NET gives for a dictionary from which no entry is removed, but does not document.
- Counters: the Markdown line count (`int`) and its character and word counts (`long`, Services/MarkdownSummaryService.cs:24-40), the XML element and attribute totals (`long`, Services/XmlSummarizer.cs:34-53) and the Excel rows seen (`long`, Services/ExcelSummaryService.cs:68-73) are unbounded in the model. They are assumed to stay below their type's maximum; wrap-around is not modelled. The archive size totals are unbounded too. The zip totals use LINQ's checked `Sum` over `long` (Services/ArchiveSummaryService.cs:40-41), which throws `OverflowException` past `long.MaxValue`, and the summary then fails with "Archive summary failed: …". The tar total is an unchecked `long` sum (`totalSize += entry.Length`, :117), which wraps. The model captures neither.
- ExcelSummary.NormalizedRow: the source pads a short row with `new string[columnCount]`, so the added cells are null (Services/ExcelSummaryService.cs:213-215). The model pads with "", the text a null cell shows as.
- SummarizeZip: `ZipArchiveEntry.Open()` can reject an entry's local header before the preview buffer is rented. The model places every failure of an entry at the read of its data, after `Rent`, so with a negative `ArchivePreviewBytes` it reports the range error where the source would report the header's.

Where the documented design and the code differ, the model follows the code:

- The XML adapter (Order 100) sniffs content and is probed before the CSV adapter (Order 200). So a `.csv` file whose text starts with '<' is summarized as XML: extension does not take precedence here (`Summarizers.XmlTakesCsvMarkup`, `Summarizers.XmlRoutedBeforeCsv`).
- The binary analyzer scans for printable strings in the header followed by the bytes read after the entropy sample, not the bytes directly after the header (Services/BinarySummaryService.cs:44-53). The model keeps that order.
- The CSV analyzer reads its records with `ReadLine` (Services/CsvSummarizer.cs:47). A quoted field that contains a line break is therefore split into two records, and the model does the same (`Text.ReadLines`).
