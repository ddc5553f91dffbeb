/**
 * The adapters between the dispatcher and the analyzers (the classes in
 * Services/Summaries named after the analyzers): each one's probing order,
 * the test that decides whether it takes a file, and the result it builds
 * from its analyzer's output.
 */
module Summarizers {
  import opened Wrappers
  import opened Text
  import opened SummaryContext
  import opened Results
  import opened XmlModel
  import opened FileSummaries
  import F = FileTypeInspector
  import A = AlteryxWorkflow
  import X = XmlSummarizer
  import Csv
  import CS = CsvSummary
  import M = Markdown
  import E = ExcelSummary
  import Y = YxdbSummary
  import Ar = ArchiveSummary
  import B = BinarySummary

  /** The implementations of `IFileSummarizer`. */
  datatype Summarizer =
    | AlteryxWorkflowSummarizer
    | XmlFileSummarizer
    | CsvFileSummarizer
    | MarkdownFileSummarizer
    | ExcelFileSummarizer
    | YxdbFileSummarizer
    | JsonFileSummarizer
    | ArchiveFileSummarizer
    | TextFileSummarizer
    | BinaryFileSummarizer

  /** Every adapter, in the order their `Order` values rank them. */
  const AllSummarizers := [AlteryxWorkflowSummarizer, XmlFileSummarizer, CsvFileSummarizer, MarkdownFileSummarizer,
                           ExcelFileSummarizer, YxdbFileSummarizer, JsonFileSummarizer, ArchiveFileSummarizer,
                           TextFileSummarizer, BinaryFileSummarizer]

  /** `IFileSummarizer.Order`: lower values are probed first. */
  function Order(s: Summarizer): int
  {
    match s
    case AlteryxWorkflowSummarizer => 90
    case XmlFileSummarizer => 100
    case CsvFileSummarizer => 200
    case MarkdownFileSummarizer => 220
    case ExcelFileSummarizer => 250
    case YxdbFileSummarizer => 260
    case JsonFileSummarizer => 300
    case ArchiveFileSummarizer => 400
    case TextFileSummarizer => 900
    case BinaryFileSummarizer => 1000
  }

  /** No two adapters share an `Order`: listed by rank, their values strictly increase, from the workflow adapter's to the binary one's. */
  lemma OrdersIncrease()
    ensures forall i, j :: 0 <= i < j < |AllSummarizers| ==> Order(AllSummarizers[i]) < Order(AllSummarizers[j])
    ensures forall s: Summarizer :: Order(AlteryxWorkflowSummarizer) <= Order(s) <= Order(BinaryFileSummarizer)
  {
    forall i, j | 0 <= i < j < |AllSummarizers|
      ensures Order(AllSummarizers[i]) < Order(AllSummarizers[j])
    {
      if j - i > 1 {
        assert Order(AllSummarizers[i]) < Order(AllSummarizers[i + 1]);
      }
    }
  }

  // ---------------------------------------------------------------------
  // Which files an adapter takes
  // ---------------------------------------------------------------------

  const AlteryxExtensions := [".yxmd", ".yxmc", ".yxwz"]
  const MarkdownExtensions := [".md", ".markdown", ".mdown", ".mkd", ".mkdn"]
  const ExcelExtensions := [".xlsx", ".xls", ".xlsm"]

  /** Whether the extension equals one of the listed ones, ignoring case: a search from the front that stops on a match. */
  function ListedIgnoreCase(extension: string, extensions: seq<string>): (r: bool)
    ensures r <==> exists i :: 0 <= i < |extensions| && EqualsIgnoreCase(extension, extensions[i])
    decreases |extensions|
  {
    if |extensions| == 0 then false
    else EqualsIgnoreCase(extension, extensions[0]) || ListedIgnoreCase(extension, extensions[1..])
  }

  /** A blank extension is rejected before the list is searched. */
  predicate HasListedExtension(ctx: FileSummaryContext, extensions: seq<string>)
  {
    !IsBlank(ctx.Extension()) && ListedIgnoreCase(ctx.Extension(), extensions)
  }

  /** `CanSummarize`, adapter by adapter. */
  predicate Accepts(s: Summarizer, ctx: FileSummaryContext)
  {
    match s
    case AlteryxWorkflowSummarizer => HasListedExtension(ctx, AlteryxExtensions)
    case XmlFileSummarizer => F.LooksLikeXml(ctx)
    case CsvFileSummarizer => EqualsIgnoreCase(ctx.Extension(), ".csv")
    case MarkdownFileSummarizer => HasListedExtension(ctx, MarkdownExtensions)
    case ExcelFileSummarizer => HasListedExtension(ctx, ExcelExtensions)
    case YxdbFileSummarizer => !IsBlank(ctx.Extension()) && EqualsIgnoreCase(ctx.Extension(), ".yxdb")
    case JsonFileSummarizer =>
      EqualsIgnoreCase(ctx.Extension(), ".json")
      || (ctx.file.Some? && F.FirstNonBlankIn(ctx.file.value.text, {'{', '['}))
    case ArchiveFileSummarizer => F.DetectArchiveFormat(ctx) != ArchiveFormat.None
    case TextFileSummarizer =>
      ctx.file.Some? && ctx.options.textPreviewBytes >= 0
      && F.IsTextSample(F.TextSample(ctx.file.value.bytes, ctx.options.textPreviewBytes))
    case BinaryFileSummarizer => true
  }

  /** `CanSummarize`: the JSON and text adapters read the file through their probes. */
  method CanSummarize(s: Summarizer, ctx: FileSummaryContext) returns (r: bool)
    ensures r == Accepts(s, ctx)
  {
    match s
    case JsonFileSummarizer => r := F.LooksLikeJson(ctx);
    case TextFileSummarizer => r := F.IsProbablyTextFile(ctx);
    case _ => r := Accepts(s, ctx);
  }

  /** A blank extension is not what the extension-based adapters take. */
  lemma BlankExtensionRejected(ctx: FileSummaryContext)
    requires IsBlank(ctx.Extension())
    ensures !Accepts(AlteryxWorkflowSummarizer, ctx) && !Accepts(MarkdownFileSummarizer, ctx)
    ensures !Accepts(ExcelFileSummarizer, ctx) && !Accepts(YxdbFileSummarizer, ctx)
  {
  }

  /** The workflow adapter takes exactly `.yxmd`, `.yxmc` and `.yxwz`, in any case. */
  lemma AlteryxAccepts(ctx: FileSummaryContext)
    ensures HasListedExtension(ctx, AlteryxExtensions) <==>
      EqualsIgnoreCase(ctx.Extension(), ".yxmd") || EqualsIgnoreCase(ctx.Extension(), ".yxmc")
      || EqualsIgnoreCase(ctx.Extension(), ".yxwz")
  {
    ListedNotBlank(ctx.Extension(), AlteryxExtensions);
  }

  /** The Markdown adapter takes exactly the five Markdown extensions, in any case. */
  lemma MarkdownAccepts(ctx: FileSummaryContext)
    ensures HasListedExtension(ctx, MarkdownExtensions) <==>
      exists i :: 0 <= i < |MarkdownExtensions| && EqualsIgnoreCase(ctx.Extension(), MarkdownExtensions[i])
  {
    ListedNotBlank(ctx.Extension(), MarkdownExtensions);
  }

  /** The Excel adapter takes exactly `.xlsx`, `.xls` and `.xlsm`, in any case. */
  lemma ExcelAccepts(ctx: FileSummaryContext)
    ensures HasListedExtension(ctx, ExcelExtensions) <==>
      EqualsIgnoreCase(ctx.Extension(), ".xlsx") || EqualsIgnoreCase(ctx.Extension(), ".xls")
      || EqualsIgnoreCase(ctx.Extension(), ".xlsm")
  {
    ListedNotBlank(ctx.Extension(), ExcelExtensions);
  }

  /** An extension that matches a listed one that is not blank is not blank either. */
  lemma ListedNotBlank(extension: string, extensions: seq<string>)
    requires forall i :: 0 <= i < |extensions| ==> |extensions[i]| > 0 && extensions[i][0] == '.'
    ensures ListedIgnoreCase(extension, extensions) ==> !IsBlank(extension)
  {
    if ListedIgnoreCase(extension, extensions) {
      var i :| 0 <= i < |extensions| && EqualsIgnoreCase(extension, extensions[i]);
      assert ToUpper(extension[0]) == ToUpper(extensions[i][0]) == '.';
      assert !IsWhiteSpace(extension[0]);
    }
  }

  /** The CSV adapter goes by the extension alone, and the binary adapter takes every file. */
  lemma CsvAndBinaryAccept(ctx: FileSummaryContext)
    ensures Accepts(CsvFileSummarizer, ctx) <==> EqualsIgnoreCase(ctx.Extension(), ".csv")
    ensures Accepts(BinaryFileSummarizer, ctx)
  {
  }

  /**
   * A `.csv` file whose text starts with '<' is taken by both the XML and
   * the CSV adapters, and the XML adapter ranks first: content sniffing
   * wins over the extension here.
   */
  lemma XmlTakesCsvMarkup(ctx: FileSummaryContext)
    requires EqualsIgnoreCase(ctx.Extension(), ".csv")
    requires ctx.file.Some? && |ctx.file.value.text| > 0 && ctx.file.value.text[0] == '<'
    ensures Accepts(XmlFileSummarizer, ctx) && Accepts(CsvFileSummarizer, ctx)
    ensures Order(XmlFileSummarizer) < Order(CsvFileSummarizer)
  {
    assert F.LooksLikeXmlText(ctx.file.value.text);
  }

  /**
   * With the XML and CSV adapters registered (as values of the service's
   * summarizer type, whatever else is registered beside them), such a file
   * never reaches the CSV adapter: the summarizer used ranks below 200.
   */
  lemma XmlRoutedBeforeCsv(registered: seq<FileSummarizer>, options: SummaryOptions, x: nat, c: nat, path: string, file: Option<DiskFile>)
    requires x < |registered| && registered[x].order == Order(XmlFileSummarizer)
    requires c < |registered| && registered[c].order == Order(CsvFileSummarizer)
    requires registered[x].canSummarize(FileSummaryContext(path, file, options)) == Accepts(XmlFileSummarizer, FileSummaryContext(path, file, options))
    requires registered[c].canSummarize(FileSummaryContext(path, file, options)) == Accepts(CsvFileSummarizer, FileSummaryContext(path, file, options))
    requires EqualsIgnoreCase(GetExtension(path), ".csv")
    requires file.Some? && |file.value.text| > 0 && file.value.text[0] == '<'
    ensures var s := NewService(registered, options).summarizers;
      var k := Chosen(s, FileSummaryContext(path, file, options));
      k.Some? && s[k.value].order < Order(CsvFileSummarizer)
  {
    var ctx := FileSummaryContext(path, file, options);
    XmlTakesCsvMarkup(ctx);
    LowerOrderWins(registered, options, x, c, ctx);
  }

  // ---------------------------------------------------------------------
  // What an adapter builds
  // ---------------------------------------------------------------------

  /**
   * What the libraries and the configuration make of the file, beyond its
   * bytes and text: the parsed documents and workbooks, the analyzers'
   * own caps, the JSON analyzer's text, and the messages of the exceptions
   * opening the file and creating the text reader raise.
   */
  datatype Externals = Externals(
    workflow: DocumentLoad,
    xml: X.XmlFile,
    decimals: Csv.DecimalFormat,
    markdownMaxCharacters: int,
    excelLimits: E.ExcelLimits,
    readWorkbook: seq<Byte> -> E.Workbook,
    yxdb: Y.YxdbOpen,
    yxdbLimits: Y.YxdbLimits,
    jsonBody: string,
    archive: Ar.Libraries,
    rentSlack: nat,
    sha256: seq<Byte> -> string,
    log2: real -> real,
    formatF2: real -> string,
    openError: string,
    readerError: string)

  /** What `ArrayPool<byte>.Shared.Rent` hands the archive analyzer: at least the preview size. */
  function RentedLength(ctx: FileSummaryContext, env: Externals): (n: nat)
    ensures ctx.options.archivePreviewBytes <= n
  {
    (if ctx.options.archivePreviewBytes > 0 then ctx.options.archivePreviewBytes else 0) + env.rentSlack
  }

  /** The bytes of an opened file. */
  function FileBytes(file: Option<DiskFile>): (r: Option<seq<Byte>>)
    ensures r.Some? <==> file.Some?
  {
    if file.Some? then Some(file.value.bytes) else Option.None
  }

  /**
   * `TextFileSummarizer.ReadFileHead`: a `StreamReader` with a buffer of
   * `maxBytes` reads at most `min(maxBytes, file length)` characters in one
   * call; the preview is cut off when the file has more than `maxBytes`
   * bytes. A file that cannot be opened, or a size the reader or the
   * buffer refuses, gives the failure note instead.
   */
  function FileHead(file: Option<DiskFile>, maxBytes: int, openError: string, readerError: string): Head
  {
    if file.None? then Head(ReadFailure(openError), false)
    else if maxBytes <= 0 then Head(ReadFailure(readerError), false)
    else
      var bufferLength := MinNat(maxBytes, |file.value.bytes|);
      Head(file.value.text[..MinNat(bufferLength, |file.value.text|)], |file.value.bytes| > maxBytes)
  }

  /** The characters read, and whether the file goes on. */
  datatype Head = Head(content: string, truncated: bool)

  function ReadFailure(message: string): string
  {
    "(Could not read file preview: " + message + ")"
  }

  /** The head is a prefix of the text no longer than the byte budget, cut off exactly when the file is larger; a failure is never cut off. */
  lemma FileHeadBounds(file: Option<DiskFile>, maxBytes: int, openError: string, readerError: string)
    ensures var Head(content, truncated) := FileHead(file, maxBytes, openError, readerError);
      (file.Some? && maxBytes > 0 ==>
         StartsWith(file.value.text, content) && |content| <= maxBytes && |content| <= |file.value.bytes|
         && (truncated <==> |file.value.bytes| > maxBytes))
      && (file.None? ==> content == ReadFailure(openError) && !truncated)
      && (file.Some? && maxBytes <= 0 ==> content == ReadFailure(readerError) && !truncated)
  {
  }

  /** The workflow adapter: the analyzer's text and tables, or its exception passed on. */
  function AlteryxOutcome(env: Externals): Outcome
  {
    var w := A.SummaryOf(env.workflow);
    if w.Threw? then Outcome.Raised(w.message)
    else Returned(MakeResult("Alteryx Workflow Summary", w.workflow.summary, Some(w.workflow.tables), Option.None))
  }

  function XmlResult(env: Externals): FileSummaryResult
  {
    MakeResult("XML Summary", X.SummaryOf(env.xml), Option.None, Option.None)
  }

  /** The CSV adapter: one table of the previewed rows, flagged by the scan cap. */
  function CsvResult(ctx: FileSummaryContext, env: Externals): FileSummaryResult
  {
    var csv := CS.CsvSummaryOf(ctx.file, env.openError, env.decimals);
    MakeResult("CSV Summary", csv.summaryText,
               Some([TableSummary("CSV Preview", csv.headers, csv.rows, csv.previewTruncated)]), Option.None)
  }

  /** The Markdown adapter: a file that cannot be opened raises; otherwise the analyzer's text and preview. */
  function MarkdownOutcome(ctx: FileSummaryContext, env: Externals): Outcome
  {
    if ctx.file.None? then Outcome.Raised(env.openError)
    else
      var md := M.MarkdownSummaryOf(ctx.path, ctx.file.value.text, env.markdownMaxCharacters);
      Returned(MakeResult(MarkdownTitle(ctx.path), md.summary, Option.None, Some(md.preview)))
  }

  function MarkdownTitle(path: string): string
  {
    "Markdown Summary (" + GetFileName(path) + ")"
  }

  function ExcelResult(ctx: FileSummaryContext, env: Externals): FileSummaryResult
  {
    var excel := E.ExcelSummaryOf(FileBytes(ctx.file), env.openError, env.excelLimits, env.readWorkbook);
    MakeResult("Excel Summary", excel.summary, Some(excel.tables), Option.None)
  }

  function YxdbResult(env: Externals): FileSummaryResult
  {
    var yxdb := Y.YxdbSummaryOf(env.yxdb, env.yxdbLimits);
    MakeResult("YXDB Summary", yxdb.summary, Some(yxdb.tables), Option.None)
  }

  function JsonResult(env: Externals): FileSummaryResult
  {
    MakeResult("JSON Summary", env.jsonBody, Option.None, Option.None)
  }

  /** The archive adapter: the format is detected again, and the analyzer's one table, if any, becomes the list. */
  function ArchiveResult(ctx: FileSummaryContext, env: Externals): FileSummaryResult
  {
    var format := F.DetectArchiveFormat(ctx);
    if format == ArchiveFormat.None then MakeResult("Archive", "Unsupported archive format.", Option.None, Option.None)
    else
      var r := Ar.ArchiveSummaryOf(ctx.path, format, ctx.file, env.openError, ctx.options, RentedLength(ctx, env), env.archive);
      MakeResult(format.Name() + " Summary", r.summary, if r.table.Some? then Some([r.table.value]) else Option.None, r.preview)
  }

  /** The text adapter: a fixed body, and the file's head as the preview, titled with the file name. */
  function TextResult(ctx: FileSummaryContext, env: Externals): FileSummaryResult
  {
    var head := FileHead(ctx.file, ctx.options.textPreviewBytes, env.openError, env.readerError);
    MakeResult("Text Preview", TextBody(ctx.options.textPreviewBytes), Option.None,
               Some(TextPreview(GetFileName(ctx.path), head.content, head.truncated)))
  }

  /**
   * The text adapter shows the head of an opened file under the file's
   * name: a prefix of its text within the byte budget, marked as cut off
   * exactly when the file is larger than the budget.
   */
  lemma TextAdapterPreview(ctx: FileSummaryContext, env: Externals)
    requires ctx.file.Some? && ctx.options.textPreviewBytes > 0
    ensures var r := TextResult(ctx, env);
      r.title == "Text Preview" && r.tables == [] && r.preview.Some?
      && r.preview.value.title == GetFileName(ctx.path)
      && StartsWith(ctx.file.value.text, r.preview.value.content)
      && |r.preview.value.content| <= ctx.options.textPreviewBytes
      && (r.preview.value.isTruncated <==> |ctx.file.value.bytes| > ctx.options.textPreviewBytes)
  {
    FileHeadBounds(ctx.file, ctx.options.textPreviewBytes, env.openError, env.readerError);
  }

  function TextBody(previewBytes: int): string
  {
    "Preview (first " + FormatN0(previewBytes) + " bytes):"
  }

  function BinaryResult(ctx: FileSummaryContext, env: Externals): FileSummaryResult
  {
    var body := B.BinarySummaryOf(ctx.file, env.openError, ctx.options, env.sha256, env.log2, env.formatF2);
    MakeResult("Binary Summary", body, Option.None, Option.None)
  }

  /** `AlteryxWorkflowSummarizer.SummarizeAsync`. */
  method SummarizeAlteryx(env: Externals) returns (o: Outcome)
    ensures o == AlteryxOutcome(env)
  {
    var w := A.Summarize(env.workflow);
    if w.Threw? {
      return Outcome.Raised(w.message);
    }
    o := Returned(MakeResult("Alteryx Workflow Summary", w.workflow.summary, Some(w.workflow.tables), Option.None));
  }

  /** `XmlFileSummarizer.SummarizeAsync`. */
  method SummarizeXml(env: Externals) returns (r: FileSummaryResult)
    ensures r == XmlResult(env)
  {
    var body := X.Summarize(env.xml);
    r := MakeResult("XML Summary", body, Option.None, Option.None);
  }

  /** `CsvFileSummarizer.SummarizeAsync`. */
  method SummarizeCsv(ctx: FileSummaryContext, env: Externals) returns (r: FileSummaryResult)
    ensures r == CsvResult(ctx, env)
  {
    var csv := CS.Summarize(ctx.file, env.openError, env.decimals);
    var table := TableSummary("CSV Preview", csv.headers, csv.rows, csv.previewTruncated);
    r := MakeResult("CSV Summary", csv.summaryText, Some([table]), Option.None);
  }

  /** `MarkdownFileSummarizer.SummarizeAsync`. */
  method SummarizeMarkdown(ctx: FileSummaryContext, env: Externals) returns (o: Outcome)
    ensures o == MarkdownOutcome(ctx, env)
  {
    if ctx.file.None? {
      return Outcome.Raised(env.openError);
    }
    var md := M.Summarize(ctx.path, ctx.file.value.text, env.markdownMaxCharacters);
    o := Returned(MakeResult(MarkdownTitle(ctx.path), md.summary, Option.None, Some(md.preview)));
  }

  /** `ExcelFileSummarizer.SummarizeAsync`. */
  method SummarizeExcel(ctx: FileSummaryContext, env: Externals) returns (r: FileSummaryResult)
    ensures r == ExcelResult(ctx, env)
  {
    var excel := E.Summarize(FileBytes(ctx.file), env.openError, env.excelLimits, env.readWorkbook);
    r := MakeResult("Excel Summary", excel.summary, Some(excel.tables), Option.None);
  }

  /** `YxdbFileSummarizer.SummarizeAsync`. */
  method SummarizeYxdb(env: Externals) returns (r: FileSummaryResult)
    ensures r == YxdbResult(env)
  {
    var yxdb := Y.Summarize(env.yxdb, env.yxdbLimits);
    r := MakeResult("YXDB Summary", yxdb.summary, Some(yxdb.tables), Option.None);
  }

  /** `ArchiveFileSummarizer.SummarizeAsync`. */
  method SummarizeArchive(ctx: FileSummaryContext, env: Externals) returns (result: FileSummaryResult)
    ensures result == ArchiveResult(ctx, env)
  {
    var format := F.DetectArchiveFormat(ctx);
    if format == ArchiveFormat.None {
      return MakeResult("Archive", "Unsupported archive format.", Option.None, Option.None);
    }
    var r := Ar.Summarize(ctx.path, format, ctx.file, env.openError, ctx.options, RentedLength(ctx, env), env.archive);
    var tables := if r.table.Some? then Some([r.table.value]) else Option.None;
    result := MakeResult(format.Name() + " Summary", r.summary, tables, r.preview);
  }

  /** `BinaryFileSummarizer.SummarizeAsync`. */
  method SummarizeBinary(ctx: FileSummaryContext, env: Externals) returns (r: FileSummaryResult)
    ensures r == BinaryResult(ctx, env)
  {
    var body := B.Summarize(ctx.file, env.openError, ctx.options, env.sha256, env.log2, env.formatF2);
    r := MakeResult("Binary Summary", body, Option.None, Option.None);
  }
}
