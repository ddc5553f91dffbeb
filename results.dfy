/**
 * The values every analyzer hands back: a titled text body, optional
 * tables and an optional text preview (Services/FileSummaryResult.cs).
 */
module Results {
  import opened Wrappers
  import opened Text

  /** A table to display: column headers, rows of cells, and whether rows were cut off. */
  datatype TableSummary = TableSummary(title: string, headers: seq<string>, rows: seq<seq<string>>, isTruncated: bool)

  /** A titled excerpt of the file's content. */
  datatype TextPreview = TextPreview(title: string, content: string, isTruncated: bool)

  /** The outcome of one analysis: title, body text, tables and an optional preview. */
  datatype FileSummaryResult = FileSummaryResult(title: string, body: string, tables: seq<TableSummary>, preview: Option<TextPreview>)

  /** What the CSV summarizer returns to its adapter. */
  datatype CsvSummaryResult = CsvSummaryResult(headers: seq<string>, rows: seq<seq<string>>, summaryText: string, rowsScanned: nat, previewTruncated: bool)

  /** The constructor of a result: a missing table list stands for no tables at all. */
  function MakeResult(title: string, body: string, tables: Option<seq<TableSummary>>, preview: Option<TextPreview>): (r: FileSummaryResult)
    ensures r.title == title && r.body == body && r.preview == preview
    ensures tables.None? ==> r.tables == []
    ensures tables.Some? ==> r.tables == tables.value
  {
    FileSummaryResult(title, body, tables.GetOr([]), preview)
  }

  /** A preview is shown only when it has some non-blank content. */
  predicate HasVisiblePreview(r: FileSummaryResult)
  {
    r.preview.Some? && !IsBlank(r.preview.value.content)
  }

  /** The text that follows the body when the preview is shown. */
  function PreviewSection(p: TextPreview): string
  {
    NewLine + NewLine + "Preview: " + p.title + NewLine + p.content
    + (if p.isTruncated then NewLine + "... (truncated preview)" else "")
  }

  /**
   * `FileSummaryResult.SummaryText`: the body alone without a visible preview,
   * otherwise the body, a blank line, the preview's title and content, and a
   * truncation note when the preview was cut off.
   */
  function SummaryText(r: FileSummaryResult): (s: string)
    ensures s == r.body <==> !HasVisiblePreview(r)
    ensures StartsWith(s, r.body)
    ensures HasVisiblePreview(r) ==>
      StartsWith(s[|r.body|..], NewLine + NewLine + "Preview: " + r.preview.value.title + NewLine + r.preview.value.content)
  {
    if !HasVisiblePreview(r) then r.body
    else
      var p := r.preview.value;
      var head := NewLine + NewLine + "Preview: " + p.title + NewLine + p.content;
      var s := r.body + PreviewSection(p);
      assert PreviewSection(p) == head + (if p.isTruncated then NewLine + "... (truncated preview)" else "");
      assert s[|r.body|..] == PreviewSection(p);
      assert |s| > |r.body|;
      s
  }

  /** With a visible preview, the summary text ends with the truncation note exactly when the preview was truncated, and with the content otherwise. */
  lemma SummaryTextEnding(r: FileSummaryResult)
    requires HasVisiblePreview(r)
    ensures r.preview.value.isTruncated ==> EndsWith(SummaryText(r), NewLine + "... (truncated preview)")
    ensures !r.preview.value.isTruncated ==> EndsWith(SummaryText(r), NewLine + r.preview.value.content)
    ensures |SummaryText(r)| > |r.body| + |r.preview.value.content|
  {
    var p := r.preview.value;
    var s := SummaryText(r);
    if p.isTruncated {
      var tail := NewLine + "... (truncated preview)";
      assert s == (r.body + NewLine + NewLine + "Preview: " + p.title + NewLine + p.content) + tail;
    } else {
      assert s == (r.body + NewLine + NewLine + "Preview: " + p.title) + (NewLine + p.content);
    }
  }
}
