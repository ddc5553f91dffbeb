/**
 * The dispatcher (Services/FileSummaryService.cs): it orders the registered
 * summarizers by `Order`, answers blank paths, folders and missing items
 * itself, hands a file to the first summarizer that takes it, and puts the
 * file's metadata in front of the summary.
 *
 * The summarizers are whatever the application registers, so the service
 * is modelled over any list of `IFileSummarizer` values
 * (Services/Summaries/IFileSummarizer.cs).
 */
module FileSummaries {
  import opened Wrappers
  import opened Text
  import opened SummaryContext
  import opened Results
  import Sorting

  /** What `SummarizeAsync` completes with: a result, or the message of the exception it raised. */
  datatype Outcome = Returned(result: FileSummaryResult) | Raised(message: string)

  /** An `IFileSummarizer`: its rank, its acceptance test and its summary. */
  datatype FileSummarizer = FileSummarizer(
    order: int,
    canSummarize: FileSummaryContext -> bool,
    summarize: FileSummaryContext -> Outcome)

  // ---------------------------------------------------------------------
  // The file system, as the service sees one path
  // ---------------------------------------------------------------------

  /** A child of a folder: a `DirectoryInfo` or a `FileInfo`, and its name. */
  datatype Child = Child(name: string, isDirectory: bool)

  /**
   * A folder: its name, full path and last write time as interpolation
   * prints it, and its children, or None when listing them is denied.
   */
  datatype Folder = Folder(name: string, fullName: string, lastWriteTime: string, children: Option<seq<Child>>)

  /** A file's `FileInfo`: name, full path, length in bytes and last write time as printed. */
  datatype FileInfo = FileInfo(name: string, fullName: string, length: nat, lastWriteTime: string)

  /** What a path names: a folder, a file (with what reading it yields), or nothing. */
  datatype PathTarget =
    | FolderAt(folder: Folder)
    | FileAt(info: FileInfo, file: Option<DiskFile>)
    | NothingAt

  // ---------------------------------------------------------------------
  // Construction
  // ---------------------------------------------------------------------

  /** The service: its summarizers in probing order, and its options. */
  datatype FileSummaryService = FileSummaryService(summarizers: seq<FileSummarizer>, options: SummaryOptions)

  function OrderKey(s: FileSummarizer): seq<int>
  {
    [s.order]
  }

  /** The constructor: `OrderBy(s => s.Order)`, a stable sort. */
  function NewService(registered: seq<FileSummarizer>, options: SummaryOptions): (service: FileSummaryService)
    ensures service.options == options
  {
    FileSummaryService(Sorting.SortBy(registered, OrderKey), options)
  }

  /** The summarizers with rank `order`, in their order. */
  function Ranked(s: seq<FileSummarizer>, order: int): seq<FileSummarizer>
  {
    Sorting.WithKey(s, OrderKey, [order])
  }

  /**
   * The constructor ranks the summarizers by ascending `Order`, leaves out
   * and adds none, and keeps those of equal `Order` in their registration
   * order: for every rank, the summarizers holding it are the same sequence
   * before and after sorting.
   */
  lemma {:induction false} ServiceOrder(registered: seq<FileSummarizer>, options: SummaryOptions)
    ensures var s := NewService(registered, options).summarizers;
      |s| == |registered|
      && (forall i, j :: 0 <= i < j < |s| ==> s[i].order <= s[j].order)
      && (forall order :: Ranked(s, order) == Ranked(registered, order))
  {
    var s := NewService(registered, options).summarizers;
    Sorting.SortBySorts(registered, OrderKey);
    assert |multiset(s)| == |multiset(registered)|;
    forall i, j | 0 <= i < j < |s|
      ensures s[i].order <= s[j].order
    {
      assert Sorting.LexLe(OrderKey(s[i]), OrderKey(s[j]));
      Sorting.LexCons(s[i].order, [], s[j].order, []);
    }
    forall order
      ensures Ranked(s, order) == Ranked(registered, order)
    {
      Sorting.SortByStable(registered, OrderKey, [order]);
    }
  }

  // ---------------------------------------------------------------------
  // Choosing a summarizer
  // ---------------------------------------------------------------------

  /** The position of the first summarizer that takes the file. */
  function Chosen(summarizers: seq<FileSummarizer>, ctx: FileSummaryContext): (k: Option<nat>)
    ensures k.None? <==> forall i :: 0 <= i < |summarizers| ==> !summarizers[i].canSummarize(ctx)
    ensures k.Some? ==> k.value < |summarizers| && summarizers[k.value].canSummarize(ctx)
    ensures k.Some? ==> forall i :: 0 <= i < k.value ==> !summarizers[i].canSummarize(ctx)
  {
    FirstWhere(summarizers, (s: FileSummarizer) => s.canSummarize(ctx))
  }

  const NoSummarizer := MakeResult("Summary", "No summarizer was able to handle this file.", Option.None, Option.None)

  /** What the service makes of a file: the chosen summary, or the fallback, under the file's metadata. */
  function FileOutcome(service: FileSummaryService, path: string, info: FileInfo, file: Option<DiskFile>): Outcome
  {
    var ctx := FileSummaryContext(path, file, service.options);
    var k := Chosen(service.summarizers, ctx);
    if k.None? then Returned(CombineWithMetadata(info, NoSummarizer))
    else
      match service.summarizers[k.value].summarize(ctx)
      case Raised(message) => Outcome.Raised(message)
      case Returned(summary) => Returned(CombineWithMetadata(info, summary))
  }

  /** `BuildSummaryAsync`, as a value: the tests of the path come before any summarizer. */
  function SummaryOf(service: FileSummaryService, path: string, target: PathTarget): Outcome
  {
    if IsBlank(path) then Returned(MakeResult("Invalid Path", "No path provided.", Option.None, Option.None))
    else
      match target
      case FolderAt(folder) => Returned(DirectorySummary(folder))
      case NothingAt => Returned(MakeResult("Not Found", "Item not found.", Option.None, Option.None))
      case FileAt(info, file) => FileOutcome(service, path, info, file)
  }

  /**
   * `BuildSummaryAsync`: probes the summarizers in order and summarizes with
   * the first that takes the file. `probed` counts the `CanSummarize` calls
   * and `invoked` is the position of the one `SummarizeAsync` called.
   */
  method BuildSummary(service: FileSummaryService, path: string, target: PathTarget)
    returns (o: Outcome, probed: nat, invoked: Option<nat>)
    ensures o == SummaryOf(service, path, target)
    ensures (IsBlank(path) || !target.FileAt?) ==> probed == 0 && invoked.None?
    ensures !IsBlank(path) && target.FileAt? ==>
      invoked == Chosen(service.summarizers, FileSummaryContext(path, target.file, service.options))
    ensures invoked.Some? ==> probed == invoked.value + 1
    ensures invoked.None? && !IsBlank(path) && target.FileAt? ==> probed == |service.summarizers|
  {
    probed, invoked := 0, Option.None;
    if IsBlank(path) {
      return Returned(MakeResult("Invalid Path", "No path provided.", Option.None, Option.None)), probed, invoked;
    }
    if target.FolderAt? {
      var summary := BuildDirectorySummary(target.folder);
      return Returned(summary), probed, invoked;
    }
    if target.NothingAt? {
      return Returned(MakeResult("Not Found", "Item not found.", Option.None, Option.None)), probed, invoked;
    }
    var info := target.info;
    var ctx := FileSummaryContext(path, target.file, service.options);
    var summarizers := service.summarizers;
    for i := 0 to |summarizers|
      invariant probed == i
      invariant forall j :: 0 <= j < i ==> !summarizers[j].canSummarize(ctx)
    {
      probed := probed + 1;
      if !summarizers[i].canSummarize(ctx) {
        continue;
      }
      invoked := Some(i);
      assert Chosen(summarizers, ctx) == Some(i);
      var summary := summarizers[i].summarize(ctx);
      if summary.Raised? {
        return Outcome.Raised(summary.message), probed, invoked;
      }
      return Returned(CombineWithMetadata(info, summary.result)), probed, invoked;
    }
    o := Returned(CombineWithMetadata(info, NoSummarizer));
  }

  /** A blank path, a folder or a missing item is answered without any summarizer and without metadata. */
  lemma AnsweredWithoutSummarizers(a: FileSummaryService, b: FileSummaryService, path: string, target: PathTarget)
    requires IsBlank(path) || !target.FileAt?
    ensures SummaryOf(a, path, target) == SummaryOf(b, path, target)
    ensures IsBlank(path) ==> SummaryOf(a, path, target) == Returned(FileSummaryResult("Invalid Path", "No path provided.", [], Option.None))
    ensures !IsBlank(path) && target.NothingAt? ==> SummaryOf(a, path, target) == Returned(FileSummaryResult("Not Found", "Item not found.", [], Option.None))
    ensures !IsBlank(path) && target.FolderAt? ==> SummaryOf(a, path, target) == Returned(DirectorySummary(target.folder))
  {
  }

  /**
   * For a file, the outcome is the chosen summarizer's, passed on when it
   * raised and under the metadata otherwise; every summarizer before it
   * declined. With none taking the file the fallback appears instead.
   */
  lemma {:induction false} FirstTakerSummarizes(service: FileSummaryService, path: string, info: FileInfo, file: Option<DiskFile>)
    requires !IsBlank(path)
    ensures var ctx := FileSummaryContext(path, file, service.options);
      var k := Chosen(service.summarizers, ctx);
      var o := SummaryOf(service, path, FileAt(info, file));
      (k.Some? ==>
         (forall i :: 0 <= i < k.value ==> !service.summarizers[i].canSummarize(ctx))
         && (service.summarizers[k.value].summarize(ctx).Raised? ==> o == service.summarizers[k.value].summarize(ctx))
         && (service.summarizers[k.value].summarize(ctx).Returned? ==>
               o == Returned(CombineWithMetadata(info, service.summarizers[k.value].summarize(ctx).result))))
      && (k.None? <==> o == Returned(CombineWithMetadata(info, NoSummarizer)) && forall i :: 0 <= i < |service.summarizers| ==> !service.summarizers[i].canSummarize(ctx))
  {
  }

  /** A summarizer that takes the file rules out the fallback: the first such one, of rank no higher than it, is used. */
  lemma {:induction false} TakerRulesOutFallback(registered: seq<FileSummarizer>, options: SummaryOptions, x: nat, ctx: FileSummaryContext)
    requires x < |registered| && registered[x].canSummarize(ctx)
    ensures var s := NewService(registered, options).summarizers;
      Chosen(s, ctx).Some? && s[Chosen(s, ctx).value].order <= registered[x].order
  {
    var s := NewService(registered, options).summarizers;
    ServiceOrder(registered, options);
    var order := registered[x].order;
    var p := RankedHas(registered, order, ctx, x);
    assert Ranked(s, order) == Ranked(registered, order);
    var j := RankedFrom(s, order, ctx, p);
    FirstTakerRanksLow(s, ctx, j);
  }

  /** In a list ranked by `Order`, the first taker ranks no higher than any other taker. */
  lemma FirstTakerRanksLow(s: seq<FileSummarizer>, ctx: FileSummaryContext, j: nat)
    requires forall i, j :: 0 <= i < j < |s| ==> s[i].order <= s[j].order
    requires j < |s| && s[j].canSummarize(ctx)
    ensures Chosen(s, ctx).Some? && s[Chosen(s, ctx).value].order <= s[j].order
  {
    var k := Chosen(s, ctx);
    assert k.Some? && k.value <= j;
  }

  /**
   * Two summarizers that both take the file: the one of lower `Order` is
   * probed first, so the one used ranks no higher than it.
   */
  lemma LowerOrderWins(registered: seq<FileSummarizer>, options: SummaryOptions, x: nat, y: nat, ctx: FileSummaryContext)
    requires x < |registered| && y < |registered|
    requires registered[x].canSummarize(ctx) && registered[y].canSummarize(ctx)
    requires registered[x].order < registered[y].order
    ensures var s := NewService(registered, options).summarizers;
      Chosen(s, ctx).Some? && s[Chosen(s, ctx).value].order < registered[y].order
  {
    TakerRulesOutFallback(registered, options, x, ctx);
  }

  /** A summarizer of rank `order` that takes the file is among those of that rank. */
  lemma {:induction false} RankedHas(s: seq<FileSummarizer>, order: int, ctx: FileSummaryContext, i: nat) returns (p: nat)
    requires i < |s| && s[i].order == order && s[i].canSummarize(ctx)
    ensures p < |Ranked(s, order)| && Ranked(s, order)[p].canSummarize(ctx)
    decreases |s|
  {
    var n := |s| - 1;
    var init := s[..n];
    assert Ranked(s, order) == Ranked(init, order) + (if OrderKey(s[n]) == [order] then [s[n]] else []);
    if i == n {
      p := |Ranked(init, order)|;
    } else {
      assert init[i] == s[i];
      p := RankedHas(init, order, ctx, i);
    }
  }

  /** A summarizer of rank `order` that takes the file comes from the list, with that rank. */
  lemma {:induction false} RankedFrom(s: seq<FileSummarizer>, order: int, ctx: FileSummaryContext, p: nat) returns (j: nat)
    requires p < |Ranked(s, order)| && Ranked(s, order)[p].canSummarize(ctx)
    ensures j < |s| && s[j].canSummarize(ctx) && s[j].order == order
    decreases |s|
  {
    var n := |s| - 1;
    var init := s[..n];
    assert Ranked(s, order) == Ranked(init, order) + (if OrderKey(s[n]) == [order] then [s[n]] else []);
    if p < |Ranked(init, order)| {
      j := RankedFrom(init, order, ctx, p);
      assert init[j] == s[j];
    } else {
      j := n;
    }
  }

  // ---------------------------------------------------------------------
  // Folders
  // ---------------------------------------------------------------------

  const SampleLimit := 10

  /** One sample line: the kind of the child, then its name. */
  function ChildLine(c: Child): string
  {
    "  " + (if c.isDirectory then "[Dir]" else "[File]") + " " + c.name
  }

  function ChildLines(children: seq<Child>): (r: seq<string>)
    ensures |r| == |children|
  {
    seq(|children|, i requires 0 <= i < |children| => ChildLine(children[i]))
  }

  function ItemsLine(children: Option<seq<Child>>): string
  {
    if children.Some? then "Items: " + FormatN0(|children.value|) else "Items: (access denied)"
  }

  /** The sample section: nothing for an empty folder, a note when listing is denied. */
  function SampleSection(children: Option<seq<Child>>): seq<string>
  {
    if children.None? then ["", "Sample contents: (access denied)"]
    else
      var samples := Take(children.value, SampleLimit);
      if |samples| > 0 then ["", "Sample contents:"] + ChildLines(samples) else []
  }

  function FolderLines(folder: Folder): seq<string>
  {
    ["Folder: " + folder.name, "Path: " + folder.fullName, ItemsLine(folder.children),
     "Last modified: " + folder.lastWriteTime]
    + SampleSection(folder.children)
  }

  /** `BuildDirectorySummary`, as a value. */
  function DirectorySummary(folder: Folder): FileSummaryResult
  {
    MakeResult("Directory Summary", Lines(FolderLines(folder)), Option.None, Option.None)
  }

  /**
   * The folder summary: four header lines, then at most ten sample lines,
   * the first ten children in listing order, each marked as a folder or a
   * file; a denied listing shows notes in place of the count and the samples.
   */
  lemma FolderSummaryShape(folder: Folder)
    ensures var lines := FolderLines(folder);
      DirectorySummary(folder) == FileSummaryResult("Directory Summary", Lines(lines), [], Option.None)
      && lines[0] == "Folder: " + folder.name && lines[1] == "Path: " + folder.fullName
      && lines[3] == "Last modified: " + folder.lastWriteTime
      && (folder.children.None? ==>
            lines == lines[..4] + ["", "Sample contents: (access denied)"] && lines[2] == "Items: (access denied)")
      && (folder.children.Some? ==> lines[2] == "Items: " + FormatN0(|folder.children.value|))
      && (folder.children == Some([]) ==> |lines| == 4)
      && (folder.children.Some? && |folder.children.value| > 0 ==>
            var shown := MinNat(SampleLimit, |folder.children.value|);
            |lines| == 6 + shown && lines[5] == "Sample contents:" && shown <= 10
            && forall i :: 0 <= i < shown ==> lines[6 + i] == ChildLine(folder.children.value[i]))
  {
  }

  /** `BuildDirectorySummary`: the header lines, then one line per sample child. */
  method BuildDirectorySummary(folder: Folder) returns (r: FileSummaryResult)
    ensures r == DirectorySummary(folder)
  {
    var lines := ["Folder: " + folder.name, "Path: " + folder.fullName, ItemsLine(folder.children),
                  "Last modified: " + folder.lastWriteTime];
    var header := lines;
    if folder.children.Some? {
      var samples := Take(folder.children.value, SampleLimit);
      if |samples| > 0 {
        lines := lines + ["", "Sample contents:"];
        for i := 0 to |samples|
          invariant lines == header + ["", "Sample contents:"] + ChildLines(samples[..i])
        {
          assert ChildLines(samples[..i + 1]) == ChildLines(samples[..i]) + [ChildLine(samples[i])];
          lines := lines + [ChildLine(samples[i])];
        }
        assert samples[..|samples|] == samples;
        assert lines == header + (["", "Sample contents:"] + ChildLines(samples));
      } else {
        assert lines == header + [];
      }
    } else {
      lines := lines + ["", "Sample contents: (access denied)"];
    }
    assert lines == FolderLines(folder);
    r := MakeResult("Directory Summary", Lines(lines), Option.None, Option.None);
  }

  // ---------------------------------------------------------------------
  // Metadata
  // ---------------------------------------------------------------------

  function MetadataLines(info: FileInfo): seq<string>
  {
    ["File: " + info.name, "Path: " + info.fullName, "Size: " + FormatN0(info.length) + " bytes",
     "Last modified: " + info.lastWriteTime]
  }

  /** `CombineWithMetadata`: the metadata lines, then a blank line and the body unless the body is blank. */
  function CombineWithMetadata(info: FileInfo, summary: FileSummaryResult): FileSummaryResult
  {
    var lines := MetadataLines(info) + (if IsBlank(summary.body) then [] else ["", summary.body]);
    FileSummaryResult(summary.title, Lines(lines), summary.tables, summary.preview)
  }

  /**
   * The metadata keeps the title, tables and preview; the body starts with
   * the metadata, and is nothing more exactly when the summary's body is
   * blank; otherwise it ends with a blank line and that body.
   */
  lemma {:induction false} MetadataKeepsSummary(info: FileInfo, summary: FileSummaryResult)
    ensures var r := CombineWithMetadata(info, summary);
      r.title == summary.title && r.tables == summary.tables && r.preview == summary.preview
      && StartsWith(r.body, Lines(MetadataLines(info)))
      && (IsBlank(summary.body) <==> r.body == Lines(MetadataLines(info)))
      && (!IsBlank(summary.body) ==> r.body == Lines(MetadataLines(info)) + NewLine + summary.body + NewLine)
  {
    var meta := Lines(MetadataLines(info));
    var r := CombineWithMetadata(info, summary);
    if IsBlank(summary.body) {
      assert MetadataLines(info) + [] == MetadataLines(info);
    } else {
      Text.LinesAppend(MetadataLines(info), ["", summary.body]);
      assert Lines(["", summary.body]) == "" + NewLine + Lines([summary.body]);
      Text.LinesOfOne(summary.body);
      assert r.body == meta + (NewLine + summary.body + NewLine);
    }
    assert r.body[..|meta|] == meta;
  }
}
