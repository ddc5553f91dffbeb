/**
 * The generic XML summary (Services/XmlSummarizer.cs): an INCA document is
 * handed to its own summarizer; any other file is read twice.  The first
 * pass counts elements (at most 20000), their attributes and how often each
 * qualified name occurs; the second collects up to three text samples.  A
 * read that raises ends the summary with the exception's message.  The
 * `Dictionary<string, int>` of name counts is modelled as its entries in
 * insertion order, which is the order it enumerates them in when nothing is
 * removed.
 */
module XmlSummarizer {
  import opened Wrappers
  import opened Text
  import opened XmlModel
  import opened NameCounts
  import IncaDocument

  const MaxElementsToScan: nat := 20000
  const MaxNamesShown: nat := 12
  const MaxSamples: nat := 3
  const SampleLength: nat := 200

  /** The file as the readers see it: the node stream, and what `XDocument.Load` makes of it. */
  datatype XmlFile = XmlFile(stream: NodeStream, document: DocumentLoad)

  // ---------------------------------------------------------------------
  // The first pass
  // ---------------------------------------------------------------------

  /**
   * The variables of the first pass: the root name, the element and
   * attribute counts, the name counts, and whether the cap stopped it.
   */
  datatype Scan = Scan(rootName: Option<string>, elements: nat, attributes: nat, counts: seq<Entry<string>>, stopped: bool)

  const Unscanned: Scan := Scan(Option.None, 0, 0, [], false)

  /** The loop body for an element node. */
  function CountElement(s: Scan, node: ReaderNode): Scan
    requires node.StartElement?
  {
    var elements := s.elements + 1;
    Scan(if s.rootName.Some? then s.rootName else Some(node.qualifiedName),
         elements,
         s.attributes + node.attributeCount,
         Increment(s.counts, node.qualifiedName),
         elements >= MaxElementsToScan)
  }

  /** The first pass over the first nodes of a stream: elements are counted until the cap stops the loop. */
  function ScanOf(nodes: seq<ReaderNode>): Scan
    decreases |nodes|
  {
    if |nodes| == 0 then Unscanned
    else
      var s := ScanOf(nodes[..|nodes| - 1]);
      var node := nodes[|nodes| - 1];
      if s.stopped || !node.StartElement? then s else CountElement(s, node)
  }

  lemma ScanOneMore(nodes: seq<ReaderNode>, i: nat)
    requires i < |nodes|
    ensures ScanOf(nodes[..i + 1]) ==
      var s := ScanOf(nodes[..i]);
      if s.stopped || !nodes[i].StartElement? then s else CountElement(s, nodes[i])
  {
    assert nodes[..i + 1][..i] == nodes[..i];
  }

  /** Once the cap is reached, no later node changes the scan. */
  lemma {:induction false} ScanStays(nodes: seq<ReaderNode>, k: nat)
    requires k <= |nodes| && ScanOf(nodes[..k]).stopped
    ensures ScanOf(nodes) == ScanOf(nodes[..k])
    decreases |nodes|
  {
    if k < |nodes| {
      var prefix := nodes[..|nodes| - 1];
      assert prefix[..k] == nodes[..k];
      ScanStays(prefix, k);
    } else {
      assert nodes[..k] == nodes;
    }
  }

  /** An element as the first pass sees it: its qualified name and its attribute count. */
  datatype ElementInfo = ElementInfo(name: string, attributes: nat)

  /** The elements of a node stream, in document order. */
  function ElementsOf(nodes: seq<ReaderNode>): seq<ElementInfo>
    decreases |nodes|
  {
    if |nodes| == 0 then []
    else
      var node := nodes[|nodes| - 1];
      ElementsOf(nodes[..|nodes| - 1])
      + (if node.StartElement? then [ElementInfo(node.qualifiedName, node.attributeCount)] else [])
  }

  /** How many of the elements have the name. */
  function Occurrences(elements: seq<ElementInfo>, name: string): nat
    decreases |elements|
  {
    if |elements| == 0 then 0
    else Occurrences(elements[..|elements| - 1], name) + (if elements[|elements| - 1].name == name then 1 else 0)
  }

  function AttributeTotal(elements: seq<ElementInfo>): nat
    decreases |elements|
  {
    if |elements| == 0 then 0
    else AttributeTotal(elements[..|elements| - 1]) + elements[|elements| - 1].attributes
  }

  /**
   * `s` is the result of counting exactly `counted`: one element each, their
   * attributes, the first one's name as the root, a count per distinct name
   * equal to its number of occurrences, counts summing to the element count,
   * and the loop stopped exactly when the cap was reached.
   */
  ghost predicate Counts(s: Scan, counted: seq<ElementInfo>)
  {
    && s.elements == |counted|
    && s.attributes == AttributeTotal(counted)
    && s.rootName == (if |counted| > 0 then Some(counted[0].name) else Option.None)
    && DistinctKeys(s.counts)
    && Total(s.counts) == s.elements
    && (forall name :: Lookup(s.counts, name) == Occurrences(counted, name))
    && s.stopped == (|counted| >= MaxElementsToScan)
  }

  lemma OccurrencesSnoc(elements: seq<ElementInfo>, x: ElementInfo, name: string)
    ensures Occurrences(elements + [x], name) == Occurrences(elements, name) + (if x.name == name then 1 else 0)
    ensures AttributeTotal(elements + [x]) == AttributeTotal(elements) + x.attributes
  {
    assert (elements + [x])[..|elements|] == elements;
  }

  lemma CountOneMore(s: Scan, counted: seq<ElementInfo>, node: ReaderNode)
    requires Counts(s, counted) && !s.stopped && node.StartElement?
    ensures Counts(CountElement(s, node), counted + [ElementInfo(node.qualifiedName, node.attributeCount)])
  {
    var x := ElementInfo(node.qualifiedName, node.attributeCount);
    var more := counted + [x];
    var c := CountElement(s, node);
    IncrementCounts(s.counts, node.qualifiedName);
    forall name
      ensures Lookup(c.counts, name) == Occurrences(more, name)
    {
      OccurrencesSnoc(counted, x, name);
    }
    OccurrencesSnoc(counted, x, x.name);
    if |counted| > 0 {
      assert more[0] == counted[0];
    }
  }

  /**
   * The first pass counts exactly the first 20000 elements of the stream
   * (all of them when there are fewer) and stops exactly when there are at
   * least that many.
   */
  lemma {:induction false} ScanCounts(nodes: seq<ReaderNode>)
    ensures Counts(ScanOf(nodes), Take(ElementsOf(nodes), MaxElementsToScan))
    decreases |nodes|
  {
    if |nodes| > 0 {
      var prefix := nodes[..|nodes| - 1];
      var node := nodes[|nodes| - 1];
      ScanCounts(prefix);
      var s := ScanOf(prefix);
      var before := ElementsOf(prefix);
      if node.StartElement? {
        var x := ElementInfo(node.qualifiedName, node.attributeCount);
        assert ElementsOf(nodes) == before + [x];
        TakeSnoc(before, x, MaxElementsToScan);
        if !s.stopped {
          CountOneMore(s, Take(before, MaxElementsToScan), node);
        }
      } else {
        assert ElementsOf(nodes) == before;
      }
    }
  }

  /** The failure the first pass meets: the stream's, unless the cap ended the loop first. */
  function FirstFailure(stream: NodeStream): Option<ReadFailure>
  {
    if ScanOf(stream.nodes).stopped then Option.None else stream.failure
  }

  // ---------------------------------------------------------------------
  // The report of the first pass
  // ---------------------------------------------------------------------

  function StopNote(elements: nat): string
  {
    "(Scanned " + FormatN0(elements) + " elements \U{2014} stopping early for performance)"
  }

  function NameLine(e: Entry<string>): string
  {
    "  " + e.key + ": " + FormatN0(e.count)
  }

  /** The first twelve entries, one line each. */
  function NameLines(entries: seq<Entry<string>>): seq<string>
  {
    seq(MinNat(MaxNamesShown, |entries|), k requires 0 <= k < MinNat(MaxNamesShown, |entries|) => NameLine(entries[k]))
  }

  /** The counts and the sample of names written after the first pass. */
  function ScanReport(s: Scan): seq<string>
  {
    (if s.stopped then [StopNote(s.elements)] else [])
    + ["Root element: " + s.rootName.GetOr("(unknown)"),
       "Elements scanned: " + FormatN0(s.elements),
       "Attributes scanned: " + FormatN0(s.attributes)]
    + (if |s.counts| > 0 then ["", "Top element names (sample):"] + NameLines(s.counts) else [])
  }

  // ---------------------------------------------------------------------
  // The second pass
  // ---------------------------------------------------------------------

  /** `text.Replace("\r", " ").Replace("\n", " ")`. */
  function SingleLine(text: string): (r: string)
    ensures |r| == |text|
  {
    ReplaceCharByChar(text, '\r', ' ');
    ReplaceCharByChar(Replace(text, "\r", " "), '\n', ' ');
    Replace(Replace(text, "\r", " "), "\n", " ")
  }

  /** Every line break becomes a space and nothing else changes. */
  lemma SingleLineChars(text: string)
    ensures forall i :: 0 <= i < |text| ==>
      SingleLine(text)[i] == if text[i] == '\r' || text[i] == '\n' then ' ' else text[i]
  {
    ReplaceCharByChar(text, '\r', ' ');
    ReplaceCharByChar(Replace(text, "\r", " "), '\n', ' ');
  }

  /** `TruncateOneLine`: the text on one line, cut to `max` characters plus "…" when longer. */
  function TruncateOneLine(text: string, max: nat): (r: string)
    ensures '\r' !in r && '\n' !in r
    ensures |text| <= max ==> r == SingleLine(text)
    ensures |text| > max ==> |r| == max + 1 && r == SingleLine(text)[..max] + "\U{2026}"
  {
    SingleLineChars(text);
    var single := SingleLine(text);
    if |single| <= max then single else single[..max] + "\U{2026}"
  }

  /** Text already on one line and within the limit comes back unchanged. */
  lemma TruncateKeeps(text: string, max: nat)
    requires |text| <= max && '\r' !in text && '\n' !in text
    ensures TruncateOneLine(text, max) == text
  {
    SingleLineChars(text);
    assert forall i :: 0 <= i < |text| ==> SingleLine(text)[i] == text[i];
  }

  /** The sample line a node gives: text or CDATA that is not blank once trimmed. */
  function SampleOf(node: ReaderNode): Option<string>
  {
    if node.TextNode? || node.CDataNode? then
      var text := Trim(node.value);
      if text != "" then Some("- " + TruncateOneLine(text, SampleLength)) else Option.None
    else Option.None
  }

  /** A sample is "- " and at least one and at most 201 characters on one line. */
  lemma SampleShape(node: ReaderNode)
    requires SampleOf(node).Some?
    ensures var line := SampleOf(node).value;
      3 <= |line| <= 3 + SampleLength && line[..2] == "- " && '\r' !in line[2..] && '\n' !in line[2..]
  {
    var text := Trim(node.value);
    var t := TruncateOneLine(text, SampleLength);
    assert SampleOf(node).value == "- " + t;
    assert 1 <= |t| <= 1 + SampleLength by {
      if |text| <= SampleLength {
        assert |t| == |SingleLine(text)| == |text|;
      }
    }
    Bulleted(t);
  }

  lemma Bulleted(t: string)
    ensures var line := "- " + t;
      |line| == 2 + |t| && line[..2] == "- " && line[2..] == t
  {
  }

  /** Every sample the nodes offer, in order. */
  function AllSamples(nodes: seq<ReaderNode>): seq<string>
    decreases |nodes|
  {
    if |nodes| == 0 then [] else AllSamples(nodes[..|nodes| - 1]) + SampleOf(nodes[|nodes| - 1]).ToSeq()
  }

  /** The samples the second pass writes after reading these nodes: none once three were found. */
  function Sampled(nodes: seq<ReaderNode>): seq<string>
    decreases |nodes|
  {
    if |nodes| == 0 then []
    else
      var s := Sampled(nodes[..|nodes| - 1]);
      if |s| >= MaxSamples then s else s + SampleOf(nodes[|nodes| - 1]).ToSeq()
  }

  lemma SampledOneMore(nodes: seq<ReaderNode>, i: nat)
    requires i < |nodes|
    ensures Sampled(nodes[..i + 1]) ==
      var s := Sampled(nodes[..i]);
      if |s| >= MaxSamples then s else s + SampleOf(nodes[i]).ToSeq()
  {
    assert nodes[..i + 1][..i] == nodes[..i];
  }

  /** The second pass writes exactly the first three samples the file offers (all, when there are fewer). */
  lemma {:induction false} SampledFirst(nodes: seq<ReaderNode>)
    ensures Sampled(nodes) == Take(AllSamples(nodes), MaxSamples)
    decreases |nodes|
  {
    if |nodes| > 0 {
      var prefix := nodes[..|nodes| - 1];
      SampledFirst(prefix);
      var more := SampleOf(nodes[|nodes| - 1]).ToSeq();
      var all := AllSamples(prefix);
      if |more| == 1 {
        TakeSnoc(all, more[0], MaxSamples);
        assert more == [more[0]];
      } else {
        assert all + more == all;
      }
    }
  }

  /** Once three samples are found, no later node adds one. */
  lemma {:induction false} SampledStays(nodes: seq<ReaderNode>, k: nat)
    requires k <= |nodes| && |Sampled(nodes[..k])| >= MaxSamples
    ensures Sampled(nodes) == Sampled(nodes[..k])
    decreases |nodes|
  {
    if k < |nodes| {
      var prefix := nodes[..|nodes| - 1];
      assert prefix[..k] == nodes[..k];
      SampledStays(prefix, k);
    } else {
      assert nodes[..k] == nodes;
    }
  }

  /**
   * Whether the second pass calls `Read` once more after the last node, the
   * call that meets the stream's failure: `Read` runs before the sample
   * count is checked, so it does unless three samples were found before the
   * last node.
   */
  predicate ReachesEnd(nodes: seq<ReaderNode>)
  {
    |nodes| == 0 || |Sampled(nodes[..|nodes| - 1])| < MaxSamples
  }

  /** Three samples found before a node: the samples are final and the failure after the last node is not reached. */
  lemma SamplesDone(nodes: seq<ReaderNode>, i: nat)
    requires i < |nodes| && |Sampled(nodes[..i])| >= MaxSamples
    ensures Sampled(nodes) == Sampled(nodes[..i]) && !ReachesEnd(nodes)
  {
    SampledStays(nodes, i);
    var prefix := nodes[..|nodes| - 1];
    assert prefix[..i] == nodes[..i];
    SampledStays(prefix, i);
  }

  function SampleFailure(stream: NodeStream): Option<ReadFailure>
  {
    if ReachesEnd(stream.nodes) then stream.failure else Option.None
  }

  // ---------------------------------------------------------------------
  // The summary
  // ---------------------------------------------------------------------

  /** The catch clauses: `XmlException` and any other exception. */
  function ErrorLine(failure: ReadFailure): string
  {
    match failure
    case XmlError(message) => "XML parsing error: " + message
    case OtherError(message) => "Error summarizing XML: " + message
  }

  /** The lines appended to the StringBuilder for a file that is not an INCA document. */
  function GenericLines(stream: NodeStream): seq<string>
  {
    var first := FirstFailure(stream);
    if first.Some? then [ErrorLine(first.value)]
    else
      var last := SampleFailure(stream);
      ScanReport(ScanOf(stream.nodes)) + ["", "Text samples:"] + Sampled(stream.nodes)
      + (if last.Some? then [ErrorLine(last.value)] else [])
  }

  /** `Summarize`: the INCA summary when that summarizer takes the file, else the generic one. */
  function SummaryOf(file: XmlFile): string
  {
    var inca := IncaDocument.TrySummarize(IncaDocument.IncaSource(file.stream, file.document));
    if inca.Some? then inca.value else Lines(GenericLines(file.stream))
  }

  /** The element count is the number of elements up to the cap, and the stop note is written exactly at the cap. */
  lemma ScanCapped(nodes: seq<ReaderNode>)
    ensures ScanOf(nodes).elements == MinNat(MaxElementsToScan, |ElementsOf(nodes)|)
    ensures ScanOf(nodes).stopped <==> |ElementsOf(nodes)| >= MaxElementsToScan
  {
    ScanCounts(nodes);
  }

  /**
   * The report of the first pass: the stop note when the cap was reached,
   * the root name, element and attribute counts, then, when any name was
   * counted, a blank line, the heading and a line for each of the first
   * twelve names.
   */
  lemma ReportLength(s: Scan)
    ensures var lines := ScanReport(s);
      var at := if s.stopped then 1 else 0;
      |lines| == at + 3 + (if |s.counts| > 0 then 2 + MinNat(MaxNamesShown, |s.counts|) else 0)
  {
  }

  /** A report of a pass the cap stopped opens with the stop note. */
  lemma ReportStopNote(s: Scan)
    requires s.stopped
    ensures var lines := ScanReport(s);
      |lines| > 0 && lines[0] == StopNote(s.elements)
  {
  }

  lemma ConcatAssoc<T>(a: seq<T>, b: seq<T>, c: seq<T>)
    ensures a + (b + c) == a + b + c
  {
  }

  /** The report lists the first twelve name counts, in the order the names were first met, after the heading. */
  lemma ReportNames(s: Scan)
    ensures var lines := ScanReport(s);
      var at := if s.stopped then 1 else 0;
      forall k :: 0 <= k < MinNat(MaxNamesShown, |s.counts|) ==>
        at + 5 + k < |lines| && lines[at + 5 + k] == NameLine(s.counts[k])
  {
    if |s.counts| > 0 {
      var lines := ScanReport(s);
      var at := if s.stopped then 1 else 0;
      var names := NameLines(s.counts);
      var front := (if s.stopped then [StopNote(s.elements)] else [])
        + ["Root element: " + s.rootName.GetOr("(unknown)"),
           "Elements scanned: " + FormatN0(s.elements),
           "Attributes scanned: " + FormatN0(s.attributes)];
      var head := front + ["", "Top element names (sample):"];
      assert lines == head + names by {
        ConcatAssoc(front, ["", "Top element names (sample):"], names);
      }
      assert |head| == at + 5;
      assert |names| == MinNat(MaxNamesShown, |s.counts|);
      forall k | 0 <= k < |names|
        ensures at + 5 + k < |lines| && lines[at + 5 + k] == NameLine(s.counts[k])
      {
        assert lines[at + 5 + k] == names[k];
      }
    } else {
      assert MinNat(MaxNamesShown, |s.counts|) == 0;
    }
  }

  /**
   * The generic summary: a failure in the first pass leaves only its error
   * line; otherwise the report of the first pass comes first, then a blank
   * line and the "Text samples:" heading, then at most three samples, then
   * the error line of a failure the second pass met, if any.
   */
  lemma GenericShape(stream: NodeStream)
    ensures FirstFailure(stream).Some? ==> GenericLines(stream) == [ErrorLine(stream.failure.value)]
    ensures FirstFailure(stream).None? ==>
      var report := ScanReport(ScanOf(stream.nodes));
      var lines := GenericLines(stream);
      var n := |report|;
      var samples := Sampled(stream.nodes);
      |samples| <= MaxSamples
      && lines[..n] == report && lines[n..n + 2] == ["", "Text samples:"]
      && lines[n + 2..n + 2 + |samples|] == samples
      && |lines| == n + 2 + |samples| + (if SampleFailure(stream).Some? then 1 else 0)
  {
    SampledFirst(stream.nodes);
    if FirstFailure(stream).None? {
      var report := ScanReport(ScanOf(stream.nodes));
      var samples := Sampled(stream.nodes);
      var last := SampleFailure(stream);
      var tail := if last.Some? then [ErrorLine(last.value)] else [];
      assert GenericLines(stream) == report + ["", "Text samples:"] + samples + tail;
      SamplesLayout(report, samples, tail);
    }
  }

  lemma SamplesLayout(report: seq<string>, samples: seq<string>, tail: seq<string>)
    ensures var lines := report + ["", "Text samples:"] + samples + tail;
      var n := |report|;
      lines[..n] == report && lines[n..n + 2] == ["", "Text samples:"]
      && lines[n + 2..n + 2 + |samples|] == samples
      && |lines| == n + 2 + |samples| + |tail|
  {
    var lines := report + ["", "Text samples:"] + samples + tail;
    var n := |report|;
    assert lines[..n] == report;
    assert lines[n..n + 2] == ["", "Text samples:"];
    assert lines[n + 2..n + 2 + |samples|] == samples;
  }

  // ---------------------------------------------------------------------
  // The loops
  // ---------------------------------------------------------------------

  /** The first `while (reader.Read())` loop. */
  method ScanElements(reader: NodeReader) returns (scan: Scan, failure: Option<ReadFailure>)
    requires reader.Valid() && reader.position == 0
    modifies reader
    ensures scan == ScanOf(reader.stream.nodes)
    ensures failure == FirstFailure(reader.stream)
  {
    ghost var nodes := reader.stream.nodes;
    var rootName: Option<string> := Option.None;
    var elementCount: nat := 0;
    var attributeCount: nat := 0;
    var counts: seq<Entry<string>> := [];
    var stopped := false;
    failure := Option.None;
    while true
      invariant reader.Valid() && reader.stream.nodes == nodes
      invariant Scan(rootName, elementCount, attributeCount, counts, false) == ScanOf(nodes[..reader.position])
      invariant !stopped && failure.None?
      decreases |nodes| - reader.position
    {
      ghost var i := reader.position;
      var outcome := reader.Read();
      if outcome.Raised? {
        assert nodes[..i] == nodes;
        failure := Some(outcome.failure);
        break;
      }
      if outcome.EndOfStream? {
        assert nodes[..i] == nodes;
        break;
      }
      var node := outcome.node;
      ghost var before := Scan(rootName, elementCount, attributeCount, counts, false);
      assert ScanOf(nodes[..i + 1]) == if node.StartElement? then CountElement(before, node) else before by {
        ScanOneMore(nodes, i);
      }
      if node.StartElement? {
        elementCount := elementCount + 1;
        if rootName.None? {
          rootName := Some(node.qualifiedName);
        }
        attributeCount := attributeCount + node.attributeCount;
        counts := Increment(counts, node.qualifiedName);
        assert Scan(rootName, elementCount, attributeCount, counts, elementCount >= MaxElementsToScan)
          == CountElement(before, node);
        if elementCount >= MaxElementsToScan {
          stopped := true;
          ScanStays(nodes, i + 1);
          break;
        }
      }
    }
    scan := Scan(rootName, elementCount, attributeCount, counts, stopped);
  }

  /** The `foreach` over the name counts, which breaks after twelve lines. */
  method WriteNames(entries: seq<Entry<string>>) returns (lines: seq<string>)
    ensures lines == NameLines(entries)
  {
    ghost var all := NameLines(entries);
    lines := [];
    var shown := 0;
    for i := 0 to |entries|
      invariant shown == i <= |all| && (i < MaxNamesShown || i == |entries|) && lines == all[..i]
    {
      lines := lines + [NameLine(entries[i])];
      shown := shown + 1;
      TakeOneMore(all, i);
      if shown >= MaxNamesShown {
        break;
      }
    }
    assert lines == all;
  }

  /** The report lines of a finished first pass. */
  method WriteReport(scan: Scan) returns (lines: seq<string>)
    ensures lines == ScanReport(scan)
  {
    lines := [];
    if scan.stopped {
      lines := [StopNote(scan.elements)];
    }
    lines := lines + ["Root element: " + scan.rootName.GetOr("(unknown)"),
                      "Elements scanned: " + FormatN0(scan.elements),
                      "Attributes scanned: " + FormatN0(scan.attributes)];
    if |scan.counts| > 0 {
      var names := WriteNames(scan.counts);
      lines := lines + (["", "Top element names (sample):"] + names);
    }
  }

  /** The second loop, `while (reader2.Read() && textSamplesFound < 3)`. */
  method CollectSamples(reader: NodeReader) returns (samples: seq<string>, failure: Option<ReadFailure>)
    requires reader.Valid() && reader.position == 0
    modifies reader
    ensures samples == Sampled(reader.stream.nodes)
    ensures failure == SampleFailure(reader.stream)
  {
    ghost var nodes := reader.stream.nodes;
    var textSamplesFound := 0;
    samples := [];
    failure := Option.None;
    while true
      invariant reader.Valid() && reader.stream.nodes == nodes
      invariant samples == Sampled(nodes[..reader.position]) && textSamplesFound == |samples|
      invariant reader.position == 0 || |Sampled(nodes[..reader.position - 1])| < MaxSamples
      invariant failure.None?
      decreases |nodes| - reader.position
    {
      ghost var i := reader.position;
      var outcome := reader.Read();
      if outcome.Raised? {
        assert nodes[..i] == nodes;
        failure := Some(outcome.failure);
        break;
      }
      if outcome.EndOfStream? {
        assert nodes[..i] == nodes;
        break;
      }
      if textSamplesFound >= MaxSamples {
        SamplesDone(nodes, i);
        break;
      }
      assert |Sampled(nodes[..i])| < MaxSamples && reader.position - 1 == i;
      assert Sampled(nodes[..i + 1]) == samples + SampleOf(nodes[i]).ToSeq() by {
        SampledOneMore(nodes, i);
      }
      assert outcome.node == nodes[i];
      var sample := SampleOf(outcome.node);
      if sample.Some? {
        assert sample.ToSeq() == [sample.value];
        samples := samples + [sample.value];
        textSamplesFound := textSamplesFound + 1;
      } else {
        assert sample.ToSeq() == [];
      }
    }
  }

  /** The part of `Summarize` after the INCA summarizer declined the file. */
  method SummarizeGeneric(stream: NodeStream) returns (summary: string)
    ensures summary == Lines(GenericLines(stream))
  {
    var reader := new NodeReader(stream);
    var scan, failure := ScanElements(reader);
    if failure.Some? {
      return Lines([ErrorLine(failure.value)]);
    }
    var lines := WriteReport(scan);
    var reader2 := new NodeReader(stream);
    lines := lines + ["", "Text samples:"];
    var samples, last := CollectSamples(reader2);
    lines := lines + samples;
    if last.Some? {
      lines := lines + [ErrorLine(last.value)];
    } else {
      assert lines == lines + [];
    }
    summary := Lines(lines);
  }

  /** `Summarize`. */
  method Summarize(file: XmlFile) returns (summary: string)
    ensures summary == SummaryOf(file)
  {
    var handled, specialized := IncaDocument.Summarize(IncaDocument.IncaSource(file.stream, file.document));
    if handled {
      return specialized;
    }
    summary := SummarizeGeneric(file.stream);
  }
}
