/**
 * The Alteryx workflow analyzer (Services/AlteryxWorkflowSummaryService.cs).
 * The workflow is the element tree `XDocument.Load` makes of a `.yxmd`,
 * `.yxmc` or `.yxwz` file.  Every `Node` below the `Nodes` element is
 * counted by its tool plugin; its file references, macro paths and formula
 * and filter expressions are collected.  The summary text lists the counts
 * and the references; the tables give the tool usage (most used first) and
 * the distinct formula and filter expressions.
 *
 * `StringComparer.OrdinalIgnoreCase` compares the upper-cased texts
 * (`Fold`).  The case-insensitive `Dictionary<string, int>` of tool counts
 * keeps the spelling a key was first added with; it is modelled by its
 * entries in insertion order, looked up by folded key.
 */
module AlteryxWorkflow {
  import opened Wrappers
  import opened Text
  import opened XmlModel
  import opened Results
  import opened Sorting
  import C = NameCounts

  // ---------------------------------------------------------------------
  // Case-insensitive text
  // ---------------------------------------------------------------------

  /** What `StringComparer.OrdinalIgnoreCase` compares: the text with every character upper-cased. */
  function Fold(s: string): string
  {
    ToUpperString(s)
  }

  /** Comparing folded texts is `string.Equals(a, b, StringComparison.OrdinalIgnoreCase)`. */
  lemma FoldEquals(a: string, b: string)
    ensures EqualsIgnoreCase(a, b) <==> Fold(a) == Fold(b)
  {
    if Fold(a) == Fold(b) {
      assert forall i :: 0 <= i < |a| ==> Fold(a)[i] == Fold(b)[i];
    }
  }

  /** `list.Contains(value, StringComparer.OrdinalIgnoreCase)`. */
  predicate ContainsFold(list: seq<string>, value: string)
  {
    exists i :: 0 <= i < |list| && Fold(list[i]) == Fold(value)
  }

  /** No two items of the list are equal ignoring case. */
  predicate DistinctFold(list: seq<string>)
  {
    forall i, j :: 0 <= i < j < |list| ==> Fold(list[i]) != Fold(list[j])
  }

  // ---------------------------------------------------------------------
  // Root attributes
  // ---------------------------------------------------------------------

  /** The workflow version: the first of `yxmdVer`, `yxmcVer` and `yxpVer` the root carries, else "Unknown". */
  function Version(root: XElement): (r: string)
    ensures var md, mc, p := Attribute(root, Local("yxmdVer")), Attribute(root, Local("yxmcVer")),
        Attribute(root, Local("yxpVer"));
      (md.Some? ==> r == md.value)
      && (md.None? && mc.Some? ==> r == mc.value)
      && (md.None? && mc.None? && p.Some? ==> r == p.value)
      && (md.None? && mc.None? && p.None? ==> r == "Unknown")
  {
    Attribute(root, Local("yxmdVer"))
      .OrElse(Attribute(root, Local("yxmcVer")))
      .OrElse(Attribute(root, Local("yxpVer")))
      .GetOr("Unknown")
  }

  /** The characters `bool.TryParse` ignores around the word: white space and NUL. */
  predicate IsPadding(c: char)
  {
    IsWhiteSpace(c) || c == '\0'
  }

  /** The text with its leading and trailing padding removed. */
  function StripPadding(s: string): (r: string)
    ensures |r| <= |s|
    ensures r != [] ==> !IsPadding(r[0]) && !IsPadding(r[|r| - 1])
    decreases |s|
  {
    if |s| > 0 && IsPadding(s[0]) then StripPadding(s[1..])
    else if |s| > 0 && IsPadding(s[|s| - 1]) then StripPadding(s[..|s| - 1])
    else s
  }

  /** `bool.TryParse`: "True" or "False" in any case, padding aside; null and any other text fail. */
  function ParseBool(value: Option<string>): Option<bool>
  {
    if value.None? then Option.None
    else
      var word := StripPadding(value.value);
      if EqualsIgnoreCase(word, "True") then Some(true)
      else if EqualsIgnoreCase(word, "False") then Some(false)
      else Option.None
  }

  /** `bool.ToString()`. */
  function BoolText(b: bool): string
  {
    if b then "True" else "False"
  }

  /** `FormatBool`: the parsed value as "True" or "False", or "Unknown" when it does not parse. */
  function FormatBool(value: Option<string>): string
  {
    var b := ParseBool(value);
    if b.Some? then BoolText(b.value) else "Unknown"
  }

  /** `FormatBool` yields one of three words, and formatting its own output changes nothing. */
  lemma FormatBoolIdempotent(value: Option<string>)
    ensures var r := FormatBool(value);
      (r == "True" || r == "False" || r == "Unknown") && FormatBool(Some(r)) == r
  {
    var b := ParseBool(value);
    if b.Some? {
      ParseBoolText(b.value);
    } else {
      ParseUnknown();
    }
  }

  /** The words `FormatBool` writes parse back to the value written. */
  lemma ParseBoolText(b: bool)
    ensures ParseBool(Some(BoolText(b))) == Some(b)
  {
    var r := BoolText(b);
    assert StripPadding(r) == r;
    if b {
      assert EqualsIgnoreCase(r, "True");
    } else {
      assert !EqualsIgnoreCase(r, "True") by {
        assert |r| != |"True"|;
      }
      assert EqualsIgnoreCase(r, "False");
    }
  }

  lemma ParseUnknown()
    ensures ParseBool(Some("Unknown")) == Option.None
  {
    var r := "Unknown";
    assert StripPadding(r) == r;
    assert !EqualsIgnoreCase(r, "True") by {
      assert |r| != |"True"|;
    }
    assert !EqualsIgnoreCase(r, "False") by {
      assert |r| != |"False"|;
    }
  }


  /**
   * `FormatBool` on every input: "True" exactly for a word equal to "True"
   * ignoring case once the padding is stripped, "False" likewise, and
   * "Unknown" for a missing value and for every other text.
   */
  lemma FormatBoolWords(value: Option<string>)
    ensures FormatBool(value) == "True" <==> value.Some? && EqualsIgnoreCase(StripPadding(value.value), "True")
    ensures FormatBool(value) == "False" <==> value.Some? && EqualsIgnoreCase(StripPadding(value.value), "False")
    ensures FormatBool(value) == "Unknown"
            <==> value.None? || (!EqualsIgnoreCase(StripPadding(value.value), "True")
                                 && !EqualsIgnoreCase(StripPadding(value.value), "False"))
  {
    if value.Some? {
      var word := StripPadding(value.value);
      if EqualsIgnoreCase(word, "True") {
        assert !EqualsIgnoreCase(word, "False") by {
          assert |"True"| != |"False"|;
        }
      }
    }
  }

  /** A padding character stays one when upper-cased, and any other character stays other. */
  lemma PaddingUpper(c: char)
    ensures IsPadding(ToUpper(c)) <==> IsPadding(c)
  {
  }

  /** Upper-casing and stripping the padding can be done in either order. */
  lemma {:induction false} StripPaddingFold(s: string)
    ensures Fold(StripPadding(s)) == StripPadding(Fold(s))
    decreases |s|
  {
    if |s| > 0 {
      PaddingUpper(s[0]);
      PaddingUpper(s[|s| - 1]);
      if IsPadding(s[0]) {
        assert Fold(s[1..]) == Fold(s)[1..];
        StripPaddingFold(s[1..]);
      } else if IsPadding(s[|s| - 1]) {
        assert Fold(s[..|s| - 1]) == Fold(s)[..|s| - 1];
        StripPaddingFold(s[..|s| - 1]);
      }
    }
  }

  /** Texts equal ignoring case format alike: the letter case of the attribute never matters. */
  lemma FormatBoolIgnoresCase(s: string, t: string)
    requires EqualsIgnoreCase(s, t)
    ensures FormatBool(Some(s)) == FormatBool(Some(t))
  {
    FoldEquals(s, t);
    StripPaddingFold(s);
    StripPaddingFold(t);
    FoldEquals(StripPadding(s), "True");
    FoldEquals(StripPadding(t), "True");
    FoldEquals(StripPadding(s), "False");
    FoldEquals(StripPadding(t), "False");
  }

  /** Padding around a text is stripped with the text's own padding. */
  lemma {:induction false} StripPaddingAround(p: string, w: string, q: string)
    requires forall i :: 0 <= i < |p| ==> IsPadding(p[i])
    requires forall i :: 0 <= i < |q| ==> IsPadding(q[i])
    ensures StripPadding(p + w + q) == StripPadding(w)
    decreases |p| + |w| + |q|
  {
    var s := p + w + q;
    if |p| > 0 {
      assert s[0] == p[0];
      assert s[1..] == p[1..] + w + q;
      StripPaddingAround(p[1..], w, q);
    } else if |w| > 0 && IsPadding(w[0]) {
      assert s[0] == w[0];
      assert s[1..] == p + w[1..] + q;
      StripPaddingAround(p, w[1..], q);
    } else if |w| == 0 && |q| > 0 {
      assert s == q;
      assert s[1..] == p + w + q[1..];
      StripPaddingAround(p, w, q[1..]);
    } else if |q| > 0 {
      assert s[0] == w[0];
      assert s[|s| - 1] == q[|q| - 1];
      assert s[..|s| - 1] == p + w + q[..|q| - 1];
      StripPaddingAround(p, w, q[..|q| - 1]);
    } else {
      assert s == w;
    }
  }

  /** Padding around the attribute never matters either. */
  lemma FormatBoolIgnoresPadding(p: string, w: string, q: string)
    requires forall i :: 0 <= i < |p| ==> IsPadding(p[i])
    requires forall i :: 0 <= i < |q| ==> IsPadding(q[i])
    ensures FormatBool(Some(p + w + q)) == FormatBool(Some(w))
  {
    StripPaddingAround(p, w, q);
  }

  // ---------------------------------------------------------------------
  // Lists without case-insensitive duplicates
  // ---------------------------------------------------------------------

  /** `AddIfNotPresent`: the value is appended unless the list already holds it in some case. */
  function AddIfNotPresent(list: seq<string>, value: string): seq<string>
  {
    if ContainsFold(list, value) then list else list + [value]
  }

  /**
   * Adding keeps the list free of case-insensitive duplicates, only ever
   * appends, and leaves the value represented: unchanged when it was
   * present, one longer otherwise.
   */
  lemma AddIfNotPresentKeepsDistinct(list: seq<string>, value: string)
    requires DistinctFold(list)
    ensures var r := AddIfNotPresent(list, value);
      DistinctFold(r) && ContainsFold(r, value) && r[..|list|] == list
      && (ContainsFold(list, value) <==> r == list)
      && (!ContainsFold(list, value) <==> r == list + [value])
  {
    var r := AddIfNotPresent(list, value);
    if !ContainsFold(list, value) {
      assert r[|list|] == value;
      assert r[..|list|] == list;
    }
  }

  // ---------------------------------------------------------------------
  // Expressions
  // ---------------------------------------------------------------------

  /** `.Select(part => part.Trim()).Where(part => part.Length > 0)`. */
  function KeptParts(parts: seq<string>): (r: seq<string>)
    ensures forall k :: 0 <= k < |r| ==> r[k] != "" && IsTrimmed(r[k])
    decreases |parts|
  {
    if |parts| == 0 then []
    else
      var t := Trim(parts[0]);
      (if t == "" then [] else [t]) + KeptParts(parts[1..])
  }

  /** `NormalizeExpression`: each line of the expression trimmed, blank lines dropped, the rest joined by spaces. */
  function NormalizeExpression(expression: Option<string>): (r: string)
    ensures IsNullOrWhiteSpace(expression) ==> r == ""
  {
    if IsNullOrWhiteSpace(expression) then ""
    else Join(" ", KeptParts(Split(Unify(expression.value), '\n')))
  }

  /** A normalized expression holds no line break. */
  lemma NormalizedNoBreak(expression: Option<string>)
    ensures NoLineBreak(NormalizeExpression(expression))
  {
    if !IsNullOrWhiteSpace(expression) {
      var unified := Unify(expression.value);
      UnifyAvoidsReturn(expression.value);
      NormalizedHasNoBreak(unified, KeptParts(Split(unified, '\n')));
    }
  }

  /** Every "\r\n" and every remaining "\r" becomes "\n". */
  function Unify(s: string): string
  {
    Replace(Replace(s, "\r\n", "\n"), "\r", "\n")
  }

  /** No carriage return is left once the line breaks are unified. */
  lemma UnifyAvoidsReturn(s: string)
    ensures '\r' !in Unify(s)
  {
    ReplaceCharByChar(Replace(s, "\r\n", "\n"), '\r', '\n');
  }

  /** The pieces of a split hold no character the text did not. */
  lemma {:induction false} SplitAvoids(s: string, separator: char, d: char)
    requires d !in s
    ensures forall k :: 0 <= k < |Split(s, separator)| ==> d !in Split(s, separator)[k]
    decreases |s|
  {
    var i := IndexOf(s, separator, 0);
    if i != -1 {
      assert d !in s[..i] by {
        assert forall j :: 0 <= j < i ==> s[..i][j] == s[j];
      }
      assert d !in s[i + 1..] by {
        assert forall c :: c in s[i + 1..] ==> c in s;
      }
      SplitAvoids(s[i + 1..], separator, d);
    }
  }

  /** Trimming adds no character. */
  lemma TrimAvoids(s: string, d: char)
    requires d !in s
    ensures d !in Trim(s)
  {
    var start := TrimStart(s);
    assert d !in start by {
      assert forall j :: 0 <= j < |start| ==> start[j] == s[|s| - |start| + j];
    }
    var t := TrimEnd(start);
    assert forall j :: 0 <= j < |t| ==> t[j] == start[j];
  }

  /** Trimming and dropping pieces introduces no character. */
  lemma {:induction false} KeptAvoids(parts: seq<string>, d: char)
    requires forall k :: 0 <= k < |parts| ==> d !in parts[k]
    ensures forall k :: 0 <= k < |KeptParts(parts)| ==> d !in KeptParts(parts)[k]
    decreases |parts|
  {
    if |parts| > 0 {
      var t := Trim(parts[0]);
      TrimAvoids(parts[0], d);
      KeptAvoids(parts[1..], d);
      var rest := KeptParts(parts[1..]);
      var r := KeptParts(parts);
      assert r == (if t == "" then [] else [t]) + rest;
      forall k | 0 <= k < |r|
        ensures d !in r[k]
      {
        if t != "" && k > 0 {
          assert r[k] == rest[k - 1];
        }
      }
    }
  }

  /** A join holds no character that neither the separator nor any piece holds. */
  lemma {:induction false} JoinAvoids(separator: string, parts: seq<string>, d: char)
    requires d !in separator
    requires forall k :: 0 <= k < |parts| ==> d !in parts[k]
    ensures d !in Join(separator, parts)
    decreases |parts|
  {
    if |parts| > 1 {
      JoinAvoids(separator, parts[1..], d);
    }
  }

  /** After the carriage returns are replaced and the text is split at line feeds, no piece holds a line break. */
  lemma NormalizedHasNoBreak(unified: string, parts: seq<string>)
    requires '\r' !in unified
    requires parts == KeptParts(Split(unified, '\n'))
    ensures NoLineBreak(Join(" ", parts))
  {
    var pieces := Split(unified, '\n');
    SplitAvoids(unified, '\n', '\r');
    KeptAvoids(pieces, '\r');
    KeptAvoids(pieces, '\n');
    JoinAvoids(" ", parts, '\r');
    JoinAvoids(" ", parts, '\n');
  }

  /** A join of pieces that do not start empty starts with the first piece's first character. */
  lemma JoinFirst(separator: string, parts: seq<string>)
    requires |parts| > 0 && parts[0] != []
    ensures |Join(separator, parts)| > 0 && Join(separator, parts)[0] == parts[0][0]
  {
  }

  /** A join whose last piece is not empty ends with that piece's last character. */
  lemma {:induction false} JoinLast(separator: string, parts: seq<string>)
    requires |parts| > 0 && parts[|parts| - 1] != []
    ensures var j := Join(separator, parts); var last := parts[|parts| - 1];
      |j| > 0 && j[|j| - 1] == last[|last| - 1]
    decreases |parts|
  {
    if |parts| > 1 {
      JoinLast(separator, parts[1..]);
      assert parts[1..][|parts| - 2] == parts[|parts| - 1];
    }
  }

  /** A normalized expression that is not empty starts and ends with a character other than white space. */
  lemma NormalizedIsTrimmed(expression: Option<string>)
    ensures IsTrimmed(NormalizeExpression(expression))
  {
    var r := NormalizeExpression(expression);
    if !IsNullOrWhiteSpace(expression) {
      var parts := KeptParts(Split(Unify(expression.value), '\n'));
      assert r == Join(" ", parts);
      if |parts| > 0 {
        JoinFirst(" ", parts);
        JoinLast(" ", parts);
      }
    }
  }

  /** A text that is not empty, is trimmed and has no line break is its own normal form. */
  lemma NormalFormFixed(r: string)
    requires r != "" && IsTrimmed(r) && NoLineBreak(r)
    ensures NormalizeExpression(Some(r)) == r
  {
    assert !IsNullOrWhiteSpace(Some(r)) by {
      assert !IsWhiteSpace(r[0]);
    }
    assert '\r' !in r && '\n' !in r by {
      assert forall i :: 0 <= i < |r| ==> !IsLineBreak(r[i]);
    }
    assert Unify(r) == r by {
      ReplaceAbsentFirst(r, "\r\n", "\n");
      ReplaceAbsentChar(r, '\r', "\n");
    }
    assert Split(r, '\n') == [r] by {
      var i := IndexOf(r, '\n', 0);
      assert i == -1;
    }
    TrimOfTrimmed(r);
    assert KeptParts([r]) == [r] by {
      assert [r][1..] == [];
    }
  }

  /** Normalizing a normalized expression changes nothing. */
  lemma NormalizeIdempotent(expression: Option<string>)
    ensures NormalizeExpression(Some(NormalizeExpression(expression))) == NormalizeExpression(expression)
  {
    var r := NormalizeExpression(expression);
    NormalizedIsTrimmed(expression);
    NormalizedNoBreak(expression);
    if r != "" {
      NormalFormFixed(r);
    }
  }

  // ---------------------------------------------------------------------
  // One node
  // ---------------------------------------------------------------------

  /** The node's tool plugin, `GuiSettings/@Plugin`, or "Unknown". */
  function Plugin(node: XElement): string
  {
    ElementAttribute(node, Local("GuiSettings"), Local("Plugin")).GetOr("Unknown")
  }

  /** The node's `ToolID` attribute, or "?". */
  function ToolId(node: XElement): string
  {
    Attribute(node, Local("ToolID")).GetOr("?")
  }

  predicate IsContainerPlugin(plugin: string) { ContainsIgnoreCase(plugin, "ToolContainer") }
  predicate IsInputPlugin(plugin: string) { ContainsIgnoreCase(plugin, "Input") }
  predicate IsOutputPlugin(plugin: string) { ContainsIgnoreCase(plugin, "Output") }
  predicate IsDirectoryPlugin(plugin: string) { ContainsIgnoreCase(plugin, "Directory") }
  predicate IsFormulaPlugin(plugin: string) { ContainsIgnoreCase(plugin, "Formula") }
  predicate IsFilterPlugin(plugin: string) { ContainsIgnoreCase(plugin, "Filter") }

  /** `.Attributes(name).FirstOrDefault()?.Value`: the attribute of the first element that carries one. */
  function FirstAttribute(elements: seq<XElement>, name: XName): (r: Option<string>)
    ensures r.None? <==> forall k :: 0 <= k < |elements| ==> Attribute(elements[k], name).None?
    ensures r.Some? ==>
      exists k :: 0 <= k < |elements| && Attribute(elements[k], name) == r && forall j :: 0 <= j < k ==> Attribute(elements[j], name).None?
  {
    var k := FirstWhere(elements, (e: XElement) => Attribute(e, name).Some?);
    if k.Some? then Attribute(elements[k.value], name) else Option.None
  }

  /** `IsDisabled`: the first `value` attribute of a `Disabled` element below the node parses as true. */
  predicate IsDisabled(node: XElement)
  {
    ParseBool(FirstAttribute(Descendants(node, Local("Disabled")), Local("value"))) == Some(true)
  }

  /** The trimmed `EngineSettings/@Macro` path, when it is not blank. */
  function MacroOf(node: XElement): (r: Option<string>)
    ensures r.Some? ==> r.value != "" && IsTrimmed(r.value)
  {
    var path := ElementAttribute(node, Local("EngineSettings"), Local("Macro"));
    if IsNullOrWhiteSpace(path) then Option.None else Some(Trim(path.value))
  }

  /** The sequence holding the optional value. */
  function Listed<T>(x: Option<T>): (r: seq<T>)
    ensures |r| <= 1
    ensures x.Some? ==> r == [x.value]
    ensures x.None? ==> r == []
  {
    if x.Some? then [x.value] else []
  }

  /** The values present, in order. */
  function Present<T>(options: seq<Option<T>>): seq<T>
    decreases |options|
  {
    if |options| == 0 then [] else Present(options[..|options| - 1]) + Listed(options[|options| - 1])
  }

  lemma PresentOneMore<T>(options: seq<Option<T>>, i: nat)
    requires i < |options|
    ensures Present(options[..i + 1]) == Present(options[..i]) + Listed(options[i])
  {
    var prefix := options[..i + 1];
    assert prefix[..i] == options[..i];
    assert prefix[i] == options[i];
  }

  /** No more values than options, and each one is among the options. */
  lemma {:induction false} PresentFrom<T>(options: seq<Option<T>>)
    ensures var r := Present(options);
      |r| <= |options| && forall k :: 0 <= k < |r| ==> Some(r[k]) in options
    decreases |options|
  {
    if |options| > 0 {
      var n := |options|;
      var before := Present(options[..n - 1]);
      var r := Present(options);
      PresentFrom(options[..n - 1]);
      forall k | 0 <= k < |r|
        ensures Some(r[k]) in options
      {
        if k < |before| {
          assert r[k] == before[k];
          assert Some(before[k]) in options[..n - 1];
        } else {
          assert options[n - 1] == Some(r[k]);
        }
      }
    }
  }

  // ---------------------------------------------------------------------
  // File references
  // ---------------------------------------------------------------------

  /** The input sources and output targets collected so far. */
  datatype FileReferences = FileReferences(inputs: seq<string>, outputs: seq<string>)

  /** The references keep no case-insensitive duplicates. */
  predicate DistinctReferences(refs: FileReferences)
  {
    DistinctFold(refs.inputs) && DistinctFold(refs.outputs)
  }

  /** One trimmed `File` text: an input of an input tool, else an output of an output tool; blank texts are skipped. */
  function AddFileReference(refs: FileReferences, plugin: string, value: string): FileReferences
  {
    if IsBlank(value) then refs
    else if IsInputPlugin(plugin) then refs.(inputs := AddIfNotPresent(refs.inputs, value))
    else if IsOutputPlugin(plugin) then refs.(outputs := AddIfNotPresent(refs.outputs, value))
    else refs
  }

  /** The trimmed texts of the `File` elements, in document order. */
  function FileTexts(files: seq<XElement>): (r: seq<string>)
    ensures |r| == |files|
  {
    seq(|files|, i requires 0 <= i < |files| => Trim(Value(files[i])))
  }

  /** The `File` texts added one by one, in document order. */
  function AddFileTexts(refs: FileReferences, plugin: string, texts: seq<string>): FileReferences
    decreases |texts|
  {
    if |texts| == 0 then refs
    else AddFileReference(AddFileTexts(refs, plugin, texts[..|texts| - 1]), plugin, texts[|texts| - 1])
  }

  /** `.Select(x => x.Value?.Trim()).FirstOrDefault(value => !string.IsNullOrWhiteSpace(value)) ?? ""`. */
  function FirstNonBlankValue(elements: seq<XElement>): (r: string)
    ensures r == "" || (exists k :: 0 <= k < |elements| && r == Trim(Value(elements[k])))
  {
    var k := FirstWhere(elements, (e: XElement) => !IsBlank(Trim(Value(e))));
    if k.Some? then Trim(Value(elements[k.value])) else ""
  }

  /** A directory tool's source: its first non-blank `Directory`, joined to its first non-blank `FileSpec` by a backslash. */
  function DirectoryReference(node: XElement): Option<string>
  {
    var directory := FirstNonBlankValue(Descendants(node, Local("Directory")));
    var fileSpec := FirstNonBlankValue(Descendants(node, Local("FileSpec")));
    if IsBlank(directory) then Option.None
    else if IsBlank(fileSpec) then Some(directory)
    else Some(directory + "\\" + fileSpec)
  }

  /** `CollectFileReferences`: the node's `File` texts, then a directory tool's folder. */
  function FileReferencesOf(refs: FileReferences, node: XElement, plugin: string): FileReferences
  {
    var afterFiles := AddFileTexts(refs, plugin, FileTexts(Descendants(node, Local("File"))));
    var directory := DirectoryReference(node);
    if IsDirectoryPlugin(plugin) && directory.Some? then
      afterFiles.(inputs := AddIfNotPresent(afterFiles.inputs, directory.value))
    else afterFiles
  }

  /** In `sub`, every item of `list` is still represented ignoring case. */
  predicate Covers(sub: seq<string>, list: seq<string>)
  {
    forall i :: 0 <= i < |list| ==> ContainsFold(sub, list[i])
  }

  /** Adding a reference only appends, keeps the lists distinct, and files the text by the plugin kind. */
  lemma AddFileReferenceKeeps(refs: FileReferences, plugin: string, value: string)
    requires DistinctReferences(refs)
    ensures var r := AddFileReference(refs, plugin, value);
      DistinctReferences(r)
      && refs.inputs <= r.inputs && refs.outputs <= r.outputs
      && (!IsBlank(value) && IsInputPlugin(plugin) ==> ContainsFold(r.inputs, value))
      && (!IsBlank(value) && !IsInputPlugin(plugin) && IsOutputPlugin(plugin) ==> ContainsFold(r.outputs, value))
      && (IsInputPlugin(plugin) || !IsOutputPlugin(plugin) ==> r.outputs == refs.outputs)
      && (!IsInputPlugin(plugin) ==> r.inputs == refs.inputs)
  {
    AddIfNotPresentKeepsDistinct(refs.inputs, value);
    AddIfNotPresentKeepsDistinct(refs.outputs, value);
  }

  /** A longer list that starts with `list` represents all of it. */
  lemma PrefixCovers(list: seq<string>, longer: seq<string>)
    requires list <= longer
    ensures Covers(longer, list)
  {
    forall i | 0 <= i < |list|
      ensures ContainsFold(longer, list[i])
    {
      assert longer[i] == list[i];
    }
  }

  /** Over all the `File` texts the lists stay distinct and only grow. */
  lemma {:induction false} AddFileTextsKeeps(refs: FileReferences, plugin: string, texts: seq<string>)
    requires DistinctReferences(refs)
    ensures var r := AddFileTexts(refs, plugin, texts);
      DistinctReferences(r) && refs.inputs <= r.inputs && refs.outputs <= r.outputs
    decreases |texts|
  {
    if |texts| > 0 {
      var n := |texts|;
      AddFileTextsKeeps(refs, plugin, texts[..n - 1]);
      AddFileReferenceKeeps(AddFileTexts(refs, plugin, texts[..n - 1]), plugin, texts[n - 1]);
    }
  }

  /** A tool that is neither an input nor an output tool files none of its `File` elements. */
  lemma {:induction false} AddFileTextsIgnored(refs: FileReferences, plugin: string, texts: seq<string>)
    requires !IsInputPlugin(plugin) && !IsOutputPlugin(plugin)
    ensures AddFileTexts(refs, plugin, texts) == refs
    decreases |texts|
  {
    if |texts| > 0 {
      AddFileTextsIgnored(refs, plugin, texts[..|texts| - 1]);
    }
  }

  /** Adding a reference never drops one, and an input tool's non-blank text is then among the inputs. */
  lemma AddFileReferenceGrows(refs: FileReferences, plugin: string, value: string)
    ensures var r := AddFileReference(refs, plugin, value);
      refs.inputs <= r.inputs
      && (!IsBlank(value) && IsInputPlugin(plugin) ==> ContainsFold(r.inputs, value))
  {
    if !IsBlank(value) && IsInputPlugin(plugin) && !ContainsFold(refs.inputs, value) {
      assert (refs.inputs + [value])[|refs.inputs|] == value;
    }
  }

  /** A text represented in a list is represented in any list that starts with it. */
  lemma ContainsFoldPrefix(list: seq<string>, longer: seq<string>, value: string)
    requires list <= longer && ContainsFold(list, value)
    ensures ContainsFold(longer, value)
  {
    var i :| 0 <= i < |list| && Fold(list[i]) == Fold(value);
    assert longer[i] == list[i];
  }

  /** An input tool leaves the outputs alone. */
  lemma {:induction false} AddFileTextsOutputs(refs: FileReferences, plugin: string, texts: seq<string>)
    requires IsInputPlugin(plugin)
    ensures AddFileTexts(refs, plugin, texts).outputs == refs.outputs
    decreases |texts|
  {
    if |texts| > 0 {
      AddFileTextsOutputs(refs, plugin, texts[..|texts| - 1]);
    }
  }

  /** An input tool files every non-blank `File` text among the inputs. */
  lemma {:induction false} AddFileTextsInputs(refs: FileReferences, plugin: string, texts: seq<string>)
    requires IsInputPlugin(plugin)
    ensures var r := AddFileTexts(refs, plugin, texts);
      forall k :: 0 <= k < |texts| && !IsBlank(texts[k]) ==> ContainsFold(r.inputs, texts[k])
    decreases |texts|
  {
    if |texts| > 0 {
      var n := |texts|;
      var before := AddFileTexts(refs, plugin, texts[..n - 1]);
      var r := AddFileTexts(refs, plugin, texts);
      AddFileTextsInputs(refs, plugin, texts[..n - 1]);
      AddFileReferenceGrows(before, plugin, texts[n - 1]);
      forall k | 0 <= k < n - 1 && !IsBlank(texts[k])
        ensures ContainsFold(r.inputs, texts[k])
      {
        assert texts[..n - 1][k] == texts[k];
        ContainsFoldPrefix(before.inputs, r.inputs, texts[k]);
      }
    }
  }

  /** `CollectFileReferences` keeps the lists distinct, only appends to them, and files a directory tool's folder among the inputs. */
  lemma FileReferencesKeep(refs: FileReferences, node: XElement, plugin: string)
    requires DistinctReferences(refs)
    ensures var r := FileReferencesOf(refs, node, plugin);
      DistinctReferences(r) && refs.inputs <= r.inputs && refs.outputs <= r.outputs
      && (IsDirectoryPlugin(plugin) && DirectoryReference(node).Some? ==> ContainsFold(r.inputs, DirectoryReference(node).value))
      && (!IsInputPlugin(plugin) && !IsOutputPlugin(plugin) && !IsDirectoryPlugin(plugin) ==> r == refs)
  {
    var afterFiles := AddFileTexts(refs, plugin, FileTexts(Descendants(node, Local("File"))));
    AddFileTextsKeeps(refs, plugin, FileTexts(Descendants(node, Local("File"))));
    if !IsInputPlugin(plugin) && !IsOutputPlugin(plugin) {
      AddFileTextsIgnored(refs, plugin, FileTexts(Descendants(node, Local("File"))));
    }
    var directory := DirectoryReference(node);
    if IsDirectoryPlugin(plugin) && directory.Some? {
      AddIfNotPresentKeepsDistinct(afterFiles.inputs, directory.value);
    }
  }

  /** `texts` holds the trimmed text of each `File` element. */
  predicate TextsOf(files: seq<XElement>, texts: seq<string>)
  {
    |texts| == |files|
    && forall k {:trigger Trim(Value(files[k]))} :: 0 <= k < |files| ==> texts[k] == Trim(Value(files[k]))
  }

  /** `FileTexts` holds each element's trimmed text at its position. */
  lemma FileTextsAre(files: seq<XElement>)
    ensures TextsOf(files, FileTexts(files))
  {
  }

  lemma AddFileTextsOneMore(refs: FileReferences, plugin: string, texts: seq<string>, i: nat)
    requires i < |texts|
    ensures AddFileTexts(refs, plugin, texts[..i + 1]) == AddFileReference(AddFileTexts(refs, plugin, texts[..i]), plugin, texts[i])
  {
    var prefix := texts[..i + 1];
    assert prefix[..i] == texts[..i];
    assert prefix[i] == texts[i];
  }

  /** The loop over the `File` elements: each non-blank text filed by the plugin kind. */
  method AddFileElements(plugin: string, fileElements: seq<XElement>, inputs: seq<string>, outputs: seq<string>,
                         ghost texts: seq<string>)
    returns (newInputs: seq<string>, newOutputs: seq<string>)
    requires TextsOf(fileElements, texts)
    ensures FileReferences(newInputs, newOutputs) == AddFileTexts(FileReferences(inputs, outputs), plugin, texts)
  {
    newInputs, newOutputs := inputs, outputs;
    for i := 0 to |fileElements|
      invariant FileReferences(newInputs, newOutputs)
        == AddFileTexts(FileReferences(inputs, outputs), plugin, texts[..i])
    {
      AddFileTextsOneMore(FileReferences(inputs, outputs), plugin, texts, i);
      var value := Trim(Value(fileElements[i]));
      if IsBlank(value) {
        continue;
      }
      if IsInputPlugin(plugin) {
        newInputs := AddIfNotPresent(newInputs, value);
      } else if IsOutputPlugin(plugin) {
        newOutputs := AddIfNotPresent(newOutputs, value);
      }
    }
    assert texts[..|texts|] == texts;
  }

  /** `CollectFileReferences`: the node's `File` elements one by one, then the directory. */
  method CollectFileReferences(node: XElement, plugin: string, inputs: seq<string>, outputs: seq<string>)
    returns (newInputs: seq<string>, newOutputs: seq<string>)
    ensures FileReferences(newInputs, newOutputs) == FileReferencesOf(FileReferences(inputs, outputs), node, plugin)
  {
    var fileElements := Descendants(node, Local("File"));
    FileTextsAre(fileElements);
    newInputs, newOutputs := AddFileElements(plugin, fileElements, inputs, outputs, FileTexts(fileElements));
    if IsDirectoryPlugin(plugin) {
      newInputs := AddDirectory(node, newInputs);
    }
  }

  /** A directory tool's folder, joined to its file pattern, added to the inputs when it is not blank. */
  method AddDirectory(node: XElement, inputs: seq<string>) returns (newInputs: seq<string>)
    ensures var directory := DirectoryReference(node);
      newInputs == if directory.Some? then AddIfNotPresent(inputs, directory.value) else inputs
  {
    var directoryPath := FirstNonBlankValue(Descendants(node, Local("Directory")));
    var fileSpec := FirstNonBlankValue(Descendants(node, Local("FileSpec")));
    newInputs := inputs;
    if !IsBlank(directoryPath) {
      var combined := if IsBlank(fileSpec) then directoryPath else directoryPath + "\\" + fileSpec;
      newInputs := AddIfNotPresent(newInputs, combined);
    }
  }

  // ---------------------------------------------------------------------
  // Formula and filter expressions
  // ---------------------------------------------------------------------

  datatype FormulaDetail = FormulaDetail(toolId: string, field: string, expression: string)
  datatype FilterDetail = FilterDetail(toolId: string, expression: string)

  /** What `NormalizeExpression` yields for a text that is not blank. */
  predicate IsNormalForm(expression: string)
  {
    expression != "" && IsTrimmed(expression) && NoLineBreak(expression)
  }

  /** A captured expression is normalized, not blank, and normalizing it again changes nothing. */
  lemma NormalFormStable(expression: Option<string>)
    requires !IsBlank(NormalizeExpression(expression))
    ensures IsNormalForm(NormalizeExpression(expression))
    ensures NormalizeExpression(Some(NormalizeExpression(expression))) == NormalizeExpression(expression)
  {
    NormalizedIsTrimmed(expression);
    NormalizedNoBreak(expression);
    NormalizeIdempotent(expression);
  }

  /** One `FormulaField`: its `field` (or ""), and its `expression` attribute (or its text) normalized; skipped when blank. */
  function FormulaDetailOf(toolId: string, formulaField: XElement): Option<FormulaDetail>
  {
    var expression := FormulaExpression(formulaField);
    if IsBlank(expression) then Option.None
    else Some(FormulaDetail(toolId, FormulaField(formulaField), expression))
  }

  /** A `FormulaField`'s `field` attribute, or "". */
  function FormulaField(formulaField: XElement): string
  {
    Attribute(formulaField, Local("field")).GetOr("")
  }

  /** The text a `FormulaField` holds: its `expression` attribute, or else its text, normalized. */
  function FormulaExpression(formulaField: XElement): string
  {
    NormalizeExpression(Some(FormulaSource(formulaField)))
  }

  function FormulaSource(formulaField: XElement): string
  {
    Attribute(formulaField, Local("expression")).GetOr(Value(formulaField))
  }

  /** A captured formula carries the tool's id and a normalized expression. */
  lemma FormulaDetailNormal(toolId: string, formulaField: XElement)
    ensures var r := FormulaDetailOf(toolId, formulaField);
      r.Some? ==> r.value.toolId == toolId && IsNormalForm(r.value.expression)
  {
    if !IsBlank(FormulaExpression(formulaField)) {
      NormalFormStable(Some(FormulaSource(formulaField)));
    }
  }

  /** What each formula field yields, in document order. */
  function FormulaFieldDetails(toolId: string, formulaFields: seq<XElement>): (r: seq<Option<FormulaDetail>>)
    ensures |r| == |formulaFields|
  {
    seq(|formulaFields|, k requires 0 <= k < |formulaFields| => FormulaDetailOf(toolId, formulaFields[k]))
  }

  /** The details the formula fields yield, in document order. */
  function FormulaDetailsFrom(toolId: string, formulaFields: seq<XElement>): seq<FormulaDetail>
  {
    Present(FormulaFieldDetails(toolId, formulaFields))
  }

  /** At most one detail per field, each with the tool's id and a normalized expression. */
  lemma FormulaDetailsFromShape(toolId: string, formulaFields: seq<XElement>)
    ensures var r := FormulaDetailsFrom(toolId, formulaFields);
      |r| <= |formulaFields| && forall k :: 0 <= k < |r| ==> r[k].toolId == toolId && IsNormalForm(r[k].expression)
  {
    var options := FormulaFieldDetails(toolId, formulaFields);
    var r := Present(options);
    PresentFrom(options);
    forall k | 0 <= k < |r|
      ensures r[k].toolId == toolId && IsNormalForm(r[k].expression)
    {
      var j :| 0 <= j < |options| && options[j] == Some(r[k]);
      FormulaDetailNormal(toolId, formulaFields[j]);
    }
  }

  /** `CollectFormulaDetails`: the expressions of a formula tool's `FormulaField` elements; nothing for other tools. */
  function FormulaDetailsOf(node: XElement, plugin: string, toolId: string): seq<FormulaDetail>
  {
    if IsFormulaPlugin(plugin) then FormulaDetailsFrom(toolId, Descendants(node, Local("FormulaField"))) else []
  }

  /** `details` says what each formula field yields. */
  predicate DetailsOf(toolId: string, formulaFields: seq<XElement>, details: seq<Option<FormulaDetail>>)
  {
    |details| == |formulaFields|
    && forall k {:trigger FormulaDetailOf(toolId, formulaFields[k])} :: 0 <= k < |formulaFields| ==> details[k] == FormulaDetailOf(toolId, formulaFields[k])
  }

  /** The body of the `foreach` for the `i`-th formula field: its field name and normalized expression, or nothing when the expression is blank. */
  method ReadFormulaField(toolId: string, formulaFields: seq<XElement>, i: nat, ghost details: seq<Option<FormulaDetail>>)
    returns (detail: Option<FormulaDetail>)
    requires i < |formulaFields| && DetailsOf(toolId, formulaFields, details)
    ensures detail == details[i]
  {
    var formulaField := formulaFields[i];
    var field := Attribute(formulaField, Local("field")).GetOr("");
    var expression := Attribute(formulaField, Local("expression")).GetOr(Value(formulaField));
    expression := NormalizeExpression(Some(expression));
    assert details[i] == FormulaDetailOf(toolId, formulaField);
    if IsBlank(expression) {
      return Option.None;
    }
    return Some(FormulaDetail(toolId, field, expression));
  }

  method CollectFormulaDetails(node: XElement, plugin: string, toolId: string, buffer: seq<FormulaDetail>)
    returns (newBuffer: seq<FormulaDetail>)
    ensures newBuffer == buffer + FormulaDetailsOf(node, plugin, toolId)
  {
    newBuffer := buffer;
    if !IsFormulaPlugin(plugin) {
      return;
    }
    var formulaFields := Descendants(node, Local("FormulaField"));
    if |formulaFields| == 0 {
      assert FormulaFieldDetails(toolId, formulaFields) == [];
      return;
    }
    newBuffer := AddFormulaDetails(toolId, formulaFields, buffer, FormulaFieldDetails(toolId, formulaFields));
  }

  /** The `foreach` over the formula fields: each one's detail appended to the buffer unless its expression is blank. */
  method AddFormulaDetails(toolId: string, formulaFields: seq<XElement>, buffer: seq<FormulaDetail>,
                           ghost details: seq<Option<FormulaDetail>>)
    returns (newBuffer: seq<FormulaDetail>)
    requires DetailsOf(toolId, formulaFields, details)
    ensures newBuffer == buffer + Present(details)
  {
    newBuffer := buffer;
    for i := 0 to |formulaFields|
      invariant newBuffer == buffer + Present(details[..i])
    {
      var detail := ReadFormulaField(toolId, formulaFields, i, details);
      PresentOneMore(details, i);
      if detail.None? {
        continue;
      }
      newBuffer := newBuffer + [detail.value];
    }
    assert details[..|details|] == details;
  }

  /** `CollectFilterDetails`: a filter tool's first `Expression` text, normalized, unless blank. */
  function FilterDetailOf(node: XElement, plugin: string, toolId: string): Option<FilterDetail>
  {
    if !IsFilterPlugin(plugin) then Option.None
    else
      var expressions := Descendants(node, Local("Expression"));
      var source := if |expressions| > 0 then Some(Value(expressions[0])) else Option.None;
      var expression := NormalizeExpression(source);
      if IsBlank(expression) then Option.None
      else Some(FilterDetail(toolId, expression))
  }

  /** Only a filter tool yields a detail, and it carries the tool's id and a normalized expression. */
  lemma FilterDetailNormal(node: XElement, plugin: string, toolId: string)
    ensures var r := FilterDetailOf(node, plugin, toolId);
      r.Some? ==> IsFilterPlugin(plugin) && r.value.toolId == toolId && IsNormalForm(r.value.expression)
  {
    if IsFilterPlugin(plugin) {
      var expressions := Descendants(node, Local("Expression"));
      var source := if |expressions| > 0 then Some(Value(expressions[0])) else Option.None;
      if !IsBlank(NormalizeExpression(source)) {
        NormalFormStable(source);
      }
    }
  }

  // ---------------------------------------------------------------------
  // Tool counts
  // ---------------------------------------------------------------------

  /** The counts as the case-insensitive dictionary compares their keys. */
  function FoldKeys(counts: seq<C.Entry<string>>): (r: seq<C.Entry<string>>)
    ensures |r| == |counts|
    ensures forall i :: 0 <= i < |counts| ==> r[i].key == Fold(counts[i].key) && r[i].count == counts[i].count
  {
    seq(|counts|, i requires 0 <= i < |counts| => C.Entry(Fold(counts[i].key), counts[i].count))
  }

  /**
   * `Increment` on the case-insensitive dictionary: a key already present
   * in some case keeps the spelling it was added with and counts one more;
   * a new key is added with count one.
   */
  function Increment(counts: seq<C.Entry<string>>, key: string): seq<C.Entry<string>>
  {
    var i := C.FindKey(FoldKeys(counts), Fold(key));
    if i.Some? then counts[i.value := C.Entry(counts[i.value].key, counts[i.value].count + 1)]
    else counts + [C.Entry(key, 1)]
  }

  /** Folding the keys turns the case-insensitive dictionary into the ordinal one over folded keys. */
  lemma IncrementFolded(counts: seq<C.Entry<string>>, key: string)
    ensures FoldKeys(Increment(counts, key)) == C.Increment(FoldKeys(counts), Fold(key))
  {
    var i := C.FindKey(FoldKeys(counts), Fold(key));
    var left := FoldKeys(Increment(counts, key));
    var right := C.Increment(FoldKeys(counts), Fold(key));
    assert |left| == |right|;
    assert forall k :: 0 <= k < |left| ==> left[k] == right[k];
  }

  lemma {:induction false} TotalFoldKeys(counts: seq<C.Entry<string>>)
    ensures C.Total(FoldKeys(counts)) == C.Total(counts)
    decreases |counts|
  {
    if |counts| > 0 {
      var n := |counts|;
      assert FoldKeys(counts)[..n - 1] == FoldKeys(counts[..n - 1]);
      TotalFoldKeys(counts[..n - 1]);
    }
  }

  /**
   * Counting a plugin keeps the keys distinct ignoring case, adds one to
   * the count of that plugin (in any case) and to no other, adds one to the
   * total, keeps every key's first spelling and appends a new key at the
   * end.
   */
  lemma IncrementCounts(counts: seq<C.Entry<string>>, key: string)
    requires C.DistinctKeys(FoldKeys(counts))
    ensures var r := Increment(counts, key);
      C.DistinctKeys(FoldKeys(r)) && C.Total(r) == C.Total(counts) + 1
      && |r| >= |counts| && (forall i :: 0 <= i < |counts| ==> r[i].key == counts[i].key)
      && (|r| > |counts| ==> r == counts + [C.Entry(key, 1)])
    ensures forall other ::
      C.Lookup(FoldKeys(Increment(counts, key)), Fold(other)) == C.Lookup(FoldKeys(counts), Fold(other)) + (if Fold(other) == Fold(key) then 1 else 0)
  {
    IncrementFolded(counts, key);
    C.IncrementCounts(FoldKeys(counts), Fold(key));
    TotalFoldKeys(counts);
    TotalFoldKeys(Increment(counts, key));
  }

  // ---------------------------------------------------------------------
  // All nodes
  // ---------------------------------------------------------------------

  /** What the node loop has gathered. */
  datatype Tally = Tally(
    nodes: nat,
    toolCounts: seq<C.Entry<string>>,
    containers: nat,
    disabled: nat,
    macros: seq<string>,
    files: FileReferences,
    formulas: seq<FormulaDetail>,
    filters: seq<FilterDetail>)

  const NoNodes := Tally(0, [], 0, 0, [], FileReferences([], []), [], [])

  /** One pass of the node loop. */
  function CountNode(t: Tally, node: XElement): Tally
  {
    var plugin := Plugin(node);
    var toolId := ToolId(node);
    Tally(
      t.nodes + 1,
      Increment(t.toolCounts, plugin),
      t.containers + (if IsContainerPlugin(plugin) then 1 else 0),
      t.disabled + (if IsDisabled(node) then 1 else 0),
      t.macros + Listed(MacroOf(node)),
      FileReferencesOf(t.files, node, plugin),
      t.formulas + FormulaDetailsOf(node, plugin, toolId),
      t.filters + Listed(FilterDetailOf(node, plugin, toolId)))
  }

  /** The node loop over `nodes`, in document order. */
  function TallyOf(nodes: seq<XElement>): Tally
    decreases |nodes|
  {
    if |nodes| == 0 then NoNodes else CountNode(TallyOf(nodes[..|nodes| - 1]), nodes[|nodes| - 1])
  }

  /** Every `Node` element below the root's `Nodes` element, nested ones included. */
  function WorkflowNodes(root: XElement): seq<XElement>
  {
    var nodesElement := Element(root, Local("Nodes"));
    if nodesElement.Some? then Descendants(nodesElement.value, Local("Node")) else []
  }

  /** Every text is trimmed and not empty. */
  predicate AllTrimmed(texts: seq<string>)
  {
    forall k :: 0 <= k < |texts| ==> texts[k] != "" && IsTrimmed(texts[k])
  }

  predicate FormulasNormal(details: seq<FormulaDetail>)
  {
    forall k :: 0 <= k < |details| ==> IsNormalForm(details[k].expression)
  }

  predicate FiltersNormal(details: seq<FilterDetail>)
  {
    forall k :: 0 <= k < |details| ==> IsNormalForm(details[k].expression)
  }

  /**
   * What the loop keeps true: the tool counts have distinct keys ignoring
   * case and add up to the node count, the file references are distinct,
   * and every macro path and captured expression is trimmed and not empty.
   */
  ghost predicate Consistent(t: Tally)
  {
    C.DistinctKeys(FoldKeys(t.toolCounts)) && C.Total(t.toolCounts) == t.nodes
    && DistinctReferences(t.files) && AllTrimmed(t.macros)
    && FormulasNormal(t.formulas) && FiltersNormal(t.filters)
  }

  lemma AllTrimmedAppend(a: seq<string>, b: seq<string>)
    requires AllTrimmed(a) && AllTrimmed(b)
    ensures AllTrimmed(a + b)
  {
    assert forall k :: |a| <= k < |a + b| ==> (a + b)[k] == b[k - |a|];
  }

  lemma FormulasNormalAppend(a: seq<FormulaDetail>, b: seq<FormulaDetail>)
    requires FormulasNormal(a) && FormulasNormal(b)
    ensures FormulasNormal(a + b)
  {
    assert forall k :: |a| <= k < |a + b| ==> (a + b)[k] == b[k - |a|];
  }

  lemma FiltersNormalAppend(a: seq<FilterDetail>, b: seq<FilterDetail>)
    requires FiltersNormal(a) && FiltersNormal(b)
    ensures FiltersNormal(a + b)
  {
    assert forall k :: |a| <= k < |a + b| ==> (a + b)[k] == b[k - |a|];
  }

  lemma CountNodeConsistent(t: Tally, node: XElement)
    requires Consistent(t)
    ensures Consistent(CountNode(t, node))
  {
    CountNodeToolCounts(t, node);
    CountNodeFiles(t, node);
    CountNodeMacros(t, node);
    CountNodeFormulas(t, node);
    CountNodeFilters(t, node);
  }

  lemma CountNodeToolCounts(t: Tally, node: XElement)
    requires C.DistinctKeys(FoldKeys(t.toolCounts)) && C.Total(t.toolCounts) == t.nodes
    ensures var r := CountNode(t, node);
      C.DistinctKeys(FoldKeys(r.toolCounts)) && C.Total(r.toolCounts) == r.nodes
  {
    IncrementCounts(t.toolCounts, Plugin(node));
  }

  lemma CountNodeFiles(t: Tally, node: XElement)
    requires DistinctReferences(t.files)
    ensures DistinctReferences(CountNode(t, node).files)
  {
    FileReferencesKeep(t.files, node, Plugin(node));
  }

  lemma CountNodeMacros(t: Tally, node: XElement)
    requires AllTrimmed(t.macros)
    ensures AllTrimmed(CountNode(t, node).macros)
  {
    AllTrimmedAppend(t.macros, Listed(MacroOf(node)));
  }

  lemma CountNodeFormulas(t: Tally, node: XElement)
    requires FormulasNormal(t.formulas)
    ensures FormulasNormal(CountNode(t, node).formulas)
  {
    FormulasOfNodeNormal(t.formulas, node);
  }

  lemma CountNodeFilters(t: Tally, node: XElement)
    requires FiltersNormal(t.filters)
    ensures FiltersNormal(CountNode(t, node).filters)
  {
    FiltersOfNodeNormal(t.filters, node);
  }


  lemma FormulasOfNodeNormal(formulas: seq<FormulaDetail>, node: XElement)
    requires FormulasNormal(formulas)
    ensures FormulasNormal(formulas + FormulaDetailsOf(node, Plugin(node), ToolId(node)))
  {
    if IsFormulaPlugin(Plugin(node)) {
      FormulaDetailsFromShape(ToolId(node), Descendants(node, Local("FormulaField")));
    }
    FormulasNormalAppend(formulas, FormulaDetailsOf(node, Plugin(node), ToolId(node)));
  }

  lemma FiltersOfNodeNormal(filters: seq<FilterDetail>, node: XElement)
    requires FiltersNormal(filters)
    ensures FiltersNormal(filters + Listed(FilterDetailOf(node, Plugin(node), ToolId(node))))
  {
    FilterDetailNormal(node, Plugin(node), ToolId(node));
    FiltersNormalAppend(filters, Listed(FilterDetailOf(node, Plugin(node), ToolId(node))));
  }

  /** The node-loop invariant holds at the end; the loop visits every node once. */
  lemma {:induction false} TallyConsistent(nodes: seq<XElement>)
    ensures Consistent(TallyOf(nodes)) && TallyOf(nodes).nodes == |nodes|
    decreases |nodes|
  {
    if |nodes| > 0 {
      TallyConsistent(nodes[..|nodes| - 1]);
      CountNodeConsistent(TallyOf(nodes[..|nodes| - 1]), nodes[|nodes| - 1]);
    }
  }

  /** 1 for a node whose plugin is `name` ignoring case. */
  function WithPlugin(name: string): XElement -> nat
  {
    (node: XElement) => if Fold(Plugin(node)) == Fold(name) then 1 else 0
  }

  /** The count stored for a plugin, in any case, is the number of nodes using it. */
  lemma {:induction false} TallyToolCounts(nodes: seq<XElement>)
    ensures var t := TallyOf(nodes);
      forall name :: C.Lookup(FoldKeys(t.toolCounts), Fold(name)) == SumOf(nodes, WithPlugin(name))
    decreases |nodes|
  {
    if |nodes| > 0 {
      var n := |nodes|;
      var before := TallyOf(nodes[..n - 1]);
      var after := TallyOf(nodes);
      var plugin := Plugin(nodes[n - 1]);
      TallyToolCounts(nodes[..n - 1]);
      TallyConsistent(nodes[..n - 1]);
      assert after.toolCounts == Increment(before.toolCounts, plugin);
      IncrementCounts(before.toolCounts, plugin);
      forall name
        ensures C.Lookup(FoldKeys(after.toolCounts), Fold(name)) == SumOf(nodes, WithPlugin(name))
      {
        assert SumOf(nodes, WithPlugin(name)) == SumOf(nodes[..n - 1], WithPlugin(name)) + WithPlugin(name)(nodes[n - 1]);
      }
    }
  }

  /** 1 for a node of a container tool. */
  function ContainerFlag(node: XElement): nat
  {
    if IsContainerPlugin(Plugin(node)) then 1 else 0
  }

  /** 1 for a disabled node. */
  function DisabledFlag(node: XElement): nat
  {
    if IsDisabled(node) then 1 else 0
  }

  /** The container count counts the nodes of a container tool. */
  lemma {:induction false} TallyContainers(nodes: seq<XElement>)
    ensures TallyOf(nodes).containers == SumOf(nodes, ContainerFlag)
    decreases |nodes|
  {
    if |nodes| > 0 {
      TallyContainers(nodes[..|nodes| - 1]);
    }
  }

  /** The disabled count counts the disabled nodes. */
  lemma {:induction false} TallyDisabled(nodes: seq<XElement>)
    ensures TallyOf(nodes).disabled == SumOf(nodes, DisabledFlag)
    decreases |nodes|
  {
    if |nodes| > 0 {
      TallyDisabled(nodes[..|nodes| - 1]);
    }
  }

  // ---------------------------------------------------------------------
  // `Distinct` and `HashSet.Add` with `StringComparer.OrdinalIgnoreCase`
  // ---------------------------------------------------------------------

  /** The folded keys of the items. */
  function FoldedKeys<T>(items: seq<T>, key: T -> string): set<string>
  {
    set i | 0 <= i < |items| :: Fold(key(items[i]))
  }

  /** Each item whose key, ignoring case, no earlier item had, in order. */
  function KeepFirst<T>(items: seq<T>, key: T -> string): seq<T>
    decreases |items|
  {
    if |items| == 0 then []
    else
      var n := |items|;
      var kept := KeepFirst(items[..n - 1], key);
      if Fold(key(items[n - 1])) in FoldedKeys(items[..n - 1], key) then kept else kept + [items[n - 1]]
  }

  lemma FoldedKeysSnoc<T>(items: seq<T>, x: T, key: T -> string)
    ensures FoldedKeys(items + [x], key) == FoldedKeys(items, key) + {Fold(key(x))}
  {
    var longer := items + [x];
    assert forall i :: 0 <= i < |items| ==> longer[i] == items[i];
    assert longer[|items|] == x;
  }

  /** One more item is kept exactly when its key is new. */
  lemma KeepFirstStep<T>(items: seq<T>, i: nat, key: T -> string)
    requires i < |items|
    ensures KeepFirst(items[..i + 1], key)
      == if Fold(key(items[i])) in FoldedKeys(items[..i], key) then KeepFirst(items[..i], key)
        else KeepFirst(items[..i], key) + [items[i]]
  {
    var prefix := items[..i + 1];
    assert prefix[..i] == items[..i];
    assert prefix[i] == items[i];
  }

  lemma FoldedKeysOneMore<T>(items: seq<T>, i: nat, key: T -> string)
    requires i < |items|
    ensures FoldedKeys(items[..i + 1], key) == FoldedKeys(items[..i], key) + {Fold(key(items[i]))}
  {
    assert items[..i + 1] == items[..i] + [items[i]];
    FoldedKeysSnoc(items[..i], items[i], key);
  }

  /**
   * The kept items have pairwise distinct keys ignoring case, cover every
   * key of the input, and are items of the input.
   */
  lemma {:induction false} KeepFirstShape<T>(items: seq<T>, key: T -> string)
    ensures var r := KeepFirst(items, key);
      FoldedKeys(r, key) == FoldedKeys(items, key)
      && (forall i, j :: 0 <= i < j < |r| ==> Fold(key(r[i])) != Fold(key(r[j])))
      && (forall i :: 0 <= i < |r| ==> r[i] in items)
    decreases |items|
  {
    if |items| > 0 {
      var n := |items|;
      var prefix := items[..n - 1];
      var x := items[n - 1];
      var kept := KeepFirst(prefix, key);
      KeepFirstShape(prefix, key);
      assert items == prefix + [x];
      FoldedKeysSnoc(prefix, x, key);
      assert forall i :: 0 <= i < |kept| ==> kept[i] in items by {
        assert forall y :: y in prefix ==> y in items;
      }
      if Fold(key(x)) !in FoldedKeys(prefix, key) {
        FoldedKeysSnoc(kept, x, key);
        var r := kept + [x];
        forall i, j | 0 <= i < j < |r|
          ensures Fold(key(r[i])) != Fold(key(r[j]))
        {
          if j == |kept| {
            assert Fold(key(kept[i])) in FoldedKeys(kept, key);
          }
        }
      }
    }
  }

  /** An item is kept only if no earlier item has its key ignoring case. */
  lemma {:induction false} KeepFirstIsFirst<T>(items: seq<T>, key: T -> string)
    ensures var r := KeepFirst(items, key);
      forall i :: 0 <= i < |r| ==>
        exists k :: 0 <= k < |items| && items[k] == r[i] && Fold(key(items[k])) !in FoldedKeys(items[..k], key)
    decreases |items|
  {
    if |items| > 0 {
      var n := |items|;
      var prefix := items[..n - 1];
      var kept := KeepFirst(prefix, key);
      KeepFirstIsFirst(prefix, key);
      var r := KeepFirst(items, key);
      forall i | 0 <= i < |r|
        ensures exists k :: 0 <= k < |items| && items[k] == r[i] && Fold(key(items[k])) !in FoldedKeys(items[..k], key)
      {
        if i < |kept| {
          assert r[i] == kept[i];
          assert 0 <= i < |KeepFirst(prefix, key)|;
          var k :| 0 <= k < |prefix| && prefix[k] == kept[i] && Fold(key(prefix[k])) !in FoldedKeys(prefix[..k], key);
          assert items[..k] == prefix[..k];
          assert items[k] == r[i];
        } else {
          assert items[..n - 1] == prefix;
          assert items[n - 1] == r[i];
        }
      }
    }
  }

  /** Taking the last element off one of two permutations and the same element off the other leaves permutations. */
  lemma RemoveSame<T>(a: seq<T>, b: seq<T>, k: nat)
    requires |a| > 0 && multiset(a) == multiset(b) && k < |b| && b[k] == a[|a| - 1]
    ensures multiset(a[..|a| - 1]) == multiset(b[..k] + b[k + 1..])
  {
    var x := b[k];
    var shorter := multiset(a[..|a| - 1]);
    var rest := multiset(b[..k] + b[k + 1..]);
    assert a == a[..|a| - 1] + [x];
    assert b == b[..k] + [x] + b[k + 1..];
    assert shorter + multiset{x} == rest + multiset{x};
    assert forall y :: shorter[y] == (shorter + multiset{x})[y] - (if y == x then 1 else 0);
    assert forall y :: rest[y] == (rest + multiset{x})[y] - (if y == x then 1 else 0);
    assert forall y :: shorter[y] == rest[y];
  }

  /** Reordering items whose keys are pairwise distinct ignoring case leaves them pairwise distinct. */
  lemma {:induction false} DistinctUnderPermutation<T>(a: seq<T>, b: seq<T>, key: T -> string)
    requires multiset(a) == multiset(b)
    requires forall i, j :: 0 <= i < j < |b| ==> Fold(key(b[i])) != Fold(key(b[j]))
    ensures forall i, j :: 0 <= i < j < |a| ==> Fold(key(a[i])) != Fold(key(a[j]))
    decreases |a|
  {
    if |a| > 0 {
      var n := |a|;
      var x := a[n - 1];
      assert x in multiset(b) by {
        assert x in multiset(a);
      }
      var k :| 0 <= k < |b| && b[k] == x;
      var rest := b[..k] + b[k + 1..];
      RemoveSame(a, b, k);
      WithoutOneDistinct(b, k, key);
      DistinctUnderPermutation(a[..n - 1], rest, key);
      forall i | 0 <= i < n - 1
        ensures Fold(key(a[i])) != Fold(key(x))
      {
        assert a[i] in multiset(rest) by {
          assert a[i] == a[..n - 1][i];
        }
        OthersDiffer(b, k, key, a[i]);
      }
      forall i, j | 0 <= i < j < n
        ensures Fold(key(a[i])) != Fold(key(a[j]))
      {
        if j < n - 1 {
          assert a[i] == a[..n - 1][i] && a[j] == a[..n - 1][j];
        }
      }
    }
  }

  /** Dropping one item keeps the keys distinct. */
  lemma WithoutOneDistinct<T>(b: seq<T>, k: nat, key: T -> string)
    requires k < |b|
    requires forall i, j :: 0 <= i < j < |b| ==> Fold(key(b[i])) != Fold(key(b[j]))
    ensures var rest := b[..k] + b[k + 1..];
      forall i, j :: 0 <= i < j < |rest| ==> Fold(key(rest[i])) != Fold(key(rest[j]))
  {
    var rest := b[..k] + b[k + 1..];
    assert forall i :: 0 <= i < |rest| ==> rest[i] == if i < k then b[i] else b[i + 1];
  }

  /** Any item other than the one dropped has a different key from it. */
  lemma OthersDiffer<T>(b: seq<T>, k: nat, key: T -> string, y: T)
    requires k < |b|
    requires forall i, j :: 0 <= i < j < |b| ==> Fold(key(b[i])) != Fold(key(b[j]))
    requires y in multiset(b[..k] + b[k + 1..])
    ensures Fold(key(y)) != Fold(key(b[k]))
  {
    var rest := b[..k] + b[k + 1..];
    var m :| 0 <= m < |rest| && rest[m] == y;
    if m < k {
      assert rest[m] == b[m];
    } else {
      assert rest[m] == b[m + 1];
    }
  }

  // ---------------------------------------------------------------------
  // `AppendList`
  // ---------------------------------------------------------------------

  function SameText(s: string): string
  {
    s
  }

  /** The UTF-16 code units of the upper-cased text: `StringComparer.OrdinalIgnoreCase` ordering. */
  function TextKey(s: string): seq<int>
  {
    Codes(Fold(s))
  }

  /** `items.Distinct(OrdinalIgnoreCase).OrderBy(value => value, OrdinalIgnoreCase)`. */
  function ListItems(items: seq<string>): seq<string>
  {
    SortBy(KeepFirst(items, SameText), TextKey)
  }

  /** One list line: the item indented as a bullet. */
  function Bullet(item: string): string
  {
    "  - " + item
  }

  function Bullets(items: seq<string>): (r: seq<string>)
    ensures |r| == |items|
    decreases |items|
  {
    if |items| == 0 then [] else Bullets(items[..|items| - 1]) + [Bullet(items[|items| - 1])]
  }

  lemma BulletsOneMore(items: seq<string>, i: nat)
    requires i < |items|
    ensures Bullets(items[..i + 1]) == Bullets(items[..i]) + [Bullet(items[i])]
  {
    var prefix := items[..i + 1];
    assert prefix[..i] == items[..i];
    assert prefix[i] == items[i];
  }

  /** `AppendList`: nothing for an empty list, else a blank line, the header and one bullet per distinct item. */
  function ListLines(header: string, items: seq<string>): seq<string>
  {
    if |items| == 0 then [] else ["", header] + Bullets(ListItems(items))
  }

  /** Every listed item occurs in the input list, and listing holds exactly the first-kept items. */
  lemma ListItemsFromInput(items: seq<string>)
    ensures var shown := ListItems(items);
      multiset(shown) == multiset(KeepFirst(items, SameText))
      && forall i :: 0 <= i < |shown| ==> shown[i] in items
  {
    var kept := KeepFirst(items, SameText);
    var shown := ListItems(items);
    KeepFirstShape(items, SameText);
    SortBySorts(kept, TextKey);
    forall i | 0 <= i < |shown|
      ensures shown[i] in items
    {
      assert shown[i] in multiset(kept);
    }
  }

  /** The listed items are distinct ignoring case. */
  lemma ListItemsDistinct(items: seq<string>)
    ensures DistinctFold(ListItems(items))
  {
    var kept := KeepFirst(items, SameText);
    KeepFirstShape(items, SameText);
    SortBySorts(kept, TextKey);
    DistinctUnderPermutation(ListItems(items), kept, SameText);
  }

  /** The listed items are in ordinal order ignoring case. */
  lemma ListItemsOrdered(items: seq<string>)
    ensures var shown := ListItems(items);
      forall i, j :: 0 <= i < j < |shown| ==> LexLe(Codes(Fold(shown[i])), Codes(Fold(shown[j])))
  {
    SortBySorts(KeepFirst(items, SameText), TextKey);
  }

  /** Every input item is listed in some case. */
  lemma ListItemsCover(items: seq<string>)
    ensures Covers(ListItems(items), items)
  {
    var kept := KeepFirst(items, SameText);
    var shown := ListItems(items);
    KeepFirstShape(items, SameText);
    SortBySorts(kept, TextKey);
    forall i | 0 <= i < |items|
      ensures ContainsFold(shown, items[i])
    {
      assert Fold(SameText(items[i])) in FoldedKeys(items, SameText);
      var a :| 0 <= a < |kept| && Fold(SameText(kept[a])) == Fold(SameText(items[i]));
      assert kept[a] in multiset(shown);
      var m :| 0 <= m < |shown| && shown[m] == kept[a];
    }
  }

  /** `AppendList` on the lines written so far. */
  method AppendList(lines: seq<string>, header: string, items: seq<string>) returns (r: seq<string>)
    ensures r == lines + ListLines(header, items)
  {
    r := lines;
    if |items| == 0 {
      return;
    }
    var distinct := ListItems(items);
    r := r + ["", header];
    ghost var start := r;
    for i := 0 to |distinct|
      invariant r == start + Bullets(distinct[..i])
    {
      ghost var before := r;
      r := r + [Bullet(distinct[i])];
      assert r == start + Bullets(distinct[..i + 1]) by {
        BulletsOneMore(distinct, i);
        assert r == before + [Bullet(distinct[i])];
      }
    }
    assert r == start + Bullets(distinct) by {
      assert distinct[..|distinct|] == distinct;
    }
    assert ListLines(header, items) == ["", header] + Bullets(distinct);
  }

  // ---------------------------------------------------------------------
  // Tables
  // ---------------------------------------------------------------------

  /** `OrderByDescending(count).ThenBy(key, OrdinalIgnoreCase)` as one key: the negated count, then the folded name. */
  function ToolKey(e: C.Entry<string>): seq<int>
  {
    [-(e.count as int)] + TextKey(e.key)
  }

  function EntryKey(e: C.Entry<string>): string
  {
    e.key
  }

  /** One row per tool: its name as first added and its count. */
  function ToolRows(tools: seq<C.Entry<string>>): (rows: seq<seq<string>>)
    ensures |rows| == |tools|
    ensures forall i :: 0 <= i < |tools| ==> rows[i] == [tools[i].key, NatToString(tools[i].count)]
  {
    seq(|tools|, i requires 0 <= i < |tools| => [tools[i].key, NatToString(tools[i].count)])
  }

  function ToolTable(toolCounts: seq<C.Entry<string>>): TableSummary
  {
    TableSummary("Tool Usage", ["Tool", "Count"], ToolRows(SortBy(toolCounts, ToolKey)), false)
  }

  /**
   * The tool rows hold every counted tool once: most used first, ties in
   * ordinal order ignoring case, and no two names equal ignoring case.
   */
  lemma ToolUsageOrdered(toolCounts: seq<C.Entry<string>>)
    requires C.DistinctKeys(FoldKeys(toolCounts))
    ensures var sorted := SortBy(toolCounts, ToolKey);
      multiset(sorted) == multiset(toolCounts)
      && (forall i, j :: 0 <= i < j < |sorted| ==>
            sorted[i].count > sorted[j].count
            || (sorted[i].count == sorted[j].count && LexLe(TextKey(sorted[i].key), TextKey(sorted[j].key))))
      && (forall i, j :: 0 <= i < j < |sorted| ==> Fold(sorted[i].key) != Fold(sorted[j].key))
  {
    var sorted := SortBy(toolCounts, ToolKey);
    SortBySorts(toolCounts, ToolKey);
    forall i, j | 0 <= i < j < |sorted|
      ensures sorted[i].count > sorted[j].count
        || (sorted[i].count == sorted[j].count && LexLe(TextKey(sorted[i].key), TextKey(sorted[j].key)))
    {
      LexCons(-(sorted[i].count as int), TextKey(sorted[i].key), -(sorted[j].count as int), TextKey(sorted[j].key));
    }
    assert forall i, j :: 0 <= i < j < |toolCounts| ==> Fold(EntryKey(toolCounts[i])) != Fold(EntryKey(toolCounts[j])) by {
      assert forall i :: 0 <= i < |toolCounts| ==> FoldKeys(toolCounts)[i].key == Fold(EntryKey(toolCounts[i]));
    }
    DistinctUnderPermutation(sorted, toolCounts, EntryKey);
  }

  /** The key the formula rows are told apart by: "toolId|field|expression", compared ignoring case. */
  function FormulaKey(d: FormulaDetail): string
  {
    d.toolId + "|" + d.field + "|" + d.expression
  }

  function FilterKey(d: FilterDetail): string
  {
    d.toolId + "|" + d.expression
  }

  /** A formula row: a blank field shows as "(Unnamed)". */
  function FormulaRow(d: FormulaDetail): seq<string>
  {
    [d.toolId, if IsBlank(d.field) then "(Unnamed)" else d.field, d.expression]
  }

  function FormulaRows(details: seq<FormulaDetail>): (rows: seq<seq<string>>)
    ensures |rows| == |details|
    decreases |details|
  {
    if |details| == 0 then [] else FormulaRows(details[..|details| - 1]) + [FormulaRow(details[|details| - 1])]
  }
  lemma FormulaRowsSnoc(details: seq<FormulaDetail>, d: FormulaDetail)
    ensures FormulaRows(details + [d]) == FormulaRows(details) + [FormulaRow(d)]
  {
    assert (details + [d])[..|details|] == details;
  }


  function FilterRows(details: seq<FilterDetail>): (rows: seq<seq<string>>)
    ensures |rows| == |details|
    decreases |details|
  {
    if |details| == 0 then []
    else
      var d := details[|details| - 1];
      FilterRows(details[..|details| - 1]) + [[d.toolId, d.expression]]
  }
  lemma FilterRowsSnoc(details: seq<FilterDetail>, d: FilterDetail)
    ensures FilterRows(details + [d]) == FilterRows(details) + [[d.toolId, d.expression]]
  {
    assert (details + [d])[..|details|] == details;
  }


  /** The formula table's rows: the first detail of each key ignoring case, in capture order. */
  function DistinctFormulaRows(formulas: seq<FormulaDetail>): seq<seq<string>>
  {
    FormulaRows(KeepFirst(formulas, FormulaKey))
  }

  function DistinctFilterRows(filters: seq<FilterDetail>): seq<seq<string>>
  {
    FilterRows(KeepFirst(filters, FilterKey))
  }

  /** The de-duplicating loop over the formula details, with its `HashSet` of keys. */
  method CollectFormulaRows(formulas: seq<FormulaDetail>) returns (distinct: seq<seq<string>>)
    ensures distinct == DistinctFormulaRows(formulas)
  {
    distinct := [];
    var seen: set<string> := {};
    for i := 0 to |formulas|
      invariant seen == FoldedKeys(formulas[..i], FormulaKey)
      invariant distinct == FormulaRows(KeepFirst(formulas[..i], FormulaKey))
    {
      var item := formulas[i];
      FoldedKeysOneMore(formulas, i, FormulaKey);
      KeepFirstStep(formulas, i, FormulaKey);
      var key := FormulaKey(item);
      if Fold(key) !in seen {
        seen := seen + {Fold(key)};
        FormulaRowsSnoc(KeepFirst(formulas[..i], FormulaKey), item);
        distinct := distinct + [FormulaRow(item)];
      } else {
        seen := seen + {Fold(key)};
      }
    }
    assert formulas[..|formulas|] == formulas;
  }

  method CollectFilterRows(filters: seq<FilterDetail>) returns (distinct: seq<seq<string>>)
    ensures distinct == DistinctFilterRows(filters)
  {
    distinct := [];
    var seen: set<string> := {};
    for i := 0 to |filters|
      invariant seen == FoldedKeys(filters[..i], FilterKey)
      invariant distinct == FilterRows(KeepFirst(filters[..i], FilterKey))
    {
      var item := filters[i];
      FoldedKeysOneMore(filters, i, FilterKey);
      KeepFirstStep(filters, i, FilterKey);
      var key := FilterKey(item);
      if Fold(key) !in seen {
        seen := seen + {Fold(key)};
        FilterRowsSnoc(KeepFirst(filters[..i], FilterKey), item);
        distinct := distinct + [[item.toolId, item.expression]];
      } else {
        seen := seen + {Fold(key)};
      }
    }
    assert filters[..|filters|] == filters;
  }

  /** The tables: tool usage when any node was counted, then the formula and filter expressions when any were captured. */
  function TablesOf(t: Tally): seq<TableSummary>
  {
    (if |t.toolCounts| > 0 then [ToolTable(t.toolCounts)] else [])
    + (if |t.formulas| > 0 then
         [TableSummary("Formula Expressions", ["ToolID", "Field", "Expression"], DistinctFormulaRows(t.formulas), false)]
       else [])
    + (if |t.filters| > 0 then
         [TableSummary("Filter Expressions", ["ToolID", "Expression"], DistinctFilterRows(t.filters), false)]
       else [])
  }

  // ---------------------------------------------------------------------
  // The summary
  // ---------------------------------------------------------------------

  /** The analyzer's result. */
  datatype AlteryxWorkflowSummary = AlteryxWorkflowSummary(summary: string, tables: seq<TableSummary>)

  /** The summary, or the message of the exception the analyzer raised. */
  datatype WorkflowOutcome = Summarized(workflow: AlteryxWorkflowSummary) | Threw(message: string)

  const MissingRoot := "Missing AlteryxDocument root element."

  /** The number of `Connection` children of the root's `Connections` element, 0 without one. */
  function ConnectionCount(root: XElement): nat
  {
    var connections := Element(root, Local("Connections"));
    if connections.Some? then |Elements(connections.value, Local("Connection"))| else 0
  }

  /** The counts block at the top of the summary. */
  function HeaderLines(version: string, runE2: string, t: Tally, connections: nat): seq<string>
  {
    [ "Workflow version: " + version,
      "Run with E2: " + runE2,
      "",
      "Nodes: " + FormatN0(t.nodes) + " (" + FormatN0(|t.toolCounts|) + " tool types)",
      "Connections: " + FormatN0(connections),
      "Containers: " + FormatN0(t.containers) ]
    + (if t.disabled > 0 then ["Disabled nodes: " + FormatN0(t.disabled)] else [])
  }

  /** The notes on captured expressions at the end of the summary. */
  function CaptureLines(t: Tally): seq<string>
  {
    (if |t.formulas| > 0 then ["", "Formula expressions captured: " + FormatN0(|t.formulas|)] else [])
    + (if |t.filters| > 0 then ["", "Filter expressions captured: " + FormatN0(|t.filters|)] else [])
  }

  function SummaryLines(version: string, runE2: string, t: Tally, connections: nat): seq<string>
  {
    HeaderLines(version, runE2, t, connections)
    + ListLines("Input sources:", t.files.inputs)
    + ListLines("Output targets:", t.files.outputs)
    + ListLines("Macros referenced:", t.macros)
    + CaptureLines(t)
  }

  /** The summary of a loaded workflow. */
  function WorkflowOf(root: XElement): AlteryxWorkflowSummary
  {
    var t := TallyOf(WorkflowNodes(root));
    var lines := SummaryLines(Version(root), FormatBool(Attribute(root, Local("RunE2"))), t, ConnectionCount(root));
    AlteryxWorkflowSummary(Lines(lines), TablesOf(t))
  }

  /** `Summarize`: a load failure and a missing root raise; otherwise the workflow is summarized. */
  function SummaryOf(load: DocumentLoad): (r: WorkflowOutcome)
    ensures load.LoadFailed? ==> r == Threw(load.message)
    ensures load == Loaded(Option.None) ==> r == Threw(MissingRoot)
    ensures load.Loaded? && load.root.Some? ==> r == Summarized(WorkflowOf(load.root.value))
  {
    match load
    case LoadFailed(message) => Threw(message)
    case Loaded(root) => if root.None? then Threw(MissingRoot) else Summarized(WorkflowOf(root.value))
  }

  lemma TallyOneMore(nodes: seq<XElement>, i: nat)
    requires i < |nodes|
    ensures TallyOf(nodes[..i + 1]) == CountNode(TallyOf(nodes[..i]), nodes[i])
  {
    var prefix := nodes[..i + 1];
    assert prefix[..i] == nodes[..i];
    assert prefix[i] == nodes[i];
  }

  /** The summary text, written line by line. */
  method WriteSummary(version: string, runE2: string, t: Tally, connections: nat) returns (summary: string)
    ensures summary == Lines(SummaryLines(version, runE2, t, connections))
  {
    var lines := [
      "Workflow version: " + version,
      "Run with E2: " + runE2,
      "",
      "Nodes: " + FormatN0(t.nodes) + " (" + FormatN0(|t.toolCounts|) + " tool types)",
      "Connections: " + FormatN0(connections),
      "Containers: " + FormatN0(t.containers)];
    if t.disabled > 0 {
      lines := lines + ["Disabled nodes: " + FormatN0(t.disabled)];
    }
    assert lines == HeaderLines(version, runE2, t, connections);
    lines := AppendList(lines, "Input sources:", t.files.inputs);
    lines := AppendList(lines, "Output targets:", t.files.outputs);
    lines := AppendList(lines, "Macros referenced:", t.macros);
    var ending := lines;
    if |t.formulas| > 0 {
      lines := lines + ["", "Formula expressions captured: " + FormatN0(|t.formulas|)];
    }
    if |t.filters| > 0 {
      lines := lines + ["", "Filter expressions captured: " + FormatN0(|t.filters|)];
    }
    assert lines == ending + CaptureLines(t);
    summary := Lines(lines);
  }

  /** The tables, built as the analyzer builds them. */
  method BuildTables(t: Tally) returns (tables: seq<TableSummary>)
    ensures tables == TablesOf(t)
  {
    tables := [];
    if |t.toolCounts| > 0 {
      var sortedTools := SortBy(t.toolCounts, ToolKey);
      var rows := ToolRows(sortedTools);
      tables := tables + [TableSummary("Tool Usage", ["Tool", "Count"], rows, false)];
    }
    if |t.formulas| > 0 {
      var distinct := CollectFormulaRows(t.formulas);
      tables := tables + [TableSummary("Formula Expressions", ["ToolID", "Field", "Expression"], distinct, false)];
    }
    if |t.filters| > 0 {
      var distinct := CollectFilterRows(t.filters);
      tables := tables + [TableSummary("Filter Expressions", ["ToolID", "Expression"], distinct, false)];
    }
  }

  /** `Summarize`: the node loop over the loaded workflow, then the summary text and the tables. */
  method Summarize(load: DocumentLoad) returns (r: WorkflowOutcome)
    ensures r == SummaryOf(load)
  {
    if load.LoadFailed? {
      return Threw(load.message);
    }
    if load.root.None? {
      return Threw(MissingRoot);
    }
    var root := load.root.value;
    var version := Attribute(root, Local("yxmdVer"))
      .OrElse(Attribute(root, Local("yxmcVer")))
      .OrElse(Attribute(root, Local("yxpVer")))
      .GetOr("Unknown");
    var runE2 := FormatBool(Attribute(root, Local("RunE2")));
    var t := CountNodes(WorkflowNodes(root));
    var summary := WriteSummary(version, runE2, t, ConnectionCount(root));
    var tables := BuildTables(t);
    return Summarized(AlteryxWorkflowSummary(summary, tables));
  }

  /** The node loop of `Summarize`, over every `Node` element in document order. */
  method CountNodes(nodes: seq<XElement>) returns (t: Tally)
    ensures t == TallyOf(nodes)
  {
    t := NoNodes;
    for i := 0 to |nodes|
      invariant t == TallyOf(nodes[..i])
    {
      TallyOneMore(nodes, i);
      t := VisitNode(t, nodes[i]);
    }
    assert nodes[..|nodes|] == nodes;
  }

  /** One pass of the node loop: the counters, the macro path, and the file, formula and filter collectors. */
  method VisitNode(t: Tally, node: XElement) returns (next: Tally)
    ensures next == CountNode(t, node)
  {
    var toolCounts, containerCount, disabledNodes, macros := t.toolCounts, t.containers, t.disabled, t.macros;
    var plugin := ElementAttribute(node, Local("GuiSettings"), Local("Plugin")).GetOr("Unknown");
    var toolId := Attribute(node, Local("ToolID")).GetOr("?");
    toolCounts := Increment(toolCounts, plugin);
    if IsContainerPlugin(plugin) {
      containerCount := containerCount + 1;
    }
    if IsDisabled(node) {
      disabledNodes := disabledNodes + 1;
    }
    var macroPath := ElementAttribute(node, Local("EngineSettings"), Local("Macro"));
    if !IsNullOrWhiteSpace(macroPath) {
      macros := macros + [Trim(macroPath.value)];
    }
    assert macros == t.macros + Listed(MacroOf(node));
    var inputs, outputs := CollectFileReferences(node, plugin, t.files.inputs, t.files.outputs);
    assert FileReferences(inputs, outputs) == FileReferencesOf(t.files, node, plugin) by {
      assert t.files == FileReferences(t.files.inputs, t.files.outputs);
    }
    var formulaDetails := CollectFormulaDetails(node, plugin, toolId, t.formulas);
    var filterDetails := t.filters;
    var filter := FilterDetailOf(node, plugin, toolId);
    if filter.Some? {
      filterDetails := filterDetails + [filter.value];
    }
    assert plugin == Plugin(node) && toolId == ToolId(node);
    assert filterDetails == t.filters + Listed(FilterDetailOf(node, plugin, toolId));
    assert containerCount == t.containers + (if IsContainerPlugin(plugin) then 1 else 0);
    assert disabledNodes == t.disabled + (if IsDisabled(node) then 1 else 0);
    next := Tally(t.nodes + 1, toolCounts, containerCount, disabledNodes, macros,
      FileReferences(inputs, outputs), formulaDetails, filterDetails);
    CountNodeIs(t, node, next);
  }

  lemma CountNodeIs(t: Tally, node: XElement, next: Tally)
    requires next.nodes == t.nodes + 1
    requires next.toolCounts == Increment(t.toolCounts, Plugin(node))
    requires next.containers == t.containers + (if IsContainerPlugin(Plugin(node)) then 1 else 0)
    requires next.disabled == t.disabled + (if IsDisabled(node) then 1 else 0)
    requires next.macros == t.macros + Listed(MacroOf(node))
    requires next.files == FileReferencesOf(t.files, node, Plugin(node))
    requires next.formulas == t.formulas + FormulaDetailsOf(node, Plugin(node), ToolId(node))
    requires next.filters == t.filters + Listed(FilterDetailOf(node, Plugin(node), ToolId(node)))
    ensures next == CountNode(t, node)
  {
  }
}
