/**
 * The Markdown analyzer (Services/MarkdownSummaryService.cs): counts lines,
 * words and characters, lists the headings, and renders a plain-text
 * preview of bounded length.
 */
module Markdown {
  import opened Wrappers
  import opened Text
  import opened Results

  // ---------------------------------------------------------------------
  // Headings
  // ---------------------------------------------------------------------

  /** How many '#' the line starts with. */
  function HashRun(line: string): (n: nat)
    ensures n <= |line|
    ensures forall i :: 0 <= i < n ==> line[i] == '#'
    ensures n < |line| ==> line[n] != '#'
  {
    if |line| > 0 && line[0] == '#' then 1 + HashRun(line[1..]) else 0
  }

  /** A heading: its level (the number of '#') and its trimmed text. */
  datatype Heading = Heading(level: nat, text: string)

  /**
   * The heading a line holds: one to six '#', one optional space, then
   * text that is not blank once trimmed.
   */
  function HeadingOf(line: string): (h: Option<Heading>)
    ensures h.Some? <==> 1 <= HashRun(line) <= 6 && !IsBlank(line[HashRun(line)..])
    ensures h.Some? ==> h.value.level == HashRun(line) && h.value.text != [] && IsTrimmed(h.value.text)
  {
    var level := HashRun(line);
    if level == 0 || level > 6 then Option.None
    else
      var index := if level < |line| && line[level] == ' ' then level + 1 else level;
      assert IsBlank(line[level..]) <==> IsBlank(line[index..]) by {
        if index == level + 1 {
          assert line[level..] == [' '] + line[index..];
        }
      }
      var text := Trim(line[index..]);
      if |text| > 0 then Some(Heading(level, text)) else Option.None
  }

  /** `TryParseHeading`: counts the leading '#', skips one space, trims the rest. */
  method TryParseHeading(line: string) returns (ok: bool, level: nat, text: string)
    ensures ok <==> HeadingOf(line).Some?
    ensures ok ==> Heading(level, text) == HeadingOf(line).value
  {
    level := 0;
    text := "";
    var index := 0;
    while index < |line| && line[index] == '#'
      invariant index == level <= |line|
      invariant forall i :: 0 <= i < index ==> line[i] == '#'
    {
      level := level + 1;
      index := index + 1;
    }
    HashRunIs(line, level);
    if level == 0 || level > 6 {
      return false, level, text;
    }
    if index < |line| && line[index] == ' ' {
      index := index + 1;
    }
    text := Trim(line[index..]);
    ok := |text| > 0;
  }

  lemma {:induction false} HashRunIs(line: string, n: nat)
    requires n <= |line| && (forall i :: 0 <= i < n ==> line[i] == '#') && (n < |line| ==> line[n] != '#')
    ensures HashRun(line) == n
    decreases n
  {
    if n > 0 {
      HashRunIs(line[1..], n - 1);
    }
  }

  /** A line of hashes, a space and a non-blank title is a heading of that many levels with the trimmed title. */
  lemma HeadingRoundTrip(level: nat, title: string)
    requires 1 <= level <= 6 && !IsBlank(title)
    ensures HeadingOf(Repeat('#', level) + " " + title) == Some(Heading(level, Trim(title)))
  {
    var line := Repeat('#', level) + " " + title;
    HashRunIs(line, level);
    assert line[level + 1..] == title;
  }

  // ---------------------------------------------------------------------
  // Words
  // ---------------------------------------------------------------------

  /** Position `i` starts a word: a letter or digit not preceded by one. */
  predicate StartsWord(s: string, i: nat)
    requires i < |s|
  {
    IsLetterOrDigit(s[i]) && (i == 0 || !IsLetterOrDigit(s[i - 1]))
  }

  /** The number of maximal runs of letters and digits. */
  function WordCount(s: string): nat
    decreases |s|
  {
    if |s| == 0 then 0 else WordCount(s[..|s| - 1]) + (if StartsWord(s, |s| - 1) then 1 else 0)
  }

  /** `CountWords`: counts the letters and digits that follow a character of another kind. */
  method CountWords(line: string) returns (count: nat)
    ensures count == WordCount(line)
  {
    count := 0;
    var inWord := false;
    var i := 0;
    while i < |line|
      invariant 0 <= i <= |line|
      invariant count == WordCount(line[..i])
      invariant inWord <==> i > 0 && IsLetterOrDigit(line[i - 1])
    {
      var c := line[i];
      if IsLetterOrDigit(c) {
        if !inWord {
          inWord := true;
          count := count + 1;
        }
      } else {
        inWord := false;
      }
      assert line[..i + 1][..i] == line[..i];
      i := i + 1;
    }
    assert line[..|line|] == line;
  }

  /**
   * Words do not run across a character that is neither letter nor digit:
   * the words of two texts meeting at such a character add up.
   */
  lemma {:induction false} WordCountSplit(a: string, b: string)
    requires a == [] || b == [] || !IsLetterOrDigit(a[|a| - 1]) || !IsLetterOrDigit(b[0])
    ensures WordCount(a + b) == WordCount(a) + WordCount(b)
    decreases |b|
  {
    if |b| == 0 {
      assert a + b == a;
    } else {
      var ab := a + b;
      var b0 := b[..|b| - 1];
      assert ab[..|ab| - 1] == a + b0;
      WordCountSplit(a, b0);
      if |b| == 1 {
        assert b0 == [] && a + b0 == a;
      } else {
        assert ab[|ab| - 2] == b[|b| - 2];
      }
    }
  }

  /** A text without letters or digits holds no words. */
  lemma {:induction false} NoWords(s: string)
    requires forall i :: 0 <= i < |s| ==> !IsLetterOrDigit(s[i])
    ensures WordCount(s) == 0
    decreases |s|
  {
    if |s| > 0 {
      NoWords(s[..|s| - 1]);
    }
  }

  // ---------------------------------------------------------------------
  // Horizontal rules and list items
  // ---------------------------------------------------------------------

  /** The characters of `s` that are not white space, in order. */
  function NonBlank(s: string): (t: string)
    ensures |t| <= |s|
    decreases |s|
  {
    if |s| == 0 then []
    else NonBlank(s[..|s| - 1]) + (if IsWhiteSpace(s[|s| - 1]) then [] else [s[|s| - 1]])
  }

  /** A rule character: '-', '_' or '*'. */
  predicate IsRuleChar(c: char)
  {
    c == '-' || c == '_' || c == '*'
  }

  /**
   * A horizontal rule: at least three characters, and apart from white
   * space at least three copies of one rule character and nothing else.
   */
  predicate IsRule(line: string)
  {
    var t := NonBlank(line);
    |line| >= 3 && |t| >= 3 && IsRuleChar(t[0]) && forall i :: 0 <= i < |t| ==> t[i] == t[0]
  }

  /** `IsHorizontalRule`: one pass, remembering the rule character seen so far; any other character ends it. */
  method IsHorizontalRule(line: string) returns (r: bool)
    ensures r <==> IsRule(line)
  {
    if |line| < 3 {
      return false;
    }
    var nonSpaceCount := 0;
    var previous := '\0';
    var i := 0;
    while i < |line|
      invariant 0 <= i <= |line|
      invariant nonSpaceCount == |NonBlank(line[..i])|
      invariant nonSpaceCount == 0 <==> previous == '\0'
      invariant nonSpaceCount > 0 ==> IsRuleChar(previous)
      invariant forall j :: 0 <= j < nonSpaceCount ==> NonBlank(line[..i])[j] == previous
    {
      var c := line[i];
      assert line[..i + 1] == line[..i] + [c];
      assert line[..i + 1][..i] == line[..i];
      NonBlankPrefix(line, i + 1);
      if IsWhiteSpace(c) {
        i := i + 1;
        continue;
      }
      if IsRuleChar(c) {
        if previous != '\0' && c != previous {
          assert NonBlank(line)[0] == previous && NonBlank(line)[nonSpaceCount] == c;
          return false;
        }
        previous := c;
        nonSpaceCount := nonSpaceCount + 1;
        i := i + 1;
        continue;
      }
      assert NonBlank(line)[nonSpaceCount] == c;
      assert nonSpaceCount > 0 ==> NonBlank(line)[0] == previous;
      return false;
    }
    assert line[..|line|] == line;
    return nonSpaceCount >= 3;
  }

  /** The non-blank characters of a prefix are a prefix of the non-blank characters. */
  lemma {:induction false} NonBlankPrefix(s: string, i: nat)
    requires i <= |s|
    ensures |NonBlank(s[..i])| <= |NonBlank(s)| && NonBlank(s)[..|NonBlank(s[..i])|] == NonBlank(s[..i])
    decreases |s| - i
  {
    if i < |s| {
      NonBlankPrefix(s, i + 1);
      assert s[..i + 1][..i] == s[..i];
    } else {
      assert s[..i] == s;
    }
  }

  /** Every character of `s` is a decimal digit. */
  predicate AllDigits(s: string)
  {
    forall i :: 0 <= i < |s| ==> IsDigit(s[i])
  }

  /** A list item: its marker as shown and its trimmed content. */
  datatype ListItem = ListItem(marker: string, content: string)

  /**
   * The list item a line holds: "- ", "* " or "+ " (shown as a bullet), or
   * digits up to the first '.' followed by a space (shown with the dot).
   */
  function ListItemOf(line: string): (item: Option<ListItem>)
    ensures item.Some? ==> IsTrimmed(item.value.content)
  {
    if |line| >= 2 && (line[0] == '-' || line[0] == '*' || line[0] == '+') && line[1] == ' ' then
      Some(ListItem("•", Trim(line[2..])))
    else
      var dot := IndexOf(line, '.', 0);
      if dot > 0 && dot + 1 < |line| && line[dot + 1] == ' ' && AllDigits(line[..dot]) then
        Some(ListItem(line[..dot] + ".", Trim(line[dot + 2..])))
      else Option.None
  }

  /** `IsListItem`: the bullet test, then a digit scan up to the first '.'. */
  method IsListItem(line: string) returns (ok: bool, marker: string, content: string)
    ensures ok <==> ListItemOf(line).Some?
    ensures ok ==> ListItem(marker, content) == ListItemOf(line).value
  {
    marker := "";
    content := "";
    if |line| >= 2 && (line[0] == '-' || line[0] == '*' || line[0] == '+') && line[1] == ' ' {
      return true, "•", Trim(line[2..]);
    }
    var dotIndex := IndexOf(line, '.', 0);
    if dotIndex > 0 && dotIndex + 1 < |line| && line[dotIndex + 1] == ' ' {
      var allDigits := true;
      var i := 0;
      while i < dotIndex
        invariant 0 <= i <= dotIndex
        invariant allDigits <==> forall j :: 0 <= j < i ==> IsDigit(line[j])
      {
        if !IsDigit(line[i]) {
          allDigits := false;
          break;
        }
        i := i + 1;
      }
      assert allDigits <==> AllDigits(line[..dotIndex]);
      if allDigits {
        return true, line[..dotIndex] + ".", Trim(line[dotIndex + 2..]);
      }
    }
    return false, marker, content;
  }

  /** A numbered item: digits, a dot and a space give the number with its dot as marker and the trimmed rest as content. */
  lemma NumberedItem(digits: string, rest: string)
    requires digits != [] && AllDigits(digits)
    ensures ListItemOf(digits + ". " + rest) == Some(ListItem(digits + ".", Trim(rest)))
  {
    var line := digits + ". " + rest;
    assert line[|digits|] == '.' && line[|digits| + 1] == ' ';
    assert forall i :: 0 <= i < |digits| ==> line[i] == digits[i] && line[i] != '.';
    assert IndexOf(line, '.', 0) == |digits|;
    assert line[..|digits|] == digits;
    assert line[|digits| + 2..] == rest;
  }

  // ---------------------------------------------------------------------
  // Inline formatting
  // ---------------------------------------------------------------------

  /**
   * One pass of the `ReplaceLinks` loop from `index`: the text it appends and
   * the position where the scan resumes. A "[caption](url)" becomes the
   * caption followed by " (url)", or the caption alone when the url is blank;
   * a bracket not followed by "(...)" is copied as it is; with no complete
   * bracket left the rest of the text is copied and the scan ends.
   */
  function LinkPiece(text: string, index: nat): (r: (string, nat))
    requires index < |text|
    ensures index < r.1 <= |text|
  {
    var open := IndexOf(text, '[', index);
    if open == -1 then (text[index..], |text|)
    else
      var closeBracket := IndexOf(text, ']', open + 1);
      if closeBracket == -1 then (text[index..], |text|)
      else if closeBracket + 1 < |text| && text[closeBracket + 1] == '(' && IndexOf(text, ')', closeBracket + 2) != -1 then
        var closeParen := IndexOf(text, ')', closeBracket + 2);
        var caption := text[open + 1..closeBracket];
        var url := text[closeBracket + 2..closeParen];
        (text[index..open] + caption + (if IsBlank(url) then "" else " (" + url + ")"), closeParen + 1)
      else (text[index..closeBracket + 1], closeBracket + 1)
  }

  /** `ReplaceLinks` from position `index` on. */
  function LinksFrom(text: string, index: nat): string
    requires index <= |text|
    decreases |text| - index
  {
    if index == |text| then ""
    else
      var (piece, next) := LinkPiece(text, index);
      piece + LinksFrom(text, next)
  }

  function LinksOf(text: string): string
  {
    LinksFrom(text, 0)
  }

  /** `ReplaceLinks`: one scan from '[' to ']' to ')', copying what lies between. */
  method ReplaceLinks(text: string) returns (result: string)
    ensures result == LinksOf(text)
  {
    var builder := "";
    var index := 0;
    while index < |text|
      invariant 0 <= index <= |text|
      invariant builder + LinksFrom(text, index) == LinksOf(text)
      decreases |text| - index
    {
      var piece, next := LinkStep(text, index);
      Regroup(builder, piece, LinksFrom(text, next));
      builder := builder + piece;
      index := next;
    }
    result := builder;
  }

  /** The body of the `ReplaceLinks` loop. */
  method LinkStep(text: string, index: nat) returns (piece: string, next: nat)
    requires index < |text|
    ensures (piece, next) == LinkPiece(text, index)
  {
    var open := IndexOf(text, '[', index);
    if open == -1 {
      return text[index..], |text|;
    }
    var closeBracket := IndexOf(text, ']', open + 1);
    if closeBracket == -1 {
      return text[index..], |text|;
    }
    if closeBracket + 1 < |text| && text[closeBracket + 1] == '(' {
      var closeParen := IndexOf(text, ')', closeBracket + 2);
      if closeParen != -1 {
        var caption := text[open + 1..closeBracket];
        var url := text[closeBracket + 2..closeParen];
        piece := text[index..open] + caption;
        if !IsBlank(url) {
          piece := piece + " (" + url + ")";
          Regroup3(text[index..open] + caption, " (", url, ")");
        } else {
          assert piece + "" == piece;
        }
        return piece, closeParen + 1;
      }
    }
    return text[index..closeBracket + 1], closeBracket + 1;
  }

  lemma Regroup3(before: string, a: string, b: string, c: string)
    ensures before + a + b + c == before + (a + b + c)
  {
  }

  lemma Regroup(before: string, piece: string, rest: string)
    ensures (before + piece) + rest == before + (piece + rest)
  {
  }

  /** Text without '[' passes through `ReplaceLinks` unchanged. */
  lemma LinksWithoutBrackets(text: string)
    requires '[' !in text
    ensures LinksOf(text) == text
  {
    if text != [] {
      assert IndexOf(text, '[', 0) == -1;
      assert LinkPiece(text, 0) == (text, |text|);
      assert LinksFrom(text, |text|) == "";
    }
  }

  /** A single link "[caption](url)" becomes "caption (url)", or just the caption when the url is blank. */
  lemma LinkRewritten(caption: string, url: string)
    requires ']' !in caption && ')' !in url
    ensures LinksOf("[" + caption + "](" + url + ")") == caption + (if IsBlank(url) then "" else " (" + url + ")")
  {
    var text := "[" + caption + "](" + url + ")";
    var suffix := if IsBlank(url) then "" else " (" + url + ")";
    LinkPieceOfLink(caption, url);
    assert LinksFrom(text, |text|) == "";
    assert caption + suffix + "" == caption + suffix;
  }

  lemma LinkPieceOfLink(caption: string, url: string)
    requires ']' !in caption && ')' !in url
    ensures var text := "[" + caption + "](" + url + ")";
      LinkPiece(text, 0) == (caption + (if IsBlank(url) then "" else " (" + url + ")"), |text|)
  {
    var text := "[" + caption + "](" + url + ")";
    var b := |caption| + 1;
    var p := |caption| + 3 + |url|;
    assert text[0] == '[';
    IndexOfIs(text, '[', 0, 0);
    assert text[b] == ']' && text[b + 1] == '(' && text[p] == ')';
    assert text[1..b] == caption;
    assert text[b + 2..p] == url;
    forall i | 1 <= i < b
      ensures text[i] != ']'
    {
      assert text[i] == caption[i - 1];
    }
    IndexOfIs(text, ']', 1, b);
    forall i | b + 2 <= i < p
      ensures text[i] != ')'
    {
      assert text[i] == url[i - b - 2];
    }
    IndexOfIs(text, ')', b + 2, p);
    assert text[0..0] + caption == caption;
  }

  /** The text with every backtick turned into an apostrophe. */
  function Ticked(text: string): (r: string)
    ensures |r| == |text|
    ensures forall i :: 0 <= i < |text| ==> r[i] == if text[i] == '`' then '\'' else text[i]
  {
    seq(|text|, i requires 0 <= i < |text| => if text[i] == '`' then '\'' else text[i])
  }

  /** The number of backticks. */
  function TickCount(text: string): nat
    decreases |text|
  {
    if |text| == 0 then 0 else TickCount(text[..|text| - 1]) + (if text[|text| - 1] == '`' then 1 else 0)
  }

  /** `ReplaceInlineCode`: backticks become apostrophes, and an unclosed code span is closed with one more. */
  function InlineCodeOf(text: string): (r: string)
    ensures '`' !in r
    ensures |r| == |text| + TickCount(text) % 2
    ensures r[..|text|] == Ticked(text)
  {
    if '`' !in text then
      TicklessCount(text);
      assert Ticked(text) == text;
      text
    else Ticked(text) + (if TickCount(text) % 2 == 1 then "'" else "")
  }

  lemma {:induction false} TicklessCount(text: string)
    requires '`' !in text
    ensures TickCount(text) == 0
    decreases |text|
  {
    if |text| > 0 {
      assert text[..|text| - 1] <= text;
      TicklessCount(text[..|text| - 1]);
    }
  }

  /** `ReplaceInlineCode`: copies character by character, toggling whether a code span is open. */
  method ReplaceInlineCode(text: string) returns (result: string)
    ensures result == InlineCodeOf(text)
  {
    if |text| == 0 || '`' !in text {
      return text;
    }
    var builder := "";
    var inCode := false;
    var i := 0;
    while i < |text|
      invariant 0 <= i <= |text|
      invariant builder == Ticked(text[..i])
      invariant inCode <==> TickCount(text[..i]) % 2 == 1
    {
      var c := text[i];
      assert text[..i + 1][..i] == text[..i];
      if c == '`' {
        builder := builder + "'";
        inCode := !inCode;
      } else {
        builder := builder + [c];
      }
      i := i + 1;
    }
    assert text[..|text|] == text;
    if inCode {
      builder := builder + "'";
    }
    result := builder;
  }

  /**
   * `FormatInline`: links, then code spans, then the emphasis markers "**",
   * "__" and "~~" removed, then trimmed.
   */
  function InlineOf(text: string): (r: string)
    ensures IsTrimmed(r)
  {
    if text == "" then ""
    else Trim(StripEmphasis(InlineCodeOf(LinksOf(text))))
  }

  /** The emphasis markers "**", "__" and "~~" removed, in that order. */
  function StripEmphasis(text: string): string
  {
    Replace(Replace(Replace(text, "**", ""), "__", ""), "~~", "")
  }

  method FormatInline(text: string) returns (result: string)
    ensures result == InlineOf(text)
  {
    if |text| == 0 {
      return "";
    }
    result := ReplaceLinks(text);
    result := ReplaceInlineCode(result);
    result := Replace(result, "**", "");
    result := Replace(result, "__", "");
    result := Replace(result, "~~", "");
    result := Trim(result);
  }

  lemma TicklessCode(text: string)
    requires '`' !in text
    ensures InlineCodeOf(text) == text
  {
  }

  lemma NoEmphasis(text: string)
    requires '*' !in text && '_' !in text && '~' !in text
    ensures StripEmphasis(text) == text
  {
    ReplaceAbsentFirst(text, "**", "");
    ReplaceAbsentFirst(text, "__", "");
    ReplaceAbsentFirst(text, "~~", "");
  }

  /** Text with none of the markup characters is only trimmed. */
  lemma PlainInline(text: string)
    requires '[' !in text && '`' !in text && '*' !in text && '_' !in text && '~' !in text
    ensures InlineOf(text) == Trim(text)
  {
    if text != "" {
      LinksWithoutBrackets(text);
      TicklessCode(text);
      NoEmphasis(text);
      assert InlineOf(text) == Trim(StripEmphasis(InlineCodeOf(LinksOf(text))));
    } else {
      assert Trim(text) == "";
    }
  }

  // ---------------------------------------------------------------------
  // Line formatting
  // ---------------------------------------------------------------------

  /** The length of a heading underline: the heading's length, kept within 3 to 80. */
  function UnderlineLength(n: nat): (k: nat)
    ensures 3 <= k <= 80
    ensures 3 <= n <= 80 ==> k == n
  {
    if n < 3 then 3 else if n > 80 then 80 else n
  }

  /**
   * The preview lines of a heading: level 1 in upper case underlined with
   * '=', level 2 underlined with '-', deeper levels as an indented bullet.
   */
  function HeadingLines(h: Heading): (r: seq<string>)
    requires h.level >= 1
    ensures h.level <= 2 ==> |r| == 2
    ensures h.level > 2 ==> |r| == 1
  {
    HeadingLinesOf(h.level, InlineOf(h.text))
  }

  /** The preview lines of a heading of `level` whose text formats to `inline`. */
  function HeadingLinesOf(level: nat, inline: string): (r: seq<string>)
    requires level >= 1
    ensures level <= 2 ==> |r| == 2
    ensures level > 2 ==> |r| == 1
  {
    if level == 1 then
      var upper := ToUpperString(inline);
      [upper, Repeat('=', UnderlineLength(|upper|))]
    else if level == 2 then [inline, Repeat('-', UnderlineLength(|inline|))]
    else [Repeat(' ', MinNat((level - 2) * 2, 6)) + "\U{2022} " + inline]
  }

  /** The preview lines of a line outside a code block that is not a fence.
      The quote test is ordinal; the source's culture-sensitive `StartsWith(">")` also
      matches after a leading ignorable character, which is not modelled. */
  function PlainLines(trimmedEnd: string, trimmedStart: string): (r: seq<string>)
    ensures 1 <= |r| <= 2
  {
    match HeadingOf(trimmedStart)
    case Some(h) => HeadingLines(h)
    case None =>
      if StartsWith(trimmedStart, ">") then ["\U{2502} " + InlineOf(TrimStartChars(trimmedStart, {'>', ' '}))]
      else if IsRule(trimmedStart) then [Repeat('\U{2500}', 40)]
      else
        match ListItemOf(trimmedStart)
        case Some(item) => [item.marker + " " + InlineOf(item.content)]
        case None => [InlineOf(trimmedEnd)]
  }

  /** A line whose trimmed text starts with three backticks opens or closes a fenced code block. */
  predicate IsFence(line: string)
  {
    StartsWith(TrimStart(TrimEnd(line)), "```")
  }

  /**
   * `FormatMarkdownLine`: the preview lines for one source line and whether
   * a fenced code block is open after it.
   */
  function FormatLineOf(line: string, inCodeBlock: bool): (r: (seq<string>, bool))
    ensures 1 <= |r.0| <= 2
    ensures r.1 != inCodeBlock <==> IsFence(line)
  {
    var trimmedEnd := TrimEnd(line);
    var trimmedStart := TrimStart(trimmedEnd);
    if StartsWith(trimmedStart, "```") then ([if inCodeBlock then "" else "[code block]"], !inCodeBlock)
    else if inCodeBlock then (["    " + trimmedEnd], true)
    else (PlainLines(trimmedEnd, trimmedStart), false)
  }

  /** `FormatMarkdownLine`: tries fence, code block, heading, quote, rule, list item and plain text in turn. */
  method FormatMarkdownLine(line: string, inCodeBlock: bool) returns (formatted: seq<string>, inCodeBlockAfter: bool)
    ensures (formatted, inCodeBlockAfter) == FormatLineOf(line, inCodeBlock)
  {
    var trimmedEnd := TrimEnd(line);
    var trimmedStart := TrimStart(trimmedEnd);
    if StartsWith(trimmedStart, "```") {
      inCodeBlockAfter := !inCodeBlock;
      formatted := [if inCodeBlockAfter then "[code block]" else ""];
      return;
    }
    inCodeBlockAfter := inCodeBlock;
    if inCodeBlock {
      return ["    " + trimmedEnd], inCodeBlockAfter;
    }
    formatted := FormatPlainLine(trimmedEnd, trimmedStart);
  }

  /** `FormatMarkdownLine` outside a code block: heading, quote, rule, list item or plain text. */
  method FormatPlainLine(trimmedEnd: string, trimmedStart: string) returns (formatted: seq<string>)
    ensures formatted == PlainLines(trimmedEnd, trimmedStart)
  {
    var isHeading, level, headingText := TryParseHeading(trimmedStart);
    if isHeading {
      formatted := FormatHeading(level, headingText);
      return;
    }
    if StartsWith(trimmedStart, ">") {
      var content := TrimStartChars(trimmedStart, {'>', ' '});
      var inline := FormatInline(content);
      return ["\U{2502} " + inline];
    }
    var isRule := IsHorizontalRule(trimmedStart);
    if isRule {
      return [Repeat('\U{2500}', 40)];
    }
    var isItem, marker, itemContent := IsListItem(trimmedStart);
    if isItem {
      var formattedItem := FormatInline(itemContent);
      return [marker + " " + formattedItem];
    }
    var inline := FormatInline(trimmedEnd);
    formatted := [inline];
  }

  /** The heading branch of `FormatMarkdownLine`. */
  method FormatHeading(level: nat, headingText: string) returns (formatted: seq<string>)
    requires level >= 1
    ensures formatted == HeadingLines(Heading(level, headingText))
  {
    var inlineHeading := FormatInline(headingText);
    formatted := FormatHeadingLines(level, inlineHeading);
  }

  method FormatHeadingLines(level: nat, inlineHeading: string) returns (formatted: seq<string>)
    requires level >= 1
    ensures formatted == HeadingLinesOf(level, inlineHeading)
  {
    if level == 1 {
      var upper := ToUpperString(inlineHeading);
      formatted := [upper, Repeat('=', UnderlineLength(|upper|))];
    } else if level == 2 {
      formatted := [inlineHeading, Repeat('-', UnderlineLength(|inlineHeading|))];
    } else {
      var indent := Repeat(' ', MinNat((level - 2) * 2, 6));
      formatted := [indent + "\U{2022} " + inlineHeading];
    }
  }

  /** Inside a fenced code block every line but a fence is kept verbatim, indented by four spaces. */
  lemma CodeBlockVerbatim(line: string)
    requires !IsFence(line)
    ensures FormatLineOf(line, true) == (["    " + TrimEnd(line)], true)
  {
  }

  /** A fence line renders as a single marker line: "[code block]" when it opens the block, an empty line when it closes it. */
  lemma FenceMarker(line: string, inCodeBlock: bool)
    requires IsFence(line)
    ensures FormatLineOf(line, inCodeBlock).0 == [if inCodeBlock then "" else "[code block]"]
  {
  }

  /** Outside a code block, a heading line renders as its heading. */
  lemma HeadingLine(line: string)
    requires HeadingOf(TrimStart(TrimEnd(line))).Some?
    ensures FormatLineOf(line, false).0 == HeadingLines(HeadingOf(TrimStart(TrimEnd(line))).value)
  {
    HeadingNotFence(TrimStart(TrimEnd(line)));
  }

  /** A level-one heading renders in upper case over a line of '=' of its own length, kept within 3 to 80. */
  lemma TitleUnderlined(h: Heading)
    requires h.level == 1
    ensures var r := HeadingLines(h);
      |r[1]| == UnderlineLength(|r[0]|) && (forall i :: 0 <= i < |r[1]| ==> r[1][i] == '=')
      && (forall i :: 0 <= i < |r[0]| ==> !('a' <= r[0][i] <= 'z'))
  {
    var inline := InlineOf(h.text);
    var upper := ToUpperString(inline);
    assert HeadingLinesOf(1, inline) == [upper, Repeat('=', UnderlineLength(|upper|))];
    forall i | 0 <= i < |upper|
      ensures !('a' <= upper[i] <= 'z')
    {
      assert upper[i] == ToUpper(inline[i]);
    }
  }

  /** A heading line starts with '#', so it is never a fence. */
  lemma HeadingNotFence(s: string)
    requires HashRun(s) >= 1
    ensures !StartsWith(s, "```")
  {
    assert s[0] == '#';
  }

  // ---------------------------------------------------------------------
  // The bounded preview
  // ---------------------------------------------------------------------

  /**
   * `AppendLimited`: nothing happens once truncated or for empty content;
   * otherwise the characters of `content` are appended while the builder is
   * shorter than `limit`, and the preview is truncated once the builder has
   * reached the limit.
   */
  function AppendLimitedOf(builder: string, content: string, limit: int, truncated: bool): (r: (string, bool))
    ensures truncated || content == [] ==> r == (builder, truncated)
    ensures |builder| <= |r.0| <= |builder| + |content| && r.0 == builder + content[..|r.0| - |builder|]
    ensures |builder| < limit ==> |r.0| <= limit
    ensures !truncated && content != [] ==> (r.1 <==> |r.0| >= limit)
  {
    if truncated || content == [] then (builder, truncated)
    else
      var room := if limit > |builder| then limit - |builder| else 0;
      var n := MinNat(|content|, room);
      (builder + content[..n], |builder| + n >= limit)
  }

  /** `AppendLimited`, character by character. */
  method AppendLimited(builder: string, content: string, limit: int, truncated: bool) returns (text: string, isTruncated: bool)
    ensures (text, isTruncated) == AppendLimitedOf(builder, content, limit, truncated)
  {
    text, isTruncated := builder, truncated;
    if truncated || |content| == 0 {
      return;
    }
    var i := 0;
    while i < |content|
      invariant 0 <= i <= |content|
      invariant text == builder + content[..i]
      invariant i == 0 || |builder| + i <= limit
    {
      if |text| >= limit {
        isTruncated := true;
        return;
      }
      assert content[..i + 1] == content[..i] + [content[i]];
      text := text + [content[i]];
      i := i + 1;
    }
    assert content[..|content|] == content;
    if |text| >= limit {
      isTruncated := true;
    }
  }

  /** `AppendLineLimited`: a line break first when the builder holds text, then the content, each within the limit. */
  function AppendLineLimitedOf(builder: string, content: string, limit: int, truncated: bool): (r: (string, bool))
  {
    if truncated then (builder, true)
    else if |builder| > 0 then
      var (broken, full) := AppendLimitedOf(builder, NewLine, limit, false);
      if full then (broken, full) else AppendLimitedOf(broken, content, limit, false)
    else AppendLimitedOf(builder, content, limit, false)
  }

  method AppendLineLimited(builder: string, content: string, limit: int, truncated: bool) returns (text: string, isTruncated: bool)
    ensures (text, isTruncated) == AppendLineLimitedOf(builder, content, limit, truncated)
  {
    text, isTruncated := builder, truncated;
    if truncated {
      return;
    }
    if |text| > 0 {
      text, isTruncated := AppendLimited(text, NewLine, limit, isTruncated);
      if isTruncated {
        return;
      }
    }
    text, isTruncated := AppendLimited(text, content, limit, isTruncated);
  }

  /** The unbounded rendering: the next line follows a line break when some text has been written, and starts the text otherwise. */
  function RenderLine(rendered: string, line: string): string
  {
    if |rendered| > 0 then rendered + NewLine + line else line
  }

  /** The lines rendered in order after `rendered`. */
  function RenderFrom(rendered: string, lines: seq<string>): string
    decreases |lines|
  {
    if lines == [] then rendered else RenderFrom(RenderLine(rendered, lines[0]), lines[1..])
  }

  /** The preview of a rendering under a limit: its first `limit` characters, and whether it reaches the limit. */
  function Clip(rendered: string, limit: nat): (r: (string, bool))
    ensures |r.0| <= limit && StartsWith(rendered, r.0)
    ensures r.1 <==> |rendered| >= limit
    ensures !r.1 ==> r.0 == rendered
  {
    (rendered[..MinNat(limit, |rendered|)], |rendered| >= limit)
  }

  /** Rendering only ever appends. */
  lemma {:induction false} RenderFromExtends(rendered: string, lines: seq<string>)
    ensures StartsWith(RenderFrom(rendered, lines), rendered)
    decreases |lines|
  {
    if lines != [] {
      var next := RenderLine(rendered, lines[0]);
      RenderFromExtends(next, lines[1..]);
      if |rendered| > 0 {
        assert next[..|rendered|] == rendered;
      } else {
        assert rendered[..0] == rendered;
      }
    }
  }

  /** Rendering two runs of lines is rendering the first and carrying on with the second. */
  lemma {:induction false} RenderFromAppend(rendered: string, a: seq<string>, b: seq<string>)
    ensures RenderFrom(rendered, a + b) == RenderFrom(RenderFrom(rendered, a), b)
    decreases |a|
  {
    if a == [] {
      assert a + b == b;
    } else {
      assert (a + b)[1..] == a[1..] + b;
      RenderFromAppend(RenderLine(rendered, a[0]), a[1..], b);
    }
  }

  /** Once the rendering has reached the limit, what follows no longer changes the preview. */
  lemma ClipExtension(shorter: string, longer: string, limit: nat)
    requires StartsWith(longer, shorter) && |shorter| >= limit
    ensures Clip(longer, limit) == Clip(shorter, limit)
  {
    assert longer[..limit] == shorter[..limit];
  }

  /** Below the limit, `AppendLimited` yields the preview of the extended text. */
  lemma AppendLimitedClips(rendered: string, content: string, limit: nat)
    requires |rendered| < limit
    ensures AppendLimitedOf(rendered, content, limit, false) == Clip(rendered + content, limit)
  {
    if content == [] {
      assert rendered + content == rendered;
    } else {
      var n := MinNat(|content|, limit - |rendered|);
      assert (rendered + content)[..|rendered| + n] == rendered + content[..n];
    }
  }

  /** `AppendLineLimited` on the preview of a rendering yields the preview of the rendering with the next line. */
  lemma AppendLineClips(rendered: string, line: string, limit: nat)
    requires limit >= 1
    ensures AppendLineLimitedOf(Clip(rendered, limit).0, line, limit, Clip(rendered, limit).1) == Clip(RenderLine(rendered, line), limit)
  {
    var next := RenderLine(rendered, line);
    if |rendered| >= limit {
      assert next[..|rendered|] == rendered;
      ClipExtension(rendered, next, limit);
    } else if |rendered| > 0 {
      assert Clip(rendered, limit) == (rendered, false);
      AppendLimitedClips(rendered, NewLine, limit);
      var broken := rendered + NewLine;
      if |broken| >= limit {
        assert next[..|broken|] == broken;
        ClipExtension(broken, next, limit);
      } else {
        AppendLimitedClips(broken, line, limit);
      }
    } else {
      assert Clip(rendered, limit) == ("", false);
      AppendLimitedClips("", line, limit);
      assert "" + line == next;
    }
  }

  // ---------------------------------------------------------------------
  // The whole document
  // ---------------------------------------------------------------------

  /** Whether a fenced code block is open after the lines. */
  function CodeStateAfter(lines: seq<string>): bool
    decreases |lines|
  {
    if lines == [] then false
    else FormatLineOf(lines[|lines| - 1], CodeStateAfter(lines[..|lines| - 1])).1
  }

  /** The preview lines of the document, each source line formatted in the code-block state the lines before it leave. */
  function PreviewLines(lines: seq<string>): seq<string>
    decreases |lines|
  {
    if lines == [] then []
    else
      var init := lines[..|lines| - 1];
      PreviewLines(init) + FormatLineOf(lines[|lines| - 1], CodeStateAfter(init)).0
  }

  /** The whole preview without a limit. */
  function Rendering(lines: seq<string>): string
  {
    RenderFrom("", PreviewLines(lines))
  }

  /** One more source line renders its preview lines after the rendering so far. */
  lemma RenderingSnoc(lines: seq<string>, line: string)
    ensures Rendering(lines + [line]) == RenderFrom(Rendering(lines), FormatLineOf(line, CodeStateAfter(lines)).0)
  {
    var all := lines + [line];
    assert all[..|all| - 1] == lines;
    RenderFromAppend("", PreviewLines(lines), FormatLineOf(line, CodeStateAfter(lines)).0);
  }

  /** The characters counted: each line's length plus one for its line break. */
  function CharacterTotal(lines: seq<string>): nat
    decreases |lines|
  {
    if lines == [] then 0 else CharacterTotal(lines[..|lines| - 1]) + |lines[|lines| - 1]| + 1
  }

  /** The words of all lines. */
  function WordTotal(lines: seq<string>): nat
    decreases |lines|
  {
    if lines == [] then 0 else WordTotal(lines[..|lines| - 1]) + WordCount(lines[|lines| - 1])
  }

  /** The headings of the lines, in order, each read after leading white space. */
  function HeadingsIn(lines: seq<string>): (hs: seq<Heading>)
    ensures |hs| <= |lines|
    decreases |lines|
  {
    if lines == [] then []
    else
      var found := HeadingOf(TrimStart(lines[|lines| - 1]));
      HeadingsIn(lines[..|lines| - 1]) + (if found.Some? then [found.value] else [])
  }

  /** The character count is the length of the lines written out with one line break each, a break counted as one character instead of two. */
  lemma {:induction false} CharactersAreText(lines: seq<string>)
    ensures CharacterTotal(lines) + |lines| == |Lines(lines)|
    decreases |lines|
  {
    if lines != [] {
      var init := lines[..|lines| - 1];
      var last := lines[|lines| - 1];
      assert lines == init + [last];
      CharactersAreText(init);
      LinesAppend(init, [last]);
      assert Lines([last]) == last + NewLine + Lines([]);
    }
  }

  /** Counting words line by line misses none: the total is the word count of the lines written out with line breaks. */
  lemma {:induction false} WordsAcrossLines(lines: seq<string>)
    ensures WordTotal(lines) == WordCount(Lines(lines))
    decreases |lines|
  {
    if lines != [] {
      var init := lines[..|lines| - 1];
      var last := lines[|lines| - 1];
      assert lines == init + [last];
      WordsAcrossLines(init);
      LinesAppend(init, [last]);
      assert Lines([last]) == last + NewLine + Lines([]);
      assert Lines([last]) == last + NewLine;
      var head := Lines(init);
      assert head == [] || head[|head| - 1] == '\n' by {
        LinesEnd(init);
      }
      WordCountSplit(head, last + NewLine);
      WordCountSplit(last, NewLine);
      NoWords(NewLine);
    }
  }

  /** Written-out lines end with a line break. */
  lemma LinesEnd(lines: seq<string>)
    ensures var text := Lines(lines); text == [] || text[|text| - 1] == '\n'
  {
    if lines != [] {
      var init := lines[..|lines| - 1];
      assert lines == init + [lines[|lines| - 1]];
      LinesAppend(init, [lines[|lines| - 1]]);
      assert Lines([lines[|lines| - 1]]) == lines[|lines| - 1] + NewLine + Lines([]);
    }
  }

  /** The summary text and the bounded preview. */
  datatype MarkdownSummaryResult = MarkdownSummaryResult(summary: string, preview: TextPreview)

  const MaxHeadingRows: nat := 200

  /** A heading in the list: indented two spaces per level below the first, at most ten. */
  function HeadingRow(h: Heading): string
  {
    (if h.level > 1 then Repeat(' ', MinNat((h.level - 1) * 2, 10)) else "") + "- " + h.text
  }

  /** The heading list: a blank line, a caption, the first 200 headings and a count of the rest. */
  function HeadingSection(hs: seq<Heading>): (r: seq<string>)
    ensures hs == [] <==> r == []
    ensures hs != [] ==> |r| == 2 + MinNat(|hs|, MaxHeadingRows) + (if |hs| > MaxHeadingRows then 1 else 0)
    ensures hs != [] ==> forall k :: 0 <= k < MinNat(|hs|, MaxHeadingRows) ==> r[2 + k] == HeadingRow(hs[k])
    ensures |hs| > MaxHeadingRows ==> r[|r| - 1] == "... (" + NatToString(|hs| - MaxHeadingRows) + " more)"
  {
    if hs == [] then []
    else
      var shown := MinNat(|hs|, MaxHeadingRows);
      ["", "Headings:"] + HeadingRows(hs[..shown])
      + (if |hs| > shown then ["... (" + NatToString(|hs| - shown) + " more)"] else [])
  }

  /** One row per heading, in order. */
  function HeadingRows(hs: seq<Heading>): (r: seq<string>)
    ensures |r| == |hs| && forall k :: 0 <= k < |hs| ==> r[k] == HeadingRow(hs[k])
    decreases |hs|
  {
    if hs == [] then [] else HeadingRows(hs[..|hs| - 1]) + [HeadingRow(hs[|hs| - 1])]
  }

  /** The summary lines: the counts, a note when the preview was cut off, and the heading list. */
  function SummaryLines(lineCount: nat, wordCount: nat, characters: nat, headings: seq<Heading>, truncated: bool, limit: nat): seq<string>
  {
    ["Lines: " + FormatN0(lineCount), "Words: " + FormatN0(wordCount),
     "Characters (including newline markers): " + FormatN0(characters),
     "Headings detected: " + FormatN0(|headings|)]
    + (if truncated then ["", "Preview limited to first " + FormatN0(limit) + " characters."] else [])
    + HeadingSection(headings)
  }

  /** `Math.Max(1, MarkdownMaxCharacters)`. */
  function PreviewLimit(maxCharacters: int): (limit: nat)
    ensures limit >= 1 && (maxCharacters >= 1 ==> limit == maxCharacters)
  {
    if maxCharacters < 1 then 1 else maxCharacters
  }

  /**
   * `Summarize` on the text of the file at `path`: the counts and headings
   * of all its lines, and the first `limit` characters of its rendering as
   * the preview, truncated exactly when the rendering reaches the limit.
   */
  function MarkdownSummaryOf(path: string, text: string, maxCharacters: int): (r: MarkdownSummaryResult)
    ensures var rendered := Rendering(ReadLines(text));
      StartsWith(rendered, r.preview.content) && |r.preview.content| <= PreviewLimit(maxCharacters)
      && (r.preview.isTruncated <==> |rendered| >= PreviewLimit(maxCharacters))
      && (!r.preview.isTruncated ==> r.preview.content == rendered)
    ensures r.preview.title == GetFileName(path)
  {
    var lines := ReadLines(text);
    var limit := PreviewLimit(maxCharacters);
    var (content, truncated) := Clip(Rendering(lines), limit);
    var summary := SummaryLines(|lines|, WordTotal(lines), CharacterTotal(lines), HeadingsIn(lines), truncated, limit);
    MarkdownSummaryResult(Lines(summary), TextPreview(GetFileName(path), content, truncated))
  }

  /** `Summarize`: one pass over the lines, counting, collecting headings and filling the bounded preview. */
  method Summarize(path: string, text: string, maxCharacters: int) returns (r: MarkdownSummaryResult)
    ensures r == MarkdownSummaryOf(path, text, maxCharacters)
  {
    var previewLimit := PreviewLimit(maxCharacters);
    var preview := "";
    var headings: seq<Heading> := [];
    var totalCharacters: nat := 0;
    var lineCount: nat := 0;
    var wordCount: nat := 0;
    var truncated := false;
    var inCodeBlock := false;
    var lines := ReadLines(text);
    var i := 0;
    while i < |lines|
      invariant 0 <= i <= |lines|
      invariant lineCount == i
      invariant totalCharacters == CharacterTotal(lines[..i])
      invariant wordCount == WordTotal(lines[..i])
      invariant headings == HeadingsIn(lines[..i])
      invariant (preview, truncated) == Clip(Rendering(lines[..i]), previewLimit)
      invariant !truncated ==> inCodeBlock == CodeStateAfter(lines[..i])
    {
      var line := lines[i];
      TakeOneMore(lines, i);
      lineCount, totalCharacters, wordCount, headings := CountLine(lineCount, totalCharacters, wordCount, headings, line, lines[..i]);
      preview, truncated, inCodeBlock := PreviewSourceLine(preview, truncated, inCodeBlock, line, previewLimit, lines[..i]);
      i := i + 1;
    }
    assert lines[..|lines|] == lines;
    var summary := WriteSummary(lineCount, wordCount, totalCharacters, headings, truncated, previewLimit);
    r := MarkdownSummaryResult(summary, TextPreview(GetFileName(path), preview, truncated));
  }

  /** The counting part of one pass of the `Summarize` loop: the line, its characters and words, and its heading if it holds one. */
  method CountLine(lineCount: nat, totalCharacters: nat, wordCount: nat, headings: seq<Heading>, line: string, ghost before: seq<string>)
    returns (lineCountAfter: nat, totalCharactersAfter: nat, wordCountAfter: nat, headingsAfter: seq<Heading>)
    requires lineCount == |before| && totalCharacters == CharacterTotal(before)
    requires wordCount == WordTotal(before) && headings == HeadingsIn(before)
    ensures lineCountAfter == |before + [line]| && totalCharactersAfter == CharacterTotal(before + [line])
    ensures wordCountAfter == WordTotal(before + [line]) && headingsAfter == HeadingsIn(before + [line])
  {
    ghost var all := before + [line];
    assert all[..|all| - 1] == before;
    lineCountAfter := lineCount + 1;
    totalCharactersAfter := totalCharacters + |line| + 1;
    var words := CountWords(line);
    wordCountAfter := wordCount + words;
    headingsAfter := headings;
    var isHeading, level, headingText := TryParseHeading(TrimStart(line));
    if isHeading {
      headingsAfter := headings + [Heading(level, headingText)];
    }
  }

  /** The preview part of one pass of the `Summarize` loop: skipped once truncated, else each formatted line is appended until the limit. */
  method PreviewSourceLine(preview: string, truncated: bool, inCodeBlock: bool, line: string, limit: nat, ghost before: seq<string>)
    returns (previewAfter: string, truncatedAfter: bool, inCodeBlockAfter: bool)
    requires limit >= 1
    requires (preview, truncated) == Clip(Rendering(before), limit)
    requires !truncated ==> inCodeBlock == CodeStateAfter(before)
    ensures (previewAfter, truncatedAfter) == Clip(Rendering(before + [line]), limit)
    ensures !truncatedAfter ==> inCodeBlockAfter == CodeStateAfter(before + [line])
  {
    previewAfter, truncatedAfter, inCodeBlockAfter := preview, truncated, inCodeBlock;
    ghost var rendered := Rendering(before);
    ghost var all := before + [line];
    assert all[..|all| - 1] == before;
    RenderingSnoc(before, line);
    if truncated {
      RenderFromExtends(rendered, FormatLineOf(line, CodeStateAfter(before)).0);
      ClipExtension(rendered, Rendering(all), limit);
      return;
    }
    var formatted;
    formatted, inCodeBlockAfter := FormatMarkdownLine(line, inCodeBlock);
    previewAfter, truncatedAfter := AppendFormatted(preview, truncated, formatted, limit, rendered);
  }

  /** The inner loop of `Summarize`: the formatted lines of one source line appended one by one until the preview is truncated. */
  method AppendFormatted(preview: string, truncated: bool, formatted: seq<string>, limit: nat, ghost rendered: string)
    returns (previewAfter: string, truncatedAfter: bool)
    requires limit >= 1
    requires (preview, truncated) == Clip(rendered, limit)
    ensures (previewAfter, truncatedAfter) == Clip(RenderFrom(rendered, formatted), limit)
  {
    previewAfter, truncatedAfter := preview, truncated;
    var j := 0;
    while j < |formatted|
      invariant 0 <= j <= |formatted|
      invariant (previewAfter, truncatedAfter) == Clip(RenderFrom(rendered, formatted[..j]), limit)
    {
      AppendNextClips(rendered, formatted, j, limit);
      previewAfter, truncatedAfter := AppendLineLimited(previewAfter, formatted[j], limit, truncatedAfter);
      j := j + 1;
      if truncatedAfter {
        break;
      }
    }
    if j < |formatted| {
      ClipRest(rendered, formatted, j, limit);
    } else {
      assert formatted[..j] == formatted;
    }
  }

  lemma AppendNextClips(rendered: string, formatted: seq<string>, j: nat, limit: nat)
    requires j < |formatted| && limit >= 1
    ensures var (preview, truncated) := Clip(RenderFrom(rendered, formatted[..j]), limit);
      AppendLineLimitedOf(preview, formatted[j], limit, truncated) == Clip(RenderFrom(rendered, formatted[..j + 1]), limit)
  {
    AppendLineClips(RenderFrom(rendered, formatted[..j]), formatted[j], limit);
    RenderFromAppend(rendered, formatted[..j], [formatted[j]]);
    assert formatted[..j + 1] == formatted[..j] + [formatted[j]];
  }

  lemma ClipRest(rendered: string, formatted: seq<string>, j: nat, limit: nat)
    requires j <= |formatted| && |RenderFrom(rendered, formatted[..j])| >= limit
    ensures Clip(RenderFrom(rendered, formatted), limit) == Clip(RenderFrom(rendered, formatted[..j]), limit)
  {
    assert formatted == formatted[..j] + formatted[j..];
    RenderFromAppend(rendered, formatted[..j], formatted[j..]);
    RenderFromExtends(RenderFrom(rendered, formatted[..j]), formatted[j..]);
    ClipExtension(RenderFrom(rendered, formatted[..j]), RenderFrom(rendered, formatted), limit);
  }

  /** The summary text after the scan. */
  method WriteSummary(lineCount: nat, wordCount: nat, totalCharacters: nat, headings: seq<Heading>, truncated: bool, previewLimit: nat)
    returns (summary: string)
    ensures summary == Lines(SummaryLines(lineCount, wordCount, totalCharacters, headings, truncated, previewLimit))
  {
    var out := ["Lines: " + FormatN0(lineCount), "Words: " + FormatN0(wordCount),
      "Characters (including newline markers): " + FormatN0(totalCharacters),
      "Headings detected: " + FormatN0(|headings|)];
    if truncated {
      out := out + ["", "Preview limited to first " + FormatN0(previewLimit) + " characters."];
    } else {
      assert out + [] == out;
    }
    var section := HeadingList(headings);
    summary := Lines(out + section);
  }

  /** The heading list, written row by row. */
  method HeadingList(headings: seq<Heading>) returns (section: seq<string>)
    ensures section == HeadingSection(headings)
  {
    section := [];
    if |headings| > 0 {
      var limit := MinNat(|headings|, MaxHeadingRows);
      var rows := [];
      for i := 0 to limit
        invariant rows == HeadingRows(headings[..i])
      {
        TakeOneMore(headings, i);
        rows := rows + [HeadingRow(headings[i])];
      }
      section := ["", "Headings:"] + rows;
      if |headings| > limit {
        section := section + ["... (" + NatToString(|headings| - limit) + " more)"];
      } else {
        assert section + [] == section;
      }
    }
  }

}
