/**
 * String and byte helpers shared by every analyzer: the parts of .NET's
 * `string`, `char`, `Path` and number formatting that the core relies on.
 *
 * Character classes follow .NET where the rule is small and documented
 * (`char.IsWhiteSpace`); letter, digit and case rules are restricted to
 * ASCII (see README, "Left out").
 */
module Text {
  import opened Wrappers

  /** One octet of a file or stream. */
  type Byte = b: int | 0 <= b < 256

  /** `Environment.NewLine` on Windows, the platform the program targets. */
  const NewLine: string := "\r\n"

  // ---------------------------------------------------------------------
  // Character classes
  // ---------------------------------------------------------------------

  /** `char.IsWhiteSpace`: U+0009..U+000D, U+0020, U+0085, U+00A0 and the Unicode space separators. */
  predicate IsWhiteSpace(c: char)
  {
    ('\t' <= c <= '\r') || c == ' ' || c == '\U{85}' || c == '\U{A0}' || c == '\U{1680}'
    || ('\U{2000}' <= c <= '\U{200A}') || c == '\U{2028}' || c == '\U{2029}'
    || c == '\U{202F}' || c == '\U{205F}' || c == '\U{3000}'
  }

  /** `char.IsDigit`, restricted to ASCII. */
  predicate IsDigit(c: char)
  {
    '0' <= c <= '9'
  }

  /** `char.IsLetterOrDigit`, restricted to ASCII. */
  predicate IsLetterOrDigit(c: char)
  {
    IsDigit(c) || ('a' <= c <= 'z') || ('A' <= c <= 'Z')
  }

  /** `char.ToUpperInvariant`, restricted to ASCII. */
  function ToUpper(c: char): (r: char)
    ensures 'a' <= c <= 'z' ==> 'A' <= r <= 'Z'
    ensures !('a' <= c <= 'z') ==> r == c
  {
    if 'a' <= c <= 'z' then (c as int - 32) as char else c
  }

  /** `char.ToLowerInvariant`, restricted to ASCII. */
  function ToLower(c: char): (r: char)
    ensures 'A' <= c <= 'Z' ==> 'a' <= r <= 'z'
    ensures !('A' <= c <= 'Z') ==> r == c
  {
    if 'A' <= c <= 'Z' then (c as int + 32) as char else c
  }

  function ToUpperString(s: string): (r: string)
    ensures |r| == |s|
    ensures forall i :: 0 <= i < |s| ==> r[i] == ToUpper(s[i])
  {
    seq(|s|, i requires 0 <= i < |s| => ToUpper(s[i]))
  }

  function ToLowerString(s: string): (r: string)
    ensures |r| == |s|
    decreases |s|
  {
    if |s| == 0 then "" else ToLowerString(s[..|s| - 1]) + [ToLower(s[|s| - 1])]
  }

  /** `ToLowerString` lower-cases every character in place. */
  lemma {:induction false} ToLowerStringAt(s: string)
    ensures forall i :: 0 <= i < |s| ==> ToLowerString(s)[i] == ToLower(s[i])
    decreases |s|
  {
    if |s| > 0 {
      ToLowerStringAt(s[..|s| - 1]);
    }
  }

  /** `string.Equals(a, b, StringComparison.OrdinalIgnoreCase)`. */
  predicate EqualsIgnoreCase(a: string, b: string)
  {
    |a| == |b| && forall i :: 0 <= i < |a| ==> ToUpper(a[i]) == ToUpper(b[i])
  }

  // ---------------------------------------------------------------------
  // Blank strings and trimming
  // ---------------------------------------------------------------------

  /** `string.IsNullOrWhiteSpace` of a non-null string. */
  predicate IsBlank(s: string)
  {
    forall i :: 0 <= i < |s| ==> IsWhiteSpace(s[i])
  }

  /** `string.IsNullOrWhiteSpace` of a nullable string. */
  predicate IsNullOrWhiteSpace(s: Option<string>)
  {
    s.None? || IsBlank(s.value)
  }

  /** `string.TrimStart()`: drops the leading white space. */
  function TrimStart(s: string): (r: string)
    ensures |r| <= |s| && r == s[|s| - |r|..]
    ensures forall i :: 0 <= i < |s| - |r| ==> IsWhiteSpace(s[i])
    ensures r != [] ==> !IsWhiteSpace(r[0])
  {
    if |s| > 0 && IsWhiteSpace(s[0]) then TrimStart(s[1..]) else s
  }

  /** `string.TrimEnd()`: drops the trailing white space. */
  function TrimEnd(s: string): (r: string)
    ensures |r| <= |s| && r == s[..|r|]
    ensures forall i :: |r| <= i < |s| ==> IsWhiteSpace(s[i])
    ensures r != [] ==> !IsWhiteSpace(r[|r| - 1])
  {
    if |s| > 0 && IsWhiteSpace(s[|s| - 1]) then TrimEnd(s[..|s| - 1]) else s
  }

  /** Trailing white space added to a string is dropped again by `TrimEnd`. */
  lemma {:induction false} TrimEndDropsBlank(s: string, w: string)
    requires IsBlank(w)
    ensures TrimEnd(s + w) == TrimEnd(s)
    decreases |w|
  {
    if |w| == 0 {
      assert s + w == s;
    } else {
      var u := s + w;
      assert u[|u| - 1] == w[|w| - 1];
      assert u[..|u| - 1] == s + w[..|w| - 1];
      TrimEndDropsBlank(s, w[..|w| - 1]);
    }
  }

  /** `string.Trim()`: no white space at either end, and empty exactly for a blank input. */
  function Trim(s: string): (r: string)
    ensures |r| <= |s|
    ensures r != [] ==> !IsWhiteSpace(r[0]) && !IsWhiteSpace(r[|r| - 1])
    ensures r == [] <==> IsBlank(s)
    ensures IsTrimmed(r)
  {
    var t := TrimStart(s);
    var r := TrimEnd(t);
    assert t != [] ==> !IsWhiteSpace(s[|s| - |t|]);
    r
  }

  /** A trimmed string has no white space at its ends. */
  predicate IsTrimmed(s: string)
  {
    s == [] || (!IsWhiteSpace(s[0]) && !IsWhiteSpace(s[|s| - 1]))
  }

  lemma TrimOfTrimmed(s: string)
    requires IsTrimmed(s)
    ensures Trim(s) == s
  {
  }

  /** `TrimStart(chars)`: drops leading characters that belong to `chars`. */
  function TrimStartChars(s: string, chars: set<char>): (r: string)
    ensures |r| <= |s| && r == s[|s| - |r|..]
    ensures forall i :: 0 <= i < |s| - |r| ==> s[i] in chars
    ensures r != [] ==> r[0] !in chars
  {
    if |s| > 0 && s[0] in chars then TrimStartChars(s[1..], chars) else s
  }

  // ---------------------------------------------------------------------
  // Searching and rewriting
  // ---------------------------------------------------------------------

  predicate StartsWith(s: string, prefix: string)
  {
    |prefix| <= |s| && s[..|prefix|] == prefix
  }

  predicate EndsWith(s: string, suffix: string)
  {
    |suffix| <= |s| && s[|s| - |suffix|..] == suffix
  }

  /** `s.Contains(sub, StringComparison.Ordinal)`. */
  predicate Contains(s: string, sub: string)
  {
    exists i :: 0 <= i <= |s| && StartsWith(s[i..], sub)
  }

  /** `s.Contains(sub, StringComparison.OrdinalIgnoreCase)`. */
  predicate ContainsIgnoreCase(s: string, sub: string)
  {
    exists i :: 0 <= i <= |s| - |sub| && MatchesIgnoreCaseAt(s, sub, i)
  }

  predicate MatchesIgnoreCaseAt(s: string, sub: string, i: int)
  {
    0 <= i <= |s| - |sub| && EqualsIgnoreCase(s[i..i + |sub|], sub)
  }

  /** `s.IndexOf(c, from)`: the first position at or after `from` holding `c`, or -1. */
  function IndexOf(s: string, c: char, from: nat): (r: int)
    requires from <= |s|
    ensures r == -1 || (from <= r < |s| && s[r] == c)
    ensures r == -1 ==> forall i :: from <= i < |s| ==> s[i] != c
    ensures r != -1 ==> forall i :: from <= i < r ==> s[i] != c
    decreases |s| - from
  {
    if from == |s| then -1 else if s[from] == c then from else IndexOf(s, c, from + 1)
  }

  /** The first occurrence at or after `from` is what `IndexOf` finds. */
  lemma IndexOfIs(s: string, c: char, from: nat, k: nat)
    requires from <= k < |s| && s[k] == c
    requires forall i :: from <= i < k ==> s[i] != c
    ensures IndexOf(s, c, from) == k
  {
  }

  /** `s.Replace(pattern, replacement, StringComparison.Ordinal)`: left to right, non-overlapping. */
  function Replace(s: string, pattern: string, replacement: string): (r: string)
    requires |pattern| > 0
    decreases |s|
  {
    if |s| < |pattern| then s
    else if s[..|pattern|] == pattern then replacement + Replace(s[|pattern|..], pattern, replacement)
    else [s[0]] + Replace(s[1..], pattern, replacement)
  }

  /** Replacing a single character that does not occur leaves the text alone. */
  lemma {:induction false} ReplaceAbsentChar(s: string, c: char, replacement: string)
    requires c !in s
    ensures Replace(s, [c], replacement) == s
    decreases |s|
  {
    if |s| >= 1 {
      ReplaceAbsentChar(s[1..], c, replacement);
    }
  }

  /** A pattern whose first character does not occur is never replaced. */
  lemma {:induction false} ReplaceAbsentFirst(s: string, pattern: string, replacement: string)
    requires |pattern| > 0 && pattern[0] !in s
    ensures Replace(s, pattern, replacement) == s
    decreases |s|
  {
    if |s| >= |pattern| {
      assert s[..|pattern|][0] == s[0];
      assert s[1..] <= s || s[1..] == s[1..];
      assert forall c :: c in s[1..] ==> c in s;
      ReplaceAbsentFirst(s[1..], pattern, replacement);
    }
  }

  /** Replacing one character by another maps the text character by character. */
  lemma {:induction false} ReplaceCharByChar(s: string, c: char, d: char)
    ensures |Replace(s, [c], [d])| == |s|
    ensures forall i :: 0 <= i < |s| ==> Replace(s, [c], [d])[i] == (if s[i] == c then d else s[i])
    decreases |s|
  {
    if |s| >= 1 {
      ReplaceCharByChar(s[1..], c, d);
    }
  }

  /** `string.Join(separator, parts)`. */
  function Join(separator: string, parts: seq<string>): string
    decreases |parts|
  {
    if |parts| == 0 then ""
    else if |parts| == 1 then parts[0]
    else parts[0] + separator + Join(separator, parts[1..])
  }

  /** `s.Split(separator)` for a string separator: the pieces between its non-overlapping occurrences. */
  function SplitOn(s: string, separator: string): (parts: seq<string>)
    requires |separator| > 0
    ensures |parts| >= 1
    decreases |s|
  {
    if |s| < |separator| then [s]
    else if s[..|separator|] == separator then [""] + SplitOn(s[|separator|..], separator)
    else
      var rest := SplitOn(s[1..], separator);
      [[s[0]] + rest[0]] + rest[1..]
  }

  /** Splitting at a string separator and joining back with it gives the input. */
  lemma {:induction false} JoinSplitOn(s: string, separator: string)
    requires |separator| > 0
    ensures Join(separator, SplitOn(s, separator)) == s
    decreases |s|
  {
    if |s| < |separator| {
    } else if s[..|separator|] == separator {
      var rest := SplitOn(s[|separator|..], separator);
      JoinSplitOn(s[|separator|..], separator);
      assert ([""] + rest)[1..] == rest;
      assert s == separator + s[|separator|..];
    } else {
      var rest := SplitOn(s[1..], separator);
      JoinSplitOn(s[1..], separator);
      JoinOntoFirst(separator, [s[0]], rest);
      assert s == [s[0]] + s[1..];
    }
  }

  /** Prepending text to the first piece of a join prepends it to the join. */
  lemma JoinOntoFirst(separator: string, a: string, parts: seq<string>)
    requires |parts| > 0
    ensures Join(separator, [a + parts[0]] + parts[1..]) == a + Join(separator, parts)
  {
    var q := [a + parts[0]] + parts[1..];
    assert q[1..] == parts[1..];
    if |parts| > 1 {
      assert q[0] + separator + Join(separator, q[1..]) == a + (parts[0] + separator + Join(separator, parts[1..]));
    }
  }

  /** `s.Split(separator)`: the pieces between separators, at least one of them. */
  function Split(s: string, separator: char): (parts: seq<string>)
    ensures |parts| >= 1
    ensures forall k :: 0 <= k < |parts| ==> separator !in parts[k]
    decreases |s|
  {
    var i := IndexOf(s, separator, 0);
    if i == -1 then [s] else [s[..i]] + Split(s[i + 1..], separator)
  }

  /** Splitting and joining back with the same separator gives the input. */
  lemma {:induction false} JoinSplit(s: string, separator: char)
    ensures Join([separator], Split(s, separator)) == s
    decreases |s|
  {
    var i := IndexOf(s, separator, 0);
    if i != -1 {
      JoinSplit(s[i + 1..], separator);
      assert s == s[..i] + [separator] + s[i + 1..];
    }
  }

  /** Taking one more element of a sequence appends that element. */
  lemma TakeOneMore<T>(s: seq<T>, i: nat)
    requires i < |s|
    ensures s[..i + 1] == s[..i] + [s[i]]
    ensures s[..i + 1][..i] == s[..i]
  {
  }

  /** A slice of a slice is a slice of the whole. */
  lemma SliceOfSlice<T>(s: seq<T>, a: nat, b: nat, c: nat, d: nat)
    requires a <= b <= |s| && c <= d <= b - a
    ensures s[a..b][c..d] == s[a + c..a + d]
  {
    var t := s[a..b];
    forall i | 0 <= i < d - c
      ensures t[c..d][i] == s[a + c..a + d][i]
    {
      assert t[c..d][i] == t[c + i];
      assert t[c + i] == s[a + (c + i)];
    }
  }

  /** The smaller of two naturals (`Math.Min`). */
  function MinNat(a: nat, b: nat): nat
  {
    if a <= b then a else b
  }

  /** LINQ's `Take(count)`: the first `count` elements, all of them when there are fewer, none for `count <= 0`. */
  function Take<T>(s: seq<T>, count: int): (r: seq<T>)
    ensures |r| <= |s| && r == s[..|r|]
    ensures count <= 0 ==> r == []
    ensures count > 0 ==> |r| == MinNat(count, |s|)
  {
    if count <= 0 then [] else s[..MinNat(count, |s|)]
  }

  /** Appending an element grows `Take` by it exactly while fewer than `count` were taken. */
  lemma TakeSnoc<T>(s: seq<T>, x: T, count: int)
    ensures Take(s + [x], count) == if |s| < count then Take(s, count) + [x] else Take(s, count)
    ensures |Take(s, count)| < count <==> |s| < count
  {
    if count > 0 && |s| >= count {
      assert (s + [x])[..count] == s[..count];
    }
  }

  /** LINQ's `FirstOrDefault(p)` as a position: the first index whose element satisfies `p`. */
  function FirstWhere<T>(s: seq<T>, p: T -> bool): (r: Option<nat>)
    ensures r.None? <==> forall i :: 0 <= i < |s| ==> !p(s[i])
    ensures r.Some? ==> r.value < |s| && p(s[r.value])
    ensures r.Some? ==> forall i :: 0 <= i < r.value ==> !p(s[i])
    decreases |s|
  {
    if |s| == 0 then Option.None
    else
      var r := FirstWhere(s[..|s| - 1], p);
      if r.Some? then r else if p(s[|s| - 1]) then Some(|s| - 1) else Option.None
  }

  /** LINQ's `Sum(f)` over a sequence. */
  function SumOf<T>(s: seq<T>, f: T -> nat): nat
    decreases |s|
  {
    if |s| == 0 then 0 else SumOf(s[..|s| - 1], f) + f(s[|s| - 1])
  }

  /** The first match in `s + [x]`: the one in `s`, else `x` when it matches. */
  lemma FirstWhereSnoc<T>(s: seq<T>, x: T, p: T -> bool)
    ensures FirstWhere(s + [x], p)
      == if FirstWhere(s, p).Some? then FirstWhere(s, p) else if p(x) then Some(|s|) else Option.None
  {
    assert (s + [x])[..|s|] == s;
  }

  /** An element satisfying `p` means `FirstWhere` finds one. */
  lemma CandidateFound<T>(s: seq<T>, i: nat, p: T -> bool)
    requires i < |s| && p(s[i])
    ensures FirstWhere(s, p).Some?
  {
  }

  /** `SumOf` over `s + [x]` adds `f(x)`. */
  lemma SumOfSnoc<T>(s: seq<T>, x: T, f: T -> nat)
    ensures SumOf(s + [x], f) == SumOf(s, f) + f(x)
  {
    assert (s + [x])[..|s|] == s;
  }

  /** Joining pieces free of the separator and splitting again gives the pieces. */
  lemma {:induction false} SplitJoin(parts: seq<string>, separator: char)
    requires |parts| >= 1
    requires forall k :: 0 <= k < |parts| ==> separator !in parts[k]
    ensures Split(Join([separator], parts), separator) == parts
    decreases |parts|
  {
    if |parts| > 1 {
      var s := Join([separator], parts);
      var rest := Join([separator], parts[1..]);
      assert s == parts[0] + [separator] + rest;
      assert IndexOf(s, separator, 0) == |parts[0]| by {
        assert forall i :: 0 <= i < |parts[0]| ==> s[i] == parts[0][i];
        assert s[|parts[0]|] == separator;
      }
      assert s[..|parts[0]|] == parts[0];
      assert s[|parts[0]| + 1..] == rest;
      SplitJoin(parts[1..], separator);
    } else {
      assert Join([separator], parts) == parts[0];
    }
  }

  function Repeat(c: char, n: nat): (r: string)
    ensures |r| == n && forall i :: 0 <= i < n ==> r[i] == c
  {
    seq(n, _ => c)
  }

  /** `s.PadRight(width)`: `s` followed by spaces up to `width` characters. */
  function PadRight(s: string, width: int): (r: string)
    ensures |r| == if |s| >= width then |s| else width
    ensures r[..|s|] == s
    ensures forall i :: |s| <= i < |r| ==> r[i] == ' '
  {
    if |s| >= width then s else s + Repeat(' ', width - |s|)
  }

  /** The text a StringBuilder holds after `AppendLine` of each of `lines`. */
  function Lines(lines: seq<string>): string
    decreases |lines|
  {
    if |lines| == 0 then "" else lines[0] + NewLine + Lines(lines[1..])
  }

  /** A single line's text is the line and one line break, which is blank. */
  lemma LinesOfOne(line: string)
    ensures Lines([line]) == line + NewLine && IsBlank(NewLine)
  {
    assert [line][1..] == [];
  }

  /** Appending the next line of `lines` to the text of the first `k`. */
  lemma LinesOneMore(lines: seq<string>, k: nat)
    requires k < |lines|
    ensures Lines(lines[..k + 1]) == Lines(lines[..k]) + lines[k] + NewLine
  {
    assert lines[..k + 1] == lines[..k] + [lines[k]];
    LinesAppend(lines[..k], [lines[k]]);
    assert Lines([lines[k]]) == lines[k] + NewLine + Lines([]);
  }

  /** A line ending in a visible character survives `TrimEnd` of the text it is one line of. */
  lemma LineShown(before: seq<string>, line: string, after: seq<string>)
    requires line != [] && !IsWhiteSpace(line[|line| - 1])
    ensures Contains(TrimEnd(Lines(before + [line] + after)), line)
  {
    LinesHasLine(before, line, after);
    var p := Lines(before);
    var rest := NewLine + Lines(after);
    assert (p + line + rest)[|p|..|p| + |line|] == line;
    TrimEndKeeps(p + line + rest, |p|, line);
  }

  lemma LinesHasLine(before: seq<string>, line: string, after: seq<string>)
    ensures Lines(before + [line] + after) == Lines(before) + line + (NewLine + Lines(after))
  {
    assert before + [line] + after == before + ([line] + after);
    LinesAppend(before, [line] + after);
    assert ([line] + after)[1..] == after;
  }

  /** A prefix ending in a visible character survives `TrimEnd`. */
  lemma TrimEndKeepsPrefix(s: string, prefix: string)
    requires StartsWith(s, prefix) && prefix != [] && !IsWhiteSpace(prefix[|prefix| - 1])
    ensures StartsWith(TrimEnd(s), prefix)
  {
    assert s[|prefix| - 1] == prefix[|prefix| - 1];
    var r := TrimEnd(s);
    assert |r| >= |prefix|;
    assert r[..|prefix|] == s[..|prefix|];
  }

  /** Text ending in a visible character at `p + |t| - 1` keeps all of `t` through `TrimEnd`. */
  lemma TrimEndKeeps(s: string, p: nat, t: string)
    requires p + |t| <= |s| && s[p..p + |t|] == t && t != [] && !IsWhiteSpace(t[|t| - 1])
    ensures Contains(TrimEnd(s), t)
  {
    assert s[p + |t| - 1] == s[p..p + |t|][|t| - 1];
    var r := TrimEnd(s);
    assert |r| >= p + |t|;
    assert r[p..][..|t|] == s[p..p + |t|];
    assert StartsWith(r[p..], t);
  }

  lemma {:induction false} LinesAppend(a: seq<string>, b: seq<string>)
    ensures Lines(a + b) == Lines(a) + Lines(b)
    decreases |a|
  {
    if |a| > 0 {
      assert (a + b)[1..] == a[1..] + b;
      LinesAppend(a[1..], b);
    } else {
      assert a + b == b;
    }
  }

  predicate IsLineBreak(c: char)
  {
    c == '\r' || c == '\n'
  }

  predicate NoLineBreak(s: string)
  {
    forall i :: 0 <= i < |s| ==> !IsLineBreak(s[i])
  }

  /** The first line break at or after `from`, or the end of the text. */
  function LineEnd(s: string, from: nat): (r: nat)
    requires from <= |s|
    ensures from <= r <= |s|
    ensures forall i :: from <= i < r ==> !IsLineBreak(s[i])
    ensures r < |s| ==> IsLineBreak(s[r])
    decreases |s| - from
  {
    if from == |s| || IsLineBreak(s[from]) then from else LineEnd(s, from + 1)
  }

  /**
   * The lines `TextReader.ReadLine` yields until it returns null: a line ends
   * at "\r\n", "\r" or "\n", and a break at the very end starts no further line.
   */
  function ReadLines(text: string): (lines: seq<string>)
    ensures forall k :: 0 <= k < |lines| ==> NoLineBreak(lines[k])
    ensures lines == [] <==> text == []
    decreases |text|
  {
    if text == [] then []
    else
      var j := LineEnd(text, 0);
      if j == |text| then [text]
      else
        var next := if text[j] == '\r' && j + 1 < |text| && text[j + 1] == '\n' then j + 2 else j + 1;
        [text[..j]] + ReadLines(text[next..])
  }

  /** Reading back what `AppendLine` wrote gives the lines again, when none of them holds a line break. */
  lemma {:induction false} ReadLinesOfLines(lines: seq<string>)
    requires forall k :: 0 <= k < |lines| ==> NoLineBreak(lines[k])
    ensures ReadLines(Lines(lines)) == lines
    decreases |lines|
  {
    if |lines| > 0 {
      var text := Lines(lines);
      var rest := Lines(lines[1..]);
      assert text == lines[0] + (NewLine + rest);
      LineEndOf(lines[0], NewLine + rest);
      assert text[|lines[0]|] == '\r' && text[|lines[0]| + 1] == '\n';
      assert text[..|lines[0]|] == lines[0];
      assert text[|lines[0]| + 2..] == rest;
      ReadLinesOfLines(lines[1..]);
    }
  }

  lemma LineEndOf(line: string, rest: string)
    requires NoLineBreak(line) && |rest| > 0 && IsLineBreak(rest[0])
    ensures LineEnd(line + rest, 0) == |line|
  {
    var s := line + rest;
    assert IsLineBreak(s[|line|]);
    assert forall i :: 0 <= i < |line| ==> s[i] == line[i];
  }

  // ---------------------------------------------------------------------
  // Paths (Windows rules: '\', '/' and ':' end a directory part)
  // ---------------------------------------------------------------------

  predicate IsSeparator(c: char)
  {
    c == '\\' || c == '/' || c == ':'
  }

  /** `Path.GetFileName`: what follows the last separator. */
  function GetFileName(path: string): (r: string)
    ensures |r| <= |path| && r == path[|path| - |r|..]
    ensures forall i :: 0 <= i < |r| ==> !IsSeparator(r[i])
    decreases |path|
  {
    if |path| == 0 then ""
    else if IsSeparator(path[|path| - 1]) then ""
    else GetFileName(path[..|path| - 1]) + [path[|path| - 1]]
  }

  /** `Path.GetExtension`: from the last '.' of the file name, or "" when there is none or it ends the name. */
  function GetExtension(path: string): (r: string)
    ensures r == "" || (r[0] == '.' && |r| >= 2 && EndsWith(path, r))
    ensures forall i :: 1 <= i < |r| ==> r[i] != '.' && !IsSeparator(r[i])
  {
    var name := GetFileName(path);
    var k := LastDot(name, |name|);
    if k < 0 || k == |name| - 1 then "" else name[k..]
  }

  /** The position of the last '.' in `s[..end]`, or -1. */
  function LastDot(s: string, end: nat): (k: int)
    requires end <= |s|
    ensures -1 <= k < end
    ensures k >= 0 ==> s[k] == '.'
    ensures forall i :: k < i < end ==> s[i] != '.'
  {
    if end == 0 then -1 else if s[end - 1] == '.' then end - 1 else LastDot(s, end - 1)
  }

  // ---------------------------------------------------------------------
  // Numbers as text
  // ---------------------------------------------------------------------

  function DigitChar(d: nat): (c: char)
    requires d < 10
    ensures IsDigit(c)
  {
    ('0' as int + d) as char
  }

  /** The decimal digits of `n`, most significant first, without leading zeros. */
  function NatToString(n: nat): (r: string)
    ensures |r| >= 1
    ensures forall i :: 0 <= i < |r| ==> IsDigit(r[i])
    ensures |r| > 1 ==> r[0] != '0'
    decreases n
  {
    if n < 10 then [DigitChar(n)] else NatToString(n / 10) + [DigitChar(n % 10)]
  }

  /** The value of a string of decimal digits. */
  function ParseDigits(s: string): int
    requires forall i :: 0 <= i < |s| ==> IsDigit(s[i])
    decreases |s|
  {
    if |s| == 0 then 0 else 10 * ParseDigits(s[..|s| - 1]) + (s[|s| - 1] as int - '0' as int)
  }

  lemma {:induction false} ParseNatToString(n: nat)
    ensures ParseDigits(NatToString(n)) == n
    decreases n
  {
    if n >= 10 {
      var s := NatToString(n);
      assert s[..|s| - 1] == NatToString(n / 10);
      ParseNatToString(n / 10);
    }
  }

  /** An integer in decimal, with a leading '-' when negative. */
  function IntToString(n: int): string
  {
    if n < 0 then "-" + NatToString(-n) else NatToString(n)
  }

  /** `n.ToString("N0")` in the invariant culture: decimal digits grouped by ','. */
  function FormatN0(n: int): string
  {
    if n < 0 then "-" + GroupThousands(-n) else GroupThousands(n)
  }

  function GroupThousands(n: nat): string
    decreases n
  {
    if n < 1000 then NatToString(n)
    else
      var low := NatToString(n % 1000);
      NatToStringBelow1000(n % 1000);
      GroupThousands(n / 1000) + "," + Repeat('0', 3 - |low|) + low
  }

  lemma NatToStringBelow1000(n: nat)
    requires n < 1000
    ensures |NatToString(n)| <= 3
  {
    if n >= 10 {
      assert n / 10 < 100;
      if n / 10 >= 10 {
        assert |NatToString(n / 10 / 10)| == 1;
      }
    }
  }

  /** The upper-case hexadecimal digit of `d`. */
  function HexDigit(d: nat): (c: char)
    requires d < 16
  {
    if d < 10 then DigitChar(d) else ('A' as int + d - 10) as char
  }

  /** `b.ToString("X2")`. */
  function Hex2(b: Byte): (r: string)
    ensures |r| == 2
  {
    [HexDigit(b / 16), HexDigit(b % 16)]
  }

  /** The upper-case hexadecimal text of bytes, two digits each (`string.Concat` of `ToString("X2")`). */
  function HexText(bytes: seq<Byte>): (s: string)
    ensures |s| == 2 * |bytes|
  {
    seq(2 * |bytes|, j requires 0 <= j < 2 * |bytes| =>
      var b := bytes[j / 2]; HexDigit(if j % 2 == 0 then b / 16 else b % 16))
  }

  /** `n.ToString("X" + width)`: upper-case hexadecimal, zero-padded to at least `width` digits. */
  function HexPadded(n: nat, width: nat): (r: string)
    ensures |r| >= width && |r| >= 1
    decreases n + width
  {
    if n < 16 && width <= 1 then [HexDigit(n)]
    else HexPadded(n / 16, if width > 0 then width - 1 else 0) + [HexDigit(n % 16)]
  }

  /** The value of a hexadecimal digit, or -1 (the digit test of `Convert.ToByte(s, 16)`). */
  function HexValue(c: char): (v: int)
    ensures -1 <= v < 16
  {
    if '0' <= c <= '9' then c as int - '0' as int
    else if 'A' <= c <= 'F' then c as int - 'A' as int + 10
    else if 'a' <= c <= 'f' then c as int - 'a' as int + 10
    else -1
  }

  lemma HexValueOfHexDigit(d: nat)
    requires d < 16
    ensures HexValue(HexDigit(d)) == d
  {
  }
}
