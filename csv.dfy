/**
 * The CSV analyzer (Services/CsvSummarizer.cs): picks a delimiter from the
 * header line, splits lines with a quote-aware state machine, keeps a
 * preview of the first rows, collects numeric statistics per column, and
 * stops scanning after a fixed number of rows.
 *
 * Records are the lines a line reader yields: a quoted field never spans
 * two lines here.
 */
module Csv {
  import opened Wrappers
  import opened Text
  import opened Results

  // ---------------------------------------------------------------------
  // The quote-aware line splitter
  // ---------------------------------------------------------------------

  function TrimAll(xs: seq<string>): (r: seq<string>)
    ensures |r| == |xs| && forall i :: 0 <= i < |xs| ==> r[i] == Trim(xs[i])
  {
    seq(|xs|, i requires 0 <= i < |xs| => Trim(xs[i]))
  }

  /**
   * The cells the splitter emits for the rest `s` of a line, given whether it
   * is inside quotes and the text of the cell collected so far. Outside quotes
   * a '"' opens quotes; inside, '""' stands for one '"' and a lone '"' closes
   * them. The delimiter ends a cell only outside quotes. Every cell is trimmed.
   */
  function SplitRest(s: string, delimiter: char, inQuotes: bool, current: string): (cells: seq<string>)
    ensures |cells| >= 1
    decreases |s|
  {
    if |s| == 0 then [Trim(current)]
    else if s[0] == '"' then
      if inQuotes && |s| > 1 && s[1] == '"' then SplitRest(s[2..], delimiter, inQuotes, current + ['"'])
      else SplitRest(s[1..], delimiter, !inQuotes, current)
    else if s[0] == delimiter && !inQuotes then [Trim(current)] + SplitRest(s[1..], delimiter, false, "")
    else SplitRest(s[1..], delimiter, inQuotes, current + [s[0]])
  }

  /** Every cell the splitter emits is trimmed. */
  lemma {:induction false} SplitRestTrimmed(s: string, delimiter: char, inQuotes: bool, current: string)
    ensures forall k :: 0 <= k < |SplitRest(s, delimiter, inQuotes, current)| ==> IsTrimmed(SplitRest(s, delimiter, inQuotes, current)[k])
    decreases |s|
  {
    if |s| == 0 {
    } else if s[0] == '"' {
      if inQuotes && |s| > 1 && s[1] == '"' {
        SplitRestTrimmed(s[2..], delimiter, inQuotes, current + ['"']);
      } else {
        SplitRestTrimmed(s[1..], delimiter, !inQuotes, current);
      }
    } else if s[0] == delimiter && !inQuotes {
      SplitRestTrimmed(s[1..], delimiter, false, "");
    } else {
      SplitRestTrimmed(s[1..], delimiter, inQuotes, current + [s[0]]);
    }
  }

  /** The cells of a whole line. */
  function SplitCsv(line: string, delimiter: char): seq<string>
  {
    SplitRest(line, delimiter, false, "")
  }

  /** The number of delimiters the same state machine finds outside quotes in the rest `s` of a line. */
  function CountRest(s: string, delimiter: char, inQuotes: bool): nat
    decreases |s|
  {
    if |s| == 0 then 0
    else if s[0] == '"' then
      if inQuotes && |s| > 1 && s[1] == '"' then CountRest(s[2..], delimiter, inQuotes)
      else CountRest(s[1..], delimiter, !inQuotes)
    else if s[0] == delimiter && !inQuotes then 1 + CountRest(s[1..], delimiter, false)
    else CountRest(s[1..], delimiter, inQuotes)
  }

  /** The unquoted delimiters of a whole line. */
  function Occurrences(line: string, delimiter: char): nat
  {
    CountRest(line, delimiter, false)
  }

  /** The splitter and the counter agree: one cell more than delimiters. */
  lemma {:induction false} SplitRestCount(s: string, delimiter: char, inQuotes: bool, current: string)
    ensures |SplitRest(s, delimiter, inQuotes, current)| == CountRest(s, delimiter, inQuotes) + 1
    decreases |s|
  {
    if |s| == 0 {
    } else if s[0] == '"' {
      if inQuotes && |s| > 1 && s[1] == '"' {
        SplitRestCount(s[2..], delimiter, inQuotes, current + ['"']);
      } else {
        SplitRestCount(s[1..], delimiter, !inQuotes, current);
      }
    } else if s[0] == delimiter && !inQuotes {
      SplitRestCount(s[1..], delimiter, false, "");
    } else {
      SplitRestCount(s[1..], delimiter, inQuotes, current + [s[0]]);
    }
  }

  /** `SplitCsvLine(line, d)` has `CountOccurrences(line, d) + 1` cells, for every delimiter. */
  lemma CellCount(line: string, delimiter: char)
    ensures |SplitCsv(line, delimiter)| == Occurrences(line, delimiter) + 1
  {
    SplitRestCount(line, delimiter, false, "");
  }

  /** `SplitCsvLine`: the index loop with an in-quotes flag. */
  method SplitCsvLine(line: string, delimiter: char) returns (result: seq<string>)
    ensures result == SplitCsv(line, delimiter)
  {
    result := [];
    var current := "";
    var inQuotes := false;
    var i := 0;
    while i < |line|
      invariant 0 <= i <= |line|
      invariant result + SplitRest(line[i..], delimiter, inQuotes, current) == SplitCsv(line, delimiter)
      decreases |line| - i
    {
      var c := line[i];
      assert line[i..][1..] == line[i + 1..];
      if c == '"' {
        if inQuotes && i + 1 < |line| && line[i + 1] == '"' {
          assert line[i..][2..] == line[i + 2..];
          current := current + ['"'];
          i := i + 1;
        } else {
          inQuotes := !inQuotes;
        }
      } else if c == delimiter && !inQuotes {
        result := result + [Trim(current)];
        current := "";
      } else {
        current := current + [c];
      }
      i := i + 1;
    }
    result := result + [Trim(current)];
  }

  /** `CountOccurrences`: the same loop, counting instead of collecting. */
  method CountOccurrences(line: string, delimiter: char) returns (count: nat)
    ensures count == Occurrences(line, delimiter)
  {
    var inQuotes := false;
    count := 0;
    var i := 0;
    while i < |line|
      invariant 0 <= i <= |line|
      invariant count + CountRest(line[i..], delimiter, inQuotes) == Occurrences(line, delimiter)
      decreases |line| - i
    {
      var c := line[i];
      assert line[i..][1..] == line[i + 1..];
      if c == '"' {
        if inQuotes && i + 1 < |line| && line[i + 1] == '"' {
          assert line[i..][2..] == line[i + 2..];
          i := i + 1;
        } else {
          inQuotes := !inQuotes;
        }
      } else if c == delimiter && !inQuotes {
        count := count + 1;
      }
      i := i + 1;
    }
  }

  // Quoted fields (RFC 4180, section 2, rules 5 to 7)

  /** A field's text with every '"' doubled. */
  function Escape(cell: string): string
    decreases |cell|
  {
    if cell == [] then []
    else (if cell[0] == '"' then "\"\"" else [cell[0]]) + Escape(cell[1..])
  }

  /** A field enclosed in quotes. */
  function Quote(cell: string): string
  {
    "\"" + Escape(cell) + "\""
  }

  function QuoteAll(cells: seq<string>): (r: seq<string>)
    ensures |r| == |cells| && forall i :: 0 <= i < |cells| ==> r[i] == Quote(cells[i])
  {
    seq(|cells|, i requires 0 <= i < |cells| => Quote(cells[i]))
  }

  // One step of the splitter each.

  lemma StepPairedQuote(t: string, delimiter: char, current: string)
    requires |t| >= 2 && t[0] == '"' && t[1] == '"'
    ensures SplitRest(t, delimiter, true, current) == SplitRest(t[2..], delimiter, true, current + ['"'])
  {
  }

  lemma StepToggle(t: string, delimiter: char, inQuotes: bool, current: string)
    requires |t| >= 1 && t[0] == '"' && !(inQuotes && |t| > 1 && t[1] == '"')
    ensures SplitRest(t, delimiter, inQuotes, current) == SplitRest(t[1..], delimiter, !inQuotes, current)
  {
  }

  lemma StepOther(t: string, delimiter: char, inQuotes: bool, current: string)
    requires |t| >= 1 && t[0] != '"' && !(t[0] == delimiter && !inQuotes)
    ensures SplitRest(t, delimiter, inQuotes, current) == SplitRest(t[1..], delimiter, inQuotes, current + [t[0]])
  {
  }

  lemma StepDelimiter(t: string, delimiter: char, current: string)
    requires |t| >= 1 && t[0] == delimiter && delimiter != '"'
    ensures SplitRest(t, delimiter, false, current) == [Trim(current)] + SplitRest(t[1..], delimiter, false, "")
  {
  }

  /** Inside quotes, an escaped field and its closing quote add the field's text to the cell and leave quotes. */
  lemma {:induction false} EscapedThenClose(cell: string, rest: string, delimiter: char, current: string)
    requires rest == [] || rest[0] != '"'
    ensures SplitRest(Escape(cell) + "\"" + rest, delimiter, true, current)
         == SplitRest(rest, delimiter, false, current + cell)
    decreases |cell|
  {
    if cell == [] {
      EscapedEmpty(cell, rest, delimiter, current);
    } else if cell[0] == '"' {
      EscapedThenClose(cell[1..], rest, delimiter, current + ['"']);
      EscapedQuote(cell, rest, delimiter, current);
    } else {
      EscapedThenClose(cell[1..], rest, delimiter, current + [cell[0]]);
      EscapedOther(cell, rest, delimiter, current);
    }
  }

  lemma EscapedEmpty(cell: string, rest: string, delimiter: char, current: string)
    requires cell == [] && (rest == [] || rest[0] != '"')
    ensures SplitRest(Escape(cell) + "\"" + rest, delimiter, true, current)
         == SplitRest(rest, delimiter, false, current + cell)
  {
    var s := Escape(cell) + "\"" + rest;
    assert s == "\"" + rest;
    assert s[1..] == rest;
    StepToggle(s, delimiter, true, current);
    assert current + cell == current;
  }

  lemma EscapedQuote(cell: string, rest: string, delimiter: char, current: string)
    requires cell != [] && cell[0] == '"'
    requires SplitRest(Escape(cell[1..]) + "\"" + rest, delimiter, true, current + ['"'])
          == SplitRest(rest, delimiter, false, current + ['"'] + cell[1..])
    ensures SplitRest(Escape(cell) + "\"" + rest, delimiter, true, current)
         == SplitRest(rest, delimiter, false, current + cell)
  {
    var s := Escape(cell) + "\"" + rest;
    EscapedShape(cell, rest);
    StepPairedQuote(s, delimiter, current);
    AppendFirst(current, cell);
  }

  lemma EscapedOther(cell: string, rest: string, delimiter: char, current: string)
    requires cell != [] && cell[0] != '"'
    requires SplitRest(Escape(cell[1..]) + "\"" + rest, delimiter, true, current + [cell[0]])
          == SplitRest(rest, delimiter, false, current + [cell[0]] + cell[1..])
    ensures SplitRest(Escape(cell) + "\"" + rest, delimiter, true, current)
         == SplitRest(rest, delimiter, false, current + cell)
  {
    var s := Escape(cell) + "\"" + rest;
    EscapedShape(cell, rest);
    StepOther(s, delimiter, true, current);
    AppendFirst(current, cell);
  }

  lemma EscapedShape(cell: string, rest: string)
    requires cell != []
    ensures var s := Escape(cell) + "\"" + rest;
      var tail := Escape(cell[1..]) + "\"" + rest;
      if cell[0] == '"' then |s| >= 2 && s[0] == '"' && s[1] == '"' && s[2..] == tail
      else |s| >= 1 && s[0] == cell[0] && s[1..] == tail
  {
    var head := if cell[0] == '"' then "\"\"" else [cell[0]];
    var e := Escape(cell[1..]);
    assert Escape(cell) == head + e;
    Regroup(head, e, rest);
    DropPrefix(head, e + "\"" + rest);
  }

  lemma Regroup(head: string, e: string, rest: string)
    ensures head + e + "\"" + rest == head + (e + "\"" + rest)
  {
  }

  lemma DropPrefix(head: string, tail: string)
    ensures (head + tail)[|head|..] == tail
    ensures forall i :: 0 <= i < |head| ==> (head + tail)[i] == head[i]
  {
  }

  lemma AppendFirst(current: string, cell: string)
    requires cell != []
    ensures current + [cell[0]] + cell[1..] == current + cell
  {
    assert [cell[0]] + cell[1..] == cell;
  }

  /** A quoted field followed by the delimiter yields the field's trimmed text as one cell. */
  lemma QuotedThenDelimiter(cell: string, rest: string, delimiter: char)
    requires delimiter != '"'
    ensures SplitRest(Quote(cell) + [delimiter] + rest, delimiter, false, "")
         == [Trim(cell)] + SplitRest(rest, delimiter, false, "")
  {
    var s := Quote(cell) + [delimiter] + rest;
    var after := [delimiter] + rest;
    assert s == "\"" + (Escape(cell) + "\"" + after);
    assert s[1..] == Escape(cell) + "\"" + after;
    StepToggle(s, delimiter, false, "");
    EscapedThenClose(cell, after, delimiter, "");
    assert "" + cell == cell;
    assert after[1..] == rest;
    StepDelimiter(after, delimiter, cell);
  }

  lemma QuotedAlone(cell: string, delimiter: char)
    ensures SplitRest(Quote(cell), delimiter, false, "") == [Trim(cell)]
  {
    var s := Quote(cell);
    assert s[1..] == Escape(cell) + "\"" + "";
    StepToggle(s, delimiter, false, "");
    EscapedThenClose(cell, "", delimiter, "");
    assert "" + cell == cell;
  }

  /**
   * Round trip: fields written as quoted CSV (quotes doubled) and joined by
   * the delimiter split back into the fields, trimmed. So inside quotes '""'
   * reads as '"' and the delimiter is an ordinary character.
   */
  lemma {:induction false} QuotedRoundTrip(cells: seq<string>, delimiter: char)
    requires |cells| >= 1 && delimiter != '"'
    ensures SplitCsv(Join([delimiter], QuoteAll(cells)), delimiter) == TrimAll(cells)
    decreases |cells|
  {
    if |cells| == 1 {
      QuotedSingle(cells, delimiter);
    } else {
      QuotedRoundTrip(cells[1..], delimiter);
      QuotedCons(cells, delimiter);
    }
  }

  lemma QuotedSingle(cells: seq<string>, delimiter: char)
    requires |cells| == 1
    ensures SplitCsv(Join([delimiter], QuoteAll(cells)), delimiter) == TrimAll(cells)
  {
    assert Join([delimiter], QuoteAll(cells)) == Quote(cells[0]);
    QuotedAlone(cells[0], delimiter);
    assert TrimAll(cells) == [Trim(cells[0])];
  }

  lemma QuotedCons(cells: seq<string>, delimiter: char)
    requires |cells| > 1 && delimiter != '"'
    requires SplitCsv(Join([delimiter], QuoteAll(cells[1..])), delimiter) == TrimAll(cells[1..])
    ensures SplitCsv(Join([delimiter], QuoteAll(cells)), delimiter) == TrimAll(cells)
  {
    JoinQuoteAllCons(cells, delimiter);
    QuotedThenDelimiter(cells[0], Join([delimiter], QuoteAll(cells[1..])), delimiter);
    TrimAllCons(cells);
  }

  lemma JoinQuoteAllCons(cells: seq<string>, delimiter: char)
    requires |cells| > 1
    ensures Join([delimiter], QuoteAll(cells)) == Quote(cells[0]) + [delimiter] + Join([delimiter], QuoteAll(cells[1..]))
  {
    assert QuoteAll(cells)[1..] == QuoteAll(cells[1..]);
  }

  lemma TrimAllCons(cells: seq<string>)
    requires |cells| > 0
    ensures TrimAll(cells) == [Trim(cells[0])] + TrimAll(cells[1..])
  {
  }

  // Lines without quotes

  lemma {:induction false} IndexOfShift(c: char, s: string, d: char, k: nat)
    requires k <= |s|
    ensures IndexOf([c] + s, d, k + 1) == if IndexOf(s, d, k) == -1 then -1 else IndexOf(s, d, k) + 1
    decreases |s| - k
  {
    if k < |s| {
      IndexOfShift(c, s, d, k + 1);
    }
  }

  lemma SplitConsOther(c: char, s: string, d: char)
    requires c != d
    ensures Split([c] + s, d) == [[c] + Split(s, d)[0]] + Split(s, d)[1..]
  {
    IndexOfShift(c, s, d, 0);
    var j := IndexOf(s, d, 0);
    if j != -1 {
      assert ([c] + s)[..j + 1] == [c] + s[..j];
      assert ([c] + s)[j + 2..] == s[j + 1..];
    }
  }

  lemma SplitConsDelimiter(s: string, d: char)
    ensures Split([d] + s, d) == [""] + Split(s, d)
  {
    assert ([d] + s)[1..] == s;
  }

  /** On the rest of a line without quotes, the splitter is `string.Split` on the delimiter with every piece trimmed. */
  lemma {:induction false} UnquotedRest(s: string, delimiter: char, current: string)
    requires '"' !in s
    ensures SplitRest(s, delimiter, false, current)
         == [Trim(current + Split(s, delimiter)[0])] + TrimAll(Split(s, delimiter)[1..])
    decreases |s|
  {
    if |s| == 0 {
      assert current + Split(s, delimiter)[0] == current;
    } else if s[0] == delimiter {
      UnquotedRest(s[1..], delimiter, "");
      UnquotedDelimiter(s, delimiter, current);
    } else {
      UnquotedRest(s[1..], delimiter, current + [s[0]]);
      UnquotedOther(s, delimiter, current);
    }
  }

  lemma UnquotedDelimiter(s: string, delimiter: char, current: string)
    requires |s| > 0 && s[0] == delimiter && delimiter != '"'
    requires SplitRest(s[1..], delimiter, false, "")
          == [Trim("" + Split(s[1..], delimiter)[0])] + TrimAll(Split(s[1..], delimiter)[1..])
    ensures SplitRest(s, delimiter, false, current)
         == [Trim(current + Split(s, delimiter)[0])] + TrimAll(Split(s, delimiter)[1..])
  {
    var p := Split(s[1..], delimiter);
    StepDelimiter(s, delimiter, current);
    assert s == [delimiter] + s[1..];
    SplitConsDelimiter(s[1..], delimiter);
    assert Split(s, delimiter)[0] == "" && Split(s, delimiter)[1..] == p;
    assert current + "" == current;
    assert SplitRest(s[1..], delimiter, false, "") == TrimAll(p) by {
      assert "" + p[0] == p[0];
      TrimAllCons(p);
    }
  }

  lemma UnquotedOther(s: string, delimiter: char, current: string)
    requires |s| > 0 && s[0] != delimiter && s[0] != '"'
    requires SplitRest(s[1..], delimiter, false, current + [s[0]])
          == [Trim(current + [s[0]] + Split(s[1..], delimiter)[0])] + TrimAll(Split(s[1..], delimiter)[1..])
    ensures SplitRest(s, delimiter, false, current)
         == [Trim(current + Split(s, delimiter)[0])] + TrimAll(Split(s, delimiter)[1..])
  {
    var p := Split(s[1..], delimiter);
    StepOther(s, delimiter, false, current);
    assert s == [s[0]] + s[1..];
    SplitConsOther(s[0], s[1..], delimiter);
    assert current + [s[0]] + p[0] == current + ([s[0]] + p[0]);
  }

  /** A line without quotes splits exactly like `string.Split` followed by trimming each piece. */
  lemma UnquotedLine(line: string, delimiter: char)
    requires '"' !in line
    ensures SplitCsv(line, delimiter) == TrimAll(Split(line, delimiter))
  {
    UnquotedRest(line, delimiter, "");
    var p := Split(line, delimiter);
    assert "" + p[0] == p[0];
    TrimAllCons(p);
  }

  // ---------------------------------------------------------------------
  // Delimiter election
  // ---------------------------------------------------------------------

  /** The candidate delimiters, in the order they are tried. */
  const Candidates: seq<char> := [',', ';', '\t', '|', ':']

  /** The best of the first `n` candidates and its count, starting from (',', -1); a later candidate wins only with a strictly larger count. */
  function Elect(line: string, n: nat): (char, int)
    requires n <= |Candidates|
  {
    if n == 0 then (',', -1)
    else
      var prev := Elect(line, n - 1);
      var count := Occurrences(line, Candidates[n - 1]);
      if count > prev.1 then (Candidates[n - 1], count) else prev
  }

  /** Candidate `k` holds the largest count among the first `n`, and no earlier candidate ties it. */
  predicate IsFirstBest(line: string, n: nat, k: nat)
    requires n <= |Candidates|
  {
    && k < n
    && (forall j :: 0 <= j < k ==> Occurrences(line, Candidates[j]) < Occurrences(line, Candidates[k]))
    && (forall j :: k < j < n ==> Occurrences(line, Candidates[j]) <= Occurrences(line, Candidates[k]))
  }

  /** Once a candidate has been tried, the best so far is the first candidate with the largest count. */
  lemma {:induction false} ElectionOutcome(line: string, n: nat) returns (k: nat)
    requires 0 < n <= |Candidates|
    ensures IsFirstBest(line, n, k)
    ensures Elect(line, n) == (Candidates[k], Occurrences(line, Candidates[k]) as int)
  {
    if n == 1 {
      k := 0;
    } else {
      var k' := ElectionOutcome(line, n - 1);
      if Occurrences(line, Candidates[n - 1]) > Elect(line, n - 1).1 {
        k := n - 1;
      } else {
        k := k';
      }
    }
  }

  /**
   * The delimiter `DetectDelimiter` settles on: the first candidate with the
   * strictly largest number of unquoted occurrences in the header line, or
   * ',' when none occurs at all.
   */
  function ElectDelimiter(line: string): (d: char)
    ensures d in Candidates
    ensures (forall j :: 0 <= j < |Candidates| ==> Occurrences(line, Candidates[j]) == 0) ==> d == ','
    ensures (exists j :: 0 <= j < |Candidates| && Occurrences(line, Candidates[j]) > 0) ==>
      exists k :: 0 <= k < |Candidates| && d == Candidates[k] && Occurrences(line, d) > 0
        && (forall j :: 0 <= j < k ==> Occurrences(line, Candidates[j]) < Occurrences(line, d))
        && (forall j :: k < j < |Candidates| ==> Occurrences(line, Candidates[j]) <= Occurrences(line, d))
  {
    var best := Elect(line, |Candidates|);
    assert exists k: nat :: IsFirstBest(line, |Candidates|, k) && best == (Candidates[k], Occurrences(line, Candidates[k]) as int) by {
      var k := ElectionOutcome(line, |Candidates|);
    }
    if best.1 > 0 then best.0 else ','
  }

  /** `DetectDelimiter`: tries each candidate in turn, keeping the best count. */
  method DetectDelimiter(line: string) returns (d: char)
    ensures d == ElectDelimiter(line)
  {
    var bestDelimiter := ',';
    var bestCount: int := -1;
    var idx := 0;
    while idx < |Candidates|
      invariant 0 <= idx <= |Candidates|
      invariant (bestDelimiter, bestCount) == Elect(line, idx)
    {
      var candidate := Candidates[idx];
      var count := CountOccurrences(line, candidate);
      if count > bestCount {
        bestCount := count;
        bestDelimiter := candidate;
      }
      idx := idx + 1;
    }
    d := if bestCount > 0 then bestDelimiter else ',';
  }

  /** `DescribeDelimiter`: a readable name for the delimiter. */
  function DescribeDelimiter(delimiter: char): (r: string)
    ensures delimiter in Candidates ==> |r| > 1 && r[|r| - 1] == ')'
    ensures delimiter !in Candidates ==> r == [delimiter]
  {
    match delimiter
    case '\t' => "Tab (\\t)"
    case ';' => "Semicolon (;)"
    case '|' => "Pipe (|)"
    case ':' => "Colon (:)"
    case ',' => "Comma (,)"
    case _ => [delimiter]
  }

  // ---------------------------------------------------------------------
  // Rows, headers and statistics
  // ---------------------------------------------------------------------

  /** A row cut or padded with "" to exactly `columnCount` cells. */
  function PaddedRow(columnCount: nat, cells: seq<string>): (row: seq<string>)
    ensures |row| == columnCount
    ensures forall i :: 0 <= i < columnCount ==> row[i] == if i < |cells| then cells[i] else ""
  {
    seq(columnCount, i requires 0 <= i < columnCount => if i < |cells| then cells[i] else "")
  }

  /** `ToRowArray`: fills a fresh array of `columnCount` cells. */
  method ToRowArray(columnCount: nat, cells: seq<string>) returns (row: seq<string>)
    ensures row == PaddedRow(columnCount, cells)
  {
    var a := new string[columnCount];
    var i := 0;
    while i < columnCount
      invariant 0 <= i <= columnCount
      invariant forall j :: 0 <= j < i ==> a[j] == PaddedRow(columnCount, cells)[j]
    {
      a[i] := if i < |cells| then cells[i] else "";
      i := i + 1;
    }
    row := a[..];
  }

  /** The headers as shown: a blank header takes the name "Column n" (counting from 1). */
  function NamedHeaders(headers: seq<string>): (r: seq<string>)
    ensures |r| == |headers|
  {
    seq(|headers|, i requires 0 <= i < |headers| => ColumnName(headers, i))
  }

  function ColumnName(headers: seq<string>, i: nat): string
    requires i < |headers|
  {
    if IsBlank(headers[i]) then "Column " + NatToString(i + 1) else headers[i]
  }

  /** Every shown header is non-blank; a header that was not blank is kept as it was, and a blank one is named after its position. */
  lemma NamedHeadersNotBlank(headers: seq<string>, i: nat)
    requires i < |headers|
    ensures !IsBlank(NamedHeaders(headers)[i])
    ensures !IsBlank(headers[i]) ==> NamedHeaders(headers)[i] == headers[i]
    ensures IsBlank(headers[i]) ==> StartsWith(NamedHeaders(headers)[i], "Column ")
  {
    var name := NamedHeaders(headers)[i];
    if IsBlank(headers[i]) {
      assert name[0] == 'C';
    }
  }

  /** The numbered list of columns under "CSV Columns:". */
  function ColumnLines(names: seq<string>): (lines: seq<string>)
    ensures |lines| == |names|
  {
    seq(|names|, i requires 0 <= i < |names| => "  " + NatToString(i + 1) + ". " + names[i])
  }

  /** The numbered list shows every column once, in order: line i names column i and carries the number i + 1. */
  lemma ColumnLinesNumbered(names: seq<string>, i: nat)
    requires i < |names|
    ensures EndsWith(ColumnLines(names)[i], ". " + names[i])
    ensures StartsWith(ColumnLines(names)[i], "  " + NatToString(i + 1) + ". ")
    ensures ParseDigits(ColumnLines(names)[i][2..2 + |NatToString(i + 1)|]) == i + 1
  {
    var line := ColumnLines(names)[i];
    var number := NatToString(i + 1);
    assert line == ("  " + number) + (". " + names[i]);
    assert line[2..2 + |number|] == number;
    ParseNatToString(i + 1);
  }

  /** The header loop of `Summarize`: names the blank headers and lists every column. */
  method NameColumns(headers: seq<string>) returns (names: seq<string>, lines: seq<string>)
    ensures names == NamedHeaders(headers)
    ensures lines == ColumnLines(names)
  {
    names := headers;
    lines := [];
    var i := 0;
    while i < |headers|
      invariant 0 <= i <= |headers| && |names| == |headers| && |lines| == i
      invariant forall j :: 0 <= j < i ==> names[j] == ColumnName(headers, j)
      invariant forall j :: i <= j < |headers| ==> names[j] == headers[j]
      invariant forall j :: 0 <= j < i ==> lines[j] == "  " + NatToString(j + 1) + ". " + names[j]
    {
      var name := if IsBlank(names[i]) then "Column " + NatToString(i + 1) else names[i];
      lines := lines + ["  " + NatToString(i + 1) + ". " + name];
      names := names[i := name];
      i := i + 1;
    }
  }

  /** The range of `decimal`: 79228162514264337593543950335 either way. */
  const DecimalMaxValue: real := 79228162514264337593543950335.0

  /** A value within the range of `decimal`. */
  type DecimalValue = r: real | -DecimalMaxValue <= r <= DecimalMaxValue witness 0.0

  /**
   * A `decimal`: its value and its scale, the number of digits it keeps after
   * the point ("1.50" has scale 2), which shows when it is printed.
   */
  datatype DecimalNumber = DecimalNumber(value: DecimalValue, scale: nat)

  const MaxDecimal := DecimalNumber(DecimalMaxValue, 0)
  const MinDecimal := DecimalNumber(-DecimalMaxValue, 0)

  function SumOfValues(values: seq<DecimalNumber>): real
    decreases |values|
  {
    if |values| == 0 then 0.0 else SumOfValues(values[..|values| - 1]) + values[|values| - 1].value
  }

  lemma {:induction false} SumBounds(values: seq<DecimalNumber>, lo: real, hi: real)
    requires forall i :: 0 <= i < |values| ==> lo <= values[i].value <= hi
    ensures |values| as real * lo <= SumOfValues(values) <= |values| as real * hi
    decreases |values|
  {
    if |values| > 0 {
      var n := |values| as real;
      var prefix := values[..|values| - 1];
      SumBounds(prefix, lo, hi);
      assert |prefix| as real == n - 1.0;
      assert n * lo == (n - 1.0) * lo + lo;
      assert n * hi == (n - 1.0) * hi + hi;
    }
  }

  /**
   * The running minimum: starts at `decimal.MaxValue` and takes a value only
   * when it is strictly smaller, so among equal values the earliest one stays.
   */
  function MinOf(values: seq<DecimalNumber>): DecimalNumber
    decreases |values|
  {
    if |values| == 0 then MaxDecimal
    else
      var prev := MinOf(values[..|values| - 1]);
      var last := values[|values| - 1];
      if last.value < prev.value then last else prev
  }

  /** The running maximum, from `decimal.MinValue` upwards, by the same rule. */
  function MaxOf(values: seq<DecimalNumber>): DecimalNumber
    decreases |values|
  {
    if |values| == 0 then MinDecimal
    else
      var prev := MaxOf(values[..|values| - 1]);
      var last := values[|values| - 1];
      if last.value > prev.value then last else prev
  }

  /**
   * `values[i]` is the first value equal to the extreme `m` (the minimum
   * when `least`, else the maximum), and `m` is that value itself or, when
   * the value is the end of the range, the starting value it never beat.
   */
  predicate Leads(values: seq<DecimalNumber>, i: nat, m: DecimalNumber, least: bool)
  {
    && i < |values| && values[i].value == m.value
    && (forall j :: 0 <= j < i ==> if least then values[j].value > m.value else values[j].value < m.value)
    && (m == values[i] || m == (if least then MaxDecimal else MinDecimal))
  }

  /** The running minimum is a lower bound that is attained: the smallest value, and among equal ones the first. */
  lemma {:induction false} MinOfIsLeast(values: seq<DecimalNumber>)
    ensures forall i :: 0 <= i < |values| ==> MinOf(values).value <= values[i].value
    ensures |values| > 0 ==> exists i :: 0 <= i < |values| && Leads(values, i, MinOf(values), true)
    decreases |values|
  {
    if |values| > 0 {
      var prefix := values[..|values| - 1];
      MinOfIsLeast(prefix);
      assert forall i :: 0 <= i < |prefix| ==> prefix[i] == values[i];
      if |prefix| == 0 || values[|values| - 1].value < MinOf(prefix).value {
        assert Leads(values, |values| - 1, MinOf(values), true);
      } else {
        var i :| 0 <= i < |prefix| && Leads(prefix, i, MinOf(prefix), true);
        assert Leads(values, i, MinOf(values), true);
      }
    }
  }

  /** The running maximum is an upper bound that is attained: the largest value, and among equal ones the first. */
  lemma {:induction false} MaxOfIsGreatest(values: seq<DecimalNumber>)
    ensures forall i :: 0 <= i < |values| ==> values[i].value <= MaxOf(values).value
    ensures |values| > 0 ==> exists i :: 0 <= i < |values| && Leads(values, i, MaxOf(values), false)
    decreases |values|
  {
    if |values| > 0 {
      var prefix := values[..|values| - 1];
      MaxOfIsGreatest(prefix);
      assert forall i :: 0 <= i < |prefix| ==> prefix[i] == values[i];
      if |prefix| == 0 || values[|values| - 1].value > MaxOf(prefix).value {
        assert Leads(values, |values| - 1, MaxOf(values), false);
      } else {
        var i :| 0 <= i < |prefix| && Leads(prefix, i, MaxOf(prefix), false);
        assert Leads(values, i, MaxOf(values), false);
      }
    }
  }

  /** The mean of the values, 0 for none. */
  function AverageOf(values: seq<DecimalNumber>): real
  {
    if |values| == 0 then 0.0 else SumOfValues(values) / |values| as real
  }

  /** The mean lies between the minimum and the maximum. */
  lemma AverageBounds(values: seq<DecimalNumber>)
    requires |values| > 0
    ensures MinOf(values).value <= AverageOf(values) <= MaxOf(values).value
  {
    MinOfIsLeast(values);
    MaxOfIsGreatest(values);
    MeanBounds(values, MinOf(values).value, MaxOf(values).value);
  }

  lemma MeanBounds(values: seq<DecimalNumber>, lo: real, hi: real)
    requires |values| > 0
    requires forall i :: 0 <= i < |values| ==> lo <= values[i].value <= hi
    ensures lo <= AverageOf(values) <= hi
  {
    SumBounds(values, lo, hi);
    QuotientBounds(SumOfValues(values), |values| as real, lo, hi);
  }

  lemma QuotientBounds(sum: real, n: real, lo: real, hi: real)
    requires n > 0.0 && n * lo <= sum <= n * hi
    ensures lo <= sum / n <= hi
  {
    var q := sum / n;
    assert (q - hi) * n == sum - hi * n;
    assert (q - lo) * n == sum - lo * n;
  }

  /** The running statistics of one numeric column. */
  class NumericStats {
    var min: DecimalNumber
    var max: DecimalNumber
    var sum: real
    var count: nat
    /** The values pushed so far, in order. */
    ghost var pushed: seq<DecimalNumber>

    /** The fields summarise exactly the values pushed so far. */
    ghost predicate Valid()
      reads this
    {
      && count == |pushed|
      && sum == SumOfValues(pushed)
      && min == MinOf(pushed)
      && max == MaxOf(pushed)
    }

    /** Min starts at `decimal.MaxValue`, Max at `decimal.MinValue`. */
    constructor()
      ensures Valid() && pushed == []
    {
      min := MaxDecimal;
      max := MinDecimal;
      sum := 0.0;
      count := 0;
      pushed := [];
    }

    /** `Push`: records one more value. */
    method Push(value: DecimalNumber)
      requires Valid()
      modifies this
      ensures Valid() && pushed == old(pushed) + [value]
    {
      if value.value < min.value {
        min := value;
      }
      if value.value > max.value {
        max := value;
      }
      assert (pushed + [value])[..|pushed|] == pushed;
      sum := sum + value.value;
      count := count + 1;
      pushed := pushed + [value];
    }

    /** `Average`: the sum divided by the count, 0 before any push. */
    function Average(): (r: real)
      reads this
      requires Valid()
      ensures r == AverageOf(pushed)
    {
      if count == 0 then 0.0 else sum / count as real
    }
  }

  /** The foreign number handling: `decimal.TryParse` (invariant culture, `NumberStyles.Number`) and the two ways numbers are printed. */
  datatype DecimalFormat = DecimalFormat(parse: string -> Option<DecimalNumber>, show: DecimalNumber -> string, showN2: real -> string)

  /** The number a cell contributes to column `column`'s statistics: its value when present and numeric. */
  function CellValue(cells: seq<string>, column: nat, fmt: DecimalFormat): (v: seq<DecimalNumber>)
    ensures |v| <= 1
    ensures |v| == 1 <==> column < |cells| && fmt.parse(cells[column]).Some?
  {
    if column < |cells| && fmt.parse(cells[column]).Some? then [fmt.parse(cells[column]).value] else []
  }

  /** The values of column `column` that parse as numbers, over the given data lines. */
  function ColumnValues(data: seq<string>, delimiter: char, column: nat, fmt: DecimalFormat): seq<DecimalNumber>
    decreases |data|
  {
    if |data| == 0 then []
    else ColumnValues(data[..|data| - 1], delimiter, column, fmt) + CellValue(SplitCsv(data[|data| - 1], delimiter), column, fmt)
  }

  lemma ColumnValuesSnoc(data: seq<string>, line: string, delimiter: char, column: nat, fmt: DecimalFormat)
    ensures ColumnValues(data + [line], delimiter, column, fmt)
         == ColumnValues(data, delimiter, column, fmt) + CellValue(SplitCsv(line, delimiter), column, fmt)
  {
    assert (data + [line])[..|data|] == data;
  }

  /** The columns below `n` that get a number from this row and are not among `known`, in increasing order. */
  function NewColumns(known: seq<nat>, cells: seq<string>, n: nat, fmt: DecimalFormat): seq<nat>
    decreases n
  {
    if n == 0 then []
    else NewColumns(known, cells, n - 1, fmt) + (if n - 1 !in known && CellValue(cells, n - 1, fmt) != [] then [n - 1] else [])
  }

  /** The new columns are exactly the unknown columns below `n` with a number, each once, in increasing order. */
  lemma {:induction false} NewColumnsExactly(known: seq<nat>, cells: seq<string>, n: nat, fmt: DecimalFormat)
    ensures var r := NewColumns(known, cells, n, fmt);
      && (forall j :: 0 <= j < |r| ==> r[j] < n && r[j] !in known && CellValue(cells, r[j], fmt) != [])
      && (forall k :: 0 <= k < n && k !in known && CellValue(cells, k, fmt) != [] ==> k in r)
      && (forall i, j :: 0 <= i < j < |r| ==> r[i] < r[j])
    decreases n
  {
    if n > 0 {
      NewColumnsExactly(known, cells, n - 1, fmt);
    }
  }

  /**
   * The order in which the statistics dictionary enumerates its keys, which
   * for a dictionary that is only added to is the order of insertion: a
   * column enters when it first gets a number, and within one line columns
   * enter left to right.
   */
  function KeyOrder(data: seq<string>, delimiter: char, columnCount: nat, fmt: DecimalFormat): (keys: seq<nat>)
    decreases |data|
  {
    if |data| == 0 then []
    else
      var prev := KeyOrder(data[..|data| - 1], delimiter, columnCount, fmt);
      var cells := SplitCsv(data[|data| - 1], delimiter);
      prev + NewColumns(prev, cells, MinNat(columnCount, |cells|), fmt)
  }

  predicate Distinct(keys: seq<nat>)
  {
    forall i, j :: 0 <= i < j < |keys| ==> keys[i] != keys[j]
  }

  /** Appending the new columns of a row keeps the keys distinct and adds exactly the columns that got a number. */
  lemma AppendNewColumns(prev: seq<nat>, cells: seq<string>, n: nat, fmt: DecimalFormat)
    requires Distinct(prev)
    ensures Distinct(prev + NewColumns(prev, cells, n, fmt))
    ensures forall k: nat :: k in prev + NewColumns(prev, cells, n, fmt) <==> k in prev || (k < n && CellValue(cells, k, fmt) != [])
  {
    var added := NewColumns(prev, cells, n, fmt);
    NewColumnsExactly(prev, cells, n, fmt);
    var all := prev + added;
    forall i, j | 0 <= i < j < |all|
      ensures all[i] != all[j]
    {
      if j >= |prev| {
        assert all[j] == added[j - |prev|];
        if i >= |prev| {
          assert all[i] == added[i - |prev|];
        } else {
          assert all[i] in prev;
        }
      }
    }
  }

  /** Statistics are listed for exactly the columns with a header and a number somewhere, each once. */
  lemma {:induction false} KeyOrderColumns(data: seq<string>, delimiter: char, columnCount: nat, fmt: DecimalFormat)
    ensures KeyOrderMatches(data, delimiter, columnCount, fmt)
    decreases |data|
  {
    if |data| > 0 {
      var init := data[..|data| - 1];
      KeyOrderColumns(init, delimiter, columnCount, fmt);
      assert data == init + [data[|data| - 1]];
      KeyOrderStep(init, data[|data| - 1], delimiter, columnCount, fmt);
    }
  }

  /** The keys are distinct and are exactly the columns with a header and a number in `data`. */
  ghost predicate KeyOrderMatches(data: seq<string>, delimiter: char, columnCount: nat, fmt: DecimalFormat)
  {
    && Distinct(KeyOrder(data, delimiter, columnCount, fmt))
    && forall k: nat ::
      (k in KeyOrder(data, delimiter, columnCount, fmt) <==> k < columnCount && ColumnValues(data, delimiter, k, fmt) != [])
  }

  lemma KeyOrderSnoc(init: seq<string>, line: string, delimiter: char, columnCount: nat, fmt: DecimalFormat)
    ensures var prev := KeyOrder(init, delimiter, columnCount, fmt);
      var cells := SplitCsv(line, delimiter);
      KeyOrder(init + [line], delimiter, columnCount, fmt) == prev + NewColumns(prev, cells, MinNat(columnCount, |cells|), fmt)
  {
    assert (init + [line])[..|init|] == init;
  }

  lemma KeyOrderStep(init: seq<string>, line: string, delimiter: char, columnCount: nat, fmt: DecimalFormat)
    requires KeyOrderMatches(init, delimiter, columnCount, fmt)
    ensures KeyOrderMatches(init + [line], delimiter, columnCount, fmt)
  {
    var prev := KeyOrder(init, delimiter, columnCount, fmt);
    var cells := SplitCsv(line, delimiter);
    KeyOrderSnoc(init, line, delimiter, columnCount, fmt);
    AppendNewColumns(prev, cells, MinNat(columnCount, |cells|), fmt);
    forall k: nat
      ensures ColumnValues(init + [line], delimiter, k, fmt) == ColumnValues(init, delimiter, k, fmt) + CellValue(cells, k, fmt)
    {
      ColumnValuesSnoc(init, line, delimiter, k, fmt);
    }
  }

  /** The scan caps. */
  const MaxRowsToInspect: nat := 5000
  const MaxPreviewRows: nat := 100

  /** The rows the preview holds: the first data lines, split and padded to the header count. */
  function PreviewOf(data: seq<string>, delimiter: char, columnCount: nat, n: nat): (rows: seq<seq<string>>)
    requires n <= |data|
    ensures |rows| == n
    ensures forall j :: 0 <= j < n ==> rows[j] == PaddedRow(columnCount, SplitCsv(data[j], delimiter))
  {
    seq(n, j requires 0 <= j < n => PaddedRow(columnCount, SplitCsv(data[j], delimiter)))
  }

  lemma PreviewSnoc(data: seq<string>, delimiter: char, columnCount: nat, n: nat)
    requires n < |data|
    ensures PreviewOf(data, delimiter, columnCount, n + 1)
         == PreviewOf(data, delimiter, columnCount, n) + [PaddedRow(columnCount, SplitCsv(data[n], delimiter))]
  {
  }

  /** Statistics keyed by column: only columns that have a header, each with its own object. */
  ghost predicate StatsShape(stats: map<nat, NumericStats>, columnCount: nat)
  {
    && (forall k :: k in stats ==> k < columnCount)
    && (forall a, b :: a in stats && b in stats && a != b ==> stats[a] != stats[b])
  }

  /**
   * One cell of the inner loop: a number is pushed into column `column`'s
   * statistics, which are created on first use; a cell that is not a
   * number changes nothing. `before` records what each object had been fed.
   */
  method PushCell(column: nat, cells: seq<string>, fmt: DecimalFormat, columnCount: nat,
                  ghost before: map<nat, seq<DecimalNumber>>, stats0: map<nat, NumericStats>)
    returns (stats: map<nat, NumericStats>)
    requires column < columnCount && column < |cells| && StatsShape(stats0, columnCount)
    requires forall k :: k in stats0 ==> stats0[k].Valid()
    requires forall k :: k in stats0 ==> k in before && stats0[k].pushed == before[k]
    modifies if column in stats0 then {stats0[column]} else {}
    ensures StatsShape(stats, columnCount)
    ensures forall k :: k in stats ==> stats[k].Valid()
    ensures forall k :: k in stats0 ==> k in stats && stats[k] == stats0[k]
    ensures forall k :: k in stats <==> k in stats0 || (k == column && CellValue(cells, column, fmt) != [])
    ensures forall k :: k in stats ==>
      stats[k].pushed == (if k in stats0 then before[k] else []) + (if k == column then CellValue(cells, column, fmt) else [])
    ensures column in stats && column !in stats0 ==> fresh(stats[column])
  {
    stats := stats0;
    var parsed := fmt.parse(cells[column]);
    if parsed.Some? {
      if column !in stats {
        var created := new NumericStats();
        stats := stats[column := created];
      }
      stats[column].Push(parsed.value);
    }
  }

  /**
   * What one cell does to the values fed so far: the values of column `k`
   * after the cells below `i + 1` are those before the row followed by this
   * row's numbers in those cells.
   */
  lemma CellStep(i: nat, cells: seq<string>, fmt: DecimalFormat, columnCount: nat,
                 stats0: map<nat, NumericStats>, pushed0: map<nat, seq<DecimalNumber>>,
                 known: map<nat, NumericStats>, before: map<nat, seq<DecimalNumber>>, stats: map<nat, NumericStats>)
    requires forall k :: k in stats0 ==> k in pushed0 && k < columnCount
    requires forall k :: k in stats0 ==> k in known && known[k] == stats0[k]
    requires forall k :: k in known ==> k in before
    requires forall k :: k in known ==>
      before[k] == (if k in stats0 then pushed0[k] else []) + (if k < i then CellValue(cells, k, fmt) else [])
    requires forall k :: 0 <= k < columnCount ==> (k in known <==> k in stats0 || (k < i && CellValue(cells, k, fmt) != []))
    requires i < columnCount
    requires forall k :: k in stats <==> k in known || (k == i && CellValue(cells, i, fmt) != [])
    requires forall k :: k in stats ==>
      stats[k].pushed == (if k in known then before[k] else []) + (if k == i then CellValue(cells, i, fmt) else [])
    ensures forall k :: k in stats ==>
      stats[k].pushed == (if k in stats0 then pushed0[k] else []) + (if k < i + 1 then CellValue(cells, k, fmt) else [])
    ensures forall k :: 0 <= k < columnCount ==> (k in stats <==> k in stats0 || (k < i + 1 && CellValue(cells, k, fmt) != []))
  {
    forall k | k in stats
      ensures stats[k].pushed == (if k in stats0 then pushed0[k] else []) + (if k < i + 1 then CellValue(cells, k, fmt) else [])
    {
      FedStep(k, i, k in stats0, if k in stats0 then pushed0[k] else [], k in known, if k in known then before[k] else [],
              stats[k].pushed, CellValue(cells, k, fmt));
    }
  }

  /** `CellStep` for one column, on plain values. */
  lemma FedStep<T>(k: nat, i: nat, inStats0: bool, pushed0: seq<T>, isKnown: bool, before: seq<T>, after: seq<T>, cell: seq<T>)
    requires isKnown ==> before == (if inStats0 then pushed0 else []) + (if k < i then cell else [])
    requires inStats0 ==> isKnown
    requires k != i ==> isKnown
    requires after == (if isKnown then before else []) + (if k == i then cell else [])
    ensures after == (if inStats0 then pushed0 else []) + (if k < i + 1 then cell else [])
  {
    if k == i && isKnown {
      assert before == (if inStats0 then pushed0 else []) + [];
    }
  }

  /** One turn of the inner loop, from the values fed after the cells below `i` to those after the cells below `i + 1`. */
  method FeedColumn(i: nat, cells: seq<string>, fmt: DecimalFormat, columnCount: nat,
                    ghost stats0: map<nat, NumericStats>, ghost pushed0: map<nat, seq<DecimalNumber>>,
                    stats1: map<nat, NumericStats>)
    returns (stats: map<nat, NumericStats>)
    requires i < columnCount && i < |cells|
    requires forall k :: k in stats0 ==> k in pushed0 && k < columnCount
    requires StatsShape(stats1, columnCount)
    requires forall k :: k in stats1 ==> stats1[k].Valid()
    requires forall k :: k in stats0 ==> k in stats1 && stats1[k] == stats0[k]
    requires forall k :: k in stats1 ==>
      stats1[k].pushed == (if k in stats0 then pushed0[k] else []) + (if k < i then CellValue(cells, k, fmt) else [])
    requires forall k :: 0 <= k < columnCount ==>
      (k in stats1 <==> k in stats0 || (k < i && CellValue(cells, k, fmt) != []))
    modifies if i in stats1 then {stats1[i]} else {}
    ensures StatsShape(stats, columnCount)
    ensures forall k :: k in stats ==> stats[k].Valid()
    ensures forall k :: k in stats0 ==> k in stats && stats[k] == stats0[k]
    ensures forall k :: k in stats ==> k in stats1 || k == i
    ensures forall k :: k in stats1 ==> k in stats && stats[k] == stats1[k]
    ensures i in stats && i !in stats1 ==> fresh(stats[i])
    ensures forall k :: k in stats ==>
      stats[k].pushed == (if k in stats0 then pushed0[k] else []) + (if k < i + 1 then CellValue(cells, k, fmt) else [])
    ensures forall k :: 0 <= k < columnCount ==>
      (k in stats <==> k in stats0 || (k < i + 1 && CellValue(cells, k, fmt) != []))
  {
    ghost var before := map k | k in stats1 :: stats1[k].pushed;
    stats := PushCell(i, cells, fmt, columnCount, before, stats1);
    CellStep(i, cells, fmt, columnCount, stats0, pushed0, stats1, before, stats);
  }

  /**
   * The inner loop of the scan: each column that has a header and a cell
   * in this row is offered the cell's value.
   */
  method PushCells(columnCount: nat, fmt: DecimalFormat, cells: seq<string>,
                   ghost pushed0: map<nat, seq<DecimalNumber>>, stats0: map<nat, NumericStats>)
    returns (stats: map<nat, NumericStats>)
    requires StatsShape(stats0, columnCount)
    requires forall k :: k in stats0 ==> stats0[k].Valid()
    requires forall k :: k in stats0 ==> k in pushed0 && stats0[k].pushed == pushed0[k]
    modifies stats0.Values
    ensures StatsShape(stats, columnCount)
    ensures forall k :: k in stats ==> stats[k].Valid()
    ensures forall k :: k in stats0 ==> k in stats && stats[k] == stats0[k]
    ensures forall k :: k in stats && k !in stats0 ==> fresh(stats[k])
    ensures forall k :: k in stats ==>
      stats[k].pushed == (if k in stats0 then pushed0[k] else []) + CellValue(cells, k, fmt)
    ensures forall k :: 0 <= k < columnCount ==> (k in stats <==> k in stats0 || CellValue(cells, k, fmt) != [])
  {
    stats := stats0;
    var i := 0;
    while i < columnCount && i < |cells|
      invariant 0 <= i <= columnCount && i <= |cells|
      invariant StatsShape(stats, columnCount)
      invariant forall k :: k in stats ==> stats[k].Valid()
      invariant forall k :: k in stats0 ==> k in stats && stats[k] == stats0[k]
      invariant forall k :: k in stats && k !in stats0 ==> fresh(stats[k])
      invariant forall k :: k in stats ==>
        stats[k].pushed == (if k in stats0 then pushed0[k] else []) + (if k < i then CellValue(cells, k, fmt) else [])
      invariant forall k :: 0 <= k < columnCount ==>
        (k in stats <==> k in stats0 || (k < i && CellValue(cells, k, fmt) != []))
    {
      stats := FeedColumn(i, cells, fmt, columnCount, stats0, pushed0, stats);
      i := i + 1;
    }
    forall k | k in stats
      ensures stats[k].pushed == (if k in stats0 then pushed0[k] else []) + CellValue(cells, k, fmt)
    {
      FedAll(k < i, if k in stats0 then pushed0[k] else [], CellValue(cells, k, fmt), stats[k].pushed);
    }
  }

  /** Past the last cell, a column's cell value is empty, so the values fed are complete. */
  lemma FedAll<T>(below: bool, pushed0: seq<T>, cell: seq<T>, after: seq<T>)
    requires after == pushed0 + (if below then cell else [])
    requires !below ==> cell == []
    ensures after == pushed0 + cell
  {
  }

  /**
   * `stats` holds the statistics of `lines`: one object per column with a
   * header and at least one number, fed exactly that column's numbers in
   * order.
   */
  ghost predicate Tallied(stats: map<nat, NumericStats>, columnCount: nat, lines: seq<string>, delimiter: char, fmt: DecimalFormat)
    reads stats.Values
  {
    && StatsShape(stats, columnCount)
    && (forall k :: k in stats ==> stats[k].Valid())
    && (forall k :: k in stats ==> stats[k].pushed == ColumnValues(lines, delimiter, k, fmt))
    && (forall k :: 0 <= k < columnCount ==> (k in stats <==> ColumnValues(lines, delimiter, k, fmt) != []))
  }

  /** The statistics after one more data line: what they were over the earlier lines, extended by this line's numbers. */
  method AddRowStats(ghost data: seq<string>, ghost n: nat, delimiter: char, columnCount: nat, fmt: DecimalFormat,
                     cells: seq<string>, stats0: map<nat, NumericStats>)
    returns (stats: map<nat, NumericStats>)
    requires n < |data| && cells == SplitCsv(data[n], delimiter)
    requires Tallied(stats0, columnCount, data[..n], delimiter, fmt)
    modifies stats0.Values
    ensures Tallied(stats, columnCount, data[..n + 1], delimiter, fmt)
    ensures forall k :: k in stats0 ==> k in stats && stats[k] == stats0[k]
    ensures forall k :: k in stats && k !in stats0 ==> fresh(stats[k])
  {
    ghost var before := map k | k in stats0 :: ColumnValues(data[..n], delimiter, k, fmt);
    stats := PushCells(columnCount, fmt, cells, before, stats0);
    forall k | k in stats
      ensures stats[k].pushed == ColumnValues(data[..n + 1], delimiter, k, fmt)
    {
      ColumnValuesNext(data, n, delimiter, k, fmt);
      TallyStep(k in stats0, ColumnValues(data[..n], delimiter, k, fmt), CellValue(cells, k, fmt),
                stats[k].pushed, ColumnValues(data[..n + 1], delimiter, k, fmt));
    }
    forall k | 0 <= k < columnCount
      ensures k in stats <==> ColumnValues(data[..n + 1], delimiter, k, fmt) != []
    {
      ColumnValuesNext(data, n, delimiter, k, fmt);
      ConcatEmpty(ColumnValues(data[..n], delimiter, k, fmt), CellValue(cells, k, fmt));
    }
  }

  /** The values of a column over one more line. */
  lemma ColumnValuesNext(data: seq<string>, n: nat, delimiter: char, column: nat, fmt: DecimalFormat)
    requires n < |data|
    ensures ColumnValues(data[..n + 1], delimiter, column, fmt)
         == ColumnValues(data[..n], delimiter, column, fmt) + CellValue(SplitCsv(data[n], delimiter), column, fmt)
  {
    assert data[..n + 1][..n] == data[..n];
  }

  lemma ConcatEmpty<T>(a: seq<T>, b: seq<T>)
    ensures a + b == [] <==> a == [] && b == []
  {
    if a + b == [] {
      assert |a + b| == 0;
    }
  }

  /** `AddRowStats` for one column, on plain values: a column first met on this line had no values before. */
  lemma TallyStep<T>(known: bool, before: seq<T>, cell: seq<T>, after: seq<T>, whole: seq<T>)
    requires !known ==> before == []
    requires after == (if known then before else []) + cell
    requires whole == before + cell
    ensures after == whole
  {
  }

  /** One data line of the scan: split, kept for the preview while it has room, and fed to the statistics. */
  method ScanRow(data: seq<string>, n: nat, delimiter: char, columnCount: nat, fmt: DecimalFormat,
                 previewRows0: seq<seq<string>>, stats0: map<nat, NumericStats>)
    returns (previewRows: seq<seq<string>>, stats: map<nat, NumericStats>)
    requires n < |data|
    requires previewRows0 == PreviewOf(data, delimiter, columnCount, MinNat(n, MaxPreviewRows))
    requires Tallied(stats0, columnCount, data[..n], delimiter, fmt)
    modifies stats0.Values
    ensures previewRows == PreviewOf(data, delimiter, columnCount, MinNat(n + 1, MaxPreviewRows))
    ensures Tallied(stats, columnCount, data[..n + 1], delimiter, fmt)
    ensures forall k :: k in stats ==> (k in stats0 && stats[k] == stats0[k]) || fresh(stats[k])
  {
    var line := data[n];
    var cells := SplitCsvLine(line, delimiter);
    previewRows := previewRows0;
    if |previewRows| < MaxPreviewRows {
      var row := ToRowArray(columnCount, cells);
      PreviewSnoc(data, delimiter, columnCount, n);
      previewRows := previewRows + [row];
    }
    stats := AddRowStats(data, n, delimiter, columnCount, fmt, cells, stats0);
  }

  /**
   * The scanning loop of `Summarize` over the data lines (the lines after
   * the header): counts rows up to the scan cap, keeps the first rows as the
   * preview, and pushes every cell that parses as a number, for columns
   * that have a header, into that column's statistics.
   */
  method ScanRows(data: seq<string>, delimiter: char, columnCount: nat, fmt: DecimalFormat)
    returns (rowCount: nat, previewRows: seq<seq<string>>, truncated: bool, stats: map<nat, NumericStats>)
    ensures rowCount == MinNat(|data|, MaxRowsToInspect)
    ensures truncated <==> |data| >= MaxRowsToInspect
    ensures previewRows == PreviewOf(data, delimiter, columnCount, MinNat(rowCount, MaxPreviewRows))
    ensures Tallied(stats, columnCount, data[..rowCount], delimiter, fmt)
    ensures forall k :: k in stats ==> fresh(stats[k])
  {
    rowCount := 0;
    previewRows := [];
    truncated := false;
    stats := map[];
    while rowCount < |data|
      invariant rowCount <= |data| && rowCount < MaxRowsToInspect
      invariant !truncated
      invariant previewRows == PreviewOf(data, delimiter, columnCount, MinNat(rowCount, MaxPreviewRows))
      invariant Tallied(stats, columnCount, data[..rowCount], delimiter, fmt)
      invariant forall k :: k in stats ==> fresh(stats[k])
      decreases |data| - rowCount
    {
      previewRows, stats := ScanRow(data, rowCount, delimiter, columnCount, fmt, previewRows, stats);
      rowCount := rowCount + 1;
      if rowCount >= MaxRowsToInspect {
        truncated := true;
        break;
      }
    }
  }
}
