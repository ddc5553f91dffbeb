/**
 * The plain-text table renderer (Services/TextTableBuilder.cs): rows are
 * collected one by one, each column is as wide as its widest cell, and the
 * table is drawn with "  |  " between cells and "--+--" in separator lines.
 */
module TextTables {
  import opened Wrappers
  import opened Text

  /** Column widths after a row has been taken into account: each column grows to the row's cell if that is wider. */
  function MergeWidths(widths: seq<nat>, row: seq<string>): (r: seq<nat>)
    ensures |r| == if |widths| >= |row| then |widths| else |row|
    ensures forall i :: 0 <= i < |r| ==>
      r[i] == if i < |widths| && i < |row| then (if widths[i] >= |row[i]| then widths[i] else |row[i]|)
              else if i < |widths| then widths[i] else |row[i]|
  {
    var n := if |widths| >= |row| then |widths| else |row|;
    seq(n, i requires 0 <= i < n =>
      if i < |widths| && i < |row| then (if widths[i] >= |row[i]| then widths[i] else |row[i]|)
      else if i < |widths| then widths[i] else |row[i]|)
  }

  /** The widths a table of `rows` has: every row merged in turn. */
  function ColumnWidths(rows: seq<seq<string>>): seq<nat>
    decreases |rows|
  {
    if |rows| == 0 then [] else MergeWidths(ColumnWidths(rows[..|rows| - 1]), rows[|rows| - 1])
  }

  lemma ColumnWidthsSnoc(rows: seq<seq<string>>, row: seq<string>)
    ensures ColumnWidths(rows + [row]) == MergeWidths(ColumnWidths(rows), row)
  {
    assert (rows + [row])[..|rows|] == rows;
  }

  /** Every cell fits in its column. */
  lemma {:induction false} CellFitsColumn(rows: seq<seq<string>>, k: nat, i: nat)
    requires k < |rows| && i < |rows[k]|
    ensures i < |ColumnWidths(rows)| && |rows[k][i]| <= ColumnWidths(rows)[i]
    decreases |rows|
  {
    if k < |rows| - 1 {
      var prefix := rows[..|rows| - 1];
      assert rows[k] == prefix[k];
      CellFitsColumn(prefix, k, i);
    }
  }

  /** Every column is exactly as wide as some cell in it. */
  lemma {:induction false} ColumnWidthAttained(rows: seq<seq<string>>, i: nat)
    requires i < |ColumnWidths(rows)|
    ensures exists k :: 0 <= k < |rows| && i < |rows[k]| && |rows[k][i]| == ColumnWidths(rows)[i]
    decreases |rows|
  {
    var prefix := rows[..|rows| - 1];
    var last := rows[|rows| - 1];
    var w := ColumnWidths(prefix);
    if i < |w| && (i >= |last| || w[i] >= |last[i]|) {
      ColumnWidthAttained(prefix, i);
      var k :| 0 <= k < |prefix| && i < |prefix[k]| && |prefix[k][i]| == w[i];
      assert rows[k] == prefix[k];
    } else {
      assert i < |last| && |last[i]| == ColumnWidths(rows)[i];
    }
  }

  /** There are as many columns as cells in the longest row. */
  lemma {:induction false} ColumnCount(rows: seq<seq<string>>)
    ensures forall k :: 0 <= k < |rows| ==> |rows[k]| <= |ColumnWidths(rows)|
    ensures |ColumnWidths(rows)| == 0 || exists k :: 0 <= k < |rows| && |rows[k]| == |ColumnWidths(rows)|
    decreases |rows|
  {
    if |rows| > 0 {
      var prefix := rows[..|rows| - 1];
      ColumnCount(prefix);
      forall k | 0 <= k < |rows|
        ensures |rows[k]| <= |ColumnWidths(rows)|
      {
        if k < |rows| - 1 {
          assert rows[k] == prefix[k];
        }
      }
      if |ColumnWidths(prefix)| > |rows[|rows| - 1]| {
        var k :| 0 <= k < |prefix| && |prefix[k]| == |ColumnWidths(prefix)|;
        assert rows[k] == prefix[k];
      }
    }
  }

  /** The cells a row is drawn with: each padded to its column width, or left as is beyond the known columns. */
  function PaddedCells(widths: seq<nat>, row: seq<string>): (parts: seq<string>)
    ensures |parts| == |row|
    ensures forall i :: 0 <= i < |row| ==> parts[i] == PadRight(row[i], if i < |widths| then widths[i] else |row[i]|)
  {
    seq(|row|, i requires 0 <= i < |row| => PadRight(row[i], if i < |widths| then widths[i] else |row[i]|))
  }

  /** One drawn row. */
  function RowLine(widths: seq<nat>, row: seq<string>): string
  {
    "  " + Join("  |  ", PaddedCells(widths, row))
  }

  function Dashes(widths: seq<nat>): (parts: seq<string>)
    ensures |parts| == |widths|
    ensures forall i :: 0 <= i < |widths| ==> parts[i] == Repeat('-', widths[i])
  {
    seq(|widths|, i requires 0 <= i < |widths| => Repeat('-', widths[i]))
  }

  /** `BuildSeparatorLine`: a run of dashes per column, joined by "--+--". */
  function SeparatorLine(widths: seq<nat>): string
  {
    "  " + Join("--+--", Dashes(widths))
  }

  /** How a row after the header is drawn: an empty row draws as a separator line. */
  function BodyLine(widths: seq<nat>, row: seq<string>): string
  {
    if |row| == 0 then SeparatorLine(widths) else RowLine(widths, row)
  }

  /** The lines of a drawn table: header, separator, then each further row. */
  function TableLines(rows: seq<seq<string>>, widths: seq<nat>): (lines: seq<string>)
    requires |rows| >= 1
    ensures |lines| == |rows| + 1
    ensures lines[0] == RowLine(widths, rows[0]) && lines[1] == SeparatorLine(widths)
    ensures forall k :: 1 <= k < |rows| ==> lines[k + 1] == BodyLine(widths, rows[k])
  {
    [RowLine(widths, rows[0]), SeparatorLine(widths)]
    + seq(|rows| - 1, k requires 0 <= k < |rows| - 1 => BodyLine(widths, rows[k + 1]))
  }

  /** Two joins of pieces of equal lengths, with separators of equal length, have equal lengths. */
  lemma {:induction false} JoinLengths(sepA: string, sepB: string, a: seq<string>, b: seq<string>)
    requires |sepA| == |sepB| && |a| == |b|
    requires forall i :: 0 <= i < |a| ==> |a[i]| == |b[i]|
    ensures |Join(sepA, a)| == |Join(sepB, b)|
    decreases |a|
  {
    if |a| > 1 {
      JoinLengths(sepA, sepB, a[1..], b[1..]);
    }
  }

  /** In a table whose widths are its column maxima, a row with every column filled is as wide as the separator line. */
  lemma FullRowAligned(rows: seq<seq<string>>, k: nat)
    requires k < |rows| && |rows[k]| == |ColumnWidths(rows)|
    ensures |RowLine(ColumnWidths(rows), rows[k])| == |SeparatorLine(ColumnWidths(rows))|
  {
    var w := ColumnWidths(rows);
    var cells := PaddedCells(w, rows[k]);
    forall i | 0 <= i < |cells|
      ensures |cells[i]| == |Dashes(w)[i]|
    {
      CellFitsColumn(rows, k, i);
    }
    JoinLengths("  |  ", "--+--", cells, Dashes(w));
  }

  function NullToEmpty(cells: seq<Option<string>>): (r: seq<string>)
    ensures |r| == |cells|
    ensures forall i :: 0 <= i < |cells| ==> r[i] == cells[i].GetOr("")
  {
    seq(|cells|, i requires 0 <= i < |cells| => cells[i].GetOr(""))
  }

  /** Cells that are all present, as the callers of `AddRow` pass them. */
  function Present(cells: seq<string>): (r: seq<Option<string>>)
    ensures |r| == |cells| && NullToEmpty(r) == cells
  {
    var r := seq(|cells|, i requires 0 <= i < |cells| => Some(cells[i]));
    assert forall i :: 0 <= i < |cells| ==> NullToEmpty(r)[i] == cells[i];
    r
  }

  /** The text `Build` returns for a table that has collected `rows`, header first. */
  function Drawn(rows: seq<seq<string>>): string
    requires |rows| >= 1
  {
    TrimEnd(Lines(TableLines(rows, ColumnWidths(rows))))
  }

  /** A drawn table whose first header cell is visible starts with the two-space indent of its header line. */
  lemma DrawnStart(rows: seq<seq<string>>)
    requires |rows| >= 1 && |rows[0]| >= 1 && !IsBlank(rows[0][0])
    ensures |Drawn(rows)| >= 1 && Drawn(rows)[0] == ' '
  {
    var lines := TableLines(rows, ColumnWidths(rows));
    TableNotBlank(rows, ColumnWidths(rows), 0);
    LinesCons(lines);
    assert lines[0][0] == ' ';
    CharInPrefix(lines[0], NewLine + Lines(lines[1..]), 0);
  }

  class TextTableBuilder {
    var rows: seq<seq<string>>
    var widths: seq<nat>

    /** The widths are always the column maxima of the rows collected so far. */
    predicate Valid()
      reads this
    {
      widths == ColumnWidths(rows)
    }

    /** Starts a table with its header row; a missing header is drawn as an empty cell. */
    constructor(headers: seq<Option<string>>)
      ensures Valid()
      ensures rows == [NullToEmpty(headers)]
    {
      rows := [];
      widths := [];
      new;
      rows := rows + [NullToEmpty(headers)];
      UpdateWidths(NullToEmpty(headers));
      ColumnWidthsSnoc([], NullToEmpty(headers));
    }

    /** Appends a data row; a missing cell is drawn empty. */
    method AddRow(cells: seq<Option<string>>)
      requires Valid()
      modifies this
      ensures Valid()
      ensures rows == old(rows) + [NullToEmpty(cells)]
    {
      ColumnWidthsSnoc(rows, NullToEmpty(cells));
      rows := rows + [NullToEmpty(cells)];
      UpdateWidths(NullToEmpty(cells));
    }

    /** Appends an empty row, which is drawn as a separator line. */
    method AddSeparator()
      requires Valid()
      modifies this
      ensures Valid()
      ensures rows == old(rows) + [[]]
    {
      ColumnWidthsSnoc(rows, []);
      assert MergeWidths(widths, []) == widths;
      rows := rows + [[]];
    }

    /** Widens the columns to fit `row`, adding columns it is the first to reach. */
    method UpdateWidths(row: seq<string>)
      modifies this
      ensures rows == old(rows)
      ensures widths == MergeWidths(old(widths), row)
    {
      ghost var w0 := widths;
      var i := 0;
      while i < |row|
        invariant 0 <= i <= |row|
        invariant |widths| == if |w0| >= i then |w0| else i
        invariant forall j :: 0 <= j < |widths| ==>
          widths[j] == if j < i then MergeWidths(w0, row)[j] else w0[j]
        invariant rows == old(rows)
      {
        if |widths| <= i {
          widths := widths + [|row[i]|];
        } else {
          widths := widths[i := if widths[i] >= |row[i]| then widths[i] else |row[i]|];
        }
        i := i + 1;
      }
    }

    /** `FormatRow`: the row's cells padded to their column widths. */
    method FormatRow(row: seq<string>) returns (line: string)
      ensures line == RowLine(widths, row)
    {
      var parts: seq<string> := [];
      var i := 0;
      while i < |row|
        invariant 0 <= i <= |row|
        invariant parts == PaddedCells(widths, row)[..i]
      {
        var width := if i < |widths| then widths[i] else |row[i]|;
        parts := parts + [PadRight(row[i], width)];
        i := i + 1;
      }
      assert parts == PaddedCells(widths, row);
      line := "  " + Join("  |  ", parts);
    }

    /** `Build`: the drawn table without trailing white space, or "" when there are no rows. */
    method Build() returns (text: string)
      ensures |rows| == 0 ==> text == ""
      ensures |rows| >= 1 ==> text == TrimEnd(Lines(TableLines(rows, widths)))
    {
      if |rows| == 0 {
        return "";
      }
      ghost var lines := TableLines(rows, widths);
      var header := FormatRow(rows[0]);
      var sb := [header, SeparatorLine(widths)];
      var i := 1;
      while i < |rows|
        invariant 1 <= i <= |rows|
        invariant |sb| == i + 1
        invariant forall k :: 0 <= k <= i ==> sb[k] == lines[k]
      {
        var line;
        if |rows[i]| == 0 {
          line := SeparatorLine(widths);
        } else {
          line := FormatRow(rows[i]);
        }
        assert line == lines[i + 1];
        sb := sb + [line];
        i := i + 1;
      }
      assert sb == lines;
      text := TrimEnd(Lines(sb));
    }
  }

  /** Draws a table of `headers` and `rows` with a `TextTableBuilder`, one `AddRow` per row. */
  method DrawTable(headers: seq<string>, rows: seq<seq<string>>) returns (text: string)
    ensures text == Drawn([headers] + rows)
  {
    var table := new TextTableBuilder(Present(headers));
    for i := 0 to |rows|
      invariant table.Valid() && table.rows == [headers] + rows[..i]
    {
      table.AddRow(Present(rows[i]));
      TakeOneMore(rows, i);
    }
    assert rows[..|rows|] == rows;
    text := table.Build();
  }

  /** A table whose header has a visible cell draws as non-empty text. */
  lemma {:induction false} TableNotBlank(rows: seq<seq<string>>, widths: seq<nat>, i: nat)
    requires |rows| >= 1 && i < |rows[0]| && !IsBlank(rows[0][i])
    ensures TrimEnd(Lines(TableLines(rows, widths))) != ""
  {
    var lines := TableLines(rows, widths);
    var k := VisibleInRow(widths, rows[0], i);
    var all := Lines(lines);
    LinesCons(lines);
    CharInPrefix(lines[0], NewLine + Lines(lines[1..]), k);
    NotBlankTrimEnd(all, k);
  }

  /** A drawn row shows a visible character of each visible cell. */
  lemma VisibleInRow(widths: seq<nat>, row: seq<string>, i: nat) returns (k: nat)
    requires i < |row| && !IsBlank(row[i])
    ensures k < |RowLine(widths, row)| && !IsWhiteSpace(RowLine(widths, row)[k])
  {
    var cells := PaddedCells(widths, row);
    var j :| 0 <= j < |row[i]| && !IsWhiteSpace(row[i][j]);
    PaddedKeeps(widths, row, i, j);
    var joined := Join("  |  ", cells);
    var p := JoinHasPiece("  |  ", cells, i);
    CharOfSlice(joined, p, cells[i], j);
    CharAfterPrefix("  ", joined, p + j);
    k := 2 + p + j;
  }

  lemma PaddedKeeps(widths: seq<nat>, row: seq<string>, i: nat, j: nat)
    requires i < |row| && j < |row[i]|
    ensures j < |PaddedCells(widths, row)[i]| && PaddedCells(widths, row)[i][j] == row[i][j]
  {
    var r := PaddedCells(widths, row)[i];
    assert r[..|row[i]|][j] == r[j];
  }

  lemma CharOfSlice(s: string, p: nat, t: string, j: nat)
    requires p + |t| <= |s| && s[p..p + |t|] == t && j < |t|
    ensures s[p + j] == t[j]
  {
    assert s[p..p + |t|][j] == s[p + j];
  }

  /** Each piece of a join sits unchanged at some offset of the result. */
  lemma {:induction false} JoinHasPiece(sep: string, parts: seq<string>, i: nat) returns (p: nat)
    requires i < |parts|
    ensures p + |parts[i]| <= |Join(sep, parts)|
    ensures Join(sep, parts)[p..p + |parts[i]|] == parts[i]
    decreases |parts|
  {
    if |parts| == 1 {
      p := 0;
    } else if i == 0 {
      p := 0;
      assert Join(sep, parts) == parts[0] + (sep + Join(sep, parts[1..]));
    } else {
      var q := JoinHasPiece(sep, parts[1..], i - 1);
      p := |parts[0]| + |sep| + q;
      assert Join(sep, parts) == (parts[0] + sep) + Join(sep, parts[1..]);
    }
  }

  lemma LinesCons(lines: seq<string>)
    requires |lines| > 0
    ensures Lines(lines) == lines[0] + (NewLine + Lines(lines[1..]))
  {
  }

  lemma CharInPrefix(a: string, b: string, k: nat)
    requires k < |a|
    ensures (a + b)[k] == a[k]
  {
  }

  lemma CharAfterPrefix(a: string, b: string, k: nat)
    requires k < |b|
    ensures (a + b)[|a| + k] == b[k]
  {
  }

  /** Trimming the end of a text with a visible character at `k` keeps that character. */
  lemma NotBlankTrimEnd(s: string, k: nat)
    requires k < |s| && !IsWhiteSpace(s[k])
    ensures k < |TrimEnd(s)| && TrimEnd(s) != ""
  {
  }
}
