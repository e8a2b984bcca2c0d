/**
 * `create_table`: the plain-text grid the tool prints for dry-run previews and field lists.
 * Each column is as wide as its widest cell (header included); the grid is framed by
 * separator lines of `+` and `-`, and every cell is left-justified between `| ` and ` |`.
 */
module TextTable {
  import opened Tracker

  /** `c * n`: the character `c` repeated `n` times. */
  function Repeat(c: char, n: nat): (r: string)
    ensures |r| == n
    ensures forall k :: 0 <= k < n ==> r[k] == c
  {
    if n == 0 then [] else [c] + Repeat(c, n - 1)
  }

  /** `s.ljust(w)`: `s` padded on the right with spaces to width `w`; unchanged when already that long. */
  function LJust(s: string, w: nat): (r: string)
    ensures |r| == if |s| < w then w else |s|
    ensures r[..|s|] == s
    ensures forall k :: |s| <= k < |r| ==> r[k] == ' '
  {
    if |s| < w then s + Repeat(' ', w - |s|) else s
  }

  // ---------------------------------------------------------------------------
  // Column widths

  /** The starting widths: the length of each header. */
  function HeaderWidths(headers: seq<string>): (w: seq<nat>)
    ensures |w| == |headers|
    ensures forall i :: 0 <= i < |headers| ==> w[i] == |headers[i]|
  {
    if headers == [] then [] else [|headers[0]|] + HeaderWidths(headers[1..])
  }

  /** The widths after looking at one more row: each column widens to that row's cell, if it has one. */
  function Widen(widths: seq<nat>, row: seq<string>): (w: seq<nat>)
    ensures |w| == |widths|
    ensures forall i :: 0 <= i < |widths| ==>
      w[i] == if i < |row| && widths[i] < |row[i]| then |row[i]| else widths[i]
  {
    if widths == [] then []
    else
      var first := if row != [] && widths[0] < |row[0]| then |row[0]| else widths[0];
      [first] + Widen(widths[1..], if row == [] then [] else row[1..])
  }

  /** The widths after looking at the rows in order. */
  function WidthsAfter(widths: seq<nat>, rows: seq<seq<string>>): (w: seq<nat>)
    ensures |w| == |widths|
    decreases rows
  {
    if rows == [] then widths else WidthsAfter(Widen(widths, rows[0]), rows[1..])
  }

  /** `col_widths` once computed. */
  function ColumnWidthsOf(headers: seq<string>, rows: seq<seq<string>>): seq<nat>
  {
    WidthsAfter(HeaderWidths(headers), rows)
  }

  /**
   * `widths` are the column maxima over `start` and the cells of `rows`: each is at least its
   * start value and every cell in its column, and equal to one of them.
   */
  ghost predicate IsColumnMax(widths: seq<nat>, start: seq<nat>, rows: seq<seq<string>>)
  {
    && |widths| == |start|
    && (forall i :: 0 <= i < |start| ==> widths[i] >= start[i])
    && (forall r, i :: 0 <= r < |rows| && 0 <= i < |start| && i < |rows[r]| ==> widths[i] >= |rows[r][i]|)
    && (forall i :: 0 <= i < |start| ==>
          widths[i] == start[i] || exists r :: 0 <= r < |rows| && i < |rows[r]| && widths[i] == |rows[r][i]|)
  }

  /** Folding the rows in never narrows a column and makes it at least as wide as every cell in it. */
  lemma {:induction false} WidthsAfterCovers(widths: seq<nat>, rows: seq<seq<string>>)
    ensures forall i :: 0 <= i < |widths| ==> WidthsAfter(widths, rows)[i] >= widths[i]
    ensures forall r, i :: 0 <= r < |rows| && 0 <= i < |widths| && i < |rows[r]| ==> WidthsAfter(widths, rows)[i] >= |rows[r][i]|
    decreases rows
  {
    if rows != [] {
      var next := Widen(widths, rows[0]);
      var tail := rows[1..];
      WidthsAfterCovers(next, tail);
      var w := WidthsAfter(widths, rows);
      assert w == WidthsAfter(next, tail);
      forall r, i | 0 <= r < |rows| && 0 <= i < |widths| && i < |rows[r]|
        ensures w[i] >= |rows[r][i]|
      {
        if r > 0 {
          assert rows[r] == tail[r - 1];
        }
      }
    }
  }

  /** Each column's width after folding the rows in is its start width or the length of one of its cells. */
  lemma {:induction false} WidthsAfterAttained(widths: seq<nat>, rows: seq<seq<string>>)
    ensures forall i :: 0 <= i < |widths| ==>
      var w := WidthsAfter(widths, rows);
      w[i] == widths[i] || exists r :: 0 <= r < |rows| && i < |rows[r]| && w[i] == |rows[r][i]|
    decreases rows
  {
    if rows != [] {
      var next := Widen(widths, rows[0]);
      var tail := rows[1..];
      WidthsAfterAttained(next, tail);
      var w := WidthsAfter(widths, rows);
      assert w == WidthsAfter(next, tail);
      forall i | 0 <= i < |widths|
        ensures w[i] == widths[i] || exists r :: 0 <= r < |rows| && i < |rows[r]| && w[i] == |rows[r][i]|
      {
        if w[i] != next[i] {
          var r :| 0 <= r < |tail| && i < |tail[r]| && w[i] == |tail[r][i]|;
          assert tail[r] == rows[r + 1];
        } else if next[i] != widths[i] {
          assert w[i] == |rows[0][i]|;
        }
      }
    }
  }

  /** Folding the rows in computes the column maxima. */
  lemma WidthsAfterIsMax(widths: seq<nat>, rows: seq<seq<string>>)
    ensures IsColumnMax(WidthsAfter(widths, rows), widths, rows)
  {
    WidthsAfterCovers(widths, rows);
    WidthsAfterAttained(widths, rows);
  }

  /** One pass of the width loop: widen each column in place to the row's cell in it. */
  method WidenInPlace(colWidths: array<nat>, row: seq<string>)
    modifies colWidths
    ensures colWidths[..] == Widen(old(colWidths[..]), row)
  {
    ghost var before := colWidths[..];
    ghost var widened := Widen(before, row);
    for i := 0 to |row|
      invariant forall k :: 0 <= k < i && k < colWidths.Length ==> colWidths[k] == widened[k]
      invariant forall k :: i <= k < colWidths.Length ==> colWidths[k] == before[k]
    {
      if i < colWidths.Length {
        if colWidths[i] < |row[i]| {
          colWidths[i] := |row[i]|;
        }
      }
    }
    assert colWidths[..] == widened;
  }

  /**
   * The width loop of `create_table`: start from the header lengths and widen each column to
   * every cell in it, ignoring cells past the last header. The result is the column maxima.
   */
  method ColumnWidths(headers: seq<string>, rows: seq<seq<string>>) returns (colWidths: array<nat>)
    ensures fresh(colWidths)
    ensures colWidths[..] == ColumnWidthsOf(headers, rows)
    ensures IsColumnMax(colWidths[..], HeaderWidths(headers), rows)
  {
    colWidths := new nat[|headers|](i requires 0 <= i < |headers| => |headers[i]|);
    assert colWidths[..] == HeaderWidths(headers);
    for r := 0 to |rows|
      invariant WidthsAfter(colWidths[..], rows[r..]) == ColumnWidthsOf(headers, rows)
    {
      WidenInPlace(colWidths, rows[r]);
      assert rows[r..][1..] == rows[r + 1..];
    }
    assert rows[|rows|..] == [];
    WidthsAfterIsMax(HeaderWidths(headers), rows);
  }

  // ---------------------------------------------------------------------------
  // Lines of the grid

  /** `"+".join("-" * (w + 2) for w in widths)`. */
  function Dashes(widths: seq<nat>): string
  {
    if widths == [] then []
    else if |widths| == 1 then Repeat('-', widths[0] + 2)
    else Repeat('-', widths[0] + 2) + "+" + Dashes(widths[1..])
  }

  /** The separator line: dashes for each column between `+` signs. */
  function Separator(widths: seq<nat>): string
  {
    "+" + Dashes(widths) + "+"
  }

  /** The cells of a row after the leading `|`: one ` cell |` per column the row has a cell for. */
  function Cells(cells: seq<string>, widths: seq<nat>): string
  {
    if cells == [] || widths == [] then []
    else " " + LJust(cells[0], widths[0]) + " |" + Cells(cells[1..], widths[1..])
  }

  /** One row line, for the header row and for each data row. */
  function RowLine(cells: seq<string>, widths: seq<nat>): string
  {
    "|" + Cells(cells, widths)
  }

  /** The width of a full grid line for these column widths, less one: each column takes its width plus three. */
  function Span(widths: seq<nat>): nat
  {
    if widths == [] then 0 else widths[0] + 3 + Span(widths[1..])
  }

  /** A separator is one character longer than the columns' span (when there is a column). */
  lemma {:induction false} SeparatorLength(widths: seq<nat>)
    requires widths != []
    ensures |Separator(widths)| == Span(widths) + 1
  {
    DashesLength(widths);
  }

  lemma {:induction false} DashesLength(widths: seq<nat>)
    requires widths != []
    ensures |Dashes(widths)| == Span(widths) - 1
  {
    if |widths| > 1 {
      DashesLength(widths[1..]);
    }
  }

  /** A row with a cell for every column, none wider than its column, is exactly the columns' span plus one. */
  lemma {:induction false} RowLineLength(cells: seq<string>, widths: seq<nat>)
    requires |cells| == |widths|
    requires forall i :: 0 <= i < |cells| ==> |cells[i]| <= widths[i]
    ensures |RowLine(cells, widths)| == Span(widths) + 1
  {
    CellsLength(cells, widths);
  }

  lemma {:induction false} CellsLength(cells: seq<string>, widths: seq<nat>)
    requires |cells| == |widths|
    requires forall i :: 0 <= i < |cells| ==> |cells[i]| <= widths[i]
    ensures |Cells(cells, widths)| == Span(widths)
  {
    if cells != [] {
      assert forall i :: 0 <= i < |cells| - 1 ==> cells[1..][i] == cells[i + 1] && widths[1..][i] == widths[i + 1];
      CellsLength(cells[1..], widths[1..]);
    }
  }

  /** One row line per row, in order. */
  function RowLines(rows: seq<seq<string>>, widths: seq<nat>): (lines: seq<string>)
    ensures |lines| == |rows|
  {
    if rows == [] then [] else RowLines(rows[..|rows| - 1], widths) + [RowLine(rows[|rows| - 1], widths)]
  }

  lemma {:induction false} RowLinesAt(rows: seq<seq<string>>, widths: seq<nat>, r: int)
    requires 0 <= r < |rows|
    ensures RowLines(rows, widths)[r] == RowLine(rows[r], widths)
    decreases |rows|
  {
    if r < |rows| - 1 {
      RowLinesAt(rows[..|rows| - 1], widths, r);
    }
  }

  /** The lines of the grid: separator, header row, separator, one line per row, separator. */
  function GridLines(headers: seq<string>, rows: seq<seq<string>>, widths: seq<nat>): (lines: seq<string>)
    ensures |lines| == |rows| + 4
  {
    [Separator(widths), RowLine(headers, widths), Separator(widths)]
    + RowLines(rows, widths)
    + [Separator(widths)]
  }

  /** The title lines: a blank line then the title, and an underline of `=` as long as the title; none without a title. */
  function TitleLines(title: Option<string>): seq<string>
  {
    if Truthy(title) then ["\n" + title.value, Repeat('=', |title.value|)] else []
  }

  /** `"\n".join(lines)`. */
  function JoinLines(lines: seq<string>): string
  {
    if lines == [] then []
    else if |lines| == 1 then lines[0]
    else lines[0] + "\n" + JoinLines(lines[1..])
  }

  /** What `create_table` returns. */
  function Render(headers: seq<string>, rows: seq<seq<string>>, title: Option<string>): string
  {
    if rows == [] then "No data to display"
    else JoinLines(TitleLines(title) + GridLines(headers, rows, ColumnWidthsOf(headers, rows)))
  }

  /**
   * With at least one column and every row holding one cell per header, every line of the grid
   * (separators, header row and data rows) has the same length.
   */
  lemma GridLinesSameLength(headers: seq<string>, rows: seq<seq<string>>)
    requires headers != []
    requires forall r :: 0 <= r < |rows| ==> |rows[r]| == |headers|
    ensures var widths := ColumnWidthsOf(headers, rows);
      forall k :: 0 <= k < |GridLines(headers, rows, widths)| ==>
        |GridLines(headers, rows, widths)[k]| == Span(widths) + 1
  {
    var widths := ColumnWidthsOf(headers, rows);
    var grid := GridLines(headers, rows, widths);
    var sep := Separator(widths);
    var lines := RowLines(rows, widths);
    WidthsAfterIsMax(HeaderWidths(headers), rows);
    SeparatorLength(widths);
    RowLineLength(headers, widths);
    assert grid == [sep, RowLine(headers, widths), sep] + lines + [sep];
    forall k | 0 <= k < |grid|
      ensures |grid[k]| == Span(widths) + 1
    {
      if 3 <= k < |grid| - 1 {
        var r := k - 3;
        assert grid[k] == lines[r];
        RowLinesAt(rows, widths, r);
        assert forall i :: 0 <= i < |rows[r]| ==> |rows[r][i]| <= widths[i];
        RowLineLength(rows[r], widths);
      }
    }
  }

  /** The header row's first cell is the first header, left-justified to its column. */
  lemma HeaderCellJustified(headers: seq<string>, widths: seq<nat>)
    requires headers != [] && widths != [] && |headers[0]| <= widths[0]
    ensures RowLine(headers, widths)[2..2 + widths[0]] == LJust(headers[0], widths[0])
  {
    var cell := LJust(headers[0], widths[0]);
    var rest := " |" + Cells(headers[1..], widths[1..]);
    assert Cells(headers, widths) == " " + cell + rest;
    assert RowLine(headers, widths) == "| " + cell + rest;
    assert |cell| == widths[0];
    assert ("| " + cell + rest)[2..2 + |cell|] == cell;
  }

  /** One row line, built cell by cell as `create_table` does. */
  method FormatRow(cells: seq<string>, colWidths: array<nat>) returns (line: string)
    ensures line == RowLine(cells, colWidths[..])
  {
    ghost var widths := colWidths[..];
    line := "|";
    var i := 0;
    while i < |cells|
      invariant 0 <= i <= |cells|
      invariant line + Cells(cells[i..], if i <= |widths| then widths[i..] else []) == RowLine(cells, widths)
    {
      assert cells[i..][1..] == cells[i + 1..];
      if i < colWidths.Length {
        assert widths[i..][1..] == widths[i + 1..];
        line := line + (" " + LJust(cells[i], colWidths[i]) + " |");
      }
      i := i + 1;
    }
    assert line + [] == line;
  }

  /** The row loop of `create_table`: one formatted line per row, appended in order. */
  method AppendRowLines(prefix: seq<string>, rows: seq<seq<string>>, colWidths: array<nat>) returns (tableLines: seq<string>)
    ensures tableLines == prefix + RowLines(rows, colWidths[..])
  {
    ghost var widths := colWidths[..];
    tableLines := prefix;
    for r := 0 to |rows|
      invariant tableLines == prefix + RowLines(rows[..r], widths)
    {
      assert rows[..r + 1][..r] == rows[..r];
      assert RowLines(rows[..r + 1], widths) == RowLines(rows[..r], widths) + [RowLine(rows[r], widths)];
      var dataRow := FormatRow(rows[r], colWidths);
      tableLines := tableLines + [dataRow];
    }
    assert rows[..|rows|] == rows;
  }

  /** The grid part of `create_table`: separator, header row, separator, the rows, separator. */
  method GridOf(headers: seq<string>, rows: seq<seq<string>>, colWidths: array<nat>) returns (lines: seq<string>)
    ensures lines == GridLines(headers, rows, colWidths[..])
  {
    var separator := Separator(colWidths[..]);
    var headerRow := FormatRow(headers, colWidths);
    lines := AppendRowLines([separator, headerRow, separator], rows, colWidths);
    lines := lines + [separator];
  }

  /** `create_table`: the widths, then the title, the grid lines, all joined with newlines. */
  method CreateTable(headers: seq<string>, rows: seq<seq<string>>, title: Option<string>) returns (table: string)
    ensures table == Render(headers, rows, title)
    ensures rows == [] ==> table == "No data to display"
  {
    if rows == [] {
      return "No data to display";
    }
    var colWidths := ColumnWidths(headers, rows);
    var tableLines: seq<string> := [];
    if Truthy(title) {
      tableLines := tableLines + ["\n" + title.value];
      tableLines := tableLines + [Repeat('=', |title.value|)];
    }
    assert tableLines == TitleLines(title);
    var grid := GridOf(headers, rows, colWidths);
    tableLines := tableLines + grid;
    table := JoinLines(tableLines);
  }
}
