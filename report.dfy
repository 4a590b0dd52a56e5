/**
 * The column-width pass of `save_to_excel`: once the report workbook is written and reopened,
 * every column of the data and summary sheets is sized to its longest truthy cell plus two,
 * and column A of the image sheet is set to 50.
 */
module Report {
  import opened Wrappers
  import opened Cells
  import opened Columns
  import opened Widths

  /** Titles of the report's three sheets: raw data, statistical summary, visualisation. */
  const DataSheet: string := "原始数据"
  const StatsSheet: string := "统计摘要"
  const VisualSheet: string := "可视化"

  /** The visualisation sheet's column that gets a fixed width, and that width. */
  const VisualColumn: string := "A"
  const VisualWidth: nat := 50

  /** A sheet's stored cells, row 1 first; a row holds columns 1, 2, ... up to its last stored cell. */
  type Grid = seq<seq<Option<Value>>>

  /** The longest row of the grid. */
  function LongestRow(rows: Grid): (n: nat)
    ensures forall r :: 0 <= r < |rows| ==> |rows[r]| <= n
    ensures n == 0 || exists r :: 0 <= r < |rows| && |rows[r]| == n
  {
    if |rows| == 0 then 0
    else
      var rest := LongestRow(rows[1..]);
      assert forall r :: 1 <= r < |rows| ==> rows[r] == rows[1..][r - 1];
      if |rows[0]| < rest then rest else |rows[0]|
  }

  /** `ws.max_row`: the last row with a stored cell, and 1 for a sheet with none. */
  function MaxRow(rows: Grid): (m: nat)
    ensures m >= 1
    ensures m >= |rows|
    ensures |rows| == 0 || m == |rows|
  {
    if |rows| == 0 then 1 else |rows|
  }

  /** `ws.max_column`: the last column with a stored cell, and 1 for a sheet with none. */
  function MaxColumn(rows: Grid): (m: nat)
    ensures m >= 1
    ensures forall r :: 0 <= r < |rows| ==> |rows[r]| <= m
    ensures m == 1 || exists r :: 0 <= r < |rows| && |rows[r]| == m
  {
    var n := LongestRow(rows);
    if n == 0 then 1 else n
  }

  /**
   * `ws.cell(row=row, column=col).value`: a stored cell reads as its value, one that was never
   * stored as empty, and every non-empty cell lies within rows 1 .. `max_row` and columns
   * 1 .. `max_column`, so the pass's two loops visit all of them.
   */
  function CellValue(rows: Grid, row: int, col: int): (v: Option<Value>)
    ensures 1 <= row <= |rows| && 1 <= col <= |rows[row - 1]| ==> v == rows[row - 1][col - 1]
    ensures !(1 <= row <= |rows| && 1 <= col <= |rows[row - 1]|) ==> v.None?
    ensures v.Some? ==> 1 <= row <= MaxRow(rows) && 1 <= col <= MaxColumn(rows)
  {
    if 1 <= row <= |rows| && 1 <= col <= |rows[row - 1]| then rows[row - 1][col - 1] else None
  }

  /** Column `col` as the inner loop visits it: the cells of rows 1 .. `max_row`. */
  function Column(rows: Grid, col: int): seq<Option<Value>>
  {
    seq(MaxRow(rows), r => CellValue(rows, r + 1, col))
  }

  /** The width the pass gives column `col` of the grid (when `col` is 1 .. `max_column`). */
  function FittedWidth(rows: Grid, col: int): nat
  {
    ColumnWidth(Column(rows, col))
  }

  /** The widths the pass computes, column 1 first. */
  function ColumnWidths(rows: Grid): (ws: seq<int>)
    ensures |ws| == MaxColumn(rows)
  {
    seq(MaxColumn(rows), i => FittedWidth(rows, i + 1))
  }

  /** Entry `c` (1-based) of a width sequence. */
  function WidthAt(ws: seq<int>, c: int): int
  {
    if 1 <= c <= |ws| then ws[c - 1] else 0
  }

  /** The first `upTo` widths of `ws`, keyed by column number. */
  function WidthMap(ws: seq<int>, upTo: int): map<int, int>
  {
    map c | 1 <= c <= upTo :: WidthAt(ws, c)
  }

  /** Setting one more column's width extends the map by exactly that column. */
  lemma WidthMapStep(ws: seq<int>, col: int, before: map<int, int>)
    requires 1 <= col <= |ws|
    ensures (before + WidthMap(ws, col - 1))[col := ws[col - 1]] == before + WidthMap(ws, col)
  {
  }

  /** The widths the pass sets on columns 1 .. `upTo`, keyed by column number. */
  function FittedWidths(rows: Grid, upTo: int): map<int, int>
  {
    WidthMap(ColumnWidths(rows), upTo)
  }

  /** What the pass leaves as a sheet's column widths, given the widths it had before. */
  function AdjustedWidths(title: string, rows: Grid, before: map<int, int>): map<int, int>
  {
    if title == VisualSheet then before[ColumnNumber(VisualColumn) := VisualWidth]
    else before + FittedWidths(rows, MaxColumn(rows))
  }

  /** On the visualisation sheet the pass sets column A, which is column 1, to 50 and changes nothing else. */
  lemma VisualSheetWidths(rows: Grid, before: map<int, int>)
    ensures AdjustedWidths(VisualSheet, rows, before) == before[1 := VisualWidth]
  {
    assert ColumnNumber(VisualColumn) == 1 by {
      assert VisualColumn[..0] == [];
    }
  }

  /**
   * On any other sheet the pass sets every column 1 .. `max_column` to that column's fitted
   * width and keeps every other width the sheet had.
   */
  lemma FittedSheetWidths(title: string, rows: Grid, before: map<int, int>)
    requires title != VisualSheet
    ensures forall c :: 1 <= c <= MaxColumn(rows) ==>
      c in AdjustedWidths(title, rows, before) && AdjustedWidths(title, rows, before)[c] == FittedWidth(rows, c)
    ensures forall k :: k in before && !(1 <= k <= MaxColumn(rows)) ==>
      k in AdjustedWidths(title, rows, before) && AdjustedWidths(title, rows, before)[k] == before[k]
    ensures forall k :: k in AdjustedWidths(title, rows, before) && !(1 <= k <= MaxColumn(rows)) ==>
      k in before && AdjustedWidths(title, rows, before)[k] == before[k]
  {
    var ws := ColumnWidths(rows);
    forall c | 1 <= c <= MaxColumn(rows)
      ensures WidthAt(ws, c) == FittedWidth(rows, c)
    {
      assert ws[c - 1] == FittedWidth(rows, c);
    }
  }

  /**
   * The fitted width of column `col` is at least 2, exactly 2 when none of its cells in rows
   * 1 .. `max_row` is truthy, at least `len(str(v)) + 2` for each truthy cell `v` there, and
   * attained by one of them when it is more than 2.
   */
  lemma FittedWidthMeaning(rows: Grid, col: int)
    ensures FittedWidth(rows, col) >= Padding
    ensures (forall r :: 1 <= r <= MaxRow(rows) ==> !Truthy(CellValue(rows, r, col))) ==> FittedWidth(rows, col) == Padding
    ensures forall r :: 1 <= r <= MaxRow(rows) && Truthy(CellValue(rows, r, col)) ==>
      FittedWidth(rows, col) >= |Str(CellValue(rows, r, col).value)| + Padding
    ensures FittedWidth(rows, col) == Padding ||
      exists r :: 1 <= r <= MaxRow(rows) && Truthy(CellValue(rows, r, col)) &&
        FittedWidth(rows, col) == |Str(CellValue(rows, r, col).value)| + Padding
  {
    var column := Column(rows, col);
    ColumnWidthMeaning(column);
    forall r | 1 <= r <= MaxRow(rows)
      ensures column[r - 1] == CellValue(rows, r, col)
    {
    }
    if FittedWidth(rows, col) != Padding {
      var i :| 0 <= i < |column| && Truthy(column[i]) && ColumnWidth(column) == |Str(column[i].value)| + Padding;
      assert column[i] == CellValue(rows, i + 1, col);
    }
  }

  /**
   * A worksheet of the reopened workbook: its title, its stored cells, and the widths set in
   * `column_dimensions`. openpyxl keys those by column name; here each is keyed by the number
   * its name stands for. On non-empty names of capital letters, the only names the pass uses,
   * `ColumnNumber` and `ColumnLetter` are inverse (`LetterOfNumber`, `ColumnLetter`'s ensures),
   * so two such names never share a key.
   */
  class Sheet {
    const title: string
    const rows: Grid
    var widths: map<int, int>

    constructor (title: string, rows: Grid)
      ensures this.title == title && this.rows == rows && widths == map[]
    {
      this.title := title;
      this.rows := rows;
      widths := map[];
    }

    /** `ws.column_dimensions[name].width = w`. */
    method SetWidth(name: string, w: int)
      modifies this
      ensures widths == old(widths)[ColumnNumber(name) := w]
    {
      widths := widths[ColumnNumber(name) := w];
    }

    /** The inner loop: the longest `len(str(cell.value))` over the truthy cells of column `col`. */
    method LongestInColumn(col: nat) returns (maxLength: nat)
      ensures maxLength == MaxTruthyLength(Column(rows, col))
    {
      ghost var column := Column(rows, col);
      maxLength := 0;
      for row := 1 to MaxRow(rows) + 1
        invariant maxLength == MaxTruthyLength(column[..row - 1])
      {
        var cell := CellValue(rows, row, col);
        assert column[..row] == column[..row - 1] + [cell];
        assert column[..row][..row - 1] == column[..row - 1];
        if Truthy(cell) {
          maxLength := if maxLength < |Str(cell.value)| then |Str(cell.value)| else maxLength;
        }
      }
      assert column[..MaxRow(rows)] == column;
    }

    /** The outer loop: every column from 1 to `max_column` gets the width its cells call for. */
    method FitColumns()
      modifies this
      ensures widths == old(widths) + FittedWidths(rows, MaxColumn(rows))
    {
      ghost var ws := ColumnWidths(rows);
      for col := 1 to MaxColumn(rows) + 1
        invariant widths == old(widths) + WidthMap(ws, col - 1)
      {
        var maxLength := LongestInColumn(col);
        var adjustedWidth := maxLength + Padding;
        assert adjustedWidth == ws[col - 1];
        SetWidth(ColumnLetter(col), adjustedWidth);
        WidthMapStep(ws, col, old(widths));
      }
    }
  }

  /** The reopened report: its sheets in `wb.sheetnames` order, each a distinct worksheet. */
  class Workbook {
    var sheets: seq<Sheet>

    ghost predicate Valid()
      reads this
    {
      forall i, j :: 0 <= i < j < |sheets| ==> sheets[i] != sheets[j]
    }

    constructor (sheets: seq<Sheet>)
      requires forall i, j :: 0 <= i < j < |sheets| ==> sheets[i] != sheets[j]
      ensures Valid() && this.sheets == sheets
    {
      this.sheets := sheets;
    }

    /**
     * The pass over `wb.sheetnames`: the visualisation sheet gets width 50 on column A, every
     * other sheet has each of its columns fitted, and no other width changes.
     */
    method AutoSizeColumns()
      requires Valid()
      modifies sheets
      ensures forall i :: 0 <= i < |sheets| ==>
        sheets[i].widths == AdjustedWidths(sheets[i].title, sheets[i].rows, old(sheets[i].widths))
    {
      for i := 0 to |sheets|
        invariant forall j :: 0 <= j < i ==>
          sheets[j].widths == AdjustedWidths(sheets[j].title, sheets[j].rows, old(sheets[j].widths))
        invariant forall j :: i <= j < |sheets| ==> sheets[j].widths == old(sheets[j].widths)
      {
        var ws := sheets[i];
        if ws.title == VisualSheet {
          ws.SetWidth(VisualColumn, VisualWidth);
        } else {
          ws.FitColumns();
        }
      }
    }
  }
}
