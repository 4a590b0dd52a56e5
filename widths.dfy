/**
 * The width rule of the report's auto-fit pass: a column is as wide as the longest text among
 * its truthy cells, plus padding.
 */
module Widths {
  import opened Wrappers
  import opened Cells

  /** Characters added to the longest cell text to give a column's width. */
  const Padding: nat := 2

  /** The length `len(str(v))` a cell contributes to its column's width: nothing unless it is truthy. */
  function CellLength(cell: Option<Value>): nat
  {
    if Truthy(cell) then |Str(cell.value)| else 0
  }

  /**
   * The `max_length` the inner loop ends with on `column`, scanning it top to bottom;
   * `MaxTruthyLengthIsMaximum` states what it is.
   */
  function MaxTruthyLength(column: seq<Option<Value>>): nat
    decreases |column|
  {
    if |column| == 0 then 0
    else
      var prev := MaxTruthyLength(column[..|column| - 1]);
      var last := CellLength(column[|column| - 1]);
      if prev < last then last else prev
  }

  /** The scan yields the longest text among the truthy cells, or 0 when there is none. */
  lemma {:induction false} MaxTruthyLengthIsMaximum(column: seq<Option<Value>>)
    ensures forall i :: 0 <= i < |column| && Truthy(column[i]) ==> |Str(column[i].value)| <= MaxTruthyLength(column)
    ensures MaxTruthyLength(column) == 0 ||
      exists i :: 0 <= i < |column| && Truthy(column[i]) && |Str(column[i].value)| == MaxTruthyLength(column)
    decreases |column|
  {
    if |column| > 0 {
      var front := column[..|column| - 1];
      MaxTruthyLengthIsMaximum(front);
      assert forall i :: 0 <= i < |front| ==> front[i] == column[i];
      if MaxTruthyLength(front) != 0 && MaxTruthyLength(column) == MaxTruthyLength(front) {
        var i :| 0 <= i < |front| && Truthy(front[i]) && |Str(front[i].value)| == MaxTruthyLength(front);
        assert column[i] == front[i];
      }
    }
  }

  /** The width the pass gives a column whose cells, top to bottom, are `column`. */
  function ColumnWidth(column: seq<Option<Value>>): nat
  {
    MaxTruthyLength(column) + Padding
  }

  /**
   * A column's width is at least 2, exactly 2 when no cell is truthy, at least `len(str(v)) + 2`
   * for every truthy cell `v`, and no wider than its longest truthy cell needs.
   */
  lemma ColumnWidthMeaning(column: seq<Option<Value>>)
    ensures ColumnWidth(column) >= Padding
    ensures (forall i :: 0 <= i < |column| ==> !Truthy(column[i])) ==> ColumnWidth(column) == Padding
    ensures forall i :: 0 <= i < |column| && Truthy(column[i]) ==> ColumnWidth(column) >= |Str(column[i].value)| + Padding
    ensures ColumnWidth(column) == Padding ||
      exists i :: 0 <= i < |column| && Truthy(column[i]) && ColumnWidth(column) == |Str(column[i].value)| + Padding
  {
    MaxTruthyLengthIsMaximum(column);
  }
}
