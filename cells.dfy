/** Cell values as the pipeline sees them, with Python's `str()` and truth value. */
module Cells {
  import opened Wrappers

  /**
   * A non-missing cell: text, a number (known by whether it is zero and by the text `str()`
   * gives for it) or a boolean. A missing cell is `None`.
   */
  datatype Value = Text(s: string) | Number(isZero: bool, repr: string) | Boolean(b: bool)

  /**
   * `str(v)`: a string is its own text, a number its decimal form, and a boolean `True` or
   * `False`, so a boolean cell contributes 4 or 5 characters to its column's width.
   */
  function Str(v: Value): (s: string)
    ensures v.Text? ==> s == v.s
    ensures v.Number? ==> s == v.repr
    ensures v.Boolean? ==> |s| == if v.b then 4 else 5
  {
    match v
    case Text(s) => s
    case Number(_, repr) => repr
    case Boolean(b) => if b then "True" else "False"
  }

  /** Python's truth value of a cell as openpyxl returns it: empty cells, `""`, zero and `False` are false. */
  predicate Truthy(cell: Option<Value>)
    ensures Truthy(cell) ==> cell.Some?
    ensures cell.Some? && cell.value.Text? ==> (Truthy(cell) <==> |Str(cell.value)| > 0)
    ensures cell == Some(Boolean(false)) ==> !Truthy(cell)
  {
    match cell
    case None => false
    case Some(Text(s)) => s != ""
    case Some(Number(isZero, _)) => !isZero
    case Some(Boolean(b)) => b
  }
}
