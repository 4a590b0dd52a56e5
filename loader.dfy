/**
 * `load_and_process`: the loaded sheet loses its all-missing rows, each row is labelled by
 * classifying its `fasta_name` cell, and only rows with one of the four recognised labels stay.
 */
module Loader {
  import opened Wrappers
  import opened Sequences
  import opened Cells
  import opened Classifier

  /** One row of the data frame: a cell per column, `None` where the cell is missing (NaN). */
  type Row = seq<Option<Value>>

  /** The sheet as `read_excel` returns it: column names and rows. */
  datatype Frame = Frame(columns: seq<string>, rows: seq<Row>)

  /** A row together with the `model_type` label the classifier gave it. */
  datatype Record = Record(fields: Row, modelType: ModelType)

  /** Looking up a column the frame does not have raises `KeyError`. */
  datatype LoadError = KeyError(column: string)

  /** The column whose text decides the label. */
  const NameColumn: string := "fasta_name"

  /** Every cell of the row is missing. */
  predicate AllMissing(row: Row)
  {
    forall k :: 0 <= k < |row| ==> row[k].None?
  }

  /** The cell in column `col`, missing when the row is too short to have one. */
  function CellAt(row: Row, col: nat): Option<Value>
  {
    if col < |row| then row[col] else None
  }

  /** `str(cell)`: a missing cell is the float NaN, whose text is `"nan"`. */
  function NameText(cell: Option<Value>): (text: string)
    ensures cell.None? ==> text == "nan"
  {
    match cell
    case None => "nan"
    case Some(v) => Str(v)
  }

  /** The label `classify_model` gives a row through its name cell. */
  function LabelOf(row: Row, col: nat): ModelType
  {
    Classify(NameText(CellAt(row, col)))
  }

  /**
   * `df.dropna(how='all')`: exactly the rows with at least one present cell survive, each
   * as often as it occurred, in their original order.
   */
  function DropEmptyRows(rows: seq<Row>): (kept: seq<Row>)
    ensures forall row :: row in kept <==> row in rows && !AllMissing(row)
    ensures forall row :: multiset(kept)[row] == if AllMissing(row) then 0 else multiset(rows)[row]
    ensures IsSubsequence(kept, rows)
  {
    Filter(rows, (row: Row) => !AllMissing(row))
  }

  /** `df['model_type'] = df['fasta_name'].apply(classify_model)`. */
  function LabelRows(rows: seq<Row>, col: nat): seq<Record>
  {
    if |rows| == 0 then [] else [Record(rows[0], LabelOf(rows[0], col))] + LabelRows(rows[1..], col)
  }

  /**
   * `df[df['model_type'].isin(['PEAR', 'CarveMe', 'ModelSEED', 'Published'])]`: exactly the
   * records not labelled `Other` survive, in their original order.
   */
  function KeepRecognised(records: seq<Record>): (kept: seq<Record>)
    ensures forall r :: r in kept <==> r in records && r.modelType != Other
    ensures forall r :: r in kept ==> r.modelType in Recognised
    ensures forall r :: multiset(kept)[r] == if r.modelType == Other then 0 else multiset(records)[r]
    ensures IsSubsequence(kept, records)
  {
    assert forall t: ModelType :: t in Recognised <==> t != Other;
    Filter(records, (r: Record) => r.modelType in Recognised)
  }

  /**
   * `load_and_process` on an already loaded sheet. It fails with `KeyError` exactly when the
   * sheet has no `fasta_name` column; otherwise every surviving record carries a recognised
   * label that is the classification of its own name cell, and came from a row with data.
   */
  function LoadAndProcess(frame: Frame): (res: Result<seq<Record>, LoadError>)
    ensures res.Failure? <==> NameColumn !in frame.columns
    ensures res.Failure? ==> res.error == KeyError(NameColumn)
    ensures res.Success? ==> forall r :: r in res.value ==>
      r.fields in frame.rows && !AllMissing(r.fields) && r.modelType in Recognised &&
      r.modelType == LabelOf(r.fields, IndexOf(frame.columns, NameColumn))
  {
    var rows := DropEmptyRows(frame.rows);
    var col := IndexOf(frame.columns, NameColumn);
    if col == |frame.columns| then
      Failure(KeyError(NameColumn))
    else
      var records := LabelRows(rows, col);
      LabelRowsFaithful(rows, col);
      Success(KeepRecognised(records))
  }

  /** Each labelled record is a row of the input with that row's own label. */
  lemma {:induction false} LabelRowsFaithful(rows: seq<Row>, col: nat)
    ensures |LabelRows(rows, col)| == |rows|
    ensures forall i :: 0 <= i < |rows| ==> LabelRows(rows, col)[i] == Record(rows[i], LabelOf(rows[i], col))
    ensures forall r :: r in LabelRows(rows, col) ==> r.fields in rows && r.modelType == LabelOf(r.fields, col)
    decreases |rows|
  {
    if |rows| > 0 {
      var labelled := LabelRows(rows, col);
      var rest := LabelRows(rows[1..], col);
      LabelRowsFaithful(rows[1..], col);
      assert labelled == [Record(rows[0], LabelOf(rows[0], col))] + rest;
      forall i | 0 <= i < |rows|
        ensures labelled[i] == Record(rows[i], LabelOf(rows[i], col))
      {
        if i > 0 {
          assert labelled[i] == rest[i - 1] && rows[i] == rows[1..][i - 1];
        }
      }
      forall r | r in labelled
        ensures r.fields in rows && r.modelType == LabelOf(r.fields, col)
      {
        var i :| 0 <= i < |labelled| && labelled[i] == r;
        assert r.fields == rows[i];
      }
    }
  }

  /** A row with every cell missing has a missing name, reads as `"nan"` and is labelled `Other`. */
  lemma AllMissingIsOther(row: Row, col: nat)
    requires AllMissing(row)
    ensures LabelOf(row, col) == Other
  {
    NanIsOther();
  }

  /**
   * Dropping the all-missing rows first changes nothing in the final selection: such rows
   * would be labelled `Other` and filtered out anyway.
   */
  lemma {:induction false} DropEmptyRedundant(rows: seq<Row>, col: nat)
    ensures KeepRecognised(LabelRows(DropEmptyRows(rows), col)) == KeepRecognised(LabelRows(rows, col))
    decreases |rows|
  {
    if |rows| > 0 {
      DropEmptyRedundant(rows[1..], col);
      if AllMissing(rows[0]) {
        AllMissingIsOther(rows[0], col);
      }
    }
  }

  /**
   * The records `load_and_process` returns are exactly the labelled rows of the whole sheet
   * whose label is recognised, in sheet order.
   */
  lemma LoadSelectsRecognised(frame: Frame)
    requires NameColumn in frame.columns
    ensures LoadAndProcess(frame) == Success(KeepRecognised(LabelRows(frame.rows, IndexOf(frame.columns, NameColumn))))
  {
    DropEmptyRedundant(frame.rows, IndexOf(frame.columns, NameColumn));
  }
}
