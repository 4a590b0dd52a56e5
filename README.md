# Metabolic-model comparison pipeline: labelling, filtering and report column widths

This project models, in Dafny, the logic of `comparisony_function.py`. The script compares
genome-scale metabolic models built by different methods. It reads a spreadsheet of per-model
measurements and drops the rows with no data at all. It then labels each row by the
construction method that its `fasta_name` suggests (`classify_model`) and keeps only the four
recognised labels. Finally it writes a three-sheet report and reopens it. On the image sheet
it sets column A to width 50. On the other two sheets it sets every column to 2 plus the
length of the longest text among that column's truthy cells.

Modules, one per concern of the script:

- `Wrappers`: `Option` and `Result`.
- `Sequences`: `IndexOf`, which plays the role of pandas column lookup, and an order-preserving
  `Filter`, which plays the role of boolean-mask row selection.
- `Text`: Python's substring test, `str.split('_')` with its partner `join`, and `str.isalnum`.
- `Classifier`: `classify_model`, proved against a reference statement of its four ordered
  rules.
- `Cells`: spreadsheet cell values, Python's `str()` on them, and their truth value.
- `Loader`: `load_and_process` on an already loaded sheet. This covers `dropna(how='all')`,
  the `model_type` column, the `isin` filter, and the `KeyError` when `fasta_name` is missing.
- `Charts`: the y-axis label of each chart panel.
- `Columns`: `get_column_letter` and, on non-empty names of capital letters, its inverse.
- `Widths`: the width rule for one column.
- `Report`: the reopened workbook, written imperatively.
  - `Sheet` is a class whose `widths` map (`column_dimensions`) is updated in place by the two
    nested loops of the width pass.
  - `Workbook` runs the pass over all its sheets.
  - `Sheet.LongestInColumn` is proved against `MaxTruthyLength`.
  - `Sheet.FitColumns` is proved against `FittedWidths`.
  - `Workbook.AutoSizeColumns` is proved against `AdjustedWidths`.
  - What these functions mean is proved in separate lemmas.

Two details of the code shape what the model promises:

- **Rule 4 needs a character after the `i`.** `part[1:].isalnum()` is false on the empty
  string, so a bare `i` piece does not count (`BareIIsOther`).
- **Only truthy cells set a width.** Line 134 skips cells holding `0`, `False` or `""`
  (`FittedWidthMeaning`).

## Model

| member | source | states |
|---|---|---|
| Text.Contains | comparisony_function.py:31-35 | `t in s` holds exactly when `t` occurs as a contiguous piece of `s` at some index |
| Text.Split | comparisony_function.py:38 | `name.split('_')` gives at least one piece, no piece contains the separator, and joining the pieces with the separator gives back the name |
| Text.SplitJoin | comparisony_function.py:38 | splitting the join of separator-free pieces (at least one) gives back exactly those pieces, so split and join are inverse |
| Text.IsAlnum | comparisony_function.py:37 | `isalnum()` is true exactly for a non-empty string all of whose characters are letters or digits |
| Classifier.IsPublishedPart | comparisony_function.py:37 | `part.startswith('i') and part[1:].isalnum()` holds exactly when the piece is `i` followed by one or more letters or digits |
| Classifier.AnyPublishedPart | comparisony_function.py:37-38 | the `any(...)` over the pieces holds exactly when some piece is a published segment |
| Classifier.Classify | comparisony_function.py:29-40 | each label's exact condition: CarveMe iff `.faa` occurs; ModelSEED iff no `.faa` but `.seed`; PEAR iff neither but `GCF`; Published iff none of the three but some `_`-piece is a published segment; Other otherwise. The label is recognised iff it is not Other |
| Classifier.GcfGuardRedundant | comparisony_function.py:35-36 | removing rule 3's `.faa`/`.seed` guard never changes the label, because rules 1 and 2 have already returned |
| Classifier.NanIsOther | comparisony_function.py:30-40 | the text `"nan"` of a missing name is labelled Other |
| Classifier.BareIIsOther | comparisony_function.py:37-39 | a bare `i` piece is not a published segment, and `model_i` is labelled Other |
| Classifier.JoinedPublished | comparisony_function.py:37-38 | a name joined with `_` from `_`-free pieces, one of them a published segment, passes rule 4's test |
| Classifier.PublishedExample | comparisony_function.py:37-39 | `e_coli_iJO1366` is labelled Published |
| Classifier.CarveMeExample | comparisony_function.py:31-32 | `GCF_000005845.2_protein.faa` is labelled CarveMe although it carries a GCF accession |
| Sequences.IndexOf | comparisony_function.py:42 | the column lookup returns the first position of the name, or the length exactly when the name is absent |
| Sequences.Filter | comparisony_function.py:43 | the selection keeps exactly the elements passing the mask, each as often as it occurred, and in the original order |
| Loader.NameText | comparisony_function.py:30 | `str()` of a missing (NaN) name cell is `"nan"` |
| Loader.DropEmptyRows | comparisony_function.py:26 | `dropna(how='all')` keeps exactly the rows with a present cell, with their multiplicities, in order |
| Loader.KeepRecognised | comparisony_function.py:43 | the `isin` filter keeps exactly the records not labelled Other (all of them with a recognised label), with multiplicities, in order |
| Loader.LoadAndProcess | comparisony_function.py:21-43 | fails with `KeyError('fasta_name')` exactly when the sheet has no such column; otherwise every returned record is a sheet row with data whose label is recognised and is the classification of its own name cell |
| Loader.LabelRowsFaithful | comparisony_function.py:42 | the `apply` labels row `i` with the classification of row `i`'s name and changes neither the number nor the order of rows |
| Loader.AllMissingIsOther | comparisony_function.py:26-42 | a row with every cell missing is labelled Other |
| Loader.DropEmptyRedundant | comparisony_function.py:26-43 | dropping the all-missing rows first does not change the final selection |
| Loader.LoadSelectsRecognised | comparisony_function.py:21-43 | when `fasta_name` exists, the result is exactly the labelled rows of the whole sheet whose label is recognised, in sheet order |
| Charts.YLabel | comparisony_function.py:75-82 | a count metric (`reactions`, `metabolites`, `genes`) gets `Number of <metric>`; every other panel keeps `product rate` |
| Charts.PanelLabels | comparisony_function.py:51-82 | among the six panels, two share a y-label only if neither is a count metric, and every non-count panel is labelled `product rate` |
| Columns.ColumnLetter | comparisony_function.py:137 | `get_column_letter(n)` is a non-empty string of capital letters that `column_index_from_string` reads back as `n` |
| Columns.LetterOfNumber | comparisony_function.py:137 | for every non-empty name of capital letters, `get_column_letter` of the number the name stands for gives back that name, so the two conversions are inverse on such names |
| Columns.ColumnLetterInjective | comparisony_function.py:137 | distinct columns get distinct names |
| Widths.MaxTruthyLengthIsMaximum | comparisony_function.py:130-135 | the inner loop's `max_length` is at least the text length of every truthy cell, and is either 0 or the length of one of them |
| Widths.ColumnWidthMeaning | comparisony_function.py:130-136 | a column's width is at least 2; exactly 2 when no cell is truthy; at least `len(str(v)) + 2` for every truthy cell; otherwise attained by a truthy cell |
| Cells.Str | comparisony_function.py:135 | `str(cell.value)` of a text cell is the text itself, of a number its given decimal form, and of a boolean `True` (4 characters) or `False` (5 characters) |
| Cells.Truthy | comparisony_function.py:134 | `if cell.value:` fails on an empty cell and on `False`; a text cell passes exactly when its text is non-empty |
| Report.MaxRow | comparisony_function.py:132 | `max_row` is at least 1, covers every stored row, and is the number of stored rows when there are any |
| Report.MaxColumn | comparisony_function.py:129 | `max_column` is at least 1, at least as long as every stored row, and is either 1 or the length of some stored row |
| Report.CellValue | comparisony_function.py:133 | `ws.cell(row, column).value` is the stored value of a stored cell and empty otherwise; every non-empty cell lies within rows 1 .. `max_row` and columns 1 .. `max_column`, so the loops visit all of them |
| Report.LongestRow | comparisony_function.py:129 | the grid's longest row is at least as long as every row and is the length of some row (0 for an empty grid) |
| Report.VisualSheetWidths | comparisony_function.py:125-126 | on the image sheet the pass sets column A, which is column 1, to 50 and leaves every other width as it was |
| Report.FittedSheetWidths | comparisony_function.py:127-138 | on any other sheet every column 1 .. `max_column` gets its fitted width; every width the sheet had outside those columns is kept with its value; and no other column gets a width |
| Report.FittedWidthMeaning | comparisony_function.py:129-136 | a fitted column's width is at least 2; exactly 2 when none of its cells in rows 1 .. `max_row` is truthy; at least `len(str(v)) + 2` for each truthy cell; otherwise attained by one of them |
| Report.Sheet.SetWidth | comparisony_function.py:138 | assigning `column_dimensions[name].width` changes exactly the width of the column the name stands for |
| Report.Sheet.LongestInColumn | comparisony_function.py:130-135 | the row loop over a column ends with the maximum truthy text length of rows 1 .. `max_row` of that column |
| Report.Sheet.FitColumns | comparisony_function.py:129-138 | the column loop leaves the sheet's widths as before, overridden on columns 1 .. `max_column` by their fitted widths |
| Report.Workbook.AutoSizeColumns | comparisony_function.py:123-138 | after the pass over all sheets, each sheet's widths are what `AdjustedWidths` gives for its title and cells from its widths before the pass |

## Left out

- Reading the input workbook (`pd.read_excel`, line 23), writing the report (`ExcelWriter`, `to_excel`, lines 108-110) and saving it (line 140) are file I/O. The model starts from a loaded `Frame` and from the reopened sheets' cells.
- The input path, sheet name and output paths (lines 12-16) are fixed file locations and play no part in the logic.
- Embedding the chart image (lines 114-116) is not modelled. Only the image sheet's title matters to the width pass.
- Chart rendering (lines 50-73 and 84-90) is drawing and file output. Only the y-label choice (lines 75-82) is modelled. Re-reading the metric from the panel title (line 71) is taken to give back the metric name.
- The group-by mean/median summary table (lines 98-105) is numeric aggregation in pandas and is not modelled. It names the columns `reaction` and `gene`, while the metrics are `reactions` and `genes`. On a sheet with only the plural columns this lookup would raise `KeyError`.
- The `__main__` block (lines 145-163) only prints messages and catches every exception.
- Text.IsAlnum: only ASCII letters and digits count as alphanumeric. Python's `isalnum` also accepts other Unicode letters and digits.
- Cells.Str: `str()` of a number is taken as given text stored with the cell (`Number.repr`). Float formatting is not modelled.
- Columns.ColumnLetter: openpyxl's limit of 18278 columns, beyond which `get_column_letter` raises `ValueError`, is not modelled.
- Report.Sheet: `column_dimensions` is keyed by column name in openpyxl. The model keys it by the number the name stands for. The pass only uses names that `get_column_letter` gives and `"A"`. All of them are non-empty names of capital letters, on which `ColumnLetter` and `ColumnNumber` are proved inverse (`LetterOfNumber`), so two of them never share a key. Other strings can share a number: `ColumnNumber` is not one-to-one on arbitrary text.
- Report.Sheet: widths are whole numbers. openpyxl stores them as floats, but the pass only ever assigns integers.
- Report.Sheet: a sheet's cells are an immutable grid. The pass only reads them. Cells openpyxl never stored read as empty, and `max_row` and `max_column` are at least 1 as in openpyxl. Style and the openpyxl cell objects themselves are not modelled.
- Loader.Record: the `model_type` column is kept as a separate field of each record rather than appended to the row.
