# Telecom data cleaning pipeline, modelled in Dafny

This project models the decision logic of `TelecomDataProcessor`. That class is a
column-oriented cleaning pipeline over an in-memory table of telecom session records.
It has four operations:

- `handle_missing_values` treats zero as missing. In each numeric column that holds a NaN or a
  zero, it replaces every NaN and zero by the mean of the other cells.
- `standardize_column_names` strips each column label, upper-cases it and replaces each space
  by an underscore.
- `clean_dataset` is imputation followed by renaming. Both steps work on the caller's frame.
- `remove_outliers` selects the 42 fixed quantitative columns and keeps the rows whose absolute
  z-scores all pass a bound. A missing column makes the selection fail.

Modules:

- `Tables`: the data model. A `Table` value has a row count, labels and columns. A column is
  `Cells`: text cells, or numeric cells of type `Option<real>`, where `None` is NaN. The class
  `DataFrame` holds the same three fields and is updated in place.
- `Names`: Python's `strip`, ASCII `upper` and the space replacement, and the table after
  renaming.
- `Imputation`: the per-column imputation, written with the pandas steps the source uses:
  `replace(0, nan)`, a NaN-skipping `mean`, then `fillna`. It is checked against a reference
  definition: the mean of the cells that are neither NaN nor zero.
- `Outliers`: the missing-column error, the per-row mask over absolute scores, and boolean-mask
  row selection.
- `Processor`: the fixed column list and the three in-place methods on a `DataFrame`. Each
  method returns the same object it was given, as the source does. Also here: the composed
  `Cleaned` table, `remove_outliers` (as written and corrected), and lemmas relating the steps.

Numbers are exact reals. The z-score matrix is a parameter: `stats.zscore` is not modelled.
The model applies the absolute value and the strict comparison to that matrix.

## Model

| member | source | states |
|---|---|---|
| `Names.UpperChar` | src/data_processer.py:95 | upper-casing maps each ASCII lower-case letter to its capital, never yields a lower-case letter, and leaves every other character alone |
| `Names.LeadingWhitespace` | src/data_processer.py:95 | counts the whitespace that opens a string: all counted characters are whitespace and the next one is not |
| `Names.TrailingWhitespace` | src/data_processer.py:95 | counts the whitespace that closes a string: all counted characters are whitespace and the one before them is not |
| `Names.Strip` | src/data_processer.py:95 | stripping yields an infix of the input that does not start or end with whitespace; every non-whitespace character of the input lies inside it |
| `Names.Upper` | src/data_processer.py:95 | upper-casing keeps the length and upper-cases each character in place |
| `Names.ReplaceSpaces` | src/data_processer.py:95 | space replacement keeps the length, leaves no space, turns each space into `_` and keeps every other character, including other whitespace |
| `Names.NormalizeName` | src/data_processer.py:95 | a normalised label has no space, no lower-case ASCII letter and no whitespace at either end; character k is the capital of character k of the stripped label, or `_` where that is a space |
| `Names.StripTrimmed` | src/data_processer.py:95 | a string with no whitespace at either end is its own strip |
| `Names.NormalizeNameIdempotent` | src/data_processer.py:95 | normalising a label twice gives the same label as normalising it once |
| `Names.StandardizedLabels` | src/data_processer.py:95 | renaming keeps the number of labels; every new label is free of spaces, lower-case letters and surrounding whitespace |
| `Names.StandardizedTable` | src/data_processer.py:91-96 | renaming changes only the labels: row count, column order and every cell are unchanged; label k becomes the normalised label k; a well-formed table stays well-formed |
| `Names.StandardizedTableIdempotent` | src/data_processer.py:91-96 | renaming a renamed table changes nothing |
| `Names.StripPadded` | src/data_processer.py:95 | one space on either side of a trimmed label is stripped away |
| `Names.NormalizeDuration` | tests/test_data_processer.py:39 | `Dur. (ms)` becomes `DUR._(MS)` |
| `Names.UpperReplaceAppend` | src/data_processer.py:95 | upper-casing and replacing spaces work character by character, so they distribute over concatenation |
| `Names.UpperReplaceAvgRtt` | tests/test_data_processer.py:40 | `Avg RTT ` becomes `AVG_RTT_` |
| `Names.UpperReplaceDlMs` | tests/test_data_processer.py:40 | `DL (ms)` becomes `DL_(MS)` |
| `Names.NormalizeRoundTripTime` | tests/test_data_processer.py:40 | `Avg RTT DL (ms)` becomes `AVG_RTT_DL_(MS)` |
| `Names.NormalizePaddedRoundTripTime` | src/data_processer.py:95 | ` Avg RTT DL (ms) `, padded with spaces, also becomes `AVG_RTT_DL_(MS)` |
| `Imputation.CountSkipNa` | src/data_processer.py:85 | the number of non-NaN cells is at most the length, and is zero exactly when every cell is NaN |
| `Imputation.HasMissing` | src/data_processer.py:84 | a column has a missing value exactly when NaN occurs among its cells |
| `Imputation.HasZero` | src/data_processer.py:84 | a column has a zero exactly when the number zero occurs among its cells; NaN never counts as zero |
| `Imputation.ReplaceZero` | src/data_processer.py:85 | replacing zero by NaN keeps the length, turns exactly the zero cells into NaN and leaves no zero |
| `Imputation.FillNa` | src/data_processer.py:87 | filling keeps the length, gives exactly the NaN cells the fill value, and leaves no NaN when the fill value is a number |
| `Imputation.SumSkipNa` | src/data_processer.py:85 | the NaN-skipping sum is zero when every cell is NaN and never negative when no number is; `ReplaceZeroSums` ties it to the sum of the observed values |
| `Imputation.MeanSkipNa` | src/data_processer.py:85 | the NaN-skipping mean is NaN exactly when every cell is NaN |
| `Imputation.ImputeCells` | src/data_processer.py:82-87 | imputation keeps the column's kind and length; text columns, and numeric columns with no NaN and no zero, are returned unchanged |
| `Imputation.ImputedTable` | src/data_processer.py:81-89 | imputing a table keeps row count, labels and column count; column k becomes the imputed column k; text columns are unchanged; a well-formed table stays well-formed |
| `Imputation.Observed` | src/data_processer.py:85 | the observed values of a column (neither NaN nor zero) are no more than its cells and contain no zero |
| `Imputation.ReplaceZeroSums` | src/data_processer.py:85 | after zeros become NaN, the NaN-skipping sum and count are the sum and count of the observed values |
| `Imputation.MeanOfReplaced` | src/data_processer.py:85 | the fill value the source computes is the arithmetic mean of the observed values, or NaN when there are none |
| `Imputation.ObservedHas` | src/data_processer.py:85 | every cell that is neither NaN nor zero contributes its value to the observed values |
| `Imputation.ImputeCellwise` | src/data_processer.py:84-87 | in a numeric column, every NaN or zero cell becomes the mean of the observed values; every other cell and the length are kept |
| `Imputation.NoMissingAfterImpute` | src/data_processer.py:85-87 | a column with at least one observed value has no NaN after imputation |
| `Imputation.AllMissingWhenNothingObserved` | src/data_processer.py:85-87 | a column with no observed value has an undefined mean (both the reference mean and the one the source computes are NaN), and every one of its cells ends up NaN |
| `Imputation.MeanPositive` | src/data_processer.py:85 | a positive total divided by a positive count is positive |
| `Imputation.SumPositive` | src/data_processer.py:85 | a non-empty sum of positive values is positive |
| `Imputation.NoGapAfterImputePositive` | src/data_processer.py:85-87 | when the observed values are all positive and there is at least one, no NaN and no zero remains |
| `Imputation.ZeroMeanKeepsZero` | src/data_processer.py:85-87 | the column `[1, -1, 0]` has fill value 0, so its zero survives imputation |
| `Imputation.ObservedKeptUnderGapChanges` | src/data_processer.py:85 | replacing NaN or zero cells by NaN or zero leaves the observed values unchanged |
| `Imputation.ImputeIdempotent` | src/data_processer.py:82-87 | imputing an imputed column changes nothing |
| `Imputation.ImputedTableIdempotent` | src/data_processer.py:77-89 | imputing an imputed table changes nothing |
| `Imputation.ImputeDurationExample` | tests/test_data_processer.py:62 | `[100, 200, 0, 400]` becomes `[100, 200, 700/3, 400]` |
| `Imputation.ImputeRoundTripTimeExample` | tests/test_data_processer.py:63 | `[10, 0, 30, 40]` becomes `[10, 80/3, 30, 40]` |
| `Outliers.MissingLabels` | src/data_processer.py:72 | a name is reported missing exactly when it is requested and labels no column |
| `Outliers.KeptRows` | src/data_processer.py:73 | the rows a mask keeps are in range, strictly ascending, all marked `true`, and include every `true` row |
| `Outliers.KeptRowsBound` | src/data_processer.py:73 | a mask keeps at most as many rows as it has |
| `Outliers.KeptRowsNone` | src/data_processer.py:73 | an all-`false` mask keeps no row |
| `Outliers.Abs` | src/data_processer.py:72 | the absolute value is non-negative and equals the score or its negation |
| `Outliers.Below` | src/data_processer.py:73 | a score passes exactly when it is a number strictly between minus the bound and the bound; NaN never passes, and nothing passes a bound that is not positive |
| `Outliers.RowMask` | src/data_processer.py:73 | the mask has one entry per row, `true` exactly when every score of that row passes |
| `Outliers.FilterSeq` | src/data_processer.py:73 | mask selection of one column yields, at position i, the cell of the i-th kept row |
| `Outliers.FilterCells` | src/data_processer.py:73 | a filtered column keeps its kind and has one cell per kept row |
| `Outliers.FilterRows` | src/data_processer.py:73 | row selection keeps every label and every column, yields a well-formed table, and has one row per kept row, no more than before |
| `Outliers.RemoveOutliersBelow` | src/data_processer.py:68-75 | the result is an error exactly when a requested column is absent, and the error names exactly the absent ones; otherwise the labels are kept and no rows are added |
| `Outliers.ExactlyInliersKept` | src/data_processer.py:72-73 | with all columns present, the kept rows are ascending, a row is kept exactly when each of its scores is a number whose absolute value is below the bound, and each column holds the cells of the kept rows, in order |
| `Outliers.NoRowBelowNonPositive` | src/data_processer.py:72-73 | with at least one scored column and a bound of at most 0, the result has no row |
| `Tables.DataFrame.constructor` | src/data_processer.py:63 | a new frame is well-formed and holds exactly the table the loader returned |
| `Processor.HandleMissingValues` | src/data_processer.py:77-89 | imputation runs column by column on the caller's frame; afterwards the frame holds the imputed table and is the object returned |
| `Processor.StandardizeColumnNames` | src/data_processer.py:91-96 | renaming overwrites only the frame's labels, with the renamed table, and returns the same frame |
| `Processor.CleanDataset` | src/data_processer.py:98-105 | the caller's frame ends up holding the cleaned table, and that frame is returned |
| `Processor.Cleaned` | src/data_processer.py:102-105 | cleaning drops no row and no column; label k is normalised and column k imputed; a well-formed table stays well-formed |
| `Processor.CleanedInEitherOrder` | src/data_processer.py:102-103 | renaming then imputing gives the same table as imputing then renaming |
| `Processor.CleanedIdempotent` | src/data_processer.py:98-105 | cleaning a cleaned table changes nothing |
| `Processor.RemoveOutliers` | src/data_processer.py:68-75 | with the corrected bound 3, the result is an error exactly when a quantitative column is absent; otherwise labels are kept and no row is added |
| `Processor.RemoveOutliersAsWritten` | src/data_processer.py:72-73 | with the bound 0 of the source, the result is an error exactly when a quantitative column is absent |
| `Processor.AsWrittenKeepsNoRow` | src/data_processer.py:72-73 | the filter as written keeps no row from any table: every column survives, empty |
| `Processor.RemoveOutliersKeepsInliers` | src/data_processer.py:72-73 | with the corrected bound, a row is kept exactly when all its 42 absolute scores are numbers below 3, and the original order is kept |
| `Processor.RemoveOutliersAfterCleanFails` | src/data_processer.py:68-75 | after cleaning, `Dur. (ms)` is no longer a label, so the outlier step fails on any cleaned table |
| `Processor.SampleTable` | tests/test_data_processer.py:21-27 | the test frame is well-formed, with 4 rows and 2 columns |
| `Processor.StandardizeSampleTable` | tests/test_data_processer.py:30-44 | renaming the sample frame gives the labels `DUR._(MS)` and `AVG_RTT_DL_(MS)` and leaves the cells unchanged |
| `Processor.ImputeSampleTable` | tests/test_data_processer.py:46-67 | imputing the sample frame replaces each zero by the mean of the other cells in its column |

## Findings

| source | as written | input that shows it | evidently intended | confidence | as-written member | corrected member |
|---|---|---|---|---|---|---|
| src/data_processer.py:73 | a row is kept when all its absolute z-scores are below 0 | any table that has all 42 quantitative columns and at least one row: the result has no row | keep the rows whose absolute z-scores are all below 3 | high; not executed | `Processor.AsWrittenKeepsNoRow` | `Processor.RemoveOutliersKeepsInliers` |

The bound 3 is the usual three-standard-deviation rule. With it, a row is kept exactly when
every score is a number of absolute value below 3. `RemoveOutliers` uses this bound;
`RemoveOutliersAsWritten` keeps the bound of the source.

## Where the code and its description differ

- The doc comment of `standardize_column_names` says "lowercase". The code and its test
  upper-case. The model upper-cases.
- One might expect that no column holds a zero after imputation. That holds only when the fill
  value is not zero. `ZeroMeanKeepsZero` shows observed values that sum to zero, so a zero
  survives. `NoGapAfterImputePositive` proves the no-zero claim when the observed values are
  positive.
- A column with no observed value is not left untouched and raises nothing. It becomes all NaN
  (`AllMissingWhenNothingObserved`), as pandas does.
- A missing quantitative column produces pandas' `KeyError`. Here it is
  `Err(MissingColumns(names))`, listing the absent names.
- The source has no per-column switch for the zero-as-missing rule. All numeric columns follow
  it.

## Left out

- `load_dataset` (database connection and SQL query) and the connection parameters: I/O. The
  `DataFrame` constructor stands for the loaded frame.
- `overview_analysis` and the diagnostic print of each column's mean: output only.
- `stats.zscore`: float numerics. The z-score matrix is a parameter of the outlier functions.
  Their requires say the matrix has one row per table row and one score per quantitative
  column, as `zscore` produces.
- IEEE rounding, infinities and pandas dtype conversion (an integer column turning into floats
  after `fillna`): numbers are exact reals, and NaN is `None`.
- Upper-casing of non-ASCII characters (Unicode case mapping, characters that expand such as
  `ß`): `UpperChar` maps only `a`..`z`. Stripping does use Python's full whitespace set.
- Column kinds other than text and numeric (boolean, datetime, pandas' string dtype): text is
  the object dtype, every other column is numeric.
- Duplicate column labels: the model visits columns by position, while pandas looks columns up
  by label. The two agree when labels are distinct.
- CleanedIdempotent, CleanedInEitherOrder: these match the source only when the normalised
  labels are distinct. Renaming is not injective (`a` and ` A` both become `A`). After such a
  collision, a second `clean_dataset` in pandas looks up a label that names two columns and
  raises, while the lemmas say nothing changes.
- Row index labels: a `Table` keeps only the row count. Pandas' index labels are not modelled,
  so the model does not say that the rows kept by the outlier filter carry their original
  labels (for example `[0, 3]`). Nothing in the modelled code reads them.
- Labels that are not strings.
