# Bacteria data tool: loader, filters and statistics in Dafny

A model of the three pieces of logic in a small bacteria-growth analysis tool:

- **Loading** (`dataLoad`): a data file is read line by line. Line 1 is skipped as a header
  when it has no digit; every other line must split on whitespace into exactly three numbers
  (temperature, growth rate, bacteria code), which are checked in order: temperature in
  [10, 60], growth rate at least 0, code one of 1, 2, 3, 4. Valid rows are kept in file order,
  everything else is counted as invalid. A file that cannot be opened or read gives an empty
  table and a count of 0.
- **Filtering** (`apply_filters`, `filter_data_menu`): an optional bacteria-code filter and an
  optional growth-rate range narrow the table to an order-preserving selection of its rows.
  The menu step edits the two-key filter record in place, or hands back a new empty one.
- **Statistics** (`dataStatistics`): seven named reducers (two means, two standard deviations,
  the row count, and the mean growth rate of the rows strictly below 20 or strictly above 50
  degrees) are looked up by name; an unknown name is an invalid-argument error.

Files: `wrappers.dfy` (Option, Result), `text.dfy` (whitespace splitting, the digit test and
number parsing the loader and the menu use), `table.dfy` (rows and boolean-mask selection),
`data_load.dfy`, `data_statistics.dfy`, `filters.dfy` (the filter part of `main.py`).

Numbers are exact `real`s. The file is given as its sequence of lines, or `None` when opening
or reading it fails; the user's menu answers are parameters.

Three behaviours of the code worth knowing:

- The means and standard deviations have no empty-input guard: numpy returns `nan` for an
  empty column, modelled as the result `NotANumber`. Only the restricted means return a
  "no data" result.
- The header line is counted as invalid, so valid rows plus invalid rows equals the number of
  all lines, the header included.
- A missing file returns the same empty table and zero count as an empty file. Only the
  printed message tells the two apart, and printing is not modelled.

## Model

| member | source | states |
|---|---|---|
| `Text.Split` | src/data_load.py:45 | `line.split()` yields only non-empty tokens that contain no whitespace, and yields no token exactly when the line is all whitespace |
| `Text.SplitLeadingSpaces` | src/data_load.py:45 | whitespace in front of a line (none, or any run of it) does not change its tokens |
| `Text.SplitToken` | src/data_load.py:45 | a non-empty whitespace-free string is a single token |
| `Text.SplitAtSpace` | src/data_load.py:45 | one whitespace character cuts a line into two parts whose tokens are concatenated |
| `Text.SplitAtSpaces` | src/data_load.py:45 | any non-empty run of whitespace (spaces, tabs, newline) separates tokens the same way, so tokens are the maximal whitespace-free runs |
| `Text.SplitJoin` | src/data_load.py:45 | splitting tokens joined by single spaces gives back exactly those tokens |
| `Text.SplitKeepsNoDigit` | src/data_load.py:36-45 | a line without digits splits into tokens without digits |
| `Text.ParseReal` | src/data_load.py:45 | a token the model's decimal parser accepts contains a digit; only a leading minus gives a negative value |
| `Text.ParseDecimal` | src/data_load.py:45 | parsing the decimal rendering of any natural number gives that number |
| `Text.ParseDigits` | src/data_load.py:45 | a non-empty run of digits parses as the whole number it spells |
| `Text.ParseNegated` | src/data_load.py:45 | a minus sign in front of a whole number parses as that number negated |
| `Text.ParsedHasNoSpace` | src/data_load.py:45 | a token the parser accepts contains no whitespace, so `split()` keeps it in one piece |
| `Table.Where` | main.py:214 | boolean-mask selection keeps exactly the rows that pass the mask and is never longer than its input |
| `Table.WhereKeepsOccurrences` | main.py:214 | every occurrence of a passing row is kept and no failing row is, so duplicate rows are kept as often as they occur |
| `Table.WhereIsSubsequence` | main.py:213-221 | a mask selection is a subsequence of the table, in its order |
| `Table.WhereWhere` | main.py:213-220 | masking twice in a row equals masking once by the conjunction |
| `DataLoad.ParseRow` | src/data_load.py:45 | a line gives a row iff `split()` yields exactly three tokens that all parse, and the row's temperature, growth rate and code are those three numbers in order |
| `DataLoad.Validate` | src/data_load.py:47-63 | a row is accepted iff all three range checks hold; otherwise the reason is the first failing check in the order temperature, growth rate, code |
| `DataLoad.ClassifyLine` | src/data_load.py:36-70 | a line is a header iff it is line 1 and has no digit; an accepted line is valid and equals its parsed triple |
| `DataLoad.MalformedIffUnparsed` | src/data_load.py:36-45 | a line that is not a header is malformed exactly when `split()` does not give three tokens or one of them does not parse as a number |
| `DataLoad.LoadData` | src/data_load.py:14-89 | the loop returns the accepted rows in file order and the count of all other lines; every returned row is valid; valid plus invalid equals the number of lines; a failed read gives no rows and a count of 0 |
| `DataLoad.ProcessLine` | src/data_load.py:36-70 | one turn of the loop: the line's row is appended exactly when the line is accepted, and otherwise the invalid count goes up by one |
| `DataLoad.EveryLineCountedOnce` | src/data_load.py:34-74 | every line is counted exactly once, as a valid row or as an invalid line |
| `DataLoad.AcceptedRowsAreValid` | src/data_load.py:48-66 | every loaded row has temperature in [10, 60], growth rate at least 0 and a code in {1, 2, 3, 4} |
| `DataLoad.HeaderOnlyOnLineOne` | src/data_load.py:36-45 | only line 1 can be a header; a digit-free line further down is rejected by the parse |
| `DataLoad.ClassifyThreeNumbers` | src/data_load.py:45-63 | a line that `split()` cuts into exactly three tokens, each parsing as a number, is judged by the range checks on those three numbers, on any line number |
| `DataLoad.ClassifySpacedLine` | src/data_load.py:34-63 | a line with optional leading whitespace, three number tokens separated by runs of spaces or tabs and optional trailing whitespace such as its newline is judged by the range checks on those numbers |
| `DataLoad.AcceptsRenderedRow` | src/data_load.py:45-66 | a valid row of whole numbers, written as three decimal numbers separated by single spaces and ended by a newline, is accepted as exactly that row, on any line number |
| `DataLoad.ClassifyWrittenLine` | src/data_load.py:45-66 | a line of three number tokens separated by single spaces and ended by a newline is judged by the range checks on those numbers, on any line number |
| `DataLoad.ExampleLine1` | src/data_load.py:45-66 | line 1 "25 1.5 1" is accepted as the row (25, 1.5, 1) |
| `DataLoad.ExampleLine2` | src/data_load.py:45-51 | line 2 "70 2.0 2" is rejected for its temperature, 70 |
| `DataLoad.ExampleLine3` | src/data_load.py:45-57 | line 3 "30 -1 3" is rejected for its growth rate, -1 |
| `DataLoad.VerdictsOfThreeLines` | src/data_load.py:34 | the lines of a file are judged in order and numbered from 1 |
| `DataLoad.FileExample` | src/data_load.py:34-77 | the file "25 1.5 1", "70 2.0 2", "30 -1 3" loads as the single row (25, 1.5, 1) with an invalid count of 2 |
| `DataStatistics.Mean` | src/data_statistics.py:21 | the mean times the number of values equals their sum |
| `DataStatistics.MeanBetween` | src/data_statistics.py:12-33 | the mean of a column lies between any lower and upper bound of its values |
| `DataStatistics.VarianceNonNegative` | src/data_statistics.py:58-79 | the population variance is never negative |
| `DataStatistics.ComputeMeanTemperature` | src/data_statistics.py:12-21 | a number exactly when the table is non-empty (otherwise `nan`), and that number is the mean of column 0 |
| `DataStatistics.ComputeMeanGrowthRate` | src/data_statistics.py:24-33 | a number exactly when the table is non-empty (otherwise `nan`), and that number is the mean of column 1 |
| `DataStatistics.ComputeStdTemperature` | src/data_statistics.py:58-67 | for a non-empty table, the root of the population variance of column 0 (which is non-negative); otherwise `nan` |
| `DataStatistics.ComputeStdGrowthRate` | src/data_statistics.py:70-79 | for a non-empty table, the root of the population variance of column 1 (which is non-negative); otherwise `nan` |
| `DataStatistics.CountDataRows` | src/data_statistics.py:82-91 | the statistic is a row count equal to the number of rows in the table |
| `DataStatistics.ComputeFilteredMeanGrowthRate` | src/data_statistics.py:36-55 | "no data" iff no row is strictly on the requested side of the threshold; otherwise the mean growth rate of exactly those rows |
| `DataStatistics.ThresholdRowsExcluded` | src/data_statistics.py:49-52 | rows exactly at the threshold are used on neither side; "below" uses `<` and any other comparison `>` |
| `DataStatistics.RestrictedMeanExample` | src/data_statistics.py:36-55 | rows (15, 1.0) and (55, 3.0): the mean above 50 is 3.0 and the mean below 20 is 1.0 |
| `DataStatistics.OptionNames` | src/data_statistics.py:95-109 | the seven option names checked against are pairwise distinct, which is why a name selects one reducer |
| `DataStatistics.FirstMatch` | src/data_statistics.py:131-134 | the lookup finds the first option with the name, or reports that none has it |
| `DataStatistics.DataStatistics` | src/data_statistics.py:112-137 | an unknown name fails with an invalid-statistic error; a known name gives its option's reducer on the data, so the "unable to compute" error is never raised |
| `DataStatistics.NameOfKey` | main.py:113-116 | a menu key finds a name iff some option is filed under that key |
| `DataStatistics.NameOfKeyAt` | main.py:113-116 | the key lookup returns the name of the first option filed under the key |
| `DataStatistics.KeyFiveCountsRows` | src/data_statistics.py:100 | key "5" is "Data Rows", the number of rows in the table |
| `DataStatistics.KeySixIsColdMean` | src/data_statistics.py:101-104 | key "6" is the restricted mean with threshold 20 "below" |
| `DataStatistics.KeySevenIsHotMean` | src/data_statistics.py:105-108 | key "7" is the restricted mean with threshold 50 "above" |
| `DataStatistics.KeysAreNotNames` | src/data_statistics.py:127-128 | `dataStatistics` given a menu key rather than a name fails with an invalid-statistic error |
| `Filters.ApplyFilters` | main.py:211-221 | every row kept is a row of the input that passes every active filter, and the result is never longer than the input; `ApplyFiltersIsConjunction` shows that exactly those rows are kept, in order |
| `Filters.ApplyFiltersIsConjunction` | main.py:211-221 | applying the filters in turn equals keeping the rows that pass every active filter |
| `Filters.ApplyFiltersIsSubsequence` | main.py:211-221 | the result is an order-preserving subsequence of the input, never longer |
| `Filters.ApplyFiltersKeepsPassingRows` | main.py:213-220 | a row is in the result iff it is in the input and passes every active filter |
| `Filters.BacteriaFilterSelectsCode` | main.py:213-214 | with a bacteria filter every remaining row has that code, and every row with that code remains |
| `Filters.NoFiltersIsIdentity` | main.py:213-221 | no filters, or a range with both sides empty, returns the input unchanged |
| `Filters.ZeroBoundIgnored` | main.py:217-220 | a bound of 0.0 is falsy and acts as if that side were empty |
| `Filters.UpperBoundZeroKeepsLargerRates` | main.py:219-220 | an upper bound of 0.0 keeps a row whose growth rate is 1.0 |
| `Filters.ApplyFiltersIntended` | main.py:215-220 | with bounds tested for presence, a row survives iff it passes the bacteria filter and every given bound; the result is a subsequence |
| `Filters.IntendedFiltersRespectBounds` | main.py:215-220 | every row of the intended result lies within each given bound, zero included |
| `Filters.IntendedAgreesWithoutZeroBounds` | main.py:215-220 | the intended and the written filter agree whenever no bound is zero |
| `Filters.ReadBound` | main.py:192-196 | an empty answer is an absent bound; a non-empty answer fails exactly when it does not parse as a number, and otherwise is the bound it parses to |
| `Filters.ReadBoundDecimal` | main.py:194-195 | a typed whole number is read back as exactly that bound |
| `Filters.ActiveFilters.constructor` | main.py:34 | a new filter record has no bacteria filter and no growth-rate range |
| `Filters.ActiveFilters.FilterDataMenu` | main.py:158-208 | "1" with a choice in "1".."4" sets a valid bacteria code; "2" with a non-empty side sets the range, an empty side stored as absent, and an unparsable side raises and changes nothing; "3" returns a fresh empty record and leaves the old one alone; anything else changes nothing |
| `Filters.FilteredStatisticsInRange` | main.py:113-117 | on the filtered view of a loaded table, written or intended filter alike, the mean temperature is in [10, 60], the growth-rate means are non-negative and the row count never exceeds the loaded rows |
| `Filters.SelectionStatisticsInRange` | main.py:113-117 | the same bounds hold for any selection of rows from a table of valid rows |
| `Filters.GrowthRatesOfSubsetNonNegative` | src/data_statistics.py:49-55 | on rows with non-negative growth rates, a restricted mean is non-negative |

## Left out

- `main_menu`, `clear_terminal`, every `input`, `print` and colour code in `main.py`: interactive terminal I/O. The user's answers to the filter menu are parameters of `FilterDataMenu`.
- `src/data_plotting.py`: chart rendering and a least-squares fit by a plotting and numerics library.
- The printed per-line error messages of the loader and their wording: the model records only which constraint a line broke (`Verdict`).
- The `str(result)` formatting in `dataStatistics`: the model returns the value before formatting.
- Floating point: all numbers are exact reals, so rounding, `nan` and infinities passing or failing the range checks are not modelled.
- `DataStatistics.ComputeStdTemperature`: returns the population variance whose square root numpy computes; the square root itself is not modelled. The same holds for `DataStatistics.ComputeStdGrowthRate`.
- `Text.ParseReal`: accepts an optional sign, digits and at most one decimal point. Python's `float()` also accepts surrounding whitespace, exponents, underscores between digits, `inf`, `nan` and non-ASCII digits, which the model rejects.
- `Text.HasDigit`: tests only the ASCII digits, while `str.isdigit()` is also true for other Unicode digits.
- Reading the file: opening it and any failure while reading it are one input case (`None`). A read that fails midway discards the whole file, which matches the code's single `except Exception` path.
- The empty table after a load with no valid rows is `np.array([])`, a one-dimensional array on which column indexing raises `IndexError`. The model has a single empty table (`[]`) on which the reducers return `nan`, the row count or "no data".
- `Filters.ActiveFilters.FilterDataMenu`: the `ValueError` that `float()` raises on an unparsable bound is not caught in the source and ends the program; the model reports it as `failed` with the record unchanged.

## Findings

| source | as written | input that shows it | evidently intended | confidence | as-written member | corrected member |
|---|---|---|---|---|---|---|
| main.py:219-220 | `if upper:` treats an upper bound of 0.0 as "no bound" | the user enters upper bound "0"; the row (20, 1.0, 1) is still kept | an upper bound of 0 keeps only rows with growth rate 0 | medium, not executed | `Filters.UpperBoundZeroKeepsLargerRates` | `Filters.ApplyFiltersIntended` |
