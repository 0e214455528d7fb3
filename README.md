# Bank deposit-rate panel: a verified model of the data cleaning

This project models in Dafny the data-cleaning scripts of a master's thesis
on bank deposit rates and depositor sophistication, and proves what each
step guarantees about the tables it builds. The scripts read FFIEC Call
Report extracts (the `rcon*` balance-sheet items and the `riad*` income
items), the FDIC Summary of Deposits (branch deposits by county) and
county-level ACS data. From them they build:

- a bank-quarter panel of deposit interest rates and their changes;
- bank-level controls: balance-sheet ratios and deposit-weighted metro and
  income exposures;
- a bank-level sophistication index and county deposit concentration
  (Herfindahl-Hirschman index, on a 0-1 share scale);
- the screened working panel;
- the summary statistics of its first quarter.

A table is a `seq` of rows. The line items of a row are a `map<string, real>`,
and a column absent from the map is a missing (NaN) cell. `Option` carries
the missing values through the arithmetic the way pandas propagates NaN:
a sum, difference or ratio is missing as soon as one operand is missing,
and a ratio is also missing when its divisor is zero. Amounts are exact
`real`s. Report dates are parsed dates. A submission date that did not
parse is `None` and sorts after every real date, so `keep='last'` keeps it.
The working panel's `Date` is kept as the text read from the CSV, because
the script compares it as text.

Modules, one per file:

- `Tables`: cells, missing-value arithmetic, sums, filters, clipping, and
  per-group lags and running sums.
- `Sorting`: lexicographic keys and `sort_values` as a sorted permutation.
- `Dedup`: `drop_duplicates`, and the latest-submission de-duplication
  (sort by key and submission date, then `keep='last'`).
- `Joins`: the pandas left merge.
- `Weighted`: groupby weighted means guarded by `sum_w > 0`.
- `CallReport`: the Call Report pipeline that `programs/riad_clean.py` and
  `programs/clean/deposit_interest_rate.py` share. It covers the conversion
  of year-to-date income items into quarterly flows, two-point averages,
  annualised rates, first differences and zero-guarded relative changes.
- `Rcon`: `programs/rcon.py`.
- `RiadClean`: `programs/riad_clean.py`.
- `DepositInterestRate`: `programs/clean/deposit_interest_rate.py`.
- `Control`: `programs/clean/control.py`.
- `Sophistication`: `programs/bank_sophistication_index_map.py`.
- `WorkingPanel`: `programs/clean/working_panel_merge.py`.
- `SummaryStatistics`: `programs/analysis/summary_statistics.py`.

Each script is modelled in the form it takes. Code that rewrites one
dataframe step by step becomes methods with loops and invariants:

- the loop over `ytd_cols`;
- the `fillna` reassignments;
- the clipping loops;
- the loops that emit summary rows;
- the de-duplication passes.

The groupby, merge and arithmetic expressions become functions. Each
method is proved against the functions that state what its steps mean.

Two places where the code and its comments differ, modelled as the code
does it:

- The z-score screen of `working_panel_merge.py` uses `between`, which
  includes both ends, although its comment says "strictly within".
  `WorkingPanel.BuildPanel` states the inclusive bounds.
- The weight comment of `control.py` (line 42) says that weights with
  DEPDOM <= 0 become NaN. The code only gives NaN for a zero divisor. The
  model makes a division by zero missing and lets a negative DEPDOM give
  a negative weight. It does not state the comment's claim.

## Model

| member | source | states |
|---|---|---|
| Tables.SetCell | programs/rcon.py:10 | assigning a column sets that one cell of the row and leaves every other column as it was |
| Tables.AddAll | programs/clean/control.py:27 | a chain of column additions is missing exactly when one term is missing, and is otherwise the sum of the terms |
| Tables.DivIsRatio | programs/clean/control.py:26 | a column division is the one value that is missing on a missing operand or zero divisor and otherwise times the divisor gives the numerator |
| Tables.DropMissing | programs/analysis/summary_statistics.py:17 | `dropna` keeps, in order and once each, exactly the present values: the j-th value kept is the cell at the j-th present position; the result is empty exactly when every cell is missing |
| Tables.Filter | programs/clean/working_panel_merge.py:147 | a boolean mask keeps, in order and once each, exactly the rows that pass: the j-th row kept is the row at the j-th passing position, and every passing row is kept |
| Tables.NoRepeatsCount | programs/analysis/summary_statistics.py:14 | a sequence without repeats has as many elements as its set of values |
| Tables.DistinctCount | programs/analysis/summary_statistics.py:14 | `nunique()` counts the set of values of the column |
| Tables.Merged | programs/rcon.py:8 | a merged row's cell is the matched right row's where it has one and the left row's otherwise |
| Tables.MergedCellsDetermine | programs/rcon.py:8 | cells merged that way are the merged row and no other |
| Tables.FilterUnique | programs/riad_clean.py:46 | filtering a table whose keys are unique leaves them unique |
| Tables.Distinct | programs/analysis/summary_statistics.py:14 | the distinct values of a column: pairwise different, each from the column, and covering every value of it |
| Tables.ClipProperties | programs/clean/working_panel_merge.py:136 | with ordered bounds a clipped value lies in them, a value inside is unchanged, values below or above go to the bound, and clipping twice is clipping once |
| Tables.ClipCell | programs/riad_clean.py:105 | `clip` keeps a missing cell missing and puts a present one in its bounds, unchanged when already inside |
| Tables.LastIndexOf | programs/riad_clean.py:41 | the previous row of the same group is the last earlier row with that key, and there is none exactly when no earlier row has it |
| Tables.LastPresent | programs/clean/working_panel_merge.py:73 | the forward-filled value of a group is its last present value so far, later group values being missing; it is missing when the group has no value yet |
| Tables.RunningSumStep | programs/clean/working_panel_merge.py:156 | the per-group cumulative sum with missing changes as 0 is the sum at the group's previous row plus the row's own change |
| Tables.RunningSumSkips | programs/clean/working_panel_merge.py:156 | rows of other groups leave a group's cumulative sum unchanged |
| Tables.SumSqBelowSquare | programs/bank_sophistication_index_map.py:58-63 | for nonnegative terms the sum of squares is at most the square of the sum |
| Tables.CauchySchwarz | programs/bank_sophistication_index_map.py:58-63 | the square of a sum of n terms is at most n times their sum of squares |
| Tables.SpreadExpanded | programs/bank_sophistication_index_map.py:58-63 | the squared distance of n values from x expands to sum of squares, minus 2x times the sum, plus n x² |
| Sorting.LexTotal | programs/riad_clean.py:12 | any two multi-column sort keys are ordered one way or the other |
| Sorting.LexTransitive | programs/riad_clean.py:12 | the multi-column order is transitive |
| Sorting.LexAntisymmetric | programs/riad_clean.py:12 | two keys ordered both ways are equal |
| Sorting.Insert | programs/riad_clean.py:12 | inserting a row adds exactly that row to the multiset of rows |
| Sorting.InsertSorted | programs/riad_clean.py:12 | inserting a row into a sorted table keeps it sorted |
| Sorting.SortBy | programs/riad_clean.py:16 | `sort_values` returns a permutation of the rows in ascending key order |
| Sorting.UniqueKeysPermutation | programs/riad_clean.py:38 | reordering the rows keeps their keys unique |
| Sorting.FilterSorted | programs/riad_clean.py:46 | a mask applied to a sorted table leaves it sorted |
| Dedup.KeepLatest | programs/clean/control.py:6-8 | after sorting by key and submission date and keeping the last row: keys are unique; every kept row is an input row; every input row has a kept row of its key submitted no earlier; a key with an unparsed submission date keeps an unparsed one |
| Dedup.SubmittedNoLaterTransitive | programs/riad_clean.py:11-12 | the submission order, with unparsed dates last, is transitive |
| Dedup.DropDuplicatesSpec | programs/rcon.py:4-5 | `drop_duplicates` leaves unique keys, only input rows, every input key and no more rows than the input |
| Dedup.DropDuplicatesKeepsFirst | programs/bank_sophistication_index_map.py:83-87 | with `keep='first'` every remaining row is the first row of its key |
| Dedup.LatestOfPermutation | programs/riad_clean.py:11-12 | re-sorting the de-duplicated rows keeps them one latest row per key, each an input row |
| Joins.Matches | programs/rcon.py:8 | the right rows a left row matches are, in the right table's order, exactly the rows at the positions holding its key, and none exactly when no right row has the key |
| Joins.JoinRow | programs/rcon.py:8 | a left merge emits the left row once per matching right row, paired with those rows in the right table's order, or once with no match when none has the key |
| Joins.Lookup | programs/clean/control.py:23 | with unique right keys the merged values are those of the right row of the key, missing exactly when there is none |
| Joins.MatchesOfUniqueKeys | programs/clean/control.py:23 | a left row matches at most one row of a table with unique keys |
| Joins.LeftJoinUnique | programs/clean/control.py:23-24 | merging onto a table with unique keys keeps the left row count and order and pairs each row with its match |
| Joins.LeftJoinKeepsEveryLeftRow | programs/rcon.py:8 | whatever the right table holds, a left merge keeps every left row and never fewer rows |
| Joins.LeftJoinRowsFromLeft | programs/rcon.py:8 | every merged row carries one of the left rows |
| Joins.LeftJoinRepeatsPerKey | programs/clean/control.py:77-81 | left rows that share a key receive the same right-hand values |
| Joins.LookupOwnKey | programs/clean/control.py:23 | in a table with unique keys, looking up a row's own key finds that row |
| Joins.LookupPositional | programs/clean/control.py:23-24 | two tables whose keys agree row by row find a key at the same position, or both miss it |
| Rcon.ExactDuplicatesRemoved | programs/rcon.py:4-5 | no two remaining rows are identical, and a row remains exactly when it was in the extract |
| Rcon.MergeItems | programs/rcon.py:8 | each merged row keeps its rcon1 keys and date, one row per pair; its items are rcon2's where the matched rcon2 row has the item and rcon1's otherwise |
| Rcon.MergeKeepsEveryFiling | programs/rcon.py:8 | the merge keeps every rcon1 key, invents none, and loses no de-duplicated rcon1 row |
| Rcon.MergeKeepsCountForUniqueKeys | programs/rcon.py:8 | when rcon2 has one row per key the merge keeps rcon1's row count, order and keys |
| Rcon.RepeatedKeyDuplicatesRows | programs/rcon.py:4-8 | exact-row de-duplication does not make rcon2's keys unique: two differing rcon2 rows of one key turn one rcon1 row into two |
| Rcon.ItemTotal | programs/rcon.py:10 | a written-out sum of columns is missing exactly when one of them is missing |
| Rcon.ItemTotalInsert | programs/rcon.py:10 | one more column in a chain of additions adds its value to the total |
| Rcon.RaiseItem | programs/rcon.py:10 | raising one column by d raises the total by d times the number of times the column is listed |
| Rcon.SmallBizLoan | programs/rcon.py:10 | the small-business loan total is present exactly when all sixteen items are |
| Rcon.SmallBizLoanCountsEachItemOnce | programs/rcon.py:10 | raising any one of the sixteen items by d raises the total by exactly d |
| Rcon.SmallBizLoanAsWrittenCountsTwice | programs/rcon.py:10 | in the sum as written, raising rcon5573 by d raises the total by 2d |
| Rcon.RepeatedItemListedTwice | programs/rcon.py:10 | rcon5573 occurs twice among the seventeen terms as written |
| Rcon.SmallBizLoanAsWrittenAddsDuplicate | programs/rcon.py:10 | the as-written sum is the corrected total plus rcon5573 once more, missing exactly when the corrected one is |
| Rcon.SmallBizDroppedItems | programs/rcon.py:11 | the drop removes exactly the sixteen items and neither fed funds item |
| Rcon.DropColumns | programs/rcon.py:11 | dropped columns become absent, every other column is unchanged |
| Rcon.WithSmallBizLoan | programs/rcon.py:10-11 | corrected (each item counted once): the total replaces its sixteen items and every other column is unchanged |
| Rcon.WithNetFedFunds | programs/rcon.py:13-14 | net fed funds bought is bought minus sold, both components are gone, and every other column is unchanged |
| Rcon.DerivedNamesApart | programs/rcon.py:10-14 | the two new columns, the fed funds items and the loan items are all different columns |
| Rcon.Derive | programs/rcon.py:10-14 | corrected (each small-business item counted once): both totals are added, none of their components remain, every other column is unchanged |
| Rcon.NetFedFundsRoundTrip | programs/rcon.py:13 | net fed funds plus the amount sold gives back the amount bought |
| Rcon.CleanRcon | programs/rcon.py:4-14 | corrected (each small-business item counted once): row j of the output is row j of the left merge of the de-duplicated extracts, its items those of the rcon1 row with the matched rcon2 row's taken over them, then derived |
| Rcon.MergedRows | programs/rcon.py:8 | each merged row's items are the rcon1 items with the matched rcon2 items taken over them |
| CallReport.MergeControl | programs/clean/control.py:23 | a merged control row is the left row, keeping at least its own items, with the matched right row's items taken over the left's where both have one |
| CallReport.MergedControlKeys | programs/clean/control.py:23 | merging a de-duplicated extract keeps the left rows, in order, with their keys, and gives row i the items of the right row of its key over its own |
| CallReport.ControlKeysCovered | programs/clean/deposit_interest_rate.py:40-54 | a table built row by row from the latest rcon1 filings has exactly rcon1's (bank, date) keys |
| CallReport.AssignColumn | programs/riad_clean.py:20 | assigning a column sets it on every row and changes no key and no other column |
| CallReport.QuarterlyCases | programs/riad_clean.py:19-20 | the first row of a (bank, rssd9050, year) run keeps its YTD figure; a later row is its figure minus the previous row's when both are present, and keeps its own figure otherwise |
| CallReport.QuarterlySumsToYtd | programs/riad_clean.py:19-20 | telescoping: a fully reported run's quarterly flows add up to its last YTD figure so far |
| CallReport.CumulatedQuartersRecoverYtd | programs/riad_clean.py:19-20 | cumulating a run's quarterly flows up to a row gives back that row's YTD figure |
| CallReport.SortedRunLag | programs/riad_clean.py:16-19 | after the sort by (rssd9001, rssd9050, rssd9999) a quarter's run predecessor is the row just above when it is of the same run |
| CallReport.ConvertYtd | programs/riad_clean.py:17-20 | the loop over `ytd_cols` replaces each of the four YTD columns by its quarterly flows and leaves keys and other columns alone |
| CallReport.YtdColumnsDistinct | programs/riad_clean.py:17 | the four YTD columns are different columns |
| CallReport.InterestOnDepositIsItemSum | programs/riad_clean.py:23 | interest on deposits is present exactly when the four items are, and is their sum |
| CallReport.TwoPointAverage | programs/riad_clean.py:41 | the average balance is missing on a bank's first row or on a missing balance, and otherwise lies between this and the previous balance |
| CallReport.TwoPointAverageSum | programs/riad_clean.py:41 | twice the average is this balance plus the bank's previous one |
| CallReport.AnnualisedRate | programs/riad_clean.py:48 | the rate is present exactly when interest and a nonzero average are, and then rate times average is four times the interest |
| CallReport.RelativeChange | programs/riad_clean.py:58-61 | the relative change is present exactly when this value and a nonzero previous value are, and then takes the previous value to this one |
| CallReport.SortedBankLag | programs/riad_clean.py:38 | after the sort for the lags a bank's previous row is the row just above when it is of the same bank |
| CallReport.SortedShift | programs/riad_clean.py:41 | in the sorted table every per-bank `shift(1)` reads the row above |
| CallReport.DerivedColumnsDetermined | programs/riad_clean.py:41-61 | average, rate, difference and relative change each determine a single value from their inputs |
| CallReport.WithAverage | programs/riad_clean.py:41 | the average column holds the two-point average against the row above and nothing else changes |
| CallReport.WithRate | programs/riad_clean.py:48 | the rate column holds interest over average times four and nothing else changes |
| CallReport.WithDiff | programs/riad_clean.py:52 | the change column holds the difference from the bank's previous row and nothing else changes |
| CallReport.RelativeChangeColumnMeaning | programs/riad_clean.py:58-61 | every cell of the relative-change column is the zero-guarded relative change against the bank's previous row |
| CallReport.WithRelativeChange | programs/riad_clean.py:54-61 | the relative-change column holds the zero-guarded growth against the row above and nothing else changes |
| CallReport.AddAverages | programs/riad_clean.py:41-44 | both average balances are set on every row and nothing else changes |
| CallReport.AddRates | programs/riad_clean.py:48-49 | both annualised rates are set on every row and nothing else changes |
| CallReport.AddRateChanges | programs/riad_clean.py:52-53 | both rate changes are set on every row and nothing else changes |
| CallReport.AddBalanceChanges | programs/riad_clean.py:54-67 | both relative balance changes are set under their renamed columns and nothing else changes |
| CallReport.AveragesKept | programs/riad_clean.py:41-67 | later steps that do not touch the averages or balances keep the averages valid |
| CallReport.RatesKept | programs/riad_clean.py:48-67 | later steps that do not touch rates, interest or averages keep the rates valid |
| CallReport.RateChangesKept | programs/riad_clean.py:52-67 | later steps that do not touch the rates or their changes keep the changes valid |
| CallReport.BalanceChangesKept | programs/riad_clean.py:54-67 | later steps that do not touch the balances or their changes keep the changes valid |
| CallReport.MergeItems | programs/riad_clean.py:35 | a merged riad row keeps its keys and submission date; its items are the matched rcon row's where it has the item and the riad row's otherwise |
| CallReport.RowsFromKept | programs/riad_clean.py:13-38 | every row of the sorted merged panel comes from a riad filing |
| CallReport.LatestReachesOutput | programs/riad_clean.py:12-38 | every riad filing is matched in the panel by a row of its key submitted no earlier |
| CallReport.SameRowsKeepOrigin | programs/riad_clean.py:41-67 | rewriting line items keeps each row's origin, its latest submission and unique keys |
| CallReport.MergedFilings | programs/riad_clean.py:10-38 | the panel holds, in lag order, the rows of `merged`: row k of `merged` is the k-th latest riad filing with its quarterly flows and interest, with the items of the latest rcon filing of its key taken over; one row per riad key, each from a riad filing submitted no earlier than any of its key |
| CallReport.Restrict | programs/riad_clean.py:74-78 | column selection keeps the row's keys and only the named columns, with their values |
| CallReport.Select | programs/riad_clean.py:74-78 | column selection keeps every row and its keys, and only the named columns |
| DepositInterestRate.WithCoreDeposit | programs/clean/deposit_interest_rate.py:55-61 | every row keeps its keys and other columns and carries core_deposit, the sum of its own five items |
| DepositInterestRate.CoreDepositTable | programs/clean/deposit_interest_rate.py:40-61 | rcon_ctrl has one row per rcon1 (bank, date) and no other; row i is the latest rcon1 filing with its latest rcon2 filing's items taken over and core_deposit the five items summed over that merged row |
| DepositInterestRate.CoreDepositRows | programs/clean/deposit_interest_rate.py:40-61 | the merged-then-summed table is rcon_ctrl: row i carries the core deposit of its key, computed from the latest rcon1 and rcon2 filings |
| DepositInterestRate.AttachCoreDeposit | programs/clean/deposit_interest_rate.py:64-68 | only core_deposit comes across the merge, the matched row's; an unmatched row gets none and every other column stays |
| DepositInterestRate.AttachControl | programs/clean/deposit_interest_rate.py:39-68 | the merge keeps the row count, order and every other column; row i gets the core deposit of its (bank, date) computed from the latest rcon1 and rcon2 filings, none when rcon1 lacks that quarter |
| DepositInterestRate.AttachedCoreDeposits | programs/clean/deposit_interest_rate.py:64-68 | after the merge each panel row is unchanged but for core_deposit, which is the core deposit of its bank-quarter |
| DepositInterestRate.CoreDepositOutsideRcon1 | programs/clean/deposit_interest_rate.py:64-68 | a bank-quarter rcon1 never filed has no core deposit |
| DepositInterestRate.AddRateColumns | programs/clean/deposit_interest_rate.py:70-98 | every derived column means what its name says against the bank's previous row, and nothing else changes |
| DepositInterestRate.Published | programs/clean/deposit_interest_rate.py:100-104 | the selected columns keep the change, relative-change and nonzero-average facts |
| DepositInterestRate.DepositInterestRates | programs/clean/deposit_interest_rate.py:10-104 | row i written is row i of the merged riad panel with only the published columns: core_deposit of its bank-quarter, both two-point averages, both annualised rates and both balance growths against the bank's previous row; one row per riad key, in lag order, each from a latest submission |
| RiadClean.Screen | programs/riad_clean.py:40-67 | the screened rows are, up to the added columns, exactly the averaged rows with a positive interest-bearing average, in order; each carries valid rates and changes against the previous surviving row; order and unique keys are kept |
| RiadClean.ScreenedPositive | programs/riad_clean.py:46 | the positive-average filter's guarantee survives the later column assignments |
| RiadClean.FromFilingTransitive | programs/riad_clean.py:35-46 | a row taken from a row taken from a filing comes from that filing |
| RiadClean.WrittenOrdered | programs/riad_clean.py:69-78 | the dropna and the column selection keep the lag order and unique keys |
| RiadClean.WrittenKept | programs/riad_clean.py:69-78 | every screened row with all four changes is written, cut to the output columns |
| RiadClean.WrittenPassing | programs/riad_clean.py:69-78 | a written row has all four changes and a positive interest-bearing average, and only the output columns |
| RiadClean.RiadClean | programs/riad_clean.py:10-79 | the screened rows come from the merged panel as Screen states; row j written is the j-th screened row with all four changes, cut to the output columns; so every complete row is written, one per key, in order, each with a positive interest-bearing average |
| RiadClean.ImpliedInterestRecoversInterest | programs/riad_clean.py:48-83 | rate times average deposit over four gives back interest_on_deposit whenever the average is nonzero |
| RiadClean.ClipRow | programs/riad_clean.py:105 | one row's column is clipped into its bounds and nothing else changes |
| RiadClean.ClipColumn | programs/riad_clean.py:103-105 | each row is clipped with the bounds of its own report date |
| RiadClean.ClipPerDate | programs/riad_clean.py:100-105 | both rate columns lie within their date's bounds, values inside are unchanged, every other column is kept |
| Control.Ratios | programs/clean/control.py:26-29 | ROA, core-deposit share, wholesale share and asset-to-equity are the stated item ratios, missing on a missing term or zero divisor |
| Control.MergeBothPositional | programs/clean/control.py:23-24 | row i of the twice-merged table is row i of the de-duplicated rcon1 with the rcon2 items of its key, then the riad items of its key, taken over its own |
| Control.MergedFromKept | programs/clean/control.py:23-24 | the two merges give row i = the i-th latest rcon1 filing with its rcon2 and riad items; one row per rcon1 key, each an rcon1 row extended, every rcon1 filing matched by a row submitted no earlier |
| Control.BankQuarterControls | programs/clean/control.py:4-32 | row i of the merged table is the i-th latest rcon1 filing with the latest rcon2 and riad items of its key added; one row per rcon1 (bank, date); row i of the ratio table holds that row's ratios |
| Control.Zeros | programs/clean/control.py:41 | n zero characters |
| Control.ZFill | programs/clean/control.py:41 | a code is left-padded with '0' to five characters and never shortened |
| Control.ZFillIdempotent | programs/clean/control.py:41-47 | a code already five characters wide is unchanged, and padding twice pads once |
| Control.MetroObs | programs/clean/control.py:43-51 | each branch weighs its METROBR by DEPSUMBR over DEPDOM in its (YEAR, RSSDID) group |
| Control.IncomeObs | programs/clean/control.py:60-62 | each branch weighs its county's median income, missing when no county matches |
| Control.OuterKeys | programs/clean/control.py:71 | the outer-merge keys are distinct and are exactly the keys of either side |
| Control.Exposures | programs/clean/control.py:71 | one row per (YEAR, RSSDID) with a counted value on either side, each with both weighted means, missing on the side that lacks it |
| Control.ExposuresKeyed | programs/clean/control.py:71 | the exposure rows have unique keys covering both aggregates |
| Control.ExposuresMeans | programs/clean/control.py:71 | each exposure row carries the weighted means of its key |
| Control.LatestExists | programs/clean/control.py:72-73 | every bank has a row with its greatest YEAR |
| Control.LatestExposures | programs/clean/control.py:72-73 | one row per bank, the one with the bank's greatest YEAR, for every bank |
| Control.BankExposures | programs/clean/control.py:36-73 | one row per bank with a counted branch, each the weighted-exposure row of that bank's greatest YEAR, and no such bank left out |
| Control.AttachExposures | programs/clean/control.py:77-81 | every bank-quarter keeps its row in order and gets the metro and income exposures of its bank's row of the latest exposures, or none when the bank has no row; the same over all the bank's quarters |
| Control.AttachedRows | programs/clean/control.py:77-81 | the rows of the left merge onto the latest exposures carry their bank's exposures and keep the left rows |
| Control.OutputKeys | programs/clean/control.py:77-81 | the controls keep one row per rcon1 (bank, date), and every rcon1 (bank, date) has its row |
| Control.OutputKeysFromRcon1 | programs/clean/control.py:77-81 | every controls row has the (bank, date) of an rcon1 filing |
| Control.OutputKeysCover | programs/clean/control.py:77-81 | every rcon1 (bank, date) has a controls row |
| Control.ControlsTable | programs/clean/control.py:4-81 | row i is the ratios of the i-th merged row (the latest rcon1 filing with rcon2 and riad items) with its bank's latest exposures or none; one row per rcon1 (bank, date), every one present, exposures repeated over each bank's quarters |
| Weighted.WeightedMean | programs/clean/control.py:52-56 | the weighted mean is present exactly when the weights sum to something positive, and then times that sum gives sum_wy |
| Weighted.DeviationIsOffset | programs/clean/control.py:52-56 | the weighted deviation from c is sum_wy minus c times sum_w |
| Weighted.SumWNonNegative | programs/clean/control.py:54 | nonnegative weights sum to something nonnegative |
| Weighted.SumsBracketed | programs/clean/control.py:52-56 | with nonnegative weights and values in [lo, hi], sum_wy lies between lo and hi times sum_w |
| Weighted.WeightedMeanWithin | programs/clean/control.py:56 | with nonnegative weights the weighted mean lies between the smallest and the largest value it averages |
| Weighted.CountedGroups | programs/clean/control.py:50-54 | the groups are distinct, each has a counted observation, and every counted observation's group is one |
| Weighted.UncountedGroupHasNoMean | programs/clean/control.py:50-56 | a group without a counted observation has zero weight and no mean |
| Weighted.WeightedMeans | programs/clean/control.py:52-57 | one row per counted group, with its weighted mean |
| Sophistication.PrepareBranches | programs/bank_sophistication_index_map.py:12-24 | every output row is a padded, weighted branch row; with one index row per fips the rows stay one-to-one and each gets its county's index |
| Sophistication.WeightsSumToDepositShare | programs/bank_sophistication_index_map.py:18-20 | with one nonzero DEPDOM per bank, the bank's weights sum to its branch deposits over DEPDOM |
| Sophistication.WeightsShareStep | programs/bank_sophistication_index_map.py:18-20 | one more branch keeps the weight total equal to the deposits over DEPDOM |
| Sophistication.WeightsSumToOne | programs/bank_sophistication_index_map.py:18-20 | the weights sum to 1 when DEPDOM is the bank's total branch deposits |
| Sophistication.SophisticationObs | programs/bank_sophistication_index_map.py:28-29 | each branch weighs its county's index in its (YEAR, CERT) group |
| Sophistication.SophisticationWithin | programs/bank_sophistication_index_map.py:28-39 | with nonnegative weights the bank's index lies within the range of its branches' county indices |
| Sophistication.Groups | programs/bank_sophistication_index_map.py:44-48 | the (YEAR, fips, CERT) groups are distinct and are exactly those of the branches |
| Sophistication.CountyBanks | programs/bank_sophistication_index_map.py:44-48 | the banks of a county-year are distinct, all in it, and include every bank with a branch there |
| Sophistication.DepositsExchange | programs/bank_sophistication_index_map.py:44-54 | summing the bank-by-county deposits of a county's banks gives the county total |
| Sophistication.SharesAreFractions | programs/bank_sophistication_index_map.py:56-57 | with a nonzero county total every share is present and is the bank's deposits over the total |
| Sophistication.SharesSumToOne | programs/bank_sophistication_index_map.py:56-63 | the shares of a county-year with nonzero total deposits sum to 1 |
| Sophistication.FractionSquares | programs/bank_sophistication_index_map.py:58-63 | nonnegative fractions summing to 1 have a sum of squares in [1/n, 1] |
| Sophistication.HhiBounds | programs/bank_sophistication_index_map.py:58-63 | with nonnegative deposits and a positive total the county HHI lies in [1/n, 1] for its n banks |
| Sophistication.HhiSingleBank | programs/bank_sophistication_index_map.py:58-63 | a county-year served by a single bank has an HHI of 1 |
| Sophistication.HhiUnitInterval | programs/bank_sophistication_index_map.py:58-63 | with nonnegative deposits every county HHI lies in [0, 1] |
| Sophistication.HhiObs | programs/bank_sophistication_index_map.py:66-72 | one observation per (YEAR, CERT, fips) group, weighted by the bank's weight there, valued at the county HHI |
| Sophistication.BankHhiWithin | programs/bank_sophistication_index_map.py:66-79 | with nonnegative weights the bank's HHI exposure lies within the range of its counties' HHIs |
| Sophistication.BankHhiUnitInterval | programs/bank_sophistication_index_map.py:66-79 | with nonnegative weights and deposits the HHI exposure lies in [0, 1] |
| Sophistication.MergedMean | programs/bank_sophistication_index_map.py:88-92 | merging the aggregated table gives each bank its weighted mean |
| Sophistication.MeansKeyed | programs/bank_sophistication_index_map.py:88-92 | the aggregated table has one row per (YEAR, CERT) |
| Sophistication.MeanMissing | programs/bank_sophistication_index_map.py:88-92 | a bank missing from the aggregated table has no weighted mean |
| Sophistication.FirstPerBank | programs/bank_sophistication_index_map.py:83-87 | one row per (YEAR, CERT), the first of its bank in sort order, for every bank |
| Sophistication.WithAggregates | programs/bank_sophistication_index_map.py:88-97 | a bank row keeps the branch row's identifiers and gains the bank's index and HHI exposure |
| Sophistication.BankTable | programs/bank_sophistication_index_map.py:81-97 | one row per (YEAR, CERT), every bank present, each carrying its first row and its two aggregates |
| SummaryStatistics.Q1Rows | programs/analysis/summary_statistics.py:9-10 | the quarter's rows are exactly those whose Date text equals "2022-03-31" |
| SummaryStatistics.BanksAtMostBankQuarters | programs/analysis/summary_statistics.py:13-14 | there are no more banks than bank-quarters, and at least one bank when there is a row |
| SummaryStatistics.DistinctNoLonger | programs/analysis/summary_statistics.py:14 | a column has no more distinct values than rows |
| SummaryStatistics.TopK | programs/analysis/summary_statistics.py:23 | top_k is at least 1 and is the smallest count reaching a tenth of the rows |
| SummaryStatistics.InsertDescending | programs/analysis/summary_statistics.py:24 | inserting into a descending sequence keeps it descending and adds exactly that value |
| SummaryStatistics.SortDescending | programs/analysis/summary_statistics.py:24 | sorting largest first gives a descending permutation of the values |
| SummaryStatistics.SumOfSorted | programs/analysis/summary_statistics.py:24-25 | sorting does not change the sum |
| SummaryStatistics.Head | programs/analysis/summary_statistics.py:24 | `head(k)` is the first min(k, n) values |
| SummaryStatistics.TopValues | programs/analysis/summary_statistics.py:24 | the k values taken are none below any value left out |
| SummaryStatistics.TopSumBounds | programs/analysis/summary_statistics.py:24-25 | the largest k nonnegative values sum to at most the total, and to the total when k takes them all |
| SummaryStatistics.TopDecileShare | programs/analysis/summary_statistics.py:22-28 | the share is present exactly when there is a Q1 row and the assets sum to something positive |
| SummaryStatistics.TopDecileShareIsFraction | programs/analysis/summary_statistics.py:22-28 | with nonnegative assets the share lies in [0, 1], and is 1 when the top decile takes every bank with a reported ASSET |
| SummaryStatistics.CountTrueIsSize | programs/analysis/summary_statistics.py:31-33 | a boolean sum counts the positions whose comparison is true |
| SummaryStatistics.CountTrueOfMember | programs/analysis/summary_statistics.py:31-33 | a value passing the comparison is counted |
| SummaryStatistics.ThresholdSplit | programs/analysis/summary_statistics.py:31-33 | every asset is counted exactly once as above, below or at the threshold |
| SummaryStatistics.AboveBelowCounts | programs/analysis/summary_statistics.py:31-33 | the two counts add up to at most the reported assets, and fall short when an asset equals one million |
| SummaryStatistics.ThresholdCounts | programs/analysis/summary_statistics.py:31-33 | the number above (below) one million is the number of assets over (under) it |
| SummaryStatistics.SummaryRows | programs/analysis/summary_statistics.py:65-78 | the loop emits the rows of the variables whose column exists and has a value, in dictionary order |
| SummaryStatistics.EmittedRowsFromVariables | programs/analysis/summary_statistics.py:65-78 | every emitted row belongs to a listed variable with a nonempty sample, and there are no more rows than variables |
| SummaryStatistics.EmittedRowsComplete | programs/analysis/summary_statistics.py:118-131 | every variable whose column exists and has a value gets its row |
| SummaryStatistics.RowForPresentValue | programs/analysis/summary_statistics.py:66-68 | a variable gets a row exactly when some Q1 row has a value in its column |
| SummaryStatistics.Summarise | programs/analysis/summary_statistics.py:9-131 | the bank-quarters are the Q1 rows; the banks are the distinct Q1 bank ids, no more than the bank-quarters; above and below count the Q1 assets over and under one million; the share and both tables are as the lemmas above state them |
| WorkingPanel.Codes | programs/clean/working_panel_merge.py:87 | a text's character codes, one per character |
| WorkingPanel.DigitsOrder | programs/clean/working_panel_merge.py:87 | fixed-width zero-padded numbers compare as text as they compare as numbers |
| WorkingPanel.IsoTextOrder | programs/clean/working_panel_merge.py:87 | ISO date texts compare as text in calendar order |
| WorkingPanel.WindowAsWrittenAdmitsDecember | programs/clean/working_panel_merge.py:31 | "2023-12-31", after 30 September 2023, passes the window as written |
| WorkingPanel.InWindowIsCalendarInterval | programs/clean/working_panel_merge.py:87 | the corrected window admits exactly the dates from 1 January 2022 to 30 September 2023 |
| WorkingPanel.FillColumn | programs/clean/working_panel_merge.py:65 | `fillna(0)` makes a missing cell 0, keeps present values and every other column |
| WorkingPanel.FillStep | programs/clean/working_panel_merge.py:65-69 | one more `fillna(0)` extends the fill to one more column |
| WorkingPanel.FillDeltas | programs/clean/working_panel_merge.py:65-69 | none of the five loan changes is missing, present values are kept, other cells untouched |
| WorkingPanel.LastPresentIsLatest | programs/clean/working_panel_merge.py:73 | the forward-filled flag is 1 exactly when the bank's latest present flag so far is 1 |
| WorkingPanel.FlagAsOfValue | programs/clean/working_panel_merge.py:74 | the as-of flag is 0 or 1, and 1 exactly when the latest present flag is 1 |
| WorkingPanel.WithFlagAsOf | programs/clean/working_panel_merge.py:72-75 | every row gets the as-of flag, the raw flag is dropped, nothing else changes |
| WorkingPanel.CommercialFlag | programs/clean/working_panel_merge.py:82 | 1 exactly for BKCLASS N, NM or SM, 0 otherwise, a missing class included |
| WorkingPanel.BaseColumn | programs/clean/working_panel_merge.py:96 | corrected window: `df.loc[base_mask, c]`, the column's cell inside the base sample, missing outside |
| WorkingPanel.InSample | programs/clean/working_panel_merge.py:131 | corrected window: the in-sample series is, in row order and once each, exactly the present cells of base-sample rows, and is empty exactly when no base-sample row has a value |
| WorkingPanel.SampleUnchanged | programs/clean/working_panel_merge.py:129-136 | tables that agree on the mask inputs and the column have the same in-sample series |
| WorkingPanel.Screen | programs/clean/working_panel_merge.py:146-147 | corrected window: the j-th surviving row is the row at the j-th position passing every mask, and every row passing them survives |
| WorkingPanel.SurvivesExtends | programs/clean/working_panel_merge.py:146 | the masks read none of the columns added afterwards |
| WorkingPanel.ClipColumn | programs/clean/working_panel_merge.py:136 | every row's cell, not only the sample's, is clipped and nothing else changes |
| WorkingPanel.ClipStepMeets | programs/clean/working_panel_merge.py:129-136 | one pass clips column c with its own sample's bounds, or leaves it when the sample is empty |
| WorkingPanel.WinsorStep | programs/clean/working_panel_merge.py:129-136 | the loop body keeps the loop's invariant |
| WorkingPanel.Winsorize | programs/clean/working_panel_merge.py:129-136 | each growth column is clipped on every row into the bounds of its base sample taken from the starting table; other columns are kept |
| WorkingPanel.EarliestDate | programs/clean/working_panel_merge.py:151 | the earliest Date is one of the Dates and no later than any |
| WorkingPanel.BankEarliestMeaning | programs/clean/working_panel_merge.py:151-152 | a bank's earliest Date is the panel's exactly when the bank has a row on it |
| WorkingPanel.FirstQuarterFlag | programs/clean/working_panel_merge.py:152 | the flag is 1 exactly for a bank with a row on the panel's earliest Date |
| WorkingPanel.WithFirstQuarter | programs/clean/working_panel_merge.py:151-152 | every row gets in_first_quarter and nothing else changes |
| WorkingPanel.RunningSumCells | programs/clean/working_panel_merge.py:156-165 | a row gets its four running sums and nothing else changes |
| WorkingPanel.WithRunningSums | programs/clean/working_panel_merge.py:156-165 | the four cum_d_* columns hold the per-bank running sums for flagged banks and are missing otherwise |
| WorkingPanel.LargeBankFlag | programs/clean/working_panel_merge.py:172 | 1 exactly when ASSET is present and above ten million |
| WorkingPanel.WithLargeBank | programs/clean/working_panel_merge.py:172 | every row gets large_bank and nothing else changes |
| WorkingPanel.BoundsBeforeClipping | programs/clean/working_panel_merge.py:96-136 | the rate bounds, taken before the clipping, are those of the clipped table |
| WorkingPanel.Prepare | programs/clean/working_panel_merge.py:59-136 | corrected window: `filled` is the zero fill of the merged panel, `sorted` its rows in (Bank ID, Date) order, `flagged` those with the flag carried forward, `prepared` `flagged` winsorized; the bounds are `flagged`'s and the clipping keeps them; no loan change is missing |
| WorkingPanel.AddedColumnsMeaning | programs/clean/working_panel_merge.py:151-172 | on the final table the first-quarter flag, the running sums and the large-bank flag mean what their names say |
| WorkingPanel.AddColumns | programs/clean/working_panel_merge.py:151-172 | the screened rows, in order, with only the added columns set as their names say |
| WorkingPanel.BuildPanel | programs/clean/working_panel_merge.py:59-172 | corrected window: the intermediate tables of Prepare; row i written is the i-th prepared row passing every mask, extended by the added columns, in (Bank ID, Date) order, with the first-quarter flag, running sums and large-bank flag meaning what their names say |

## Left out

- CSV reads and writes, file paths, `print` diagnostics, the matplotlib
  figure of `riad_clean.py` (lines 81-132) and the Markdown table files of
  `summary_statistics.py`. These are I/O. The tables they read are
  parameters.
- Date parsing with `errors='coerce'` and `.dt.normalize()`. Report dates
  are taken as parsed, and an unparsed submission date is `None`.
- Quantiles. Every 0.5% and 99.5% cut-off is a parameter: a `quantile`
  function in `WorkingPanel.Winsorize`, per-date bounds in
  `RiadClean.ClipPerDate`. Pandas computes them by floating-point
  interpolation.
- `describe()` statistics (mean, std, quartiles), the mean and median of
  ASSET, `np.log`, the z-score standardisation of `control.py` (lines
  83-85), `log_asset`, and `.round(3)`. These are floating-point and
  transcendental operations. `SummaryStatistics.SummaryRows` states which
  rows are emitted, not their numbers.
- IEEE arithmetic: amounts are exact reals. A division by zero is missing,
  where pandas gives infinity for a nonzero numerator.
- The merges with the bank-credit, instrument, controls and FFR tables in
  `working_panel_merge.py` (lines 44-56, 168-169). Those files are not part
  of this model. The model starts from the merged panel and claims no row
  count for those merges.
- The per-date simple and weighted averages of `riad_clean.py` (lines
  84-97, 106-107). They only feed the figure.
- Which of several rows with equal sort keys survives, and the order of
  rows with equal keys after a sort. Pandas leaves both to its sort
  implementation.
- The row order of groupby results: groups are listed in order of first
  appearance rather than sorted. Nothing proved depends on that order.
- Column renames and the suffixes pandas adds to clashing column names in
  merges. A column name is modelled directly by its final name.
- The `KeyError` that `drop` raises on a missing column.
- `Rcon.WithSmallBizLoan`, `Rcon.Derive` and `Rcon.CleanRcon`: use the
  corrected small-business total, each of the sixteen items added once.
  The script as written (programs/rcon.py:10) adds rcon5573 twice; that
  sum is `Rcon.SmallBizLoanAsWritten`, and
  `Rcon.SmallBizLoanAsWrittenAddsDuplicate` states how far it is from the
  corrected one (see Findings).
- `WorkingPanel.InBase`, `WorkingPanel.BaseColumn`, `WorkingPanel.InSample`,
  `WorkingPanel.Screen`, `WorkingPanel.Prepare` and `WorkingPanel.BuildPanel`:
  use the corrected policy window, which ends on "2023-09-30". The window
  as written (programs/clean/working_panel_merge.py:31, 87) also admits
  "2023-12-31" and every other 2023 Date; that window is
  `WorkingPanel.WindowAsWritten` (see Findings).
- `Tables.Div`: a zero divisor gives a missing value. Pandas gives plus or
  minus infinity for a nonzero numerator (and NaN for 0/0), and `dropna`
  and `isna` treat infinity as present, so a row with such a ratio that
  pandas keeps is one the model treats as missing.
- `WorkingPanel.PanelRow`: keeps BKCLASS after `is_commercial_bank` is
  derived from it, where line 83 of programs/clean/working_panel_merge.py
  drops the column. No later step reads it and it is not among the cells,
  so the written rows' cells are unaffected.
- `CallReport.QuarterlyColumn`: its own contract gives only the length;
  its meaning is stated by `CallReport.QuarterlyCases` and the telescoping
  lemmas.
- `Sophistication.CountyShares`: its own contract gives only the length;
  `Sophistication.SharesAreFractions` states the values.
- `WorkingPanel.IsoText`: states only the width of the text; its order is
  `WorkingPanel.IsoTextOrder`.
- `SummaryStatistics.Summarise`: the headline mean and median of ASSET are
  not computed (floating point).
- `WorkingPanel.BuildPanel`: groupby index alignment in the running sums
  (lines 156-165) is not modelled; the sums are the intended per-bank
  running sums in (Bank ID, Date) order.

## Findings

| source | as written | input that shows it | evidently intended | confidence | as-written member | corrected member |
|---|---|---|---|---|---|---|
| programs/clean/working_panel_merge.py:31 | `DATE_END = "2023-9-30"` with a one-digit month, compared as text with Dates written "YYYY-MM-DD" (line 87) | Date "2023-12-31": "12-31" sorts before "9-30", so the row passes the upper bound although it is after 30 September 2023; so does every 2023 Date | the window from 1 January 2022 to 30 September 2023, i.e. `DATE_END = "2023-09-30"` | not executed | WorkingPanel.WindowAsWrittenAdmitsDecember | WorkingPanel.InWindowIsCalendarInterval |
| programs/rcon.py:10 | small_biz_loan adds seventeen terms, with rcon5573 listed twice | every item equal to 1.0 gives 17.0 although there are sixteen items; raising rcon5573 by d raises the total by 2d | each of the sixteen items counted once | not executed | Rcon.SmallBizLoanAsWrittenCountsTwice | Rcon.SmallBizLoanCountsEachItemOnce |
