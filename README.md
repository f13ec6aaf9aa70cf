# License-plate recognition report: classification and aggregation

This project models the core of `generator.py`. That core is the script
that evaluates an automatic plate/region recognizer (ARH) against
hand-labelled ground truth and builds the tables of its Excel/PDF report.
The model covers:

- **Record store** (`Records`). One record per image: image name, plate
  and country/state as labelled, plate and country/state as read, and
  three confidences (text, region, combined). The sheet's sentinel markers
  are read as missing values. The row filter drops records with nothing to
  compare (`dropna(how='all')` over the four label fields).
- **Outcome taxonomy** (`Outcomes`). For each axis (text, region,
  combined), six queries: `-Total`, `Success`, `-Fail`, `GT!=NA&ARH!=NA`,
  `GT=NA&ARH!=NA` and `GT!=NA&ARH=NA`. They are evaluated with pandas'
  missing-value semantics: `x == x` is false for a missing value, and a
  missing value equals nothing.
- **Evaluation table** (`Summary`), `cdic`. Per category: the count, its
  percentage of Total, and the min/max/mean of the axis's confidence.
- **Tables by confidence level** (`Histogram`), `cdic2`. Ten buckets
  `[0-10) … [80-90)`, then `[90-100]`, each with its category counts, plus
  a Total row of column sums.
- **Cumulative tables** (`Cumulative`). The forward running sum
  (`cumsum`) and the inverse one (`[::-1].cumsum()[::-1]`), each with a
  Total row of column maxima.
- **Mutated frames** (`Frames`). A `Frame` class stands for a pandas
  DataFrame. Its methods change it in place: `insert_perc` adds the five
  "%" columns, `df['-Total'] = …` replaces a column, and
  `append_automation` adds `#Automation`, `%Automation`, `#FP`, `%FP` and
  the threshold labels.
- **Report assembly** (`Report`). `arh`, `gc`, `gc1`, `gc2` and `gc3`,
  including the three `for i in range(3)` loops that mutate the frames.
- **Worked cases** (`Scenarios`). A store of identical correct readings, a
  single reading without ground truth, two readings in two buckets carried
  through the cumulative tables, and the empty store.

Percentages are exact reals. `None` stands for pandas' NaN, the value of a
division by a zero Total and of a statistic over no records.

Points where the script's behaviour is easy to misread:

- On the combined axis, the last three categories are, in index order:
  text failed while region matched, region failed while text matched, and
  both failed. The rows keep the labels `GT!=NA&ARH!=NA`, `GT=NA&ARH!=NA` and
  `GT!=NA&ARH=NA`. The three are pairwise exclusive (`Outcomes.FailIsUnion`).
- `append_automation` is called without `n` for all three axes (line 250).
  So `#FP` is `GT!=NA&ARH!=NA + GT=NA&ARH!=NA` on every axis, never `-Fail`.
- `calc_sum` counts records with an image name (`['img'].count()`), while
  `calc_prc` counts all records (`.size`).
- Only `gc1` gets "%" columns; the cumulative tables get none.
- The `-Total` column of `gc2` is replaced by that of `gc1`, which is the
  per-bucket Total and not the running one (line 243). Its Total row does
  not change, because the maximum of a running sum is the full sum
  (`Report.OverwriteFactsOn`).
- In the single-reading case without ground truth, `-Fail` is 1 as well,
  since Fail is the union of the last three categories
  (`Scenarios.UnrecordedPlate`).
- `calc_prc` raises `ZeroDivisionError` when an axis's Total is 0 (see
  Findings). The rest of the model uses a corrected version that leaves
  those percentages undefined.

## Model

| member | source | states |
|---|---|---|
| Records.DropEmpty | generator.py:28 | every record that stays has a label field present; every record with one stays, as often as it occurs in the input; the others are removed |
| Records.Kept | generator.py:28 | the row filter's condition: some label field is present; `Outcomes.KeptIffSomeTotal` relates it to the queries |
| Summary.NamedExactly | generator.py:94 | `['img'].count()` counts exactly the records with an image name, each as often as it occurs |
| Outcomes.SuccessNeedsBoth | generator.py:56-83 | a Success needs both sides present and equal; two missing values are never a Success, on any axis that reads them |
| Outcomes.ExactlyOne | generator.py:56-83 | a record in Total is in exactly one of Success and the three mismatch categories; a record outside Total is in none |
| Outcomes.FailIsUnion | generator.py:56-83 | Fail holds iff one of the three mismatch categories holds, and these three are pairwise exclusive, on every axis |
| Outcomes.WithinTotal | generator.py:56-83 | every category's query selects only records that the Total query selects |
| Outcomes.CombinedIsConjunction | generator.py:72-74 | the combined Total and Success hold iff the text and region ones both hold |
| Outcomes.KeptIffSomeTotal | generator.py:28 | the row filter keeps a record iff it is in the text Total or in the region Total |
| Outcomes.PairHolds | generator.py:58-70 | the six queries of the text and region axes with missing-value semantics; their partition is stated by `Outcomes.ExactlyOne` and `Outcomes.FailIsUnion` |
| Outcomes.CombinedHolds | generator.py:72-81 | the six queries of the combined axis; `Outcomes.CombinedIsConjunction` relates Total and Success to the other axes |
| Outcomes.Holds | generator.py:56-81 | query c of axis n (`ql[n][c]`); its properties are the Outcomes lemmas above |
| Outcomes.Confidence | generator.py:105 | the confidence field axis n reads (`confi[n]`): conf1, conf2, conf3 |
| Summary.Size | generator.py:99-100 | the size of a query is at most the number of records |
| Summary.SizePartition | generator.py:90-100 | over any records, the Total count is Success plus the three mismatch counts, and Fail is the three mismatch counts |
| Summary.SizeWithinTotal | generator.py:90-100 | no category count exceeds the Total count |
| Summary.Named | generator.py:94 | the records `['img'].count()` counts all have an image name, and there are at most as many as in the input |
| Summary.CalcSum | generator.py:90-95 | the six counts keep the partition (Total = Success + mismatches, Fail = mismatches, none negative), and Total is at most the number of records |
| Summary.PrcFacts | generator.py:98-101 | the corrected `calc_prc` meets `PercentagesOf` on every store: with a zero Total every percentage is undefined; otherwise each lies in [0, 100], Total is 100%, Success and the mismatches add up to 100%, and Fail is the sum of the mismatch percentages |
| Summary.RowPercentFacts | generator.py:100 | percentages of a balanced row over its own nonzero Total lie in [0, 100] and add up as the counts do |
| Summary.CalcPrcAsWritten | generator.py:98-101 | as written, `calc_prc` raises iff the Total size is 0; otherwise its values are the corrected percentages |
| Summary.CalcPrc | generator.py:98-101 | the corrected `calc_prc`: six percentages of the Total size; `Summary.PrcFacts` states what they satisfy, including undefined cells exactly when Total is 0 |
| Summary.PercentagesOf | generator.py:98-101 | the promises on an axis's percentages that `Summary.PrcFacts` proves |
| Summary.PrcRaisesWithoutText | generator.py:98-101 | a kept record with no plate on either side, and also the empty store, makes the as-written `calc_prc` raise; the corrected one marks every cell undefined |
| Summary.Select | generator.py:99-119 | `df.query(q)`: the selected records in order, as many as `.size` counts, each selected by the query |
| Summary.SelectExactly | generator.py:99-119 | `df.query(q)` keeps every record the query selects, as often as it occurs, and no other |
| Summary.SelectMembers | generator.py:99-119 | a record is in the query's result iff it is in the store and the query selects it |
| Summary.ConfidenceColumn | generator.py:105-119 | `[conf]` of a frame: the axis confidence of every record, in order |
| Summary.ConfidencesMembers | generator.py:105-119 | every value of the query's confidence column is the confidence of a selected record, and every selected record's confidence is in it |
| Summary.Confidences | generator.py:105-119 | `df.query(q)[conf]`: the axis confidences of the records the query selects, one entry per selected record and in order (the column of `Summary.Select`), so each value occurs as often as the records carry it; one value per counted record, each the confidence of a selected record, and every selected record's confidence present |
| Summary.MinOf | generator.py:109 | `.min()` is undefined iff the column is empty; otherwise it is one of the values and no value is below it |
| Summary.MaxOf | generator.py:114 | `.max()` is undefined iff the column is empty; otherwise it is one of the values and no value is above it |
| Summary.MeanWithin | generator.py:119 | the mean of values that lie in [lo, hi] lies in [lo, hi] |
| Summary.MeanOf | generator.py:119 | `.mean()` is undefined iff the column is empty; `Summary.MeanWithin` bounds it |
| Summary.MinMeanMax | generator.py:108-120 | over a non-empty column, min <= mean <= max |
| Summary.StatisticsFacts | generator.py:108-120 | a category's min, max and mean meet `StatisticsOf`: they are undefined iff the category has no record; otherwise min <= mean <= max, min and max are confidences of records of the category, and every such record's confidence lies between them |
| Summary.StatisticsOf | generator.py:108-120 | the promises on one category's min, max and mean that `Summary.StatisticsFacts` proves |
| Summary.CalcMinGc | generator.py:108-110 | `calc_min_gc`: six minima, one per category; `Summary.StatisticsFacts` states what each is |
| Summary.CalcMaxGc | generator.py:113-115 | `calc_max_gc`: six maxima, one per category; `Summary.StatisticsFacts` states what each is |
| Summary.CalcAvgGc | generator.py:118-120 | `calc_avg_gc`: six means, one per category; `Summary.MeanIsAverage` fixes each value and `Summary.StatisticsFacts` bounds it |
| Summary.MeanIsAverage | generator.py:118-120 | each defined mean is the sum of the confidences of the records the query selects, each counted as often as it occurs, over the category's count |
| Summary.Cdic | generator.py:154-160 | the evaluation table's counts keep the partition, and each of its other columns has six entries |
| Summary.EvaluationFacts | generator.py:154-160 | the promises on one evaluation table: balanced counts bounded by the store, `PercentagesOf` and, per category, `StatisticsOf` |
| Summary.CdicFacts | generator.py:154-160 | `cdic` meets `EvaluationFacts` on every store and axis |
| Histogram.BucketsDisjoint | generator.py:164-173 | a confidence lies in at most one bucket |
| Histogram.Slice | generator.py:164-173 | a confidence query keeps only records whose confidence lies in its interval, and no more records than it is given |
| Histogram.SliceExactly | generator.py:164-173 | a confidence query keeps exactly the records whose confidence lies in its interval, each as often as it occurs |
| Histogram.Bucket | generator.py:164-173 | the records of bucket k, `[10k, 10k+10)` or `[90, 100]`; `Histogram.BucketsCover` and `Histogram.Cdic2At` state what it selects |
| Histogram.Cdic2 | generator.py:163-175 | ten bucket rows of six counts, each keeping the partition |
| Histogram.BucketsCover | generator.py:164-173 | a counted record falls in exactly one of the ten buckets if its confidence lies in [0, 100], and in none otherwise |
| Histogram.Cdic2At | generator.py:163-175 | cell (k, j) of the bucket table counts the records of category j whose confidence lies in bucket k and that have an image name |
| Histogram.SumRowIsInRangeCount | generator.py:233-234 | the appended Total row of the bucket table is `calc_sum` of the records whose confidence lies in [0, 100] |
| Histogram.SumRowIsStoreCount | generator.py:233-234 | when every confidence lies in [0, 100], the Total row is `calc_sum` of the whole store |
| Histogram.WithSumRow | generator.py:233 | the bucket table with its Total row of column sums appended (11 rows of six counts); `Histogram.SumRowIsInRangeCount` states what the Total row counts |
| Rows.BalancedSums | generator.py:233-234 | column sums of balanced rows give a balanced row |
| Rows.ColMax | generator.py:240-241 | `df[j].max()` is at least every entry of the column and is one of them |
| Rows.ReplaceColumn | generator.py:243 | assigning a column sets that column to the given values and leaves every other cell as it was |
| Cumulative.Cumsum | generator.py:239 | `cumsum` of a six-column table, keeping its shape; `Cumulative.CumsumAt` states its rows |
| Cumulative.InverseCumsum | generator.py:246 | `[::-1].cumsum()[::-1]`, keeping the table's shape; `Cumulative.InverseAt` states its rows |
| Cumulative.WithMaxRow | generator.py:240-247 | the table with its Total row of column maxima appended; `Cumulative.ForwardMaxRow` and `Cumulative.InverseMaxRow` state that row |
| Cumulative.CumsumAt | generator.py:239 | row k of the forward cumulative table is the sum of bucket rows 0..k |
| Cumulative.InverseAt | generator.py:246 | row k of the inverse cumulative table is the sum of bucket rows k..9 |
| Cumulative.CumsumMonotone | generator.py:239 | the forward cumulative columns never decrease |
| Cumulative.InverseMonotone | generator.py:246 | the inverse cumulative columns never increase |
| Cumulative.EndsAreTotals | generator.py:239-246 | the last forward row and the first inverse row are both the column sums of the bucket table |
| Cumulative.ForwardMaxRow | generator.py:240-241 | the appended maximum row of the forward table is the column sums |
| Cumulative.InverseMaxRow | generator.py:247-248 | the appended maximum row of the inverse table is the column sums |
| Cumulative.CumsumBalanced | generator.py:239 | every forward cumulative row keeps the partition |
| Cumulative.InverseBalanced | generator.py:246 | every inverse cumulative row keeps the partition |
| Frames.Frame.InsertPerc | generator.py:123-135 | `insert_perc` appends the five "%" columns (Success, Fail, and the three mismatches, each over the Total row's `-Total`) and changes nothing else |
| Frames.Frame.AssignTotal | generator.py:243 | `df['-Total'] = col` replaces the `-Total` column and changes nothing else |
| Frames.Frame.AppendAutomation | generator.py:138-151 | `append_automation` sets the automation columns computed from the counts and changes nothing else |
| Frames.PercentColumn | generator.py:126-134 | one "%" column, a value per row over the Total row's `-Total`; `Frames.PercentColumnsFacts` states its bounds |
| Frames.PercentColumns | generator.py:123-135 | the five "%" columns in insertion order; `Frames.PercentColumnsFacts` states their properties |
| Frames.AutomationRow | generator.py:139-150 | one row of the automation columns; `Frames.AutomationRowFacts` states its properties |
| Frames.AutomationColumns | generator.py:138-150 | the eleven automation rows of a table; `Frames.AutomationFacts` states their properties |
| Frames.PercentColumnsFacts | generator.py:123-135 | on the bucket table with its sum row, every "%" cell is undefined when the table is empty; otherwise each lies in [0, 100], and on the Total row Success and the mismatches make 100% and Fail is the sum of the mismatches |
| Frames.AutomationRowFacts | generator.py:138-149 | on a balanced row, #Automation is Success plus the two false-positive categories, 0 <= #FP <= #Automation, #Automation − #FP is the Success count, and %FP lies in [0, 100] |
| Frames.InverseTableShape | generator.py:246-248 | the inverse table with its maximum row keeps the partition in every row, its Total row repeats row 0, and no row's Total exceeds row 0's |
| Frames.AutomationPctBounds | generator.py:140-141 | on such a table every %Automation is defined (never a division by zero) and lies in [0, 100] |
| Frames.AutomationMonotone | generator.py:139 | #Automation never increases with the confidence threshold |
| Frames.AutomationFacts | generator.py:138-150 | on the inverse table, all of the above hold for every row; the Total row repeats row 0's #Automation and #FP; thresholds are 0, 10, …, 90, then blank |
| Report.BucketTables | generator.py:226-230 | `gc[n]` is the bucket table of axis n; the three tables are well formed (ten balanced rows of six counts), and the column sums of table n are `calc_sum` of the records whose axis-n confidence lies in [0, 100] |
| Report.Evaluations | generator.py:223 | `arh[n]` is the evaluation table of axis n, and it meets `EvaluationFacts`: balanced counts, the percentage facts and, per category, the statistics facts |
| Report.TotalRowsAgreeOn | generator.py:233-248 | the Total rows of the confidence, forward and inverse tables are the same, and equal to the last forward row and the first inverse row |
| Report.TotalRowsAgree | generator.py:233-248 | that shared Total row is `calc_sum` of the records whose confidence lies in [0, 100] |
| Report.CumulativeRows | generator.py:239-248 | the forward/inverse rows are prefix/suffix sums of the bucket rows and are monotone from bucket to bucket |
| Report.OverwriteFactsOn | generator.py:242-243 | once `gc2`'s `-Total` is replaced, rows 0..9 hold the per-bucket totals, the Total row is unchanged, and the other columns are untouched |
| Report.Distinct | generator.py:233-250 | the nine frames of `gc1`, `gc2` and `gc3` are pairwise different objects |
| Report.ForwardFinal | generator.py:239-243 | the counts of `gc2[n]` after its `-Total` column is replaced; `Report.OverwriteFactsOn` states what changes |
| Report.Completes | generator.py:98-101 | whether `cdic` as written returns on all three axes: exactly when every axis of the store has a nonempty Total |
| Report.ConfidenceTables | generator.py:233-236 | `gc1[i]` holds bucket table i with its sum row, and its "%" columns are those `insert_perc` computes |
| Report.CumulativeTables | generator.py:239-243 | `gc2[i]` holds the forward table of axis i with its maximum row, and its `-Total` column is replaced by `gc1[i]`'s |
| Report.InverseTables | generator.py:246-250 | `gc3[i]` holds the inverse table of axis i with its maximum row, and its automation columns use the first #FP formula |
| Report.BuildFrames | generator.py:233-250 | the three frame lists as above: nine separate new frames (`Report.Distinct`); only `gc1` has "%" columns and only `gc3` automation columns; their four Total rows (and `gc3`'s row 0) are equal on every axis |
| Report.BuildReport | generator.py:223-250 | a run over the filtered store: `arh` and the nine separate frames of `gc1`, `gc2`, `gc3` with every field as in `Report.BuildFrames`, and `completes` true iff the script as written gets past `arh` |
| Scenarios.AllCorrect | generator.py:90-120 | n identical correct plate readings: text counts [n, n, 0, 0, 0, 0], Success is 100%, and min = max = mean = their confidence |
| Scenarios.UnrecordedPlate | generator.py:163-175 | a plate read with no ground truth at confidence 20 is counted in Total, Fail and GT=NA&ARH!=NA, in bucket [20-30) only |
| Scenarios.TwoBuckets | generator.py:239-246 | a Success in bucket 0 and a mismatch in bucket 1: forward row 1 = inverse row 0 = [2, 1, 1, 1, 0, 0], and inverse row 1 = bucket row 1 |
| Scenarios.TwoRecords | generator.py:163-246 | a correct reading at confidence 5 and a wrong one (both sides present) at 15 give the two-bucket table, so forward row 1 = inverse row 0 = [2, 1, 1, 1, 0, 0] and inverse row 1 = [1, 0, 1, 1, 0, 0] |
| Scenarios.EmptyEvaluation | generator.py:90-120 | for the empty store every count is 0, and every percentage and statistic is undefined |
| Scenarios.EmptyTables | generator.py:163-248 | for the empty store every bucket, sum, forward and inverse row is 0, and every "%" cell is undefined |
| Scenarios.EmptyAutomation | generator.py:138-151 | for the empty store every #Automation, #FP and %FP is 0, and %Automation is 0 by the zero guard |

## Left out

- Loading the CSV file (lines 14-15) is left out: the raw rows are a parameter. The sentinel markers are modelled as `None`, and the unused `is_ok` column is dropped.
- Writing the Excel workbook, the charts (lines 178-360) and the PDF (lines 364-558) are rendering or I/O and are left out.
- Rounding to one decimal and rendering values as strings with a trailing `%` (lines 100, 109-119, 126-134, 140, 148) are left out: values stay exact reals.
- A missing confidence value (NaN) is not modelled; confidences are reals.
- `df['  '] = df['%FP']` (line 151) only duplicates `%FP`, so it has no field of its own.
- Column positions (`insert` at 2, 4, …, 10) and the transposes are not modelled. The "%" columns are kept in insertion order beside the count columns.
- pandas' query-string parser is replaced by the predicates the six query strings denote.
- The `n != 0` branch of `append_automation` (`#FP = -Fail`) is modelled in `Frames.AutomationRow` but never used, because line 250 passes no `n`.
- Frames.PercentColumn: a nonzero count over a zero Total (numpy infinity) is also `None`. On the tables the report builds a zero Total means every count is 0, so this case never arises there.
- Summary.Cdic: the evaluation tables, and through them Report.Evaluations and Report.BuildReport, use the corrected `calc_prc` of the Findings row. On a store with an empty Total on some axis, the script as written stops at line 223 and builds no later table; the model still builds every table and reports the stop only through `completes`.
- Records.DropEmpty: the contract states which records stay and how often; it does not state that their order is kept.
- Counts are unbounded integers; numpy's 64-bit counts cannot overflow on a sheet that fits in memory.
- Re-running the script on the same sheet gives the same tables. This needs no lemma, because every table is a function of the raw rows.

## Findings

| source | as written | input that shows it | evidently intended | confidence | as-written member | corrected member |
|---|---|---|---|---|---|---|
| generator.py:98-101 | `mx` is the size of the Total query, a Python integer, so `size / mx` raises `ZeroDivisionError` and stops the script when an axis has no record in Total | a store whose only record has an image, country and ctr but no plate on either side (text Total 0); likewise the empty store | that axis's percentages marked undefined, with the rest of the report still built | not executed; high | Summary.CalcPrcAsWritten, Summary.PrcRaisesWithoutText | Summary.CalcPrc, with Summary.PrcFacts |
