# Matrix statistics and census demographics, in Dafny

This project models two small data-analysis computations and proves what they
promise.

- `calculate(list)` in `mean_variance_std/main.py` takes nine numbers and lays
  them out row-major as a 3x3 matrix. For mean, variance, maximum, minimum and
  sum it reports `[per column (axis 0), per row (axis 1), whole matrix]`.
  Anything other than nine numbers raises `ValueError`.
- `calculate_demographic_data` in `demographic_data_analyzer/main.py` works on
  a census table with one record per person. It computes nine statistics:
  - race counts;
  - the mean age of men;
  - three education percentages;
  - the fewest weekly hours and the share of high earners among those who
    work them;
  - the country with the largest share of high earners;
  - the most common occupation of high earners born in India.

Both computations are pure, so the model is functions and lemmas:

| file | module | contents |
|---|---|---|
| `outcome.dfy` | `Outcome` | The exceptions Python raises on the modelled paths, plus `Result` and `Option`. |
| `reductions.dfy` | `Reductions` | Sum, maximum, minimum, mean and population variance of a line of integers. |
| `matrix_stats.dfy` | `MeanVarianceStd` | The row-major layout, the per-axis aggregates and `Calculate`. |
| `counting.dfy` | `Counting` | `value_counts()` and `mode()` over a text column. |
| `demographics.dfy` | `DemographicDataAnalyzer` | Rows, boolean masks, percentages, the nine statistics and `CalculateDemographicData`. |

Errors are the exceptions the code raises:

- `ValueError` for a list whose length is not 9.
- `ZeroDivisionError` when a row count of zero is the divisor of `/`
  (lines 24, 31, 39 and 52).
- `IndexError` for `index[0]` of an empty series (line 71).
- `KeyError` for `mode()[0]` of an empty selection (line 81).

A statistic that pandas reports as NaN, rather than raising, is `None`. This
covers the mean age of no men and the minimum of an empty column.

The mean age of an empty set of men is not an error: pandas yields NaN and
`round` keeps it, so the model gives `None` there.

## Model

| member | source | states |
|---|---|---|
| MeanVarianceStd.Calculate | mean_variance_std/main.py:4-23 | Fails with exactly `ValueError` iff the length is not 9. Otherwise the column and row sums are the entries of the row-major lines, the total is the sum of the list, the overall mean is total/9, and the overall max/min are attained and bound the list. |
| MeanVarianceStd.Reshape | mean_variance_std/main.py:10 | Gives three rows of three with `m[r][c] == list[3r+c]`; the rows concatenate back to the list. |
| MeanVarianceStd.Row | mean_variance_std/main.py:10 | Row `r` has three entries, `list[3r+c]` for c = 0..2. |
| MeanVarianceStd.Column | mean_variance_std/main.py:10 | Column `c` has three entries, `list[3r+c]` for r = 0..2. |
| MeanVarianceStd.LinesOfReshape | mean_variance_std/main.py:10 | The lines the reductions use are the rows and columns of the reshaped matrix. |
| MeanVarianceStd.SumAxes | mean_variance_std/main.py:20 | Three column sums and three row sums, each the sum of its line. The total is the sum of the list, and it equals both the sum of the column sums and the sum of the row sums. |
| MeanVarianceStd.MaxAxes | mean_variance_std/main.py:18 | Every column/row maximum occurs in its line and bounds it. The overall maximum bounds the list, and is also the maximum of the column maxima and of the row maxima. |
| MeanVarianceStd.MinAxes | mean_variance_std/main.py:19 | The same as MaxAxes, for minima. |
| MeanVarianceStd.MaxOfLineMaxima | mean_variance_std/main.py:18 | For any line maxima, the largest entry of the matrix is the largest of them along either axis. |
| MeanVarianceStd.MinOfLineMinima | mean_variance_std/main.py:19 | The same as MaxOfLineMaxima, for minima. |
| MeanVarianceStd.MeanAxes | mean_variance_std/main.py:15 | Each line mean is the line's sum / 3 and the overall mean is total / 9. The mean of the column means and the mean of the row means both equal the overall mean. |
| MeanVarianceStd.MeanAxesAreMeans | mean_variance_std/main.py:15 | Every entry of MeanAxes is the arithmetic mean of its line or of the whole list. |
| MeanVarianceStd.VarianceAxes | mean_variance_std/main.py:16 | Each variance is non-negative, and is zero iff all entries of its line are equal. |
| MeanVarianceStd.VarianceAroundReportedMean | mean_variance_std/main.py:16 | Each variance is the mean squared deviation (divisor N) of its line from the mean MeanAxes reports for that line. |
| MeanVarianceStd.CalculateExample | mean_variance_std/main.py:14-21 | For `[0..8]`: means ([3,4,5],[1,4,7],4), variances ([6,6,6],[2/3,2/3,2/3],60/9), max ([6,7,8],[2,5,8],8), min ([0,1,2],[0,3,6],0), sums ([9,12,15],[3,12,21],36). |
| Reductions.Max | mean_variance_std/main.py:18 | The result is an entry of the line and no entry exceeds it. |
| Reductions.Min | mean_variance_std/main.py:19 | The result is an entry of the line and no entry is below it. |
| Reductions.MaxIsUnique | mean_variance_std/main.py:18 | Any entry bounding the line from above is Max. |
| Reductions.MinIsUnique | mean_variance_std/main.py:19 | Any entry bounding the line from below is Min. |
| Reductions.SumConcat | mean_variance_std/main.py:20 | The sum of a concatenation is the sum of the sums. |
| Reductions.Variance | mean_variance_std/main.py:16 | Population variance is non-negative, and zero iff the line is constant. |
| Reductions.VarianceScaled | mean_variance_std/main.py:16 | The variance is an exact quotient of integers: Σ(N·x − Σx)² divided by N² and by N. |
| Reductions.ScaledSquaresOfSum | mean_variance_std/main.py:16 | Σ(N·x − Σx)² = N·(N·Σx² − (Σx)²). With VarianceScaled, that is the mean of the squares less the square of the mean, scaled by N³. |
| Reductions.SquaredDeviationsConcat | mean_variance_std/main.py:16 | Squared deviations around a fixed centre add up over a concatenation. |
| Reductions.MeanTimesCount | demographic_data_analyzer/main.py:18 | The mean times the count is the sum. |
| Reductions.MeanBounds | demographic_data_analyzer/main.py:18 | The mean lies between the minimum and the maximum. |
| Counting.Count | demographic_data_analyzer/main.py:12 | The number of occurrences is at most the length, and positive iff the value occurs. |
| Counting.Distinct | demographic_data_analyzer/main.py:12 | Holds the same values as the input, each once. |
| Counting.InsertByCount | demographic_data_analyzer/main.py:12 | Adds exactly one key, and keeps both the most-frequent-first order and freedom from duplicates. |
| Counting.SortByCount | demographic_data_analyzer/main.py:12 | The result is a permutation of the keys, most frequent first, and keeps freedom from duplicates. |
| Counting.TalliesCoverAll | demographic_data_analyzer/main.py:12 | The counts of duplicate-free keys covering every value add up to the length. |
| Counting.ValueCounts | demographic_data_analyzer/main.py:12 | Every distinct value appears once with its exact count (at least 1). Counts are non-increasing and add up to the length. |
| Counting.Mode | demographic_data_analyzer/main.py:78-81 | None iff the input is empty. Otherwise an occurring value that no value outnumbers. |
| DemographicDataAnalyzer.Filter | demographic_data_analyzer/main.py:29 | A boolean mask keeps only rows that satisfy it and never grows the table. |
| DemographicDataAnalyzer.FilterKeeps | demographic_data_analyzer/main.py:29 | A boolean mask keeps every row that satisfies it. |
| DemographicDataAnalyzer.Partition | demographic_data_analyzer/main.py:29-37 | `df[m]` and `df[~m]` together are the table as a multiset, so their sizes add up. |
| DemographicDataAnalyzer.FilterTwice | demographic_data_analyzer/main.py:29-31 | A mask applied to a masked frame equals the conjunction of both masks. |
| DemographicDataAnalyzer.EducationSplit | demographic_data_analyzer/main.py:29-40 | The advanced and lower education frames split the table, and their high earners split the table's high earners. |
| DemographicDataAnalyzer.Text | demographic_data_analyzer/main.py:12 | A text column has one entry per row, the row's field, in row order. |
| DemographicDataAnalyzer.Numbers | demographic_data_analyzer/main.py:18 | A numeric column has one entry per row, the row's field, in row order. |
| DemographicDataAnalyzer.CountIsFilterSize | demographic_data_analyzer/main.py:58-62 | A value's count in a column is the number of rows whose column holds it. |
| DemographicDataAnalyzer.Percentage | demographic_data_analyzer/main.py:24 | `ZeroDivisionError` iff the whole is 0. Otherwise value × whole = 100 × part, and the value is in [0,100] when part ≤ whole. |
| DemographicDataAnalyzer.RaceCount | demographic_data_analyzer/main.py:12 | One entry per race that occurs, with its exact row count (≥ 1). Counts are non-increasing and sum to the number of rows. |
| DemographicDataAnalyzer.AverageAgeMen | demographic_data_analyzer/main.py:18 | NaN (None) iff there are no men. Otherwise the value times the number of men is their total age, and it lies between the youngest and the oldest man's age. |
| DemographicDataAnalyzer.PercentageBachelors | demographic_data_analyzer/main.py:24 | `ZeroDivisionError` iff the table is empty. Otherwise 100 × #Bachelors / #rows, in [0,100]. |
| DemographicDataAnalyzer.RichShare | demographic_data_analyzer/main.py:30-31 | `ZeroDivisionError` iff the frame is empty. Otherwise 100 × #">50K" / #rows, in [0,100]. |
| DemographicDataAnalyzer.HigherEducationRich | demographic_data_analyzer/main.py:29-32 | `ZeroDivisionError` iff no row has advanced education. Otherwise 100 × #(advanced ∧ ">50K") / #advanced, in [0,100]. |
| DemographicDataAnalyzer.LowerEducationRich | demographic_data_analyzer/main.py:37-40 | `ZeroDivisionError` iff every row has advanced education. Otherwise 100 × #(lower ∧ ">50K") / #lower, in [0,100]. |
| DemographicDataAnalyzer.MinWorkHours | demographic_data_analyzer/main.py:45 | NaN (None) iff the table is empty. Otherwise some row's hours, and no row works fewer. |
| DemographicDataAnalyzer.WorkingExactly | demographic_data_analyzer/main.py:50 | Keeps only rows with the given hours, and is non-empty when such a row exists. |
| DemographicDataAnalyzer.WorkingExactlyKeepsAll | demographic_data_analyzer/main.py:50 | The boolean mask keeps every row with the given hours, as often as the table holds it, and no other row. |
| DemographicDataAnalyzer.RichPercentage | demographic_data_analyzer/main.py:50-53 | `ZeroDivisionError` iff the table is empty. Otherwise the share of high earners among the rows with the fewest hours, in [0,100]. |
| DemographicDataAnalyzer.RichAtMostPeople | demographic_data_analyzer/main.py:58-62 | No country has more high earners than people. |
| DemographicDataAnalyzer.Lookup | demographic_data_analyzer/main.py:67 | None iff the label is absent. Otherwise the recorded count of that label. |
| DemographicDataAnalyzer.LookupValueCounts | demographic_data_analyzer/main.py:67 | Looking a label up in `value_counts()` gives its count, or nothing when it does not occur. |
| DemographicDataAnalyzer.Shares | demographic_data_analyzer/main.py:67 | One entry per country, in order: rich count / total × 100 where a rich count exists, and 0 (`fillna(0)`) where none does. |
| DemographicDataAnalyzer.ShareOfCountry | demographic_data_analyzer/main.py:58-67 | Either `fillna` branch gives 100 × #(country ∧ ">50K") / #country, within [0,100]. |
| DemographicDataAnalyzer.SharesArePercentages | demographic_data_analyzer/main.py:58-67 | Every entry of Shares is its country's share of high earners, in [0,100]. |
| DemographicDataAnalyzer.SharesCoverCountries | demographic_data_analyzer/main.py:62-67 | Shares lists only countries of the table, and every row's country among them. It is empty iff the table is. |
| DemographicDataAnalyzer.CountryPercentages | demographic_data_analyzer/main.py:58-67 | Each country of the table appears, and only those. Each entry is 100 × #(country ∧ ">50K") / #country, a country without high earners gets 0, and every entry is in [0,100]. |
| DemographicDataAnalyzer.Highest | demographic_data_analyzer/main.py:67-72 | An entry of the list that no entry exceeds. |
| DemographicDataAnalyzer.HighestEarningCountry | demographic_data_analyzer/main.py:67-72 | `IndexError` iff the table is empty. Otherwise a country of the table whose percentage no country's exceeds, in [0,100]. |
| DemographicDataAnalyzer.TopOccIndia | demographic_data_analyzer/main.py:78-81 | `KeyError` iff no high earner was born in India. Otherwise an occupation of that group that no occupation outnumbers. |
| DemographicDataAnalyzer.CalculateDemographicData | demographic_data_analyzer/main.py:3-96 | Fails iff a division by zero or the India lookup fails, with the first error in source order. Otherwise the race counts total the rows, the percentages are in [0,100], the minimum bounds every row, the chosen country's percentage is maximal, and the occupation belongs to the India high earners. |

## Left out

- The standard deviation (mean_variance_std/main.py:17) is not modelled. It is the square root of the modelled variance, and a real square root has no exact finite form here. `Calculations` has no `standard deviation` field.
- Rounding to one decimal (`round(..., 1)` at demographic_data_analyzer/main.py:18, 24, 30, 38, 51 and 72) is not modelled. Every percentage and mean is the exact unrounded real.
- Floating point is not modelled. The nine numbers, ages and weekly hours are integers, and means, variances and percentages are exact reals.
- Integer width is not modelled. `np.array(list)` of Python integers is int64, and numpy sums wrap around on overflow (mean_variance_std/main.py:20). The model's sums are unbounded integers, so `SumAxes` and `Calculate` agree with the source only while every sum fits in 64 bits.
- `pd.read_csv` (line 7) is not modelled: the table arrives already parsed. The `__main__` block (lines 99-140) builds a sample file and prints, which is input and output.
- The other scripts of the repository are not part of this model. These are `page_view_time_series_visualizer`, `medical_data_visualizer` and `sea_level_predictor`, which are plotting, float statistics and a library regression.
- Counting.ValueCounts: the order among equally frequent values is not fixed. pandas' tie order is a library detail.
- DemographicDataAnalyzer.RaceCount: as ValueCounts, ties are unordered.
- Counting.Mode: returns some most frequent value. Which of several equally frequent values `mode()[0]` picks is not stated.
- DemographicDataAnalyzer.TopOccIndia: as Mode, a tie between occupations is not resolved.
- DemographicDataAnalyzer.Highest: returns some entry with the largest percentage. The unstable `sort_values` tie-break is not stated.
- DemographicDataAnalyzer.HighestEarningCountry: as Highest, maximality only.
- DemographicDataAnalyzer.AverageAgeMen: NaN is represented as `None`. NaN arithmetic and rounding are not modelled.
- DemographicDataAnalyzer.MinWorkHours: NaN is represented as `None`. On an empty table the code goes on to compare hours with NaN, matches no row, and divides by zero. RichPercentage models that outcome directly.
- DemographicDataAnalyzer.CalculateDemographicData: the race counts are kept as a list of tallies, not as a pandas Series with an index. `IndexError` on an empty table cannot surface, because `percentage_bachelors` divides by zero first.
