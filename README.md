# Egg-sorting dashboard: verified model of its data derivations

The dashboard shows egg-sorting production data in two views. The daily view
shows one day's log with its per-size table. The history view shows a
date-range summary. Everything it displays comes from four small derivations
over an in-memory list of daily logs. This project models those derivations
in Dafny and proves what they promise:

- **Daily breakdown** (`calculateDailyBreakdown`): one row per egg size `'0'`
  to `'5'`, in the fixed `EGG_SIZES` order. A size missing from the log
  counts 0. Each percentage is the count's share of the day's total, and it
  is 0 when the total is 0.
- **Range filter** (`handleFilter`): the logs whose `YYYY-MM-DD` date lies in
  `[start, end]`, compared as JavaScript compares strings, in source order.
- **Range summary** (`aggregateSummary`): the total sorted, the number of
  days, the average per day (0 with no days) and a per-size table. The table
  sums the counts over the days and then takes each percentage against the
  summed total. In the source, an accumulator record that starts empty is
  updated in nested loops. Here the method `Aggregate.AggregateSummary` runs
  the loop over the days and `Aggregate.AddDay` the loop over the sizes. The
  result is proved equal to pure per-size sums.
- **Lookup** (`currentLog`): the first log whose date equals the selected
  date, or none.

Modules, one per concern of `eggwebsite/app/page.tsx`:

- `EggTypes` (egg_types.dfy) holds the sizes, logs and table rows, the
  defaulted count, the percentage and the column sums.
- `DateOrder` (date_order.dfy) holds JavaScript's string order. Dafny's own
  `<=` on strings is the prefix order.
- `IsoDates` (iso_dates.dfy) shows why that order compares zero-padded dates
  chronologically.
- `DailyBreakdown`, `RangeFilter`, `Aggregate` and `LogLookup` hold the four
  derivations.
- `History` (history.dfy) composes the filter with the summary.
- `MockData` (mock_data.dfy) holds the built-in sample week, with its results
  worked out.

Both table footers print a constant `100.00%` (page.tsx:372 and 529),
whatever the data. When the total is 0, that footer sits under a column of
0.00 values. The lemmas `DailyPercentsAddUpTo100` and
`AggregatePercentsAddUpTo100` show when the constant equals the sum of the
exact percentages: the total must be positive, and each day's breakdown
values must add up to its `total_sorted`. The code never checks that second
condition, so the lemmas take it as a hypothesis. For the sample week it is
proved (`SampleDaysConsistent`). The two-decimal figures the page shows are
each rounded, so they need not add up to 100.00.

## Model

| member | source | states |
|---|---|---|
| EggTypes.Index | eggwebsite/app/page.tsx:28 | every size has a position in `EGG_SIZES` holding that very size |
| EggTypes.EggSizesEnumerate | eggwebsite/app/page.tsx:28 | the constant `EggSizes`, the source's `EGG_SIZES`, lists all six sizes exactly once, keyed `'0'`..`'5'` in order |
| EggTypes.CountsOf | eggwebsite/app/page.tsx:51 | one count per listed size, in order, each the record's value or 0 when the entry is absent |
| EggTypes.Percent | eggwebsite/app/page.tsx:52 | 0 when the total is 0 (no division); otherwise the p with p * total = count * 100; never negative |
| EggTypes.PercentAtMost100 | eggwebsite/app/page.tsx:52 | a count no larger than its total is at most 100 percent of it |
| EggTypes.ItemsCountSum | eggwebsite/app/page.tsx:50-54 | the count column of a six-row table adds up to the sum of the counts it was built from |
| EggTypes.PercentColumnSum | eggwebsite/app/page.tsx:52 | with one positive total for every row, the percent column times the total is the count column times 100 |
| EggTypes.ItemsZeroTotal | eggwebsite/app/page.tsx:52 | with a zero total every percentage of the table is 0 |
| EggTypes.PercentsOfWholeAddUpTo100 | eggwebsite/app/page.tsx:368-374 | rows whose counts add up to a positive total and whose percents are taken against it have percents adding up to exactly 100 |
| EggTypes.ItemsPercentsAddUpTo100 | eggwebsite/app/page.tsx:368-374 | when the counts add up to a positive total, the exact percent column adds up to exactly 100, the constant the footer prints |
| EggTypes.KeySumRemove | eggwebsite/app/page.tsx:9 | the sum of a breakdown record's values does not depend on the order its keys are taken in |
| EggTypes.CountsOfSum | eggwebsite/app/page.tsx:51 | summing the defaulted counts of distinct sizes is summing the record's values under those sizes |
| EggTypes.SixCountsSum | eggwebsite/app/page.tsx:49-56 | the six defaulted counts add up to the sum of all values the breakdown record holds |
| DailyBreakdown.CalculateDailyBreakdown | eggwebsite/app/page.tsx:49-56 | six rows; the row at a size's position has that size and its count (0 if absent); each percent is the count's share of the day's total; all percents 0 when the total is 0 |
| DailyBreakdown.DailyCountsSum | eggwebsite/app/page.tsx:51 | the rows' counts add up to the sum of the log's breakdown values, whatever `total_sorted` says |
| DailyBreakdown.DailyPercentsSum | eggwebsite/app/page.tsx:52 | for a positive total, the percentages add up to the breakdown's sum as a share of the total |
| DailyBreakdown.DailyPercentsAddUpTo100 | eggwebsite/app/page.tsx:368-374 | when the breakdown adds up to the positive total, the percentages add up to 100 and none exceeds 100 |
| DateOrder.LexLe | eggwebsite/app/page.tsx:400 | JavaScript's `<=` on strings; when it holds of a non-empty string, the other string is non-empty and its first character is no smaller |
| DateOrder.LexLeIsFirstDifference | eggwebsite/app/page.tsx:400 | `a <= b` holds exactly when `a` is a prefix of `b` or has the smaller character at the first position where they differ, the order JavaScript defines |
| DateOrder.LexLeReflexive | eggwebsite/app/page.tsx:400 | every date string lies in range of itself |
| DateOrder.LexLeAntisymmetric | eggwebsite/app/page.tsx:400 | two strings each `<=` the other are equal |
| DateOrder.LexLeTransitive | eggwebsite/app/page.tsx:400 | the string order is transitive |
| DateOrder.LexLeTotal | eggwebsite/app/page.tsx:400 | any two strings are comparable |
| DateOrder.PrefixIsLexLe | eggwebsite/app/page.tsx:400 | a prefix comes first in the string order |
| DateOrder.LexLeAppend | eggwebsite/app/page.tsx:400 | strings with equally long leading parts compare by those parts, and by the rest only when the parts are equal |
| IsoDates.DigitsOrder | eggwebsite/app/page.tsx:400 | zero-padded numbers of one width compare as strings exactly as they compare as numbers, and are equal exactly when the numbers are |
| IsoDates.IsoDateOrder | eggwebsite/app/page.tsx:400 | on `YYYY-MM-DD` strings the string order is calendar order, and equal strings are equal dates |
| RangeFilter.InRangeNeedsOrderedBounds | eggwebsite/app/page.tsx:400 | the filter's test `date >= start && date <= end` can only hold when start <= end |
| RangeFilter.FilterByRange | eggwebsite/app/page.tsx:399-402 | a log is kept exactly when it is in the source and `start <= date <= end`; never more logs than the source |
| RangeFilter.FilterAppend | eggwebsite/app/page.tsx:400 | filtering a concatenation filters each part and keeps the parts in order |
| RangeFilter.KeptIndicesInRange | eggwebsite/app/page.tsx:400 | every position the filter keeps is a position of the source whose date is in range |
| RangeFilter.KeptIndicesIncreasing | eggwebsite/app/page.tsx:400 | the kept positions are strictly increasing, so the source order is kept |
| RangeFilter.KeptIndicesComplete | eggwebsite/app/page.tsx:400 | every source position whose date is in range is among the kept positions |
| RangeFilter.FilterIsKeptSubsequence | eggwebsite/app/page.tsx:400 | the result's k-th log is the source's log at the k-th in-range position: an order-preserving subsequence |
| RangeFilter.FilterStartAfterEnd | eggwebsite/app/page.tsx:400 | a start date after the end date keeps nothing |
| RangeFilter.FilterFullRange | eggwebsite/app/page.tsx:400 | a range covering every log's date keeps the source unchanged |
| RangeFilter.FilterNoneInRange | eggwebsite/app/page.tsx:400 | a range covering no log's date keeps nothing |
| RangeFilter.FilterPrefix | eggwebsite/app/page.tsx:400 | when exactly the first n logs are in range, the result is those n logs |
| RangeFilter.FilterIdempotent | eggwebsite/app/page.tsx:400 | filtering the result again with the same range changes nothing |
| RangeFilter.DefaultRangeKeepsAll | eggwebsite/app/page.tsx:391-396 | on date-sorted logs, the default range from the first to the last date keeps every log |
| RangeFilter.SingleDayRange | eggwebsite/app/page.tsx:400 | the range from a date to itself keeps exactly the logs of that date |
| RangeFilter.InRangeIsCalendarRange | eggwebsite/app/page.tsx:400 | on `YYYY-MM-DD` dates the filter keeps exactly the dates between start and end on the calendar |
| Aggregate.TotalSorted | eggwebsite/app/page.tsx:406 | the `reduce` sum of the logs' `total_sorted`; no single day's total exceeds it |
| Aggregate.SizeTotal | eggwebsite/app/page.tsx:411-416 | one size's count summed over the logs, absent entries as 0; no single day's count exceeds it |
| Aggregate.AddDay | eggwebsite/app/page.tsx:413-415 | after one day has been added, every size has an entry holding its previous count plus the day's count (0 if absent) |
| Aggregate.AvgPerDay | eggwebsite/app/page.tsx:409 | 0 with no days; otherwise the integer nearest total / days, halves rounded up |
| Aggregate.AggregateSummary | eggwebsite/app/page.tsx:405-425 | the total is the sum over the logs, the days their number, the average as AvgPerDay, and the table's rows the six per-size sums over the logs in `EGG_SIZES` order with their shares of the total |
| Aggregate.TotalSortedStep | eggwebsite/app/page.tsx:406 | the left fold adds one log's total at a time |
| Aggregate.TotalNeedsDays | eggwebsite/app/page.tsx:421 | a positive total needs at least one day, so a percentage is only taken after every size entered the accumulator |
| Aggregate.TotalSortedAppend | eggwebsite/app/page.tsx:406 | the total of two runs of days together is the sum of their totals |
| Aggregate.SizeTotalAppend | eggwebsite/app/page.tsx:411-416 | a size's summed count over two runs of days is the sum of its counts over each |
| Aggregate.AggregateAppend | eggwebsite/app/page.tsx:405-425 | the total and every per-size count of two runs of days together are the sums of each run's |
| Aggregate.AggregateOfNoDays | eggwebsite/app/page.tsx:408-409 | with no days the total, the average, every count and every percentage are 0 |
| Aggregate.AggregateOfOneDay | eggwebsite/app/page.tsx:418-422 | summarising a single day gives exactly that day's own table |
| Aggregate.AggregateCountsSum | eggwebsite/app/page.tsx:411-420 | the summary's count column adds up to the sum of every day's breakdown values |
| Aggregate.ConsistentTotals | eggwebsite/app/page.tsx:406 | when every day's breakdown adds up to its total, the summed breakdowns equal the summed totals |
| Aggregate.AggregatePercentsAddUpTo100 | eggwebsite/app/page.tsx:525-531 | when every day's breakdown adds up to its total and the summed total is positive, the summary's exact percentages add up to 100, the constant the footer prints |
| History.StartAfterEndSummary | eggwebsite/app/page.tsx:399-425 | a start date after the end date gives no days, a zero total and average, and all counts and percentages 0 |
| History.CoveringRangeSummary | eggwebsite/app/page.tsx:399-425 | a range covering every log gives the same total, day count and per-size counts as summing all logs directly |
| History.SplitRangeSummary | eggwebsite/app/page.tsx:399-425 | splitting the source anywhere splits the kept days and their total into two parts that add up |
| History.SummarizeRange | eggwebsite/app/page.tsx:399-425 | the history table for a range: the days and total of the kept logs, their average per day, per-size sums in `EGG_SIZES` order with each sum's percentage of the total, and zero days, total, average, counts and percentages when start is after end |
| LogLookup.FindByDate | eggwebsite/app/page.tsx:564-566 | none exactly when no log has the date; otherwise a log of the source with that date |
| LogLookup.FindByDateIsFirst | eggwebsite/app/page.tsx:565 | the log found is the first in the source with that date |
| LogLookup.FindByDateIsSingleDayRange | eggwebsite/app/page.tsx:565 | the lookup gives the first log of the one-day range at that date, and none when that range is empty |
| MockData.SampleDates | eggwebsite/app/page.tsx:18-26 | `MOCK_DATA_SOURCE` holds seven logs dated 2024-12-01 to 2024-12-07 in order |
| MockData.FirstDaySizeTwo | eggwebsite/app/page.tsx:19 | on 2024-12-01 size `'2'` has 48000 eggs, whose share of 118000 lies in [40.675, 40.685), so it displays as 40.68 |
| MockData.BreakdownValues | eggwebsite/app/page.tsx:19-25 | a sample breakdown record holds exactly the sum of its six counts |
| MockData.SampleDaysConsistent | eggwebsite/app/page.tsx:18-26 | every sample day's breakdown adds up to its total |
| MockData.SampleDateOrder | eggwebsite/app/page.tsx:19-25 | sample dates compare by their day of the month |
| MockData.SampleRange | eggwebsite/app/page.tsx:19-25 | a sample day is in a range of sample dates exactly when its day of the month is |
| MockData.SampleTotals | eggwebsite/app/page.tsx:18-26 | the first three sample days hold 354500 eggs, the whole week 829000 |
| MockData.SampleAverages | eggwebsite/app/page.tsx:409 | the average of 354500 over 3 days is 118167, of 829000 over 7 days 118429 |
| MockData.FirstThreeDays | eggwebsite/app/page.tsx:399-409 | the range 2024-12-01..2024-12-03 keeps the first three sample days: 3 days, 354500 eggs, 118167 a day |
| MockData.DefaultRangeIsWholeWeek | eggwebsite/app/page.tsx:391-409 | the default range keeps the whole sample week: 7 days, 829000 eggs, 118429 a day |
| MockData.LatestDateFound | eggwebsite/app/page.tsx:560-566 | the initial selected date, the latest, finds its log, and 2024-12-08 finds none |

## Left out

- The React components, hooks and markup (`SummaryCard`, `DailyDashboard`, `HistoricalSummary`, `App`): they are view code. The view toggle and the React state that holds the selected date and range are not modelled. The filter is modelled as the function applied to the current range.
- Chart geometry and tooltips (`MockBarChart`, `MockLineChart`): floating-point layout and mouse handling.
- `formatNumber`: a wrapper over `Intl.NumberFormat('th-TH')` and `parseFloat`, which are library calls.
- Weights: `totalWeight` in the summary and the daily average weight per egg are floating-point arithmetic. A log carries `totalWeightKg`, but nothing sums it.
- Aggregate.AggregateSummary: its result has no `totalWeight` field, for the reason above.
- DailyBreakdown.CalculateDailyBreakdown: the percent is the exact real value. The `toFixed(2)` string is not produced, because its float-to-decimal rounding is out of scope. `MockData.FirstDaySizeTwo` bounds one such value to show the displayed digits.
- Aggregate.AvgPerDay: it rounds the exact quotient, halves up, as `toFixed(0)` does on non-negative numbers. Two things are not modelled: float error in the division, and the source's mix of a string (`toFixed`) with the number 0.
- Numbers are unbounded `nat`s, with no floating point, `NaN` or negative counts. The `|| 0` default is modelled only for an absent entry.
- JavaScript compares strings by UTF-16 code units. `DateOrder.LexLe` compares Dafny characters, which give the same order for characters of the Basic Multilingual Plane. Dates are ASCII.
- IsoDates.ValidDate does not check a day against its month's length. The order proof needs only the fixed field widths.
- The reset button's call sequence: `handleFilter` runs with the dates from before the reset, because of React's state-update and closure timing. This is framework behaviour.
- The Export button: it does nothing.
