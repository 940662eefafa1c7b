# Bike-share dashboard pipeline

This project models the data pipeline of the bike-share dashboard page
(`dashboard/dashboard.py`). The page reads a daily table and an hourly table of
bike rentals and does the following:

- It normalises both tables in place. Season codes become season labels, and the
  daily table gains a `month` column.
- It filters the daily table by a date range, a set of seasons and a set of
  weather codes, all chosen in the sidebar.
- It reduces the filtered daily table to a monthly series and a seasonal series.
- It reduces the unfiltered hourly table to an hourly series and an hour-by-weather
  pivot.
- It assigns three bucket columns to the hourly table with a half-open `cut`:
  - time of day, with fixed edges;
  - rental level, with edges from the data: minimum, the 0.33 and 0.66 quantiles,
    and maximum;
  - temperature band, with fixed edges.
- It counts each bucket column per label.

The modules follow those stages:

- `Calendar`: dates as valid (year, month, day) triples, ordered lexicographically.
- `Schema`: rows, season codes and labels, the mapping of season codes, and the
  in-place normalisation of both tables.
- `Filtering`: the four-part row test and the filter built from it.
- `Grouping`: group sums over optional keys, per-label counts and the two-key pivot.
- `Quantiles`: sorting, minimum, maximum, and the linearly interpolated quantile.
- `Binning`: `cut(..., right=False)` with its error cases, the three bucketings,
  and the methods that assign the bucket columns in place.
- `Dashboard`: the page's series, the properties that connect them to the rows, and
  `Run`, one rendering of the page.
- `Wrappers` and `Seqs` are small shared helpers.

Missing values (pandas NaN) are `Option.None`. A season cell is `Code(n)` as
loaded, `Label(s)` once mapped, or `Missing`. A series is a sequence of
(key, value) pairs in the order pandas gives its index.

Points where the code's behaviour is easy to misread:

- With `right=False`, the top rental interval is open at the maximum count, which
  is also its own upper edge. So the rows that hold the maximum count get no rental
  level.
- In the same way, a temperature of exactly 1.0 gets no temperature band.
- An unknown season code becomes a missing value. It does not raise an error.
- `isin` matches missing values: the season choices offered are the column's
  `unique()` values, missing included, so choosing the missing value admits the
  rows whose season is missing. `Filtering.Keep` tests plain set membership on
  `SeasonValue`, where `Missing` is an ordinary value, so the model behaves the same.
- On an empty hourly table the rental edges are all missing. The model follows
  pandas 2.2, whose `cut` tests `Index(bins).is_monotonic_increasing` first: that
  test is false for missing edges, so the model reports the monotonicity error.
- The seasonal series is grouped on the label strings, so it comes out in
  alphabetical order (Fall, Spring, Summer, Winter), not in declaration order.

## Model

| member | source | states |
|---|---|---|
| Calendar.MonthOf | dashboard/dashboard.py:13 | The derived month of a valid date is in 1..12 |
| Schema.LookupSeason | dashboard/dashboard.py:16 | The lookup table has an entry exactly for the codes 1..4, and returns season `s` exactly for `s`'s code |
| Schema.MapSeason | dashboard/dashboard.py:16-18 | `Series.map` over the table never leaves a code in the column; a cell becomes label `s` exactly when it held `s`'s code; every other cell becomes missing, with no error |
| Schema.SeasonMappingTable | dashboard/dashboard.py:16 | Codes 1, 2, 3, 4 become Spring, Summer, Fall, Winter, whose label strings are "Spring", "Summer", "Fall", "Winter"; codes 0 and 5 become missing |
| Schema.MapSeasonTwice | dashboard/dashboard.py:16-18 | The lookup is keyed by codes: mapping an already mapped column would make every cell missing. The page never maps twice, since each rerun reloads the tables; this documents how `.map` is keyed |
| Schema.NormaliseDay | dashboard/dashboard.py:13-19 | A normalised daily row keeps its date, weather code and count, gains its date's month (1..12), and its season is the mapped value of its code, so it has a label exactly when its code was 1..4 |
| Schema.NormaliseHour | dashboard/dashboard.py:20-21 | A normalised hourly row keeps its hour, weather code, temperature, count and three bucket cells, and its season is the mapped value of its code, so it has a label exactly when its code was 1..4 |
| Schema.NormaliseDays | dashboard/dashboard.py:13-19 | After the column assignments, every daily row is its normalised form |
| Schema.NormaliseHours | dashboard/dashboard.py:20-21 | After the column assignments, every hourly row is its normalised form |
| Filtering.Filter | dashboard/dashboard.py:30-35 | The filtered table is no longer than the table, and every row in it passes all four tests |
| Filtering.Keep | dashboard/dashboard.py:31-34 | The four-part row test: on or after the start date, on or before the end date, season chosen, weather code chosen; `Filtering.FilterMembership` states the filter keeps exactly the rows passing it |
| Filtering.FilterMembership | dashboard/dashboard.py:30-35 | A row is in the filtered table exactly when it is in the table, its date is on or after the start and on or before the end, its season is one of those chosen, and its weather code is one of those chosen |
| Filtering.FilterIsSubsequence | dashboard/dashboard.py:30-35 | The filtered table is a subsequence of the table, so row order is kept |
| Filtering.FilterAppend | dashboard/dashboard.py:30-35 | Filtering a concatenation gives the concatenation of the filtered parts, so the test is row by row |
| Filtering.FilterIdempotent | dashboard/dashboard.py:30-35 | Filtering twice with the same choices gives the same table as filtering once |
| Filtering.FilterEmptyChoice | dashboard/dashboard.py:30-35 | With no season chosen, or no weather code chosen, or a start date after the end date, the filtered table is empty |
| Filtering.FilterAllKept | dashboard/dashboard.py:30-35 | When every row passes the tests, the filter returns the table unchanged |
| Filtering.MinDate | dashboard/dashboard.py:25 | The default start date is a date of the table, and no row has an earlier date |
| Filtering.MaxDate | dashboard/dashboard.py:25 | The default end date is a date of the table, and no row has a later date |
| Filtering.SeasonsOf | dashboard/dashboard.py:26 | `season.unique()` as a set, missing value included; used by `Filtering.FilterDefaultIsIdentity` |
| Filtering.WeathersOf | dashboard/dashboard.py:27 | `weathersit.unique()` as a set; used by `Filtering.FilterDefaultIsIdentity` |
| Filtering.DefaultSpec | dashboard/dashboard.py:25-27 | The widgets' defaults: the full date span and every season and weather value present; `Filtering.FilterDefaultIsIdentity` states they admit every row |
| Filtering.FilterDefaultIsIdentity | dashboard/dashboard.py:25-35 | With the sidebar's defaults (the full date span, every season value present, every weather code present), a non-empty table passes the filter unchanged |
| Grouping.SortedKeys | dashboard/dashboard.py:42 | The group index is strictly increasing and holds exactly the keys that are present |
| Grouping.GroupSum | dashboard/dashboard.py:42 | `groupby(key)[value].sum()` over integer keys; its keys, values, total and emptiness are stated by `Grouping.GroupSumSpec` |
| Grouping.GroupSumSpec | dashboard/dashboard.py:42 | A group sum holds each present key once, in ascending order; each value is the sum over the rows with that key; the values add up to the total over the rows with a key; it is empty exactly when no row has a key |
| Grouping.PartitionTotal | dashboard/dashboard.py:42 | Summing per key over distinct keys that cover every present key gives the total over the rows with a key |
| Grouping.BucketCounts | dashboard/dashboard.py:111 | `value_counts().sort_index()` on a categorical column; stated by `Grouping.BucketCountsSpec` and `Grouping.BucketCountsTotal` |
| Grouping.BucketCountsSpec | dashboard/dashboard.py:111 | `value_counts().sort_index()` lists every declared label in declaration order, with the number of cells holding it (0 for an empty bucket) |
| Grouping.BucketCountsTotal | dashboard/dashboard.py:111 | With distinct labels covering every labelled cell, the counts add up to the labelled cells; missing cells are not counted |
| Grouping.PivotCellSpec | dashboard/dashboard.py:61 | A pivot cell is present exactly when some row has that (hour, weather) pair, and it holds the sum of their counts |
| Grouping.PivotSum | dashboard/dashboard.py:61 | `pivot_table(..., aggfunc='sum')` over two integer keys; stated by `Grouping.PivotIndexSpec`, `Grouping.PivotColumnsSpec`, `Grouping.PivotCellsSpec`, `Grouping.PivotRowTotals` and `Grouping.PivotCellSpec` |
| Grouping.PivotIndexSpec | dashboard/dashboard.py:61 | The pivot's index is strictly increasing and holds exactly the first keys that occur |
| Grouping.PivotColumnsSpec | dashboard/dashboard.py:61 | The pivot's columns are strictly increasing and hold exactly the second keys that occur |
| Grouping.PivotCellsSpec | dashboard/dashboard.py:61 | The pivot has one row per index key and, in each, one cell per column key, which is the cell for that pair of keys |
| Grouping.PivotRowTotals | dashboard/dashboard.py:61 | The present cells of each pivot row add up to the group sum of that row key over the first key alone |
| Quantiles.Insert | dashboard/dashboard.py:95-96 | Inserting into a sorted sequence keeps it sorted and adds exactly one occurrence of the element |
| Quantiles.Sort | dashboard/dashboard.py:95-96 | The sorted column is sorted and is a permutation of the column |
| Quantiles.SortOfSorted | dashboard/dashboard.py:95-96 | Sorting an already sorted column leaves it unchanged |
| Quantiles.Min | dashboard/dashboard.py:95 | `cnt.min()` is a count of the column, and no count is smaller |
| Quantiles.Max | dashboard/dashboard.py:96 | `cnt.max()` is a count of the column, and no count is larger |
| Quantiles.SortEnds | dashboard/dashboard.py:95-96 | The sorted column starts at the minimum and ends at the maximum |
| Quantiles.Position | dashboard/dashboard.py:95-96 | The interpolation position (n-1)·p lies between the first and the last rank |
| Quantiles.At | dashboard/dashboard.py:95-96 | Linear interpolation at a real position of a sorted column, walking one rank at a time; `Quantiles.AtClosedForm` states it equals the floor-and-fraction formula |
| Quantiles.Quantile | dashboard/dashboard.py:95-96 | `Series.quantile(p)` with linear interpolation: the sorted column at position (n-1)·p; stated by `Quantiles.QuantileEnds`, `Quantiles.QuantileMonotone` and `Quantiles.QuantileOrdered` |
| Quantiles.AtClosedForm | dashboard/dashboard.py:95-96 | Linear interpolation at position h is s[⌊h⌋] + (h-⌊h⌋)·(s[⌊h⌋+1]-s[⌊h⌋]), or the last value when ⌊h⌋ is the last rank |
| Quantiles.AtSkip | dashboard/dashboard.py:95-96 | Interpolating at position k+f is interpolating at f within the column from rank k on |
| Quantiles.AtBetween | dashboard/dashboard.py:95-96 | On a sorted column, an interpolated value lies between the first and the last value |
| Quantiles.AtEnd | dashboard/dashboard.py:96 | Interpolating at the last rank gives the last value |
| Quantiles.AtMonotone | dashboard/dashboard.py:95-96 | On a sorted column, interpolated values do not decrease as the position grows |
| Quantiles.QuantileEnds | dashboard/dashboard.py:95-96 | The 0 quantile is the minimum and the 1 quantile is the maximum |
| Quantiles.QuantileMonotone | dashboard/dashboard.py:95-96 | A larger quantile level never gives a smaller quantile |
| Quantiles.QuantileOrdered | dashboard/dashboard.py:95-96 | min ≤ q(p) ≤ q(q') ≤ max for 0 ≤ p ≤ q' ≤ 1, so the rental edges are in order |
| Binning.SearchRightSpec | dashboard/dashboard.py:92 | The right-side search position on sorted edges is the number of edges at or below the value |
| Binning.SearchRight | dashboard/dashboard.py:92 | `searchsorted(edges, v, side='right')`; its own contract bounds it by the number of edges, and `Binning.SearchRightSpec` states it counts the edges at or below `v` |
| Binning.BinIndexSpec | dashboard/dashboard.py:92 | A value falls in bin i exactly when edges[i] ≤ v < edges[i+1], and in no bin exactly when it is below the first edge or at or above the last |
| Binning.BinIndex | dashboard/dashboard.py:92 | The bin of a value with `right=False`, none below the first or from the last edge on; its own contract keeps the index among the bins, and `Binning.BinIndexSpec` states which bin |
| Binning.BinSpec | dashboard/dashboard.py:92 | With distinct labels, a value gets label i exactly when edges[i] ≤ v < edges[i+1], and no label exactly when it is outside [first edge, last edge) |
| Binning.Bin | dashboard/dashboard.py:92 | The label of a value's bin; stated by `Binning.BinSpec` |
| Binning.Cut | dashboard/dashboard.py:92 | A successful `cut` gives one cell per value, with one more edge than labels |
| Binning.CutAccepts | dashboard/dashboard.py:92 | `cut` succeeds exactly when the edges are non-decreasing, are distinct (or are just two), the labels are distinct, and there is one label fewer than edges; edges that repeat give the duplicate-edges error |
| Binning.CutSpec | dashboard/dashboard.py:92 | Every cell of a successful `cut` has label i exactly when its value is in [edges[i], edges[i+1]), and is missing exactly when its value is outside the edges |
| Binning.TimeEdgesSorted | dashboard/dashboard.py:88-89 | The time edges are strictly increasing and the four time labels are distinct |
| Binning.TimeBin | dashboard/dashboard.py:88-92 | The time-of-day label of an hour; stated by `Binning.TimeBinByQuarter` and `Binning.TimeBinExamples` |
| Binning.TimeBinByQuarter | dashboard/dashboard.py:88-92 | Every hour in 0..23 gets exactly the label of its quarter of the day (hour / 6), and every other hour gets none |
| Binning.TimeBinExamples | dashboard/dashboard.py:88-92 | Hour 0 is Malam, 6 is Pagi, 12 is Siang and 23 is Sore |
| Binning.TimeCutAccepted | dashboard/dashboard.py:92 | Bucketing by time never raises |
| Binning.TempEdgesSorted | dashboard/dashboard.py:103-104 | The temperature edges are strictly increasing and the three temperature labels are distinct |
| Binning.TempBin | dashboard/dashboard.py:103-107 | The temperature band of a temperature; stated by `Binning.TempBinSpec` |
| Binning.TempBinSpec | dashboard/dashboard.py:103-107 | Dingin exactly for [0, 0.3), Sedang for [0.3, 0.6), Panas for [0.6, 1.0); no band exactly for temperatures below 0 or at or above 1.0 |
| Binning.TempCutAccepted | dashboard/dashboard.py:107 | Bucketing by temperature never raises |
| Binning.RentalEdges | dashboard/dashboard.py:95-96 | The rental edges are four values: min, q(0.33), q(0.66), max |
| Binning.RentalEdgesOrdered | dashboard/dashboard.py:95-96 | The rental edges are non-decreasing, starting at the minimum count and ending at the maximum |
| Binning.RentalLabelsDistinct | dashboard/dashboard.py:97 | There are three distinct rental labels |
| Binning.BucketLabelNames | dashboard/dashboard.py:89-104 | The label strings, in declaration order: Malam (00-06), Pagi (06-12), Siang (12-18), Sore (18-24); Rendah, Sedang, Tinggi; Dingin, Sedang, Panas |
| Binning.RentalColumn | dashboard/dashboard.py:95-100 | `cut` of the counts by the data-driven edges, or its error; stated by `Binning.RentalColumnFailure`, `Binning.RentalColumnSpec` and `Binning.RentalColumnLength` |
| Binning.RentalColumnLength | dashboard/dashboard.py:100 | A successful rental bucketing gives one cell per row |
| Binning.RentalColumnFailure | dashboard/dashboard.py:95-100 | Rental bucketing fails exactly when the table is empty or two rental edges coincide; the error is the monotonicity error on an empty table and the duplicate-edges error otherwise |
| Binning.RentalColumnSpec | dashboard/dashboard.py:95-100 | When rental bucketing succeeds, a count gets level i exactly when it lies in [edge i, edge i+1), and gets no level exactly when it equals the maximum count |
| Binning.RentalExampleEdges | dashboard/dashboard.py:95-96 | For counts 10, 20, …, 60, the rental edges are 10, 26.5, 43, 60 |
| Binning.RentalExample | dashboard/dashboard.py:95-100 | Counts 10, 20, 30, 40, 50, 60 are bucketed Rendah, Rendah, Sedang, Sedang, Tinggi and none |
| Binning.AssignTimeBins | dashboard/dashboard.py:92 | Every hourly row gets the time label of its hour, and nothing else in the row changes |
| Binning.Counts | dashboard/dashboard.py:95-100 | The `cnt` column of the hourly table, one entry per row in table order |
| Binning.AssignRentalBins | dashboard/dashboard.py:95-100 | When `cut` raises, the error is reported and the table is left unchanged; otherwise every row gets its cell of the rental bucketing, and nothing else changes |
| Binning.StoreRentalBins | dashboard/dashboard.py:100 | Every row's rental cell becomes the corresponding computed cell, and nothing else changes |
| Binning.AssignTempBins | dashboard/dashboard.py:107 | Every hourly row gets the band of its temperature, and nothing else in the row changes |
| Dashboard.MonthlyTrendSpec | dashboard/dashboard.py:42 | The monthly series holds each month present once, ascending, with the sum of the counts of that month's rows; it adds up to the total count when every row has a month; an empty table gives an empty series |
| Dashboard.MonthlyTrend | dashboard/dashboard.py:42 | `df_filtered.groupby('month')['cnt'].sum()`; stated by `Dashboard.MonthlyTrendSpec` |
| Dashboard.AlphaRankIsNameOrder | dashboard/dashboard.py:51 | The rank order Fall < Spring < Summer < Winter is exactly the string order of the season labels |
| Dashboard.SeasonTrend | dashboard/dashboard.py:51 | `df_filtered.groupby('season')['cnt'].sum()`; stated by `Dashboard.SeasonTrendOrder`, `Dashboard.SeasonTrendKeys` and `Dashboard.SeasonTrendValues` |
| Dashboard.SeasonTrendOrder | dashboard/dashboard.py:51 | The seasons of the seasonal series are in strictly increasing string order of their labels |
| Dashboard.SeasonTrendKeys | dashboard/dashboard.py:51 | A season is in the seasonal series exactly when some filtered row carries its label; missing seasons are dropped |
| Dashboard.SeasonTrendValues | dashboard/dashboard.py:51 | Each season's value is the sum of the counts of its rows; the values add up to the total count of the labelled rows (the whole count when every row is labelled); an empty table gives an empty series |
| Dashboard.TwoDayExample | dashboard/dashboard.py:13-51 | Two spring days in January (100) and February (200), filtered with the defaults, give the monthly series (1, 100), (2, 200) and the seasonal series (Spring, 300) |
| Dashboard.HourlyTrendSpec | dashboard/dashboard.py:77 | The hourly series holds each hour present once, ascending, with the sum of that hour's counts; it adds up to the total count of the hourly table; it is empty exactly when the table is empty |
| Dashboard.HourlyTrend | dashboard/dashboard.py:77 | `hour_data.groupby('hr')['cnt'].sum()`; stated by `Dashboard.HourlyTrendSpec` |
| Dashboard.WeatherHourPivot | dashboard/dashboard.py:61 | `hour_data.pivot_table(index='hr', columns='weathersit', values='cnt', aggfunc='sum')`; stated by `Dashboard.WeatherHourPivotColumns`, `Dashboard.WeatherHourPivotCells` and `Dashboard.WeatherHourPivotRows` |
| Dashboard.WeatherHourPivotColumns | dashboard/dashboard.py:61 | The pivot's columns are exactly the weather codes that occur, ascending |
| Dashboard.WeatherHourPivotCells | dashboard/dashboard.py:61 | Pivot cell (h, w) is present exactly when some hourly row has hour h and weather w, and then holds the total count of those rows |
| Dashboard.HourWeatherCell | dashboard/dashboard.py:61 | One pivot cell read back against the hourly rows: present iff some row has that hour and weather, with their total count |
| Dashboard.WeatherHourPivotRows | dashboard/dashboard.py:61 | The pivot's rows are the hours of the hourly series, and each row's present cells add up to that hour's value in the hourly series |
| Dashboard.BinnedCounts | dashboard/dashboard.py:111-127 | Counting a column bucketed by `cut` lists the labels in order, with label i counted once per value in [edges[i], edges[i+1]); the counts add up to the values inside the edges |
| Dashboard.TimeCountsSpec | dashboard/dashboard.py:111 | The time counts list Malam, Pagi, Siang, Sore with the number of rows whose hour is in [0,6), [6,12), [12,18), [18,24); when every hour is in 0..23 they add up to the number of rows |
| Dashboard.TimeCounts | dashboard/dashboard.py:111 | `time_bin.value_counts().sort_index()`; stated by `Dashboard.TimeCountsSpec` |
| Dashboard.RentalCountsSpec | dashboard/dashboard.py:119 | The rental counts list Rendah, Sedang, Tinggi with the number of rows whose count lies between each level's edges; they add up to the rows below the maximum count |
| Dashboard.RentalCounts | dashboard/dashboard.py:119 | `rental_bin.value_counts().sort_index()`; stated by `Dashboard.RentalCountsSpec` |
| Dashboard.TempCountsSpec | dashboard/dashboard.py:127 | The temperature counts list Dingin, Sedang, Panas with the number of rows in each band; they add up to the rows with a temperature in [0, 1) |
| Dashboard.TempCounts | dashboard/dashboard.py:127 | `temp_bin.value_counts().sort_index()`; stated by `Dashboard.TempCountsSpec` |
| Dashboard.NormaliseHourTable | dashboard/dashboard.py:20-21 | The hourly table with every row normalised, one row per row in order; the table from which `Dashboard.Run` states its pivot and hourly series are computed |
| Dashboard.Run | dashboard/dashboard.py:13-127 | One page rendering: both tables are normalised in place, and only the daily table is filtered. The monthly and seasonal series come from the filtered daily table; the pivot and hourly series from the normalised hourly table. Every hourly row gains its time label. If the rental `cut` raises, no bucket chart is drawn and the rental and temperature columns are untouched; otherwise all three columns are assigned and counted |

## Left out

- Loading the two CSV files and parsing the date strings are I/O. The model takes already parsed rows, and only valid calendar dates can be given.
- The sidebar widgets, titles, markdown and every plotting call are interface. The sidebar's choices are the `FilterSpec` given to `Run`. Their defaults are `Filtering.DefaultSpec`.
- A date-range widget that returns only one date is not modelled (the page would fail to index it). `Run` always receives a start and an end date.
- The multiselect returns a list. The model uses a set, since `isin` ignores order and repetition.
- Temperatures, the 0.3 and 0.6 edges, and interpolated quantiles are exact reals here, not IEEE-754 doubles. Rounding differences near an edge are not captured.
- Counts are unbounded integers. int64 overflow in pandas sums is not modelled.
- Only the pandas behaviour the page relies on is modelled:
  - `groupby` drops missing keys and sorts its keys;
  - `pivot_table` leaves absent pairs missing;
  - `cut` with `right=False` and its argument checks;
  - `value_counts().sort_index()` on a categorical column.
- Binning.RentalColumn: for an empty table the model fixes the pandas 2.2 error (bins not monotonic). Earlier pandas versions test monotonicity with `np.diff(bins) < 0`, which missing edges pass, and then raise the duplicate-edges error instead. The model does not capture that version difference.
- Dtype inference and the pruning of all-missing columns in `pivot_table` are not modelled.
- Binning.Cut: the order of pandas' argument checks is modelled as monotonicity, then duplicate edges, then duplicate labels, then label count. Only the first failing check's error is reported. When several checks fail at once, pandas may report a different one.
- The derived columns (`month`, `time_bin`, `rental_bin`, `temp_bin`) are fields that stay missing until their assignment runs. The model does not add columns to a table.
- `day_data['weathersit'] = day_data['weathersit']` and the same line for the hourly table are identity assignments. They are modelled as leaving the weather code unchanged.
