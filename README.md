# Civic map insights: the analytics engine, verified

This project models the analytical core of a demographic-enrolment
dashboard. The dashboard reads per-pincode enrolment records (date, state,
district, pincode, three age-band counts, optional coordinates) and draws
maps and charts. Behind the widgets sit four small modules, and those are
what is modelled here:

- **the anomaly auditor** (`modules/intelligence.py`):
  - structural outliers picked by an isolation forest from the per-pincode totals;
  - the three-sigma audit of those totals;
  - a per-pincode trailing-window spike detector;
  - the zero-filled daily series handed to an STL decomposition, with its 14-day guard;
- **the saturation forecaster** (`modules/prediction.py`):
  - the burn-up curve and its least-squares velocity;
  - the Stalled / Already Saturated / completion-date decision under a speed boost;
  - the daily burn trend;
  - the traffic projection;
- **the coordinate cleaner and the engine's final pass** (`modules/data_processor.py`);
- **the loader's normalisation** (`modules/data_loader.py`):
  - header rules;
  - canonical pincodes;
  - discarding unusable mapping rows;
  - keep-first deduplication and the left merge;
  - date parsing and age-count coercion.

Modules, one concept each:

| module | file | holds |
|---|---|---|
| `Wrappers` | wrappers.dfy | `Option` |
| `Orders` | orders.dfy | Python's string order, proved a strict total order |
| `Sorting` | sorting.dfy | `sort_values` (sorted and a permutation) and mask filtering |
| `Grouping` | grouping.dfy | `groupby(key)[col].sum()`: sorted, one group per key, order-free |
| `Stats` | stats.dfy | exact sums, mean, sample variance, Samuelson's inequality, OLS slope, truncation |
| `Records` | records.dfy | the enrolment row, daily totals, first and last dates |
| `Intelligence` | intelligence.dfy | the anomaly auditor |
| `Prediction` | prediction.dfy | the forecaster |
| `Text` | text.dfy | `strip`, `lower`, `upper`, `replace`, `split('.')[0]` and the header rules |
| `Numerals` | numerals.dfy | `str(int)` and the numerals `float()`/`to_numeric` read |
| `Frames` | frames.dfy | data frames as values, `to_numeric`, `to_datetime` |
| `DataLoader` | loader.dfy | `load_dataset` |
| `DataProcessor` | processor.dfy | `clean_coordinate` and `get_engine_data` |

Numbers are exact. Counts are integers and statistics are `real`s. No
square root is taken: "z > 3" is decided as "deviation > 0 and
deviation² > 9·variance", with denominators cleared. The rolling z-score's
`1e-6` is the exact rational 1/1000000. Dates are day numbers, so adding a
`timedelta` of k days is `+ k`.

Where the code does something stateful it is modelled as a method proved
against a specification function:

- `DetectAnomalies`, `ZScoreAudit` and `GetRollingAnomalies` build their
  columns row by row;
- `BurnUp` adds the cumulative and day-number columns;
- `LoadDataset` and `GetEngineData` overwrite frame columns step by step.

The properties are proved about the specification functions.

Where the code and the documented design differ, the model follows the code:

- Days saved (`pages/2_predictions.py:70-74`) is not clamped at zero. A
  boost below 1 yields zero or negative days (`SlowdownLosesDays`).
- The rolling window counts rows of the pincode, not calendar days.
- `detect_anomalies` has no minimum-sample floor: any non-empty profile is
  handed to the labeller.
- `predict_traffic` writes the converted dates back into the caller's table.

## Model

| member | source | states |
|---|---|---|
| Orders.StrLessIsStrictTotalOrder | modules/intelligence.py:15 | The pincode order used by group-by and sort is irreflexive, transitive and total |
| Sorting.SortBy | modules/intelligence.py:21 | The sorted table is ordered by the key and is a permutation of its input |
| Sorting.SortStable | modules/intelligence.py:46 | The sort is stable: the rows of a tie class (rows with equal sort keys) come out in their input order |
| Sorting.Keep | modules/intelligence.py:21 | Mask filtering keeps exactly the rows meeting the condition, each as often as it occurred |
| Sorting.SelectionMembership | modules/intelligence.py:21 | A filtered-then-sorted table holds exactly the input rows meeting the condition |
| Sorting.KeepNone | modules/intelligence.py:35 | Filtering by a condition no row meets leaves nothing |
| Grouping.GroupSum | modules/intelligence.py:15 | Group-by-sum gives keys strictly ascending, exactly the row keys, each key's total the sum over its rows, and the grand total preserved |
| Grouping.GroupSumAt | modules/intelligence.py:15 | Each group's total is the sum of the column over the rows with its key |
| Grouping.Canonical | modules/intelligence.py:15 | Two ascending group tables with the same keys and per-key totals are equal |
| Grouping.GroupSumPermutation | modules/intelligence.py:15 | The group-by result does not depend on input row order |
| Records.DailyTotals | modules/prediction.py:86 | One total per distinct date, ascending, each the sum of that date's rows, adding up to the column total; empty exactly for an empty table |
| Records.MinDate | modules/prediction.py:91 | The earliest date is a row's date and no row is earlier |
| Records.MaxDate | modules/prediction.py:115 | The latest date is a row's date and no row is later |
| Records.DailyDates | modules/prediction.py:86-91 | The daily table starts at the earliest and ends at the latest row date |
| Records.PincodeDateIsStrictOrder | modules/intelligence.py:46 | Ordering by (pincode, date) is a strict order |
| Records.SameReportTies | modules/intelligence.py:46 | The rows with one pincode and one date tie with each other and compare alike with every other row |
| Intelligence.Profile | modules/intelligence.py:15 | The profile has exactly one row per distinct pincode, in ascending pincode order, holding that pincode's column sum; the totals add up to the column total |
| Intelligence.ProfileOrderFree | modules/intelligence.py:15 | The profile does not depend on input row order |
| Intelligence.Anomalies | modules/intelligence.py:13-21 | Empty input gives nothing; otherwise the result is exactly the profile rows labelled -1, ordered by total descending |
| Intelligence.AnomaliesArePincodes | modules/intelligence.py:15-21 | Every reported outlier is a pincode of the input carrying its column sum |
| Intelligence.AnomaliesOrderFree | modules/intelligence.py:13-21 | Permuting input rows does not change the reported outliers |
| Intelligence.DetectAnomalies | modules/intelligence.py:7-21 | The method that scores the profile row by row returns the specified outliers |
| Intelligence.ZAudit | modules/intelligence.py:29-35 | With fewer than two pincodes or a zero spread the result is empty; otherwise it is exactly the pincodes with z > 3, by z descending |
| Intelligence.AboveThreeSigmaExactly | modules/intelligence.py:34-35 | z > 3 holds exactly when the scaled deviation is positive and (n-1)·d² > 9·Σd² |
| Intelligence.ZAuditUniform | modules/intelligence.py:30-32 | When every pincode has the same total the audit is empty |
| Intelligence.ZAuditAboveMean | modules/intelligence.py:34-35 | Every reported pincode's total is above the mean of the totals |
| Intelligence.ZAuditSmallGroup | modules/intelligence.py:30-35 | With ten or fewer pincodes the audit is always empty |
| Intelligence.ZAuditOrderFree | modules/intelligence.py:29-35 | Permuting input rows does not change the audit |
| Intelligence.ZScoreAudit | modules/intelligence.py:23-35 | The method computing the audit returns the specified result |
| Intelligence.ZScores | modules/intelligence.py:34 | The row-by-row z-score column equals the specified scores |
| Intelligence.Ordered | modules/intelligence.py:46 | Rows sorted by (pincode, date), a permutation of the input, and for every (pincode, date) its rows in their input order, as pandas' multi-column sort keeps them |
| Intelligence.DuplicateReportsKeepOrder | modules/intelligence.py:46 | Two reports of one pincode on one day keep their input order |
| Intelligence.Window | modules/intelligence.py:49-51 | A row's window holds 1 to `window` values, never reaches before its pincode's first row, and ends with the row's own value |
| Intelligence.WindowShape | modules/intelligence.py:46-51 | On sorted rows, row k is in row i's window exactly when it has i's pincode, is not after i and is fewer than `window` rows before it; the window counts rows, in date order |
| Intelligence.ReadingStatistics | modules/intelligence.py:50-54 | A reading's rolling average is the window mean, its rolling variance the sample variance (undefined for one value), and its flag the spike test |
| Intelligence.RollingAnomalies | modules/intelligence.py:43-57 | Empty input gives nothing; otherwise exactly the flagged readings of the rows in stable (pincode, date) order, latest date first |
| Intelligence.SpikeAboveMean | modules/intelligence.py:54-57 | A flagged value lies above its window mean, in a window of at least two values |
| Intelligence.FirstRowNotSpike | modules/intelligence.py:51-57 | A pincode's first row has an undefined rolling std and is never flagged |
| Intelligence.ConstantRunNotSpike | modules/intelligence.py:50-57 | A row whose window holds one repeated value is never flagged |
| Intelligence.SmallWindowNotSpike | modules/intelligence.py:50-57 | No value is flagged against a window of ten or fewer values |
| Intelligence.EarlyRowNotSpike | modules/intelligence.py:50-57 | Each pincode's first ten rows are never flagged, whatever the window |
| Intelligence.SmallWindowNoAnomalies | modules/intelligence.py:37-57 | With a window of ten rows or fewer nothing is ever reported |
| Intelligence.FlatThenJump | modules/intelligence.py:50-54 | For n equal values a followed by b, the last scaled deviation is n(b−a) and the squared deviation sum n(n+1)(b−a)² |
| Intelligence.JumpAfterFlatRunSpikes | modules/intelligence.py:50-57 | Thirteen values of 10 followed by 100 flag the last one |
| Intelligence.RollingReadings | modules/intelligence.py:49-51 | The per-pincode rolling pass over sorted rows yields the specified readings |
| Intelligence.WindowStarts | modules/intelligence.py:49-51 | The one-pass scan finds where each row's trailing window starts |
| Intelligence.GetRollingAnomalies | modules/intelligence.py:37-57 | The method returns the specified rolling anomalies |
| Intelligence.Reindexed | modules/intelligence.py:66 | The reindexed series has one entry per calendar day from the first date to the last |
| Intelligence.ReindexedTotal | modules/intelligence.py:66 | Zero-filling missing days keeps the grand total |
| Intelligence.DailySeries | modules/intelligence.py:66 | The daily series spans the earliest to the latest date, each entry that day's total, summing to the column total |
| Intelligence.DailySeriesGap | modules/intelligence.py:66 | A day with no rows holds 0 |
| Intelligence.Decompose | modules/intelligence.py:59-69 | A series goes to the decomposition exactly when the rows span at least 14 days (so never for an empty table), and it is the zero-filled daily series, keeping the column total |
| Stats.VarianceZero | modules/intelligence.py:30-32 | The squared deviation sum is zero exactly when all values are equal |
| Stats.SumScaled | modules/intelligence.py:30 | Deviations from the mean cancel out |
| Stats.CauchySchwarz | modules/intelligence.py:30-35 | (Σd)² ≤ n·Σd² |
| Stats.Samuelson | modules/intelligence.py:30-35 | Samuelson's inequality: n·dᵢ² ≤ (n−1)·Σd² for deviations that cancel, so no sample z exceeds (n−1)/√n |
| Stats.SmallSampleBound | modules/intelligence.py:30-35 | With 2 to 10 values no squared z-score exceeds 9 |
| Stats.AboveMean | modules/intelligence.py:34-35 | A positive scaled deviation means the value is above the mean |
| Stats.SlopeOfLine | modules/prediction.py:94-101 | The least-squares slope of points on a line is that line's slope |
| Stats.SlopeOfConstant | modules/prediction.py:94-101 | A constant response has slope zero |
| Stats.Trunc | modules/prediction.py:118 | `int()` rounds toward zero |
| Stats.TruncMonotone | modules/prediction.py:114-118 | Truncation keeps the order of non-negative values |
| Prediction.MaxOf | modules/prediction.py:108 | The maximum bounds every value |
| Prediction.BurnUpCurve | modules/prediction.py:88 | The cumulative column starts at the first daily sum, adds each day's sum and ends at the total |
| Prediction.BurnUpDays | modules/prediction.py:86-91 | Day numbers start at 0, strictly increase and end at the date span; the cumulative column ends at the column total |
| Prediction.MaxOfNondecreasing | modules/prediction.py:108 | A non-decreasing sequence has its last value as maximum |
| Prediction.CurrentTotal | modules/prediction.py:108-109 | With no negative daily sum the current total is the grand total |
| Prediction.Decide | modules/prediction.py:104-120 | The decision is never "no data"; Stalled exactly when the adjusted velocity is not positive; a completion date exactly when it is positive and the target is above the current total; a saturated or dated result carries the velocity; a completion date is never before the last date |
| Prediction.SaturationForecast | modules/prediction.py:76-82 | The result is "no data" exactly for an empty table or one without dates |
| Prediction.PredictSaturationDate | modules/prediction.py:76-120 | The method returns the specified forecast |
| Prediction.ForecastDaily | modules/prediction.py:86-120 | Building the curve, fitting and deciding gives the specified forecast |
| Prediction.Forecasting | modules/prediction.py:104-120 | The straight-line branches compute the specified decision |
| Prediction.BurnUp | modules/prediction.py:88-91 | The loop builds the cumulative and day-number columns |
| Prediction.CompletionAfterHistory | modules/prediction.py:114-120 | A completion date is never before the latest row date |
| Prediction.StalledWhateverTarget | modules/prediction.py:104-112 | The Stalled check comes first: a stalled velocity is reported whatever the total and target |
| Prediction.SaturatedWhenReached | modules/prediction.py:108-112 | With positive velocity and no negative daily sum, Already Saturated holds exactly when the total reaches the target |
| Prediction.TableSaturatedWhenReached | modules/prediction.py:108-112 | The same on the table, in terms of the column total |
| Prediction.CompletionDate | modules/prediction.py:114-118 | The completion date is last + n with n the largest whole number of days whose enrolments at the velocity do not exceed the remainder |
| Prediction.BoostMonotone | modules/prediction.py:102-118 | A larger positive boost never delays completion and never lowers the velocity |
| Prediction.TableBoostMonotone | modules/prediction.py:101-118 | The same for the fitted slope of a daily table |
| Prediction.NothingEnrolledStalls | modules/prediction.py:101-105 | All-zero daily sums give Stalled |
| Prediction.NoEnrolmentsStall | modules/prediction.py:101-105 | A table with no enrolments in the column gives Stalled |
| Prediction.SteadyRate | modules/prediction.py:94-101 | c enrolments on each of two or more consecutive days fit a velocity of c |
| Prediction.SteadyCampaign | modules/prediction.py:94-120 | Such a campaign short of its target completes ⌊remaining/c⌋ days after its last date, at velocity c |
| Prediction.WholeQuotient | modules/prediction.py:114-118 | Truncating the quotient of positive whole numbers is integer division |
| Prediction.BoostSavesDays | pages/2_predictions.py:66-74 | With a boost of at least 1, a completing baseline means a completing boosted forecast and days saved are never negative |
| Prediction.SlowdownLosesDays | pages/2_predictions.py:66-74 | With a boost between 0 and 1, a completing boosted forecast means a completing baseline, and days saved are never positive |
| Prediction.BurnTrend | modules/prediction.py:127-131 | Empty input or a missing column gives nothing; otherwise one row per distinct date, ascending, each that date's sum, adding up to the column total |
| Prediction.DailyCounts | modules/prediction.py:51 | Row counts per date, ascending, adding up to the row count |
| Prediction.CountDates | modules/prediction.py:63 | The daily counts end at the latest row date |
| Prediction.TrafficFrom | modules/prediction.py:63-74 | Exactly `days_to_predict` projections, dated last+1 … last+`days_to_predict` |
| Prediction.TrafficForecast | modules/prediction.py:45-46 | Empty or dateless input gives nothing |
| Prediction.TrafficDates | modules/prediction.py:63-64 | On a dated table, exactly `days_to_predict` projections dated the days after the latest row date |
| Prediction.PredictTraffic | modules/prediction.py:39-74 | The method returns the specified projection |
| Prediction.Project | modules/prediction.py:63-74 | The future-date loop produces the specified projections |
| Prediction.FittedFlat | modules/prediction.py:56-69 | A least-squares fit of constant counts predicts that constant |
| Prediction.FittedLine | modules/prediction.py:56-69 | A least-squares fit of counts on a line, at two or more dates, predicts that line |
| Prediction.FlatTraffic | modules/prediction.py:63-74 | Constant daily counts project that constant |
| Prediction.LinearTraffic | modules/prediction.py:63-74 | Daily counts on an integer line project along it exactly |
| Prediction.TrafficFlat | modules/prediction.py:45-74 | On the table: the same row count every date projects that count |
| Prediction.TrafficLine | modules/prediction.py:45-74 | On the table: row counts on a line over two or more dates project along it |
| Text.StripStart | modules/data_loader.py:115 | `lstrip` removes exactly the leading whitespace |
| Text.StripEnd | modules/data_loader.py:115 | `rstrip` removes exactly the trailing whitespace |
| Text.StripSlice | modules/data_loader.py:115 | `strip` keeps a slice with only whitespace around it |
| Text.StripIdempotent | modules/data_loader.py:115 | Stripping twice is stripping once |
| Text.NormalizeHeader | modules/data_loader.py:115 | The header rule leaves no space and no upper-case ASCII letter |
| Text.NormalizeHeaderIdempotent | modules/data_loader.py:115 | Applying the header rule twice equals applying it once |
| Text.NormalizeHeaderFixed | modules/data_loader.py:115 | A header already in normal form is unchanged |
| Text.NormalizeHeaders | modules/data_processor.py:20 | Every column name gets the header rule |
| Text.NormalizeHeadersIdempotent | modules/data_processor.py:20 | Re-normalising normalised headers changes nothing |
| Text.MappingHeader | modules/data_loader.py:134-135 | Mapping headers are stripped and lower-cased only; latitude/lattitude become lat and longitude becomes lon |
| Text.BeforeDot | modules/data_loader.py:146-147 | The text before the first '.', a prefix with no '.' |
| Text.CanonicalPincode | modules/data_loader.py:145-147 | A canonical pincode contains no '.' |
| Text.CanonicalPincodeIdempotent | modules/data_loader.py:145-147 | Canonicalising twice equals canonicalising once |
| Numerals.NatText | modules/data_loader.py:146 | `str(n)` is n's digits without leading zeros |
| Numerals.NumeralValue | modules/data_processor.py:11 | `float()` of a numeral is its value, negated by a leading minus |
| Numerals.NumeralInt | modules/data_loader.py:167 | An integer numeral reads as its value |
| Numerals.IntTextRoundTrip | modules/data_loader.py:167 | Printing an integer and reading it back gives the integer |
| Frames.MapColumn | modules/data_loader.py:167 | Replacing a column keeps the shape and column names |
| Frames.MapColumnAt | modules/data_loader.py:167 | Replacing a column changes that column cell by cell and nothing else |
| Frames.ToNumeric | modules/data_loader.py:139-140 | `to_numeric(errors='coerce')`: numbers pass unchanged, missing stays missing, text becomes missing exactly when it is not a numeral, and a numeral's value is an integer exactly when it has no fraction (typing per value, not per column) |
| Frames.AgeValueUnparsable | modules/data_loader.py:167 | A missing or non-numeric age value becomes 0 |
| Frames.AgeValueNumeral | modules/data_loader.py:167 | A numeral becomes its value rounded toward zero |
| Frames.AgeValueOfIntText | modules/data_loader.py:167 | An integer written as text is read back unchanged |
| Frames.ToDate | modules/data_loader.py:161 | `to_datetime(errors='coerce')` gives a date or missing and leaves dates and missing values alone |
| Frames.ToDateIdempotent | modules/data_processor.py:21-22 | Converting dates a second time changes nothing |
| DataLoader.Complete | modules/data_loader.py:143 | `dropna` keeps exactly the rows with both coordinates present |
| DataLoader.Lookup | modules/data_loader.py:150 | Lookup finds the first row with the key, or reports that none has it |
| DataLoader.Dedup | modules/data_loader.py:150 | After deduplication each key appears at most once and every key's first row survives |
| DataLoader.DedupKeepsFirst | modules/data_loader.py:150 | A deduplicated table finds the same first row for every input key |
| DataLoader.MatchesUnique | modules/data_loader.py:150-151 | With unique keys a key has at most one match |
| DataLoader.KeptRows | modules/data_loader.py:151 | Each left row, in order, followed by the coordinates of its match or by missing ones |
| DataLoader.MergeUnique | modules/data_loader.py:150-151 | A left merge against unique keys keeps every left row, in order, with its match's coordinates or missing ones |
| DataLoader.FirstThree | modules/data_loader.py:124-131 | `usecols=[0, 1, 2]` keeps the first three columns, and fails with fewer |
| DataLoader.MappingColumns | modules/data_loader.py:124-135 | The mapping's first three columns under the mapping header rule |
| DataLoader.NumericCoordinates | modules/data_loader.py:139-143 | After coercion and dropping, every surviving mapping row has numeric lat and lon |
| DataLoader.CleanMapping | modules/data_loader.py:124-143 | A cleaned mapping is usable: three columns including lat and lon, both numeric in every row |
| DataLoader.CanonicalKeys | modules/data_loader.py:146-147 | The key column rewritten, shape and names unchanged |
| DataLoader.MergedColumns | modules/data_loader.py:151 | Merged names: the main table's (own lat/lon suffixed `_x`), then lat and lon (suffixed `_y` on a clash) |
| DataLoader.MergedCoordinateOnce | modules/data_loader.py:151 | After the merge lat and lon each name at most one column |
| DataLoader.MergedColumnsNormalized | modules/data_loader.py:151 | Header-form names stay in header form through the merge |
| DataLoader.SuffixClashExactly | modules/data_loader.py:151 | The merge's suffixes clash exactly when two different main-table names would both be renamed to one (`lat` and `lat_x`, or `lon` and `lon_x`), the case where `pd.merge` raises MergeError |
| DataLoader.Join | modules/data_loader.py:150-151 | Without a suffix clash, the merge keeps the row count and has the merged column names |
| DataLoader.JoinRow | modules/data_loader.py:145-151 | Each merged row is the main row followed by the coordinates of the first usable mapping row with its pincode, or by missing cells |
| DataLoader.Merged | modules/data_loader.py:120-154 | The `try` block keeps the row count and yields either the unchanged column names or the merged ones; with a suffix clash the names stay unchanged |
| DataLoader.MergedSuffixClash | modules/data_loader.py:146-154 | With a suffix clash the merge raises and is caught: the table keeps its own columns, with canonical pincodes when the mapping was usable |
| DataLoader.MergedRow | modules/data_loader.py:145-151 | When every step succeeds (no suffix clash included), each row carries its canonical pincode and its first match's coordinates |
| DataLoader.MergeCoordinates | modules/data_loader.py:118-156 | The step-by-step merge computes the specified table |
| DataLoader.ParseDates | modules/data_loader.py:160-161 | Date parsing keeps shape and names |
| DataLoader.ParseDatesAt | modules/data_loader.py:160-161 | Only the date column changes, each cell converted |
| DataLoader.CoerceAge | modules/data_loader.py:166-167 | Age coercion keeps shape and names |
| DataLoader.CoerceAgeAt | modules/data_loader.py:166-167 | One coercion step changes only that band's cells, to their counts |
| DataLoader.CoerceAgesAt | modules/data_loader.py:164-167 | After the loop every age-band cell is its count and every other cell is unchanged |
| DataLoader.CoerceAgeColumns | modules/data_loader.py:164-167 | The loop over the age bands yields every present band coerced, in order |
| DataLoader.Typed | modules/data_loader.py:158-167 | Typing keeps shape and names |
| DataLoader.TypedAt | modules/data_loader.py:158-167 | Each cell after section 3: date parsed, age band counted, anything else unchanged |
| DataLoader.Normalized | modules/data_loader.py:115 | Main-table headers normalised, rows untouched |
| DataLoader.LoadedFrame | modules/data_loader.py:102-169 | No parquet file gives an empty frame; otherwise the row count is kept |
| DataLoader.LoadDataset | modules/data_loader.py:102-169 | The step-by-step loader computes the specified table |
| DataLoader.WithCoordinatesSingle | modules/data_loader.py:150-151 | The merge adds no second date or age-band column |
| DataLoader.LoadedColumnsNormalized | modules/data_loader.py:115-151 | All loaded column names are in header form |
| DataLoader.LoadedCell | modules/data_loader.py:158-167 | Each loaded cell: date parsed, age band counted, otherwise as merged |
| DataLoader.LoadedCoordinateOnce | modules/data_loader.py:151 | Loading leaves lat and lon each naming at most one column |
| DataProcessor.MatchAt | modules/data_processor.py:9 | A match starting at a position ends after it, on a digit |
| DataProcessor.MatchAtSound | modules/data_processor.py:9 | What `MatchAt` reports matches `[-+]?\d*\.\d+` or `\d+` |
| DataProcessor.MatchAtComplete | modules/data_processor.py:9 | Any match at a position is found, and the one reported is the longest |
| DataProcessor.SearchFrom | modules/data_processor.py:9 | The search reports the first matching position, or that none matches |
| DataProcessor.SearchLeftmostLongest | modules/data_processor.py:9 | `re.search` finds the leftmost match, the longest at that position, or nothing when the text holds no match |
| DataProcessor.SearchNone | modules/data_processor.py:9-10 | The search fails exactly when the text has no digit |
| DataProcessor.PatternNumeral | modules/data_processor.py:9-11 | A match of the pattern is a numeral `float()` accepts |
| DataProcessor.FoundNumeral | modules/data_processor.py:9-11 | What the search finds is such a numeral |
| DataProcessor.CleanCoordinate | modules/data_processor.py:6-13 | Missing and "" give 0.0; an int or float is returned as is; other text gives its first regex match read as a number, negated when the upper-cased text holds S or W, or 0.0 without a match |
| DataProcessor.CleanNumeral | modules/data_processor.py:9-13 | A whole-text match reads as its value, sign included |
| DataProcessor.CleanNoDigit | modules/data_processor.py:9-10 | Text without a digit gives 0.0 |
| DataProcessor.SignedIntegerLosesSign | modules/data_processor.py:9-11 | "-" followed by digits gives the positive value of the digits |
| DataProcessor.DirectionNegates | modules/data_processor.py:12 | A digit-free suffix naming S or W negates the value |
| DataProcessor.CleanNatText | modules/data_processor.py:9-11 | Decimal digits read as their value |
| DataProcessor.ExampleSignedDecimal | modules/data_processor.py:9-11 | "-12.5" gives -12.5 |
| DataProcessor.ExampleSignedInteger | modules/data_processor.py:9-11 | "-12" gives 12.0 |
| DataProcessor.ExampleTwoDots | modules/data_processor.py:9-11 | "1.2.3" gives 1.2 |
| DataProcessor.ExampleSouth | modules/data_processor.py:12 | "12.5 S" gives -12.5 |
| DataProcessor.ExampleSouthSigned | modules/data_processor.py:12 | "-12.5 S" gives 12.5 |
| DataProcessor.ExampleEast | modules/data_processor.py:12 | "10 East" gives -10.0 because "EAST" contains an S |
| DataProcessor.CleanColumn | modules/data_processor.py:23-26 | Cleaning a coordinate column keeps shape and names |
| DataProcessor.CleanColumnAt | modules/data_processor.py:23-26 | Only that column changes, each cell to its cleaned float |
| DataProcessor.EngineFrame | modules/data_processor.py:16-27 | An empty table gives an empty frame; otherwise headers normalised and the row count kept |
| DataProcessor.EngineCell | modules/data_processor.py:20-26 | Each engine cell: date parsed, coordinate cleaned, otherwise as loaded |
| DataProcessor.GetEngineData | modules/data_processor.py:16-27 | The step-by-step pass computes the specified table |
| DataProcessor.EngineOnNormalized | modules/data_processor.py:20-26 | On a table already normalised and parsed, only lat and lon cells change |
| DataProcessor.EngineOfLoaded | modules/data_processor.py:16-27 | On the loaded table the engine only cleans the coordinates |

## Left out

- Intelligence.Anomalies: promises the sort order and the row multiset but not the order of equal totals, because `sort_values` is not stable.
- Intelligence.ZAudit: promises the sort order and the row multiset but not the order of equal z-scores, for the same reason.
- Intelligence.RollingAnomalies: promises the sort order and the row multiset but not the order of rows on the same date, for the same reason.
- Sorting.SortBy: the insertion sort is stable, which is right for the multi-column sort of `get_rolling_anomalies`. For the single-column sorts pandas uses an unstable quicksort, so the members built on those promise only sortedness and permutation.
- Prediction.Decide: the completion date is an unbounded day number. `last_date + timedelta(days=...)` raises in Python past pandas' Timestamp range (year 2262) or past 999,999,999 days, and the model does not reproduce that error.
- Prediction.TrafficFrom: for `days_to_predict <= 0` the model gives an empty projection. The source builds an empty feature array there and `model.predict` raises.
- Prediction.TrafficDates: states the same empty projection for `days_to_predict <= 0`, where the source raises.
- Intelligence.RollingAnomalies: requires a window of at least 1 even for an empty table, which the source returns early for at any window. `GetRollingAnomalies` has the same requirement.
- DataLoader.LoadDataset: requires that no normalised header names the date column or an age band twice. `DataProcessor.GetEngineData` has the same requirement. A duplicate makes the source raise in `to_datetime` or `to_numeric`.
- DataLoader.Merged: follows pandas 2.x, where suffixes that duplicate a column raise `MergeError`. pandas 1.3 to 1.5 only warned and merged anyway. No version is pinned, and that older behaviour is not modelled.
- DataProcessor.EngineFrame: a non-empty table with two columns that normalise to `lat`, or two that normalise to `lon`, gets only the first cleaned and is returned. In the source, `df['lat']` is then a two-column frame, and `clean_coordinate`'s `pd.isna(coord) or ...` raises ValueError, which nothing catches. This happens when the mapping merge did not run to rename them, e.g. headers `Lat` and `lat` with no usable mapping file.
- DataProcessor.GetEngineData: returns a table in the same duplicated-`lat`/`lon` case, where the source raises ValueError.
- Prediction.PredictSaturationDate: requires the age column on a non-empty dated table, where the source raises KeyError.
- Prediction.BurnTrend: requires a `date` column once the age column is present, where the source raises KeyError.
- Frames.ToNumeric: types each value on its own. pandas types the whole column, so one fractional or unparsable cell makes every cell a float. The values agree, and the age coercion reads both forms alike.
- The isolation forest (`fit_predict`, `decision_function`, `contamination`, the seed 42). The labeller and the risk score are function parameters of the totals column.
- The STL decomposition itself (floating point). Only the daily reindexing, zero filling and the 14-day guard are modelled.
- Floating point in general. Statistics are exact rationals, `LinearRegression` is the closed-form slope, and `1e-6` is 1/1000000.
- The single-date fit: the slope is taken as 0, the minimum-norm least-squares answer. That case therefore reports Stalled.
- Dates are day numbers. `pd.to_datetime` parsing is a parameter `parse`, and printing a value with `astype(str)` is a parameter `show`.
- `predict_traffic` rebinding the caller's `date` column (`modules/prediction.py:50`). On day numbers the conversion is the identity (`Frames.ToDateIdempotent`), so only its result is modelled.
- File reading: `get_smart_path`, `read_parquet`, the `read_csv` options (`na_values`, `on_bad_lines`, the python engine). The two files are input frames, or None when absent.
- `st.cache_data`, and the `st.error`/`st.warning`/`st.info` messages. An exception caught in the `try` block is modelled as the table kept as it stood.
- DataProcessor.CleanCoordinate: `str.upper()` and `str.lower()` are modelled for ASCII only. Python also upper-cases 'ß' and 'ſ' to text containing 'S', which the model does not negate.
- `pd.to_numeric` and `float()` are modelled on the numerals `[+-]?(d+(.d*)?|.d+)`. Exponents, surrounding whitespace, `inf`, `nan`, underscores and non-ASCII digits are read as not numeric.
- Integer width: counts are unbounded integers, so the int64 overflow of `astype(int)` is not modelled.
- The dashboard pages, maps and charts (`app.py`, `main_dashboard.py`, `pages/`, `modules/map_utils.py`). The date/state filter funnel and the risk matrix's zero-filled left join are not modelled. Days saved is modelled.
- `convert_data.py`, a one-off CSV to Parquet conversion.
