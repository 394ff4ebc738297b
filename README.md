# NYC taxi dashboard — verified model of the data pipeline

This project models the data pipeline behind the dashboard page of a Streamlit
application. The page shows the yellow-taxi trips of January 2024. The model
follows a trip table through four stages:

1. **Cleaning** (`load_data`). Rows outside January 2024 are dropped, and so are
   rows that have a null critical column or break one of the five value rules.
   Then four derived columns are added: duration, speed, pickup hour and weekday
   name.
2. **Enrichment**. Each row gets a pickup date, a payment label and a pickup
   zone and borough from a left join with the zone lookup. The weekday becomes a
   categorical ordered Monday to Sunday.
3. **Filtering** (sidebar). A date range, an hour range and a set of payment
   labels are combined by AND. The widgets start at values that keep every row.
4. **Aggregation and display**. The page computes:
   - five key metrics;
   - the ten busiest pickup zones;
   - the mean fare per hour;
   - the trip count per payment label;
   - a weekday × hour heatmap.

   When no trip passes the filters, the page stops with a warning instead.

Modules, one per file:

- `Wrappers`: the `Option` type.
- `Sequences`: order-preserving selection and the facts about it.
- `Calendar`: instants, hours, dates and weekday names.
- `Cleaner`: raw and cleaned records, the cleaning rules and the stepwise cleaning method.
- `Enricher`: payment labels, the zone join and the weekday codes.
- `FilterEngine`: the filter, its defaults and the single-date case.
- `Tally`: group-and-count, the basis of `value_counts` and `groupby().size()`.
- `Aggregates`: the four chart aggregations.
- `Dashboard`: `load_data`, the metrics and the page as a whole.

Representation choices:

- **Instants** are whole seconds counted from 2024-01-01 00:00, which was a Monday.
  - Dafny's `/` and `%` by a positive constant round toward minus infinity, as
    pandas does for dates and hours.
  - The January window is therefore `0 <= pickup < 31 * 86400`.
- **Money and distances** are mathematical reals.
- **Nullable columns** are `Option` values. A comparison with null (NaN) is
  false, so every rule requires its column to be present.
- **Data frames** are sequences of records, and a filter is an order-preserving
  selection. `load_data` rebinds `df` once per step, so `Cleaner.CleanFrame` does
  the same on a local sequence. It is proved equal to the function
  `Cleaner.Clean`, which every property is stated about.
- **Groupings** are computed as counts over the distinct keys, sorted by
  decreasing count. pandas promises no order among equal counts, so the model
  promises none either.

The heatmap has one row per `DAY_ORDER` weekday and one column per hour that
occurs in the view, not a full 7 × 24 grid. Only the weekday key is categorical
(`observed=False` at `pages/1_Dashboard.py` line 137), so only it contributes unobserved values; the
integer hour contributes only the hours present. An empty view pivots to an
empty table.

## Model

| member | source | states |
|---|---|---|
| Calendar.DayName | pages/1_Dashboard.py:87 | every weekday name a pickup gets is one of the seven names of `DAY_ORDER` |
| Calendar.DayCode | pages/1_Dashboard.py:104 | a name gets a categorical code exactly when it is in `DAY_ORDER`, and the code indexes that name; any other string becomes null |
| Calendar.ClockDecomposition | pages/1_Dashboard.py:86 | the pickup instant equals its date times 86400, plus its hour times 3600, plus an offset in [0, 3600) |
| Calendar.WeekdayProgression | pages/1_Dashboard.py:87 | 2024-01-01 is a Monday; the next day has the next weekday index modulo 7, and weekdays repeat every seven days |
| Calendar.DayCodeOfDayName | pages/1_Dashboard.py:104 | the categorical code of a pickup's weekday name is its weekday index, never null |
| Cleaner.KeptIsAllSteps | pages/1_Dashboard.py:70-80 | a row passes the seven masks in turn exactly when it meets the single rule `Kept` |
| Cleaner.WhereThenWhere | pages/1_Dashboard.py:70-80 | applying one list of masks after another is the same as applying both lists at once |
| Cleaner.Featurize | pages/1_Dashboard.py:83-87 | a kept row gets duration in minutes, speed (0 for zero duration, speed × hours = distance otherwise), pickup hour and weekday name, and dropping them gives the raw row back |
| Cleaner.AddFeatures | pages/1_Dashboard.py:83-87 | feature engineering keeps row count and order, and every row comes out well formed |
| Cleaner.Clean | pages/1_Dashboard.py:67-87 | the cleaned table is no longer than the raw one and each of its rows satisfies the cleaning rules and the feature definitions |
| Cleaner.CleanFrame | pages/1_Dashboard.py:67-87 | the step-by-step rebinding of the table, one mask per step followed by the features, computes exactly `Clean` |
| Cleaner.CleanOnlyRemovesRows | pages/1_Dashboard.py:70-80 | cleaning keeps raw rows in their order and removes a row exactly when it breaks a rule |
| Cleaner.CleanKeepsExactlyKeptRows | pages/1_Dashboard.py:70-80 | each raw row appears in the cleaned table as often as in the raw one if it meets the rules, otherwise not at all |
| Cleaner.CleanKeepsCleanRows | pages/1_Dashboard.py:70-80 | a raw table whose rows all meet the rules loses nothing |
| Cleaner.CleanIdempotent | pages/1_Dashboard.py:67-87 | cleaning the cleaned rows again changes nothing |
| Cleaner.FridayMorningTrip | pages/1_Dashboard.py:83-87 | a 2-mile, 15-minute trip picked up on Friday 2024-01-05 at 08:00 gets duration 15, speed 8 mph, hour 8 and "Friday" |
| Enricher.PaymentName | pages/1_Dashboard.py:97 | the payment label of any row is one of the seven `PAYMENT_MAP` labels or "Other" |
| Enricher.PaymentNameByCode | pages/1_Dashboard.py:19-27 | codes 0–6 get their `PAYMENT_MAP` label; every other code, and a null code, gets "Other" |
| Enricher.Enrich | pages/1_Dashboard.py:93-104 | enrichment keeps row count and order and leaves every trip record as it was |
| Enricher.ZoneJoinIsLeftJoin | pages/1_Dashboard.py:100-101 | the zone join keeps every row; a known pickup LocationID gets its zone and borough, an unknown one gets null for both |
| Enricher.EnrichedFieldsOfWellFormedRow | pages/1_Dashboard.py:93-104 | on a cleaned row the weekday code names the row's weekday, the pickup falls within the row's date and hour, and the date is a day of January |
| FilterEngine.DateBounds | pages/1_Dashboard.py:162-165 | a pair of dates gives that range; a single date gives the range from that date to itself |
| FilterEngine.Apply | pages/1_Dashboard.py:176-182 | the view holds exactly the rows that fall within the date range and hour range and have a selected payment label |
| FilterEngine.ApplyIsOrderPreservingSelection | pages/1_Dashboard.py:176-182 | the view is the subsequence of the table at exactly the positions that match the filter |
| FilterEngine.MinDate | pages/1_Dashboard.py:153 | the minimum pickup date is no later than any row's and is some row's date |
| FilterEngine.MaxDate | pages/1_Dashboard.py:154 | the maximum pickup date is no earlier than any row's and is some row's date |
| FilterEngine.PaymentOptions | pages/1_Dashboard.py:169 | the payment options are exactly the labels occurring in the table |
| FilterEngine.DefaultFilterKeepsEverything | pages/1_Dashboard.py:153-174 | a non-empty table has default widget values (and an empty one has none), and the defaults keep every row in order |
| FilterEngine.NoPaymentsNoRows | pages/1_Dashboard.py:181 | with no payment label selected the view is empty |
| FilterEngine.SingleDateKeepsThatDay | pages/1_Dashboard.py:162-165 | choosing one date keeps exactly that day's rows that pass the hour and payment filters |
| Tally.ValueCounts | pages/1_Dashboard.py:130 | one entry per distinct value, each counting that value's occurrences (all positive), sorted by decreasing count, with counts summing to the input length |
| Tally.TopCounts | pages/1_Dashboard.py:112-116 | at most n entries with correct counts, sorted by decreasing count; a key left out means n entries are shown, none with a smaller count |
| Aggregates.ZoneKeysCount | pages/1_Dashboard.py:112-113 | the group size of a (zone, borough) pair is the number of rows whose zone and borough are both present and equal that pair |
| Aggregates.TopZones | pages/1_Dashboard.py:109-117 | at most ten (zone, borough) pairs, each with its true trip count, descending, with no omitted pair busier than a shown one |
| Aggregates.HourlyMeanFare | pages/1_Dashboard.py:119-126 | one entry per pickup hour occurring in the view, in ascending hour order, each holding the mean fare of that hour's trips |
| Aggregates.FaresAtOccurringHour | pages/1_Dashboard.py:122-123 | an hour that some row has gets a non-empty list of fares |
| Aggregates.HourlyMeanWithinFareRange | pages/1_Dashboard.py:119-126 | on cleaned rows every hourly mean fare lies in [0, 500] |
| Aggregates.MeanWithin | pages/1_Dashboard.py:123 | the mean of values within bounds is within the same bounds |
| Aggregates.MeanStrictlyWithin | pages/1_Dashboard.py:202 | the mean of values strictly within bounds is strictly within them |
| Aggregates.PaymentNamesCount | pages/1_Dashboard.py:130 | a label occurs as often in the label column as there are rows carrying it, and occurs at all exactly when some row carries it |
| Aggregates.PaymentCounts | pages/1_Dashboard.py:128-132 | one entry per label occurring in the view, each with its true positive count, descending, with counts summing to the number of rows |
| Aggregates.RowsPayingOwnLabel | pages/1_Dashboard.py:130 | every row counts towards the entry of its own label |
| Aggregates.WeekdayHourHeatmap | pages/1_Dashboard.py:134-141 | rows are the seven weekdays in `DAY_ORDER` (none if the view is empty); columns are the occurring hours in ascending order; each cell counts the trips of that weekday and hour, 0 where there are none |
| Aggregates.HeatmapCountsEveryRow | pages/1_Dashboard.py:134-141 | when every row has a weekday the heatmap cells add up to the number of rows |
| Dashboard.LoadData | pages/1_Dashboard.py:52-106 | a cached cleaned table is enriched as it is; without one the raw table is cleaned and then enriched, giving at most as many rows as the raw table, all well formed |
| Dashboard.FreshRowsAreConsistent | pages/1_Dashboard.py:67-104 | every row built from the raw table is well formed, has a non-null weekday code matching its weekday name, a known payment label and a January date |
| Dashboard.KeyMetrics | pages/1_Dashboard.py:194-204 | the trip count is the number of rows in the view; average fare, distance and duration each times the trip count give that column's sum; total revenue is the sum of the amounts present |
| Dashboard.TotalRevenueIsSumOfPaid | pages/1_Dashboard.py:200 | the revenue equals the sum of the total amounts of exactly the rows that have one, null amounts being skipped |
| Dashboard.TotalRevenueConcat | pages/1_Dashboard.py:200 | the revenue of a view split in two parts is the sum of the parts' revenues |
| Dashboard.KeyMetricsOfCleanedRows | pages/1_Dashboard.py:196-204 | on cleaned rows the average fare lies in [0, 500], the average distance in (0, 50), and the average duration is not negative |
| Dashboard.Render | pages/1_Dashboard.py:185-212 | the page stops exactly when the view is empty; otherwise the trip count is the view's size and positive, the payment counts add up to it, at most ten zones are shown, and the heatmap rows are the seven weekdays |
| Dashboard.EmptyViewAggregates | pages/1_Dashboard.py:109-141 | over an empty view every aggregation is empty |
| Dashboard.NoPaymentSelectedStops | pages/1_Dashboard.py:181-189 | with no payment label selected the page shows the warning instead of the panel |
| Dashboard.DefaultPanelCoversAllTrips | pages/1_Dashboard.py:153-212 | freshly cleaned, non-empty data under untouched widgets gives a panel over every trip, and its heatmap cells add up to the trip count |

## Left out

- `download_file`, reading and writing Parquet and CSV files, and the creation of directories: file and network I/O. The raw trips, the zone lookup and the optional cached table are the parameters of `LoadData`.
- `st.cache_data`: memoisation does not change any result.
- The freshness of the cached cleaned file: the source trusts it without checking, and so does `LoadData`.
- The Streamlit widgets, the charts, the tabs, the text, and number formatting of the metrics: presentation only. `app.py` is not part of this model.
- IEEE floating point: money, distance, duration and speed are exact reals.
  - Speed is the one textual infinity case. The source replaces an infinite speed with 0, and the model states 0 for a zero duration.
  - No NaN can arise, because distance is positive after cleaning.
- Timestamps finer than a second: instants are whole seconds.
- Columns nothing downstream reads (vendor, rate code, tips, tolls and the like): they are not part of the records.
- A zone lookup file with a repeated LocationID: the source's merge would duplicate rows, but the lookup is modelled as a map, so every ID is unique.
- Tally.ValueCounts: the order among labels with equal counts is not stated, because pandas does not promise one.
- Tally.TopCounts: which of several equally busy groups makes the top ten is not stated, for the same reason.
- The date widget's one-date tuple, handed back while a range is half picked: only a full pair and a single date are modelled.
- The alphabetical order of the payment options: the widget's options are modelled as a set, since order changes no filter result.
- The defaults of an empty table (which has no minimum or maximum date): `DefaultFilter` gives `None`.
