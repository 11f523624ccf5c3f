# Hotel booking dashboard — a verified model of its data derivations

The dashboard (`hotel.py`) loads a table of hotel bookings and prepares it. It
fills null `children` cells with 0. It adds a `month_num` column from a fixed
English month-name dictionary. It adds `total_guests = adults + children + babies`.
It then computes four KPIs: the number of bookings, the cancellation rate, the
average daily rate (ADR) and the average stay. It labels every booking with a
cancellation status text. Finally it derives the inputs of its charts and its
table: bookings per month in calendar order, the ten most frequent origin
countries, the rows whose rate is below the outlier cutoff of 500, and a
100-row, nine-column preview. A missing data file is the only recognised
failure, and it stops the page before anything is computed.

This project models those derivations in Dafny:

- A table is a `seq<Booking>`. A null cell of a nullable column is `None` of an
  `Option`. The flag and the count columns are taken as never null (see "## Left out").
- The column assignments of `load_data` and the status label are methods.
  Each one loops over an array of rows and updates it in place. Each is
  specified by a per-row function whose contract says what changes and that
  nothing else does.
- The KPIs and the aggregations are functions over sequences. Lemmas state
  their properties: lookup exactness, null filling, sum identities,
  subsequence and idempotence of the filter, order and exact counts of the
  groupings, independence from row order, and bounds on the rate.
- The two library behaviours the script relies on are written out. A
  dictionary `Series.map` gives null for a missing key (`MonthNumber`,
  `StatusLabel`). `groupby` and `value_counts` drop rows whose key is null
  (`Selects` never selects a row with a null key).

Modules: `Wrappers` (Option, Result), `Bookings` (the record and per-row
lookups), `Counting` (row counts by selector), `Load` (`load_data` and the
missing-file failure), `Metrics` (KPIs), `Monthly`, `Countries` and `Views`
(the chart and table inputs), `Dashboard` (the script end to end), and
`Scenarios` (concrete tables).

## Model

| member | source | states |
|---|---|---|
| `Bookings.MonthNumber` | hotel.py:23-27 | a mapped month number lies in 1..12 and is the position of the name in the twelve English month names; a null or unknown name gives null |
| `Bookings.MonthNumberExact` | hotel.py:23-27 | a name maps to k exactly when it is the k-th month name: all twelve names are mapped, every other string (another case included) gives null rather than a default |
| `Bookings.MonthNamesDistinct` | hotel.py:23-26 | the twelve month names are pairwise different, so a month name determines its number |
| `Bookings.GuestTotal` | hotel.py:30 | the guest total is non-null exactly when adults, children and babies are all non-null, and then it is their sum |
| `Bookings.StatusLabel` | hotel.py:80 | flag 0 gives the check-out label, flag 1 the cancelled label, and any other value gives null |
| `Load.FillChildren` | hotel.py:20 | after filling, `children` is never null; a non-null value is kept, null becomes 0, and no other column changes |
| `Load.WithMonthNum` | hotel.py:27 | the row's month number becomes the dictionary lookup of its month name, and no other column changes |
| `Load.WithTotalGuests` | hotel.py:30 | the row's guest total becomes the null-propagating sum of adults, children and babies, and no other column changes |
| `Load.Prepare` | hotel.py:14-32 | a prepared row has non-null `children` (null filled with 0) and `month_num` equal to the dictionary lookup of its month name; `total_guests` is the null-propagating sum using the filled `children`, non-null whenever adults and babies are; all other source columns are unchanged |
| `Load.PrepareIdempotent` | hotel.py:14-32 | preparing an already prepared row yields the same row |
| `Load.FillChildrenColumn` | hotel.py:20 | the in-place column assignment replaces every row by its filled version, for every row of the table |
| `Load.AddMonthNumColumn` | hotel.py:27 | the in-place assignment sets every row's month number from its month name |
| `Load.AddTotalGuestsColumn` | hotel.py:30 | the in-place assignment sets every row's guest total |
| `Load.LoadData` | hotel.py:14-38 | a missing data file gives the `DataSourceMissing` failure and only then; otherwise the result is the source table with every row prepared, row count unchanged |
| `Metrics.Mean` | hotel.py:47-49 | the mean is null exactly for an empty column, and otherwise times the number of values equals their sum |
| `Metrics.MeanAtLeast` | hotel.py:48-49 | a mean is at least any lower bound of its values |
| `Metrics.MeanAtMost` | hotel.py:48 | a mean is at most any upper bound of its values |
| `Metrics.CancellationRate` | hotel.py:47 | the rate is null (NaN) exactly when the table is empty |
| `Metrics.CanceledSumIsCount` | hotel.py:47 | when every flag is 0 or 1, the sum of the flags is the number of cancelled rows |
| `Metrics.CancellationRateIsShare` | hotel.py:47 | on a non-empty table with 0/1 flags the rate is 100 times cancelled rows over all rows, and lies in [0, 100] |
| `Metrics.AdrColumn` | hotel.py:48 | the column of rates fed to the mean is empty exactly when every row's rate is null, and holds exactly the non-null rates of the rows (as a set) |
| `Metrics.AdrColumnMultiplicity` | hotel.py:48 | every rate occurs in the column as many times as there are rows with that rate, so the mean counts each row with a non-null rate exactly once |
| `Metrics.AverageAdr` | hotel.py:48 | the average rate is null exactly when no row has a non-null rate (null rates are skipped) |
| `Metrics.AverageAdrWithin` | hotel.py:48 | the average rate lies within any bounds of the non-null rates |
| `Metrics.AverageStayNights` | hotel.py:49 | the average stay is null exactly for an empty table |
| `Metrics.AverageStayNonNegative` | hotel.py:49 | with non-negative night counts the average stay is non-negative |
| `Counting.CountPermutation` | hotel.py:92 | the size of every group (any selector) depends only on the multiset of rows, not on their order |
| `Counting.CountPositive` | hotel.py:92 | a group is non-empty exactly when some row carries its key |
| `Monthly.MonthlyFromSorted` | hotel.py:92-94 | the groups of months k..12 come in strictly increasing month order |
| `Monthly.MonthlyFromRows` | hotel.py:92-94 | each listed group is a month whose key occurs, with the count of its rows that have a non-null `hotel` |
| `Monthly.MonthlyFromComplete` | hotel.py:92-94 | every month from k on whose key occurs is listed |
| `Monthly.MonthlyCounts` | hotel.py:92-94 | at most 12 rows; month numbers strictly increase, so each key appears once; each row's name is its month's name and its count is the number of rows with that key and a non-null `hotel` |
| `Monthly.MonthlyCountsGroups` | hotel.py:92 | a key (k, name) is listed exactly when some row has month number k and month name name; rows with a null key form no group |
| `Monthly.MonthlyCountsPermutation` | hotel.py:92-94 | reordering the rows does not change the monthly view |
| `Monthly.MonthlyCountsIgnoresUnmapped` | hotel.py:27 | adding a row whose month name is not in the dictionary does not change the monthly view |
| `Countries.CountriesInOrder` | hotel.py:112 | the distinct non-null countries of the table, each once, and exactly those that occur |
| `Countries.SortRankedOrders` | hotel.py:112 | the ranking sort orders by non-increasing count and keeps distinct countries distinct; it is a permutation of its input |
| `Countries.ValueCountsRanked` | hotel.py:112 | the value counts are ranked by count, list each country once with its exact number of rows, and include every country that occurs |
| `Countries.TopCountries` | hotel.py:112 | at most ten entries |
| `Countries.TopCountriesRanked` | hotel.py:112-113 | the top list has non-increasing counts and distinct countries; each count is the number of rows of that country and is positive; it has min(10, number of countries) entries; a country that is left out has no more rows than the tenth entry |
| `Views.FilterAdr` | hotel.py:122 | the filtered view is a subsequence of the table; every kept row has a non-null rate below 500; a row below the cutoff keeps its multiplicity, and a row at or above 500 or with a null rate is dropped |
| `Views.FilterAdrMembership` | hotel.py:122 | a row is in the view exactly when it is in the table and its rate is below 500 |
| `Views.FilterAdrIdempotent` | hotel.py:122 | filtering twice gives the same view as filtering once |
| `Views.Preview` | hotel.py:134-137 | the preview has min(100, row count) rows, and its i-th row is the nine selected columns of the table's i-th row, so it is a prefix |
| `Views.PreviewIgnoresTail` | hotel.py:137 | rows after the first hundred never affect the preview |
| `Dashboard.WithStatusText` | hotel.py:80 | the row gets the status label of its flag, and nothing else changes |
| `Dashboard.AddStatusTextColumn` | hotel.py:80 | the in-place assignment labels every row of the table |
| `Dashboard.RunDashboard` | hotel.py:34-137 | a missing data file yields the failure and no report; otherwise the booking count is the source row count, the KPIs are those of the prepared table, and the views are computed on the prepared, labelled table, whose month numbers agree with its month names |
| `Scenarios.ThreeBookingsOneCanceled` | hotel.py:46-47 | three bookings with flags 0, 1, 0 give a count of 3 and a rate of 100/3 |
| `Scenarios.NullChildrenCountAsZero` | hotel.py:20-30 | 2 adults, null children and 1 baby give 3 guests |
| `Scenarios.OutlierDropped` | hotel.py:122 | rates 50, 600, 200 leave the rows with 50 and 200 |
| `Scenarios.LowerCaseMonthUnmapped` | hotel.py:23-27 | "january" maps to null while "January" maps to 1 |

## Left out

- Rendering: the page setup, titles, markdown, metric tiles, layout columns, the data-table widget, the narrative blocks (hotel.py:146-156) and all Streamlit calls. They only display values.
- Null cells in `is_canceled`, `arrival_date_year`, `stays_in_weekend_nights`, `stays_in_week_nights` and `lead_time`: these columns are `int` in the model, so they are assumed non-null, as the data's 0/1 flag and integer counts are. With a null there, the library would skip the cell in `.mean()` (hotel.py:47, hotel.py:49), so the rate and the average stay would divide by the non-null count, and `.map` (hotel.py:80) would give a null flag a null label; none of that is modelled.
- Chart construction (pie, bars, line, box). This includes the per-label counting done inside the status bar chart (hotel.py:81) and the per-segment counting inside the market-segment chart (hotel.py:102). These happen in the plotting library; the model provides their inputs (the labelled table and the filtered table).
- Reading the CSV (hotel.py:16). The file is an input: `None` when it is missing, otherwise its rows already parsed into `Booking`s. Parse errors, missing columns and columns the script never reads are not modelled.
- The `@st.cache_data` memoisation (hotel.py:13). It returns the same table again, and the model is deterministic.
- Floating point. Rates and means are `real`, so rounding, NaN arithmetic and the display formats (`:,.0f`, `:.1f`, `:.2f`) are not modelled. `children` and `total_guests` are integers, although the dataframe holds them as floats because of the nulls.
- `Countries.TopCountries`: ties between equal counts are ranked in order of first appearance in the table (a stable sort). The library's own tie order is not specified, and the model does not prove that it agrees. The proved properties do not depend on tie order.
- `Monthly.MonthlyCounts`: requires that every row's `month_num` was assigned from its month name. This holds at hotel.py:92 because `load_data` assigned the column at hotel.py:27, and `RunDashboard` proves it for the table it groups. Groupings of arbitrary tables whose month numbers disagree with their names are not modelled.
- The `sort_values` algorithm (hotel.py:94) is not modelled. The grouped keys have distinct month numbers, so the order it produces is unique.
- The code labels any flag other than 0 or 1 with null; its own comment (hotel.py:79) mentions only 0 and 1. A monthly group is counted on the non-null `hotel` cells, so a group whose hotel cells are all null is listed with count 0.
