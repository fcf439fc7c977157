# LakeHouseFinale pipeline, modelled in Dafny

The demo runs a small bronze/silver/gold lakehouse. `create_bronze_data` writes seven
raw orders. `bronze_to_silver` cleans them with one `SELECT … WHERE`.
`silver_to_gold` aggregates the clean rows per day and country with one
`GROUP BY … ORDER BY`. `run_analytics` reports per-product totals and a KPI row.
This project models what those SQL statements compute. They become pure functions
over sequences of typed records, and lemmas prove what the queries promise.

- `Orders` (`orders.dfy`): the raw record and the clean record. Money amounts are
  integers. A raw `country` and `unit_price` may be NULL (`Option`).
- `Text` (`text.dfy`): `TRIM` and the ascending order on VARCHAR values.
- `Silver` (`silver.dfy`): the cleaning query. The WHERE clause is evaluated in SQL's
  three-valued logic, and a row is kept only when it evaluates to TRUE. Kept rows go
  through the SELECT list. Dropped rows are never repaired.
- `Grouping` (`grouping.dfy`): a generic `GROUP BY key ORDER BY key` with `COUNT(*)`,
  `SUM(qty)` and `SUM(revenue)`. It inserts rows one at a time into a list kept
  strictly sorted by key. Lemmas prove three things about the result:
  - it is the SQL grouping (each group holds the count and the sums of the rows with
    its key, and only keys that occur appear);
  - it is the only sorted list with those groups;
  - it does not depend on the order of the input rows.
- `Gold` (`gold.dfy`): the aggregation query. The key is (day, country), ordered by
  day and then by country.
- `Analytics` (`analytics.dfy`): the "Top Products" query (`GROUP BY product … ORDER
  BY revenue DESC`) and the KPI row (`SUM(revenue)`, `COUNT(*)`).
- `Bronze` (`bronze.dfy`): the fixed seven rows, and lemmas that compute the silver,
  gold, product and KPI results for them.

`ORDER BY 1, 2` sorts "TR" before "US" on 2026-01-03, so `Bronze.DemoGold` proves the
order TR, US.

## Model

| member | source | states |
|---|---|---|
| Text.TrimStart | demo.py:47-48 | dropping leading spaces yields no longer a string that is empty or starts with a non-space |
| Text.TrimEnd | demo.py:47-48 | dropping trailing spaces yields no longer a string that is empty or ends with a non-space, and keeps the first character |
| Text.TrimStartIsSuffix | demo.py:47-48 | what is left after dropping leading spaces is a suffix of the input, and everything dropped is a space |
| Text.TrimEndIsPrefix | demo.py:47-48 | what is left after dropping trailing spaces is a prefix of the input, and everything dropped is a space |
| Text.Trim | demo.py:47-48 | `TRIM` returns a string no longer than its input, with no space at either end |
| Text.TrimIsInfix | demo.py:47-48 | `TRIM(s)` is the infix of `s` between a leading and a trailing run of spaces: only spaces are removed, and only at the ends |
| Text.TrimKeepsTrimmed | demo.py:47-48 | `TRIM` leaves a string with no space at either end unchanged |
| Text.TrimIdempotent | demo.py:47-48 | trimming twice gives the same result as trimming once |
| Text.TrimStartEmptyIffBlank | demo.py:55 | dropping leading spaces leaves nothing exactly when the string is all spaces |
| Text.TrimEndKeepsFirst | demo.py:55 | dropping trailing spaces from a string that starts with a non-space leaves something |
| Text.TrimEmptyIffBlank | demo.py:55 | `TRIM(s) = ''` holds exactly when `s` consists only of spaces (both directions) |
| Text.StrLess | demo.py:79 | the ascending VARCHAR order never puts a string before itself |
| Text.StrLessTransitive | demo.py:79 | the ascending string order is transitive |
| Text.StrLessTotal | demo.py:79 | any two distinct strings are ordered one way or the other |
| Silver.And | demo.py:53-55 | SQL `AND` is TRUE exactly when both sides are TRUE, and FALSE exactly when either side is FALSE (UNKNOWN otherwise) |
| Silver.TrimNullable | demo.py:47 | `TRIM` of a NULL country is NULL, and of a present one is present. A present result has no space at either end, is no longer than its input, and is empty exactly when the input is all spaces |
| Silver.NullIfEmpty | demo.py:47 | `NULLIF(x, '')` is NULL exactly when `x` is NULL or empty, and otherwise is `x` |
| Silver.Where | demo.py:53-55 | under three-valued logic the WHERE clause is TRUE exactly when qty > 0, unit_price is present, and country is present and not all spaces. It is UNKNOWN exactly when the other tests pass and country is NULL, so that row is dropped too |
| Silver.CleanRow | demo.py:42-55 | a raw row is kept exactly when it is valid. A kept row has the raw order_id, ts, qty and unit_price, the trimmed country (present and non-blank), the trimmed product, and revenue = qty × unit_price |
| Silver.BronzeToSilver | demo.py:42-56 | the clean table has no more rows than the raw one, and every clean row satisfies the silver invariant: qty > 0, country present, non-empty and trimmed, product trimmed, revenue = qty × unit_price |
| Silver.KeptIndices | demo.py:53-55 | the positions of kept raw rows are strictly ascending, each one is a valid row, and every valid row's position is listed |
| Silver.SilverIsImageOfKeptRows | demo.py:42-56 | the clean table has as many rows as there are kept raw rows, and clean row j is the cleaned image of the j-th kept raw row (KeptIndices[j], strictly ascending). So clean positions map one-to-one and in order onto kept raw positions: rows are neither invented, merged, reordered nor repaired |
| Silver.SilverMembership | demo.py:42-56 | a record is in the clean table exactly when some raw row cleans to it (both directions) |
| Silver.CleanRowOfClean | demo.py:42-55 | cleaning a row that already satisfies the silver invariant returns that row unchanged |
| Silver.CleanOfCleanRows | demo.py:42-56 | cleaning a whole table of already clean rows returns that table unchanged |
| Silver.SilverIdempotent | demo.py:42-56 | running the cleaning stage again on its own output changes nothing |
| Grouping.Insert | demo.py:78 | adding one row to the groups adds at most one group and removes none |
| Grouping.GroupBy | demo.py:78 | `GROUP BY` yields no more groups than rows, and at least one group when there is a row |
| Grouping.MatchingIsFilter | demo.py:78 | the rows of group k are exactly the input rows whose key is k |
| Grouping.Find | demo.py:78 | looking up a key finds a group with that key among the groups, and finds none exactly when no group has that key |
| Grouping.InsertFind | demo.py:74-79 | adding a row keeps the groups strictly sorted and changes only the group of its key, by one row, its qty and its revenue |
| Grouping.GroupByFind | demo.py:74-79 | the grouping is strictly sorted by key. For every key it holds exactly the SQL group: none when no row has the key, otherwise COUNT(*), SUM(qty) and SUM(revenue) of those rows |
| Grouping.GroupByGroups | demo.py:74-78 | each output group is the count, qty sum and revenue sum of the rows with its key, and counts at least one row |
| Grouping.GroupByKeys | demo.py:78 | the output keys are exactly the keys that occur among the input rows |
| Grouping.GroupByCorrect | demo.py:74-79 | one output row per distinct key, in strictly ascending key order, keys exactly those of the input, each row holding its group's count (≥ 1) and sums |
| Grouping.InsertTotals | demo.py:74-76 | adding a row raises the total count by 1, the total units by its qty and the total revenue by its revenue |
| Grouping.GroupByTotals | demo.py:74-76 | summed over all groups, the counts equal the number of rows, and the units and revenue equal the totals over all rows |
| Grouping.SumQtyAtLeastCount | demo.py:53 | a sum of quantities that are all positive is at least the number of rows |
| Grouping.UnitsAtLeastCount | demo.py:53 | when every qty is positive, every group's units_sold is at least its order_count, which is at least 1 |
| Grouping.SortedLookupDetermines | demo.py:78-79 | two strictly sorted group lists that agree on every key lookup are equal |
| Grouping.GroupByUnique | demo.py:78-79 | any strictly sorted list holding the SQL group of every key is the grouping, so the grouping is fully determined |
| Grouping.GroupOfCons | demo.py:74-78 | adding a row in front changes only the group of that row's key, and only by that row |
| Grouping.GroupOfMoveFront | demo.py:74-78 | moving a row to the front changes no group |
| Grouping.GroupOfWithout | demo.py:74-78 | two row lists that agree once the same row is removed from each also agree with it |
| Grouping.GroupOfPermutation | demo.py:74-78 | rearranging the input rows leaves every key's count and sums unchanged |
| Grouping.GroupByPermutation | demo.py:77-79 | the grouping depends only on which rows are read, not on their order |
| Gold.KeyLess | demo.py:79 | `ORDER BY 1, 2` orders by day first, and by country when the days are equal; no key sorts before itself |
| Gold.DayKeyOfIgnoresTime | demo.py:72-73 | two silver rows fall into the same gold row exactly when they have the same date and the same country, whatever their time of day |
| Gold.KeyLessIsStrictTotalOrder | demo.py:79 | ordering by (day, country) is a strict total order, with NULL country last |
| Gold.SilverToGold | demo.py:69-80 | the gold rows are strictly ascending by (day, country), with exactly the pairs present in silver, each holding COUNT(*) ≥ 1, SUM(qty) and SUM(revenue) of its rows. The totals of order_count, units_sold and total_revenue equal the row count, qty total and revenue total of silver |
| Gold.PipelineRows | demo.py:53-55 | every gold row computed from the cleaning stage's output has a present, non-empty, trimmed country, and units_sold ≥ order_count ≥ 1 |
| Gold.GoldIgnoresRowOrder | demo.py:77-79 | the gold table is the same whatever order the silver rows are read in |
| Analytics.StrLessIsStrictTotalOrder | demo.py:109 | the product order used for grouping is a strict total order |
| Analytics.InsertByRevenue | demo.py:110 | inserting a group into the revenue-ordered list makes it one longer |
| Analytics.ByRevenueDesc | demo.py:110 | `ORDER BY revenue DESC` keeps the number of rows |
| Analytics.InsertByRevenuePermutes | demo.py:110 | inserting a group into the revenue-ordered list adds exactly that group |
| Analytics.InsertByRevenueSorted | demo.py:110 | inserting a group keeps the list in non-increasing revenue order |
| Analytics.InsertByRevenueDistinct | demo.py:110 | inserting a group with a new key keeps the keys distinct |
| Analytics.ByRevenueDescPermutes | demo.py:110 | `ORDER BY revenue DESC` returns the same groups, each as often as before |
| Analytics.ByRevenueDescSorted | demo.py:110 | `ORDER BY revenue DESC` lists the groups by non-increasing revenue |
| Analytics.ByRevenueDescDistinct | demo.py:110 | groups with distinct products stay distinct after reordering |
| Analytics.TopProducts | demo.py:103-110 | the report has no more rows than there are silver rows, and at least one when there is a silver row |
| Analytics.TopProductsCorrect | demo.py:103-110 | the report lists each product of the silver rows exactly once, with SUM(qty) and SUM(revenue) of that product's rows, by non-increasing revenue |
| Analytics.KpiOf | demo.py:116-121 | the query has no GROUP BY, so there is always one KPI row. Its total revenue is NULL exactly when there are no silver rows, as `SUM` over no rows is NULL. Otherwise it equals the sum of the gold rows' total_revenue and of the product rows' revenue. clean_orders equals the sum of the gold rows' order_count, which is 0 for no rows |
| Bronze.BronzeRows | demo.py:25-33 | the fixed data has seven raw orders, with ids 1 to 7 in file order |
| Bronze.DemoSilver | demo.py:25-33 | the fixed data keeps orders 1, 2, 6 and 7, with revenues 1200, 700, 3300 and 4000 |
| Bronze.GoldOfExpectedSilver | demo.py:69-80 | grouping those four rows gives (2026-01-01, TR, 2, 3, 1900), (2026-01-03, TR, 1, 1, 4000), (2026-01-03, US, 1, 3, 3300) |
| Bronze.DemoGold | demo.py:25-33 | the fixed data yields exactly those three gold rows, in that order |
| Bronze.ProductsOfExpectedSilver | demo.py:103-110 | the product report of those four rows is Keyboard (4 units, 4500), Monitor (1, 4000), Mouse (2, 700) |
| Bronze.DemoTopProducts | demo.py:25-33 | the fixed data yields that product report |
| Bronze.DemoKpi | demo.py:116-121 | the fixed data's KPI row is 9200 revenue (not NULL) over 4 clean orders |

## Left out

- Directory creation, file paths, the CSV write through pandas, and the Parquet reads
  and writes through DuckDB (demo.py:6-18, 34, 57-61, 81-85, 97) are file I/O. Each
  stage is modelled as a function from the previous stage's rows to its own rows.
- DuckDB connections and `read_csv_auto` type inference (demo.py:41, 52, 68, 92) are
  library behaviour. Raw rows are already-typed records. An empty `country` field may
  be read as NULL or as `''`; the model handles both, and both rows are dropped.
- `order_id`, `ts` and `product` are never NULL in the model (`RawOrder` has no NULL for
  them). In SQL a row with one of them NULL would still pass the WHERE clause, which does
  not test them, and would be kept with that NULL. The fixed data has no such row.
- Casts that can fail, for example a non-numeric qty or a qty outside 32 bits for
  `CAST(qty AS INTEGER)` (demo.py:45-50), are DuckDB runtime errors, so they are not
  modelled. Integers are unbounded.
- Timestamp parsing and `date_trunc` (demo.py:46, 72) are not modelled. A timestamp is
  an already-parsed (date, time of day) pair, and its day is the date part.
- Floating-point arithmetic is not modelled. Prices, revenue and sums are exact
  integers (the demo's prices are whole numbers). So `ROUND(…, 2)` (demo.py:76, 107,
  118) is the identity here.
- Analytics.KpiOf: does not compute `avg_order_value` (`ROUND(AVG(revenue), 2)`,
  demo.py:120), because it is a floating-point division with unspecified rounding.
- `SumQty` and `SumRevenue` give 0 for no rows, where SQL's `SUM` is NULL. They agree
  with SQL's `SUM` on every non-empty list, and every gold or product group is non-empty.
  The one empty `SUM` of the queries, the KPI's revenue over an empty silver table, is
  NULL in the model (`Analytics.KpiOf`).
- Analytics.TopProductsCorrect: states the order only as non-increasing revenue. SQL
  leaves the order of products with equal revenue open, and the model's tie order is
  one arbitrary choice.
- `TRIM` is modelled as stripping only the space character `' '` from both ends. Other
  whitespace that DuckDB's `TRIM` may also strip (for example U+00A0) is not modelled.
- NULL countries sort last in `ORDER BY`, which is DuckDB's default. Output from the
  cleaning stage never has a NULL country (`Gold.PipelineRows`).
- The clean table keeps the raw row order. The SQL without `ORDER BY` does not promise
  this, but DuckDB preserves insertion order by default. The gold table does not depend
  on it (`Gold.GoldIgnoresRowOrder`).
- All printing and `to_string` formatting in `run_analytics` (demo.py:94-123) is
  console output. The gold scan at demo.py:95-99 only prints the stored table.
