# causely attribution engine — a Dafny model

causely explains why revenue, cost and profit differ between a "today" date
and a comparison date. This project models its computational core and
proves properties of that model:

- **WoE / IV evaluator** (`woe_iv.py`, module `WoeIv`). It bins each column
  (quantile intervals, or one bin per stringified value) and counts N,
  Events and Non-Events per bin. It then takes the 0.5-smoothed percentage
  shares and sums `(PCT_of_E − PCT_of_NE)·ln(PCT_of_E / PCT_of_NE)` into an
  Information Value. The outer loop over the columns is a method with loop
  invariants.
- **Metric registry** (`metrics.py`, modules `Metrics` and `DailyMetrics`).
  The registry is a class whose `metrics` map and registration `order`
  change in `Register`. It rejects invalid and duplicate metrics, lists
  metrics sorted, and evaluates dependency-first with a per-call memo cache.
  It also holds the per-day metric compute functions and the default
  registry.
- **Report tables, ranking and drill-down** (`report_tables.py`, modules
  `ReportTables`, `IvRanking` and `DrillDown`):
  - the key-metric and cost-detail tables of the two dates, and the sales
    detail tables by channel, ad and influencer;
  - the membership rules for identifier values;
  - the binary and decile IVs and the stable descending factor ranking;
  - the threshold filter, the top-N detail tables and the two-row summary
    tables;
  - the percent-change rule of the components handed to the report writer.
- **Evidence packet** (`core.py` `build_evidence`, module `Evidence`):
  - today-versus-yesterday KPIs;
  - the top-5 influencers by net-sales growth, "NONE" excluded;
  - the top-5 products whose refunds worsened, each with its top-3 refund
    reasons.

Support modules:

- `Wrappers` holds `Option` and `Result`.
- `Seqs` holds distinctness, counting, `Take` (head) and a stable insertion
  sort with its permutation, order and stability lemmas.
- `Text` holds strip, ASCII upper-casing, lexicographic order, sorted sets
  and decimal rendering.
- `Tables` holds the typed tables, row filters, sums and group-by.

Tables are records whose `cols` set says which columns exist. A missing
column is therefore an explicit case. Timestamps are day numbers, and the
comparison day of `build_evidence` is `today - 1`. Group-by is a sequence of
(key, amount) entries summed per key (`Tables.KeyTotal`, `Tables.GroupSum`).

Where the behaviour of the code differs from its own documentation, the
model follows the code:

- The percent change is 0 when the comparison value is 0
  (`report_tables.py:571`).
- The refund detail table is sorted ascending, so the most negative value
  comes first (`report_tables.py:457`), although its docstring says
  descending.
- A label that is the same on every row does not force IV = 0. Only a
  column that falls into a single bin does (`WoeIv.SingleBinIvZero`).
- Cost binning with `bins = 2` yields a single breakpoint, so its IV is 0
  (`report_tables.py:331`).
- The key-metric table's ad cost is 0 unless the ad table has a `date`
  column, even when it has `event_ts` (`report_tables.py:53`). The
  cost-detail table has no such rule (`ReportTables.TotalCostsDisagree`).
- For an ad or influencer table dated by `date` alone, the key-metric table
  compares the column as it is loaded (`report_tables.py:63`, `:78`),
  while the cost-detail table parses it first (`report_tables.py:220`,
  `:235`). Loaded from CSV the column holds text, which equals no date, so
  the key-metric table counts 0 where the cost-detail table counts the
  cost. `CostTable.dateParsed` records whether the dates are parsed
  (`ReportTables.TextDatedCostsDisagree`).
- The IV membership flag upper-cases the unstripped value, while the detail
  tables strip first. A value such as `" none"` therefore counts as a
  member for the IV but is null in the detail tables
  (`ReportTables.MemberNotKept`).

## Model

| member | source | states |
|---|---|---|
| WoeIv.IntervalOfBounds | report_tables.py:333 | with increasing breakpoints, bin i holds exactly the values with e[i-1] < x <= e[i] (right-closed intervals, ±inf outer bounds) |
| WoeIv.BinKeys | woe_iv.py:23-30 | a numeric column with more distinct values than `bins` is cut into quantile intervals; any other column puts each row in the bin of its own (stringified) value |
| WoeIv.EventsAtMostCount | woe_iv.py:33-34 | a bin's label-1 count never exceeds its row count |
| WoeIv.BinCounts | woe_iv.py:33-34 | each bin's N is the number of rows in it and Events the number of its label-1 rows |
| WoeIv.BinTable | woe_iv.py:33-36 | every bin of the group-by has 0 <= Events <= N |
| WoeIv.SmoothedPositive | woe_iv.py:39-40 | the smoothed denominators Σ(Events+0.5) and Σ(Non_Events+0.5) are positive over a non-empty bin list |
| WoeIv.RowsOf | woe_iv.py:39-43 | one WoE row per bin, each computed from its own counts and the column's two denominators |
| WoeIv.WoeOfKeysCounts | woe_iv.py:33-36 | every WoE row carries the column name, 0 <= Events <= N and Non_Events = N − Events |
| WoeIv.RowOfFields | woe_iv.py:34-36 | a WoE row holds its bin as Cut_off, its counts, and Non_Events = N − Events |
| WoeIv.CountsPartition | woe_iv.py:33-34 | over duplicate-free bins covering every row, the bin sizes add up to the row count and the bins' Events to the label-1 count |
| WoeIv.BinsPartitionRows | woe_iv.py:33-34 | the bins of a column partition its rows: Σ N = row count and Σ Events = number of label-1 rows |
| WoeIv.VarWoeBins | woe_iv.py:33-34 | the WoE rows of a column are its distinct bins, each with its row count and label-1 count |
| WoeIv.SharesSum | woe_iv.py:39-40 | the PCT_of_E shares add up to the share of Σ(Events+0.5), and likewise for PCT_of_NE |
| WoeIv.SharesPositiveAndSumTo100 | woe_iv.py:39-40 | for a column with rows, every PCT_of_E and PCT_of_NE is positive and each adds up to 100 |
| WoeIv.BinTermNonNegative | woe_iv.py:42-43 | for any ln with sign(ln x) = sign(x − 1), (p − q)·ln(p/q) >= 0, and > 0 when p ≠ q |
| WoeIv.IvTotalNonNegative | woe_iv.py:45 | a sum of non-negative IV terms is non-negative, and positive when one term is |
| WoeIv.VarWoeTerms | woe_iv.py:42-43 | every WoE row's WoE and IV are computed from its own two shares |
| WoeIv.IvNonNegative | woe_iv.py:42-45 | a column's IV is >= 0, and > 0 as soon as one bin's PCT_of_E differs from its PCT_of_NE |
| WoeIv.VarWoeEmpty | woe_iv.py:33 | a column without rows has no bins |
| WoeIv.SingleBinIvZero | woe_iv.py:39-45 | a column whose rows all fall into one bin has PCT_of_E = PCT_of_NE = 100, WoE = 0 and IV = 0 |
| WoeIv.AllIvAt | woe_iv.py:17-48 | the IV table has exactly one row per input column, in column order, holding that column's IV |
| WoeIv.WoeIvTables | woe_iv.py:17-50 | the column loop builds the WoE table as the concatenation of the columns' bins and the IV table as one row per column, in order |
| Metrics.Validate | metrics.py:38-44 | a metric passes iff key, category and compute are all present; otherwise the first missing one is the error |
| Metrics.EvalKeysResult | metrics.py:99-101 | evaluating keys in order succeeds with a dict holding exactly those keys, each with its own result, or fails with the first failing key's error |
| Metrics.Checked | metrics.py:103-106 | a compute result without the `value` column becomes an error; any other result passes through |
| Metrics.EvaluateLeaf | metrics.py:99-103 | a metric without dependencies is computed on an empty dependency dict |
| Metrics.EvaluateTwoDeps | metrics.py:99-103 | a metric whose two dependencies succeed is computed on a dict holding exactly their results, each under its own key |
| Metrics.MetricRegistry.constructor | metrics.py:48-50 | a new registry has the given name and no metrics |
| Metrics.MetricRegistry.Register | metrics.py:52-56 | accepted iff the metric validates and its key is new; a validation error comes before the duplicate check; on error the registry is unchanged, and on success exactly this metric is added |
| Metrics.MetricRegistry.Get | metrics.py:58-61 | fails with UnknownMetric for an unregistered key; otherwise returns exactly the metric registered under it |
| Metrics.MetricRegistry.Categories | metrics.py:64-65 | the categories of the registered metrics, strictly sorted (so each appears once), and all of them |
| Metrics.MetricRegistry.SortedSelection | metrics.py:67-74 | exactly the registered metrics whose key is selected, strictly sorted by key |
| Metrics.MetricRegistry.ListByCategory | metrics.py:67-71 | exactly the metrics of the category (and of the subcategory unless it is empty), sorted by key |
| Metrics.MetricRegistry.ListByTag | metrics.py:73-74 | exactly the metrics carrying the tag, sorted by key |
| Metrics.MetricRegistry.CategorySelection | metrics.py:86-88 | exactly the category's metrics, narrowed to the tag unless it is empty, sorted by key |
| Metrics.MetricRegistry.ComputeRecursive | metrics.py:94-107 | returns the metric's specified result; a cached key is returned without running anything; otherwise every compute function that runs had no cached result and runs once, the metric itself last; the cache only grows and stays sound |
| Metrics.MetricRegistry.ComputeDeps | metrics.py:99-101 | the dependency loop returns the in-order evaluation of the dependencies and runs no compute function twice |
| Metrics.MetricRegistry.ComputeMetric | metrics.py:76-78 | returns the metric's result, and within the call no compute function runs twice |
| Metrics.MetricRegistry.ComputeCategory | metrics.py:80-92 | evaluates the selected metrics in key order with one shared cache, and no compute function runs twice in the call |
| Metrics.MetricRegistry.CategoryResult | metrics.py:89-92 | a successful compute_category returns a dict of exactly the selected metrics, each with its own result |
| Metrics.MetricRegistry.SelectionKeys | metrics.py:86-88 | the keys compute_category evaluates are exactly the registered metrics selected by category and tag |
| Metrics.EvalKeysStep | metrics.py:100-101 | one more dependency: its failure ends the evaluation, its success adds its result under its key |
| Metrics.EvalKeysFailure | metrics.py:100-101 | a failure on a prefix of the keys is the failure of the whole evaluation |
| DailyMetrics.FilterByDate | metrics.py:113-118 | keeps exactly the rows whose day lies in [start, end] |
| DailyMetrics.RowsOnFiltered | metrics.py:113-118 | filtering to a window that contains day d keeps all rows of day d |
| DailyMetrics.DailyGroups | metrics.py:125-127 | the per-day table has one entry per day with a row in the window, holding the aggregate of that day's rows |
| DailyMetrics.DistinctOrders | metrics.py:143 | the number of distinct order ids is between 0 and the number of rows |
| DailyMetrics.GrossSales | metrics.py:123-127 | succeeds iff order_items has order_ts and gross_amount; its per-day table sums gross_amount per day in the window |
| DailyMetrics.RefundAmount | metrics.py:129-132 | succeeds iff adjustments has event_ts and amount; its per-day table sums the amounts per day in the window |
| DailyMetrics.OrderCount | metrics.py:141-144 | succeeds iff orders has order_ts and order_id; its per-day table counts distinct order ids per day |
| DailyMetrics.CouponCost | metrics.py:146-149 | succeeds iff order_items has order_ts and discount_amount; its per-day table sums the discounts per day |
| DailyMetrics.DepValues | metrics.py:135-136 | a dependency's per-day values, or an error when it is missing or has no value column |
| DailyMetrics.OuterJoin | metrics.py:137-155 | the join covers the union of the dates, and a date missing on one side counts as 0 |
| DailyMetrics.NetSales | metrics.py:134-139 | per date, net = gross + refund over the union of dates, a missing date counting as 0 |
| DailyMetrics.ProfitProxy | metrics.py:151-156 | per date, profit = net − coupon over the union of dates, a missing date counting as 0 |
| DailyMetrics.DefaultMetrics | metrics.py:165-236 | every default metric's dependencies rank below it, so the default graph is acyclic |
| DailyMetrics.RegisterAll | metrics.py:166-234 | registering valid metrics with distinct keys in order accepts each of them; the registry then holds exactly those metrics, in that order |
| DailyMetrics.DefaultListAccepted | metrics.py:168-234 | all six default metrics validate, and their keys are distinct and in registration order |
| DailyMetrics.DefaultLookups | metrics.py:168-234 | each default metric is found under its own key |
| DailyMetrics.BuildDefaultRegistry | metrics.py:165-236 | the default registry holds the six metrics, registered in source order and all accepted |
| DailyMetrics.RankedKeyedBy | metrics.py:201-234 | keying a list whose dependencies rank below their dependents gives an acyclic registry |
| DailyMetrics.DefaultNetSales | metrics.py:134-139 | in the default registry, net_sales per date is gross_sales + refund_amount, a missing date counting as 0 |
| DailyMetrics.DefaultProfitProxy | metrics.py:151-156 | in the default registry, profit_proxy per date is gross + refund − coupon, a date missing from a series counting as 0 |
| DailyMetrics.NetMinusCoupon | metrics.py:137-155 | zero-filled outer joins compose: (g + f) − c per date over the union of the three date sets |
| ReportTables.Abs | report_tables.py:44-45 | the absolute refund sum is non-negative and equals ±the sum |
| ReportTables.CostOn | report_tables.py:213-241 | the cost of a date is 0 without the table, with an empty table, with no date source, or with no amount column |
| ReportTables.KeyInfCostOn | report_tables.py:65-78 | the key-metric influencer cost is 0 for a table dated by an unparsed `date` column alone; a table with event_ts or parsed dates gives the table's cost of the date |
| ReportTables.KeyAdCostOn | report_tables.py:52-63 | the key-metric ad cost is 0 without a `date` column and for a table dated by an unparsed `date` alone; otherwise it is the table's cost of the date |
| ReportTables.BuildKeyMetricTable | report_tables.py:83-93 | two rows, today then compare; total cost = coupon + influencer + ad + fee (0) + the absolute refund sum, with the key-metric rules for the influencer and ad costs, and profit = sales − total cost |
| ReportTables.BuildCostDetailTable | report_tables.py:243-260 | two rows, today then compare, each splitting the total cost into coupon, influencer, ad, fee (0) and the absolute refund sum |
| ReportTables.TotalCostsAgree | report_tables.py:213-226 | when both cost tables are dated by event_ts or parsed dates and the ad table is absent or has a `date` column, the two tables agree on total cost, and profit = sales − that total |
| ReportTables.TotalCostsDisagree | report_tables.py:52-63 | an ad table keyed by event_ts alone is 0 in the key-metric table but counted in the cost-detail table |
| ReportTables.TextDatedCostsDisagree | report_tables.py:52-78 | an ad or influencer table dated by text dates alone is 0 in the key-metric table but counted in the cost-detail table |
| ReportTables.NormCell | report_tables.py:101-105 | a value is kept iff it is present, non-blank after strip and not "NONE" after strip and upper-casing; otherwise it becomes null |
| ReportTables.NormFillNull | report_tables.py:96-106 | without the column every row gets null; with it each value is normalised; nothing else in the rows changes |
| ReportTables.NormCellIdempotent | report_tables.py:101-105 | normalising twice is normalising once |
| ReportTables.KeptIsMember | report_tables.py:101-105 | a value the detail tables keep is a member for the IV flag |
| ReportTables.MemberNotKept | report_tables.py:101-105 | a leading space before any spelling of "none" is a member for the IV flag but null in the detail tables |
| ReportTables.BuildSalesDetail | report_tables.py:109-187 | callable only with order_ts, and with a sales column whenever it groups (KeyError otherwise); the rows of today, then those of the comparison date; one null row with 0 sales per date when the ad or influencer column is absent |
| ReportTables.SalesDetailTotal | report_tables.py:109-187 | the sales detail table adds up to the sales of the two dates, except for an absent ad or influencer column, where it holds only zeros |
| ReportTables.GroupRows | report_tables.py:128 | one row per group key, holding that group's sales sum |
| ReportTables.DateGroupsSum | report_tables.py:128 | the groups of one date (missing keys kept) add up to the date's total sales |
| ReportTables.DateGroupsKeys | report_tables.py:119-128 | each group key of a date occurs once, and it is null or a kept value |
| ReportTables.DetailKeyIsNormalised | report_tables.py:119-123 | grouping on the row key is grouping on the normalised column |
| IvRanking.StackBinary | report_tables.py:263-284 | callable only with order_ts (KeyError otherwise); today's rows labelled 1, then the comparison date's labelled 0; the flag is 1 iff the value is present, non-blank after strip and not "NONE"; all flags are 0 without the column |
| IvRanking.IvBinaryNonNegative | report_tables.py:287-303 | the binary IV is never negative |
| IvRanking.IvBinaryNoRows | report_tables.py:296-300 | with no rows on either date the binary IV is 0 |
| IvRanking.IvBinaryAbsentColumn | report_tables.py:273-301 | without the dimension's column every flag is 0, and the binary IV is 0 |
| IvRanking.OnEither | report_tables.py:321 | only observations dated today or the comparison date are kept |
| IvRanking.OnEitherBench | report_tables.py:321-325 | filtering to the two dates keeps every comparison-date value, in order |
| IvRanking.FewComparisonRowsZero | report_tables.py:325-327 | fewer than 2 input observations dated on the comparison date give a decile IV of 0 |
| IvRanking.BenchValues | report_tables.py:325 | one value per comparison-dated observation, and a value occurs iff such an observation carries it |
| IvRanking.DecileEdges | report_tables.py:325-330 | the breakpoints are strictly increasing and are exactly the distinct percentiles of the comparison date's values |
| IvRanking.EdgesIgnoreOtherDays | report_tables.py:325-330 | inserting or removing an observation of a day other than the comparison date changes neither the comparison-value count nor the breakpoints |
| IvRanking.DecileColumn | report_tables.py:333-334 | each observation's label is the string of its right-closed interval index |
| IvRanking.IsTodayLabels | report_tables.py:335 | the label is 1 iff the observation is dated today |
| IvRanking.CostIvByDecile | report_tables.py:306-343 | a non-zero decile IV needs rows on either date, the value column, at least 2 comparison-date rows and at least 2 distinct breakpoints |
| IvRanking.DecileBinBounds | report_tables.py:325-333 | each binned value, today's included, lies in the interval its label names: e[k-1] < value <= e[k], with ±inf outer bounds |
| IvRanking.CostIvNonNegative | report_tables.py:306-343 | the decile IV is never negative |
| IvRanking.CostColumnIvs | report_tables.py:346-365 | a coupon entry iff order_items has discount_amount and order_ts, then a refund entry iff adjustments has event_ts and amount |
| IvRanking.GetIvRanking | report_tables.py:368-400 | the three binary IVs and the cost IVs; the ranking is a permutation of the three sales factors plus one entry per cost IV, non-increasing by IV, with ties kept in insertion order |
| IvRanking.RankFactors | report_tables.py:386-393 | the appended entries sorted stably by descending IV: a permutation, ordered, with every IV's entries in insertion order |
| IvRanking.RankingNonNegative | report_tables.py:382-392 | every IV in the ranking is non-negative |
| DrillDown.UnionMembers | report_tables.py:419 | every member seen on either date, each once |
| DrillDown.Lines | report_tables.py:420-424 | one line per member, each side reindexed with fill value 0 |
| DrillDown.TopLines | report_tables.py:417-425 | at most n lines, sorted by today's value, each a member seen on either date with its two zero-filled sums, and no member twice |
| DrillDown.TopLinesComplete | report_tables.py:417-425 | a member seen on either date that is not listed ranks no higher than every listed line; n lines are listed unless the union is smaller |
| DrillDown.SummaryTwoRows | report_tables.py:429-434 | exactly two rows, today first |
| DrillDown.DetailTodayBase | report_tables.py:403-426 | no lines without the id column; otherwise the top n members by today's sales, descending |
| DrillDown.RefundBy | report_tables.py:441-450 | per-key refund sums with missing product ids dropped |
| DrillDown.RefundGroupsMatchSummary | report_tables.py:441-450 | without product_id each row is its own group, and the groups add up to the summary's refund sum |
| DrillDown.RefundDetail | report_tables.py:437-458 | the signed refund sums of the two dates, and the top n products by today's refund, ascending, none null |
| DrillDown.CouponDetail | report_tables.py:461-485 | a zero summary and no lines without discount_amount; no lines without an id column; otherwise the top n coupons by today's cost, descending |
| DrillDown.Above | report_tables.py:503-504 | exactly the ranking entries with IV strictly above the threshold |
| DrillDown.AboveIndices | report_tables.py:503-504 | the kept entries sit at strictly increasing ranking positions, so they stay in ranking order |
| DrillDown.Expand | report_tables.py:516-532 | a factor gets tables iff it can be expanded; they carry its IV, at most n detail lines, the sales summary for a sales factor and two summary rows for a cost factor |
| DrillDown.ExpandablesAbove | report_tables.py:503-533 | selecting the entries above the threshold and then the expandable ones is one filter, in ranking order |
| DrillDown.ExpandAllEntries | report_tables.py:515-533 | the expanded tables carry exactly the expandable entries, in order |
| DrillDown.ExpandAllTables | report_tables.py:515-533 | each expanded table is the expansion of its own entry |
| DrillDown.GetHighIvDetailTables | report_tables.py:488-533 | exactly the expandable factors above the threshold get tables, in ranking order |
| DrillDown.Round1 | report_tables.py:572 | the result is a multiple of 0.1 within 0.05 of the input |
| DrillDown.PctChange | report_tables.py:571-572 | (a − b)/b·100 rounded to one decimal when b ≠ 0, and 0 when b = 0 |
| DrillDown.PctChangeUnchanged | report_tables.py:571-572 | an unchanged value has a zero percent change |
| DrillDown.FirstWith | report_tables.py:566-567 | the first row with the label, if there is one |
| DrillDown.BuildComponents | report_tables.py:536-573 | the key-metric rows, the whole ranking, the entries above the threshold and their tables; with two or more key-metric rows, today / comparison / percent change of total sales, total cost and profit |
| Evidence.KpisOf | core.py:56-63 | gross is the net_sales_amount sum, refund the signed adjustment sum, net = gross + refund per day, and every delta is today − yesterday |
| Evidence.NetDeltaSplits | core.py:62-63 | the net delta is the gross delta plus the refund delta |
| Evidence.UnionIds | core.py:74 | the ids seen on either day, strictly sorted |
| Evidence.DeltasOver | core.py:75 | one line per id with today's sum minus yesterday's, each 0 when absent |
| Evidence.DeltaLinesSum | core.py:74-75 | the deltas over the union of ids add up to the change of the grand total |
| Evidence.SortedDeltas | core.py:75-77 | a permutation of the delta lines, sorted, with no id twice |
| Evidence.SortedDeltasHas | core.py:74-77 | every id seen on either day has its delta line in the sorted table |
| Evidence.WithoutNone | core.py:80 | exactly the lines whose id is not "NONE", in order |
| Evidence.WithoutNoneOrdered | core.py:80 | dropping "NONE" keeps the order and the distinct ids |
| Evidence.TopGrowth | core.py:74-81 | at most 5 lines, descending, none "NONE", each the delta of an id seen on either day |
| Evidence.TopGrowthIsTop | core.py:74-81 | an id other than "NONE" seen on either day and left out has a delta no larger than every listed one, and then 5 are listed |
| Evidence.GrossIncreaseTop | core.py:66-91 | empty without influencer_id; otherwise the top-growth list, missing ids counted as "NONE" |
| Evidence.InfluencerDeltasSumToGrossDelta | core.py:69-75 | the influencer deltas, "NONE" included, add up to the KPI gross delta |
| Evidence.RefundCandidates | core.py:98-100 | at most 5 lines, ascending, no id twice |
| Evidence.RefundCandidatesAreDeltas | core.py:95-99 | each candidate is the delta of a product seen on either day |
| Evidence.RefundCandidatesAreLowest | core.py:98-100 | a product seen on either day and not listed has a delta no smaller than every candidate's, and then 5 are listed |
| Evidence.Worsening | core.py:104-106 | exactly the lines with a strictly negative delta, in order |
| Evidence.ReasonLines | core.py:115-117 | each reason with its summed amount |
| Evidence.TopReasonsAreSums | core.py:112-122 | at most 3 reasons, ascending by summed amount, no reason twice, each occurring today for the product with its sum |
| Evidence.TopReasonsAreLowest | core.py:112-122 | a reason of the product today that is not listed has a sum no smaller than every listed one, and then 3 are listed |
| Evidence.FirstProductIsFirst | core.py:108-109 | none exactly when no products row matches; otherwise the earliest matching row |
| Evidence.DriverForMeaning | core.py:124-134 | a driver record holds the product, its negative delta = today − yesterday refund sum (0 when absent), its product info, and its top reasons: the product's 3 lowest reason sums when reason_code exists, none otherwise |
| Evidence.RefundDriversAreWorsening | core.py:103-134 | every listed driver is a product seen on either day whose refund delta is negative, with its sums, info and top reasons as in `DriverOf` |
| Evidence.RefundDriversDistinct | core.py:100-134 | at most 5 drivers, no product listed twice |
| Evidence.RefundDriversComplete | core.py:103-134 | every candidate with a negative delta is listed |
| Evidence.BuildRefundDrivers | core.py:103-136 | the driver loop yields the specified list: empty without product_id in adjustments or products, else the negative candidates' records in candidate order |
| Evidence.BuildEvidence | core.py:24-156 | the first missing column among order_ts, event_ts, net_sales_amount and amount is the error; otherwise the packet for today against today − 1 with the KPIs and both driver lists |
| Seqs.Take | report_tables.py:425 | head(n): a prefix of length min(n, length) |
| Seqs.Sort | report_tables.py:393 | a sorted permutation of its input |
| Seqs.SortStableAll | report_tables.py:393 | for every key value, the sort keeps the order of the elements with that key |
| Seqs.TakeSortedTop | report_tables.py:425 | an element of a sorted list outside its first n follows every kept one, and then n are kept |
| Tables.GroupSum | report_tables.py:417-418 | the group-by map has exactly the keys that occur, each with its key's sum |
| Tables.MembersPartitionTotal | report_tables.py:417-418 | the group sums over the distinct keys add up to the total |
| Text.SortedSet | metrics.py:65 | sorted(set(xs)): strictly sorted and holding exactly the elements of xs |

## Left out

- `ln`, `pd.qcut`'s breakpoints and `np.percentile` are parameters (`WoeIv.Numerics`). The sign lemmas assume only that ln(x) is positive iff x > 1 and negative iff x < 1. Floating-point rounding, NaN and `pd.to_numeric` coercion are not modelled; sums are exact reals.
- Group keys appear in order of first appearance, while pandas sorts them. The sums, IVs and membership facts do not depend on that order.
- pandas `sort_values` uses quicksort, which is not stable; the model sorts stably. The contracts about detail tables state only sortedness, membership and the top-n property, which hold for any tie order. The factor ranking uses Python's stable `list.sort` and is modelled exactly.
- Timestamps are day numbers; `pd.to_datetime` parsing and `str(date)` rendering are not modelled.
- Upper-casing is ASCII only. Strip removes the characters Python's `str.isspace` accepts.
- The payment fee is the constant 0 of the source. The unregistered `metric_payment_fee` (0.033 scaling) is not modelled.
- A column whose absence makes pandas raise KeyError (order_ts, the sales column, event_ts, amount) becomes a precondition of the builders that read it. build_evidence's explicit ValueErrors are modelled as `Result` errors.
- The try/except around woe_iv in `compute_iv_binary` and `_iv_cost_by_decile` is not modelled. On the modelled inputs, `woe_iv` does not raise, and an IV table with no rows gives 0.
- `IvRanking.CostIvByDecile`: its contract states only the conditions under which the IV is 0, not the value of a non-zero IV (the body computes it by the same `woe_iv` model).
- Registry cycles are excluded by a ghost `rank` precondition. The source does not check for cycles and would not terminate on one.
- Records are datatypes rather than dicts. Korean column labels and factor names are datatype constructors (`Factor`, `Which`, `Measure`). Configurable column-name parameters are fixed to their defaults.
- Unused inputs are not modelled: `build_evidence`'s `orders` and `get_high_iv_detail_tables`'s `cost_detail_df`.
- app.py:367 passes `products=products` to `get_high_iv_detail_tables`, whose signature at report_tables.py:488-497 has no such parameter, so that call raises TypeError. The model follows the signature.
- app.py, app_0220_2.py (UI), core.py's OpenAI client and briefing generation, text_to_sql.py (SQLite and generated SQL) and slack_alert.py (HTTP) are I/O and are not part of this model. The tqdm progress bar is left out too.
