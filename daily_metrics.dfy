/**
 * The per-day metric compute functions and the default registry.
 *
 * A leaf metric filters a table to the date window and sums (or counts)
 * per day; a derived metric combines its dependencies' per-day tables by
 * an outer join on the date with a missing side counted as 0. Dates are
 * day numbers; the window is inclusive at both ends.
 */
module DailyMetrics {
  import opened Wrappers
  import opened Seqs
  import opened Tables
  import opened Metrics

  // ---------------------------------------------------------------
  // Date filtering and per-day aggregation
  // ---------------------------------------------------------------

  /** _filter_by_date: the rows whose day lies in [start, end], in order. */
  function FilterByDate<R>(rows: seq<R>, day: R -> int, start: int, end: int): (r: seq<R>)
    ensures forall i :: 0 <= i < |r| ==> start <= day(r[i]) <= end && r[i] in rows
    ensures forall i :: 0 <= i < |rows| && start <= day(rows[i]) <= end ==> rows[i] in r
  {
    if rows == [] then []
    else
      var p := FilterByDate(rows[..|rows| - 1], day, start, end);
      var x := rows[|rows| - 1];
      assert forall i :: 0 <= i < |rows| - 1 ==> rows[..|rows| - 1][i] == rows[i];
      if start <= day(x) <= end then p + [x] else p
  }

  /** Filtering to a window that contains `d` keeps the rows of day `d`. */
  lemma {:induction false} RowsOnFiltered<R>(rows: seq<R>, day: R -> int, start: int, end: int, d: int)
    requires start <= d <= end
    ensures RowsOn(FilterByDate(rows, day, start, end), day, d) == RowsOn(rows, day, d)
  {
    if rows != [] {
      var p := rows[..|rows| - 1];
      var x := rows[|rows| - 1];
      var fp := FilterByDate(p, day, start, end);
      RowsOnFiltered(p, day, start, end, d);
      if start <= day(x) <= end {
        assert (fp + [x])[..|fp|] == fp;
      }
    }
  }

  /**
   * The per-day table of `agg` over the rows in the window: one entry per
   * day that has a row in the window, holding `agg` of that day's rows.
   */
  ghost predicate DailyTotals<R>(m: map<int, real>, rows: seq<R>, day: R -> int, agg: seq<R> -> real, start: int, end: int)
  {
    (forall d :: d in m <==> start <= d <= end && exists i :: 0 <= i < |rows| && day(rows[i]) == d)
    && forall d :: d in m ==> m[d] == agg(RowsOn(rows, day, d))
  }

  /** Filter to the window, then group by day and aggregate each group. */
  function Daily<R>(rows: seq<R>, day: R -> int, agg: seq<R> -> real, start: int, end: int): (m: map<int, real>)
    ensures DailyTotals(m, rows, day, agg, start, end)
  {
    DailyGroups(rows, day, agg, start, end);
    GroupByDay(FilterByDate(rows, day, start, end), day, agg)
  }

  /** groupby("date") followed by the aggregate of each group. */
  function GroupByDay<R>(f: seq<R>, day: R -> int, agg: seq<R> -> real): map<int, real>
  {
    map i | 0 <= i < |f| :: day(f[i]) := agg(RowsOn(f, day, day(f[i])))
  }

  lemma DailyGroups<R>(rows: seq<R>, day: R -> int, agg: seq<R> -> real, start: int, end: int)
    ensures DailyTotals(GroupByDay(FilterByDate(rows, day, start, end), day, agg), rows, day, agg, start, end)
  {
    var f := FilterByDate(rows, day, start, end);
    var m := GroupByDay(f, day, agg);
    forall d | start <= d <= end && exists i :: 0 <= i < |rows| && day(rows[i]) == d ensures d in m {
      var i :| 0 <= i < |rows| && day(rows[i]) == d;
      var j :| 0 <= j < |f| && f[j] == rows[i];
    }
    forall d | d in m ensures start <= d <= end && exists i :: 0 <= i < |rows| && day(rows[i]) == d {
      var j :| 0 <= j < |f| && day(f[j]) == d;
      FilteredDayOccurs(rows, day, start, end, j);
    }
    forall d | d in m ensures m[d] == agg(RowsOn(rows, day, d)) {
      RowsOnFiltered(rows, day, start, end, d);
    }
  }

  /** A day of the filtered rows lies in the window and is the day of some row. */
  lemma FilteredDayOccurs<R>(rows: seq<R>, day: R -> int, start: int, end: int, j: int)
    requires 0 <= j < |FilterByDate(rows, day, start, end)|
    ensures var x := FilterByDate(rows, day, start, end)[j];
      start <= day(x) <= end && exists i :: 0 <= i < |rows| && day(rows[i]) == day(x)
  {
    var x := FilterByDate(rows, day, start, end)[j];
    var i :| 0 <= i < |rows| && rows[i] == x;
  }

  /** Sum of gross_amount. */
  function GrossTotal(rs: seq<ItemRow>): real { SumOf(rs, ItemGross) }

  /** Sum of discount_amount. */
  function DiscountTotal(rs: seq<ItemRow>): real { SumOf(rs, ItemDiscount) }

  /** Sum of the adjustment amounts. */
  function AdjTotal(rs: seq<AdjRow>): real { SumOf(rs, AdjAmount) }

  /** The non-missing order ids, in order. */
  function OrderIds(rs: seq<OrderRow>): (ids: seq<string>)
    ensures |ids| <= |rs|
  {
    if rs == [] then []
    else
      var x := rs[|rs| - 1];
      OrderIds(rs[..|rs| - 1]) + (if x.orderId.Text? then [x.orderId.s] else [])
  }

  /** nunique: the number of distinct non-missing order ids. */
  function DistinctOrders(rs: seq<OrderRow>): (n: real)
    ensures 0.0 <= n <= |rs| as real
  {
    |Distinct(OrderIds(rs))| as real
  }

  // ---------------------------------------------------------------
  // The compute functions
  // ---------------------------------------------------------------

  /** metric_gross_sales: per-day sum of gross_amount over order_items. */
  function GrossSales(ctx: Context, deps: map<string, Frame>): (r: Result<Frame, MetricError>)
    ensures r.Success? <==> ctx.items.Some? && OrderTs in ctx.items.value.cols && GrossAmount in ctx.items.value.cols
    ensures ctx.items.None? ==> r == Failure(MissingTable("order_items"))
    ensures ctx.items.Some? && OrderTs !in ctx.items.value.cols ==> r == Failure(MissingColumn("order_ts"))
    ensures r.Success? ==>
      r.value.hasValue && DailyTotals(r.value.daily, ctx.items.value.rows, ItemDay, GrossTotal, ctx.startDate, ctx.endDate)
  {
    if ctx.items.None? then Failure(MissingTable("order_items"))
    else if OrderTs !in ctx.items.value.cols then Failure(MissingColumn("order_ts"))
    else if GrossAmount !in ctx.items.value.cols then Failure(MissingColumn("gross_amount"))
    else Success(Frame(true, Daily(ctx.items.value.rows, ItemDay, GrossTotal, ctx.startDate, ctx.endDate)))
  }

  /** metric_refund_amount: per-day sum of the adjustment amounts. */
  function RefundAmount(ctx: Context, deps: map<string, Frame>): (r: Result<Frame, MetricError>)
    ensures r.Success? <==> ctx.adjustments.Some? && EventTs in ctx.adjustments.value.cols && Amount in ctx.adjustments.value.cols
    ensures ctx.adjustments.None? ==> r == Failure(MissingTable("adjustments"))
    ensures ctx.adjustments.Some? && EventTs !in ctx.adjustments.value.cols ==> r == Failure(MissingColumn("event_ts"))
    ensures r.Success? ==>
      r.value.hasValue && DailyTotals(r.value.daily, ctx.adjustments.value.rows, AdjDay, AdjTotal, ctx.startDate, ctx.endDate)
  {
    if ctx.adjustments.None? then Failure(MissingTable("adjustments"))
    else if EventTs !in ctx.adjustments.value.cols then Failure(MissingColumn("event_ts"))
    else if Amount !in ctx.adjustments.value.cols then Failure(MissingColumn("amount"))
    else Success(Frame(true, Daily(ctx.adjustments.value.rows, AdjDay, AdjTotal, ctx.startDate, ctx.endDate)))
  }

  /** metric_orders: per-day number of distinct order ids. */
  function OrderCount(ctx: Context, deps: map<string, Frame>): (r: Result<Frame, MetricError>)
    ensures r.Success? <==> ctx.orders.Some? && OrderTimestamp in ctx.orders.value.cols && OrderId in ctx.orders.value.cols
    ensures ctx.orders.None? ==> r == Failure(MissingTable("orders"))
    ensures r.Success? ==>
      r.value.hasValue && DailyTotals(r.value.daily, ctx.orders.value.rows, OrderDay, DistinctOrders, ctx.startDate, ctx.endDate)
  {
    if ctx.orders.None? then Failure(MissingTable("orders"))
    else if OrderTimestamp !in ctx.orders.value.cols then Failure(MissingColumn("order_ts"))
    else if OrderId !in ctx.orders.value.cols then Failure(MissingColumn("order_id"))
    else Success(Frame(true, Daily(ctx.orders.value.rows, OrderDay, DistinctOrders, ctx.startDate, ctx.endDate)))
  }

  /** metric_coupon_cost: per-day sum of discount_amount over order_items. */
  function CouponCost(ctx: Context, deps: map<string, Frame>): (r: Result<Frame, MetricError>)
    ensures r.Success? <==> ctx.items.Some? && OrderTs in ctx.items.value.cols && DiscountAmount in ctx.items.value.cols
    ensures ctx.items.None? ==> r == Failure(MissingTable("order_items"))
    ensures r.Success? ==>
      r.value.hasValue && DailyTotals(r.value.daily, ctx.items.value.rows, ItemDay, DiscountTotal, ctx.startDate, ctx.endDate)
  {
    if ctx.items.None? then Failure(MissingTable("order_items"))
    else if OrderTs !in ctx.items.value.cols then Failure(MissingColumn("order_ts"))
    else if DiscountAmount !in ctx.items.value.cols then Failure(MissingColumn("discount_amount"))
    else Success(Frame(true, Daily(ctx.items.value.rows, ItemDay, DiscountTotal, ctx.startDate, ctx.endDate)))
  }

  /** deps[name][["date", "value"]]: the dependency's per-day values. */
  function DepValues(deps: map<string, Frame>, name: string): (r: Result<map<int, real>, MetricError>)
    ensures r.Success? <==> name in deps && deps[name].hasValue
    ensures r.Success? ==> r.value == deps[name].daily
    ensures name !in deps ==> r == Failure(MissingDependency(name))
  {
    if name !in deps then Failure(MissingDependency(name))
    else if !deps[name].hasValue then Failure(MissingColumn("value"))
    else Success(deps[name].daily)
  }

  /** An outer join on the date with 0 for a missing side, combined by `op`. */
  function OuterJoin(a: map<int, real>, b: map<int, real>, op: (real, real) -> real): (m: map<int, real>)
    ensures m.Keys == a.Keys + b.Keys
    ensures forall d :: d in m ==> m[d] == op(Get0(a, d), Get0(b, d))
  {
    map d | d in a.Keys + b.Keys :: op(Get0(a, d), Get0(b, d))
  }

  /** metric_net_sales: gross + refund per date, a date missing on one side counting as 0. */
  function NetSales(ctx: Context, deps: map<string, Frame>): (r: Result<Frame, MetricError>)
    ensures r.Success? <==> DepValues(deps, "gross_sales").Success? && DepValues(deps, "refund_amount").Success?
    ensures r.Success? ==>
      var g, f := deps["gross_sales"].daily, deps["refund_amount"].daily;
      r.value.hasValue
      && (forall d :: d in r.value.daily <==> d in g || d in f)
      && forall d :: d in r.value.daily ==> r.value.daily[d] == Get0(g, d) + Get0(f, d)
  {
    match DepValues(deps, "gross_sales")
    case Failure(e) => Failure(e)
    case Success(g) =>
      match DepValues(deps, "refund_amount")
      case Failure(e) => Failure(e)
      case Success(f) => Success(Frame(true, OuterJoin(g, f, (x: real, y: real) => x + y)))
  }

  /** metric_profit_proxy: net − coupon per date, a date missing on one side counting as 0. */
  function ProfitProxy(ctx: Context, deps: map<string, Frame>): (r: Result<Frame, MetricError>)
    ensures r.Success? <==> DepValues(deps, "net_sales").Success? && DepValues(deps, "coupon_cost").Success?
    ensures r.Success? ==>
      var n, c := deps["net_sales"].daily, deps["coupon_cost"].daily;
      r.value.hasValue
      && (forall d :: d in r.value.daily <==> d in n || d in c)
      && forall d :: d in r.value.daily ==> r.value.daily[d] == Get0(n, d) - Get0(c, d)
  {
    match DepValues(deps, "net_sales")
    case Failure(e) => Failure(e)
    case Success(n) =>
      match DepValues(deps, "coupon_cost")
      case Failure(e) => Failure(e)
      case Success(c) => Success(Frame(true, OuterJoin(n, c, (x: real, y: real) => x - y)))
  }

  // ---------------------------------------------------------------
  // The default registry
  // ---------------------------------------------------------------

  function GrossSalesMetric(): Metric
  {
    Metric("gross_sales", "Gross Sales", "Sum of sales per day.", "Sales", "Revenue",
      ["kpi", "daily", "core"], [], Some(GrossSales), ["channel", "influencer_id", "product_id"])
  }

  function OrdersMetric(): Metric
  {
    Metric("orders", "Orders", "Distinct orders per day.", "Sales", "Volume",
      ["kpi", "daily", "core"], [], Some(OrderCount), ["channel"])
  }

  function RefundAmountMetric(): Metric
  {
    Metric("refund_amount", "Refund", "Sum of adjustments (negative).", "Post-sale", "Refunds",
      ["kpi", "daily", "core"], [], Some(RefundAmount), ["product_id", "seller_id", "reason_code"])
  }

  function NetSalesMetric(): Metric
  {
    Metric("net_sales", "Net Sales", "Gross + Refund.", "Profitability", "Revenue",
      ["kpi", "daily", "core"], ["gross_sales", "refund_amount"], Some(NetSales), ["channel", "product_id"])
  }

  function CouponCostMetric(): Metric
  {
    Metric("coupon_cost", "Coupon Cost", "Sum of discount_amount per day.", "Discount", "Coupons",
      ["daily"], [], Some(CouponCost), ["coupon_id", "coupon_type"])
  }

  function ProfitProxyMetric(): Metric
  {
    Metric("profit_proxy", "Profit (proxy)", "NetSales - CouponCost.", "Profitability", "Profit",
      ["kpi", "daily"], ["net_sales", "coupon_cost"], Some(ProfitProxy), ["channel"])
  }

  /** The default metrics in registration order. */
  function DefaultList(): seq<Metric>
  {
    [GrossSalesMetric(), OrdersMetric(), RefundAmountMetric(), NetSalesMetric(), CouponCostMetric(), ProfitProxyMetric()]
  }

  /** The default metrics by key; every dependency ranks below its dependent. */
  function DefaultMetrics(): (r: map<string, Metric>)
    ensures Ranked(r, DefaultRank)
  {
    DefaultListRanked();
    RankedKeyedBy(DefaultList(), DefaultRank);
    KeyedBy(DefaultList())
  }

  /** net_sales ranks above its two inputs, profit_proxy above net_sales and coupon_cost. */
  lemma DefaultListRanked()
    ensures RankedList(DefaultList(), DefaultRank)
  {
    var ms := DefaultList();
    forall i, j | 0 <= i < |ms| && 0 <= j < |ms[i].dependsOn|
      ensures DefaultRank(ms[i].dependsOn[j]) < DefaultRank(ms[i].key)
    {
      assert i == 3 || i == 5;
      if i == 3 {
        assert ms[i] == NetSalesMetric();
      } else {
        assert ms[i] == ProfitProxyMetric();
      }
    }
  }

  /** The metrics of `ms` by key; a later metric overrides an earlier one with the same key. */
  function KeyedBy(ms: seq<Metric>): (r: map<string, Metric>)
    ensures forall k :: k in r <==> k in MetricKeys(ms)
  {
    if ms == [] then map[]
    else
      var r := KeyedBy(ms[..|ms| - 1]);
      assert MetricKeys(ms) == MetricKeys(ms[..|ms| - 1]) + [ms[|ms| - 1].key];
      r[ms[|ms| - 1].key := ms[|ms| - 1]]
  }

  lemma KeyNotInPrefix(ms: seq<Metric>, i: nat)
    requires NoDup(MetricKeys(ms)) && i < |ms|
    ensures ms[i].key !in MetricKeys(ms[..i])
  {
  }

  /** Without duplicate keys, each metric is found under its own key. */
  lemma {:induction false} KeyedByLookup(ms: seq<Metric>, i: nat)
    requires NoDup(MetricKeys(ms)) && i < |ms|
    ensures KeyedBy(ms)[ms[i].key] == ms[i]
  {
    var n := |ms| - 1;
    if i < n {
      assert MetricKeys(ms[..n]) == MetricKeys(ms)[..n];
      assert MetricKeys(ms)[i] != MetricKeys(ms)[n];
      KeyedByLookup(ms[..n], i);
    }
  }

  /**
   * Registers `ms` in order into an empty registry; every registration
   * is accepted because each metric validates and no key repeats.
   */
  method RegisterAll(r: MetricRegistry, ms: seq<Metric>)
    requires r.Valid() && r.metrics == map[] && r.order == []
    requires forall i :: 0 <= i < |ms| ==> Validate(ms[i]).Pass?
    requires NoDup(MetricKeys(ms))
    modifies r
    ensures r.Valid()
    ensures r.metrics == KeyedBy(ms) && r.order == MetricKeys(ms)
  {
    for i := 0 to |ms|
      invariant r.Valid()
      invariant r.metrics == KeyedBy(ms[..i]) && r.order == MetricKeys(ms[..i])
    {
      KeyNotInPrefix(ms, i);
      assert ms[..i + 1][..i] == ms[..i];
      var o := r.Register(ms[i]);
      assert MetricKeys(ms[..i + 1]) == MetricKeys(ms[..i]) + [ms[i].key];
    }
    assert ms[..|ms|] == ms;
  }

  /** The default metrics all validate and have distinct keys. */
  lemma DefaultListAccepted()
    ensures forall i :: 0 <= i < |DefaultList()| ==> Validate(DefaultList()[i]).Pass?
    ensures MetricKeys(DefaultList()) == ["gross_sales", "orders", "refund_amount", "net_sales", "coupon_cost", "profit_proxy"]
    ensures NoDup(MetricKeys(DefaultList()))
  {
    DefaultListValid();
    DefaultKeys();
    DefaultKeysDistinct();
  }

  lemma DefaultListValid()
    ensures forall i :: 0 <= i < |DefaultList()| ==> Validate(DefaultList()[i]).Pass?
  {
  }

  lemma DefaultKeys()
    ensures MetricKeys(DefaultList()) == ["gross_sales", "orders", "refund_amount", "net_sales", "coupon_cost", "profit_proxy"]
  {
  }

  lemma DefaultKeysDistinct()
    ensures NoDup(["gross_sales", "orders", "refund_amount", "net_sales", "coupon_cost", "profit_proxy"])
  {
    var ks := ["gross_sales", "orders", "refund_amount", "net_sales", "coupon_cost", "profit_proxy"];
    assert ks[0][0] == 'g' && ks[1][0] == 'o' && ks[2][0] == 'r' && ks[3][0] == 'n' && ks[4][0] == 'c' && ks[5][0] == 'p';
  }

  /** Each default metric is found under its own key. */
  lemma DefaultLookups()
    ensures "gross_sales" in DefaultMetrics() && DefaultMetrics()["gross_sales"] == GrossSalesMetric()
    ensures "orders" in DefaultMetrics() && DefaultMetrics()["orders"] == OrdersMetric()
    ensures "refund_amount" in DefaultMetrics() && DefaultMetrics()["refund_amount"] == RefundAmountMetric()
    ensures "net_sales" in DefaultMetrics() && DefaultMetrics()["net_sales"] == NetSalesMetric()
    ensures "coupon_cost" in DefaultMetrics() && DefaultMetrics()["coupon_cost"] == CouponCostMetric()
    ensures "profit_proxy" in DefaultMetrics() && DefaultMetrics()["profit_proxy"] == ProfitProxyMetric()
  {
    DefaultListAccepted();
    KeyedByLookup(DefaultList(), 0);
    KeyedByLookup(DefaultList(), 1);
    KeyedByLookup(DefaultList(), 2);
    KeyedByLookup(DefaultList(), 3);
    KeyedByLookup(DefaultList(), 4);
    KeyedByLookup(DefaultList(), 5);
  }

  /**
   * build_default_registry: the six default metrics, registered in this
   * order and all accepted.
   */
  method BuildDefaultRegistry() returns (r: MetricRegistry)
    ensures fresh(r) && r.Valid() && r.name == "default_ecommerce"
    ensures r.metrics == DefaultMetrics()
    ensures r.order == ["gross_sales", "orders", "refund_amount", "net_sales", "coupon_cost", "profit_proxy"]
  {
    r := new MetricRegistry("default_ecommerce");
    DefaultListAccepted();
    RegisterAll(r, DefaultList());
  }

  /** Derived metrics rank above what they depend on. */
  function DefaultRank(key: string): nat
  {
    if key == "profit_proxy" then 2 else if key == "net_sales" then 1 else 0
  }

  /** Every metric's dependencies rank below it, metric by metric. */
  ghost predicate RankedList(ms: seq<Metric>, rank: string -> nat)
  {
    forall i, j :: 0 <= i < |ms| && 0 <= j < |ms[i].dependsOn| ==> rank(ms[i].dependsOn[j]) < rank(ms[i].key)
  }

  /** Keying a ranked list keeps it ranked. */
  lemma {:induction false} RankedKeyedBy(ms: seq<Metric>, rank: string -> nat)
    requires RankedList(ms, rank)
    ensures Ranked(KeyedBy(ms), rank)
  {
    if ms != [] {
      var n := |ms| - 1;
      assert RankedList(ms[..n], rank);
      RankedKeyedBy(ms[..n], rank);
    }
  }

  /**
   * With the default registry, net_sales evaluates gross_sales and then
   * refund_amount and receives both under their keys; when they succeed
   * its value on each date is gross + refund, a missing date counting as 0.
   */
  lemma DefaultNetSales(ctx: Context)
    requires GrossSales(ctx, map[]).Success? && RefundAmount(ctx, map[]).Success?
    ensures var g, f := GrossSales(ctx, map[]).value, RefundAmount(ctx, map[]).value;
      Evaluate(DefaultMetrics(), DefaultRank, "net_sales", ctx)
        == NetSales(ctx, map["gross_sales" := g, "refund_amount" := f])
    ensures var n := Evaluate(DefaultMetrics(), DefaultRank, "net_sales", ctx);
      var g, f := GrossSales(ctx, map[]).value.daily, RefundAmount(ctx, map[]).value.daily;
      n.Success?
      && (forall d :: d in n.value.daily <==> d in g || d in f)
      && forall d :: d in n.value.daily ==> n.value.daily[d] == Get0(g, d) + Get0(f, d)
  {
    var ms := DefaultMetrics();
    DefaultLookups();
    var g, f := GrossSales(ctx, map[]).value, RefundAmount(ctx, map[]).value;
    EvaluateLeaf(ms, DefaultRank, "gross_sales", ctx, GrossSales);
    EvaluateLeaf(ms, DefaultRank, "refund_amount", ctx, RefundAmount);
    EvaluateTwoDeps(ms, DefaultRank, "net_sales", ctx, NetSales, "gross_sales", "refund_amount", g, f);
  }

  /**
   * With the default registry, profit_proxy evaluates net_sales (and
   * through it gross_sales and refund_amount) and then coupon_cost; when
   * the three base metrics succeed its value on each date is
   * gross + refund − coupon, a date missing from a series counting as 0.
   */
  lemma DefaultProfitProxy(ctx: Context)
    requires GrossSales(ctx, map[]).Success? && RefundAmount(ctx, map[]).Success? && CouponCost(ctx, map[]).Success?
    ensures var p := Evaluate(DefaultMetrics(), DefaultRank, "profit_proxy", ctx);
      var g, f, c := GrossSales(ctx, map[]).value.daily, RefundAmount(ctx, map[]).value.daily, CouponCost(ctx, map[]).value.daily;
      p.Success?
      && (forall d :: d in p.value.daily <==> d in g || d in f || d in c)
      && forall d :: d in p.value.daily ==> p.value.daily[d] == Get0(g, d) + Get0(f, d) - Get0(c, d)
  {
    var ms := DefaultMetrics();
    DefaultLookups();
    DefaultNetSales(ctx);
    EvaluateLeaf(ms, DefaultRank, "coupon_cost", ctx, CouponCost);
    var n, c := Evaluate(ms, DefaultRank, "net_sales", ctx).value, CouponCost(ctx, map[]).value;
    EvaluateTwoDeps(ms, DefaultRank, "profit_proxy", ctx, ProfitProxy, "net_sales", "coupon_cost", n, c);
    var p := ProfitProxy(ctx, map["net_sales" := n, "coupon_cost" := c]).value;
    NetMinusCoupon(GrossSales(ctx, map[]).value.daily, RefundAmount(ctx, map[]).value.daily, c.daily, n.daily, p.daily);
  }

  /** Zero-filled joins compose: (g + f) − c per date over the union of dates. */
  lemma NetMinusCoupon(g: map<int, real>, f: map<int, real>, c: map<int, real>, n: map<int, real>, p: map<int, real>)
    requires (forall d :: d in n <==> d in g || d in f) && forall d :: d in n ==> n[d] == Get0(g, d) + Get0(f, d)
    requires (forall d :: d in p <==> d in n || d in c) && forall d :: d in p ==> p[d] == Get0(n, d) - Get0(c, d)
    ensures forall d :: d in p <==> d in g || d in f || d in c
    ensures forall d :: d in p ==> p[d] == Get0(g, d) + Get0(f, d) - Get0(c, d)
  {
  }
}
