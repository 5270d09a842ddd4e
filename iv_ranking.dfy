/**
 * The factor ranking of report_tables.py: binary "has a channel / ad /
 * influencer" IVs over the sales rows of the two dates, decile IVs of the
 * coupon and refund amounts binned at breakpoints taken from the
 * comparison date, and the stable descending sort of all factors by IV.
 */
module IvRanking {
  import opened Seqs
  import Text
  import opened Tables
  import opened WoeIv
  import opened ReportTables

  // ---------------------------------------------------------------
  // Binary membership IV of a sales dimension
  // ---------------------------------------------------------------

  function BinaryName(dim: SalesDim): string
  {
    match dim
    case ChannelDim => "has_channel"
    case AdDim => "has_ad"
    case InfluencerDim => "has_influencer"
  }

  /** The rows of today followed by the rows of the comparison date. */
  function Stacked(items: Items, today: int, compare: int): seq<ItemRow>
  {
    RowsOn(items.rows, ItemDay, today) + RowsOn(items.rows, ItemDay, compare)
  }

  /** The 0/1 flag of one row: 1 for a member value, 0 otherwise or without the column. */
  function Flag(items: Items, c: Category, r: ItemRow): real
  {
    if Cat(c) in items.cols && IsMember(CellOf(r, c)) then 1.0 else 0.0
  }

  /**
   * _stack_binary_for_iv: the flag column and the is_today label of the
   * stacked rows, today's rows labelled 1 and then the comparison date's
   * rows labelled 0.
   */
  function StackBinary(items: Items, today: int, compare: int, dim: SalesDim): (r: (Column, seq<bool>))
    requires OrderTs in items.cols
    ensures var rows := Stacked(items, today, compare);
      var nt := |RowsOn(items.rows, ItemDay, today)|;
      r.0.Numeric? && r.0.name == BinaryName(dim) && |r.0.xs| == |r.1| == |rows|
      && (forall i :: 0 <= i < |rows| ==> rows[i].day == (if i < nt then today else compare))
      && (forall i :: 0 <= i < |r.1| ==> (r.1[i] <==> i < nt))
      && (forall i :: 0 <= i < |rows| ==>
            (r.0.xs[i] == 1.0 <==> Cat(CategoryOf(dim)) in items.cols && IsMember(CellOf(rows[i], CategoryOf(dim))))
            && (r.0.xs[i] == 0.0 || r.0.xs[i] == 1.0))
  {
    var t := RowsOn(items.rows, ItemDay, today);
    var rows := Stacked(items, today, compare);
    assert forall i :: |t| <= i < |rows| ==> rows[i] == RowsOn(items.rows, ItemDay, compare)[i - |t|];
    var c := CategoryOf(dim);
    (Numeric(BinaryName(dim), seq(|rows|, i requires 0 <= i < |rows| => Flag(items, c, rows[i]))),
     seq(|rows|, i requires 0 <= i < |rows| => i < |t|))
  }

  /** compute_iv_binary: the IV of the stacked flag column with 2 bins. */
  function ComputeIvBinary(items: Items, today: int, compare: int, dim: SalesDim, num: Numerics): real
    requires OrderTs in items.cols
  {
    var (flags, target) := StackBinary(items, today, compare, dim);
    ColumnIv(flags, target, 2, num)
  }

  /** The binary IV is never negative. */
  lemma IvBinaryNonNegative(items: Items, today: int, compare: int, dim: SalesDim, num: Numerics)
    requires OrderTs in items.cols && LogLike(num.ln)
    ensures ComputeIvBinary(items, today, compare, dim, num) >= 0.0
  {
    var (flags, target) := StackBinary(items, today, compare, dim);
    IvNonNegative(flags, target, 2, num);
  }

  /** With no rows on either date the binary IV is 0. */
  lemma IvBinaryNoRows(items: Items, today: int, compare: int, dim: SalesDim, num: Numerics)
    requires OrderTs in items.cols && Stacked(items, today, compare) == []
    ensures ComputeIvBinary(items, today, compare, dim, num) == 0.0
  {
    var (flags, target) := StackBinary(items, today, compare, dim);
    VarWoeEmpty(flags, target, 2, num);
  }

  lemma {:induction false} ConstantUnique(xs: seq<real>, v: real)
    requires xs != [] && forall i :: 0 <= i < |xs| ==> xs[i] == v
    ensures Unique(xs) == [v]
  {
    if |xs| > 1 {
      ConstantUnique(xs[..|xs| - 1], v);
    }
  }

  lemma ConstantDistinct<T>(s: seq<T>, v: T)
    requires s != [] && forall i :: 0 <= i < |s| ==> s[i] == v
    ensures |Distinct(s)| == 1
  {
    assert s[0] in Distinct(s);
  }

  /**
   * Without the dimension's column every flag is 0, all rows fall into one
   * bin, and the binary IV is 0.
   */
  lemma IvBinaryAbsentColumn(items: Items, today: int, compare: int, dim: SalesDim, num: Numerics)
    requires OrderTs in items.cols && Cat(CategoryOf(dim)) !in items.cols && LogLike(num.ln)
    ensures ComputeIvBinary(items, today, compare, dim, num) == 0.0
  {
    var (flags, target) := StackBinary(items, today, compare, dim);
    if target == [] {
      IvBinaryNoRows(items, today, compare, dim, num);
    } else {
      ConstantUnique(flags.xs, 0.0);
      var keys := BinKeys(flags, 2, num.qcutEdges);
      ConstantDistinct(keys, NumLevel(0.0));
      VarWoeBins(flags, target, 2, num);
      SingleBinIvZero(flags, target, 2, num);
    }
  }

  // ---------------------------------------------------------------
  // Decile IV of a cost amount
  // ---------------------------------------------------------------

  /** One order item or adjustment: its day and the cost amount it carries. */
  datatype Obs = Obs(day: int, value: real)

  /** The observations dated today or the comparison date, in order. */
  function OnEither(obs: seq<Obs>, today: int, compare: int): (sub: seq<Obs>)
    ensures |sub| <= |obs|
    ensures forall i :: 0 <= i < |sub| ==> sub[i].day == today || sub[i].day == compare
  {
    if obs == [] then []
    else
      var o := obs[|obs| - 1];
      OnEither(obs[..|obs| - 1], today, compare) + (if o.day == today || o.day == compare then [o] else [])
  }

  /** The indices of the observations dated on day `d`. */
  ghost function DatedOn(sub: seq<Obs>, d: int): set<nat>
  {
    set i: nat | i < |sub| && sub[i].day == d
  }

  /**
   * The values of the comparison date, in order: the only input of the
   * breakpoints. There is one per comparison-dated observation, and a
   * value occurs iff such an observation carries it.
   */
  function BenchValues(sub: seq<Obs>, compare: int): (vs: seq<real>)
    ensures |vs| == |DatedOn(sub, compare)|
    ensures forall v :: v in vs <==> exists i :: 0 <= i < |sub| && sub[i].day == compare && sub[i].value == v
  {
    if sub == [] then []
    else
      var p := sub[..|sub| - 1];
      var o := sub[|sub| - 1];
      DatedOnSnoc(sub, compare);
      assert forall i :: 0 <= i < |p| ==> p[i] == sub[i];
      BenchValues(p, compare) + (if o.day == compare then [o.value] else [])
  }

  lemma DatedOnSnoc(sub: seq<Obs>, d: int)
    requires sub != []
    ensures DatedOn(sub, d) == DatedOn(sub[..|sub| - 1], d) + (if sub[|sub| - 1].day == d then {|sub| - 1} else {})
    ensures |sub| - 1 !in DatedOn(sub[..|sub| - 1], d)
  {
  }

  lemma {:induction false} BenchValuesAppend(a: seq<Obs>, b: seq<Obs>, compare: int)
    ensures BenchValues(a + b, compare) == BenchValues(a, compare) + BenchValues(b, compare)
  {
    if b == [] {
      assert a + b == a;
    } else {
      assert (a + b)[..|a + b| - 1] == a + b[..|b| - 1];
      BenchValuesAppend(a, b[..|b| - 1], compare);
    }
  }

  /** The deduplicated inner percentiles of the comparison date's values. */
  function DecileEdges(sub: seq<Obs>, compare: int, bins: nat, num: Numerics): (edges: seq<real>)
    ensures StrictlyIncreasing(edges)
    ensures forall y :: y in edges <==> y in num.percentiles(BenchValues(sub, compare), bins)
  {
    Unique(num.percentiles(BenchValues(sub, compare), bins))
  }

  /**
   * Only the comparison date moves the breakpoints: inserting or removing
   * an observation of any other day, today's included, changes neither the
   * number of comparison values nor the edges.
   */
  lemma EdgesIgnoreOtherDays(a: seq<Obs>, o: Obs, b: seq<Obs>, compare: int, bins: nat, num: Numerics)
    requires o.day != compare
    ensures |BenchValues(a + [o] + b, compare)| == |BenchValues(a + b, compare)|
    ensures DecileEdges(a + [o] + b, compare, bins, num) == DecileEdges(a + b, compare, bins, num)
  {
    BenchValuesAppend(a + [o], b, compare);
    BenchValuesAppend(a, [o], compare);
    BenchValuesAppend(a, b, compare);
    assert BenchValues([o], compare) == [] by {
      assert [o][..0] == [];
    }
    assert BenchValues(a + [o] + b, compare) == BenchValues(a + b, compare);
  }

  /** The bin label column: str of the right-closed interval index of each value. */
  function DecileColumn(sub: seq<Obs>, edges: seq<real>): (c: Column)
    ensures c.Categorical? && |c.levels| == |sub|
    ensures forall i :: 0 <= i < |sub| ==> c.levels[i] == Text.NatToString(IntervalOf(sub[i].value, edges))
  {
    Categorical("bin", seq(|sub|, i requires 0 <= i < |sub| => Text.NatToString(IntervalOf(sub[i].value, edges))))
  }

  function IsTodayLabels(sub: seq<Obs>, today: int): (t: seq<bool>)
    ensures |t| == |sub| && forall i :: 0 <= i < |sub| ==> (t[i] <==> sub[i].day == today)
  {
    seq(|sub|, i requires 0 <= i < |sub| => sub[i].day == today)
  }

  /**
   * _iv_cost_by_decile: 0 when no row is dated on either date, the value
   * column is missing, the comparison date has fewer than 2 rows, or fewer
   * than 2 distinct breakpoints remain; otherwise the IV of the bin labels
   * against "dated today", with len(breakpoints) + 1 bins.
   */
  function CostIvByDecile(obs: seq<Obs>, hasValue: bool, today: int, compare: int, bins: nat, num: Numerics)
    : (iv: real)
    ensures var sub := OnEither(obs, today, compare);
      iv != 0.0 ==> sub != [] && hasValue && |BenchValues(sub, compare)| >= 2
                    && |DecileEdges(sub, compare, bins, num)| >= 2
  {
    var sub := OnEither(obs, today, compare);
    if sub == [] || !hasValue then 0.0
    else if |BenchValues(sub, compare)| < 2 then 0.0
    else
      var edges := DecileEdges(sub, compare, bins, num);
      if |edges| < 2 then 0.0
      else ColumnIv(DecileColumn(sub, edges), IsTodayLabels(sub, today), |edges| + 1, num)
  }

  /** Dropping the rows of other days keeps the comparison date's values, in order. */
  lemma {:induction false} OnEitherBench(obs: seq<Obs>, today: int, compare: int)
    ensures BenchValues(OnEither(obs, today, compare), compare) == BenchValues(obs, compare)
  {
    if obs != [] {
      var p, o := obs[..|obs| - 1], obs[|obs| - 1];
      var x := if o.day == today || o.day == compare then [o] else [];
      OnEitherBench(p, today, compare);
      BenchValuesAppend(OnEither(p, today, compare), x, compare);
      assert BenchValues(x, compare) == (if o.day == compare then [o.value] else []) by {
        if x != [] {
          assert x[..0] == [];
        }
      }
    }
  }

  /**
   * Fewer than 2 observations dated on the comparison date, whatever the
   * other days hold, give a decile IV of 0.
   */
  lemma FewComparisonRowsZero(obs: seq<Obs>, hasValue: bool, today: int, compare: int, bins: nat, num: Numerics)
    requires |DatedOn(obs, compare)| < 2
    ensures CostIvByDecile(obs, hasValue, today, compare, bins, num) == 0.0
  {
    OnEitherBench(obs, today, compare);
  }

  /**
   * Each binned value lies in the interval its label names: label i means
   * e[i-1] < value <= e[i], with -inf and +inf as the outer bounds.
   */
  lemma DecileBinBounds(sub: seq<Obs>, compare: int, bins: nat, num: Numerics, i: nat)
    requires i < |sub|
    ensures var edges := DecileEdges(sub, compare, bins, num);
      var k := IntervalOf(sub[i].value, edges);
      DecileColumn(sub, edges).levels[i] == Text.NatToString(k) && k <= |edges|
      && (k == 0 || edges[k - 1] < sub[i].value) && (k == |edges| || sub[i].value <= edges[k])
  {
    IntervalOfBounds(sub[i].value, DecileEdges(sub, compare, bins, num));
  }

  /** The decile IV is never negative. */
  lemma CostIvNonNegative(obs: seq<Obs>, hasValue: bool, today: int, compare: int, bins: nat, num: Numerics)
    requires LogLike(num.ln)
    ensures CostIvByDecile(obs, hasValue, today, compare, bins, num) >= 0.0
  {
    var sub := OnEither(obs, today, compare);
    if sub != [] && hasValue && |BenchValues(sub, compare)| >= 2 {
      var edges := DecileEdges(sub, compare, bins, num);
      if |edges| >= 2 {
        IvNonNegative(DecileColumn(sub, edges), IsTodayLabels(sub, today), |edges| + 1, num);
      }
    }
  }

  // ---------------------------------------------------------------
  // The ranking
  // ---------------------------------------------------------------

  datatype CostKind = CouponCost | RefundCost

  /** A ranked factor: a sales dimension, or a cost amount. */
  datatype Factor = Sales(dim: SalesDim) | Cost(kind: CostKind)

  datatype RankEntry = RankEntry(factor: Factor, iv: real)

  function IvOf(e: RankEntry): real { e.iv }

  function CouponObs(items: Items): (obs: seq<Obs>)
    ensures |obs| == |items.rows| && forall i :: 0 <= i < |obs| ==> obs[i] == Obs(items.rows[i].day, items.rows[i].discount)
  {
    seq(|items.rows|, i requires 0 <= i < |items.rows| => Obs(items.rows[i].day, items.rows[i].discount))
  }

  function RefundObs(adj: Adjustments): (obs: seq<Obs>)
    ensures |obs| == |adj.rows| && forall i :: 0 <= i < |obs| ==> obs[i] == Obs(adj.rows[i].day, adj.rows[i].amount)
  {
    seq(|adj.rows|, i requires 0 <= i < |adj.rows| => Obs(adj.rows[i].day, adj.rows[i].amount))
  }

  /**
   * compute_iv_for_cost_columns: a coupon entry when order_items has
   * discount_amount and order_ts, then a refund entry when adjustments
   * has event_ts and amount; each with the decile IV over 10 bins.
   */
  function CostColumnIvs(items: Items, adj: Adjustments, today: int, compare: int, num: Numerics)
    : (out: seq<RankEntry>)
    ensures var coupon := DiscountAmount in items.cols && OrderTs in items.cols;
      var refund := EventTs in adj.cols && Amount in adj.cols;
      |out| == (if coupon then 1 else 0) + (if refund then 1 else 0)
      && (coupon ==> out[0] == RankEntry(Cost(CouponCost), CostIvByDecile(CouponObs(items), true, today, compare, 10, num)))
      && (refund ==> out[|out| - 1] == RankEntry(Cost(RefundCost), CostIvByDecile(RefundObs(adj), true, today, compare, 10, num)))
  {
    (if DiscountAmount in items.cols && OrderTs in items.cols
     then [RankEntry(Cost(CouponCost), CostIvByDecile(CouponObs(items), true, today, compare, 10, num))]
     else [])
    + (if EventTs in adj.cols && Amount in adj.cols
       then [RankEntry(Cost(RefundCost), CostIvByDecile(RefundObs(adj), true, today, compare, 10, num))]
       else [])
  }

  /** The three sales factors in their fixed order, then the cost entries. */
  function Unranked(channelIv: real, adIv: real, influencerIv: real, costs: seq<RankEntry>): seq<RankEntry>
  {
    [RankEntry(Sales(ChannelDim), channelIv), RankEntry(Sales(AdDim), adIv),
     RankEntry(Sales(InfluencerDim), influencerIv)] + costs
  }

  lemma UnrankedStep(channelIv: real, adIv: real, influencerIv: real, costs: seq<RankEntry>, i: nat)
    requires i < |costs|
    ensures Unranked(channelIv, adIv, influencerIv, costs[..i + 1])
         == Unranked(channelIv, adIv, influencerIv, costs[..i]) + [costs[i]]
  {
    assert costs[..i + 1] == costs[..i] + [costs[i]];
  }

  /**
   * get_iv_ranking: the three binary IVs, the cost IVs, and every factor
   * sorted by IV, largest first. The result is a permutation of the
   * factors, and factors with equal IV keep their insertion order.
   */
  method GetIvRanking(items: Items, adj: Adjustments, today: int, compare: int, num: Numerics)
    returns (channelIv: real, adIv: real, influencerIv: real, costIvs: seq<RankEntry>, ranking: seq<RankEntry>)
    requires OrderTs in items.cols
    ensures channelIv == ComputeIvBinary(items, today, compare, ChannelDim, num)
    ensures adIv == ComputeIvBinary(items, today, compare, AdDim, num)
    ensures influencerIv == ComputeIvBinary(items, today, compare, InfluencerDim, num)
    ensures costIvs == CostColumnIvs(items, adj, today, compare, num)
    ensures |ranking| == 3 + |costIvs|
    ensures multiset(ranking) == multiset(Unranked(channelIv, adIv, influencerIv, costIvs))
    ensures SortedBy(ranking, IvOf, true)
    ensures forall v :: WithKey(ranking, IvOf, v) == WithKey(Unranked(channelIv, adIv, influencerIv, costIvs), IvOf, v)
  {
    channelIv := ComputeIvBinary(items, today, compare, ChannelDim, num);
    adIv := ComputeIvBinary(items, today, compare, AdDim, num);
    influencerIv := ComputeIvBinary(items, today, compare, InfluencerDim, num);
    costIvs := CostColumnIvs(items, adj, today, compare, num);
    ranking := RankFactors(channelIv, adIv, influencerIv, costIvs);
  }

  /**
   * The ranking list of get_iv_ranking: the three sales factors, then one
   * entry per cost IV row, stably sorted by IV, largest first.
   */
  method RankFactors(channelIv: real, adIv: real, influencerIv: real, costIvs: seq<RankEntry>)
    returns (ranking: seq<RankEntry>)
    ensures |ranking| == 3 + |costIvs|
    ensures multiset(ranking) == multiset(Unranked(channelIv, adIv, influencerIv, costIvs))
    ensures SortedBy(ranking, IvOf, true)
    ensures forall v :: WithKey(ranking, IvOf, v) == WithKey(Unranked(channelIv, adIv, influencerIv, costIvs), IvOf, v)
  {
    var entries := [RankEntry(Sales(ChannelDim), channelIv), RankEntry(Sales(AdDim), adIv),
                    RankEntry(Sales(InfluencerDim), influencerIv)];
    for i := 0 to |costIvs|
      invariant entries == Unranked(channelIv, adIv, influencerIv, costIvs[..i])
    {
      entries := entries + [costIvs[i]];
      UnrankedStep(channelIv, adIv, influencerIv, costIvs, i);
    }
    assert costIvs[..|costIvs|] == costIvs;
    ranking := Sort(entries, IvOf, true);
    SortStableAll(entries, IvOf, true);
  }

  /** Every IV in the ranking is non-negative. */
  lemma RankingNonNegative(items: Items, adj: Adjustments, today: int, compare: int, num: Numerics)
    requires OrderTs in items.cols && LogLike(num.ln)
    ensures var costs := CostColumnIvs(items, adj, today, compare, num);
      forall i :: 0 <= i < |costs| ==> costs[i].iv >= 0.0
    ensures forall dim :: ComputeIvBinary(items, today, compare, dim, num) >= 0.0
  {
    CostIvNonNegative(CouponObs(items), true, today, compare, 10, num);
    CostIvNonNegative(RefundObs(adj), true, today, compare, 10, num);
    forall dim ensures ComputeIvBinary(items, today, compare, dim, num) >= 0.0 {
      IvBinaryNonNegative(items, today, compare, dim, num);
    }
  }
}
