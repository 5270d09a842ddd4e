/**
 * Weight of Evidence / Information Value of each column of a table
 * against a binary label (woe_iv.py).
 *
 * The floating-point primitives are parameters: `ln` is np.log, and
 * `qcutEdges` stands for the inner breakpoints pd.qcut(x, bins,
 * duplicates='drop') chooses. Only the assignment of a value to a bin
 * given those breakpoints is modelled.
 */
module WoeIv {
  import opened Seqs

  /** A column of the input frame: a numeric dtype, or values already stringified. */
  datatype Column = Numeric(name: string, xs: seq<real>) | Categorical(name: string, levels: seq<string>)
  {
    function Size(): nat
    {
      match this
      case Numeric(_, xs) => |xs|
      case Categorical(_, ls) => |ls|
    }
  }

  /** np.log, pd.qcut's inner edges and np.percentile at the inner deciles. */
  datatype Numerics = Numerics(
    ln: real -> real,
    qcutEdges: (seq<real>, nat) -> seq<real>,
    percentiles: (seq<real>, nat) -> seq<real>)

  /** What the IV sign argument needs of ln: sign(ln(x)) == sign(x - 1) on positive reals. */
  ghost predicate LogLike(ln: real -> real)
  {
    forall x: real :: x > 0.0 ==> (ln(x) > 0.0 <==> x > 1.0) && (ln(x) < 0.0 <==> x < 1.0)
  }

  // ---------------------------------------------------------------
  // Binning
  // ---------------------------------------------------------------

  /** The group a row falls into: a quantile interval, or the stringified value itself. */
  datatype BinKey = Interval(index: nat) | NumLevel(x: real) | Level(s: string)

  /** A numeric column with more distinct values than `bins` is cut at quantiles. */
  predicate QuantileBinned(c: Column, bins: nat)
  {
    c.Numeric? && |Unique(c.xs)| > bins
  }

  /** Number of breakpoints strictly below `x`: the bin of `x` under right-closed intervals. */
  function IntervalOf(x: real, edges: seq<real>): nat
  {
    if edges == [] then 0
    else IntervalOf(x, edges[..|edges| - 1]) + (if edges[|edges| - 1] < x then 1 else 0)
  }

  /**
   * With increasing breakpoints e[0] < ... < e[m-1], value `x` lands in bin `i`
   * exactly when e[i-1] < x <= e[i] (the outer bounds being -inf and +inf).
   */
  lemma {:induction false} IntervalOfBounds(x: real, edges: seq<real>)
    requires StrictlyIncreasing(edges)
    ensures var i := IntervalOf(x, edges);
      i <= |edges| && (i == 0 || edges[i - 1] < x) && (i == |edges| || x <= edges[i])
  {
    if edges != [] {
      var p := edges[..|edges| - 1];
      IntervalOfBounds(x, p);
      var i := IntervalOf(x, p);
      if edges[|edges| - 1] >= x && i > 0 {
        assert edges[i - 1] == p[i - 1];
      }
    }
  }

  /** The bin key of every row of column `c`. */
  function BinKeys(c: Column, bins: nat, qcutEdges: (seq<real>, nat) -> seq<real>): (ks: seq<BinKey>)
    ensures |ks| == c.Size()
    ensures QuantileBinned(c, bins) ==>
      forall i :: 0 <= i < |ks| ==> ks[i] == Interval(IntervalOf(c.xs[i], qcutEdges(c.xs, bins)))
    ensures c.Numeric? && !QuantileBinned(c, bins) ==>
      forall i :: 0 <= i < |ks| ==> ks[i] == NumLevel(c.xs[i])
    ensures c.Categorical? ==> forall i :: 0 <= i < |ks| ==> ks[i] == Level(c.levels[i])
  {
    match c
    case Numeric(_, xs) =>
      if |Unique(xs)| > bins then
        var edges := qcutEdges(xs, bins);
        seq(|xs|, i requires 0 <= i < |xs| => Interval(IntervalOf(xs[i], edges)))
      else
        seq(|xs|, i requires 0 <= i < |xs| => NumLevel(xs[i]))
    case Categorical(_, ls) =>
      seq(|ls|, i requires 0 <= i < |ls| => Level(ls[i]))
  }

  // ---------------------------------------------------------------
  // Per-bin counts
  // ---------------------------------------------------------------

  /** Rows of bin `k` whose label is 1. */
  function EventCount(keys: seq<BinKey>, target: seq<bool>, k: BinKey): nat
    requires |keys| == |target|
  {
    if keys == [] then 0
    else
      EventCount(keys[..|keys| - 1], target[..|target| - 1], k)
      + (if keys[|keys| - 1] == k && target[|target| - 1] then 1 else 0)
  }

  lemma {:induction false} EventsAtMostCount(keys: seq<BinKey>, target: seq<bool>, k: BinKey)
    requires |keys| == |target|
    ensures EventCount(keys, target, k) <= Count(keys, k)
  {
    if keys != [] {
      EventsAtMostCount(keys[..|keys| - 1], target[..|target| - 1], k);
    }
  }

  function CountTrue(target: seq<bool>): nat
  {
    if target == [] then 0 else CountTrue(target[..|target| - 1]) + (if target[|target| - 1] then 1 else 0)
  }

  /** One row of the WoE table. */
  datatype WoeRow = WoeRow(
    varName: string, cutOff: BinKey,
    n: int, events: int, nonEvents: int,
    pctE: real, pctNE: real, woe: real, iv: real)

  /** A bin with its row count and label-1 count. */
  datatype BinCount = BinCount(key: BinKey, n: nat, events: nat)

  /** groupby(x).agg(count, sum) over the bins `ks`. */
  function BinCounts(keys: seq<BinKey>, target: seq<bool>, ks: seq<BinKey>): (cs: seq<BinCount>)
    requires |keys| == |target|
    ensures |cs| == |ks|
    ensures forall i :: 0 <= i < |ks| ==>
      cs[i] == BinCount(ks[i], Count(keys, ks[i]), EventCount(keys, target, ks[i]))
  {
    if ks == [] then []
    else
      var k := ks[|ks| - 1];
      BinCounts(keys, target, ks[..|ks| - 1]) + [BinCount(k, Count(keys, k), EventCount(keys, target, k))]
  }

  /** Events + 0.5 summed over the bins: the denominator of PCT_of_E. */
  function SmoothedEvents(cs: seq<BinCount>): real
  {
    if cs == [] then 0.0
    else SmoothedEvents(cs[..|cs| - 1]) + (cs[|cs| - 1].events as real + 0.5)
  }

  /** Non_Events + 0.5 summed over the bins: the denominator of PCT_of_NE. */
  function SmoothedNonEvents(cs: seq<BinCount>): real
  {
    if cs == [] then 0.0
    else SmoothedNonEvents(cs[..|cs| - 1]) + ((cs[|cs| - 1].n - cs[|cs| - 1].events) as real + 0.5)
  }

  function RowOf(name: string, c: BinCount, se: real, sne: real, ln: real -> real): WoeRow
    requires se > 0.0 && sne > 0.0
  {
    var pE := Share(c.events as real + 0.5, se);
    var pNE := Share((c.n - c.events) as real + 0.5, sne);
    var w := ln(pE / pNE);
    WoeRow(name, c.key, c.n, c.events, c.n - c.events, pE, pNE, w, (pE - pNE) * w)
  }

  /** A smoothed count as a percentage of its column total. */
  function Share(x: real, total: real): real
    requires total > 0.0
  {
    x * 100.0 / total
  }

  function RowsOf(name: string, cs: seq<BinCount>, se: real, sne: real, ln: real -> real): (rows: seq<WoeRow>)
    requires se > 0.0 && sne > 0.0
    ensures |rows| == |cs|
    ensures forall i :: 0 <= i < |cs| ==> rows[i] == RowOf(name, cs[i], se, sne, ln)
  {
    if cs == [] then []
    else RowsOf(name, cs[..|cs| - 1], se, sne, ln) + [RowOf(name, cs[|cs| - 1], se, sne, ln)]
  }

  lemma {:induction false} SmoothedPositive(cs: seq<BinCount>)
    requires forall i :: 0 <= i < |cs| ==> cs[i].events <= cs[i].n
    ensures cs != [] ==> SmoothedEvents(cs) > 0.0 && SmoothedNonEvents(cs) > 0.0
    ensures SmoothedEvents(cs) >= 0.0 && SmoothedNonEvents(cs) >= 0.0
  {
    if cs != [] { SmoothedPositive(cs[..|cs| - 1]); }
  }

  /** The bins of a column with their counts, in order of first appearance. */
  function BinTable(keys: seq<BinKey>, target: seq<bool>): (cs: seq<BinCount>)
    requires |keys| == |target|
    ensures forall i :: 0 <= i < |cs| ==> cs[i].events <= cs[i].n
  {
    var cs := BinCounts(keys, target, Distinct(keys));
    assert forall i :: 0 <= i < |cs| ==> cs[i].events <= cs[i].n by {
      forall i | 0 <= i < |cs| ensures cs[i].events <= cs[i].n {
        EventsAtMostCount(keys, target, Distinct(keys)[i]);
      }
    }
    cs
  }

  /** The WoE rows of a column whose rows fall into bins `keys`. */
  function WoeOfKeys(name: string, keys: seq<BinKey>, target: seq<bool>, ln: real -> real): seq<WoeRow>
    requires |keys| == |target|
  {
    var cs := BinTable(keys, target);
    SmoothedPositive(cs);
    if cs == [] then [] else RowsOf(name, cs, SmoothedEvents(cs), SmoothedNonEvents(cs), ln)
  }

  /** Each WoE row carries the column's name, and Non_Events is N − Events with 0 ≤ Events ≤ N. */
  lemma WoeOfKeysCounts(name: string, keys: seq<BinKey>, target: seq<bool>, ln: real -> real)
    requires |keys| == |target|
    ensures var rows := WoeOfKeys(name, keys, target, ln);
      forall i :: 0 <= i < |rows| ==>
        rows[i].varName == name && 0 <= rows[i].events <= rows[i].n
        && rows[i].nonEvents == rows[i].n - rows[i].events
  {
    var cs := BinTable(keys, target);
    SmoothedPositive(cs);
    if cs != [] {
      var se, sne := SmoothedEvents(cs), SmoothedNonEvents(cs);
      var rows := RowsOf(name, cs, se, sne, ln);
      forall i | 0 <= i < |rows|
        ensures rows[i].varName == name && 0 <= rows[i].events <= rows[i].n
          && rows[i].nonEvents == rows[i].n - rows[i].events
      {
        RowOfFields(name, cs[i], se, sne, ln);
      }
    }
  }

  /** The WoE table of one column. */
  function VarWoe(c: Column, target: seq<bool>, bins: nat, num: Numerics): seq<WoeRow>
    requires c.Size() == |target|
  {
    WoeOfKeys(c.name, BinKeys(c, bins, num.qcutEdges), target, num.ln)
  }

  /** The IV of a column: the sum of its bins' IV terms. */
  function IvTotal(rows: seq<WoeRow>): real
  {
    if rows == [] then 0.0 else IvTotal(rows[..|rows| - 1]) + rows[|rows| - 1].iv
  }

  // ---------------------------------------------------------------
  // Properties of one column's WoE table
  // ---------------------------------------------------------------

  function SumN(rows: seq<WoeRow>): int
  {
    if rows == [] then 0 else SumN(rows[..|rows| - 1]) + rows[|rows| - 1].n
  }

  function SumEvents(rows: seq<WoeRow>): int
  {
    if rows == [] then 0 else SumEvents(rows[..|rows| - 1]) + rows[|rows| - 1].events
  }

  function SumPctE(rows: seq<WoeRow>): real
  {
    if rows == [] then 0.0 else SumPctE(rows[..|rows| - 1]) + rows[|rows| - 1].pctE
  }

  function SumPctNE(rows: seq<WoeRow>): real
  {
    if rows == [] then 0.0 else SumPctNE(rows[..|rows| - 1]) + rows[|rows| - 1].pctNE
  }

  /** Row count of the bins `ks`. */
  function SumCounts(keys: seq<BinKey>, ks: seq<BinKey>): int
  {
    if ks == [] then 0 else SumCounts(keys, ks[..|ks| - 1]) + Count(keys, ks[|ks| - 1])
  }

  /** Label-1 count of the bins `ks`. */
  function SumEventCounts(keys: seq<BinKey>, target: seq<bool>, ks: seq<BinKey>): int
    requires |keys| == |target|
  {
    if ks == [] then 0 else SumEventCounts(keys, target, ks[..|ks| - 1]) + EventCount(keys, target, ks[|ks| - 1])
  }

  lemma {:induction false} CountOnce(ks: seq<BinKey>, x: BinKey)
    requires NoDup(ks)
    ensures Count(ks, x) == if x in ks then 1 else 0
  {
    if ks != [] {
      var p := ks[..|ks| - 1];
      CountOnce(p, x);
      assert ks == p + [ks[|ks| - 1]];
    }
  }

  lemma {:induction false} SumCountsSnoc(keys: seq<BinKey>, x: BinKey, ks: seq<BinKey>)
    ensures SumCounts(keys + [x], ks) == SumCounts(keys, ks) + Count(ks, x)
  {
    if ks != [] {
      SumCountsSnoc(keys, x, ks[..|ks| - 1]);
      assert (keys + [x])[..|keys|] == keys;
    }
  }

  lemma {:induction false} SumEventCountsSnoc(keys: seq<BinKey>, target: seq<bool>, x: BinKey, t: bool, ks: seq<BinKey>)
    requires |keys| == |target|
    ensures SumEventCounts(keys + [x], target + [t], ks)
         == SumEventCounts(keys, target, ks) + (if t then Count(ks, x) else 0)
  {
    if ks != [] {
      SumEventCountsSnoc(keys, target, x, t, ks[..|ks| - 1]);
      assert (keys + [x])[..|keys|] == keys;
      assert (target + [t])[..|target|] == target;
    }
  }

  /** Over duplicate-free bins that cover every row, the counts add up to the row count and the label-1 count. */
  lemma {:induction false} CountsPartition(keys: seq<BinKey>, target: seq<bool>, ks: seq<BinKey>)
    requires |keys| == |target| && NoDup(ks)
    requires forall i :: 0 <= i < |keys| ==> keys[i] in ks
    ensures SumCounts(keys, ks) == |keys|
    ensures SumEventCounts(keys, target, ks) == CountTrue(target)
  {
    if keys == [] {
      EmptyCounts(keys, target, ks);
    } else {
      var p, x := keys[..|keys| - 1], keys[|keys| - 1];
      var q, t := target[..|target| - 1], target[|target| - 1];
      CountsPartition(p, q, ks);
      assert keys == p + [x] && target == q + [t];
      SumCountsSnoc(p, x, ks);
      SumEventCountsSnoc(p, q, x, t, ks);
      CountOnce(ks, x);
    }
  }

  lemma {:induction false} EmptyCounts(keys: seq<BinKey>, target: seq<bool>, ks: seq<BinKey>)
    requires keys == [] && target == []
    ensures SumCounts(keys, ks) == 0 && SumEventCounts(keys, target, ks) == 0
  {
    if ks != [] { EmptyCounts(keys, target, ks[..|ks| - 1]); }
  }

  lemma {:induction false} RowSums(name: string, keys: seq<BinKey>, target: seq<bool>, ks: seq<BinKey>,
                                   se: real, sne: real, ln: real -> real)
    requires |keys| == |target| && se > 0.0 && sne > 0.0
    ensures var rows := RowsOf(name, BinCounts(keys, target, ks), se, sne, ln);
      SumN(rows) == SumCounts(keys, ks) && SumEvents(rows) == SumEventCounts(keys, target, ks)
  {
    if ks != [] {
      var cs := BinCounts(keys, target, ks);
      assert cs[..|cs| - 1] == BinCounts(keys, target, ks[..|ks| - 1]);
      var rows := RowsOf(name, cs, se, sne, ln);
      assert rows[..|rows| - 1] == RowsOf(name, cs[..|cs| - 1], se, sne, ln);
      RowSums(name, keys, target, ks[..|ks| - 1], se, sne, ln);
    }
  }

  /**
   * The bins of a column partition its rows: the bin sizes add up to the
   * row count and the bins' Events add up to the number of label-1 rows.
   */
  lemma BinsPartitionRows(c: Column, target: seq<bool>, bins: nat, num: Numerics)
    requires c.Size() == |target|
    ensures SumN(VarWoe(c, target, bins, num)) == |target|
    ensures SumEvents(VarWoe(c, target, bins, num)) == CountTrue(target)
  {
    var keys := BinKeys(c, bins, num.qcutEdges);
    var ks := Distinct(keys);
    var cs := BinTable(keys, target);
    CountsPartition(keys, target, ks);
    if cs == [] {
      CountTrueEmpty(target);
    } else {
      SmoothedPositive(cs);
      RowSums(c.name, keys, target, ks, SmoothedEvents(cs), SmoothedNonEvents(cs), num.ln);
    }
  }

  lemma CountTrueEmpty(target: seq<bool>)
    requires target == []
    ensures CountTrue(target) == 0
  {
  }

  /**
   * The WoE rows of a column are its distinct bins, in order of first
   * appearance, with N the rows in the bin and Events its label-1 rows.
   */
  lemma VarWoeBins(c: Column, target: seq<bool>, bins: nat, num: Numerics)
    requires c.Size() == |target| && |target| > 0
    ensures var keys := BinKeys(c, bins, num.qcutEdges);
      var rows := VarWoe(c, target, bins, num);
      |rows| == |Distinct(keys)| &&
      forall i :: 0 <= i < |rows| ==>
        rows[i].cutOff == Distinct(keys)[i]
        && rows[i].n == Count(keys, rows[i].cutOff)
        && rows[i].events == EventCount(keys, target, rows[i].cutOff)
  {
    var keys := BinKeys(c, bins, num.qcutEdges);
    assert keys[0] in Distinct(keys);
    var cs := BinTable(keys, target);
    SmoothedPositive(cs);
    var se, sne := SmoothedEvents(cs), SmoothedNonEvents(cs);
    var rows := RowsOf(c.name, cs, se, sne, num.ln);
    forall i | 0 <= i < |rows|
      ensures rows[i].cutOff == Distinct(keys)[i]
        && rows[i].n == Count(keys, rows[i].cutOff)
        && rows[i].events == EventCount(keys, target, rows[i].cutOff)
    {
      RowOfFields(c.name, cs[i], se, sne, num.ln);
    }
  }

  /** A WoE row carries its column's name, its bin and the bin's counts. */
  lemma RowOfFields(name: string, c: BinCount, se: real, sne: real, ln: real -> real)
    requires se > 0.0 && sne > 0.0
    ensures var r := RowOf(name, c, se, sne, ln);
      r.varName == name && r.cutOff == c.key && r.n == c.n && r.events == c.events && r.nonEvents == c.n - c.events
  {
  }

  lemma ShareAdd(a: real, b: real, total: real)
    requires total > 0.0
    ensures Share(a, total) + Share(b, total) == Share(a + b, total)
  {
  }

  lemma SharePositive(a: real, total: real)
    requires a > 0.0 && total > 0.0
    ensures Share(a, total) > 0.0
  {
  }

  lemma ShareOfTotal(total: real)
    requires total > 0.0
    ensures Share(total, total) == 100.0
  {
  }

  lemma RowsOfPrefix(name: string, cs: seq<BinCount>, se: real, sne: real, ln: real -> real)
    requires se > 0.0 && sne > 0.0 && cs != []
    ensures RowsOf(name, cs, se, sne, ln)[..|cs| - 1] == RowsOf(name, cs[..|cs| - 1], se, sne, ln)
  {
    var p := RowsOf(name, cs[..|cs| - 1], se, sne, ln);
    assert RowsOf(name, cs, se, sne, ln) == p + [RowOf(name, cs[|cs| - 1], se, sne, ln)];
  }

  lemma SharesSum(name: string, cs: seq<BinCount>, se: real, sne: real, ln: real -> real)
    requires se > 0.0 && sne > 0.0
    ensures SumPctE(RowsOf(name, cs, se, sne, ln)) == Share(SmoothedEvents(cs), se)
    ensures SumPctNE(RowsOf(name, cs, se, sne, ln)) == Share(SmoothedNonEvents(cs), sne)
  {
    EventSharesSum(name, cs, se, sne, ln);
    NonEventSharesSum(name, cs, se, sne, ln);
  }

  lemma {:induction false} EventSharesSum(name: string, cs: seq<BinCount>, se: real, sne: real, ln: real -> real)
    requires se > 0.0 && sne > 0.0
    ensures SumPctE(RowsOf(name, cs, se, sne, ln)) == Share(SmoothedEvents(cs), se)
  {
    if cs != [] {
      var p := cs[..|cs| - 1];
      var c := cs[|cs| - 1];
      var rows, r := RowsOf(name, cs, se, sne, ln), RowOf(name, c, se, sne, ln);
      RowsOfPrefix(name, cs, se, sne, ln);
      EventSharesSum(name, p, se, sne, ln);
      assert SumPctE(rows) == SumPctE(RowsOf(name, p, se, sne, ln)) + r.pctE;
      assert SmoothedEvents(cs) == SmoothedEvents(p) + (c.events as real + 0.5);
      assert r.pctE == Share(c.events as real + 0.5, se);
      ShareAdd(SmoothedEvents(p), c.events as real + 0.5, se);
    }
  }

  lemma {:induction false} NonEventSharesSum(name: string, cs: seq<BinCount>, se: real, sne: real, ln: real -> real)
    requires se > 0.0 && sne > 0.0
    ensures SumPctNE(RowsOf(name, cs, se, sne, ln)) == Share(SmoothedNonEvents(cs), sne)
  {
    if cs != [] {
      var p := cs[..|cs| - 1];
      var c := cs[|cs| - 1];
      var x := (c.n - c.events) as real + 0.5;
      var rows, r := RowsOf(name, cs, se, sne, ln), RowOf(name, c, se, sne, ln);
      RowsOfPrefix(name, cs, se, sne, ln);
      NonEventSharesSum(name, p, se, sne, ln);
      assert SumPctNE(rows) == SumPctNE(RowsOf(name, p, se, sne, ln)) + r.pctNE;
      assert SmoothedNonEvents(cs) == SmoothedNonEvents(p) + x;
      assert r.pctNE == Share(x, sne);
      ShareAdd(SmoothedNonEvents(p), x, sne);
    }
  }

  /**
   * The smoothed shares are strictly positive and each adds up to 100 over
   * a column's bins (when the column has rows at all).
   */
  lemma SharesPositiveAndSumTo100(c: Column, target: seq<bool>, bins: nat, num: Numerics)
    requires c.Size() == |target| && |target| > 0
    ensures var rows := VarWoe(c, target, bins, num);
      (forall i :: 0 <= i < |rows| ==> rows[i].pctE > 0.0 && rows[i].pctNE > 0.0)
      && SumPctE(rows) == 100.0 && SumPctNE(rows) == 100.0
  {
    var keys := BinKeys(c, bins, num.qcutEdges);
    assert keys[0] in Distinct(keys);
    var cs := BinTable(keys, target);
    SmoothedPositive(cs);
    var se, sne := SmoothedEvents(cs), SmoothedNonEvents(cs);
    SharesSum(c.name, cs, se, sne, num.ln);
    ShareOfTotal(se);
    ShareOfTotal(sne);
    var rows := RowsOf(c.name, cs, se, sne, num.ln);
    forall i | 0 <= i < |rows| ensures rows[i].pctE > 0.0 && rows[i].pctNE > 0.0 {
      SharePositive(cs[i].events as real + 0.5, se);
      SharePositive((cs[i].n - cs[i].events) as real + 0.5, sne);
    }
  }

  lemma RatioAboveOne(p: real, q: real)
    requires p > q > 0.0
    ensures p / q > 1.0
  {
    assert (p / q) * q == p;
  }

  lemma RatioBelowOne(p: real, q: real)
    requires 0.0 < p < q
    ensures p / q < 1.0
  {
    assert (p / q) * q == p;
    if p / q >= 1.0 {
      MulMono(p / q, 1.0, q);
    }
  }

  lemma MulMono(a: real, b: real, q: real)
    requires a >= b && q > 0.0
    ensures a * q >= b * q
  {
  }

  lemma RatioOne(p: real)
    requires p > 0.0
    ensures p / p == 1.0
  {
  }

  /** One bin term (PCT_of_E - PCT_of_NE) * ln(PCT_of_E / PCT_of_NE) is never negative, and positive when the shares differ. */
  lemma BinTermNonNegative(p: real, q: real, ln: real -> real)
    requires p > 0.0 && q > 0.0 && LogLike(ln)
    ensures (p - q) * ln(p / q) >= 0.0
    ensures p != q ==> (p - q) * ln(p / q) > 0.0
  {
    if p > q {
      RatioAboveOne(p, q);
      assert ln(p / q) > 0.0;
    } else if p < q {
      RatioBelowOne(p, q);
      assert ln(p / q) < 0.0;
    } else {
      RatioOne(p);
    }
  }

  lemma {:induction false} IvTotalNonNegative(rows: seq<WoeRow>)
    requires forall i :: 0 <= i < |rows| ==> rows[i].iv >= 0.0
    ensures IvTotal(rows) >= 0.0
    ensures (exists i :: 0 <= i < |rows| && rows[i].iv > 0.0) ==> IvTotal(rows) > 0.0
  {
    if rows != [] {
      var p := rows[..|rows| - 1];
      IvTotalNonNegative(p);
      if exists i :: 0 <= i < |rows| && rows[i].iv > 0.0 {
        var i :| 0 <= i < |rows| && rows[i].iv > 0.0;
        if i < |p| { assert p[i] == rows[i]; }
      }
    }
  }

  /** A row's WoE and IV term are computed from its own shares. */
  ghost predicate TermsHold(r: WoeRow, ln: real -> real)
  {
    r.pctE > 0.0 && r.pctNE > 0.0
    && r.woe == ln(r.pctE / r.pctNE) && r.iv == (r.pctE - r.pctNE) * r.woe
  }

  lemma RowOfTerms(name: string, c: BinCount, se: real, sne: real, ln: real -> real)
    requires se > 0.0 && sne > 0.0 && c.events <= c.n
    ensures TermsHold(RowOf(name, c, se, sne, ln), ln)
  {
    SharePositive(c.events as real + 0.5, se);
    SharePositive((c.n - c.events) as real + 0.5, sne);
  }

  lemma VarWoeTerms(c: Column, target: seq<bool>, bins: nat, num: Numerics)
    requires c.Size() == |target|
    ensures var rows := VarWoe(c, target, bins, num);
      forall i :: 0 <= i < |rows| ==> TermsHold(rows[i], num.ln)
  {
    var keys := BinKeys(c, bins, num.qcutEdges);
    var cs := BinTable(keys, target);
    SmoothedPositive(cs);
    if cs != [] {
      var se, sne := SmoothedEvents(cs), SmoothedNonEvents(cs);
      var rows := RowsOf(c.name, cs, se, sne, num.ln);
      forall i | 0 <= i < |rows| ensures TermsHold(rows[i], num.ln) {
        RowOfTerms(c.name, cs[i], se, sne, num.ln);
      }
    }
  }

  lemma RowIvNonNegative(r: WoeRow, ln: real -> real)
    requires TermsHold(r, ln) && LogLike(ln)
    ensures r.iv >= 0.0
    ensures r.pctE != r.pctNE ==> r.iv > 0.0
  {
    BinTermNonNegative(r.pctE, r.pctNE, ln);
  }

  /**
   * Information Value is never negative, and it is positive as soon as one
   * bin has a different share of Events than of Non-Events.
   */
  lemma IvNonNegative(c: Column, target: seq<bool>, bins: nat, num: Numerics)
    requires c.Size() == |target| && LogLike(num.ln)
    ensures ColumnIv(c, target, bins, num) >= 0.0
    ensures var rows := VarWoe(c, target, bins, num);
      (exists i :: 0 <= i < |rows| && rows[i].pctE != rows[i].pctNE) ==> ColumnIv(c, target, bins, num) > 0.0
  {
    var rows := VarWoe(c, target, bins, num);
    VarWoeTerms(c, target, bins, num);
    forall i | 0 <= i < |rows| ensures rows[i].iv >= 0.0 && (rows[i].pctE != rows[i].pctNE ==> rows[i].iv > 0.0) {
      RowIvNonNegative(rows[i], num.ln);
    }
    IvTotalNonNegative(rows);
  }

  lemma VarWoeEmpty(c: Column, target: seq<bool>, bins: nat, num: Numerics)
    requires c.Size() == |target| == 0
    ensures VarWoe(c, target, bins, num) == []
  {
    assert BinKeys(c, bins, num.qcutEdges) == [];
  }

  lemma SingleRowZero(rows: seq<WoeRow>, ln: real -> real)
    requires |rows| == 1 && SumPctE(rows) == 100.0 && SumPctNE(rows) == 100.0
    requires TermsHold(rows[0], ln)
    ensures rows[0].pctE == 100.0 && rows[0].pctNE == 100.0
    ensures LogLike(ln) ==> rows[0].woe == 0.0 && IvTotal(rows) == 0.0
  {
    assert rows[..0] == [];
    RatioOne(100.0);
  }

  /** A column whose rows all fall into one bin has both shares 100, WoE 0 and IV 0. */
  lemma SingleBinIvZero(c: Column, target: seq<bool>, bins: nat, num: Numerics)
    requires c.Size() == |target| && |VarWoe(c, target, bins, num)| == 1
    ensures var row := VarWoe(c, target, bins, num)[0];
      row.pctE == 100.0 && row.pctNE == 100.0
      && (LogLike(num.ln) ==> row.woe == 0.0 && ColumnIv(c, target, bins, num) == 0.0)
  {
    if |target| == 0 {
      VarWoeEmpty(c, target, bins, num);
      assert false;
    }
    SharesPositiveAndSumTo100(c, target, bins, num);
    VarWoeTerms(c, target, bins, num);
    SingleRowZero(VarWoe(c, target, bins, num), num.ln);
  }

  // ---------------------------------------------------------------
  // The loop over columns
  // ---------------------------------------------------------------

  /** One row of the IV table. */
  datatype IvRow = IvRow(varName: string, iv: real)

  predicate Rectangular(data: seq<Column>, target: seq<bool>)
  {
    forall i :: 0 <= i < |data| ==> data[i].Size() == |target|
  }

  /** The concatenated WoE tables of the columns, in column order. */
  function AllWoe(data: seq<Column>, target: seq<bool>, bins: nat, num: Numerics): seq<WoeRow>
    requires Rectangular(data, target)
  {
    if data == [] then []
    else AllWoe(data[..|data| - 1], target, bins, num) + VarWoe(data[|data| - 1], target, bins, num)
  }

  /** The IV of one column: the sum of its bins' IV terms. */
  function ColumnIv(c: Column, target: seq<bool>, bins: nat, num: Numerics): real
    requires c.Size() == |target|
  {
    IvTotal(VarWoe(c, target, bins, num))
  }

  /** The IV table: one (Var_name, IV) row per column, in column order. */
  function AllIv(data: seq<Column>, target: seq<bool>, bins: nat, num: Numerics): seq<IvRow>
    requires Rectangular(data, target)
  {
    if data == [] then []
    else
      var c := data[|data| - 1];
      AllIv(data[..|data| - 1], target, bins, num) + [IvRow(c.name, ColumnIv(c, target, bins, num))]
  }

  /** The IV table has exactly one row per input column, in column order. */
  lemma {:induction false} AllIvAt(data: seq<Column>, target: seq<bool>, bins: nat, num: Numerics, i: nat)
    requires Rectangular(data, target) && i < |data|
    ensures |AllIv(data, target, bins, num)| == |data|
    ensures AllIv(data, target, bins, num)[i] == IvRow(data[i].name, ColumnIv(data[i], target, bins, num))
  {
    var p := data[..|data| - 1];
    if i < |data| - 1 {
      AllIvAt(p, target, bins, num, i);
      assert p[i] == data[i];
    } else if |data| > 1 {
      AllIvAt(p, target, bins, num, 0);
    }
  }

  lemma TablesStep(data: seq<Column>, target: seq<bool>, bins: nat, num: Numerics, j: nat)
    requires Rectangular(data, target) && j < |data|
    ensures AllWoe(data[..j + 1], target, bins, num) == AllWoe(data[..j], target, bins, num) + VarWoe(data[j], target, bins, num)
    ensures AllIv(data[..j + 1], target, bins, num)
         == AllIv(data[..j], target, bins, num) + [IvRow(data[j].name, ColumnIv(data[j], target, bins, num))]
  {
    assert data[..j + 1][..j] == data[..j];
  }

  /**
   * woe_iv(data, target, bins): for every column, in order, append its WoE
   * rows to the WoE table and one (Var_name, IV) row to the IV table.
   */
  method WoeIvTables(data: seq<Column>, target: seq<bool>, bins: nat, num: Numerics)
    returns (woe: seq<WoeRow>, iv: seq<IvRow>)
    requires Rectangular(data, target)
    ensures woe == AllWoe(data, target, bins, num)
    ensures iv == AllIv(data, target, bins, num)
  {
    woe, iv := [], [];
    var j := 0;
    while j < |data|
      invariant 0 <= j <= |data|
      invariant woe == AllWoe(data[..j], target, bins, num)
      invariant iv == AllIv(data[..j], target, bins, num)
    {
      var column := data[j];
      var rows := VarWoe(column, target, bins, num);
      TablesStep(data, target, bins, num, j);
      woe := woe + rows;
      iv := iv + [IvRow(column.name, IvTotal(rows))];
      j := j + 1;
    }
    assert data[..|data|] == data;
  }
}
