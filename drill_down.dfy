/**
 * The drill-down of report_tables.py: for every factor whose IV exceeds a
 * threshold, a two-row summary table and a top-N detail table per member
 * (channel, ad, influencer, coupon or refunded product), and the bundle
 * of components handed to the report writer, with the percent change of
 * each key metric.
 */
module DrillDown {
  import opened Wrappers
  import opened Seqs
  import Text
  import opened Tables
  import opened ReportTables
  import opened IvRanking

  // ---------------------------------------------------------------
  // Detail tables: union of members, zero fill, sort, head(n)
  // ---------------------------------------------------------------

  /** One detail line: a member with its value on today and on the comparison date. */
  datatype DetailLine = DetailLine(member: Cell, today: real, compare: real)

  function TodayOf(l: DetailLine): real { l.today }

  /** The members seen on either date, each once, today's first. */
  function UnionMembers(et: seq<Entry<Cell>>, eb: seq<Entry<Cell>>): (ks: seq<Cell>)
    ensures NoDup(ks)
    ensures forall k :: k in ks <==> k in KeysOf(et) || k in KeysOf(eb)
  {
    var s := KeysOf(et) + KeysOf(eb);
    var r := Distinct(s);
    assert forall k :: k in r <==> k in s by {
      forall k ensures k in r <==> k in s {
        if k in r { var i :| 0 <= i < |r| && r[i] == k; }
        if k in s { var i :| 0 <= i < |s| && s[i] == k; }
      }
    }
    r
  }

  /** The line of every member in `ks`, both sides reindexed with fill value 0. */
  function Lines(et: seq<Entry<Cell>>, eb: seq<Entry<Cell>>, ks: seq<Cell>): (ls: seq<DetailLine>)
    ensures |ls| == |ks|
    ensures forall i :: 0 <= i < |ks| ==> ls[i] == DetailLine(ks[i], KeyTotal(et, ks[i]), KeyTotal(eb, ks[i]))
  {
    seq(|ks|, i requires 0 <= i < |ks| => DetailLine(ks[i], KeyTotal(et, ks[i]), KeyTotal(eb, ks[i])))
  }

  /** All lines of the union, sorted by today's value (descending when `desc`). */
  function SortedLines(et: seq<Entry<Cell>>, eb: seq<Entry<Cell>>, desc: bool): seq<DetailLine>
  {
    Sort(Lines(et, eb, UnionMembers(et, eb)), TodayOf, desc)
  }

  /** sort_values(today, ascending=not desc).head(n) over the union of members. */
  function TopLines(et: seq<Entry<Cell>>, eb: seq<Entry<Cell>>, desc: bool, n: nat): (ls: seq<DetailLine>)
    ensures |ls| <= n
    ensures SortedBy(ls, TodayOf, desc)
    ensures forall i :: 0 <= i < |ls| ==>
      (ls[i].member in KeysOf(et) || ls[i].member in KeysOf(eb))
      && ls[i].today == KeyTotal(et, ls[i].member) && ls[i].compare == KeyTotal(eb, ls[i].member)
    ensures forall i, j :: 0 <= i < j < |ls| ==> ls[i].member != ls[j].member
  {
    TopLinesFromUnion(et, eb, desc, n);
    TopLinesDistinct(et, eb, desc, n);
    Take(SortedLines(et, eb, desc), n)
  }

  /** No member has two lines: the union lists each member once. */
  lemma TopLinesDistinct(et: seq<Entry<Cell>>, eb: seq<Entry<Cell>>, desc: bool, n: nat)
    ensures var ls := Take(SortedLines(et, eb, desc), n);
      forall i, j :: 0 <= i < j < |ls| ==> ls[i].member != ls[j].member
  {
    var ks := UnionMembers(et, eb);
    var all := Lines(et, eb, ks);
    var sorted := SortedLines(et, eb, desc);
    var ls := Take(sorted, n);
    assert NoDup(all) by {
      forall a, b | 0 <= a < b < |all| ensures all[a] != all[b] {
        assert ks[a] != ks[b];
      }
    }
    NoDupPermutation(all, sorted);
    forall i, j | 0 <= i < j < |ls| ensures ls[i].member != ls[j].member {
      assert ls[i] == sorted[i] && ls[j] == sorted[j];
      assert sorted[i] in multiset(all) && sorted[j] in multiset(all);
      var a :| 0 <= a < |all| && all[a] == sorted[i];
      var b :| 0 <= b < |all| && all[b] == sorted[j];
      if a != b {
        assert ks[a] != ks[b];
      }
    }
  }

  lemma TopLinesFromUnion(et: seq<Entry<Cell>>, eb: seq<Entry<Cell>>, desc: bool, n: nat)
    ensures var ls := Take(SortedLines(et, eb, desc), n);
      SortedBy(ls, TodayOf, desc)
      && forall i :: 0 <= i < |ls| ==>
        (ls[i].member in KeysOf(et) || ls[i].member in KeysOf(eb))
        && ls[i].today == KeyTotal(et, ls[i].member) && ls[i].compare == KeyTotal(eb, ls[i].member)
  {
    var ks := UnionMembers(et, eb);
    var all := Lines(et, eb, ks);
    var sorted := SortedLines(et, eb, desc);
    var ls := Take(sorted, n);
    forall i | 0 <= i < |ls|
      ensures (ls[i].member in KeysOf(et) || ls[i].member in KeysOf(eb))
        && ls[i].today == KeyTotal(et, ls[i].member) && ls[i].compare == KeyTotal(eb, ls[i].member)
    {
      assert ls[i] == sorted[i] && sorted[i] in multiset(sorted);
      assert ls[i] in multiset(all);
      var j :| 0 <= j < |all| && all[j] == ls[i];
      assert ks[j] in ks;
    }
  }

  /**
   * Before truncation every member seen on either date has its line, with
   * 0 for the side it is missing on; after truncation, every line left
   * out ranks no higher than any line kept, and there are n lines unless
   * the union is smaller.
   */
  lemma TopLinesComplete(et: seq<Entry<Cell>>, eb: seq<Entry<Cell>>, desc: bool, n: nat, k: Cell)
    requires k in KeysOf(et) || k in KeysOf(eb)
    ensures var l := DetailLine(k, KeyTotal(et, k), KeyTotal(eb, k));
      l in SortedLines(et, eb, desc)
      && (k !in KeysOf(et) ==> l.today == 0.0) && (k !in KeysOf(eb) ==> l.compare == 0.0)
      && (l !in TopLines(et, eb, desc, n) ==>
            forall y :: y in TopLines(et, eb, desc, n) ==> InOrder(y.today, l.today, desc))
    ensures |TopLines(et, eb, desc, n)| == if n < |UnionMembers(et, eb)| then n else |UnionMembers(et, eb)|
  {
    var l := DetailLine(k, KeyTotal(et, k), KeyTotal(eb, k));
    LineOfMember(et, eb, desc, k);
    if l !in TopLines(et, eb, desc, n) {
      TakeSortedTop(SortedLines(et, eb, desc), TodayOf, desc, n, l);
    }
  }

  lemma LineOfMember(et: seq<Entry<Cell>>, eb: seq<Entry<Cell>>, desc: bool, k: Cell)
    requires k in KeysOf(et) || k in KeysOf(eb)
    ensures var l := DetailLine(k, KeyTotal(et, k), KeyTotal(eb, k));
      l in SortedLines(et, eb, desc)
      && (k !in KeysOf(et) ==> l.today == 0.0) && (k !in KeysOf(eb) ==> l.compare == 0.0)
  {
    var ks := UnionMembers(et, eb);
    var all := Lines(et, eb, ks);
    var l := DetailLine(k, KeyTotal(et, k), KeyTotal(eb, k));
    var i :| 0 <= i < |ks| && ks[i] == k;
    assert all[i] == l;
    assert l in multiset(Sort(all, TodayOf, desc));
    if k !in KeysOf(et) { KeyTotalAbsent(et, k); }
    if k !in KeysOf(eb) { KeyTotalAbsent(eb, k); }
  }


  // ---------------------------------------------------------------
  // The four kinds of detail table
  // ---------------------------------------------------------------

  /** One row of a summary table. */
  datatype SummaryRow = SummaryRow(day: int, value: real)

  /** _summary_two_rows: today's value, then the comparison date's. */
  function SummaryTwoRows(today: int, compare: int, a: real, b: real): (s: seq<SummaryRow>)
    ensures |s| == 2 && s[0].day == today && s[1].day == compare
  {
    [SummaryRow(today, a), SummaryRow(compare, b)]
  }

  /** Sales per raw value of column `c` on day `d` (missing values form their own group). */
  function SalesBy(items: Items, c: Category, d: int): seq<Entry<Cell>>
  {
    Project(RowsOn(items.rows, ItemDay, d), r => CellOf(r, c), r => SalesOf(items, r))
  }

  /**
   * _detail_table_today_base: no lines without the id column; otherwise
   * the top n members by today's sales, descending.
   */
  function DetailTodayBase(items: Items, today: int, compare: int, c: Category, n: nat): (ls: seq<DetailLine>)
    requires OrderTs in items.cols && (Cat(c) in items.cols ==> SalesReadable(items))
    ensures Cat(c) !in items.cols ==> ls == []
    ensures Cat(c) in items.cols ==> ls == TopLines(SalesBy(items, c, today), SalesBy(items, c, compare), true, n)
  {
    if Cat(c) !in items.cols then []
    else TopLines(SalesBy(items, c, today), SalesBy(items, c, compare), true, n)
  }

  /** The group key of adjustment row `i`: product_id, or the row's index without that column. */
  function RefundKey(adj: Adjustments, i: nat): Cell
    requires i < |adj.rows|
  {
    if AdjProductId in adj.cols then adj.rows[i].productId else Text(Text.NatToString(i))
  }

  /** Refund amounts of day `d` per key among the first `n` rows; missing keys are dropped. */
  function RefundBy(adj: Adjustments, d: int, n: nat): (es: seq<Entry<Cell>>)
    requires n <= |adj.rows|
    ensures forall i :: 0 <= i < |es| ==> es[i].key != Null
  {
    if n == 0 then []
    else
      var r := adj.rows[n - 1];
      var k := RefundKey(adj, n - 1);
      RefundBy(adj, d, n - 1) + (if r.day == d && k != Null then [Entry(k, r.amount)] else [])
  }

  /** Without product_id every row is its own group, so no amount is dropped. */
  lemma {:induction false} RefundByIndexTotal(adj: Adjustments, d: int, n: nat)
    requires n <= |adj.rows| && AdjProductId !in adj.cols
    ensures Total(RefundBy(adj, d, n)) == SumOf(RowsOn(adj.rows[..n], AdjDay, d), AdjAmount)
  {
    if n > 0 {
      RefundByIndexTotal(adj, d, n - 1);
      var x := adj.rows[n - 1];
      RowsOnPrefix(adj.rows, AdjDay, d, n);
      if x.day == d {
        var p := RefundBy(adj, d, n - 1);
        assert RefundBy(adj, d, n) == p + [Entry(RefundKey(adj, n - 1), x.amount)];
        TotalSnoc(p, Entry(RefundKey(adj, n - 1), x.amount));
        SumOfSnoc(RowsOn(adj.rows[..n - 1], AdjDay, d), AdjAmount, x);
      } else {
        assert RefundBy(adj, d, n) == RefundBy(adj, d, n - 1);
        assert RowsOn(adj.rows[..n], AdjDay, d) == RowsOn(adj.rows[..n - 1], AdjDay, d);
      }
    }
  }

  /**
   * Without product_id the detail groups, before truncation, add up to
   * the refund summary of the date.
   */
  lemma RefundGroupsMatchSummary(adj: Adjustments, d: int)
    requires AdjProductId !in adj.cols
    ensures Total(RefundBy(adj, d, |adj.rows|)) == RefundOn(adj, d)
  {
    RefundByIndexTotal(adj, d, |adj.rows|);
    assert adj.rows[..|adj.rows|] == adj.rows;
  }

  /**
   * _refund_detail_top5: the signed refund sums of the two dates, and the
   * top n refunded products by today's refund, ascending (most negative
   * first).
   */
  function RefundDetail(adj: Adjustments, today: int, compare: int, n: nat): (r: (seq<SummaryRow>, seq<DetailLine>))
    requires EventTs in adj.cols && Amount in adj.cols
    ensures r.0 == SummaryTwoRows(today, compare, RefundOn(adj, today), RefundOn(adj, compare))
    ensures r.1 == TopLines(RefundBy(adj, today, |adj.rows|), RefundBy(adj, compare, |adj.rows|), false, n)
    ensures forall i :: 0 <= i < |r.1| ==> r.1[i].member != Null
  {
    var et, eb := RefundBy(adj, today, |adj.rows|), RefundBy(adj, compare, |adj.rows|);
    var ls := TopLines(et, eb, false, n);
    assert forall i :: 0 <= i < |ls| ==> ls[i].member != Null by {
      forall i | 0 <= i < |ls| ensures ls[i].member != Null {
        var m := ls[i].member;
        if m in KeysOf(et) {
          var j :| 0 <= j < |et| && KeysOf(et)[j] == m;
        } else {
          var j :| 0 <= j < |eb| && KeysOf(eb)[j] == m;
        }
      }
    }
    (SummaryTwoRows(today, compare, RefundOn(adj, today), RefundOn(adj, compare)), ls)
  }

  /** The coupon id column: coupon_id, else coupon_code, else none. */
  function CouponIdColumn(items: Items): Option<Category>
  {
    if Cat(CouponId) in items.cols then Some(CouponId)
    else if Cat(CouponCode) in items.cols then Some(CouponCode)
    else None
  }

  function DiscountBy(items: Items, c: Category, d: int): seq<Entry<Cell>>
  {
    Project(RowsOn(items.rows, ItemDay, d), r => CellOf(r, c), ItemDiscount)
  }

  /**
   * _coupon_detail_top5: without discount_amount a zero summary and no
   * lines; otherwise the discount sums of the two dates, and the top n
   * coupons by today's cost, descending (no lines without an id column).
   */
  function CouponDetail(items: Items, today: int, compare: int, n: nat): (r: (seq<SummaryRow>, seq<DetailLine>))
    requires OrderTs in items.cols
    ensures r.0 == SummaryTwoRows(today, compare, CouponOn(items, today), CouponOn(items, compare))
    ensures DiscountAmount !in items.cols || CouponIdColumn(items).None? ==> r.1 == []
    ensures DiscountAmount in items.cols && CouponIdColumn(items).Some? ==>
      var c := CouponIdColumn(items).value;
      r.1 == TopLines(DiscountBy(items, c, today), DiscountBy(items, c, compare), true, n)
  {
    if DiscountAmount !in items.cols then (SummaryTwoRows(today, compare, 0.0, 0.0), [])
    else
      var summary := SummaryTwoRows(today, compare, CouponOn(items, today), CouponOn(items, compare));
      match CouponIdColumn(items)
      case None => (summary, [])
      case Some(c) => (summary, TopLines(DiscountBy(items, c, today), DiscountBy(items, c, compare), true, n))
  }

  // ---------------------------------------------------------------
  // Tables of the factors above the threshold
  // ---------------------------------------------------------------

  datatype FactorTables = FactorTables(factor: Factor, iv: real, summary: seq<SummaryRow>, detail: seq<DetailLine>)

  /** The ranking entries whose IV is strictly above the threshold, in ranking order. */
  function Above(ranking: seq<RankEntry>, threshold: real): (high: seq<RankEntry>)
    ensures |high| <= |ranking|
    ensures forall i :: 0 <= i < |high| ==> high[i].iv > threshold && high[i] in ranking
    ensures forall i :: 0 <= i < |ranking| && ranking[i].iv > threshold ==> ranking[i] in high
  {
    if ranking == [] then []
    else
      var e := ranking[|ranking| - 1];
      var p := Above(ranking[..|ranking| - 1], threshold);
      assert forall i :: 0 <= i < |p| ==> p[i] in ranking by {
        forall i | 0 <= i < |p| ensures p[i] in ranking {
          var k :| 0 <= k < |ranking| - 1 && ranking[..|ranking| - 1][k] == p[i];
          assert ranking[k] == p[i];
        }
      }
      p + (if e.iv > threshold then [e] else [])
  }

  /**
   * The positions in the ranking of the entries Above keeps: strictly
   * increasing, so the kept entries stay in ranking order.
   */
  function AboveIndices(ranking: seq<RankEntry>, threshold: real): (idx: seq<nat>)
    ensures |idx| == |Above(ranking, threshold)|
    ensures forall i :: 0 <= i < |idx| ==> idx[i] < |ranking| && ranking[idx[i]] == Above(ranking, threshold)[i]
    ensures forall i, j :: 0 <= i < j < |idx| ==> idx[i] < idx[j]
  {
    if ranking == [] then []
    else
      var n := |ranking| - 1;
      var p := AboveIndices(ranking[..n], threshold);
      var q := if ranking[n].iv > threshold then [n] else [];
      assert ranking == ranking[..n] + [ranking[n]];
      AboveIndicesStep(ranking[..n], ranking[n], threshold, p, q);
      p + q
  }

  lemma AboveIndicesStep(pre: seq<RankEntry>, e: RankEntry, threshold: real, p: seq<nat>, q: seq<nat>)
    requires |p| == |Above(pre, threshold)|
    requires forall i :: 0 <= i < |p| ==> p[i] < |pre| && pre[p[i]] == Above(pre, threshold)[i]
    requires forall i, j :: 0 <= i < j < |p| ==> p[i] < p[j]
    requires q == if e.iv > threshold then [|pre|] else []
    ensures var ranking := pre + [e];
      var idx, high := p + q, Above(ranking, threshold);
      |idx| == |high|
      && (forall i :: 0 <= i < |idx| ==> idx[i] < |ranking| && ranking[idx[i]] == high[i])
      && (forall i, j :: 0 <= i < j < |idx| ==> idx[i] < idx[j])
  {
    var ranking := pre + [e];
    assert ranking[..|pre|] == pre;
    assert Above(ranking, threshold) == Above(pre, threshold) + (if e.iv > threshold then [e] else []);
  }

  /** A sales factor is expanded only when its id column exists; cost factors always are. */
  predicate Expandable(items: Items, f: Factor)
  {
    f.Sales? ==> Cat(CategoryOf(f.dim)) in items.cols
  }

  /** What the expansion of a factor reads of order_items and adjustments. */
  predicate ExpansionReadable(items: Items, adj: Adjustments, f: Factor)
  {
    SalesReadable(items) && (f == Cost(RefundCost) ==> EventTs in adj.cols && Amount in adj.cols)
  }

  /** The tables of one factor, or none when it cannot be expanded. */
  function Expand(items: Items, adj: Adjustments, today: int, compare: int, e: RankEntry, n: nat,
                  salesSummary: seq<SummaryRow>): (t: Option<FactorTables>)
    requires ExpansionReadable(items, adj, e.factor)
    ensures t.Some? <==> Expandable(items, e.factor)
    ensures t.Some? ==> t.value.factor == e.factor && t.value.iv == e.iv && |t.value.detail| <= n
    ensures t.Some? && e.factor.Sales? ==> t.value.summary == salesSummary
    ensures t.Some? && e.factor.Cost? ==>
      |t.value.summary| == 2 && t.value.summary[0].day == today && t.value.summary[1].day == compare
  {
    match e.factor
    case Sales(dim) =>
      var c := CategoryOf(dim);
      if Cat(c) in items.cols
      then Some(FactorTables(e.factor, e.iv, salesSummary, DetailTodayBase(items, today, compare, c, n)))
      else None
    case Cost(RefundCost) =>
      var (s, d) := RefundDetail(adj, today, compare, n);
      Some(FactorTables(e.factor, e.iv, s, d))
    case Cost(CouponCost) =>
      var (s, d) := CouponDetail(items, today, compare, n);
      Some(FactorTables(e.factor, e.iv, s, d))
  }

  /** The (factor, IV) entries of a list of tables. */
  function EntriesOf(ts: seq<FactorTables>): (es: seq<RankEntry>)
    ensures |es| == |ts| && forall i :: 0 <= i < |ts| ==> es[i] == RankEntry(ts[i].factor, ts[i].iv)
  {
    seq(|ts|, i requires 0 <= i < |ts| => RankEntry(ts[i].factor, ts[i].iv))
  }

  lemma EntriesOfSnoc(ts: seq<FactorTables>, t: FactorTables)
    ensures EntriesOf(ts + [t]) == EntriesOf(ts) + [RankEntry(t.factor, t.iv)]
  {
  }

  /** The entries of `es` that can be expanded, in order. */
  function Expandables(items: Items, es: seq<RankEntry>): seq<RankEntry>
  {
    if es == [] then []
    else
      var e := es[|es| - 1];
      Expandables(items, es[..|es| - 1]) + (if Expandable(items, e.factor) then [e] else [])
  }

  /** The entries above the threshold that can be expanded, in ranking order. */
  function Expanded(items: Items, ranking: seq<RankEntry>, threshold: real): seq<RankEntry>
  {
    if ranking == [] then []
    else
      var e := ranking[|ranking| - 1];
      Expanded(items, ranking[..|ranking| - 1], threshold)
      + (if e.iv > threshold && Expandable(items, e.factor) then [e] else [])
  }

  /** Selecting the entries above the threshold and then the expandable ones is one filter. */
  lemma {:induction false} ExpandablesAbove(items: Items, ranking: seq<RankEntry>, threshold: real)
    ensures Expandables(items, Above(ranking, threshold)) == Expanded(items, ranking, threshold)
  {
    if ranking != [] {
      var p, e := ranking[..|ranking| - 1], ranking[|ranking| - 1];
      var high := Above(ranking, threshold);
      ExpandablesAbove(items, p, threshold);
      if e.iv > threshold {
        assert high == Above(p, threshold) + [e];
        assert high[..|high| - 1] == Above(p, threshold) && high[|high| - 1] == e;
      } else {
        assert high == Above(p, threshold);
      }
    }
  }

  /** The tables of the entries `es` that can be expanded, in order. */
  function ExpandAll(items: Items, adj: Adjustments, today: int, compare: int, es: seq<RankEntry>, n: nat,
                     salesSummary: seq<SummaryRow>): seq<FactorTables>
    requires forall i :: 0 <= i < |es| ==> ExpansionReadable(items, adj, es[i].factor)
  {
    if es == [] then []
    else
      var e := es[|es| - 1];
      ExpandAll(items, adj, today, compare, es[..|es| - 1], n, salesSummary)
      + match Expand(items, adj, today, compare, e, n, salesSummary)
        case Some(t) => [t]
        case None => []
  }

  /** The expanded tables carry exactly the expandable entries, in order. */
  lemma {:induction false} ExpandAllEntries(items: Items, adj: Adjustments, today: int, compare: int,
                                            es: seq<RankEntry>, n: nat, salesSummary: seq<SummaryRow>)
    requires forall i :: 0 <= i < |es| ==> ExpansionReadable(items, adj, es[i].factor)
    ensures EntriesOf(ExpandAll(items, adj, today, compare, es, n, salesSummary)) == Expandables(items, es)
  {
    if es != [] {
      var p, e := es[..|es| - 1], es[|es| - 1];
      ExpandAllEntries(items, adj, today, compare, p, n, salesSummary);
      var ts := ExpandAll(items, adj, today, compare, p, n, salesSummary);
      var t := Expand(items, adj, today, compare, e, n, salesSummary);
      if t.Some? {
        EntriesOfSnoc(ts, t.value);
      } else {
        assert ts + [] == ts;
      }
    }
  }

  /**
   * Each expanded table is the expansion of its own entry: the sales
   * summary for a sales factor, two summary rows (today first) for a cost
   * factor, and at most n detail lines.
   */
  lemma {:induction false} ExpandAllTables(items: Items, adj: Adjustments, today: int, compare: int,
                                           es: seq<RankEntry>, n: nat, salesSummary: seq<SummaryRow>, i: nat)
    requires forall j :: 0 <= j < |es| ==> ExpansionReadable(items, adj, es[j].factor)
    requires i < |ExpandAll(items, adj, today, compare, es, n, salesSummary)|
    ensures var t := ExpandAll(items, adj, today, compare, es, n, salesSummary)[i];
      ExpansionReadable(items, adj, t.factor)
      && Expand(items, adj, today, compare, RankEntry(t.factor, t.iv), n, salesSummary) == Some(t)
  {
    var p, e := es[..|es| - 1], es[|es| - 1];
    var ts := ExpandAll(items, adj, today, compare, p, n, salesSummary);
    if i < |ts| {
      ExpandAllTables(items, adj, today, compare, p, n, salesSummary, i);
      assert ExpandAll(items, adj, today, compare, es, n, salesSummary)[i] == ts[i];
    } else {
      var t := Expand(items, adj, today, compare, e, n, salesSummary);
      assert ExpandAll(items, adj, today, compare, es, n, salesSummary)[i] == t.value;
      assert RankEntry(t.value.factor, t.value.iv) == e;
    }
  }

  /** One step of the loop: an expandable entry appends its tables, any other adds nothing. */
  lemma ExpandAllStep(items: Items, adj: Adjustments, today: int, compare: int,
                      es: seq<RankEntry>, j: nat, n: nat, salesSummary: seq<SummaryRow>)
    requires j < |es| && forall i :: 0 <= i < |es| ==> ExpansionReadable(items, adj, es[i].factor)
    ensures ExpandAll(items, adj, today, compare, es[..j + 1], n, salesSummary)
            == ExpandAll(items, adj, today, compare, es[..j], n, salesSummary)
               + match Expand(items, adj, today, compare, es[j], n, salesSummary)
                 case Some(t) => [t]
                 case None => []
  {
    assert es[..j + 1][..j] == es[..j];
  }

  /**
   * get_high_iv_detail_tables: the sales summary of the two dates, then,
   * for each factor above the threshold in ranking order, its summary and
   * detail tables when it can be expanded. Exactly the expandable factors
   * above the threshold get tables, in ranking order.
   */
  method GetHighIvDetailTables(items: Items, adj: Adjustments, today: int, compare: int,
                               ranking: seq<RankEntry>, threshold: real, n: nat)
    returns (out: seq<FactorTables>)
    requires SalesReadable(items)
    requires (exists i :: 0 <= i < |ranking| && ranking[i].factor == Cost(RefundCost) && ranking[i].iv > threshold)
             ==> EventTs in adj.cols && Amount in adj.cols
    ensures forall i :: 0 <= i < |Above(ranking, threshold)| ==>
      ExpansionReadable(items, adj, Above(ranking, threshold)[i].factor)
    ensures out == ExpandAll(items, adj, today, compare, Above(ranking, threshold), n,
                             SummaryTwoRows(today, compare, SalesOn(items, today), SalesOn(items, compare)))
    ensures EntriesOf(out) == Expanded(items, ranking, threshold)
  {
    var high := Above(ranking, threshold);
    var salesSummary := SummaryTwoRows(today, compare, SalesOn(items, today), SalesOn(items, compare));
    forall i | 0 <= i < |high| ensures ExpansionReadable(items, adj, high[i].factor) {
      var k :| 0 <= k < |ranking| && ranking[k] == high[i];
    }
    out := [];
    for j := 0 to |high|
      invariant out == ExpandAll(items, adj, today, compare, high[..j], n, salesSummary)
    {
      var e := high[j];
      ExpandAllStep(items, adj, today, compare, high, j, n, salesSummary);
      var t: FactorTables;
      match e.factor {
        case Sales(dim) =>
          var c := CategoryOf(dim);
          if Cat(c) !in items.cols {
            continue;
          }
          var detail := DetailTodayBase(items, today, compare, c, n);
          t := FactorTables(e.factor, e.iv, salesSummary, detail);
        case Cost(RefundCost) =>
          var (summary, detail) := RefundDetail(adj, today, compare, n);
          t := FactorTables(e.factor, e.iv, summary, detail);
        case Cost(CouponCost) =>
          var (summary, detail) := CouponDetail(items, today, compare, n);
          t := FactorTables(e.factor, e.iv, summary, detail);
      }
      out := out + [t];
    }
    assert high[..|high|] == high;
    ExpandAllEntries(items, adj, today, compare, high, n, salesSummary);
    ExpandablesAbove(items, ranking, threshold);
  }

  // ---------------------------------------------------------------
  // Components for the report writer
  // ---------------------------------------------------------------

  /**
   * Python's round(x, 1) on an exact real: the nearest multiple of 0.1,
   * ties to the even multiple.
   */
  function Round1(x: real): (r: real)
    ensures -0.05 <= r - x <= 0.05
    ensures (r * 10.0).Floor as real == r * 10.0
  {
    var y := x * 10.0;
    var n := y.Floor;
    var f := y - n as real;
    var k := if f < 0.5 then n else if f > 0.5 then n + 1 else if n % 2 == 0 then n else n + 1;
    k as real / 10.0
  }

  /** The percent change from b to a, rounded to one decimal; 0 when b is 0. */
  function PctChange(a: real, b: real): (p: real)
    ensures b == 0.0 ==> p == 0.0
    ensures b != 0.0 ==> -0.05 <= p - (a - b) / b * 100.0 <= 0.05
  {
    if b != 0.0 then Round1((a - b) / b * 100.0) else 0.0
  }

  /** An unchanged value has a zero percent change. */
  lemma PctChangeUnchanged(a: real)
    ensures PctChange(a, a) == 0.0
  {
    if a != 0.0 {
      assert (a - a) / a * 100.0 == 0.0;
      assert (0.0 * 10.0).Floor == 0;
    }
  }

  datatype Measure = TotalSales | TotalCost | Profit

  function MeasureOf(r: KeyMetricRow, m: Measure): real
  {
    match m
    case TotalSales => r.sales
    case TotalCost => r.totalCost
    case Profit => r.profit
  }

  datatype Change = Change(today: real, compare: real, pct: real)

  /** The first key-metric row with the given label, if any. */
  function FirstWith(rows: seq<KeyMetricRow>, w: Which): (r: Option<KeyMetricRow>)
    ensures r.Some? <==> exists i :: 0 <= i < |rows| && rows[i].which == w
    ensures r.Some? ==> exists i :: 0 <= i < |rows| && rows[i] == r.value && r.value.which == w
                          && forall j :: 0 <= j < i ==> rows[j].which != w
  {
    if rows == [] then None
    else if rows[0].which == w then Some(rows[0])
    else
      var r := FirstWith(rows[1..], w);
      assert forall i :: 1 <= i < |rows| ==> rows[i] == rows[1..][i - 1];
      r
  }

  datatype Components = Components(
    keyMetric: seq<KeyMetricRow>,
    changes: map<Measure, Change>,
    fullRanking: seq<RankEntry>,
    highRanking: seq<RankEntry>,
    tables: seq<FactorTables>)

  /**
   * build_components_for_llm: the key-metric rows, the whole ranking, the
   * factors above the threshold, their tables, and (with at least two
   * key-metric rows) the today / comparison / percent change of total
   * sales, total cost and profit.
   */
  method BuildComponents(keyMetric: seq<KeyMetricRow>, ranking: seq<RankEntry>, tables: seq<FactorTables>,
                         threshold: real)
    returns (c: Components)
    requires |keyMetric| >= 2 ==> FirstWith(keyMetric, Today).Some? && FirstWith(keyMetric, Compare).Some?
    ensures c.keyMetric == keyMetric && c.fullRanking == ranking && c.tables == tables
    ensures c.highRanking == Above(ranking, threshold)
    ensures |keyMetric| < 2 ==> c.changes == map[]
    ensures |keyMetric| >= 2 ==>
      c.changes.Keys == {TotalSales, TotalCost, Profit}
      && forall m :: m in c.changes ==>
        var a, b := MeasureOf(FirstWith(keyMetric, Today).value, m), MeasureOf(FirstWith(keyMetric, Compare).value, m);
        c.changes[m] == Change(a, b, PctChange(a, b))
  {
    var changes: map<Measure, Change> := map[];
    if |keyMetric| >= 2 {
      var rowToday := FirstWith(keyMetric, Today).value;
      var rowBase := FirstWith(keyMetric, Compare).value;
      var measures := [TotalSales, TotalCost, Profit];
      for k := 0 to 3
        invariant changes.Keys == set i | 0 <= i < k :: measures[i]
        invariant forall m :: m in changes ==>
          changes[m] == Change(MeasureOf(rowToday, m), MeasureOf(rowBase, m),
                               PctChange(MeasureOf(rowToday, m), MeasureOf(rowBase, m)))
      {
        var a, b := MeasureOf(rowToday, measures[k]), MeasureOf(rowBase, measures[k]);
        changes := changes[measures[k] := Change(a, b, PctChange(a, b))];
      }
      assert changes.Keys == {TotalSales, TotalCost, Profit} by {
        assert measures[0] in changes && measures[1] in changes && measures[2] in changes;
      }
    }
    c := Components(keyMetric, changes, ranking, Above(ranking, threshold), tables);
  }
}
