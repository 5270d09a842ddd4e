/**
 * The evidence packet of core.py (build_evidence): today-versus-yesterday
 * KPIs, the influencers whose net sales grew most, and the products whose
 * refunds worsened most, with their top refund reasons. Missing required
 * columns are reported as errors, in the order the source checks them.
 */
module Evidence {
  import opened Wrappers
  import opened Seqs
  import Text
  import opened Tables
  import ReportTables

  datatype EvidenceError = MissingOrderTs | MissingEventTs | MissingNetSalesAmount | MissingAmount

  // ---------------------------------------------------------------
  // KPIs
  // ---------------------------------------------------------------

  function ItemNet(r: ItemRow): real { r.netSales }

  /** The net_sales_amount sum of day `d` (the packet's "gross"). */
  function NetSalesOn(items: Items, d: int): real
  {
    SumOf(RowsOn(items.rows, ItemDay, d), ItemNet)
  }

  datatype Kpis = Kpis(
    grossToday: real, grossYday: real, grossDelta: real,
    refundToday: real, refundYday: real, refundDelta: real,
    netToday: real, netYday: real, netDelta: real)

  /**
   * The KPIs of today and the day before: gross is the net_sales_amount
   * sum, refund the signed adjustment sum, net their sum, and every delta
   * is today minus yesterday.
   */
  function KpisOf(items: Items, adj: Adjustments, today: int): (k: Kpis)
    ensures k.grossToday == NetSalesOn(items, today) && k.grossYday == NetSalesOn(items, today - 1)
    ensures k.refundToday == ReportTables.RefundOn(adj, today) && k.refundYday == ReportTables.RefundOn(adj, today - 1)
    ensures k.netToday == k.grossToday + k.refundToday && k.netYday == k.grossYday + k.refundYday
    ensures k.grossDelta == k.grossToday - k.grossYday && k.refundDelta == k.refundToday - k.refundYday
    ensures k.netDelta == k.netToday - k.netYday
  {
    var yday := today - 1;
    var gt, gy := NetSalesOn(items, today), NetSalesOn(items, yday);
    var rt, ry := ReportTables.RefundOn(adj, today), ReportTables.RefundOn(adj, yday);
    Kpis(gt, gy, gt - gy, rt, ry, rt - ry, gt + rt, gy + ry, (gt + rt) - (gy + ry))
  }

  /** The net delta splits into the gross delta and the refund delta. */
  lemma NetDeltaSplits(items: Items, adj: Adjustments, today: int)
    ensures var k := KpisOf(items, adj, today); k.netDelta == k.grossDelta + k.refundDelta
  {
  }

  // ---------------------------------------------------------------
  // Per-id deltas over the sorted union of ids
  // ---------------------------------------------------------------

  /** An id with a value: a delta, or a summed amount. */
  datatype Scored = Scored(id: string, score: real)

  function ScoreOf(x: Scored): real { x.score }

  predicate DistinctIds(ls: seq<Scored>)
  {
    forall i, j :: 0 <= i < j < |ls| ==> ls[i].id != ls[j].id
  }

  /** sorted(set(today ids) | set(yesterday ids)). */
  function UnionIds(et: seq<Entry<string>>, ey: seq<Entry<string>>): (ids: seq<string>)
    ensures Text.StrictlySorted(ids)
    ensures forall k :: k in ids <==> k in KeysOf(et) || k in KeysOf(ey)
  {
    var s := KeysOf(et) + KeysOf(ey);
    var r := Text.SortedSet(s);
    assert forall k :: k in r <==> k in s by {
      forall k ensures k in r <==> k in s {
        if k in r { var i :| 0 <= i < |r| && r[i] == k; }
        if k in s { var i :| 0 <= i < |s| && s[i] == k; }
      }
    }
    r
  }

  /** The delta of an id: today's sum minus yesterday's, each 0 when absent. */
  function DeltaOf(et: seq<Entry<string>>, ey: seq<Entry<string>>, k: string): real
  {
    KeyTotal(et, k) - KeyTotal(ey, k)
  }

  /** The delta line of every id of `ks`, in the order of `ks`. */
  function DeltasOver(et: seq<Entry<string>>, ey: seq<Entry<string>>, ks: seq<string>): (ls: seq<Scored>)
    ensures |ls| == |ks| && forall i :: 0 <= i < |ks| ==> ls[i] == Scored(ks[i], DeltaOf(et, ey, ks[i]))
  {
    if ks == [] then []
    else DeltasOver(et, ey, ks[..|ks| - 1]) + [Scored(ks[|ks| - 1], DeltaOf(et, ey, ks[|ks| - 1]))]
  }

  /** The reindexed delta series: one line per id of the sorted union. */
  function DeltaLines(et: seq<Entry<string>>, ey: seq<Entry<string>>): seq<Scored>
  {
    DeltasOver(et, ey, UnionIds(et, ey))
  }

  function SumScores(ls: seq<Scored>): real
  {
    if ls == [] then 0.0 else SumScores(ls[..|ls| - 1]) + ls[|ls| - 1].score
  }

  lemma {:induction false} DeltasOverSum(et: seq<Entry<string>>, ey: seq<Entry<string>>, ks: seq<string>)
    ensures SumScores(DeltasOver(et, ey, ks)) == SumOfGroups(et, ks) - SumOfGroups(ey, ks)
  {
    if ks != [] {
      var ls := DeltasOver(et, ey, ks);
      assert ls[..|ls| - 1] == DeltasOver(et, ey, ks[..|ks| - 1]);
      DeltasOverSum(et, ey, ks[..|ks| - 1]);
    }
  }

  /**
   * The deltas over the union of ids add up to the change of the grand
   * total: no id is counted twice and none is lost.
   */
  lemma DeltaLinesSum(et: seq<Entry<string>>, ey: seq<Entry<string>>)
    ensures SumScores(DeltaLines(et, ey)) == Total(et) - Total(ey)
  {
    var ids := UnionIds(et, ey);
    DeltasOverSum(et, ey, ids);
    assert NoDup(ids) by {
      forall i, j | 0 <= i < j < |ids| ensures ids[i] != ids[j] {
        Text.StrictlySortedDistinct(ids, i, j);
      }
    }
    forall i | 0 <= i < |et| ensures et[i].key in ids {
      assert KeysOf(et)[i] == et[i].key;
    }
    forall i | 0 <= i < |ey| ensures ey[i].key in ids {
      assert KeysOf(ey)[i] == ey[i].key;
    }
    GroupsPartitionTotal(et, ids);
    GroupsPartitionTotal(ey, ids);
  }

  /** A line of the delta table is the delta of an id seen on either day. */
  ghost predicate IsDeltaLine(et: seq<Entry<string>>, ey: seq<Entry<string>>, x: Scored)
  {
    (x.id in KeysOf(et) || x.id in KeysOf(ey)) && x.score == DeltaOf(et, ey, x.id)
  }

  /**
   * The delta table sorted by delta: a permutation of one line per id seen
   * on either day, ordered, with no id twice.
   */
  function SortedDeltas(et: seq<Entry<string>>, ey: seq<Entry<string>>, desc: bool): (ls: seq<Scored>)
    ensures multiset(ls) == multiset(DeltaLines(et, ey))
    ensures SortedBy(ls, ScoreOf, desc)
    ensures DistinctIds(ls)
    ensures forall i :: 0 <= i < |ls| ==> IsDeltaLine(et, ey, ls[i])
  {
    var lines := DeltaLines(et, ey);
    var ids := UnionIds(et, ey);
    var ls := Sort(lines, ScoreOf, desc);
    SortedDeltasFacts(et, ey, lines, ls);
    ls
  }

  lemma SortedDeltasFacts(et: seq<Entry<string>>, ey: seq<Entry<string>>, lines: seq<Scored>, ls: seq<Scored>)
    requires lines == DeltaLines(et, ey) && multiset(ls) == multiset(lines)
    ensures DistinctIds(ls)
    ensures forall i :: 0 <= i < |ls| ==> IsDeltaLine(et, ey, ls[i])
  {
    var ids := UnionIds(et, ey);
    assert NoDup(lines) by {
      forall i, j | 0 <= i < j < |lines| ensures lines[i] != lines[j] {
        Text.StrictlySortedDistinct(ids, i, j);
      }
    }
    NoDupPermutation(lines, ls);
    forall i | 0 <= i < |ls| ensures IsDeltaLine(et, ey, ls[i]) {
      assert ls[i] in multiset(lines);
      var k :| 0 <= k < |lines| && lines[k] == ls[i];
      assert ids[k] in ids;
    }
    forall i, j | 0 <= i < j < |ls| ensures ls[i].id != ls[j].id {
      assert ls[i] != ls[j];
    }
  }

  /** Every id seen on either day has its delta line in the sorted table. */
  lemma SortedDeltasHas(et: seq<Entry<string>>, ey: seq<Entry<string>>, desc: bool, k: string)
    requires k in KeysOf(et) || k in KeysOf(ey)
    ensures Scored(k, DeltaOf(et, ey, k)) in SortedDeltas(et, ey, desc)
  {
    var ids := UnionIds(et, ey);
    var j :| 0 <= j < |ids| && ids[j] == k;
    assert DeltaLines(et, ey)[j] == Scored(k, DeltaOf(et, ey, k));
    assert Scored(k, DeltaOf(et, ey, k)) in multiset(SortedDeltas(et, ey, desc));
  }

  // ---------------------------------------------------------------
  // Influencer driver list
  // ---------------------------------------------------------------

  /** The influencer id of a row, "NONE" when missing (fillna("NONE")). */
  function InfluencerKey(r: ItemRow): string
  {
    if r.influencerId.Null? then "NONE" else r.influencerId.s
  }

  function NetByInfluencer(items: Items, d: int): seq<Entry<string>>
  {
    Project(RowsOn(items.rows, ItemDay, d), InfluencerKey, ItemNet)
  }

  /** The lines whose id is not "NONE", in order. */
  function WithoutNone(ls: seq<Scored>): (r: seq<Scored>)
    ensures |r| <= |ls|
    ensures forall i :: 0 <= i < |r| ==> r[i].id != "NONE" && r[i] in ls
    ensures forall i :: 0 <= i < |ls| && ls[i].id != "NONE" ==> ls[i] in r
  {
    if ls == [] then []
    else
      var p, l := ls[..|ls| - 1], ls[|ls| - 1];
      assert ls == p + [l];
      var q := WithoutNone(p);
      if l.id == "NONE" then q else q + [l]
  }

  /** Dropping "NONE" keeps the order and the distinctness of the ids. */
  lemma {:induction false} WithoutNoneOrdered(ls: seq<Scored>)
    requires SortedBy(ls, ScoreOf, true) && DistinctIds(ls)
    ensures SortedBy(WithoutNone(ls), ScoreOf, true) && DistinctIds(WithoutNone(ls))
  {
    if ls != [] {
      var p, l := ls[..|ls| - 1], ls[|ls| - 1];
      WithoutNoneOrdered(p);
      var q := WithoutNone(p);
      if l.id != "NONE" {
        forall i | 0 <= i < |q| ensures q[i].score >= l.score && q[i].id != l.id {
          var k :| 0 <= k < |p| && p[k] == q[i];
          assert ls[k] == q[i];
        }
        assert WithoutNone(ls) == q + [l];
      }
    }
  }

  /** The 5 largest deltas whose id is not "NONE", descending. */
  function TopGrowth(et: seq<Entry<string>>, ey: seq<Entry<string>>): (r: seq<Scored>)
    ensures |r| <= 5
    ensures SortedBy(r, ScoreOf, true) && DistinctIds(r)
    ensures forall i :: 0 <= i < |r| ==> r[i].id != "NONE" && IsDeltaLine(et, ey, r[i])
  {
    var sorted := SortedDeltas(et, ey, true);
    var ls := WithoutNone(sorted);
    WithoutNoneOrdered(sorted);
    assert forall i :: 0 <= i < |Take(ls, 5)| ==> Take(ls, 5)[i] == ls[i];
    Take(ls, 5)
  }

  /**
   * The list is the top 5: an id other than "NONE" seen on either day and
   * left out has a delta no larger than every one listed, and then the
   * list is full.
   */
  lemma TopGrowthIsTop(et: seq<Entry<string>>, ey: seq<Entry<string>>, k: string)
    requires k != "NONE" && (k in KeysOf(et) || k in KeysOf(ey))
    ensures var r := TopGrowth(et, ey);
      (forall i :: 0 <= i < |r| ==> r[i].id != k) ==>
        |r| == 5 && forall i :: 0 <= i < |r| ==> r[i].score >= DeltaOf(et, ey, k)
  {
    var x := Scored(k, DeltaOf(et, ey, k));
    var sorted := SortedDeltas(et, ey, true);
    SortedDeltasHas(et, ey, true, k);
    var ls := WithoutNone(sorted);
    WithoutNoneOrdered(sorted);
    assert x in ls;
    var r := TopGrowth(et, ey);
    assert r == Take(ls, 5);
    if forall i :: 0 <= i < |r| ==> r[i].id != k {
      TopFiveOf(ls, x, true);
    }
  }

  /**
   * An element left out of the first five of a list sorted by score may
   * follow every element kept, and then five are kept.
   */
  lemma TopFiveOf(ls: seq<Scored>, x: Scored, desc: bool)
    requires SortedBy(ls, ScoreOf, desc) && x in ls
    requires forall i :: 0 <= i < |Take(ls, 5)| ==> Take(ls, 5)[i].id != x.id
    ensures |Take(ls, 5)| == 5
    ensures forall i :: 0 <= i < |Take(ls, 5)| ==> InOrder(Take(ls, 5)[i].score, x.score, desc)
  {
    var r := Take(ls, 5);
    assert x !in r;
    TakeSortedTop(ls, ScoreOf, desc, 5, x);
    forall i | 0 <= i < |r| ensures InOrder(r[i].score, x.score, desc) {
      assert r[i] in r;
    }
  }

  /**
   * The influencers whose net sales grew most, today against the day
   * before; none without influencer_id.
   */
  function GrossIncreaseTop(items: Items, today: int): (r: seq<Scored>)
    ensures Cat(InfluencerId) !in items.cols ==> r == []
    ensures Cat(InfluencerId) in items.cols ==> r == TopGrowth(NetByInfluencer(items, today), NetByInfluencer(items, today - 1))
  {
    if Cat(InfluencerId) !in items.cols then []
    else TopGrowth(NetByInfluencer(items, today), NetByInfluencer(items, today - 1))
  }

  /**
   * The influencer deltas, "NONE" included, add up to the gross delta of
   * the KPIs: the driver table explains the whole change.
   */
  lemma InfluencerDeltasSumToGrossDelta(items: Items, adj: Adjustments, today: int)
    ensures SumScores(DeltaLines(NetByInfluencer(items, today), NetByInfluencer(items, today - 1)))
            == KpisOf(items, adj, today).grossDelta
  {
    DeltaLinesSum(NetByInfluencer(items, today), NetByInfluencer(items, today - 1));
    TotalProject(RowsOn(items.rows, ItemDay, today), InfluencerKey, ItemNet);
    TotalProject(RowsOn(items.rows, ItemDay, today - 1), InfluencerKey, ItemNet);
  }

  // ---------------------------------------------------------------
  // Refund driver list
  // ---------------------------------------------------------------

  /** Refund amounts of day `d` per product_id; rows without a product id are dropped. */
  function RefundEntries(rows: seq<AdjRow>, d: int): seq<Entry<string>>
  {
    if rows == [] then []
    else
      var r := rows[|rows| - 1];
      RefundEntries(rows[..|rows| - 1], d)
      + (if r.day == d && r.productId.Text? then [Entry(r.productId.s, r.amount)] else [])
  }

  function RefundByProduct(adj: Adjustments, d: int): seq<Entry<string>>
  {
    RefundEntries(adj.rows, d)
  }

  /** The 5 smallest deltas, ascending. */
  function RefundCandidates(adj: Adjustments, today: int): (r: seq<Scored>)
    ensures |r| <= 5 && SortedBy(r, ScoreOf, false) && DistinctIds(r)
  {
    var ls := SortedDeltas(RefundByProduct(adj, today), RefundByProduct(adj, today - 1), false);
    assert forall i :: 0 <= i < |Take(ls, 5)| ==> Take(ls, 5)[i] == ls[i];
    Take(ls, 5)
  }

  /** Each candidate is the delta of a product seen on either day. */
  lemma RefundCandidatesAreDeltas(adj: Adjustments, today: int)
    ensures forall x :: x in RefundCandidates(adj, today) ==>
      IsDeltaLine(RefundByProduct(adj, today), RefundByProduct(adj, today - 1), x)
  {
    var ls := SortedDeltas(RefundByProduct(adj, today), RefundByProduct(adj, today - 1), false);
    forall x | x in RefundCandidates(adj, today)
      ensures IsDeltaLine(RefundByProduct(adj, today), RefundByProduct(adj, today - 1), x)
    {
      var i :| 0 <= i < |Take(ls, 5)| && Take(ls, 5)[i] == x;
      assert x == ls[i];
    }
  }

  /**
   * The candidates are the 5 lowest deltas: a product seen on either day
   * and not among them has a delta no smaller than every candidate's, and
   * there are fewer than 5 candidates only when fewer products were seen.
   */
  lemma RefundCandidatesAreLowest(adj: Adjustments, today: int, k: string)
    requires var rt, ry := RefundByProduct(adj, today), RefundByProduct(adj, today - 1);
      k in KeysOf(rt) || k in KeysOf(ry)
    ensures var rt, ry := RefundByProduct(adj, today), RefundByProduct(adj, today - 1);
      var r := RefundCandidates(adj, today);
      (forall i :: 0 <= i < |r| ==> r[i].id != k) ==>
        |r| == 5 && forall i :: 0 <= i < |r| ==> r[i].score <= DeltaOf(rt, ry, k)
  {
    var rt, ry := RefundByProduct(adj, today), RefundByProduct(adj, today - 1);
    var x := Scored(k, DeltaOf(rt, ry, k));
    var ls := SortedDeltas(rt, ry, false);
    SortedDeltasHas(rt, ry, false, k);
    RefundCandidatesAreDeltas(adj, today);
    var r := RefundCandidates(adj, today);
    assert r == Take(ls, 5);
    if forall i :: 0 <= i < |r| ==> r[i].id != k {
      TopFiveOf(ls, x, false);
    }
  }

  /** The lines with a strictly negative delta, in order. */
  function Worsening(ls: seq<Scored>): (r: seq<Scored>)
    ensures |r| <= |ls|
    ensures forall i :: 0 <= i < |r| ==> r[i].score < 0.0 && r[i] in ls
    ensures forall x :: x in ls && x.score < 0.0 ==> x in r
  {
    if ls == [] then []
    else
      var p, l := ls[..|ls| - 1], ls[|ls| - 1];
      assert ls == p + [l];
      var q := Worsening(p);
      if l.score < 0.0 then q + [l] else q
  }

  lemma {:induction false} WorseningDistinct(ls: seq<Scored>)
    requires DistinctIds(ls)
    ensures DistinctIds(Worsening(ls))
  {
    if ls != [] {
      var p, l := ls[..|ls| - 1], ls[|ls| - 1];
      WorseningDistinct(p);
      var q := Worsening(p);
      forall i | 0 <= i < |q| ensures q[i].id != l.id {
        assert q[i] in q;
        var k :| 0 <= k < |p| && p[k] == q[i];
        assert ls[k] == q[i];
      }
      assert ls == p + [l];
    }
  }

  /** Refund amounts of today for product `pid` per reason_code; missing reasons are dropped. */
  function ReasonEntries(rows: seq<AdjRow>, today: int, pid: string): seq<Entry<string>>
  {
    if rows == [] then []
    else
      var r := rows[|rows| - 1];
      ReasonEntries(rows[..|rows| - 1], today, pid)
      + (if r.day == today && r.productId == Text(pid) && r.reasonCode.Text? then [Entry(r.reasonCode.s, r.amount)] else [])
  }

  /** The summed amount of every reason in `ks`, in the order of `ks`. */
  function ReasonLines(es: seq<Entry<string>>, ks: seq<string>): (ls: seq<Scored>)
    ensures |ls| == |ks| && forall i :: 0 <= i < |ks| ==> ls[i] == Scored(ks[i], KeyTotal(es, ks[i]))
  {
    seq(|ks|, i requires 0 <= i < |ks| => Scored(ks[i], KeyTotal(es, ks[i])))
  }

  /**
   * The 3 reasons with the smallest (most negative) summed refund amount
   * for product `pid` today, ascending.
   */
  function TopReasons(adj: Adjustments, today: int, pid: string): seq<Scored>
  {
    var es := ReasonEntries(adj.rows, today, pid);
    Take(Sort(ReasonLines(es, Text.SortedSet(KeysOf(es))), ScoreOf, false), 3)
  }

  lemma ReasonLinesNoDup(es: seq<Entry<string>>, ks: seq<string>)
    requires Text.StrictlySorted(ks)
    ensures NoDup(ReasonLines(es, ks))
  {
    var lines := ReasonLines(es, ks);
    forall i, j | 0 <= i < j < |lines| ensures lines[i] != lines[j] {
      Text.StrictlySortedDistinct(ks, i, j);
    }
  }

  /** Any ordering of the reason table lists each reason once. */
  lemma ReasonTableDistinct(es: seq<Entry<string>>, ks: seq<string>, ls: seq<Scored>)
    requires ks == Text.SortedSet(KeysOf(es)) && multiset(ls) == multiset(ReasonLines(es, ks))
    ensures DistinctIds(ls)
  {
    var lines := ReasonLines(es, ks);
    ReasonLinesNoDup(es, ks);
    NoDupPermutation(lines, ls);
    forall i, j | 0 <= i < j < |ls| ensures ls[i].id != ls[j].id {
      assert ls[i] in multiset(lines) && ls[j] in multiset(lines);
      var a :| 0 <= a < |lines| && lines[a] == ls[i];
      var b :| 0 <= b < |lines| && lines[b] == ls[j];
      assert ls[i] != ls[j];
      if a < b {
        Text.StrictlySortedDistinct(ks, a, b);
      } else if b < a {
        Text.StrictlySortedDistinct(ks, b, a);
      }
    }
  }

  /** Each line of any ordering of the reason table is a reason of the product today with its sum. */
  lemma ReasonTableSums(es: seq<Entry<string>>, ks: seq<string>, ls: seq<Scored>)
    requires ks == Text.SortedSet(KeysOf(es)) && multiset(ls) == multiset(ReasonLines(es, ks))
    ensures forall i :: 0 <= i < |ls| ==> ls[i].id in KeysOf(es) && ls[i].score == KeyTotal(es, ls[i].id)
  {
    var lines := ReasonLines(es, ks);
    forall i | 0 <= i < |ls| ensures ls[i].id in KeysOf(es) && ls[i].score == KeyTotal(es, ls[i].id) {
      assert ls[i] in multiset(lines);
      var m :| 0 <= m < |lines| && lines[m] == ls[i];
      assert ks[m] in ks;
    }
  }

  /** Any ordering of the reason table holds the line of every reason of the product today. */
  lemma ReasonTableHas(es: seq<Entry<string>>, ks: seq<string>, ls: seq<Scored>, k: string)
    requires ks == Text.SortedSet(KeysOf(es)) && multiset(ls) == multiset(ReasonLines(es, ks))
    requires k in KeysOf(es)
    ensures Scored(k, KeyTotal(es, k)) in ls
  {
    var lines := ReasonLines(es, ks);
    var j :| 0 <= j < |KeysOf(es)| && KeysOf(es)[j] == k;
    var m :| 0 <= m < |ks| && ks[m] == k;
    assert lines[m] == Scored(k, KeyTotal(es, k));
    assert lines[m] in multiset(ls);
  }

  /**
   * At most 3 reasons, ascending by summed amount, no reason twice; each
   * occurs today for the product, with its summed amount.
   */
  lemma TopReasonsAreSums(adj: Adjustments, today: int, pid: string)
    ensures var rs := TopReasons(adj, today, pid);
      |rs| <= 3 && SortedBy(rs, ScoreOf, false) && DistinctIds(rs)
    ensures var es := ReasonEntries(adj.rows, today, pid);
      var rs := TopReasons(adj, today, pid);
      forall i :: 0 <= i < |rs| ==> rs[i].id in KeysOf(es) && rs[i].score == KeyTotal(es, rs[i].id)
  {
    var es := ReasonEntries(adj.rows, today, pid);
    var ks := Text.SortedSet(KeysOf(es));
    var sorted := Sort(ReasonLines(es, ks), ScoreOf, false);
    ReasonTableDistinct(es, ks, sorted);
    ReasonTableSums(es, ks, sorted);
    var rs := TopReasons(adj, today, pid);
    assert forall i :: 0 <= i < |rs| ==> rs[i] == sorted[i];
  }

  /**
   * A reason of the product today that is not listed has a summed amount
   * no smaller than every listed one, and then 3 reasons are listed.
   */
  lemma TopReasonsAreLowest(adj: Adjustments, today: int, pid: string, k: string)
    requires k in KeysOf(ReasonEntries(adj.rows, today, pid))
    ensures var es := ReasonEntries(adj.rows, today, pid);
      var rs := TopReasons(adj, today, pid);
      (forall i :: 0 <= i < |rs| ==> rs[i].id != k) ==>
        |rs| == 3 && forall i :: 0 <= i < |rs| ==> rs[i].score <= KeyTotal(es, k)
  {
    var es := ReasonEntries(adj.rows, today, pid);
    var ks := Text.SortedSet(KeysOf(es));
    var sorted := Sort(ReasonLines(es, ks), ScoreOf, false);
    ReasonTableHas(es, ks, sorted, k);
    var x := Scored(k, KeyTotal(es, k));
    var rs := TopReasons(adj, today, pid);
    if forall i :: 0 <= i < |rs| ==> rs[i].id != k {
      assert x !in rs;
      TakeSortedTop(sorted, ScoreOf, false, 3, x);
      forall i | 0 <= i < |rs| ensures rs[i].score <= x.score {
        assert rs[i] in rs;
      }
    }
  }

  /** The first products row of product `pid`, if any. */
  function FirstProduct(rows: seq<ProductRow>, pid: string): Option<ProductRow>
  {
    if rows == [] then None
    else if rows[0].productId == Text(pid) then Some(rows[0])
    else FirstProduct(rows[1..], pid)
  }

  /** None exactly when no row matches; otherwise the earliest matching row. */
  lemma {:induction false} FirstProductIsFirst(rows: seq<ProductRow>, pid: string)
    ensures var r := FirstProduct(rows, pid);
      (r.None? <==> forall i :: 0 <= i < |rows| ==> rows[i].productId != Text(pid))
      && (r.Some? ==> exists i :: 0 <= i < |rows| && rows[i] == r.value && r.value.productId == Text(pid)
                        && forall j :: 0 <= j < i ==> rows[j].productId != Text(pid))
  {
    if rows != [] && rows[0].productId != Text(pid) {
      FirstProductIsFirst(rows[1..], pid);
      assert forall i :: 1 <= i < |rows| ==> rows[i] == rows[1..][i - 1];
      var r := FirstProduct(rows, pid);
      if r.Some? {
        var i :| 0 <= i < |rows[1..]| && rows[1..][i] == r.value && r.value.productId == Text(pid)
                  && forall j :: 0 <= j < i ==> rows[1..][j].productId != Text(pid);
        assert rows[i + 1] == r.value;
      }
    }
  }

  /** product_name and seller_id of the first matching products row; missing when absent. */
  function ProductInfo(products: Products, pid: string): (Cell, Cell)
  {
    match FirstProduct(products.rows, pid)
    case None => (Null, Null)
    case Some(p) =>
      (if ProductName in products.cols then p.name else Null,
       if SellerId in products.cols then p.sellerId else Null)
  }

  datatype RefundDriver = RefundDriver(
    productId: string, productName: Cell, sellerId: Cell,
    deltaRefund: real, todayRefund: real, ydayRefund: real, topReasons: seq<Scored>)

  /** The record the loop appends for candidate `x`. */
  function DriverFor(adj: Adjustments, products: Products, today: int, x: Scored): RefundDriver
  {
    var info := ProductInfo(products, x.id);
    RefundDriver(x.id, info.0, info.1, x.score,
      KeyTotal(RefundByProduct(adj, today), x.id), KeyTotal(RefundByProduct(adj, today - 1), x.id),
      if ReasonCode in adj.cols then TopReasons(adj, today, x.id) else [])
  }

  function DriversFor(adj: Adjustments, products: Products, today: int, xs: seq<Scored>): seq<RefundDriver>
  {
    if xs == [] then []
    else DriversFor(adj, products, today, xs[..|xs| - 1]) + [DriverFor(adj, products, today, xs[|xs| - 1])]
  }

  /** One record per candidate, position by position. */
  lemma {:induction false} DriversForAt(adj: Adjustments, products: Products, today: int, xs: seq<Scored>)
    ensures var ds := DriversFor(adj, products, today, xs);
      |ds| == |xs| && forall i :: 0 <= i < |xs| ==> ds[i] == DriverFor(adj, products, today, xs[i])
  {
    if xs != [] {
      var p := xs[..|xs| - 1];
      DriversForAt(adj, products, today, p);
      assert forall i :: 0 <= i < |p| ==> xs[i] == p[i];
    }
  }

  /**
   * The refund driver list: empty without product_id in adjustments or
   * products; otherwise one record per candidate with a negative delta,
   * in candidate order.
   */
  function RefundDrivers(adj: Adjustments, products: Products, today: int): seq<RefundDriver>
  {
    if AdjProductId in adj.cols && CatalogProductId in products.cols then
      DriversFor(adj, products, today, Worsening(RefundCandidates(adj, today)))
    else []
  }

  /** What a listed driver states about its product. */
  ghost predicate DriverOf(adj: Adjustments, products: Products, today: int, d: RefundDriver)
  {
    var rt, ry := RefundByProduct(adj, today), RefundByProduct(adj, today - 1);
    (d.productId in KeysOf(rt) || d.productId in KeysOf(ry))
    && d.todayRefund == KeyTotal(rt, d.productId) && d.ydayRefund == KeyTotal(ry, d.productId)
    && d.deltaRefund == d.todayRefund - d.ydayRefund && d.deltaRefund < 0.0
    && (d.productName, d.sellerId) == ProductInfo(products, d.productId)
    && |d.topReasons| <= 3
    && (ReasonCode in adj.cols ==> d.topReasons == TopReasons(adj, today, d.productId))
    && (ReasonCode !in adj.cols ==> d.topReasons == [])
  }

  lemma DriverForMeaning(adj: Adjustments, products: Products, today: int, x: Scored)
    requires IsDeltaLine(RefundByProduct(adj, today), RefundByProduct(adj, today - 1), x) && x.score < 0.0
    ensures DriverOf(adj, products, today, DriverFor(adj, products, today, x))
  {
    TopReasonsAreSums(adj, today, x.id);
  }

  /**
   * Every listed driver is a product seen on either day whose refund sum
   * worsened (negative delta = today minus yesterday), with its sums,
   * product info and at most 3 reasons.
   */
  lemma RefundDriversAreWorsening(adj: Adjustments, products: Products, today: int)
    ensures var out := RefundDrivers(adj, products, today);
      forall i :: 0 <= i < |out| ==> DriverOf(adj, products, today, out[i])
  {
    if AdjProductId in adj.cols && CatalogProductId in products.cols {
      var raw := RefundCandidates(adj, today);
      var w := Worsening(raw);
      var out := RefundDrivers(adj, products, today);
      RefundCandidatesAreDeltas(adj, today);
      DriversForAt(adj, products, today, w);
      forall i | 0 <= i < |out| ensures DriverOf(adj, products, today, out[i]) {
        assert w[i] in raw;
        DriverForMeaning(adj, products, today, w[i]);
      }
    }
  }

  /** At most 5 drivers, no product listed twice. */
  lemma RefundDriversDistinct(adj: Adjustments, products: Products, today: int)
    ensures var out := RefundDrivers(adj, products, today);
      |out| <= 5 && forall i, j :: 0 <= i < j < |out| ==> out[i].productId != out[j].productId
  {
    if AdjProductId in adj.cols && CatalogProductId in products.cols {
      var raw := RefundCandidates(adj, today);
      var w := Worsening(raw);
      WorseningDistinct(raw);
      DriversForAt(adj, products, today, w);
    }
  }

  /** Every candidate with a negative delta is listed. */
  lemma RefundDriversComplete(adj: Adjustments, products: Products, today: int, x: Scored)
    requires AdjProductId in adj.cols && CatalogProductId in products.cols
    requires x in RefundCandidates(adj, today) && x.score < 0.0
    ensures var out := RefundDrivers(adj, products, today);
      exists i :: 0 <= i < |out| && out[i].productId == x.id && out[i].deltaRefund == x.score
  {
    var w := Worsening(RefundCandidates(adj, today));
    DriversForAt(adj, products, today, w);
    var i :| 0 <= i < |w| && w[i] == x;
    assert RefundDrivers(adj, products, today)[i] == DriverFor(adj, products, today, x);
  }

  /** One step of the driver loop: a negative candidate appends its record, any other adds nothing. */
  lemma DriversStep(adj: Adjustments, products: Products, today: int, raw: seq<Scored>, j: nat)
    requires j < |raw|
    ensures DriversFor(adj, products, today, Worsening(raw[..j + 1]))
            == DriversFor(adj, products, today, Worsening(raw[..j]))
               + (if raw[j].score < 0.0 then [DriverFor(adj, products, today, raw[j])] else [])
  {
    var p := raw[..j];
    assert raw[..j + 1][..j] == p;
    var w := Worsening(p);
    if raw[j].score < 0.0 {
      assert Worsening(raw[..j + 1]) == w + [raw[j]];
      assert (w + [raw[j]])[..|w|] == w;
    } else {
      assert Worsening(raw[..j + 1]) == w + [];
      assert w + [] == w;
    }
  }

  /** The refund driver loop: skip candidates whose delta is not negative. */
  method BuildRefundDrivers(adj: Adjustments, products: Products, today: int) returns (out: seq<RefundDriver>)
    ensures out == RefundDrivers(adj, products, today)
  {
    out := [];
    if !(AdjProductId in adj.cols && CatalogProductId in products.cols) {
      return;
    }
    var raw := RefundCandidates(adj, today);
    for j := 0 to |raw|
      invariant out == DriversFor(adj, products, today, Worsening(raw[..j]))
    {
      var row := raw[j];
      DriversStep(adj, products, today, raw, j);
      if row.score >= 0.0 {
        continue;
      }
      var d := DriverFor(adj, products, today, row);
      out := out + [d];
    }
    assert raw[..|raw|] == raw;
  }

  // ---------------------------------------------------------------
  // The packet
  // ---------------------------------------------------------------

  datatype Packet = Packet(
    date: int, compareTo: int, kpis: Kpis,
    grossIncreaseTop: seq<Scored>, refundWorsenTop: seq<RefundDriver>)

  /**
   * build_evidence: the first missing column among order_ts, event_ts,
   * net_sales_amount and amount is an error; otherwise the packet for
   * today against the day before.
   */
  method BuildEvidence(today: int, items: Items, adj: Adjustments, products: Products)
    returns (r: Result<Packet, EvidenceError>)
    ensures OrderTs !in items.cols ==> r == Failure(MissingOrderTs)
    ensures OrderTs in items.cols && EventTs !in adj.cols ==> r == Failure(MissingEventTs)
    ensures OrderTs in items.cols && EventTs in adj.cols && NetSalesAmount !in items.cols
            ==> r == Failure(MissingNetSalesAmount)
    ensures OrderTs in items.cols && EventTs in adj.cols && NetSalesAmount in items.cols && Amount !in adj.cols
            ==> r == Failure(MissingAmount)
    ensures r.Success? <==> OrderTs in items.cols && EventTs in adj.cols && NetSalesAmount in items.cols && Amount in adj.cols
    ensures r.Success? ==>
      r.value.date == today && r.value.compareTo == today - 1
      && r.value.kpis == KpisOf(items, adj, today)
      && r.value.grossIncreaseTop == GrossIncreaseTop(items, today)
      && r.value.refundWorsenTop == RefundDrivers(adj, products, today)
  {
    if OrderTs !in items.cols {
      return Failure(MissingOrderTs);
    }
    if EventTs !in adj.cols {
      return Failure(MissingEventTs);
    }
    if NetSalesAmount !in items.cols {
      return Failure(MissingNetSalesAmount);
    }
    if Amount !in adj.cols {
      return Failure(MissingAmount);
    }
    var kpis := KpisOf(items, adj, today);
    var grossTop := GrossIncreaseTop(items, today);
    var refundTop := BuildRefundDrivers(adj, products, today);
    r := Success(Packet(today, today - 1, kpis, grossTop, refundTop));
  }
}
