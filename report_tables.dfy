/**
 * The per-date tables of the report (report_tables.py): the key-metric
 * table, the sales detail tables by channel, ad and influencer, the cost
 * detail table, and the membership rule that blanks out placeholder
 * values. Dates are day numbers; every date filter keeps the rows of one
 * day.
 */
module ReportTables {
  import opened Wrappers
  import opened Seqs
  import Text
  import opened Tables

  /** Which of the two compared dates a row describes: "today" or the comparison date. */
  datatype Which = Today | Compare

  // ---------------------------------------------------------------
  // Per-date sums
  // ---------------------------------------------------------------

  /** Sales (gross_amount, or net_sales_amount without it) of day `d`. */
  function SalesOn(items: Items, d: int): real
  {
    SumOf(RowsOn(items.rows, ItemDay, d), r => SalesOf(items, r))
  }

  /** Signed sum of adjustment amounts of day `d` (refunds are negative). */
  function RefundOn(adj: Adjustments, d: int): real
  {
    SumOf(RowsOn(adj.rows, AdjDay, d), AdjAmount)
  }

  function Abs(x: real): (r: real)
    ensures r >= 0.0 && (r == x || r == -x)
  {
    if x < 0.0 then -x else x
  }

  /** Coupon cost of day `d`: the discount_amount sum, 0 without that column. */
  function CouponOn(items: Items, d: int): real
  {
    if DiscountAmount !in items.cols then 0.0 else SumOf(RowsOn(items.rows, ItemDay, d), ItemDiscount)
  }

  /** The day of a cost row: from event_ts when present, otherwise from date. */
  function CostRowDay(t: CostTable, r: CostRow): int
  {
    if CostEventTs in t.cols then r.eventDay else r.date
  }

  /** The amount of a cost row: `amount` when present, otherwise `cost`. */
  function CostRowAmount(t: CostTable, r: CostRow): real
  {
    if CostAmount in t.cols then r.amount else r.cost
  }

  /**
   * The cost of day `d` from an optional ad or influencer cost table; 0
   * when the table is missing or empty, has no date source, or has no
   * amount column.
   */
  function CostOn(t: Option<CostTable>, d: int): (c: real)
    ensures t.None? || t.value.rows == [] ==> c == 0.0
    ensures t.Some? && CostEventTs !in t.value.cols && CostDate !in t.value.cols ==> c == 0.0
    ensures t.Some? && CostAmount !in t.value.cols && CostValue !in t.value.cols ==> c == 0.0
  {
    if t.None? || t.value.rows == [] then 0.0
    else if CostEventTs !in t.value.cols && CostDate !in t.value.cols then 0.0
    else if CostAmount !in t.value.cols && CostValue !in t.value.cols then 0.0
    else
      var tab := t.value;
      SumOf(RowsOn(tab.rows, r => CostRowDay(tab, r), d), r => CostRowAmount(tab, r))
  }

  /**
   * The key-metric table's influencer cost: as CostOn, except that a table
   * dated by its `date` column alone compares that column unparsed, so
   * text dates match no day and the table contributes 0.
   */
  function KeyInfCostOn(t: Option<CostTable>, d: int): (c: real)
    ensures t.Some? && CostEventTs !in t.value.cols && !t.value.dateParsed ==> c == 0.0
    ensures t.None? || CostEventTs in t.value.cols || t.value.dateParsed ==> c == CostOn(t, d)
  {
    if t.Some? && CostEventTs !in t.value.cols && !t.value.dateParsed then 0.0 else CostOn(t, d)
  }

  /**
   * The key-metric table's ad cost: as the influencer cost, and in
   * addition 0 for a table without a `date` column, even one that has
   * event_ts.
   */
  function KeyAdCostOn(t: Option<CostTable>, d: int): (c: real)
    ensures t.Some? && CostDate !in t.value.cols ==> c == 0.0
    ensures t.Some? && CostEventTs !in t.value.cols && !t.value.dateParsed ==> c == 0.0
    ensures t.None? || (CostDate in t.value.cols && (CostEventTs in t.value.cols || t.value.dateParsed))
            ==> c == CostOn(t, d)
  {
    if t.Some? && CostDate !in t.value.cols then 0.0 else KeyInfCostOn(t, d)
  }

  /** The payment fee is not available in the data and is always 0. */
  const PaymentFee: real := 0.0

  // ---------------------------------------------------------------
  // Key metric table
  // ---------------------------------------------------------------

  datatype KeyMetricRow = KeyMetricRow(which: Which, day: int, sales: real, totalCost: real, profit: real)

  /** What the source demands to read the item and adjustment columns it sums. */
  predicate KeyMetricReadable(items: Items, adj: Adjustments)
  {
    SalesReadable(items) && EventTs in adj.cols && Amount in adj.cols
  }

  /** The key-metric row of date `d`. */
  function KeyMetricRowOf(which: Which, d: int, items: Items, adj: Adjustments,
                          ad: Option<CostTable>, inf: Option<CostTable>): KeyMetricRow
  {
    var sales := SalesOn(items, d);
    var cost := CouponOn(items, d) + KeyInfCostOn(inf, d) + KeyAdCostOn(ad, d) + PaymentFee + Abs(RefundOn(adj, d));
    KeyMetricRow(which, d, sales, cost, sales - cost)
  }

  /**
   * build_key_metric_table: one row for today, then one for the comparison
   * date; total cost is coupon + influencer + ad + fee (0) + |refund| and
   * profit is sales minus total cost.
   */
  method BuildKeyMetricTable(today: int, compare: int, items: Items, adj: Adjustments,
                             ad: Option<CostTable>, inf: Option<CostTable>)
    returns (rows: seq<KeyMetricRow>)
    requires KeyMetricReadable(items, adj)
    ensures |rows| == 2
    ensures rows[0].which == Today && rows[0].day == today
    ensures rows[1].which == Compare && rows[1].day == compare
    ensures forall i :: 0 <= i < 2 ==>
      rows[i].sales == SalesOn(items, rows[i].day)
      && rows[i].totalCost == CouponOn(items, rows[i].day) + KeyInfCostOn(inf, rows[i].day)
                              + KeyAdCostOn(ad, rows[i].day) + PaymentFee + Abs(RefundOn(adj, rows[i].day))
      && rows[i].profit == rows[i].sales - rows[i].totalCost
  {
    var dates := [(Today, today), (Compare, compare)];
    rows := [];
    for k := 0 to 2
      invariant |rows| == k
      invariant forall i :: 0 <= i < k ==> rows[i] == KeyMetricRowOf(dates[i].0, dates[i].1, items, adj, ad, inf)
    {
      var (which, d) := dates[k];
      var sales := SalesOn(items, d);
      var refund := Abs(RefundOn(adj, d));
      var coupon := CouponOn(items, d);
      var adCost := KeyAdCostOn(ad, d);
      var infCost := KeyInfCostOn(inf, d);
      var totalCost := coupon + infCost + adCost + PaymentFee + refund;
      rows := rows + [KeyMetricRow(which, d, sales, totalCost, sales - totalCost)];
    }
  }

  // ---------------------------------------------------------------
  // Cost detail table
  // ---------------------------------------------------------------

  datatype CostDetailRow = CostDetailRow(
    day: int, coupon: real, influencer: real, ad: real, fee: real, refund: real, total: real)

  function CostDetailRowOf(d: int, items: Items, adj: Adjustments, ad: Option<CostTable>, inf: Option<CostTable>)
    : CostDetailRow
  {
    var coupon, infCost, adCost, refund := CouponOn(items, d), CostOn(inf, d), CostOn(ad, d), Abs(RefundOn(adj, d));
    CostDetailRow(d, coupon, infCost, adCost, PaymentFee, refund, coupon + infCost + adCost + PaymentFee + refund)
  }

  /**
   * build_cost_detail_table: one row for today, then one for the comparison
   * date, each splitting the total cost into its five parts.
   */
  method BuildCostDetailTable(today: int, compare: int, items: Items, adj: Adjustments,
                              ad: Option<CostTable>, inf: Option<CostTable>)
    returns (rows: seq<CostDetailRow>)
    requires OrderTs in items.cols && EventTs in adj.cols && Amount in adj.cols
    ensures |rows| == 2 && rows[0].day == today && rows[1].day == compare
    ensures forall i :: 0 <= i < 2 ==>
      rows[i].coupon == CouponOn(items, rows[i].day) && rows[i].influencer == CostOn(inf, rows[i].day)
      && rows[i].ad == CostOn(ad, rows[i].day) && rows[i].fee == 0.0
      && rows[i].refund == Abs(RefundOn(adj, rows[i].day))
      && rows[i].total == rows[i].coupon + rows[i].influencer + rows[i].ad + rows[i].fee + rows[i].refund
  {
    var dates := [today, compare];
    rows := [];
    for k := 0 to 2
      invariant |rows| == k
      invariant forall i :: 0 <= i < k ==> rows[i] == CostDetailRowOf(dates[i], items, adj, ad, inf)
    {
      var d := dates[k];
      var coupon := CouponOn(items, d);
      var infCost := CostOn(inf, d);
      var adCost := CostOn(ad, d);
      var fee := PaymentFee;
      var refund := Abs(RefundOn(adj, d));
      rows := rows + [CostDetailRow(d, coupon, infCost, adCost, fee, refund, coupon + infCost + adCost + fee + refund)];
    }
  }

  /** A cost table whose rows the key-metric table can date: by event_ts, or by parsed dates. */
  predicate KeyDated(t: Option<CostTable>)
  {
    t.None? || CostEventTs in t.value.cols || t.value.dateParsed
  }

  /**
   * The two tables agree on the total cost of a date when the key-metric
   * table can date both cost tables and the ad table has a `date` column,
   * which only the key-metric table requires.
   */
  lemma TotalCostsAgree(d: int, items: Items, adj: Adjustments, ad: Option<CostTable>, inf: Option<CostTable>)
    requires KeyDated(ad) && KeyDated(inf) && (ad.None? || CostDate in ad.value.cols)
    ensures KeyMetricRowOf(Today, d, items, adj, ad, inf).totalCost == CostDetailRowOf(d, items, adj, ad, inf).total
    ensures KeyMetricRowOf(Today, d, items, adj, ad, inf).profit
            == SalesOn(items, d) - CostDetailRowOf(d, items, adj, ad, inf).total
  {
  }

  /** The two tables disagree on an ad cost table keyed by event_ts alone. */
  lemma TotalCostsDisagree()
    ensures var ad := Some(CostTable({CostEventTs, CostAmount}, [CostRow(0, 7, 5.0, 0.0)], false));
      var items, adj := Items({OrderTs, GrossAmount}, []), Adjustments({EventTs, Amount}, []);
      KeyMetricRowOf(Today, 7, items, adj, ad, None).totalCost == 0.0
      && CostDetailRowOf(7, items, adj, ad, None).total == 5.0
  {
    var ad := CostTable({CostEventTs, CostAmount}, [CostRow(0, 7, 5.0, 0.0)], false);
    assert RowsOn(ad.rows, r => CostRowDay(ad, r), 7) == ad.rows by {
      assert ad.rows[..0] == [];
    }
  }

  /**
   * They also disagree on a cost table dated by an unparsed `date` column
   * alone, ad or influencer: the cost-detail table parses the dates and
   * counts the row, the key-metric table matches nothing.
   */
  lemma TextDatedCostsDisagree(t: CostTable)
    requires t == CostTable({CostDate, CostAmount}, [CostRow(7, 0, 5.0, 0.0)], false)
    ensures var items, adj := Items({OrderTs, GrossAmount}, []), Adjustments({EventTs, Amount}, []);
      KeyMetricRowOf(Today, 7, items, adj, Some(t), None).totalCost == 0.0
      && CostDetailRowOf(7, items, adj, Some(t), None).total == 5.0
      && KeyMetricRowOf(Today, 7, items, adj, None, Some(t)).totalCost == 0.0
      && CostDetailRowOf(7, items, adj, None, Some(t)).total == 5.0
  {
    assert RowsOn(t.rows, r => CostRowDay(t, r), 7) == t.rows by {
      assert t.rows[..0] == [];
    }
  }

  // ---------------------------------------------------------------
  // Membership of a categorical value
  // ---------------------------------------------------------------

  /**
   * _norm_fill_null on one value: missing, blank after strip, or "NONE"
   * after strip and upper-casing becomes null; anything else is kept.
   */
  function NormCell(c: Cell): (r: Cell)
    ensures r == Null || r == c
    ensures r.Text? <==> c.Text? && Text.Strip(c.s) != "" && Text.Upper(Text.Strip(c.s)) != "NONE"
  {
    if c.Null? || Text.Strip(c.s) == "" || Text.Upper(Text.Strip(c.s)) == "NONE" then Null else c
  }

  /**
   * The has_X flag of the IV stacking: present, not blank after strip, and
   * not "NONE" after upper-casing the unstripped value.
   */
  predicate IsMember(c: Cell)
  {
    c.Text? && Text.Strip(c.s) != "" && Text.Upper(c.s) != "NONE"
  }

  function SetCell(r: ItemRow, c: Category, v: Cell): (r': ItemRow)
    ensures CellOf(r', c) == v
    ensures r'.day == r.day && r'.gross == r.gross && r'.netSales == r.netSales && r'.discount == r.discount
    ensures forall c' :: c' != c ==> CellOf(r', c') == CellOf(r, c')
  {
    match c
    case Channel => r.(channel := v)
    case AdId => r.(adId := v)
    case InfluencerId => r.(influencerId := v)
    case CouponId => r.(couponId := v)
    case CouponCode => r.(couponCode := v)
    case ProductId => r.(productId := v)
  }

  /**
   * _norm_fill_null on a column of order_items: without the column every
   * row gets null; with it each value is normalised by NormCell. The
   * column is present afterwards and nothing else changes.
   */
  function NormFillNull(items: Items, c: Category, hasCol: bool): (r: Items)
    ensures r.cols == items.cols + {Cat(c)} && |r.rows| == |items.rows|
    ensures forall i :: 0 <= i < |r.rows| ==>
      CellOf(r.rows[i], c) == (if hasCol then NormCell(CellOf(items.rows[i], c)) else Null)
      && r.rows[i] == SetCell(items.rows[i], c, CellOf(r.rows[i], c))
  {
    var rows := items.rows;
    Items(items.cols + {Cat(c)},
      seq(|rows|, i requires 0 <= i < |rows| =>
        SetCell(rows[i], c, if hasCol then NormCell(CellOf(rows[i], c)) else Null)))
  }

  /** Normalising is idempotent. */
  lemma NormCellIdempotent(c: Cell)
    ensures NormCell(NormCell(c)) == NormCell(c)
  {
  }

  lemma StripUnspaced(s: string)
    requires forall i :: 0 <= i < |s| ==> !Text.IsSpace(s[i])
    ensures Text.Strip(s) == s
  {
    assert Text.TrimStart(s) == s;
  }

  /** A value that upper-cases to "NONE" has no whitespace to strip. */
  lemma UpperNoneUnspaced(s: string)
    ensures Text.Upper(s) == "NONE" ==> Text.Strip(s) == s
  {
    if Text.Upper(s) == "NONE" {
      forall i | 0 <= i < |s| ensures !Text.IsSpace(s[i]) {
        assert Text.Upper(s)[i] == Text.UpperChar(s[i]);
      }
      StripUnspaced(s);
    }
  }

  /** A value the detail tables keep is one the IV flag counts as a member. */
  lemma KeptIsMember(c: Cell)
    requires NormCell(c).Text?
    ensures IsMember(c)
  {
    UpperNoneUnspaced(c.s);
  }

  /**
   * The converse fails: a leading space before any spelling of "none"
   * (" none", " None") is a member for the IV flag but null in the detail
   * tables, because the flag upper-cases the unstripped value.
   */
  lemma MemberNotKept(t: string)
    requires Text.Strip(t) == t && Text.Upper(t) == "NONE"
    ensures IsMember(Text([' '] + t)) && NormCell(Text([' '] + t)) == Null
  {
    MemberAfterSpace(t);
    NullAfterSpace(t);
  }

  lemma MemberAfterSpace(t: string)
    requires Text.Strip(t) == t && Text.Upper(t) == "NONE"
    ensures IsMember(Text([' '] + t))
  {
    StripAfterSpace(t);
    UpperAfterSpace(t);
  }

  lemma NullAfterSpace(t: string)
    requires Text.Strip(t) == t && Text.Upper(t) == "NONE"
    ensures NormCell(Text([' '] + t)) == Null
  {
    StripAfterSpace(t);
  }

  lemma StripAfterSpace(t: string)
    requires Text.Strip(t) == t
    ensures Text.Strip([' '] + t) == t
  {
    var s := [' '] + t;
    assert s[1..] == t;
    assert Text.TrimStart(s) == Text.TrimStart(t);
  }

  lemma UpperAfterSpace(t: string)
    ensures Text.Upper([' '] + t) != "NONE"
  {
    assert Text.Upper([' '] + t)[0] == ' ';
  }

  // ---------------------------------------------------------------
  // Sales detail tables
  // ---------------------------------------------------------------

  /** The three sales dimensions: channel, ad and influencer. */
  datatype SalesDim = ChannelDim | AdDim | InfluencerDim

  function CategoryOf(dim: SalesDim): Category
  {
    match dim
    case ChannelDim => Channel
    case AdDim => AdId
    case InfluencerDim => InfluencerId
  }

  datatype SalesDetailRow = SalesDetailRow(which: Which, day: int, member: Cell, sales: real)

  /** The group key of a row: its normalised value, or null without the column. */
  function DetailKey(items: Items, c: Category, r: ItemRow): Cell
  {
    if Cat(c) in items.cols then NormCell(CellOf(r, c)) else Null
  }

  /** Sales of the rows of day `d`, keyed by group. */
  function SalesEntries(items: Items, c: Category, d: int): seq<Entry<Cell>>
  {
    Project(RowsOn(items.rows, ItemDay, d), r => DetailKey(items, c, r), r => SalesOf(items, r))
  }

  /** One detail row per group key in `ks`, with that group's sales. */
  function GroupRows(which: Which, d: int, es: seq<Entry<Cell>>, ks: seq<Cell>): (rows: seq<SalesDetailRow>)
    ensures |rows| == |ks|
    ensures forall i :: 0 <= i < |ks| ==> rows[i] == SalesDetailRow(which, d, ks[i], KeyTotal(es, ks[i]))
  {
    if ks == [] then []
    else GroupRows(which, d, es, ks[..|ks| - 1]) + [SalesDetailRow(which, d, ks[|ks| - 1], KeyTotal(es, ks[|ks| - 1]))]
  }

  /**
   * What the sales detail builders demand: order_ts always, and a sales
   * column whenever they group, that is for the channel table and for an
   * ad or influencer table whose column is present.
   */
  predicate SalesDetailReadable(items: Items, dim: SalesDim)
  {
    OrderTs in items.cols && ((dim == ChannelDim || Cat(CategoryOf(dim)) in items.cols) ==> SalesReadable(items))
  }

  /** The rows of one date: group by the (null-kept) key and sum the sales. */
  function DateGroups(items: Items, c: Category, which: Which, d: int): seq<SalesDetailRow>
  {
    var es := SalesEntries(items, c, d);
    GroupRows(which, d, es, Members(es))
  }

  /**
   * The rows of one date: the groups of the (null-kept) key with their
   * sales; when the ad or influencer column is absent, one null row with
   * 0 sales. Without the channel column every row groups under null.
   */
  function DatePart(items: Items, dim: SalesDim, which: Which, d: int): seq<SalesDetailRow>
    requires SalesDetailReadable(items, dim)
  {
    var c := CategoryOf(dim);
    if dim != ChannelDim && Cat(c) !in items.cols then [SalesDetailRow(which, d, Null, 0.0)]
    else DateGroups(items, c, which, d)
  }

  /** build_sales_detail_channel / _ad / _influencer: the rows of today, then those of the comparison date. */
  function SalesDetail(items: Items, dim: SalesDim, today: int, compare: int): seq<SalesDetailRow>
    requires SalesDetailReadable(items, dim)
  {
    DatePart(items, dim, Today, today) + DatePart(items, dim, Compare, compare)
  }

  /** The loop over (today, comparison date) that concatenates the per-date tables. */
  method BuildSalesDetail(items: Items, dim: SalesDim, today: int, compare: int) returns (rows: seq<SalesDetailRow>)
    requires SalesDetailReadable(items, dim)
    ensures rows == SalesDetail(items, dim, today, compare)
  {
    var c := CategoryOf(dim);
    var dates := [(Today, today), (Compare, compare)];
    rows := [];
    for k := 0 to 2
      invariant rows == if k == 0 then [] else if k == 1 then DatePart(items, dim, Today, today)
                        else SalesDetail(items, dim, today, compare)
    {
      var (which, d) := dates[k];
      var part;
      if dim != ChannelDim && Cat(c) !in items.cols {
        part := [SalesDetailRow(which, d, Null, 0.0)];
      } else {
        part := DateGroups(items, c, which, d);
      }
      rows := rows + part;
    }
  }

  /**
   * The detail table adds up to the sales of the two dates, except for an
   * absent ad or influencer column, where it holds only zeros.
   */
  lemma SalesDetailTotal(items: Items, dim: SalesDim, today: int, compare: int)
    requires SalesDetailReadable(items, dim)
    ensures SalesSum(SalesDetail(items, dim, today, compare))
            == if dim != ChannelDim && Cat(CategoryOf(dim)) !in items.cols then 0.0
               else SalesOn(items, today) + SalesOn(items, compare)
  {
    var c := CategoryOf(dim);
    SalesSumAppend(DatePart(items, dim, Today, today), DatePart(items, dim, Compare, compare));
    if dim == ChannelDim || Cat(c) in items.cols {
      DateGroupsSum(items, c, Today, today);
      DateGroupsSum(items, c, Compare, compare);
    } else {
      assert SalesSum([SalesDetailRow(Today, today, Null, 0.0)]) == 0.0;
      assert SalesSum([SalesDetailRow(Compare, compare, Null, 0.0)]) == 0.0;
    }
  }

  lemma {:induction false} SalesSumAppend(a: seq<SalesDetailRow>, b: seq<SalesDetailRow>)
    ensures SalesSum(a + b) == SalesSum(a) + SalesSum(b)
  {
    if b != [] {
      SalesSumAppend(a, b[..|b| - 1]);
      assert (a + b)[..|a + b| - 1] == a + b[..|b| - 1];
    } else {
      assert a + b == a;
    }
  }

  function SalesSum(rows: seq<SalesDetailRow>): real
  {
    if rows == [] then 0.0 else SalesSum(rows[..|rows| - 1]) + rows[|rows| - 1].sales
  }

  lemma {:induction false} GroupRowsSum(which: Which, d: int, es: seq<Entry<Cell>>, ks: seq<Cell>)
    ensures SalesSum(GroupRows(which, d, es, ks)) == SumOfGroups(es, ks)
  {
    if ks != [] {
      var rows := GroupRows(which, d, es, ks);
      assert rows[..|rows| - 1] == GroupRows(which, d, es, ks[..|ks| - 1]);
      GroupRowsSum(which, d, es, ks[..|ks| - 1]);
    }
  }

  /** The groups of one date add up to the date's total sales. */
  lemma DateGroupsSum(items: Items, c: Category, which: Which, d: int)
    ensures SalesSum(DateGroups(items, c, which, d)) == SalesOn(items, d)
  {
    var es := SalesEntries(items, c, d);
    GroupRowsSum(which, d, es, Members(es));
    MembersPartitionTotal(es);
    TotalProject(RowsOn(items.rows, ItemDay, d), r => DetailKey(items, c, r), r => SalesOf(items, r));
  }

  /**
   * Each group key of a date occurs once, and it is null or a kept
   * (non-blank, non-"NONE") value.
   */
  lemma DateGroupsKeys(items: Items, c: Category, which: Which, d: int)
    ensures NoDup(MapMembers(DateGroups(items, c, which, d)))
    ensures forall i :: 0 <= i < |DateGroups(items, c, which, d)| ==>
      var m := DateGroups(items, c, which, d)[i].member;
      m.Null? || NormCell(m) == m
  {
    var rs := RowsOn(items.rows, ItemDay, d);
    var es := SalesEntries(items, c, d);
    var rows := DateGroups(items, c, which, d);
    assert MapMembers(rows) == Members(es);
    forall i | 0 <= i < |rows| ensures rows[i].member.Null? || NormCell(rows[i].member) == rows[i].member {
      var m := rows[i].member;
      assert m in KeysOf(es);
      var j :| 0 <= j < |es| && KeysOf(es)[j] == m;
      assert m == DetailKey(items, c, rs[j]);
      NormCellIdempotent(CellOf(rs[j], c));
    }
  }

  function MapMembers(rows: seq<SalesDetailRow>): (ms: seq<Cell>)
    ensures |ms| == |rows| && forall i :: 0 <= i < |rows| ==> ms[i] == rows[i].member
  {
    seq(|rows|, i requires 0 <= i < |rows| => rows[i].member)
  }

  /** Grouping on the precomputed key is grouping on the normalised column. */
  lemma DetailKeyIsNormalised(items: Items, c: Category, i: nat)
    requires i < |items.rows|
    ensures DetailKey(items, c, items.rows[i]) == CellOf(NormFillNull(items, c, Cat(c) in items.cols).rows[i], c)
  {
  }
}
