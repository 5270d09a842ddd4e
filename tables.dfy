/**
 * The in-memory tables the attribution engine reads, as typed records.
 * A table carries the set of columns it actually has, so that "the column
 * may be absent" is an explicit fact; a row field is meaningful only when
 * its column is present. Timestamps are already reduced to day numbers.
 * Group-by over a key is modelled by keyed entries and `GroupSum`.
 */
module Tables {
  import opened Seqs

  /** A categorical value after str(); `Null` is NaN, None or pd.NA. */
  datatype Cell = Null | Text(s: string)

  // ---------------------------------------------------------------
  // order_items
  // ---------------------------------------------------------------

  datatype Category = Channel | AdId | InfluencerId | CouponId | CouponCode | ProductId

  datatype ItemCol = OrderTs | GrossAmount | NetSalesAmount | DiscountAmount | Cat(c: Category)

  datatype ItemRow = ItemRow(
    day: int, gross: real, netSales: real, discount: real,
    channel: Cell, adId: Cell, influencerId: Cell, couponId: Cell, couponCode: Cell, productId: Cell)

  datatype Items = Items(cols: set<ItemCol>, rows: seq<ItemRow>)

  function CellOf(r: ItemRow, c: Category): Cell
  {
    match c
    case Channel => r.channel
    case AdId => r.adId
    case InfluencerId => r.influencerId
    case CouponId => r.couponId
    case CouponCode => r.couponCode
    case ProductId => r.productId
  }

  /** The sales column: gross_amount when present, otherwise net_sales_amount. */
  predicate UsesGross(items: Items)
  {
    GrossAmount in items.cols
  }

  /** The sales column exists and order_ts can be parsed: what every sales builder indexes. */
  predicate SalesReadable(items: Items)
  {
    OrderTs in items.cols && (GrossAmount in items.cols || NetSalesAmount in items.cols)
  }

  function SalesOf(items: Items, r: ItemRow): real
  {
    if UsesGross(items) then r.gross else r.netSales
  }

  // ---------------------------------------------------------------
  // adjustments, cost tables, orders, products
  // ---------------------------------------------------------------

  datatype AdjCol = EventTs | Amount | AdjProductId | ReasonCode

  datatype AdjRow = AdjRow(day: int, amount: real, productId: Cell, reasonCode: Cell)

  datatype Adjustments = Adjustments(cols: set<AdjCol>, rows: seq<AdjRow>)

  datatype CostCol = CostDate | CostEventTs | CostAmount | CostValue

  /** A row of an ad or influencer cost table: its `date` column, the day of its `event_ts`, `amount`, `cost`. */
  datatype CostRow = CostRow(date: int, eventDay: int, amount: real, cost: real)

  /**
   * An ad or influencer cost table. `dateParsed` says whether its `date`
   * column holds date values; a table read from CSV holds the dates as
   * text, which equal no date until they are parsed.
   */
  datatype CostTable = CostTable(cols: set<CostCol>, rows: seq<CostRow>, dateParsed: bool)

  datatype OrderCol = OrderTimestamp | OrderId

  datatype OrderRow = OrderRow(day: int, orderId: Cell)

  datatype Orders = Orders(cols: set<OrderCol>, rows: seq<OrderRow>)

  datatype ProductCol = CatalogProductId | ProductName | SellerId

  datatype ProductRow = ProductRow(productId: Cell, name: Cell, sellerId: Cell)

  datatype Products = Products(cols: set<ProductCol>, rows: seq<ProductRow>)

  // ---------------------------------------------------------------
  // Row selection, summation and group-by
  // ---------------------------------------------------------------

  /** The rows that satisfy `keep`, in order (a boolean mask). */
  function Filter<R>(rows: seq<R>, keep: R -> bool): (r: seq<R>)
    ensures |r| <= |rows|
    ensures forall i :: 0 <= i < |r| ==> keep(r[i]) && r[i] in rows
    ensures forall i :: 0 <= i < |rows| && keep(rows[i]) ==> rows[i] in r
  {
    if rows == [] then []
    else
      var p := Filter(rows[..|rows| - 1], keep);
      assert forall i :: 0 <= i < |p| ==> p[i] in rows by {
        forall i | 0 <= i < |p| ensures p[i] in rows {
          var k :| 0 <= k < |rows| - 1 && rows[..|rows| - 1][k] == p[i];
          assert rows[k] == p[i];
        }
      }
      if keep(rows[|rows| - 1]) then p + [rows[|rows| - 1]] else p
  }

  /** The rows of day `d`, in order. */
  function RowsOn<R>(rows: seq<R>, day: R -> int, d: int): (r: seq<R>)
    ensures |r| <= |rows|
    ensures forall i :: 0 <= i < |r| ==> day(r[i]) == d
  {
    if rows == [] then []
    else
      var x := rows[|rows| - 1];
      RowsOn(rows[..|rows| - 1], day, d) + (if day(x) == d then [x] else [])
  }

  /** Filtering a prefix one row longer adds that row when it is of day `d`. */
  lemma RowsOnPrefix<R>(rows: seq<R>, day: R -> int, d: int, n: nat)
    requires 0 < n <= |rows|
    ensures RowsOn(rows[..n], day, d)
            == RowsOn(rows[..n - 1], day, d) + (if day(rows[n - 1]) == d then [rows[n - 1]] else [])
  {
    assert rows[..n][..n - 1] == rows[..n - 1];
  }

  /** Field accessors, as function values for the row operations above. */
  function ItemDay(r: ItemRow): int { r.day }
  function AdjDay(r: AdjRow): int { r.day }
  function OrderDay(r: OrderRow): int { r.day }
  function ItemGross(r: ItemRow): real { r.gross }
  function ItemDiscount(r: ItemRow): real { r.discount }
  function AdjAmount(r: AdjRow): real { r.amount }

  /** Sum of `amt` over the rows (pandas sum: 0 over no rows). */
  function SumOf<R>(rows: seq<R>, amt: R -> real): real
  {
    if rows == [] then 0.0 else SumOf(rows[..|rows| - 1], amt) + amt(rows[|rows| - 1])
  }

  /** Appending a row adds its amount to the sum. */
  lemma SumOfSnoc<R>(rows: seq<R>, amt: R -> real, x: R)
    ensures SumOf(rows + [x], amt) == SumOf(rows, amt) + amt(x)
  {
    assert (rows + [x])[..|rows|] == rows;
  }

  /** One (key, amount) pair per row: the input of a group-by-sum. */
  datatype Entry<K> = Entry(key: K, amount: real)

  function Project<R, K>(rows: seq<R>, key: R -> K, amt: R -> real): (es: seq<Entry<K>>)
    ensures |es| == |rows|
    ensures forall i :: 0 <= i < |rows| ==> es[i] == Entry(key(rows[i]), amt(rows[i]))
  {
    if rows == [] then []
    else Project(rows[..|rows| - 1], key, amt) + [Entry(key(rows[|rows| - 1]), amt(rows[|rows| - 1]))]
  }

  function Total<K>(es: seq<Entry<K>>): real
  {
    if es == [] then 0.0 else Total(es[..|es| - 1]) + es[|es| - 1].amount
  }

  /** Appending an entry adds its amount to the total. */
  lemma TotalSnoc<K>(es: seq<Entry<K>>, e: Entry<K>)
    ensures Total(es + [e]) == Total(es) + e.amount
  {
    assert (es + [e])[..|es|] == es;
  }

  /** The group sum of key `k`; 0 when `k` does not occur (reindex with fill_value=0). */
  function KeyTotal<K(==)>(es: seq<Entry<K>>, k: K): real
  {
    if es == [] then 0.0
    else KeyTotal(es[..|es| - 1], k) + (if es[|es| - 1].key == k then es[|es| - 1].amount else 0.0)
  }

  function KeysOf<K>(es: seq<Entry<K>>): (ks: seq<K>)
    ensures |ks| == |es|
    ensures forall i :: 0 <= i < |es| ==> ks[i] == es[i].key
  {
    if es == [] then [] else KeysOf(es[..|es| - 1]) + [es[|es| - 1].key]
  }

  /** The group keys, each once, in order of first appearance. */
  function Members<K(==)>(es: seq<Entry<K>>): seq<K>
  {
    Distinct(KeysOf(es))
  }

  /** groupby(key)[amount].sum() as a map from group key to group sum. */
  function GroupSum<K(==)>(es: seq<Entry<K>>): (m: map<K, real>)
    ensures m.Keys == set i | 0 <= i < |es| :: es[i].key
    ensures forall i :: 0 <= i < |es| ==> m[es[i].key] == KeyTotal(es, es[i].key)
  {
    map i | 0 <= i < |es| :: es[i].key := KeyTotal(es, es[i].key)
  }

  /** A map lookup with fill value 0. */
  function Get0<K>(m: map<K, real>, k: K): real
  {
    if k in m then m[k] else 0.0
  }

  lemma {:induction false} TotalProject<R, K>(rows: seq<R>, key: R -> K, amt: R -> real)
    ensures Total(Project(rows, key, amt)) == SumOf(rows, amt)
  {
    if rows != [] {
      var es := Project(rows, key, amt);
      assert es[..|es| - 1] == Project(rows[..|rows| - 1], key, amt);
      TotalProject(rows[..|rows| - 1], key, amt);
    }
  }

  lemma {:induction false} KeyTotalAbsent<K>(es: seq<Entry<K>>, k: K)
    requires k !in KeysOf(es)
    ensures KeyTotal(es, k) == 0.0
  {
    if es != [] {
      assert KeysOf(es[..|es| - 1]) == KeysOf(es)[..|es| - 1];
      KeyTotalAbsent(es[..|es| - 1], k);
    }
  }

  /** Sum of the group sums of the keys in `ks`. */
  function SumOfGroups<K(==)>(es: seq<Entry<K>>, ks: seq<K>): real
  {
    if ks == [] then 0.0 else SumOfGroups(es, ks[..|ks| - 1]) + KeyTotal(es, ks[|ks| - 1])
  }

  function Indicator<K(==)>(ks: seq<K>, x: K, a: real): real
  {
    if ks == [] then 0.0
    else Indicator(ks[..|ks| - 1], x, a) + (if ks[|ks| - 1] == x then a else 0.0)
  }

  lemma {:induction false} IndicatorDistinct<K>(ks: seq<K>, x: K, a: real)
    requires NoDup(ks)
    ensures Indicator(ks, x, a) == if x in ks then a else 0.0
  {
    if ks != [] {
      var p := ks[..|ks| - 1];
      assert NoDup(p);
      IndicatorDistinct(p, x, a);
      if ks[|ks| - 1] != x {
        assert x in ks <==> x in p by {
          assert ks == p + [ks[|ks| - 1]];
        }
      }
    }
  }

  lemma {:induction false} SumOfGroupsSnoc<K>(es: seq<Entry<K>>, e: Entry<K>, ks: seq<K>)
    ensures SumOfGroups(es + [e], ks) == SumOfGroups(es, ks) + Indicator(ks, e.key, e.amount)
  {
    if ks != [] {
      SumOfGroupsSnoc(es, e, ks[..|ks| - 1]);
      assert (es + [e])[..|es|] == es;
    }
  }

  /**
   * Group-by partitions the entries: over a duplicate-free list of keys
   * that covers every entry, the group sums add up to the grand total.
   */
  lemma {:induction false} GroupsPartitionTotal<K>(es: seq<Entry<K>>, ks: seq<K>)
    requires NoDup(ks)
    requires forall i :: 0 <= i < |es| ==> es[i].key in ks
    ensures SumOfGroups(es, ks) == Total(es)
  {
    if es == [] {
      SumOfGroupsEmpty(es, ks);
    } else {
      var p, e := es[..|es| - 1], es[|es| - 1];
      GroupsPartitionTotal(p, ks);
      assert es == p + [e];
      SumOfGroupsSnoc(p, e, ks);
      IndicatorDistinct(ks, e.key, e.amount);
    }
  }

  lemma {:induction false} SumOfGroupsEmpty<K>(es: seq<Entry<K>>, ks: seq<K>)
    requires es == []
    ensures SumOfGroups(es, ks) == 0.0
  {
    if ks != [] { SumOfGroupsEmpty(es, ks[..|ks| - 1]); }
  }

  /** The group sums over the members of the entries add up to their total. */
  lemma MembersPartitionTotal<K>(es: seq<Entry<K>>)
    ensures SumOfGroups(es, Members(es)) == Total(es)
  {
    var ks := KeysOf(es);
    forall i | 0 <= i < |es| ensures es[i].key in Members(es) {
      assert ks[i] == es[i].key;
    }
    GroupsPartitionTotal(es, Members(es));
  }
}
