/** Product Performance (pages/7_Product_Performance.py): gross, refund and
    net revenue in total and per day, revenue per product, the refund rate
    per product, and the cross-sell pairs of products bought in one order
    with the most frequent pair. */
module ProductPerformance {
  import opened Wrappers
  import opened Seqs
  import opened Tables
  import opened Agg
  import opened Groups
  import opened Formatters

  // ---------------------------------------------------------------------
  // Revenue totals and the daily gross/net trend

  /** `gross_rev_total`: 0 without orders, never negative when no price is. */
  function GrossTotal(orders: seq<Order>): (r: real)
    ensures orders == [] ==> r == 0.0
    ensures (forall o :: o in orders ==> o.price >= 0.0) ==> r >= 0.0
  {
    assert (forall o :: o in orders ==> o.price >= 0.0) ==> Sum(orders, OrderPrice) >= 0.0 by {
      if forall o :: o in orders ==> o.price >= 0.0 {
        SumNonNegative(orders, OrderPrice);
      }
    }
    Sum(orders, OrderPrice)
  }

  /** `refunds_total`: 0 without refunds, never negative when no amount is. */
  function RefundsTotal(refunds: seq<Refund>): (r: real)
    ensures refunds == [] ==> r == 0.0
    ensures (forall x :: x in refunds ==> x.amount >= 0.0) ==> r >= 0.0
  {
    assert (forall x :: x in refunds ==> x.amount >= 0.0) ==> Sum(refunds, RefundAmount) >= 0.0 by {
      if forall x :: x in refunds ==> x.amount >= 0.0 {
        SumNonNegative(refunds, RefundAmount);
      }
    }
    Sum(refunds, RefundAmount)
  }

  /** `net_rev_total`: refunds only ever lower the gross. */
  function NetTotal(orders: seq<Order>, refunds: seq<Refund>): (r: real)
    ensures (forall x :: x in refunds ==> x.amount >= 0.0) ==> r <= GrossTotal(orders)
    ensures refunds == [] ==> r == GrossTotal(orders)
  {
    GrossTotal(orders) - RefundsTotal(refunds)
  }

  /** `order_date`: the day of the timestamp, missing for NaT. */
  function OrderDay(o: Order): Option<int>
  {
    if o.createdAt.Some? then Some(o.createdAt.value.Day()) else None
  }

  /** `refund_date`. */
  function RefundDay(x: Refund): Option<int>
  {
    if x.createdAt.Some? then Some(x.createdAt.value.Day()) else None
  }

  predicate Increasing(s: seq<int>)
  {
    forall i, j :: 0 <= i < j < |s| ==> s[i] < s[j]
  }

  function InsertDay(x: int, s: seq<int>): (r: seq<int>)
    requires Increasing(s)
    ensures Increasing(r)
    ensures forall y :: y in r <==> y == x || y in s
  {
    if s == [] then [x]
    else if x == s[0] then s
    else if x < s[0] then [x] + s
    else
      var r := InsertDay(x, s[1..]);
      assert forall y :: y in s <==> y == s[0] || y in s[1..];
      forall j | 0 <= j < |r|
        ensures s[0] < r[j]
      {
        assert r[j] in r;
        if r[j] != x {
          var k :| 0 <= k < |s[1..]| && s[1..][k] == r[j];
          assert s[k + 1] == r[j];
        }
      }
      [s[0]] + r
  }

  /** The distinct days of the dated orders, ascending: the rows of
      `gross_by_date` after `sort_values("order_date")`. */
  function OrderDays(orders: seq<Order>): (r: seq<int>)
    ensures Increasing(r)
    ensures forall d :: d in r <==> exists o :: o in orders && OrderDay(o) == Some(d)
  {
    if orders == [] then []
    else
      var rest := OrderDays(orders[1..]);
      assert forall o :: o in orders <==> o == orders[0] || o in orders[1..];
      if OrderDay(orders[0]).Some? then InsertDay(OrderDay(orders[0]).value, rest) else rest
  }

  datatype DailyRow = DailyRow(day: int, gross: real, refunds: real, net: real)

  /** The row of one order day: the refunds of the day, 0 without any. */
  function DailyRowOf(orders: seq<Order>, refunds: seq<Refund>, d: int): (r: DailyRow)
    ensures r.day == d
    ensures r.gross == SumKey(orders, OrderDay, Some(d), OrderPrice)
    ensures r.refunds == SumKey(refunds, RefundDay, Some(d), RefundAmount)
    ensures r.net == r.gross - r.refunds
  {
    var gross := SumKey(orders, OrderDay, Some(d), OrderPrice);
    var back := SumKey(refunds, RefundDay, Some(d), RefundAmount);
    DailyRow(d, gross, back, gross - back)
  }

  function DailyRows(orders: seq<Order>, refunds: seq<Refund>, days: seq<int>): (r: seq<DailyRow>)
    ensures |r| == |days|
    ensures forall i :: 0 <= i < |r| ==> r[i] == DailyRowOf(orders, refunds, days[i])
  {
    if days == [] then [] else [DailyRowOf(orders, refunds, days[0])] + DailyRows(orders, refunds, days[1..])
  }

  /** `rev_merged`: the order days in order, each with its gross, its
      refunds and their difference. */
  function DailyNet(orders: seq<Order>, refunds: seq<Refund>): (r: seq<DailyRow>)
    ensures forall i, j :: 0 <= i < j < |r| ==> r[i].day < r[j].day
    ensures forall d :: (exists i :: 0 <= i < |r| && r[i].day == d) <==> exists o :: o in orders && OrderDay(o) == Some(d)
    ensures forall i :: 0 <= i < |r| ==> r[i].net == r[i].gross - r[i].refunds
    ensures forall i :: 0 <= i < |r| ==> r[i] == DailyRowOf(orders, refunds, r[i].day)
  {
    var days := OrderDays(orders);
    var r := DailyRows(orders, refunds, days);
    forall d | exists o :: o in orders && OrderDay(o) == Some(d)
      ensures exists i :: 0 <= i < |r| && r[i].day == d
    {
      var i :| 0 <= i < |days| && days[i] == d;
      assert r[i].day == d;
    }
    r
  }

  /** A day with refunds but no order has no row: the left merge starts from
      the order days. */
  lemma RefundOnlyDayDropped(orders: seq<Order>, refunds: seq<Refund>, d: int)
    requires forall o :: o in orders ==> OrderDay(o) != Some(d)
    ensures forall row :: row in DailyNet(orders, refunds) ==> row.day != d
  {
    var r := DailyNet(orders, refunds);
    forall row | row in r
      ensures row.day != d
    {
      var i :| 0 <= i < |r| && r[i] == row;
    }
  }

  /** A day without refunds nets its whole gross. */
  lemma DayWithoutRefunds(orders: seq<Order>, refunds: seq<Refund>, d: int)
    requires forall x :: x in refunds ==> RefundDay(x) != Some(d)
    ensures DailyRowOf(orders, refunds, d).refunds == 0.0
    ensures DailyRowOf(orders, refunds, d).net == DailyRowOf(orders, refunds, d).gross
  {
    KeyAbsent(refunds, RefundDay, Some(d), RefundAmount);
  }

  function SumNet(rows: seq<DailyRow>): real
  {
    if rows == [] then 0.0 else rows[0].net + SumNet(rows[1..])
  }

  lemma {:induction false} RowsSum(orders: seq<Order>, refunds: seq<Refund>, days: seq<int>)
    ensures SumNet(DailyRows(orders, refunds, days))
         == SumOverKeys(orders, OrderDay, SomeKeys(days), OrderPrice)
          - SumOverKeys(refunds, RefundDay, SomeKeys(days), RefundAmount)
  {
    if days != [] {
      RowsSum(orders, refunds, days[1..]);
      assert SomeKeys(days)[1..] == SomeKeys(days[1..]);
      assert DailyRows(orders, refunds, days)[1..] == DailyRows(orders, refunds, days[1..]);
    }
  }

  /** When every order and refund is dated and every refund falls on an
      order day, the daily net values add up to the net total. */
  lemma DailyNetAddsUp(orders: seq<Order>, refunds: seq<Refund>)
    requires forall o :: o in orders ==> o.createdAt.Some?
    requires forall x :: x in refunds ==> x.createdAt.Some?
    requires forall x :: x in refunds ==> exists o :: o in orders && OrderDay(o) == RefundDay(x)
    ensures SumNet(DailyNet(orders, refunds)) == NetTotal(orders, refunds)
  {
    var days := OrderDays(orders);
    RowsSum(orders, refunds, days);
    assert Distinct(days);
    GroupsAddUp(orders, OrderDay, days, OrderPrice);
    KeyAbsent(orders, OrderDay, None, OrderPrice);
    forall x | x in refunds && RefundDay(x).Some?
      ensures RefundDay(x).value in days
    {
      var o :| o in orders && OrderDay(o) == RefundDay(x);
    }
    GroupsAddUp(refunds, RefundDay, days, RefundAmount);
    KeyAbsent(refunds, RefundDay, None, RefundAmount);
  }

  // ---------------------------------------------------------------------
  // Revenue per product

  function ItemName(x: ItemRow): Option<string> { x.productName }

  function ItemPrice(x: ItemRow): real { x.item.price }

  /** `prod_rev`: the revenue of one product name. */
  function ProductRevenue(items: seq<ItemRow>, name: string): (r: real)
    ensures (forall x :: x in items ==> x.productName != Some(name)) ==> r == 0.0
    ensures (forall x :: x in items ==> x.item.price >= 0.0) ==> r >= 0.0
  {
    assert (forall x :: x in items ==> x.productName != Some(name)) ==> SumKey(items, ItemName, Some(name), ItemPrice) == 0.0 by {
      if forall x :: x in items ==> x.productName != Some(name) {
        KeyAbsent(items, ItemName, Some(name), ItemPrice);
      }
    }
    assert (forall x :: x in items ==> x.item.price >= 0.0) ==> SumKey(items, ItemName, Some(name), ItemPrice) >= 0.0 by {
      if forall x :: x in items ==> x.item.price >= 0.0 {
        SumKeyNonNegative(items, ItemName, Some(name), ItemPrice);
      }
    }
    SumKey(items, ItemName, Some(name), ItemPrice)
  }

  /** The product bars add up to the revenue of the items with a product
      name; an item without one is in no bar. */
  lemma ProductRevenueAddsUp(items: seq<ItemRow>)
    ensures SumOverKeys(items, ItemName, SomeKeys(KeysOf(items, ItemName)), ItemPrice)
         == Sum(items, ItemPrice) - SumKey(items, ItemName, None, ItemPrice)
  {
    GroupsAddUp(items, ItemName, KeysOf(items, ItemName), ItemPrice);
  }

  // ---------------------------------------------------------------------
  // Refund rate per product

  function RefundOrder(x: Refund): Id { x.orderId }

  function RefundItem(x: Refund): Id { x.orderItemId }

  /** `ref_by_order` after the left merge and `fillna(0)`: the refunds of
      the item's whole order. */
  function OrderRefund(refunds: seq<Refund>, orderId: Id): (r: real)
    ensures (forall y :: y in refunds ==> y.orderId != orderId) ==> r == 0.0
    ensures (forall y :: y in refunds ==> y.amount >= 0.0) ==> r >= 0.0
  {
    assert (forall y :: y in refunds ==> y.orderId != orderId) ==> SumKey(refunds, RefundOrder, orderId, RefundAmount) == 0.0 by {
      if forall y :: y in refunds ==> y.orderId != orderId {
        KeyAbsent(refunds, RefundOrder, orderId, RefundAmount);
      }
    }
    assert (forall y :: y in refunds ==> y.amount >= 0.0) ==> SumKey(refunds, RefundOrder, orderId, RefundAmount) >= 0.0 by {
      if forall y :: y in refunds ==> y.amount >= 0.0 {
        SumKeyNonNegative(refunds, RefundOrder, orderId, RefundAmount);
      }
    }
    SumKey(refunds, RefundOrder, orderId, RefundAmount)
  }

  /** The item rows after the merge: each carries its order's refunds. */
  function ByOrder(refunds: seq<Refund>): (f: ItemRow -> real)
    ensures forall x :: f(x) == OrderRefund(refunds, x.item.orderId)
  {
    (x: ItemRow) => OrderRefund(refunds, x.item.orderId)
  }

  /** The refunds column of `ref_rate` as written: every item row of an
      order carries the refunds of the whole order, so a product is charged
      nothing only when no order of its items has a refund. */
  function ProductRefundsAsWritten(items: seq<ItemRow>, refunds: seq<Refund>, name: string): (r: real)
    ensures (forall x, y :: x in items && x.productName == Some(name) && y in refunds ==> y.orderId != x.item.orderId) ==> r == 0.0
    ensures (forall y :: y in refunds ==> y.amount >= 0.0) ==> r >= 0.0
  {
    assert (forall x, y :: x in items && x.productName == Some(name) && y in refunds ==> y.orderId != x.item.orderId)
        ==> SumKey(items, ItemName, Some(name), ByOrder(refunds)) == 0.0 by {
      if forall x, y :: x in items && x.productName == Some(name) && y in refunds ==> y.orderId != x.item.orderId {
        ZeroOnGroup(items, ItemName, Some(name), ByOrder(refunds));
      }
    }
    assert (forall y :: y in refunds ==> y.amount >= 0.0) ==> SumKey(items, ItemName, Some(name), ByOrder(refunds)) >= 0.0 by {
      if forall y :: y in refunds ==> y.amount >= 0.0 {
        SumKeyNonNegative(items, ItemName, Some(name), ByOrder(refunds));
      }
    }
    SumKey(items, ItemName, Some(name), ByOrder(refunds))
  }

  /** A product no refund touches is still charged the refunds of the other
      items of its orders: a $10 refund of the panda in an order with a bear
      gives the bear $10 of refunds. */
  lemma RefundChargedToOtherProduct()
    ensures var items := [ItemRow(OrderItem("i1", "o1", "p1", None, 10.0), Some("panda")),
                          ItemRow(OrderItem("i2", "o1", "p2", None, 20.0), Some("bear"))];
            var refunds := [Refund("r1", "i1", "o1", None, 10.0)];
      ProductRefundsAsWritten(items, refunds, "bear") == 10.0
      && ProductRefundsIntended(items, refunds, "bear") == 0.0
  {
    var panda := ItemRow(OrderItem("i1", "o1", "p1", None, 10.0), Some("panda"));
    var bear := ItemRow(OrderItem("i2", "o1", "p2", None, 20.0), Some("bear"));
    var refunds := [Refund("r1", "i1", "o1", None, 10.0)];
    assert [panda, bear][1..] == [bear];
    assert OrderRefund(refunds, "o1") == 10.0;
    assert ItemRefund(refunds, "i2") == 0.0;
  }

  /** The refunds of the item row itself. */
  function ItemRefund(refunds: seq<Refund>, itemId: Id): (r: real)
    ensures (forall y :: y in refunds ==> y.amount >= 0.0) ==> r >= 0.0
  {
    assert (forall y :: y in refunds ==> y.amount >= 0.0) ==> SumKey(refunds, RefundItem, itemId, RefundAmount) >= 0.0 by {
      if forall y :: y in refunds ==> y.amount >= 0.0 {
        SumKeyNonNegative(refunds, RefundItem, itemId, RefundAmount);
      }
    }
    SumKey(refunds, RefundItem, itemId, RefundAmount)
  }

  function ByItem(refunds: seq<Refund>): ItemRow -> real
  {
    (x: ItemRow) => ItemRefund(refunds, x.item.id)
  }

  /** The refunds of a product as the chart means them: the refunds of its
      own order items. */
  function ProductRefundsIntended(items: seq<ItemRow>, refunds: seq<Refund>, name: string): (r: real)
    ensures (forall y :: y in refunds ==> y.amount >= 0.0) ==> r >= 0.0
  {
    assert (forall y :: y in refunds ==> y.amount >= 0.0) ==> SumKey(items, ItemName, Some(name), ByItem(refunds)) >= 0.0 by {
      if forall y :: y in refunds ==> y.amount >= 0.0 {
        SumKeyNonNegative(items, ItemName, Some(name), ByItem(refunds));
      }
    }
    SumKey(items, ItemName, Some(name), ByItem(refunds))
  }

  /** A product none of whose items was refunded has no refunds. */
  lemma UnrefundedProduct(items: seq<ItemRow>, refunds: seq<Refund>, name: string)
    requires forall x, y :: x in items && x.productName == Some(name) && y in refunds ==> y.orderItemId != x.item.id
    ensures ProductRefundsIntended(items, refunds, name) == 0.0
  {
    forall x | x in items && ItemName(x) == Some(name)
      ensures ByItem(refunds)(x) == 0.0
    {
      KeyAbsent(refunds, RefundItem, x.item.id, RefundAmount);
    }
    ZeroOnGroup(items, ItemName, Some(name), ByItem(refunds));
  }

  lemma {:induction false} ZeroOnGroup<T, K>(rows: seq<T>, key: T -> K, k: K, f: T -> real)
    requires forall x :: x in rows && key(x) == k ==> f(x) == 0.0
    ensures SumKey(rows, key, k, f) == 0.0
  {
    if rows != [] {
      assert rows[0] in rows;
      assert forall x :: x in rows[1..] ==> x in rows;
      ZeroOnGroup(rows[1..], key, k, f);
    }
  }

  /** Over the products the intended refunds add up to the refunds of the
      named items. */
  lemma IntendedRefundsAddUp(items: seq<ItemRow>, refunds: seq<Refund>)
    ensures SumOverKeys(items, ItemName, SomeKeys(KeysOf(items, ItemName)), ByItem(refunds))
         == Sum(items, ByItem(refunds)) - SumKey(items, ItemName, None, ByItem(refunds))
  {
    GroupsAddUp(items, ItemName, KeysOf(items, ItemName), ByItem(refunds));
  }

  /** `refund_rate` after the replacement: a positive refund over no revenue
      is infinite and becomes 0; 0/0 stays NaN (None here), as does a
      negative refund over no revenue. */
  function RefundRate(refunds: real, revenue: real): (r: Option<real>)
    ensures revenue != 0.0 ==> r.Some? && r.value * revenue == refunds
    ensures revenue == 0.0 ==> (r.Some? <==> refunds > 0.0) && (r.Some? ==> r.value == 0.0)
  {
    if revenue != 0.0 then Some(refunds / revenue)
    else if refunds > 0.0 then Some(0.0)
    else None
  }

  datatype RefundRow = RefundRow(name: string, revenue: real, refunds: real, rate: Option<real>)

  /** A `ref_rate` row of one product from its refunds column. */
  function RefundRowWith(items: seq<ItemRow>, name: string, back: real): (row: RefundRow)
    ensures row.name == name && row.revenue == ProductRevenue(items, name) && row.refunds == back
    ensures row.rate == RefundRate(back, row.revenue)
  {
    RefundRow(name, ProductRevenue(items, name), back, RefundRate(back, ProductRevenue(items, name)))
  }

  /** The `ref_rate` row of one product as the page computes it: its revenue,
      the refunds of every order one of its items is in, and their rate. */
  function RefundRowOf(items: seq<ItemRow>, refunds: seq<Refund>, name: string): (row: RefundRow)
    ensures row.name == name && row.revenue == ProductRevenue(items, name)
    ensures row.refunds == ProductRefundsAsWritten(items, refunds, name)
    ensures row.rate == RefundRate(row.refunds, row.revenue)
  {
    RefundRowWith(items, name, ProductRefundsAsWritten(items, refunds, name))
  }

  /** The row of one product as the chart means it: the refunds of its own
      items. */
  function RefundRowIntended(items: seq<ItemRow>, refunds: seq<Refund>, name: string): (row: RefundRow)
    ensures row.name == name && row.revenue == ProductRevenue(items, name)
    ensures row.refunds == ProductRefundsIntended(items, refunds, name)
    ensures row.rate == RefundRate(row.refunds, row.revenue)
  {
    RefundRowWith(items, name, ProductRefundsIntended(items, refunds, name))
  }

  /** One row per product name of the items, the refunds of each taken from
      `back`. */
  function RefundTableWith(items: seq<ItemRow>, back: string -> real): (r: seq<RefundRow>)
    ensures forall row :: row in r ==> exists x :: x in items && x.productName == Some(row.name)
    ensures forall x :: x in items && x.productName.Some? ==>
      RefundRowWith(items, x.productName.value, back(x.productName.value)) in r
    ensures forall row :: row in r ==> row == RefundRowWith(items, row.name, back(row.name))
  {
    var names := KeysOf(items, ItemName);
    var r := seq(|names|, i requires 0 <= i < |names| => RefundRowWith(items, names[i], back(names[i])));
    forall row | row in r
      ensures exists x :: x in items && x.productName == Some(row.name)
    {
      var i :| 0 <= i < |r| && r[i] == row;
      assert names[i] in names;
    }
    forall x | x in items && x.productName.Some?
      ensures RefundRowWith(items, x.productName.value, back(x.productName.value)) in r
    {
      var i :| 0 <= i < |names| && names[i] == x.productName.value;
      assert r[i] in r;
    }
    r
  }

  /** `ref_rate` as written: one row per product name, each charged the
      refunds of the orders its items are in. */
  function RefundTable(items: seq<ItemRow>, refunds: seq<Refund>): (r: seq<RefundRow>)
    ensures forall row :: row in r ==> exists x :: x in items && x.productName == Some(row.name)
    ensures forall x :: x in items && x.productName.Some? ==> RefundRowOf(items, refunds, x.productName.value) in r
    ensures forall row :: row in r ==> row == RefundRowOf(items, refunds, row.name)
  {
    RefundTableWith(items, (name: string) => ProductRefundsAsWritten(items, refunds, name))
  }

  /** `ref_rate` corrected: each product charged only its own items'
      refunds. */
  function RefundTableIntended(items: seq<ItemRow>, refunds: seq<Refund>): (r: seq<RefundRow>)
    ensures forall row :: row in r ==> exists x :: x in items && x.productName == Some(row.name)
    ensures forall x :: x in items && x.productName.Some? ==> RefundRowIntended(items, refunds, x.productName.value) in r
    ensures forall row :: row in r ==> row == RefundRowIntended(items, refunds, row.name)
  {
    RefundTableWith(items, (name: string) => ProductRefundsIntended(items, refunds, name))
  }

  /** A refund of an item is among the refunds of that item's order, when the
      refund names the item's order and no amount is negative. */
  lemma {:induction false} ItemWithinOrder(refunds: seq<Refund>, itemId: Id, orderId: Id)
    requires forall y :: y in refunds ==> y.amount >= 0.0
    requires forall y :: y in refunds && y.orderItemId == itemId ==> y.orderId == orderId
    ensures ItemRefund(refunds, itemId) <= OrderRefund(refunds, orderId)
  {
    if refunds != [] {
      assert refunds[0] in refunds;
      assert forall y :: y in refunds[1..] ==> y in refunds;
      ItemWithinOrder(refunds[1..], itemId, orderId);
    }
  }

  lemma {:induction false} SumKeyMonotone<T, K>(rows: seq<T>, key: T -> K, k: K, f: T -> real, g: T -> real)
    requires forall x :: x in rows && key(x) == k ==> f(x) <= g(x)
    ensures SumKey(rows, key, k, f) <= SumKey(rows, key, k, g)
  {
    if rows != [] {
      assert rows[0] in rows;
      assert forall x :: x in rows[1..] ==> x in rows;
      SumKeyMonotone(rows[1..], key, k, f, g);
    }
  }

  /** As written, every product is charged at least its own refunds (when
      each refund names the order of the item it refunds and no amount is
      negative); with the other items of its orders refunded it is charged
      more. */
  lemma AsWrittenCoversIntended(items: seq<ItemRow>, refunds: seq<Refund>, name: string)
    requires forall y :: y in refunds ==> y.amount >= 0.0
    requires forall x, y :: x in items && y in refunds && y.orderItemId == x.item.id ==> y.orderId == x.item.orderId
    ensures RefundRowIntended(items, refunds, name).refunds <= RefundRowOf(items, refunds, name).refunds
  {
    forall x | x in items && ItemName(x) == Some(name)
      ensures ByItem(refunds)(x) <= ByOrder(refunds)(x)
    {
      ItemWithinOrder(refunds, x.item.id, x.item.orderId);
    }
    SumKeyMonotone(items, ItemName, Some(name), ByItem(refunds), ByOrder(refunds));
  }

  // ---------------------------------------------------------------------
  // Cross-sell pairs

  function ItemOrderKey(x: ItemRow): Option<Id> { Some(x.item.orderId) }

  /** The named products of one order. */
  function NamesOf(items: seq<ItemRow>, orderId: Id): (r: seq<string>)
    ensures forall n :: n in r <==> exists x :: x in items && x.item.orderId == orderId && x.productName == Some(n)
  {
    if items == [] then []
    else
      var x := items[0];
      assert forall y :: y in items <==> y == x || y in items[1..];
      (if x.item.orderId == orderId && x.productName.Some? then [x.productName.value] else []) + NamesOf(items[1..], orderId)
  }

  /** `sorted(set(x))` of one order. */
  function Basket(items: seq<ItemRow>, orderId: Id): (r: seq<string>)
    ensures StrictlySorted(r)
    ensures forall n :: n in r <==> exists x :: x in items && x.item.orderId == orderId && x.productName == Some(n)
  {
    SortedDistinct(NamesOf(items, orderId))
  }

  /** `pairs`: the basket of every order, one per order id of the items. */
  function Baskets(items: seq<ItemRow>): (r: seq<seq<string>>)
    ensures |r| == |KeysOf(items, ItemOrderKey)|
    ensures forall i :: 0 <= i < |r| ==> r[i] == Basket(items, KeysOf(items, ItemOrderKey)[i])
    ensures forall b :: b in r ==> StrictlySorted(b)
  {
    var ids := KeysOf(items, ItemOrderKey);
    seq(|ids|, i requires 0 <= i < |ids| => Basket(items, ids[i]))
  }

  /** The pairs the inner loop emits for position `i`. */
  function RowPairs(prods: seq<string>, i: nat): (r: seq<(string, string)>)
    requires i < |prods|
    ensures |r| == |prods| - i - 1
    ensures forall k :: 0 <= k < |r| ==> r[k] == (prods[i], prods[i + 1 + k])
  {
    seq(|prods| - i - 1, k requires 0 <= k < |prods| - i - 1 => (prods[i], prods[i + 1 + k]))
  }

  /** The pairs of the first `i` positions, in loop order. */
  function PairsUpTo(prods: seq<string>, i: nat): seq<(string, string)>
    requires i <= |prods|
  {
    if i == 0 then [] else PairsUpTo(prods, i - 1) + RowPairs(prods, i - 1)
  }

  /** The pairs of the first `i` positions are the pairs of a position
      below `i` with a later one. */
  lemma {:induction false} PairsUpToMembers(prods: seq<string>, i: nat)
    requires i <= |prods|
    ensures forall p :: p in PairsUpTo(prods, i) <==> exists a, b :: 0 <= a < i && a < b < |prods| && p == (prods[a], prods[b])
  {
    if i > 0 {
      PairsUpToMembers(prods, i - 1);
      var r := PairsUpTo(prods, i);
      var row := RowPairs(prods, i - 1);
      assert r == PairsUpTo(prods, i - 1) + row;
      forall p | exists a, b :: 0 <= a < i && a < b < |prods| && p == (prods[a], prods[b])
        ensures p in r
      {
        var a, b :| 0 <= a < i && a < b < |prods| && p == (prods[a], prods[b]);
        if a == i - 1 {
          assert row[b - i] == p;
          assert p in row;
        } else {
          assert p in PairsUpTo(prods, i - 1);
        }
      }
    }
  }

  /** The pairs of one order: none unless it has more than one product. */
  function PairsOf(prods: seq<string>): seq<(string, string)>
  {
    if |prods| > 1 then PairsUpTo(prods, |prods|) else []
  }

  /** `pair_list`: the pairs of the baskets in order. */
  function AllPairs(baskets: seq<seq<string>>): seq<(string, string)>
  {
    if baskets == [] then [] else AllPairs(baskets[..|baskets| - 1]) + PairsOf(baskets[|baskets| - 1])
  }

  /** The nested loop of the page; the loop over one basket is
      `AppendBasket`, the innermost loop `AppendRow`. */
  method CollectPairs(baskets: seq<seq<string>>) returns (pairList: seq<(string, string)>)
    ensures pairList == AllPairs(baskets)
  {
    pairList := [];
    var b := 0;
    while b < |baskets|
      invariant 0 <= b <= |baskets|
      invariant pairList == AllPairs(baskets[..b])
    {
      AllPairsStep(baskets, b);
      pairList := AppendBasket(pairList, baskets[b]);
      b := b + 1;
    }
    assert baskets[..b] == baskets;
  }

  /** The pairs of one basket appended, when it has more than one product. */
  method AppendBasket(pairList: seq<(string, string)>, prods: seq<string>) returns (r: seq<(string, string)>)
    ensures r == pairList + PairsOf(prods)
  {
    r := pairList;
    if |prods| > 1 {
      var i := 0;
      while i < |prods|
        invariant 0 <= i <= |prods|
        invariant r == pairList + PairsUpTo(prods, i)
      {
        r := AppendRow(r, prods, i);
        PairsUpToStep(prods, i);
        i := i + 1;
      }
    }
  }

  lemma AllPairsStep(baskets: seq<seq<string>>, b: nat)
    requires b < |baskets|
    ensures AllPairs(baskets[..b + 1]) == AllPairs(baskets[..b]) + PairsOf(baskets[b])
  {
    assert baskets[..b + 1][..b] == baskets[..b];
  }

  lemma PairsUpToStep(prods: seq<string>, i: nat)
    requires i < |prods|
    ensures PairsUpTo(prods, i + 1) == PairsUpTo(prods, i) + RowPairs(prods, i)
  {
  }

  /** `for j in range(i + 1, len(prods))`: the pairs of position `i`. */
  method AppendRow(pairList: seq<(string, string)>, prods: seq<string>, i: nat) returns (r: seq<(string, string)>)
    requires i < |prods|
    ensures r == pairList + RowPairs(prods, i)
  {
    r := pairList;
    var j := i + 1;
    while j < |prods|
      invariant i + 1 <= j <= |prods|
      invariant r == pairList + RowPairs(prods, i)[..j - i - 1]
    {
      assert RowPairs(prods, i)[..j - i] == RowPairs(prods, i)[..j - i - 1] + [(prods[i], prods[j])];
      r := r + [(prods[i], prods[j])];
      j := j + 1;
    }
    assert RowPairs(prods, i)[..j - i - 1] == RowPairs(prods, i);
  }

  /** In a sorted basket every pair is in ascending order. */
  lemma PairsAscend(prods: seq<string>, p: (string, string))
    requires StrictlySorted(prods) && p in PairsOf(prods)
    ensures Less(p.0, p.1)
  {
    PairsUpToMembers(prods, |prods|);
    var a, b :| 0 <= a < |prods| && a < b < |prods| && p == (prods[a], prods[b]);
  }

  /** The first `i` positions of a basket of `k` products emit
      i * (2k - i - 1) / 2 pairs. */
  lemma {:induction false} PairsUpToCount(prods: seq<string>, i: nat)
    requires i <= |prods|
    ensures 2 * |PairsUpTo(prods, i)| == i * (2 * |prods| - i - 1)
  {
    if i > 0 {
      PairsUpToCount(prods, i - 1);
      CountStep(|prods|, i - 1);
    }
  }

  lemma CountStep(k: int, j: int)
    ensures (j + 1) * (2 * k - j - 2) == j * (2 * k - j - 1) + 2 * (k - j - 1)
  {
  }

  /** An order with k distinct products emits k(k - 1)/2 pairs. */
  lemma BasketPairCount(prods: seq<string>)
    ensures 2 * |PairsOf(prods)| == |prods| * (|prods| - 1)
  {
    PairsUpToCount(prods, |prods|);
    if |prods| <= 1 {
      assert |prods| * (|prods| - 1) == 0;
    }
  }

  /** Every pair of the page's list is ascending. */
  lemma {:induction false} AllPairsAscend(baskets: seq<seq<string>>, p: (string, string))
    requires forall b :: b in baskets ==> StrictlySorted(b)
    requires p in AllPairs(baskets)
    ensures Less(p.0, p.1)
  {
    var n := |baskets| - 1;
    if p in PairsOf(baskets[n]) {
      PairsAscend(baskets[n], p);
    } else {
      assert forall b :: b in baskets[..n] ==> b in baskets;
      AllPairsAscend(baskets[..n], p);
    }
  }

  // ---------------------------------------------------------------------
  // Pair counts and the top pair

  datatype PairCount = PairCount(a: string, b: string, count: nat)

  function PairKey(p: (string, string)): (string, string) { p }

  function Count(c: PairCount): nat { c.count }

  predicate SortedDesc<T>(s: seq<T>, key: T -> nat)
  {
    forall i, j :: 0 <= i < j < |s| ==> key(s[i]) >= key(s[j])
  }

  function InsertDesc<T>(x: T, s: seq<T>, key: T -> nat): (r: seq<T>)
    requires SortedDesc(s, key)
    ensures SortedDesc(r, key)
    ensures multiset(r) == multiset(s) + multiset{x}
  {
    if s == [] then [x]
    else if key(x) >= key(s[0]) then
      PrependDesc(x, s, key);
      [x] + s
    else
      var r := InsertDesc(x, s[1..], key);
      assert s == [s[0]] + s[1..];
      assert forall y :: y in r ==> y == x || y in s[1..] by {
        forall y | y in r ensures y == x || y in s[1..] {
          assert y in multiset(r);
        }
      }
      assert forall j :: 0 <= j < |r| ==> key(s[0]) >= key(r[j]) by {
        forall j | 0 <= j < |r| ensures key(s[0]) >= key(r[j]) {
          assert r[j] in r;
          if r[j] != x {
            var k :| 0 <= k < |s[1..]| && s[1..][k] == r[j];
            assert s[k + 1] == r[j];
          }
        }
      }
      PrependDesc(s[0], r, key);
      [s[0]] + r
  }

  lemma PrependDesc<T>(y: T, r: seq<T>, key: T -> nat)
    requires SortedDesc(r, key)
    requires forall j :: 0 <= j < |r| ==> key(y) >= key(r[j])
    ensures SortedDesc([y] + r, key)
  {
    var s := [y] + r;
    forall i, j | 0 <= i < j < |s|
      ensures key(s[i]) >= key(s[j])
    {
      assert s[j] == r[j - 1];
      if i > 0 {
        assert s[i] == r[i - 1];
      }
    }
  }

  /** A stable descending sort (`sort_values(..., ascending=False)`). */
  function SortDesc<T>(s: seq<T>, key: T -> nat): (r: seq<T>)
    ensures SortedDesc(r, key)
    ensures multiset(r) == multiset(s)
  {
    if s == [] then []
    else
      assert s == [s[0]] + s[1..];
      InsertDesc(s[0], SortDesc(s[1..], key), key)
  }

  /** `pair_df.value_counts()`: every distinct pair with the number of times
      it was emitted, most frequent first. */
  function PairCounts(pairList: seq<(string, string)>): (r: seq<PairCount>)
    ensures SortedDesc(r, Count)
    ensures |r| == |Unique(pairList)|
    ensures forall c :: c in r ==> (c.a, c.b) in pairList && c.count == CountKey(pairList, PairKey, (c.a, c.b))
    ensures forall p :: p in pairList ==> PairCount(p.0, p.1, CountKey(pairList, PairKey, p)) in r
  {
    var ps := Unique(pairList);
    var counts := seq(|ps|, i requires 0 <= i < |ps| => PairCount(ps[i].0, ps[i].1, CountKey(pairList, PairKey, ps[i])));
    var r := SortDesc(counts, Count);
    PairCountsMembers(pairList, ps, counts, r);
    r
  }

  lemma PairCountsMembers(pairList: seq<(string, string)>, ps: seq<(string, string)>, counts: seq<PairCount>, r: seq<PairCount>)
    requires ps == Unique(pairList)
    requires |counts| == |ps|
    requires forall i :: 0 <= i < |ps| ==> counts[i] == PairCount(ps[i].0, ps[i].1, CountKey(pairList, PairKey, ps[i]))
    requires multiset(r) == multiset(counts)
    ensures |r| == |ps|
    ensures forall c :: c in r ==> (c.a, c.b) in pairList && c.count == CountKey(pairList, PairKey, (c.a, c.b))
    ensures forall p :: p in pairList ==> PairCount(p.0, p.1, CountKey(pairList, PairKey, p)) in r
  {
    assert |r| == |multiset(r)| == |multiset(counts)| == |counts|;
    forall c | c in r
      ensures (c.a, c.b) in pairList && c.count == CountKey(pairList, PairKey, (c.a, c.b))
    {
      assert c in multiset(counts);
    }
    forall p | p in pairList
      ensures PairCount(p.0, p.1, CountKey(pairList, PairKey, p)) in r
    {
      var i :| 0 <= i < |ps| && ps[i] == p;
      assert counts[i] in multiset(r);
    }
  }

  /** The counts add up to the number of emitted pairs. */
  lemma PairCountsAddUp(pairList: seq<(string, string)>)
    ensures CountOverKeys(pairList, PairKey, Unique(pairList)) == |pairList|
  {
    CountByKeyConserves(pairList, PairKey, Unique(pairList));
  }

  /** The metric: the first row's pair and count, "—" and 0 when there is
      none. */
  function TopPair(counts: seq<PairCount>): (r: (string, nat))
    ensures counts == [] ==> r == (Dash, 0)
    ensures counts != [] ==> r == (counts[0].a + " + " + counts[0].b, counts[0].count)
  {
    if counts == [] then (Dash, 0) else (counts[0].a + " + " + counts[0].b, counts[0].count)
  }

  /** The top pair is a most frequent pair, and the dash shows only when no
      pair was emitted, which the page has already excluded. */
  lemma TopPairIsMostFrequent(pairList: seq<(string, string)>)
    ensures TopPair(PairCounts(pairList)).0 == Dash <==> pairList == []
    ensures forall p :: p in pairList ==> CountKey(pairList, PairKey, p) <= TopPair(PairCounts(pairList)).1
    ensures pairList != [] ==> exists p :: p in pairList && CountKey(pairList, PairKey, p) == TopPair(PairCounts(pairList)).1
  {
    var r := PairCounts(pairList);
    if pairList != [] {
      var p := pairList[0];
      var c := PairCount(p.0, p.1, CountKey(pairList, PairKey, p));
      assert c in r;
      assert r[0] in r;
      assert |(r[0].a + " + ") + r[0].b| >= 3;
      forall q | q in pairList
        ensures CountKey(pairList, PairKey, q) <= r[0].count
      {
        var cq := PairCount(q.0, q.1, CountKey(pairList, PairKey, q));
        var i :| 0 <= i < |r| && r[i] == cq;
      }
    } else {
      assert Unique(pairList) == [];
    }
  }
}
