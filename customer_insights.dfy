/** Customer Insights (pages/9_Customer_Insights.py): the per-session
    `converted` flag of the session–order merge with its source × device
    conversion matrix, and the per-user features that feed the
    segmentation.  The inputs are the already filtered sessions and
    orders. */
module CustomerInsights {
  import opened Wrappers
  import opened Seqs
  import opened Tables
  import Agg

  // ---------------------------------------------------------------------
  // Session–order merge and the converted flag

  /** One row of `sess_orders`: a session with the id of a matching order,
      or NaN when no order matches. */
  datatype SessOrder = SessOrder(session: Session, orderId: Option<Id>)

  /** `converted = order_id.notna()`. */
  predicate Converted(r: SessOrder) { r.orderId.Some? }

  /** The ids of the orders placed in session `s`, in order row order. */
  function MatchIds(s: Session, orders: seq<Order>): (r: seq<Id>)
    ensures forall x :: x in r <==> exists o :: o in orders && o.sessionId == s.id && o.id == x
  {
    if orders == [] then []
    else
      assert forall o :: o in orders <==> o == orders[0] || o in orders[1..];
      (if orders[0].sessionId == s.id then [orders[0].id] else []) + MatchIds(s, orders[1..])
  }

  /** The rows a left merge produces for one session: one per matching
      order, or a single row without an order. */
  function RowsOf(s: Session, orders: seq<Order>): (r: seq<SessOrder>)
    ensures r != []
    ensures forall x :: x in r ==> x.session == s
    ensures forall x :: x in r ==> (Converted(x) <==> exists o :: o in orders && o.sessionId == s.id && Some(o.id) == x.orderId)
    ensures (exists x :: x in r && Converted(x)) <==> exists o :: o in orders && o.sessionId == s.id
  {
    var m := MatchIds(s, orders);
    assert forall o :: o in orders && o.sessionId == s.id ==> o.id in m;
    if m == [] then [SessOrder(s, None)]
    else
      var r := seq(|m|, i requires 0 <= i < |m| => SessOrder(s, Some(m[i])));
      assert forall x :: x in r ==> x.orderId.Some? && x.orderId.value in m;
      assert m[0] in m && r[0] in r;
      r
  }

  /** `sess_orders`: the left merge of the sessions with the orders on the
      session id. */
  function SessOrders(sessions: seq<Session>, orders: seq<Order>): (r: seq<SessOrder>)
    ensures |r| >= |sessions|
    ensures forall x :: x in r ==> x.session in sessions
    ensures forall x :: x in r ==> (Converted(x) <==> exists o :: o in orders && o.sessionId == x.session.id && Some(o.id) == x.orderId)
    ensures forall s :: s in sessions ==> exists x :: x in r && x.session == s
  {
    if sessions == [] then []
    else
      var head := RowsOf(sessions[0], orders);
      var rest := SessOrders(sessions[1..], orders);
      assert head[0] in head;
      assert forall s :: s in sessions <==> s == sessions[0] || s in sessions[1..];
      head + rest
  }

  /** A session with an id has a converted row exactly when
      compute_conversion_rate counts it as ordered. */
  lemma ConvertedIffOrdered(sessions: seq<Session>, orders: seq<Order>, s: Session)
    requires s in sessions && s.id.Some?
    ensures (exists x :: x in SessOrders(sessions, orders) && x.session == s && Converted(x))
        <==> s.id in Agg.OrderedSessionIds(orders)
  {
    if s.id in Agg.OrderedSessionIds(orders) {
      var o :| o in orders && o.sessionId == s.id;
      ConvertedRowExists(sessions, orders, s, o);
    }
  }

  lemma {:induction false} ConvertedRowExists(sessions: seq<Session>, orders: seq<Order>, s: Session, o: Order)
    requires s in sessions && o in orders && o.sessionId == s.id
    ensures exists x :: x in SessOrders(sessions, orders) && x.session == s && Converted(x)
  {
    var head := RowsOf(sessions[0], orders);
    var rest := SessOrders(sessions[1..], orders);
    assert SessOrders(sessions, orders) == head + rest;
    if sessions[0] == s {
      var x :| x in head && Converted(x);
      assert x in head + rest;
    } else {
      assert s in sessions[1..];
      ConvertedRowExists(sessions[1..], orders, s, o);
      var x :| x in rest && x.session == s && Converted(x);
      assert x in head + rest;
    }
  }

  // ---------------------------------------------------------------------
  // Conversion matrix by source and device

  /** The merged rows of the group (`utm_source`, `device_type`); a missing
      source or device puts a row in no group. */
  predicate InCell(x: SessOrder, source: string, device: string)
  {
    x.session.utmSource == Some(source) && x.session.deviceType == Some(device)
  }

  function CellRows(rows: seq<SessOrder>, source: string, device: string): (r: seq<SessOrder>)
    ensures forall x :: x in r <==> x in rows && InCell(x, source, device)
  {
    if rows == [] then []
    else
      assert forall x :: x in rows <==> x == rows[0] || x in rows[1..];
      (if InCell(rows[0], source, device) then [rows[0]] else []) + CellRows(rows[1..], source, device)
  }

  function ConvertedRows(rows: seq<SessOrder>): (r: seq<SessOrder>)
    ensures |r| <= |rows|
    ensures forall x :: x in r <==> x in rows && Converted(x)
  {
    if rows == [] then []
    else
      assert forall x :: x in rows <==> x == rows[0] || x in rows[1..];
      (if Converted(rows[0]) then [rows[0]] else []) + ConvertedRows(rows[1..])
  }

  /** `conv_matrix`: the mean of `converted` over a group's merged rows,
      None for a pair that forms no group.  A session with several orders
      weighs once per order. */
  function ConversionCell(sessions: seq<Session>, orders: seq<Order>, source: string, device: string): (r: Option<real>)
    ensures r.None? <==> forall s :: s in sessions ==> !(s.utmSource == Some(source) && s.deviceType == Some(device))
    ensures r.Some? ==> 0.0 <= r.value <= 1.0
    ensures r.Some? ==> var cell := CellRows(SessOrders(sessions, orders), source, device);
      r.value == |ConvertedRows(cell)| as real / |cell| as real
  {
    var cell := CellRows(SessOrders(sessions, orders), source, device);
    assert cell == [] <==> forall s :: s in sessions ==> !(s.utmSource == Some(source) && s.deviceType == Some(device)) by {
      if cell != [] {
        assert cell[0] in cell;
      }
      forall s | s in sessions && s.utmSource == Some(source) && s.deviceType == Some(device)
        ensures cell != []
      {
        var x :| x in SessOrders(sessions, orders) && x.session == s;
        assert x in cell;
      }
    }
    Agg.Ratio(|ConvertedRows(cell)|, |cell|)
  }

  // ---------------------------------------------------------------------
  // Per-user features

  /** The `user_id` column of the session rows, in row order. */
  function SessionUserIds(sessions: seq<Session>): (r: seq<Id>)
    ensures |r| == |sessions| && forall i :: 0 <= i < |r| ==> r[i] == sessions[i].userId
    ensures forall u :: u in r <==> exists s :: s in sessions && s.userId == u
  {
    if sessions == [] then []
    else
      assert forall s :: s in sessions <==> s == sessions[0] || s in sessions[1..];
      [sessions[0].userId] + SessionUserIds(sessions[1..])
  }

  /** The users with a session row, each once, in increasing `user_id` order. */
  function Users(sessions: seq<Session>): (r: seq<Id>)
    ensures StrictlySorted(r)
    ensures forall u :: u in r <==> exists s :: s in sessions && s.userId == u
  {
    SortedDistinct(SessionUserIds(sessions))
  }

  /** `user_sessions`: the number of distinct session ids of the user
      (`nunique` ignores a missing id). */
  function SessionCount(sessions: seq<Session>, u: Id): (r: nat)
    ensures r == 0 <==> forall s :: s in sessions && s.userId == u ==> s.id.None?
  {
    var ids := set s | s in sessions && s.userId == u && s.id.Some? :: s.id.value;
    assert ids == {} <==> forall s :: s in sessions && s.userId == u ==> s.id.None? by {
      forall s | s in sessions && s.userId == u && s.id.Some?
        ensures s.id.value in ids
      {
      }
    }
    |ids|
  }

  /** The user's order rows. */
  function UserOrders(orders: seq<Order>, u: Id): (r: seq<Order>)
    ensures forall o :: o in r <==> o in orders && o.userId == u
  {
    if orders == [] then []
    else
      assert forall o :: o in orders <==> o == orders[0] || o in orders[1..];
      (if orders[0].userId == u then [orders[0]] else []) + UserOrders(orders[1..], u)
  }

  /** `orders`: the number of distinct order ids. */
  function OrderCount(orders: seq<Order>, u: Id): (r: nat)
    ensures r == 0 <==> forall o :: o in orders ==> o.userId != u
  {
    var ids := set o | o in UserOrders(orders, u) :: o.id;
    assert ids == {} <==> forall o :: o in orders ==> o.userId != u by {
      forall o | o in orders && o.userId == u
        ensures o.id in ids
      {
        assert o in UserOrders(orders, u);
      }
    }
    |ids|
  }

  /** `revenue`: the sum of the prices (0 once `fillna(0)` has run). */
  function Revenue(orders: seq<Order>, u: Id): (r: real)
    ensures (forall o :: o in orders ==> o.userId != u) ==> r == 0.0
    ensures (forall o :: o in orders ==> o.price >= 0.0) ==> r >= 0.0
  {
    assert (forall o :: o in orders ==> o.userId != u) ==> UserOrders(orders, u) == [] by {
      if forall o :: o in orders ==> o.userId != u {
        NoUserOrders(orders, u);
      }
    }
    assert (forall o :: o in orders ==> o.price >= 0.0) ==> Sum(UserOrders(orders, u), Agg.OrderPrice) >= 0.0 by {
      if forall o :: o in orders ==> o.price >= 0.0 {
        SumNonNegative(UserOrders(orders, u), Agg.OrderPrice);
      }
    }
    Sum(UserOrders(orders, u), Agg.OrderPrice)
  }

  /** `avg_order_value`: the mean price per order row; NaN, filled with 0,
      for a user without orders. */
  function AvgOrderValue(orders: seq<Order>, u: Id): (r: real)
    ensures UserOrders(orders, u) != [] ==> r == Revenue(orders, u) / |UserOrders(orders, u)| as real
    ensures UserOrders(orders, u) == [] ==> r == 0.0
  {
    MeanOrZero(Revenue(orders, u), |UserOrders(orders, u)|)
  }

  /** A total spread over `n` rows, 0 when there are none. */
  function MeanOrZero(total: real, n: nat): (r: real)
    ensures n > 0 ==> r == total / n as real
    ensures n == 0 ==> r == 0.0
  {
    if n == 0 then 0.0 else total / n as real
  }

  /** `orders / sessions`; None where the division has no finite value. */
  function ConversionOf(sessions: nat, orders: nat): (r: Option<real>)
    ensures r.None? <==> sessions == 0
    ensures r.Some? ==> r.value == orders as real / sessions as real && r.value >= 0.0
  {
    if sessions == 0 then None else Some(orders as real / sessions as real)
  }

  /** `(orders >= 2).astype(int)`. */
  function RepeatPurchase(orders: nat): (r: nat)
    ensures r <= 1
    ensures r == 1 <==> orders >= 2
  {
    if orders >= 2 then 1 else 0
  }

  datatype UserRow = UserRow(
    userId: Id,
    sessions: nat,
    orders: nat,
    revenue: real,
    avgOrderValue: real,
    conversionRate: Option<real>,
    repeatPurchase: nat)

  /** One user's features: the counts of distinct sessions and orders,
      the revenue and its mean per order row, orders per session, and the
      repeat flag. */
  function UserRowOf(sessions: seq<Session>, orders: seq<Order>, u: Id): (r: UserRow)
    ensures r.userId == u
    ensures r.sessions == SessionCount(sessions, u) && r.orders == OrderCount(orders, u)
    ensures r.revenue == Revenue(orders, u)
    ensures UserOrders(orders, u) != [] ==> r.avgOrderValue == r.revenue / |UserOrders(orders, u)| as real
    ensures r.conversionRate.None? <==> r.sessions == 0
    ensures r.conversionRate.Some? ==> r.conversionRate.value == r.orders as real / r.sessions as real
    ensures r.repeatPurchase == 1 <==> r.orders >= 2
  {
    var n := SessionCount(sessions, u);
    var k := OrderCount(orders, u);
    UserRow(u, n, k, Revenue(orders, u), AvgOrderValue(orders, u), ConversionOf(n, k), RepeatPurchase(k))
  }

  /** `users`: one row per user with a session, the order figures merged
      in, those of a user without orders filled with 0. */
  function UsersTable(sessions: seq<Session>, orders: seq<Order>): (r: seq<UserRow>)
    ensures |r| == |Users(sessions)|
    ensures forall i :: 0 <= i < |r| ==> r[i] == UserRowOf(sessions, orders, Users(sessions)[i])
  {
    var us := Users(sessions);
    seq(|us|, i requires 0 <= i < |us| => UserRowOf(sessions, orders, us[i]))
  }

  lemma RowUser(sessions: seq<Session>, orders: seq<Order>, u: Id)
    ensures UserRowOf(sessions, orders, u).userId == u
  {
  }

  /** The table lists exactly the users with a session row. */
  lemma UsersTableListsSessionUsers(sessions: seq<Session>, orders: seq<Order>, u: Id)
    ensures (exists x :: x in UsersTable(sessions, orders) && x.userId == u)
        <==> exists s :: s in sessions && s.userId == u
  {
    var us := Users(sessions);
    var r := UsersTable(sessions, orders);
    if exists s :: s in sessions && s.userId == u {
      assert u in us;
      var i :| 0 <= i < |us| && us[i] == u;
      RowUser(sessions, orders, u);
      assert r[i] in r && r[i].userId == u;
    }
    if exists x :: x in r && x.userId == u {
      var x :| x in r && x.userId == u;
      var i :| 0 <= i < |r| && r[i] == x;
      RowUser(sessions, orders, us[i]);
      assert us[i] == u && us[i] in us;
    }
  }

  /** A user without orders gets zero orders, revenue and order value, no
      repeat purchase, and (with a session id) a conversion rate of 0. */
  lemma NoOrdersFilledWithZero(sessions: seq<Session>, orders: seq<Order>, u: Id)
    requires forall o :: o in orders ==> o.userId != u
    ensures UserRowOf(sessions, orders, u).orders == 0
    ensures UserRowOf(sessions, orders, u).revenue == 0.0
    ensures UserRowOf(sessions, orders, u).avgOrderValue == 0.0
    ensures UserRowOf(sessions, orders, u).repeatPurchase == 0
    ensures SessionCount(sessions, u) > 0 ==> UserRowOf(sessions, orders, u).conversionRate == Some(0.0)
  {
    NoUserOrders(orders, u);
    assert (set o | o in UserOrders(orders, u) :: o.id) == {};
  }

  lemma {:induction false} NoUserOrders(orders: seq<Order>, u: Id)
    requires forall o :: o in orders ==> o.userId != u
    ensures UserOrders(orders, u) == []
  {
    if orders != [] {
      assert forall o :: o in orders[1..] ==> o in orders;
      NoUserOrders(orders[1..], u);
    }
  }

  /** Every user listed has a session id when the sessions all carry one, so
      its conversion rate is defined. */
  lemma ListedUserHasSessions(sessions: seq<Session>, orders: seq<Order>, x: UserRow)
    requires forall s :: s in sessions ==> s.id.Some?
    requires x in UsersTable(sessions, orders)
    ensures x.sessions >= 1 && x.conversionRate.Some?
  {
    UsersTableListsSessionUsers(sessions, orders, x.userId);
    var s :| s in sessions && s.userId == x.userId;
    var r := UsersTable(sessions, orders);
    var i :| 0 <= i < |r| && r[i] == x;
    var u := Users(sessions)[i];
    RowUser(sessions, orders, u);
    var ids := set t | t in sessions && t.userId == u && t.id.Some? :: t.id.value;
    assert s.id.value in ids;
    assert x.sessions == |ids|;
  }

  /** With distinct order ids the order count is the number of order rows,
      so the average order value is the revenue over the orders. */
  lemma AverageIsRevenuePerOrder(orders: seq<Order>, u: Id)
    requires forall i, j :: 0 <= i < j < |orders| ==> orders[i].id != orders[j].id
    requires OrderCount(orders, u) > 0
    ensures AvgOrderValue(orders, u) == Revenue(orders, u) / OrderCount(orders, u) as real
  {
    OrderCountIsRows(orders, u);
  }

  lemma OrderCountIsRows(orders: seq<Order>, u: Id)
    requires forall i, j :: 0 <= i < j < |orders| ==> orders[i].id != orders[j].id
    ensures OrderCount(orders, u) == |UserOrders(orders, u)|
  {
    assert DistinctBy(orders, OrderId);
    UserOrdersDistinct(orders, u);
    DistinctIdCount(UserOrders(orders, u));
  }

  function OrderId(o: Order): Id { o.id }

  lemma {:induction false} UserOrdersDistinct(orders: seq<Order>, u: Id)
    requires DistinctBy(orders, OrderId)
    ensures DistinctBy(UserOrders(orders, u), OrderId)
  {
    if orders != [] {
      var tail := orders[1..];
      DistinctByTail(orders, OrderId);
      UserOrdersDistinct(tail, u);
      var rest := UserOrders(tail, u);
      if orders[0].userId == u {
        DistinctByPrepend(orders[0], rest, OrderId);
      }
    }
  }

  lemma DistinctIdCount(rows: seq<Order>)
    requires DistinctBy(rows, OrderId)
    ensures |set o | o in rows :: o.id| == |rows|
  {
    DistinctKeysCard(rows, OrderId);
    var ids := set o | o in rows :: o.id;
    forall k | k in ids ensures k in KeySet(rows, OrderId) {
      var o :| o in rows && o.id == k;
      assert OrderId(o) == k;
    }
    assert ids == KeySet(rows, OrderId);
  }

  /** The feature called a conversion rate is not a share: one session
      with two orders in the window gives 2. */
  lemma ConversionRateCanExceedOne()
    ensures var s := Session(Some("s1"), None, "u1", Some(false), None, None, None, None, None);
            var o1 := Order("o1", Some("s1"), "u1", None, 10.0);
            var o2 := Order("o2", Some("s9"), "u1", None, 20.0);
            UserRowOf([s], [o1, o2], "u1").conversionRate == Some(2.0)
  {
    var s := Session(Some("s1"), None, "u1", Some(false), None, None, None, None, None);
    var o1 := Order("o1", Some("s1"), "u1", None, 10.0);
    var o2 := Order("o2", Some("s9"), "u1", None, 20.0);
    assert (set t | t in [s] && t.userId == "u1" && t.id.Some? :: t.id.value) == {"s1"};
    assert [o1, o2][1..] == [o2] && [o2][1..] == [];
    assert UserOrders([o2], "u1") == [o2];
    assert UserOrders([o1, o2], "u1") == [o1, o2];
    assert (set o | o in [o1, o2] :: o.id) == {"o1", "o2"};
  }
}
