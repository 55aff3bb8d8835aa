/** Attribution Analysis (pages/4_Attribution_Analysis.py): revenue credited
    to traffic sources under first-touch, last-touch and linear attribution,
    the comparison table that joins the three, and the top source of each. */
module Attribution {
  import opened Wrappers
  import opened Seqs
  import opened Tables
  import opened Agg
  import opened Groups

  function SessionTime(s: Session): Option<int> { Seconds(s.createdAt) }

  /** The rows of one user, in the order given. */
  function UserRows(rows: seq<Session>, u: Id): (r: seq<Session>)
    ensures forall x :: x in r <==> x in rows && x.userId == u
    ensures SortedByTime(rows, SessionTime) ==> SortedByTime(r, SessionTime)
  {
    if rows == [] then []
    else
      var rest := UserRows(rows[1..], u);
      assert forall x :: x in rows <==> x == rows[0] || x in rows[1..];
      if rows[0].userId == u then
        var r := [rows[0]] + rest;
        assert SortedByTime(rows, SessionTime) ==> SortedByTime(r, SessionTime) by {
          if SortedByTime(rows, SessionTime) {
            forall i, j | 0 <= i < j < |r|
              ensures TimeLe(SessionTime(r[i]), SessionTime(r[j]))
            {
              if i == 0 {
                var k :| 0 <= k < |rows[1..]| && rows[1..][k] == r[j];
                assert rows[k + 1] == r[j];
              }
            }
          }
        }
        r
      else rest
  }

  /** The `utm_source` column of some rows. */
  function SourceColumn(rows: seq<Session>): (r: seq<Option<string>>)
    ensures |r| == |rows| && forall i :: 0 <= i < |rows| ==> r[i] == rows[i].utmSource
  {
    if rows == [] then [] else [rows[0].utmSource] + SourceColumn(rows[1..])
  }

  datatype Touch = First | Last

  /** `sessions.sort_values("created_at").groupby("user_id").first()` (or
      `.last()`), column `utm_source`: the first (last) present source among
      the user's sessions in time order, missing times last. */
  function TouchSource(sessions: seq<Session>, t: Touch, u: Id): Option<string>
  {
    var col := SourceColumn(UserRows(SortByTime(sessions, SessionTime), u));
    if t == First then FirstSome(col) else LastSome(col)
  }

  lemma SortedMembers(sessions: seq<Session>)
    ensures forall x :: x in SortByTime(sessions, SessionTime) <==> x in sessions
  {
    var sorted := SortByTime(sessions, SessionTime);
    forall x
      ensures x in sorted <==> x in sessions
    {
      assert x in sorted <==> x in multiset(sorted);
      assert x in sessions <==> x in multiset(sessions);
    }
  }

  /** The source column has a present entry exactly when some row has a
      source. */
  lemma ColumnHasSource(rows: seq<Session>)
    ensures (exists s :: s in rows && s.utmSource.Some?) ==>
      exists i :: 0 <= i < |SourceColumn(rows)| && SourceColumn(rows)[i].Some?
    ensures (exists i :: 0 <= i < |SourceColumn(rows)| && SourceColumn(rows)[i].Some?) ==>
      exists s :: s in rows && s.utmSource.Some?
  {
    var col := SourceColumn(rows);
    if s :| s in rows && s.utmSource.Some? {
      var j :| 0 <= j < |rows| && rows[j] == s;
      assert col[j].Some?;
    }
    if i :| 0 <= i < |col| && col[i].Some? {
      assert rows[i] in rows && col[i] == rows[i].utmSource;
    }
  }

  /** In rows sorted by time, a row whose source is the first present one is
      no later than any other row with a source. */
  lemma EarliestWithSource(rows: seq<Session>, i: nat)
    requires SortedByTime(rows, SessionTime)
    requires i < |rows| && forall j :: 0 <= j < i ==> SourceColumn(rows)[j].None?
    ensures forall s' :: s' in rows && s'.utmSource.Some? ==> TimeLe(SessionTime(rows[i]), SessionTime(s'))
  {
    var col := SourceColumn(rows);
    forall s' | s' in rows && s'.utmSource.Some?
      ensures TimeLe(SessionTime(rows[i]), SessionTime(s'))
    {
      var j :| 0 <= j < |rows| && rows[j] == s';
      assert col[j].Some?;
      assert i <= j;
      if i < j {
        assert TimeLe(SessionTime(rows[i]), SessionTime(rows[j]));
      }
    }
  }

  /** In rows sorted by time, a row whose source is the last present one is
      no earlier than any other row with a source. */
  lemma LatestWithSource(rows: seq<Session>, i: nat)
    requires SortedByTime(rows, SessionTime)
    requires i < |rows| && forall j :: i < j < |rows| ==> SourceColumn(rows)[j].None?
    ensures forall s' :: s' in rows && s'.utmSource.Some? ==> TimeLe(SessionTime(s'), SessionTime(rows[i]))
  {
    var col := SourceColumn(rows);
    forall s' | s' in rows && s'.utmSource.Some?
      ensures TimeLe(SessionTime(s'), SessionTime(rows[i]))
    {
      var j :| 0 <= j < |rows| && rows[j] == s';
      assert col[j].Some?;
      assert j <= i;
      if j < i {
        assert TimeLe(SessionTime(rows[j]), SessionTime(rows[i]));
      }
    }
  }

  /** In rows sorted by time, the first present source belongs to a row no
      later than any other row with a source. */
  lemma FirstOfSorted(rows: seq<Session>)
    requires SortedByTime(rows, SessionTime)
    ensures FirstSome(SourceColumn(rows)).None? <==> forall s :: s in rows ==> s.utmSource.None?
    ensures FirstSome(SourceColumn(rows)).Some? ==>
      exists s :: s in rows && s.utmSource == FirstSome(SourceColumn(rows))
        && forall s' :: s' in rows && s'.utmSource.Some? ==> TimeLe(SessionTime(s), SessionTime(s'))
  {
    var col := SourceColumn(rows);
    ColumnHasSource(rows);
    if FirstSome(col).Some? {
      var i :| 0 <= i < |col| && col[i] == FirstSome(col) && forall j :: 0 <= j < i ==> col[j].None?;
      EarliestWithSource(rows, i);
      assert rows[i] in rows;
    }
  }

  /** In rows sorted by time, the last present source belongs to a row no
      earlier than any other row with a source. */
  lemma LastOfSorted(rows: seq<Session>)
    requires SortedByTime(rows, SessionTime)
    ensures LastSome(SourceColumn(rows)).None? <==> forall s :: s in rows ==> s.utmSource.None?
    ensures LastSome(SourceColumn(rows)).Some? ==>
      exists s :: s in rows && s.utmSource == LastSome(SourceColumn(rows))
        && forall s' :: s' in rows && s'.utmSource.Some? ==> TimeLe(SessionTime(s'), SessionTime(s))
  {
    var col := SourceColumn(rows);
    ColumnHasSource(rows);
    if LastSome(col).Some? {
      var i :| 0 <= i < |col| && col[i] == LastSome(col) && forall j :: i < j < |col| ==> col[j].None?;
      LatestWithSource(rows, i);
      assert rows[i] in rows;
    }
  }

  /** First touch credits the source of the user's earliest session that has
      one; no session of the user has a source exactly when there is none. */
  lemma FirstTouchIsEarliest(sessions: seq<Session>, u: Id)
    ensures TouchSource(sessions, First, u).None? <==>
      forall s :: s in sessions && s.userId == u ==> s.utmSource.None?
    ensures TouchSource(sessions, First, u).Some? ==>
      exists s :: s in sessions && s.userId == u && s.utmSource == TouchSource(sessions, First, u)
        && forall s' :: s' in sessions && s'.userId == u && s'.utmSource.Some? ==>
             TimeLe(SessionTime(s), SessionTime(s'))
  {
    SortedMembers(sessions);
    FirstOfSorted(UserRows(SortByTime(sessions, SessionTime), u));
  }

  /** Last touch credits the source of the user's latest session that has
      one. */
  lemma LastTouchIsLatest(sessions: seq<Session>, u: Id)
    ensures TouchSource(sessions, Last, u).None? <==>
      forall s :: s in sessions && s.userId == u ==> s.utmSource.None?
    ensures TouchSource(sessions, Last, u).Some? ==>
      exists s :: s in sessions && s.userId == u && s.utmSource == TouchSource(sessions, Last, u)
        && forall s' :: s' in sessions && s'.userId == u && s'.utmSource.Some? ==>
             TimeLe(SessionTime(s'), SessionTime(s))
  {
    SortedMembers(sessions);
    LastOfSorted(UserRows(SortByTime(sessions, SessionTime), u));
  }

  /** The source an order is credited to under a touch model: the merge on
      `user_id` against one row per user. */
  function TouchKey(sessions: seq<Session>, t: Touch): Order -> Option<string>
  {
    (o: Order) => TouchSource(sessions, t, o.userId)
  }

  /** `ft_rev` / `lt_rev` of a source, 0 where the source got no order. */
  function TouchRevenue(sessions: seq<Session>, orders: seq<Order>, t: Touch, c: string): (r: real)
    ensures (forall o :: o in orders ==> TouchSource(sessions, t, o.userId) != Some(c)) ==> r == 0.0
  {
    assert (forall o :: o in orders ==> TouchSource(sessions, t, o.userId) != Some(c))
        ==> SumKey(orders, TouchKey(sessions, t), Some(c), OrderPrice) == 0.0 by {
      if forall o :: o in orders ==> TouchSource(sessions, t, o.userId) != Some(c) {
        KeyAbsent(orders, TouchKey(sessions, t), Some(c), OrderPrice);
      }
    }
    SumKey(orders, TouchKey(sessions, t), Some(c), OrderPrice)
  }

  // ---------------------------------------------------------------------
  // Linear attribution

  /** A row of `sessions.merge(orders, on="user_id", how="inner")`. */
  datatype Pair = Pair(session: Session, order: Order)

  function PairsOf(s: Session, orders: seq<Order>): (r: seq<Pair>)
    ensures forall p :: p in r <==> p.session == s && p.order in orders && p.order.userId == s.userId
  {
    if orders == [] then []
    else
      assert forall o :: o in orders <==> o == orders[0] || o in orders[1..];
      (if orders[0].userId == s.userId then [Pair(s, orders[0])] else []) + PairsOf(s, orders[1..])
  }

  /** `linear_pairs`: every session with every order of its user. */
  function Pairs(sessions: seq<Session>, orders: seq<Order>): (r: seq<Pair>)
    ensures forall p :: p in r <==> p.session in sessions && p.order in orders && p.order.userId == p.session.userId
  {
    if sessions == [] then []
    else
      assert forall s :: s in sessions <==> s == sessions[0] || s in sessions[1..];
      PairsOf(sessions[0], orders) + Pairs(sessions[1..], orders)
  }

  function PairOrder(p: Pair): Id { p.order.id }

  function PairSource(p: Pair): Option<string> { p.session.utmSource }

  /** `share`: the pair rows of the same order id. */
  function Share(pairs: seq<Pair>, p: Pair): nat
  {
    CountKey(pairs, PairOrder, p.order.id)
  }

  /** `rev_share = price_usd / share`. */
  function RevShare(pairs: seq<Pair>): Pair -> real
  {
    (p: Pair) => if Share(pairs, p) == 0 then 0.0 else p.order.price / Share(pairs, p) as real
  }

  /** `lin_rev` of a source, 0 where no pair has it. */
  function LinearRevenue(sessions: seq<Session>, orders: seq<Order>, c: string): (r: real)
    ensures (forall s :: s in sessions ==> s.utmSource != Some(c)) ==> r == 0.0
  {
    var pairs := Pairs(sessions, orders);
    assert (forall s :: s in sessions ==> s.utmSource != Some(c))
        ==> SumKey(pairs, PairSource, Some(c), RevShare(pairs)) == 0.0 by {
      if forall s :: s in sessions ==> s.utmSource != Some(c) {
        forall p | p in pairs ensures PairSource(p) != Some(c) {
          assert p.session in sessions;
        }
        KeyAbsent(pairs, PairSource, Some(c), RevShare(pairs));
      }
    }
    SumKey(pairs, PairSource, Some(c), RevShare(pairs))
  }

  lemma {:induction false} SumKeyConstant<T, K>(s: seq<T>, key: T -> K, k: K, f: T -> real, v: real)
    requires forall x :: x in s && key(x) == k ==> f(x) == v
    ensures SumKey(s, key, k, f) == CountKey(s, key, k) as real * v
  {
    if s != [] {
      assert forall x :: x in s[1..] ==> x in s;
      SumKeyConstant(s[1..], key, k, f, v);
      assert s[0] in s;
    }
  }

  /** Order ids are the key of the orders table. */
  predicate UniqueOrderIds(orders: seq<Order>)
  {
    forall o1, o2 :: o1 in orders && o2 in orders && o1.id == o2.id ==> o1 == o2
  }

  /** Linear attribution splits an order's price over its user's sessions:
      the shares of the order add up to its price. */
  lemma LinearSharesAddUp(sessions: seq<Session>, orders: seq<Order>, o: Order, s: Session)
    requires UniqueOrderIds(orders)
    requires o in orders && s in sessions && s.userId == o.userId
    ensures var pairs := Pairs(sessions, orders);
      SumKey(pairs, PairOrder, o.id, RevShare(pairs)) == o.price
  {
    var pairs := Pairs(sessions, orders);
    assert Pair(s, o) in pairs;
    forall p | p in pairs && PairOrder(p) == o.id
      ensures p.order == o
    {
    }
    SharesOfOneOrder(pairs, o, Pair(s, o));
  }

  /** The pair rows of one order share its price equally. */
  lemma SharesOfOneOrder(pairs: seq<Pair>, o: Order, q: Pair)
    requires q in pairs && q.order == o
    requires forall p :: p in pairs && PairOrder(p) == o.id ==> p.order == o
    ensures SumKey(pairs, PairOrder, o.id, RevShare(pairs)) == o.price
  {
    var n := CountKey(pairs, PairOrder, o.id);
    KeyPresent(pairs, PairOrder, q);
    var v := o.price / n as real;
    assert forall p :: p in pairs && PairOrder(p) == o.id ==> RevShare(pairs)(p) == v;
    SumKeyConstant(pairs, PairOrder, o.id, RevShare(pairs), v);
    EqualParts(n as real, o.price);
  }

  lemma EqualParts(n: real, x: real)
    requires n > 0.0
    ensures n * (x / n) == x
  {
  }

  lemma {:induction false} KeyPresent<T, K>(s: seq<T>, key: T -> K, x: T)
    requires x in s
    ensures CountKey(s, key, key(x)) > 0
  {
    if s[0] != x {
      KeyPresent(s[1..], key, x);
    }
  }

  /** An order whose user has no session in the filtered table gets no
      share at all. */
  lemma OrderWithoutSessions(sessions: seq<Session>, orders: seq<Order>, o: Order)
    requires UniqueOrderIds(orders)
    requires o in orders && forall s :: s in sessions ==> s.userId != o.userId
    ensures var pairs := Pairs(sessions, orders);
      CountKey(pairs, PairOrder, o.id) == 0 && SumKey(pairs, PairOrder, o.id, RevShare(pairs)) == 0.0
  {
    var pairs := Pairs(sessions, orders);
    KeyAbsent(pairs, PairOrder, o.id, RevShare(pairs));
  }

  // ---------------------------------------------------------------------
  // The comparison table

  datatype AttribRow = AttribRow(source: string, firstTouch: real, lastTouch: real, linear: real, total: real)

  /** Some session with source `c` belongs to a user with an order. */
  predicate SourceOfBuyer(sessions: seq<Session>, orders: seq<Order>, c: string)
  {
    exists s, o :: s in sessions && o in orders && o.userId == s.userId && s.utmSource == Some(c)
  }

  /** The sources some model credits, each once, in the outer merges' sorted
      order.  Touch models only credit a source of one of the user's
      sessions, so these are exactly the sources of the buyers' sessions. */
  function Credited(sessions: seq<Session>, orders: seq<Order>): (r: seq<string>)
    ensures StrictlySorted(r)
    ensures forall c :: c in r <==> SourceOfBuyer(sessions, orders, c)
  {
    var pairs := Pairs(sessions, orders);
    var xs := Keyed(orders, TouchKey(sessions, First)) + Keyed(orders, TouchKey(sessions, Last))
      + Keyed(pairs, PairSource);
    forall c | SourceOfBuyer(sessions, orders, c)
      ensures c in xs
    {
      var x, o :| x in sessions && o in orders && o.userId == x.userId && x.utmSource == Some(c);
      assert Pair(x, o) in pairs;
    }
    forall c | c in xs
      ensures SourceOfBuyer(sessions, orders, c)
    {
      if c in Keyed(orders, TouchKey(sessions, First)) {
        var o :| o in orders && TouchKey(sessions, First)(o) == Some(c);
        FirstTouchIsEarliest(sessions, o.userId);
      } else if c in Keyed(orders, TouchKey(sessions, Last)) {
        var o :| o in orders && TouchKey(sessions, Last)(o) == Some(c);
        LastTouchIsLatest(sessions, o.userId);
      } else {
        var p :| p in pairs && PairSource(p) == Some(c);
        assert p.session in sessions && p.order in orders;
      }
    }
    SortedDistinct(xs)
  }

  /** The present keys of some rows, in order. */
  function Keyed<T>(rows: seq<T>, key: T -> Option<string>): (r: seq<string>)
    ensures forall x :: x in rows && key(x).Some? ==> key(x).value in r
    ensures forall c :: c in r ==> exists x :: x in rows && key(x) == Some(c)
  {
    if rows == [] then []
    else
      assert forall x :: x in rows ==> x == rows[0] || x in rows[1..];
      (if key(rows[0]).Some? then [key(rows[0]).value] else []) + Keyed(rows[1..], key)
  }

  /** One source's row: its first-touch, last-touch and linear revenue and
      their sum; a source no session has gets zeros throughout. */
  function RowOf(sessions: seq<Session>, orders: seq<Order>, c: string): (r: AttribRow)
    ensures r.source == c
    ensures r.firstTouch == TouchRevenue(sessions, orders, First, c)
    ensures r.lastTouch == TouchRevenue(sessions, orders, Last, c)
    ensures r.linear == LinearRevenue(sessions, orders, c)
    ensures r.total == r.firstTouch + r.lastTouch + r.linear
    ensures (forall s :: s in sessions ==> s.utmSource != Some(c)) ==> r == AttribRow(c, 0.0, 0.0, 0.0, 0.0)
  {
    assert (forall s :: s in sessions ==> s.utmSource != Some(c)) ==>
      forall o :: o in orders ==>
        TouchSource(sessions, First, o.userId) != Some(c) && TouchSource(sessions, Last, o.userId) != Some(c)
    by {
      if forall s :: s in sessions ==> s.utmSource != Some(c) {
        forall o | o in orders
          ensures TouchSource(sessions, First, o.userId) != Some(c) && TouchSource(sessions, Last, o.userId) != Some(c)
        {
          FirstTouchIsEarliest(sessions, o.userId);
          LastTouchIsLatest(sessions, o.userId);
        }
      }
    }
    var ft := TouchRevenue(sessions, orders, First, c);
    var lt := TouchRevenue(sessions, orders, Last, c);
    var lin := LinearRevenue(sessions, orders, c);
    AttribRow(c, ft, lt, lin, ft + lt + lin)
  }

  function RowsOf(sessions: seq<Session>, orders: seq<Order>, cs: seq<string>): (r: seq<AttribRow>)
    ensures |r| == |cs|
    ensures forall i :: 0 <= i < |r| ==> r[i] == RowOf(sessions, orders, cs[i])
  {
    if cs == [] then [] else [RowOf(sessions, orders, cs[0])] + RowsOf(sessions, orders, cs[1..])
  }

  /** `attrib` with its Total Revenue column. */
  function Attrib(sessions: seq<Session>, orders: seq<Order>): (r: seq<AttribRow>)
    ensures forall i, j :: 0 <= i < j < |r| ==> Less(r[i].source, r[j].source)
    ensures forall c :: (exists i :: 0 <= i < |r| && r[i].source == c) <==> SourceOfBuyer(sessions, orders, c)
    ensures forall i :: 0 <= i < |r| ==> r[i] == RowOf(sessions, orders, r[i].source)
  {
    var cs := Credited(sessions, orders);
    var r := RowsOf(sessions, orders, cs);
    forall c | SourceOfBuyer(sessions, orders, c)
      ensures exists i :: 0 <= i < |r| && r[i].source == c
    {
      var i :| 0 <= i < |cs| && cs[i] == c;
      assert r[i].source == c;
    }
    r
  }

  function FirstTouchOf(r: AttribRow): real { r.firstTouch }
  function LastTouchOf(r: AttribRow): real { r.lastTouch }
  function LinearOf(r: AttribRow): real { r.linear }
  function TotalOf(r: AttribRow): real { r.total }

  lemma {:induction false} ColumnSums(sessions: seq<Session>, orders: seq<Order>, cs: seq<string>)
    ensures var rows := RowsOf(sessions, orders, cs);
      var pairs := Pairs(sessions, orders);
      && Sum(rows, FirstTouchOf) == SumOverKeys(orders, TouchKey(sessions, First), SomeKeys(cs), OrderPrice)
      && Sum(rows, LastTouchOf) == SumOverKeys(orders, TouchKey(sessions, Last), SomeKeys(cs), OrderPrice)
      && Sum(rows, LinearOf) == SumOverKeys(pairs, PairSource, SomeKeys(cs), RevShare(pairs))
      && Sum(rows, TotalOf) == Sum(rows, FirstTouchOf) + Sum(rows, LastTouchOf) + Sum(rows, LinearOf)
  {
    if cs != [] {
      ColumnSums(sessions, orders, cs[1..]);
      assert SomeKeys(cs)[1..] == SomeKeys(cs[1..]);
    }
  }

  /** Each model hands out all the revenue it can place: first and last
      touch every order whose user has a session with a source, linear every
      share of a session with a source.  The Total Revenue column adds the
      three. */
  lemma ModelsConserveRevenue(sessions: seq<Session>, orders: seq<Order>)
    ensures var rows := Attrib(sessions, orders);
      var pairs := Pairs(sessions, orders);
      && Sum(rows, FirstTouchOf)
         == Sum(orders, OrderPrice) - SumKey(orders, TouchKey(sessions, First), None, OrderPrice)
      && Sum(rows, LastTouchOf)
         == Sum(orders, OrderPrice) - SumKey(orders, TouchKey(sessions, Last), None, OrderPrice)
      && Sum(rows, LinearOf)
         == Sum(pairs, RevShare(pairs)) - SumKey(pairs, PairSource, None, RevShare(pairs))
      && Sum(rows, TotalOf) == Sum(rows, FirstTouchOf) + Sum(rows, LastTouchOf) + Sum(rows, LinearOf)
  {
    var cs := Credited(sessions, orders);
    var pairs := Pairs(sessions, orders);
    SortedIsDistinct(cs);
    GroupsAddUp(orders, TouchKey(sessions, First), cs, OrderPrice);
    GroupsAddUp(orders, TouchKey(sessions, Last), cs, OrderPrice);
    GroupsAddUp(pairs, PairSource, cs, RevShare(pairs));
    ColumnSums(sessions, orders, cs);
  }

  /** A source no model credits gets 0 from every model (`fillna(0)`). */
  lemma UncreditedSource(sessions: seq<Session>, orders: seq<Order>, c: string)
    requires c !in Credited(sessions, orders)
    ensures RowOf(sessions, orders, c) == AttribRow(c, 0.0, 0.0, 0.0, 0.0)
  {
    var pairs := Pairs(sessions, orders);
    KeyAbsent(orders, TouchKey(sessions, First), Some(c), OrderPrice);
    KeyAbsent(orders, TouchKey(sessions, Last), Some(c), OrderPrice);
    KeyAbsent(pairs, PairSource, Some(c), RevShare(pairs));
  }

  // ---------------------------------------------------------------------
  // Top source per model

  /** The first row with the largest value of a column: what the descending
      sort puts first (its order among ties is not modelled). */
  function TopIndex(rows: seq<AttribRow>, col: AttribRow -> real): (i: nat)
    requires rows != []
    ensures i < |rows|
    ensures forall j :: 0 <= j < |rows| ==> col(rows[j]) <= col(rows[i])
    ensures forall j :: 0 <= j < i ==> col(rows[j]) < col(rows[i])
  {
    if |rows| == 1 then 0
    else
      var k := TopIndex(rows[1..], col);
      assert forall j :: 1 <= j < |rows| ==> rows[j] == rows[1..][j - 1];
      if col(rows[0]) >= col(rows[k + 1]) then 0 else k + 1
  }
}
