/** Channel Performance & Trends (pages/2_Channel_Performance_and_Trends.py):
    the per-source portfolio (sessions, orders, revenue, conversion rate and
    average order value), its totals row, and the monthly trends per source. */
module ChannelPerformance {
  import opened Wrappers
  import opened Seqs
  import opened Tables
  import opened Agg
  import opened Groups

  /** The grouping column of the page. */
  function Source(s: Session): Option<string> { s.utmSource }

  /** The present `utm_source` values of the sessions, in table order. */
  function Sources(sessions: seq<Session>): (r: seq<string>)
    ensures forall c :: c in r <==> exists s :: s in sessions && s.utmSource == Some(c)
  {
    if sessions == [] then []
    else
      assert forall s :: s in sessions <==> s == sessions[0] || s in sessions[1..];
      (if sessions[0].utmSource.Some? then [sessions[0].utmSource.value] else []) + Sources(sessions[1..])
  }

  /** The portfolio's rows: groupby drops a missing source and sorts the
      rest; the outer merge adds none, since every order's source comes from
      a session. */
  function Channels(sessions: seq<Session>): (r: seq<string>)
    ensures StrictlySorted(r)
    ensures forall c :: c in r <==> exists s :: s in sessions && s.utmSource == Some(c)
  {
    SortedDistinct(Sources(sessions))
  }

  /** `orders.merge(sessions[["website_session_id","utm_source"]], how="left")`. */
  function Merged(sessions: seq<Session>, orders: seq<Order>): seq<Tagged<string>>
  {
    LeftMerge(orders, sessions, Source)
  }

  datatype ChannelRow = ChannelRow(
    source: string,
    sessions: nat,              // nunique session ids
    orders: nat,                // nunique order ids, 0 after fillna
    revenue: real,              // sum of prices, 0 after fillna
    conversion: Option<real>,   // orders / sessions
    averageOrderValue: Option<real>)  // revenue / orders, overwritten below the charts

  /** One channel's row: distinct sessions and orders, the revenue, orders
      per session and revenue per order. */
  function RowFor(sessions: seq<Session>, merged: seq<Tagged<string>>, c: string): (r: ChannelRow)
    ensures r.source == c
    ensures r.sessions == |GroupSessionIds(sessions, Source, c)| && r.orders == |GroupOrderIds(merged, c)|
    ensures r.revenue == GroupRevenue(merged, c)
    ensures r.conversion.None? <==> r.sessions == 0
    ensures r.conversion.Some? ==> r.conversion.value == r.orders as real / r.sessions as real
    ensures r.averageOrderValue.None? <==> r.orders == 0
    ensures r.averageOrderValue.Some? ==> r.averageOrderValue.value * r.orders as real == r.revenue
  {
    var n := |GroupSessionIds(sessions, Source, c)|;
    var k := |GroupOrderIds(merged, c)|;
    var revenue := GroupRevenue(merged, c);
    // `revenue / orders`, NaN (0/0) for a channel without orders
    ChannelRow(c, n, k, revenue, Ratio(k, n), PerSession(revenue, k))
  }

  function Rows(sessions: seq<Session>, merged: seq<Tagged<string>>, cs: seq<string>): (r: seq<ChannelRow>)
    ensures |r| == |cs|
    ensures forall i :: 0 <= i < |r| ==> r[i].source == cs[i]
  {
    if cs == [] then [] else [RowFor(sessions, merged, cs[0])] + Rows(sessions, merged, cs[1..])
  }

  lemma {:induction false} RowsAt(sessions: seq<Session>, merged: seq<Tagged<string>>, cs: seq<string>, i: nat)
    requires i < |cs|
    ensures Rows(sessions, merged, cs)[i] == RowFor(sessions, merged, cs[i])
  {
    if i > 0 {
      RowsAt(sessions, merged, cs[1..], i - 1);
    }
  }

  /** `portfolio`: one row per channel, in sorted order. */
  function Portfolio(sessions: seq<Session>, orders: seq<Order>): (r: seq<ChannelRow>)
    ensures |r| == |Channels(sessions)|
    ensures forall i, j :: 0 <= i < j < |r| ==> Less(r[i].source, r[j].source)
    ensures forall c :: (exists i :: 0 <= i < |r| && r[i].source == c) <==>
      exists s :: s in sessions && s.utmSource == Some(c)
  {
    var cs := Channels(sessions);
    var r := Rows(sessions, Merged(sessions, orders), cs);
    RowSources(r, cs);
    r
  }

  /** Rows listing `cs` in order list exactly the channels of `cs`. */
  lemma RowSources(r: seq<ChannelRow>, cs: seq<string>)
    requires |r| == |cs| && forall i :: 0 <= i < |r| ==> r[i].source == cs[i]
    ensures forall c :: (exists i :: 0 <= i < |r| && r[i].source == c) <==> c in cs
  {
    forall c | c in cs ensures exists i :: 0 <= i < |r| && r[i].source == c {
      var i :| 0 <= i < |cs| && cs[i] == c;
      assert r[i].source == c;
    }
  }

  lemma PortfolioAt(sessions: seq<Session>, orders: seq<Order>, i: nat)
    requires i < |Portfolio(sessions, orders)|
    ensures Portfolio(sessions, orders)[i] == RowFor(sessions, Merged(sessions, orders), Channels(sessions)[i])
  {
    RowsAt(sessions, Merged(sessions, orders), Channels(sessions), i);
  }

  /** What a portfolio row holds: the distinct session ids of its channel,
      the distinct order ids and the summed prices of the order rows the
      merge tagged with it, and the two ratios, each missing exactly when its
      denominator is 0. */
  lemma RowMeaning(sessions: seq<Session>, merged: seq<Tagged<string>>, c: string)
    ensures var row := RowFor(sessions, merged, c);
      && row.source == c
      && row.sessions == |GroupSessionIds(sessions, Source, c)|
      && row.orders == |GroupOrderIds(merged, c)|
      && row.revenue == GroupRevenue(merged, c)
      && (row.conversion.None? <==> row.sessions == 0)
      && (row.conversion.Some? ==> row.conversion.value * row.sessions as real == row.orders as real)
      && (row.averageOrderValue.None? <==> row.orders == 0)
      && (row.averageOrderValue.Some? ==> row.averageOrderValue.value * row.orders as real == row.revenue)
  {
  }

  /** The outer merge fills a channel no order reached with 0 orders and 0
      revenue; its average order value is then missing. */
  lemma ChannelWithoutOrders(sessions: seq<Session>, orders: seq<Order>, i: nat)
    requires i < |Portfolio(sessions, orders)|
    requires forall o, s :: o in orders && s in sessions && s.id == o.sessionId ==>
      s.utmSource != Some(Portfolio(sessions, orders)[i].source)
    ensures Portfolio(sessions, orders)[i].orders == 0
    ensures Portfolio(sessions, orders)[i].revenue == 0.0
    ensures Portfolio(sessions, orders)[i].averageOrderValue.None?
  {
    var c := Portfolio(sessions, orders)[i].source;
    PortfolioAt(sessions, orders, i);
    RowMeaning(sessions, Merged(sessions, orders), c);
    UnreachedGroup(orders, sessions, Source, c);
  }

  /** A channel whose sessions all carry an id has at least one session. */
  lemma ChannelHasSessions(sessions: seq<Session>, orders: seq<Order>, i: nat)
    requires i < |Portfolio(sessions, orders)|
    requires forall s :: s in sessions ==> s.id.Some?
    ensures Portfolio(sessions, orders)[i].sessions >= 1
    ensures Portfolio(sessions, orders)[i].conversion.Some?
  {
    var c := Portfolio(sessions, orders)[i].source;
    PortfolioAt(sessions, orders, i);
    RowMeaning(sessions, Merged(sessions, orders), c);
    var s :| s in sessions && s.utmSource == Some(c);
    assert s.id.value in GroupSessionIds(sessions, Source, c);
  }

  // ---------------------------------------------------------------------
  // The totals row of the comparison table

  datatype TotalRow = TotalRow(
    sessions: nat,
    orders: nat,
    conversion: Option<real>,        // mean of the rates, NaN skipped
    revenue: real,
    averageOrderValue: Option<real>) // mean of the averages, NaN skipped

  function RowSessions(r: ChannelRow): nat { r.sessions }
  function RowOrders(r: ChannelRow): nat { r.orders }
  function RowRevenue(r: ChannelRow): real { r.revenue }

  function SumNat<T>(s: seq<T>, f: T -> nat): nat
  {
    if s == [] then 0 else f(s[0]) + SumNat(s[1..], f)
  }

  function Conversions(rows: seq<ChannelRow>): (r: seq<Option<real>>)
    ensures |r| == |rows| && forall i :: 0 <= i < |rows| ==> r[i] == rows[i].conversion
  {
    if rows == [] then [] else [rows[0].conversion] + Conversions(rows[1..])
  }

  function AverageOrderValues(rows: seq<ChannelRow>): (r: seq<Option<real>>)
    ensures |r| == |rows| && forall i :: 0 <= i < |rows| ==> r[i] == rows[i].averageOrderValue
  {
    if rows == [] then [] else [rows[0].averageOrderValue] + AverageOrderValues(rows[1..])
  }

  /** `total_row`: sums for the counts and the revenue, plain means (not
      weighted by sessions or orders) for the two ratios. */
  function Totals(rows: seq<ChannelRow>): (t: TotalRow)
    ensures t.sessions == SumNat(rows, RowSessions) && t.orders == SumNat(rows, RowOrders)
    ensures t.revenue == Sum(rows, RowRevenue)
    ensures t.conversion.None? <==> forall i :: 0 <= i < |rows| ==> rows[i].conversion.None?
    ensures t.conversion.Some? ==>
      t.conversion.value == SumPresent(Conversions(rows)) / CountPresent(Conversions(rows)) as real
    ensures t.averageOrderValue.None? <==> forall i :: 0 <= i < |rows| ==> rows[i].averageOrderValue.None?
    ensures t.averageOrderValue.Some? ==>
      t.averageOrderValue.value == SumPresent(AverageOrderValues(rows)) / CountPresent(AverageOrderValues(rows)) as real
  {
    TotalRow(SumNat(rows, RowSessions), SumNat(rows, RowOrders), MeanPresent(Conversions(rows)),
             Sum(rows, RowRevenue), MeanPresent(AverageOrderValues(rows)))
  }

  lemma {:induction false} RowsRevenue(sessions: seq<Session>, merged: seq<Tagged<string>>, cs: seq<string>)
    ensures Sum(Rows(sessions, merged, cs), RowRevenue) == SumOverKeys(merged, TagKey, SomeKeys(cs), TagPrice)
  {
    if cs != [] {
      RowsRevenue(sessions, merged, cs[1..]);
      assert SomeKeys(cs)[1..] == SomeKeys(cs[1..]);
    }
  }

  /** The totals row's revenue is the revenue of every order whose session
      has a source: only orders the merge left without one are missing. */
  lemma TotalRevenue(sessions: seq<Session>, orders: seq<Order>)
    ensures Totals(Portfolio(sessions, orders)).revenue
         == Sum(Merged(sessions, orders), TagPrice) - SumKey(Merged(sessions, orders), TagKey, None, TagPrice)
  {
    var cs := Channels(sessions);
    var merged := Merged(sessions, orders);
    SortedIsDistinct(cs);
    forall x | x in merged && TagKey(x).Some?
      ensures TagKey(x).value in cs
    {
      MergedKeysFromSessions(orders, sessions, Source, x.key.value);
    }
    GroupsAddUp(merged, TagKey, cs, TagPrice);
    RowsRevenue(sessions, merged, cs);
    assert Portfolio(sessions, orders) == Rows(sessions, merged, cs);
  }

  /** The mean of the per-channel rates is not the pooled rate: with one
      channel converting 1 of 1 sessions and another 0 of 3, the table shows
      50% where orders over sessions is 25%. */
  lemma MeanRateIsNotPooledRate()
    ensures var rows := [ChannelRow("a", 1, 1, 10.0, Ratio(1, 1), PerSession(10.0, 1)),
                         ChannelRow("b", 3, 0, 0.0, Ratio(0, 3), PerSession(0.0, 0))];
      var t := Totals(rows);
      && t.conversion == Some(0.5)
      && Ratio(t.orders, t.sessions) == Some(0.25)
  {
    var rows := [ChannelRow("a", 1, 1, 10.0, Ratio(1, 1), PerSession(10.0, 1)),
                 ChannelRow("b", 3, 0, 0.0, Ratio(0, 3), PerSession(0.0, 0))];
    assert Conversions(rows) == [Some(1.0), Some(0.0)];
    assert SumNat(rows, RowSessions) == 4;
    assert SumNat(rows, RowOrders) == 1;
  }

  /** The mean average order value lies between the smallest and largest
      per-channel averages. */
  lemma TotalAverageWithinChannels(rows: seq<ChannelRow>, lo: real, hi: real)
    requires forall i :: 0 <= i < |rows| && rows[i].averageOrderValue.Some? ==>
      lo <= rows[i].averageOrderValue.value <= hi
    ensures Totals(rows).averageOrderValue.Some? ==> lo <= Totals(rows).averageOrderValue.value <= hi
    ensures Totals(rows).averageOrderValue.None? <==> forall i :: 0 <= i < |rows| ==> rows[i].averageOrderValue.None?
  {
    MeanWithinBounds(AverageOrderValues(rows), lo, hi);
  }

  // ---------------------------------------------------------------------
  // Trends Over Time

  /** The first day of a stamp's month (`to_period("M").to_timestamp()`). */
  function Month(t: Stamp): Bucket
  {
    BucketOf(t, "Monthly")
  }

  /** The (source, month) group of a session; missing when either is. */
  function SessionMonth(s: Session): Option<(string, Bucket)>
  {
    if s.utmSource.Some? && s.createdAt.Some? then Some((s.utmSource.value, Month(s.createdAt.value))) else None
  }

  /** The (source, month) group of a merged order row: the source of its
      session and the month of the order itself. */
  function OrderMonth(x: Tagged<string>): Option<(string, Bucket)>
  {
    if x.key.Some? && x.order.createdAt.Some? then Some((x.key.value, Month(x.order.createdAt.value))) else None
  }

  /** `sess_trend`: session rows per source and month (`size()`). */
  function SessionsTrend(sessions: seq<Session>, c: string, m: Bucket): nat
  {
    CountKey(sessions, SessionMonth, Some((c, m)))
  }

  /** `ord_trend`: merged order rows per source and month (`size()`). */
  function OrdersTrend(merged: seq<Tagged<string>>, c: string, m: Bucket): (r: nat)
    ensures r == 0 <==> forall x :: x in merged ==> OrderMonth(x) != Some((c, m))
  {
    CountKeyZero(merged, OrderMonth, Some((c, m)));
    CountKey(merged, OrderMonth, Some((c, m)))
  }

  /** `rev_trend`: merged order prices summed per source and month. */
  function RevenueTrend(merged: seq<Tagged<string>>, c: string, m: Bucket): (r: real)
    ensures (forall x :: x in merged ==> OrderMonth(x) != Some((c, m))) ==> r == 0.0
    ensures (forall x :: x in merged ==> x.order.price >= 0.0) ==> r >= 0.0
  {
    assert (forall x :: x in merged ==> OrderMonth(x) != Some((c, m))) ==> SumKey(merged, OrderMonth, Some((c, m)), TagPrice) == 0.0 by {
      if forall x :: x in merged ==> OrderMonth(x) != Some((c, m)) {
        KeyAbsent(merged, OrderMonth, Some((c, m)), TagPrice);
      }
    }
    assert (forall x :: x in merged ==> x.order.price >= 0.0) ==> SumKey(merged, OrderMonth, Some((c, m)), TagPrice) >= 0.0 by {
      if forall x :: x in merged ==> x.order.price >= 0.0 {
        SumKeyNonNegative(merged, OrderMonth, Some((c, m)), TagPrice);
      }
    }
    SumKey(merged, OrderMonth, Some((c, m)), TagPrice)
  }

  /** A month bucket is the first day of the stamp's month. */
  lemma MonthIsFirstDay(t: Stamp)
    requires t.Valid()
    ensures Month(t).DayBucket?
    ensures Month(t).day == t.Day() - (t.dayOfMonth - 1)
  {
  }

  /** A session outside the group contributes nothing to it: the trend of a
      group is the number of sessions of that source in that month. */
  lemma {:induction false} SessionsTrendCounts(sessions: seq<Session>, c: string, m: Bucket)
    ensures SessionsTrend(sessions, c, m)
         == |Where(sessions, (s: Session) => s.utmSource == Some(c) && s.createdAt.Some? && Month(s.createdAt.value) == m)|
  {
    if sessions != [] {
      SessionsTrendCounts(sessions[1..], c, m);
    }
  }
}
