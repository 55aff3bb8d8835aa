/** Channel Quality Metrics (pages/3_Channel_Quality_Metrics.py): the bounce
    flag of every session, and per source and month the session count, the
    bounce rate, the orders, revenue and average order value of the orders
    the month's sessions' sources received, and the conversion rate, both
    rates clipped to [0, 1]. */
module ChannelQuality {
  import opened Wrappers
  import opened Seqs
  import opened Tables
  import opened Agg
  import opened Groups
  import opened ChannelPerformance

  /** A (source, month) group. */
  type MonthKey = (string, Bucket)

  /** `is_bounce` of a session row: the pageviews are grouped by session id
      (a missing id is dropped), a session with exactly one is a bounce, and
      a session the grouping does not list gets 0. */
  function BounceFlag(pageviews: seq<Pageview>, s: Session): (b: nat)
    ensures b <= 1
    ensures b == 1 <==> s.id.Some? && PageviewCount(pageviews, s.id) == 1
  {
    if s.id.Some? && PageviewCount(pageviews, s.id) == 1 then 1 else 0
  }

  /** A session no pageview refers to is no bounce. */
  lemma UnviewedSessionNoBounce(pageviews: seq<Pageview>, s: Session)
    requires forall p :: p in pageviews ==> p.sessionId != s.id
    ensures BounceFlag(pageviews, s) == 0
  {
    KeyAbsent(pageviews, PvSession, s.id, (p: Pageview) => 0.0);
  }

  /** `bounces`: the flags of the group's session rows added up. */
  function Bounces(sessions: seq<Session>, pageviews: seq<Pageview>, k: MonthKey): (r: nat)
    ensures r <= CountKey(sessions, SessionMonth, Some(k))
    ensures (forall s :: s in sessions && SessionMonth(s) == Some(k) ==> s.id.None? || PageviewCount(pageviews, s.id) != 1) ==> r == 0
  {
    if sessions == [] then 0
    else (if SessionMonth(sessions[0]) == Some(k) then BounceFlag(pageviews, sessions[0]) else 0)
         + Bounces(sessions[1..], pageviews, k)
  }

  /** `clip(0, 1)`. */
  function Clip(x: real): (r: real)
    ensures 0.0 <= r <= 1.0
    ensures 0.0 <= x <= 1.0 ==> r == x
    ensures x > 1.0 ==> r == 1.0
  {
    if x < 0.0 then 0.0 else if x > 1.0 then 1.0 else x
  }

  /** The order ids of the merged order rows of a group. */
  function MonthOrderIds(merged: seq<Tagged<string>>, k: MonthKey): set<Id>
  {
    set x | x in merged && OrderMonth(x) == Some(k) :: x.order.id
  }

  datatype MonthRow = MonthRow(
    key: MonthKey,
    sessions: nat,
    bounces: nat,
    bounceRate: real,
    orders: nat,
    revenue: real,
    averageOrderValue: real,
    conversion: real)

  /** One row of `char_trends` for a group with sessions: the order columns
      are 0 when no order row has the group's source and month. */
  function MonthRowFor(sessions: seq<Session>, pageviews: seq<Pageview>, merged: seq<Tagged<string>>, k: MonthKey): (row: MonthRow)
    requires |GroupSessionIds(sessions, SessionMonth, k)| > 0
    ensures row.key == k && row.sessions == |GroupSessionIds(sessions, SessionMonth, k)|
    ensures row.bounces == Bounces(sessions, pageviews, k)
    ensures row.orders == |MonthOrderIds(merged, k)| && row.revenue == RevenueTrend(merged, k.0, k.1)
    ensures 0.0 <= row.bounceRate <= 1.0 && 0.0 <= row.conversion <= 1.0
    ensures row.bounces <= row.sessions ==> row.bounceRate == row.bounces as real / row.sessions as real
    ensures row.orders <= row.sessions ==> row.conversion == row.orders as real / row.sessions as real
    ensures row.orders > row.sessions ==> row.conversion == 1.0
    ensures OrdersTrend(merged, k.0, k.1) == 0 ==> row.averageOrderValue == 0.0
    ensures OrdersTrend(merged, k.0, k.1) > 0 ==>
      row.averageOrderValue == row.revenue / OrdersTrend(merged, k.0, k.1) as real
  {
    var n := |GroupSessionIds(sessions, SessionMonth, k)|;
    var b := Bounces(sessions, pageviews, k);
    var orders := |MonthOrderIds(merged, k)|;
    Share(b, n);
    Share(orders, n);
    var revenue := RevenueTrend(merged, k.0, k.1);
    var size := OrdersTrend(merged, k.0, k.1);
    MonthRow(k, n, b, Clip(b as real / n as real), orders, revenue,
             if size == 0 then 0.0 else revenue / size as real,
             Clip(orders as real / n as real))
  }

  /** `a / n` lies in [0, 1] when `a <= n` and above 1 otherwise. */
  lemma Share(a: nat, n: nat)
    requires n > 0
    ensures a <= n ==> 0.0 <= a as real / n as real <= 1.0
    ensures a > n ==> a as real / n as real > 1.0
  {
    var q := a as real / n as real;
    assert q * n as real == a as real;
  }

  /** The kept groups among `ks`, in order: `sess_month[sessions > 0]`. */
  function Kept(sessions: seq<Session>, pageviews: seq<Pageview>, merged: seq<Tagged<string>>, ks: seq<MonthKey>): (r: seq<MonthRow>)
    ensures forall row :: row in r ==>
      && row.key in ks
      && row.sessions > 0
      && 0.0 <= row.bounceRate <= 1.0
      && 0.0 <= row.conversion <= 1.0
  {
    if ks == [] then []
    else
      var rest := Kept(sessions, pageviews, merged, ks[1..]);
      if |GroupSessionIds(sessions, SessionMonth, ks[0])| > 0 then
        [MonthRowFor(sessions, pageviews, merged, ks[0])] + rest
      else rest
  }

  /** `char_trends` over the session groups of the page. */
  function CharTrends(sessions: seq<Session>, orders: seq<Order>, pageviews: seq<Pageview>): (r: seq<MonthRow>)
    ensures forall row :: row in r ==>
      && row.sessions > 0
      && 0.0 <= row.bounceRate <= 1.0
      && 0.0 <= row.conversion <= 1.0
  {
    Kept(sessions, pageviews, Merged(sessions, orders), KeysOf(sessions, SessionMonth))
  }

  lemma {:induction false} KeptExactly(sessions: seq<Session>, pageviews: seq<Pageview>, merged: seq<Tagged<string>>,
                                       ks: seq<MonthKey>, k: MonthKey)
    ensures (exists row :: row in Kept(sessions, pageviews, merged, ks) && row.key == k)
        <==> k in ks && |GroupSessionIds(sessions, SessionMonth, k)| > 0
    ensures k in ks && |GroupSessionIds(sessions, SessionMonth, k)| > 0 ==>
      MonthRowFor(sessions, pageviews, merged, k) in Kept(sessions, pageviews, merged, ks)
  {
    if ks != [] {
      KeptExactly(sessions, pageviews, merged, ks[1..], k);
      assert forall x :: x in ks <==> x == ks[0] || x in ks[1..];
      var r := Kept(sessions, pageviews, merged, ks);
      var rest := Kept(sessions, pageviews, merged, ks[1..]);
      if |GroupSessionIds(sessions, SessionMonth, ks[0])| > 0 {
        var row := MonthRowFor(sessions, pageviews, merged, ks[0]);
        assert row.key == ks[0];
        assert r == [row] + rest;
      } else {
        assert r == rest;
      }
    }
  }

  /** The rows are exactly the (source, month) groups with at least one
      session id, each once per group, as MonthRowFor computes it. */
  lemma CharTrendsGroups(sessions: seq<Session>, orders: seq<Order>, pageviews: seq<Pageview>, k: MonthKey)
    ensures (exists row :: row in CharTrends(sessions, orders, pageviews) && row.key == k)
        <==> |GroupSessionIds(sessions, SessionMonth, k)| > 0
    ensures |GroupSessionIds(sessions, SessionMonth, k)| > 0 ==>
      MonthRowFor(sessions, pageviews, Merged(sessions, orders), k) in CharTrends(sessions, orders, pageviews)
  {
    var ks := KeysOf(sessions, SessionMonth);
    KeptExactly(sessions, pageviews, Merged(sessions, orders), ks, k);
    if |GroupSessionIds(sessions, SessionMonth, k)| > 0 {
      var id :| id in GroupSessionIds(sessions, SessionMonth, k);
      assert k in ks;
    }
  }

  /** A group whose source received no order in its month has 0 orders,
      revenue, average order value and conversion rate. */
  lemma GroupWithoutOrders(sessions: seq<Session>, pageviews: seq<Pageview>, merged: seq<Tagged<string>>, k: MonthKey)
    requires |GroupSessionIds(sessions, SessionMonth, k)| > 0
    requires forall x :: x in merged ==> OrderMonth(x) != Some(k)
    ensures var row := MonthRowFor(sessions, pageviews, merged, k);
      row.orders == 0 && row.revenue == 0.0 && row.averageOrderValue == 0.0 && row.conversion == 0.0
  {
    KeyAbsent(merged, OrderMonth, Some(k), TagPrice);
    assert MonthOrderIds(merged, k) == {};
  }

  /** The session rows of a group that carry an id. */
  function IdRows(sessions: seq<Session>, k: MonthKey): nat
  {
    if sessions == [] then 0
    else (if SessionMonth(sessions[0]) == Some(k) && sessions[0].id.Some? then 1 else 0) + IdRows(sessions[1..], k)
  }

  /** Session ids are the table's key: no present id repeats. */
  predicate UniqueIds(sessions: seq<Session>)
  {
    forall i, j :: 0 <= i < j < |sessions| && sessions[i].id.Some? ==> sessions[i].id != sessions[j].id
  }

  lemma {:induction false} BouncesAtMostIdRows(sessions: seq<Session>, pageviews: seq<Pageview>, k: MonthKey)
    ensures Bounces(sessions, pageviews, k) <= IdRows(sessions, k)
  {
    if sessions != [] {
      BouncesAtMostIdRows(sessions[1..], pageviews, k);
    }
  }

  lemma {:induction false} IdRowsAreIds(sessions: seq<Session>, k: MonthKey)
    requires UniqueIds(sessions)
    ensures IdRows(sessions, k) == |GroupSessionIds(sessions, SessionMonth, k)|
  {
    if sessions != [] {
      var s := sessions[0];
      var rest := sessions[1..];
      assert UniqueIds(rest) by {
        forall i, j | 0 <= i < j < |rest| && rest[i].id.Some?
          ensures rest[i].id != rest[j].id
        {
          assert rest[i] == sessions[i + 1] && rest[j] == sessions[j + 1];
        }
      }
      IdRowsAreIds(rest, k);
      var g := GroupSessionIds(sessions, SessionMonth, k);
      var h := GroupSessionIds(rest, SessionMonth, k);
      assert forall x :: x in sessions <==> x == s || x in rest;
      if SessionMonth(s) == Some(k) && s.id.Some? {
        FirstIdFresh(sessions, k);
        assert g == {s.id.value} + h;
      } else {
        assert g == h;
      }
    }
  }

  lemma FirstIdFresh(sessions: seq<Session>, k: MonthKey)
    requires UniqueIds(sessions) && sessions != [] && sessions[0].id.Some?
    ensures sessions[0].id.value !in GroupSessionIds(sessions[1..], SessionMonth, k)
  {
    forall x | x in sessions[1..] && x.id.Some?
      ensures x.id != sessions[0].id
    {
      var j :| 0 <= j < |sessions[1..]| && sessions[1..][j] == x;
      assert sessions[j + 1] == x;
    }
  }

  /** With unique session ids a group has no more bounces than sessions,
      so the clip leaves the bounce rate alone. */
  lemma BounceRateUnclipped(sessions: seq<Session>, pageviews: seq<Pageview>, merged: seq<Tagged<string>>, k: MonthKey)
    requires UniqueIds(sessions)
    requires |GroupSessionIds(sessions, SessionMonth, k)| > 0
    ensures var row := MonthRowFor(sessions, pageviews, merged, k);
      row.bounces <= row.sessions && row.bounceRate == row.bounces as real / row.sessions as real
  {
    BouncesAtMostIdRows(sessions, pageviews, k);
    IdRowsAreIds(sessions, k);
    var row := MonthRowFor(sessions, pageviews, merged, k);
    UnitFraction(row.bounces, row.sessions);
  }

  /** A group with no more orders than sessions keeps its conversion rate
      unclipped. */
  lemma ConversionUnclipped(sessions: seq<Session>, pageviews: seq<Pageview>, merged: seq<Tagged<string>>, k: MonthKey)
    requires |GroupSessionIds(sessions, SessionMonth, k)| > 0
    requires |MonthOrderIds(merged, k)| <= |GroupSessionIds(sessions, SessionMonth, k)|
    ensures var row := MonthRowFor(sessions, pageviews, merged, k);
      row.conversion == row.orders as real / row.sessions as real
  {
    var row := MonthRowFor(sessions, pageviews, merged, k);
    UnitFraction(row.orders, row.sessions);
  }

  lemma UnitFraction(a: nat, b: nat)
    requires 0 < b && a <= b
    ensures 0.0 <= a as real / b as real <= 1.0
  {
  }
}
