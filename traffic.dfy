/** The Traffic & Acquisition page (pages/1_Traffic_and_Acquisition.py): the
    repeat-session rate, the campaign classification and the per-type
    summary read through safe_value, and the every-third-month labels of the
    seasonality charts. */
module Traffic {
  import opened Wrappers
  import opened Seqs
  import opened Tables
  import opened Agg
  import Db
  import Formatters

  // ---------------------------------------------------------------------
  // Repeat-session rate

  /** `(is_repeat_session == True).sum() / len(sessions)`, or None without
      sessions; a missing flag is not True. */
  function RepeatSessionRate(sessions: seq<Session>): (r: Option<real>)
    ensures r.None? <==> sessions == []
    ensures r.Some? ==> 0.0 <= r.value <= 1.0
    ensures r.Some? ==> r.value == |Where(sessions, IsRepeatSession)| as real / |sessions| as real
  {
    Ratio(|Where(sessions, IsRepeatSession)|, |sessions|)
  }

  lemma {:induction false} WhereFull<T(!new)>(s: seq<T>, p: T -> bool)
    ensures |Where(s, p)| == |s| <==> forall x :: x in s ==> p(x)
  {
    if s != [] {
      WhereFull(s[1..], p);
      assert forall x :: x in s <==> x == s[0] || x in s[1..];
    }
  }

  /** The rate is one exactly when every session is flagged as a repeat. */
  lemma RepeatRateOne(sessions: seq<Session>)
    requires sessions != []
    ensures RepeatSessionRate(sessions) == Some(1.0) <==> forall s :: s in sessions ==> IsRepeatSession(s)
  {
    WhereFull(sessions, IsRepeatSession);
    UnitQuotient(|Where(sessions, IsRepeatSession)| as real, |sessions| as real);
  }

  lemma UnitQuotient(k: real, n: real)
    requires n > 0.0
    ensures k / n == 1.0 <==> k == n
  {
    if k / n == 1.0 {
      assert k == (k / n) * n;
    }
  }

  // ---------------------------------------------------------------------
  // classify_campaign

  datatype TrafficType = BroadNonbrand | DirectBrand | OtherTraffic

  /** The group labels; `groupby` orders the groups by them. */
  function TypeLabel(t: TrafficType): string
  {
    match t
    case BroadNonbrand => "Broad/Nonbrand"
    case DirectBrand => "Direct/Brand"
    case OtherTraffic => "Other"
  }

  const TypesInLabelOrder: seq<TrafficType> := [BroadNonbrand, DirectBrand, OtherTraffic]

  /** classify_campaign as written: a missing campaign is Other; "brand" or
      "direct" is tested first, then "nonbrand" or "broad", on the lower-cased
      campaign. */
  function ClassifyCampaign(camp: Option<string>): (r: TrafficType)
    ensures camp.None? ==> r == OtherTraffic
    ensures camp.Some? ==>
      var c := Db.Lower(camp.value);
      && (r == DirectBrand <==> Contains(c, "brand") || Contains(c, "direct"))
      && (r == BroadNonbrand <==> !Contains(c, "brand") && !Contains(c, "direct")
                                  && (Contains(c, "nonbrand") || Contains(c, "broad")))
  {
    if camp.None? then OtherTraffic
    else
      var c := Db.Lower(camp.value);
      if Contains(c, "brand") || Contains(c, "direct") then DirectBrand
      else if Contains(c, "nonbrand") || Contains(c, "broad") then BroadNonbrand
      else OtherTraffic
  }

  /** Every string holding "nonbrand" holds "brand". */
  lemma NonbrandHoldsBrand(c: string)
    requires Contains(c, "nonbrand")
    ensures Contains(c, "brand")
  {
    var i :| 0 <= i <= |c| - 8 && Occurs(c, "nonbrand", i);
    assert c[i + 3..i + 8] == c[i..i + 8][3..8];
    assert "nonbrand"[3..8] == "brand";
    assert Occurs(c, "brand", i + 3);
  }

  /** So the "nonbrand" test is never reached with a match: a nonbrand
      campaign is classified Direct/Brand. */
  lemma NonbrandIsDirect(camp: string)
    requires Contains(Db.Lower(camp), "nonbrand")
    ensures ClassifyCampaign(Some(camp)) == DirectBrand
  {
    NonbrandHoldsBrand(Db.Lower(camp));
  }

  /** The evidently intended classification: "nonbrand" is recognised
      before "brand" can swallow it. */
  function ClassifyCampaignIntended(camp: Option<string>): (r: TrafficType)
    ensures camp.None? ==> r == OtherTraffic
    ensures camp.Some? ==>
      var c := Db.Lower(camp.value);
      && (r == BroadNonbrand <==> Contains(c, "nonbrand")
                                  || (!Contains(c, "brand") && !Contains(c, "direct") && Contains(c, "broad")))
      && (r == DirectBrand <==> !Contains(c, "nonbrand") && (Contains(c, "brand") || Contains(c, "direct")))
  {
    if camp.None? then OtherTraffic
    else
      var c := Db.Lower(camp.value);
      if Contains(c, "nonbrand") then BroadNonbrand
      else if Contains(c, "brand") || Contains(c, "direct") then DirectBrand
      else if Contains(c, "broad") then BroadNonbrand
      else OtherTraffic
  }

  /** The intended classification sends nonbrand campaigns to
      Broad/Nonbrand and agrees with the written one on every campaign that
      does not mention "nonbrand". */
  lemma IntendedClassification(camp: Option<string>)
    ensures camp.Some? && Contains(Db.Lower(camp.value), "nonbrand") ==> ClassifyCampaignIntended(camp) == BroadNonbrand
    ensures (camp.None? || !Contains(Db.Lower(camp.value), "nonbrand")) ==>
      ClassifyCampaignIntended(camp) == ClassifyCampaign(camp)
  {
  }

  // ---------------------------------------------------------------------
  // The per-type summary

  /** One row of `traffic_summary`. */
  datatype TypeSummary = TypeSummary(trafficType: TrafficType, sessions: nat, orders: nat, revenue: real,
                                     conversion: Option<real>)

  /** `website_session_id.nunique()` over the sessions of a type. */
  function TypeSessionIds(sessions: seq<Session>, classify: Option<string> -> TrafficType, t: TrafficType): set<Id>
  {
    set s | s in sessions && classify(s.utmCampaign) == t && s.id.Some? :: s.id.value
  }

  /** An order row of the left merge with the typed sessions. */
  datatype TypedOrder = TypedOrder(order: Order, trafficType: Option<TrafficType>)

  function OrderOf(r: TypedOrder): Order { r.order }

  function RowType(r: TypedOrder): Option<TrafficType> { r.trafficType }

  function RowPrice(r: TypedOrder): real { r.order.price }

  /** The types of the sessions an order's session id matches, in the
      session table's order (a missing id matches a missing id). */
  function MatchedTypes(o: Order, sessions: seq<Session>, classify: Option<string> -> TrafficType): (r: seq<TrafficType>)
    ensures forall t :: t in r <==> exists s :: s in sessions && s.id == o.sessionId && classify(s.utmCampaign) == t
  {
    if sessions == [] then []
    else
      assert forall s :: s in sessions <==> s == sessions[0] || s in sessions[1..];
      (if sessions[0].id == o.sessionId then [classify(sessions[0].utmCampaign)] else [])
        + MatchedTypes(o, sessions[1..], classify)
  }

  function Typed(o: Order, ts: seq<TrafficType>): (r: seq<TypedOrder>)
    ensures |r| == |ts|
    ensures forall x :: x in r <==> exists t :: t in ts && x == TypedOrder(o, Some(t))
  {
    if ts == [] then []
    else
      assert forall t :: t in ts <==> t == ts[0] || t in ts[1..];
      [TypedOrder(o, Some(ts[0]))] + Typed(o, ts[1..])
  }

  /** `orders.merge(sessions[[id, traffic_type]], how="left")`: one row per
      matching session, or one untyped row when no session matches. */
  function OrdersTyped(orders: seq<Order>, sessions: seq<Session>, classify: Option<string> -> TrafficType): (r: seq<TypedOrder>)
    ensures forall x :: x in r && x.trafficType.Some? ==>
      x.order in orders && exists s :: s in sessions && s.id == x.order.sessionId && classify(s.utmCampaign) == x.trafficType.value
    ensures forall o, s :: o in orders && s in sessions && s.id == o.sessionId ==>
      TypedOrder(o, Some(classify(s.utmCampaign))) in r
  {
    if orders == [] then []
    else
      var o := orders[0];
      var ts := MatchedTypes(o, sessions, classify);
      var here := if ts == [] then [TypedOrder(o, None)] else Typed(o, ts);
      assert forall s :: s in sessions && s.id == o.sessionId ==> TypedOrder(o, Some(classify(s.utmCampaign))) in here by {
        forall s | s in sessions && s.id == o.sessionId
          ensures TypedOrder(o, Some(classify(s.utmCampaign))) in here
        {
          assert classify(s.utmCampaign) in ts;
        }
      }
      assert forall x :: x in here && x.trafficType.Some? ==>
        x.order == o && exists s :: s in sessions && s.id == o.sessionId && classify(s.utmCampaign) == x.trafficType.value;
      assert forall x :: x in orders <==> x == o || x in orders[1..];
      here + OrdersTyped(orders[1..], sessions, classify)
  }

  function TypeOrderIds(rows: seq<TypedOrder>, t: TrafficType): set<Id>
  {
    set x | x in rows && x.trafficType == Some(t) :: x.order.id
  }

  /** Some session of type `t` carries the order's session id. */
  predicate Reaches(o: Order, sessions: seq<Session>, classify: Option<string> -> TrafficType, t: TrafficType)
  {
    exists s :: s in sessions && s.id == o.sessionId && classify(s.utmCampaign) == t
  }

  /** The distinct ids of the orders whose session is of type `t`. */
  function ReachedOrderIds(sessions: seq<Session>, orders: seq<Order>, classify: Option<string> -> TrafficType,
                           t: TrafficType): set<Id>
  {
    set o | o in orders && Reaches(o, sessions, classify, t) :: o.id
  }

  /** The typed rows of a type carry exactly the orders whose session has
      that type. */
  lemma TypeOrderIdsReached(sessions: seq<Session>, orders: seq<Order>, classify: Option<string> -> TrafficType,
                            t: TrafficType)
    ensures TypeOrderIds(OrdersTyped(orders, sessions, classify), t) == ReachedOrderIds(sessions, orders, classify, t)
  {
    var rows := OrdersTyped(orders, sessions, classify);
    forall id | id in ReachedOrderIds(sessions, orders, classify, t)
      ensures id in TypeOrderIds(rows, t)
    {
      var o :| o in orders && Reaches(o, sessions, classify, t) && o.id == id;
      var s :| s in sessions && s.id == o.sessionId && classify(s.utmCampaign) == t;
      assert TypedOrder(o, Some(classify(s.utmCampaign))) in rows;
    }
  }

  /** One group of the summary after the left merge and `fillna(0)`: the
      sessions and orders of the type are counted once each, and the revenue
      sums the price of every typed row of the type. */
  function SummaryFor(sessions: seq<Session>, orders: seq<Order>, classify: Option<string> -> TrafficType,
                      t: TrafficType): (r: TypeSummary)
    ensures r.trafficType == t
    ensures r.sessions == |TypeSessionIds(sessions, classify, t)|
    ensures r.orders == |ReachedOrderIds(sessions, orders, classify, t)|
    ensures r.revenue == SumKey(OrdersTyped(orders, sessions, classify), RowType, Some(t), RowPrice)
  {
    TypeOrderIdsReached(sessions, orders, classify, t);
    var rows := OrdersTyped(orders, sessions, classify);
    var n := |TypeSessionIds(sessions, classify, t)|;
    var k := |TypeOrderIds(rows, t)|;
    TypeSummary(t, n, k, SumKey(rows, RowType, Some(t), RowPrice),
                if n == 0 then None else Some(k as real / n as real))
  }

  /** conversion = distinct orders / distinct sessions of the type, and a
      type no order reaches has orders and revenue filled to zero. */
  lemma SummaryMeaning(sessions: seq<Session>, orders: seq<Order>, classify: Option<string> -> TrafficType, t: TrafficType)
    ensures var r := SummaryFor(sessions, orders, classify, t);
      && (r.sessions > 0 ==> r.conversion == Some(r.orders as real / r.sessions as real))
      && ((forall o, s :: o in orders && s in sessions && s.id == o.sessionId ==> classify(s.utmCampaign) != t) ==>
            r.orders == 0 && r.revenue == 0.0)
  {
    var rows := OrdersTyped(orders, sessions, classify);
    if forall o, s :: o in orders && s in sessions && s.id == o.sessionId ==> classify(s.utmCampaign) != t {
      forall x | x in rows
        ensures x.trafficType != Some(t)
      {
      }
      assert TypeOrderIds(rows, t) == {};
      NoRowsOfType(rows, t);
    }
  }

  lemma {:induction false} NoRowsOfType(rows: seq<TypedOrder>, t: TrafficType)
    requires forall x :: x in rows ==> x.trafficType != Some(t)
    ensures SumKey(rows, RowType, Some(t), RowPrice) == 0.0
  {
    if rows != [] {
      assert rows[0] in rows;
      assert forall x :: x in rows[1..] ==> x in rows;
      NoRowsOfType(rows[1..], t);
    }
  }

  /** The types that some session has, in label order. */
  function PresentTypes(ts: seq<TrafficType>, sessions: seq<Session>, classify: Option<string> -> TrafficType): (r: seq<TrafficType>)
    ensures forall t :: t in r <==> t in ts && exists s :: s in sessions && classify(s.utmCampaign) == t
    ensures |r| <= |ts|
  {
    if ts == [] then []
    else
      assert forall t :: t in ts <==> t == ts[0] || t in ts[1..];
      (if exists s :: s in sessions && classify(s.utmCampaign) == ts[0] then [ts[0]] else [])
        + PresentTypes(ts[1..], sessions, classify)
  }

  function Summaries(ts: seq<TrafficType>, sessions: seq<Session>, orders: seq<Order>,
                     classify: Option<string> -> TrafficType): (r: seq<TypeSummary>)
    ensures |r| == |ts|
    ensures forall i :: 0 <= i < |ts| ==> r[i] == SummaryFor(sessions, orders, classify, ts[i])
  {
    if ts == [] then [] else [SummaryFor(sessions, orders, classify, ts[0])] + Summaries(ts[1..], sessions, orders, classify)
  }

  /** `traffic_summary`: one row per type some session has, in label order. */
  function TrafficSummary(sessions: seq<Session>, orders: seq<Order>, classify: Option<string> -> TrafficType): (r: seq<TypeSummary>)
    ensures forall i :: 0 <= i < |r| ==> r[i] == SummaryFor(sessions, orders, classify, r[i].trafficType)
    ensures forall i :: 0 <= i < |r| ==> exists s :: s in sessions && classify(s.utmCampaign) == r[i].trafficType
  {
    var present := PresentTypes(TypesInLabelOrder, sessions, classify);
    var r := Summaries(present, sessions, orders, classify);
    assert forall i :: 0 <= i < |r| ==> r[i].trafficType == present[i] && present[i] in present;
    r
  }

  /** Row `i` is the first row of type `t`. */
  predicate FirstOfType(rows: seq<TypeSummary>, t: TrafficType, i: int)
  {
    0 <= i < |rows| && rows[i].trafficType == t && forall j :: 0 <= j < i ==> rows[j].trafficType != t
  }

  /** safe_value: the column of the first row of the type, or the default
      when no row has the type. */
  function SafeValue<V>(rows: seq<TypeSummary>, t: TrafficType, column: TypeSummary -> V, default: V): (r: V)
    ensures (forall i :: 0 <= i < |rows| ==> rows[i].trafficType != t) ==> r == default
    ensures forall i :: FirstOfType(rows, t, i) ==> r == column(rows[i])
  {
    if rows == [] then default
    else if rows[0].trafficType == t then
      assert forall i :: FirstOfType(rows, t, i) ==> i == 0;
      column(rows[0])
    else
      var tail := rows[1..];
      assert forall i :: FirstOfType(rows, t, i) ==> FirstOfType(tail, t, i - 1) && rows[i] == tail[i - 1] by {
        forall i | FirstOfType(rows, t, i)
          ensures FirstOfType(tail, t, i - 1) && rows[i] == tail[i - 1]
        {
          assert i > 0;
          forall j | 0 <= j < i - 1 ensures tail[j].trafficType != t {
            assert tail[j] == rows[j + 1];
          }
        }
      }
      SafeValue(tail, t, column, default)
  }

  predicate DistinctTypes(ts: seq<TrafficType>)
  {
    forall i, j :: 0 <= i < j < |ts| ==> ts[i] != ts[j]
  }

  lemma {:induction false} PresentTypesDistinct(ts: seq<TrafficType>, sessions: seq<Session>, classify: Option<string> -> TrafficType)
    requires DistinctTypes(ts)
    ensures DistinctTypes(PresentTypes(ts, sessions, classify))
  {
    if ts != [] {
      var tail := ts[1..];
      assert DistinctTypes(tail) by {
        forall i, j | 0 <= i < j < |tail| ensures tail[i] != tail[j] {
          assert tail[i] == ts[i + 1] && tail[j] == ts[j + 1];
        }
      }
      PresentTypesDistinct(tail, sessions, classify);
      var rest := PresentTypes(tail, sessions, classify);
      assert ts[0] !in tail by {
        forall j | 0 <= j < |tail| ensures tail[j] != ts[0] {
          assert tail[j] == ts[j + 1];
        }
      }
      var r := PresentTypes(ts, sessions, classify);
      if r != rest {
        assert r == [ts[0]] + rest;
        forall i, j | 0 <= i < j < |r| ensures r[i] != r[j] {
          assert r[j] == rest[j - 1];
          if i > 0 {
            assert r[i] == rest[i - 1];
          }
        }
      }
    }
  }

  /** Read through safe_value, the summary gives a present type's own figure... */
  lemma SafeValueOfPresent<V>(sessions: seq<Session>, orders: seq<Order>, classify: Option<string> -> TrafficType,
                              t: TrafficType, column: TypeSummary -> V, default: V)
    requires exists s :: s in sessions && classify(s.utmCampaign) == t
    ensures SafeValue(TrafficSummary(sessions, orders, classify), t, column, default)
         == column(SummaryFor(sessions, orders, classify, t))
  {
    var present := PresentTypes(TypesInLabelOrder, sessions, classify);
    var rows := TrafficSummary(sessions, orders, classify);
    var i := PresentIndex(sessions, classify, t);
    assert rows[i] == SummaryFor(sessions, orders, classify, t);
    forall j | 0 <= j < i ensures rows[j].trafficType != t {
      assert rows[j].trafficType == present[j];
    }
  }

  /** A type some session has sits once among the present types. */
  lemma PresentIndex(sessions: seq<Session>, classify: Option<string> -> TrafficType, t: TrafficType) returns (i: nat)
    requires exists s :: s in sessions && classify(s.utmCampaign) == t
    ensures i < |PresentTypes(TypesInLabelOrder, sessions, classify)|
    ensures PresentTypes(TypesInLabelOrder, sessions, classify)[i] == t
    ensures forall j :: 0 <= j < i ==> PresentTypes(TypesInLabelOrder, sessions, classify)[j] != t
  {
    var present := PresentTypes(TypesInLabelOrder, sessions, classify);
    assert t in TypesInLabelOrder by {
      match t
      case BroadNonbrand => assert TypesInLabelOrder[0] == t;
      case DirectBrand => assert TypesInLabelOrder[1] == t;
      case OtherTraffic => assert TypesInLabelOrder[2] == t;
    }
    assert DistinctTypes(TypesInLabelOrder);
    PresentTypesDistinct(TypesInLabelOrder, sessions, classify);
    i :| 0 <= i < |present| && present[i] == t;
  }

  /** ...and the default for a type no session has. */
  lemma SafeValueOfAbsent<V>(sessions: seq<Session>, orders: seq<Order>, classify: Option<string> -> TrafficType,
                             t: TrafficType, column: TypeSummary -> V, default: V)
    requires forall s :: s in sessions ==> classify(s.utmCampaign) != t
    ensures SafeValue(TrafficSummary(sessions, orders, classify), t, column, default) == default
  {
    var present := PresentTypes(TypesInLabelOrder, sessions, classify);
    var rows := TrafficSummary(sessions, orders, classify);
    forall i | 0 <= i < |rows| ensures rows[i].trafficType != t {
      assert rows[i].trafficType == present[i];
      assert present[i] in present;
    }
  }

  /** The Direct vs Broad revenue gap. */
  function RevenueGap(rows: seq<TypeSummary>): (r: real)
    ensures forall i, j :: FirstOfType(rows, DirectBrand, i) && FirstOfType(rows, BroadNonbrand, j) ==>
      r == rows[i].revenue - rows[j].revenue
    ensures forall i :: FirstOfType(rows, DirectBrand, i) && (forall j :: 0 <= j < |rows| ==> rows[j].trafficType != BroadNonbrand) ==>
      r == rows[i].revenue
    ensures (forall j :: 0 <= j < |rows| ==> rows[j].trafficType != DirectBrand && rows[j].trafficType != BroadNonbrand) ==>
      r == 0.0
  {
    SafeValue(rows, DirectBrand, (r: TypeSummary) => r.revenue, 0.0)
      - SafeValue(rows, BroadNonbrand, (r: TypeSummary) => r.revenue, 0.0)
  }

  // ---------------------------------------------------------------------
  // Every-third-month labels

  /** `groupby("year").cumcount()`: each row's number among the earlier rows
      of its year. */
  function CumCount(years: seq<int>): (r: seq<nat>)
    ensures |r| == |years|
  {
    if years == [] then []
    else
      var n := |years| - 1;
      CumCount(years[..n]) + [multiset(years[..n])[years[n]]]
  }

  lemma {:induction false} CumCountAt(years: seq<int>, i: nat)
    requires i < |years|
    ensures CumCount(years)[i] == multiset(years[..i])[years[i]]
  {
    var n := |years| - 1;
    if i < n {
      CumCountAt(years[..n], i);
      assert years[..n][..i] == years[..i];
    }
  }

  predicate NonDecreasing(years: seq<int>)
  {
    forall i, j :: 0 <= i <= j < |years| ==> years[i] <= years[j]
  }

  /** Rows k..k+m-1 all of year y, and none before k: y occurs m times
      before row k+m. */
  lemma {:induction false} CountInRun(years: seq<int>, y: int, k: nat, m: nat)
    requires k + m <= |years|
    requires multiset(years[..k])[y] == 0
    requires forall j :: k <= j < k + m ==> years[j] == y
    ensures multiset(years[..k + m])[y] == m
  {
    if m > 0 {
      CountInRun(years, y, k, m - 1);
      assert years[..k + m] == years[..k + m - 1] + [years[k + m - 1]];
    }
  }

  /** With the rows ordered by year, the row `m` places after the first row
      of its year is number `m` of that year. */
  lemma RowNumberInYear(years: seq<int>, k: nat, m: nat)
    requires NonDecreasing(years) && k + m < |years|
    requires k == 0 || years[k - 1] < years[k]
    requires years[k + m] == years[k]
    ensures CumCount(years)[k + m] == m
  {
    var y := years[k];
    assert y !in years[..k] by {
      if k > 0 {
        assert forall j :: 0 <= j < k ==> years[j] <= years[k - 1];
      }
    }
    assert forall j :: k <= j < k + m ==> years[j] == y by {
      assert forall j :: k <= j < k + m ==> years[k] <= years[j] <= years[k + m];
    }
    CountInRun(years, y, k, m);
    CumCountAt(years, k + m);
  }

  /** One row of the monthly counts, ordered by (year, month). */
  datatype MonthCount = MonthCount(year: int, month: Bucket, count: nat)

  function Years(rows: seq<MonthCount>): (r: seq<int>)
    ensures |r| == |rows| && forall i :: 0 <= i < |rows| ==> r[i] == rows[i].year
  {
    if rows == [] then [] else [rows[0].year] + Years(rows[1..])
  }

  /** `row_num % 3 == 0`. */
  predicate Labelled(rowNumber: nat)
  {
    rowNumber % 3 == 0
  }

  /** One point's label: `format_km` of the count on a labelled row. */
  function LabelOf(row: MonthCount, rowNumber: nat): Option<Formatters.Text>
  {
    if Labelled(rowNumber) then Some(Formatters.FormatKm(Formatters.Finite(row.count as real))) else None
  }

  function LabelRows(rows: seq<MonthCount>, nums: seq<nat>): (r: seq<Option<Formatters.Text>>)
    requires |nums| == |rows|
    ensures |r| == |rows|
    ensures forall i :: 0 <= i < |rows| ==> r[i] == LabelOf(rows[i], nums[i])
  {
    if rows == [] then [] else [LabelOf(rows[0], nums[0])] + LabelRows(rows[1..], nums[1..])
  }

  /** The point labels: `format_km` of the count where the row number within
      the year is a multiple of three, no label elsewhere. */
  function MonthLabels(rows: seq<MonthCount>): (r: seq<Option<Formatters.Text>>)
    ensures |r| == |rows|
  {
    LabelRows(rows, CumCount(Years(rows)))
  }

  /** The monthly rows come ordered by year. */
  predicate YearsSorted(rows: seq<MonthCount>)
  {
    forall i, j :: 0 <= i <= j < |rows| ==> rows[i].year <= rows[j].year
  }

  lemma SortedYears(rows: seq<MonthCount>)
    requires YearsSorted(rows)
    ensures NonDecreasing(Years(rows))
  {
  }

  lemma LabelOfSome(row: MonthCount, n: nat)
    ensures LabelOf(row, n).Some? <==> n % 3 == 0
  {
  }

  lemma YearsAt(rows: seq<MonthCount>, k: nat, m: nat)
    requires k + m < |rows|
    requires k == 0 || rows[k - 1].year < rows[k].year
    requires rows[k + m].year == rows[k].year
    ensures Years(rows)[k + m] == Years(rows)[k]
    ensures k == 0 || Years(rows)[k - 1] < Years(rows)[k]
  {
  }

  lemma LabelAt(rows: seq<MonthCount>, i: nat)
    requires i < |rows|
    ensures MonthLabels(rows)[i] == LabelOf(rows[i], CumCount(Years(rows))[i])
  {
  }

  /** Within a year the labelled months are the first, fourth, seventh and
      tenth rows of that year. */
  lemma EveryThirdMonth(rows: seq<MonthCount>, k: nat, m: nat)
    requires YearsSorted(rows) && k + m < |rows|
    requires k == 0 || rows[k - 1].year < rows[k].year
    requires rows[k + m].year == rows[k].year
    ensures MonthLabels(rows)[k + m].Some? <==> m % 3 == 0
  {
    YearsAt(rows, k, m);
    SortedYears(rows);
    RowNumberInYear(Years(rows), k, m);
    LabelAt(rows, k + m);
    LabelOfSome(rows[k + m], m);
  }
}
