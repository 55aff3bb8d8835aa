/** The shared row filters, time buckets and rates every dashboard page
    builds on (utils/agg.py). */
module Agg {
  import opened Wrappers
  import opened Seqs
  import opened Tables

  // ---------------------------------------------------------------------
  // filter_sessions

  /** The categorical columns the session filter loops over, in loop order. */
  datatype Column = UtmSource | UtmCampaign | UtmContent | DeviceType | HttpReferer

  const CategoricalColumns: seq<Column> := [UtmSource, UtmCampaign, UtmContent, DeviceType, HttpReferer]

  function ColumnValue(s: Session, c: Column): Option<string>
  {
    match c
    case UtmSource => s.utmSource
    case UtmCampaign => s.utmCampaign
    case UtmContent => s.utmContent
    case DeviceType => s.deviceType
    case HttpReferer => s.httpReferer
  }

  function Requested(F: Filters, c: Column): seq<string>
  {
    match c
    case UtmSource => F.utmSource
    case UtmCampaign => F.utmCampaign
    case UtmContent => F.utmContent
    case DeviceType => F.deviceType
    case HttpReferer => F.httpReferer
  }

  /** One round of the filter loop lets `s` through: the list is empty, the
      frame lacks the column, or the row's value is listed (a missing value
      never is). */
  predicate Admits(F: Filters, present: set<Column>, c: Column, s: Session)
  {
    Requested(F, c) == [] || c !in present
    || (ColumnValue(s, c).Some? && ColumnValue(s, c).value in Requested(F, c))
  }

  predicate AdmitsAll(F: Filters, present: set<Column>, cs: seq<Column>, s: Session)
  {
    forall c :: c in cs ==> Admits(F, present, c, s)
  }

  /** The filter loop as the fold it is: each round narrows the rows. */
  function ApplyCategoricals(rows: seq<Session>, F: Filters, present: set<Column>, cs: seq<Column>): (r: seq<Session>)
    ensures r == Where(rows, (s: Session) => AdmitsAll(F, present, cs, s))
    decreases |cs|
  {
    if cs == [] then
      WhereAll(rows, (s: Session) => AdmitsAll(F, present, cs, s));
      rows
    else
      var r := ApplyCategoricals(Where(rows, (s: Session) => Admits(F, present, cs[0], s)), F, present, cs[1..]);
      assert forall s :: AdmitsAll(F, present, cs, s) == (Admits(F, present, cs[0], s) && AdmitsAll(F, present, cs[1..], s)) by {
        forall s ensures AdmitsAll(F, present, cs, s) == (Admits(F, present, cs[0], s) && AdmitsAll(F, present, cs[1..], s)) {
          assert cs == [cs[0]] + cs[1..];
        }
      }
      WhereWhere(rows, (s: Session) => Admits(F, present, cs[0], s), (s: Session) => AdmitsAll(F, present, cs[1..], s),
                 (s: Session) => AdmitsAll(F, present, cs, s));
      r
  }

  /** Every condition filter_sessions puts on a row it returns. */
  predicate KeptSession(F: Filters, present: set<Column>, s: Session)
  {
    s.id.Some? && InWindow(s.createdAt, F.startTs, F.endTs) && AdmitsAll(F, present, CategoricalColumns, s)
  }

  function SessionKey(s: Session): Option<Id>
  {
    s.id
  }

  /** `KeptSession` as a value, to pass to the selections. */
  function Keeps(F: Filters, present: set<Column>): Session -> bool
  {
    (s: Session) => KeptSession(F, present, s)
  }

  /** The three selections of filter_sessions before deduplication. */
  function Selected(rows: seq<Session>, F: Filters, present: set<Column>): (r: seq<Session>)
    ensures r == Where(rows, Keeps(F, present))
  {
    var withId := Where(rows, (s: Session) => s.id.Some?);
    var inWindow := Where(withId, (s: Session) => InWindow(s.createdAt, F.startTs, F.endTs));
    var filtered := ApplyCategoricals(inWindow, F, present, CategoricalColumns);
    FilteredIsKept(rows, F, present, withId, inWindow, filtered);
    filtered
  }

  /** filter_sessions: drop rows without a session id, keep the inclusive
      window, apply the categorical filters, then keep the first row of each
      session id.  `present` is the set of categorical columns the frame has. */
  function FilterSessions(rows: seq<Session>, F: Filters, present: set<Column>): (r: seq<Session>)
    ensures forall x :: x in r ==> x in rows && KeptSession(F, present, x)
    ensures DistinctBy(r, SessionKey)
    ensures forall x :: x in rows && KeptSession(F, present, x) ==>
      exists y :: y in r && SessionKey(y) == SessionKey(x)
    ensures forall y :: y in r ==> exists k :: FirstSelected(rows, Keeps(F, present), SessionKey, k) && rows[k] == y
  {
    var r := DedupeFrom(Selected(rows, F, present), SessionKey, {});
    SelectDedupe(rows, Keeps(F, present), SessionKey, r);
    r
  }

  /** The three selections are one selection by `KeptSession`. */
  lemma FilteredIsKept(rows: seq<Session>, F: Filters, present: set<Column>,
                       withId: seq<Session>, inWindow: seq<Session>, filtered: seq<Session>)
    requires withId == Where(rows, (s: Session) => s.id.Some?)
    requires inWindow == Where(withId, (s: Session) => InWindow(s.createdAt, F.startTs, F.endTs))
    requires filtered == Where(inWindow, (s: Session) => AdmitsAll(F, present, CategoricalColumns, s))
    ensures filtered == Where(rows, Keeps(F, present))
  {
    var both := (s: Session) => s.id.Some? && InWindow(s.createdAt, F.startTs, F.endTs);
    WhereWhere(rows, (s: Session) => s.id.Some?, (s: Session) => InWindow(s.createdAt, F.startTs, F.endTs), both);
    WhereWhere(rows, both, (s: Session) => AdmitsAll(F, present, CategoricalColumns, s), Keeps(F, present));
  }

  // ---------------------------------------------------------------------
  // filter_pageviews, filter_orders, filter_order_items

  predicate KeptPageview(F: Filters, urlColumn: bool, p: Pageview)
  {
    p.sessionId.Some? && InWindow(p.createdAt, F.startTs, F.endTs)
    && (F.pageviewUrls == [] || !urlColumn || p.url in F.pageviewUrls)
  }

  /** filter_pageviews: the same session-id and window conditions, an
      optional URL list, and no deduplication: every copy of a kept row stays. */
  function FilterPageviews(rows: seq<Pageview>, F: Filters, urlColumn: bool): (r: seq<Pageview>)
    ensures forall x :: multiset(r)[x] == if KeptPageview(F, urlColumn, x) then multiset(rows)[x] else 0
  {
    var withId := Where(rows, (p: Pageview) => p.sessionId.Some?);
    var inWindow := Where(withId, (p: Pageview) => InWindow(p.createdAt, F.startTs, F.endTs));
    var r := if F.pageviewUrls != [] && urlColumn then Where(inWindow, (p: Pageview) => p.url in F.pageviewUrls) else inWindow;
    WhereMultiset(rows, (p: Pageview) => p.sessionId.Some?);
    WhereMultiset(withId, (p: Pageview) => InWindow(p.createdAt, F.startTs, F.endTs));
    WhereMultiset(inWindow, (p: Pageview) => p.url in F.pageviewUrls);
    r
  }

  /** filter_orders: only the window; orders without a session id stay. */
  function FilterOrders(rows: seq<Order>, F: Filters): (r: seq<Order>)
    ensures forall x :: multiset(r)[x] == if InWindow(x.createdAt, F.startTs, F.endTs) then multiset(rows)[x] else 0
  {
    WhereMultiset(rows, (o: Order) => InWindow(o.createdAt, F.startTs, F.endTs));
    Where(rows, (o: Order) => InWindow(o.createdAt, F.startTs, F.endTs))
  }

  /** An order-item row after the left merge with the product table. */
  datatype ItemRow = ItemRow(item: OrderItem, productName: Option<string>)

  /** The left merge on product_id: one row per matching product, in the
      product table's order, or a single row with no name when none matches. */
  function MergeProducts(items: seq<OrderItem>, products: seq<Product>): (r: seq<ItemRow>)
    ensures forall x :: x in r ==> x.item in items
    ensures forall x :: x in r && x.productName.Some? ==> Product(x.item.productId, x.productName.value) in products
    ensures forall x :: x in r && x.productName.None? ==> forall p :: p in products ==> p.id != x.item.productId
    ensures forall it, p :: it in items && p in products && p.id == it.productId ==> ItemRow(it, Some(p.name)) in r
    ensures forall it :: it in items && (forall p :: p in products ==> p.id != it.productId) ==> ItemRow(it, None) in r
  {
    if items == [] then []
    else
      var it := items[0];
      var matches := Where(products, (p: Product) => p.id == it.productId);
      WhereMembers(products, (p: Product) => p.id == it.productId);
      var here := if matches == [] then [ItemRow(it, None)] else NamedRows(it, matches);
      here + MergeProducts(items[1..], products)
  }

  function NamedRows(it: OrderItem, ps: seq<Product>): (r: seq<ItemRow>)
    requires forall p :: p in ps ==> p.id == it.productId
    ensures |r| == |ps|
    ensures forall x :: x in r <==> exists p :: p in ps && x == ItemRow(it, Some(p.name))
  {
    if ps == [] then [] else [ItemRow(it, Some(ps[0].name))] + NamedRows(it, ps[1..])
  }

  /** filter_order_items: window first, then the merge, then the optional
      product-name list (a row without a name never matches a list). */
  function FilterOrderItems(items: seq<OrderItem>, products: seq<Product>, F: Filters): (r: seq<ItemRow>)
    ensures forall x :: x in r ==> x.item in items && InWindow(x.item.createdAt, F.startTs, F.endTs)
    ensures forall x :: x in r && F.productNames != [] ==> x.productName.Some? && x.productName.value in F.productNames
    ensures forall x :: x in r && x.productName.Some? ==> Product(x.item.productId, x.productName.value) in products
    ensures forall it, p ::
      (it in items && InWindow(it.createdAt, F.startTs, F.endTs) && p in products && p.id == it.productId
       && (F.productNames == [] || p.name in F.productNames)) ==> ItemRow(it, Some(p.name)) in r
    ensures forall it ::
      (it in items && InWindow(it.createdAt, F.startTs, F.endTs) && F.productNames == []
       && (forall p :: p in products ==> p.id != it.productId)) ==> ItemRow(it, None) in r
  {
    var inWindow := Where(items, (it: OrderItem) => InWindow(it.createdAt, F.startTs, F.endTs));
    WhereMembers(items, (it: OrderItem) => InWindow(it.createdAt, F.startTs, F.endTs));
    var merged := MergeProducts(inWindow, products);
    var named := (x: ItemRow) => x.productName.Some? && x.productName.value in F.productNames;
    WhereMembers(merged, named);
    if F.productNames != [] then Where(merged, named) else merged
  }

  // ---------------------------------------------------------------------
  // rollup

  datatype Bucket = DayBucket(day: int) | YearBucket(year: int)

  /** The bucket `rollup` assigns a parsed timestamp. */
  function BucketOf(t: Stamp, granularity: string): (b: Bucket)
    ensures granularity == "Weekly" ==>
      b.DayBucket? && Weekday(b.day) == 0 && t.Day() - 6 <= b.day <= t.Day()
    ensures granularity == "Monthly" && t.Valid() ==>
      b.DayBucket? && b.day <= t.Day() && t.Day() - b.day == t.dayOfMonth - 1
    ensures granularity == "Yearly" ==> b == YearBucket(t.year)
    ensures granularity !in {"Weekly", "Monthly", "Yearly"} ==> b == DayBucket(t.Day())
  {
    var d := t.Day();
    if granularity == "Daily" then DayBucket(d)
    else if granularity == "Weekly" then
      MondayOnOrBefore(d);
      DayBucket(d - Weekday(d))
    else if granularity == "Monthly" then DayBucket(d - (t.dayOfMonth - 1))
    else if granularity == "Yearly" then YearBucket(t.year)
    else DayBucket(d)
  }

  lemma MondayOnOrBefore(d: int)
    ensures Weekday(d - Weekday(d)) == 0
  {
    var q := (d + 3) / 7;
    assert d + 3 == 7 * q + Weekday(d);
    assert d - Weekday(d) + 3 == 7 * q;
  }

  datatype Bucketed<T> = Bucketed(row: T, bucket: Bucket)

  /** rollup: rows whose timestamp did not parse are dropped; every other row
      keeps its place and gets the bucket of its timestamp. */
  function Rollup<T(!new)>(rows: seq<T>, ts: T -> Option<Stamp>, granularity: string): (r: seq<Bucketed<T>>)
    ensures |r| == |Where(rows, (x: T) => ts(x).Some?)|
    ensures forall i :: 0 <= i < |r| ==>
      r[i].row == Where(rows, (x: T) => ts(x).Some?)[i] && ts(r[i].row).Some?
      && r[i].bucket == BucketOf(ts(r[i].row).value, granularity)
    ensures forall x :: x in r ==> x.row in rows
  {
    if rows == [] then []
    else if ts(rows[0]).Some? then
      [Bucketed(rows[0], BucketOf(ts(rows[0]).value, granularity))] + Rollup(rows[1..], ts, granularity)
    else Rollup(rows[1..], ts, granularity)
  }

  // ---------------------------------------------------------------------
  // compute_bounce_rate, compute_conversion_rate

  function PvSession(p: Pageview): Option<Id>
  {
    p.sessionId
  }

  /** Pageviews per session id; the grouping keeps a missing id as its own
      group and the merge matches it to a session with a missing id. */
  function PageviewCount(pageviews: seq<Pageview>, sid: Option<Id>): nat
  {
    CountKey(pageviews, PvSession, sid)
  }

  /** `num / den`, NaN for a zero denominator. */
  function Ratio(num: nat, den: nat): (r: Option<real>)
    ensures r.None? <==> den == 0
    ensures r.Some? ==> r.value == num as real / den as real
    ensures num <= den && r.Some? ==> 0.0 <= r.value <= 1.0
  {
    if den == 0 then None else Some(num as real / den as real)
  }

  /** The session rows that bounce: exactly one pageview. */
  function Bounced(sessions: seq<Session>, pageviews: seq<Pageview>): (r: seq<Session>)
    ensures |r| <= |sessions|
    ensures forall s :: s in r ==> s in sessions && PageviewCount(pageviews, s.id) == 1
  {
    Where(sessions, (s: Session) => PageviewCount(pageviews, s.id) == 1)
  }

  /** compute_bounce_rate: NaN without sessions, else the share of session
      rows with exactly one pageview; a row with none counts as no bounce. */
  function BounceRate(sessions: seq<Session>, pageviews: seq<Pageview>): (r: Option<real>)
    ensures r.None? <==> sessions == []
    ensures r.Some? ==> 0.0 <= r.value <= 1.0
    ensures r.Some? ==> r.value == |Bounced(sessions, pageviews)| as real / |sessions| as real
  {
    Ratio(|Bounced(sessions, pageviews)|, |sessions|)
  }

  /** Sessions without pageviews never bounce: with no pageviews at all the
      rate is zero. */
  lemma {:induction false} NoPageviewsNoBounce(sessions: seq<Session>)
    requires sessions != []
    ensures BounceRate(sessions, []) == Some(0.0)
  {
    NoneBounced(sessions);
  }

  lemma {:induction false} NoneBounced(sessions: seq<Session>)
    ensures Bounced(sessions, []) == []
  {
    if sessions != [] {
      NoneBounced(sessions[1..]);
      assert PageviewCount([], sessions[0].id) == 0;
    }
  }

  /** Every session with exactly one pageview makes the rate one. */
  lemma {:induction false} AllSingleAllBounce(sessions: seq<Session>, pageviews: seq<Pageview>)
    requires sessions != []
    requires forall s :: s in sessions ==> PageviewCount(pageviews, s.id) == 1
    ensures BounceRate(sessions, pageviews) == Some(1.0)
  {
    AllBounced(sessions, pageviews);
    RatioOfAll(|sessions|);
  }

  lemma RatioOfAll(n: nat)
    requires n > 0
    ensures Ratio(n, n) == Some(1.0)
  {
    var d := n as real;
    assert d / d == 1.0;
  }

  lemma {:induction false} AllBounced(sessions: seq<Session>, pageviews: seq<Pageview>)
    requires forall s :: s in sessions ==> PageviewCount(pageviews, s.id) == 1
    ensures Bounced(sessions, pageviews) == sessions
  {
    if sessions != [] {
      AllBounced(sessions[1..], pageviews);
      assert sessions == [sessions[0]] + sessions[1..];
    }
  }

  /** `set(sessions["website_session_id"])`, a missing id included. */
  function SessionIds(sessions: seq<Session>): (r: set<Option<Id>>)
    ensures forall k :: k in r <==> exists s :: s in sessions && s.id == k
  {
    if sessions == [] then {}
    else
      assert forall s :: s in sessions <==> s == sessions[0] || s in sessions[1..];
      {sessions[0].id} + SessionIds(sessions[1..])
  }

  /** `set(orders["website_session_id"].dropna())`. */
  function OrderedSessionIds(orders: seq<Order>): (r: set<Option<Id>>)
    ensures forall k :: k in r <==> k.Some? && exists o :: o in orders && o.sessionId == k
  {
    if orders == [] then {}
    else
      assert forall o :: o in orders <==> o == orders[0] || o in orders[1..];
      (if orders[0].sessionId.Some? then {orders[0].sessionId} else {}) + OrderedSessionIds(orders[1..])
  }

  /** compute_conversion_rate: |S ∩ O| / |S| over distinct session ids. */
  function ConversionRate(sessions: seq<Session>, orders: seq<Order>): (r: Option<real>)
    ensures r.None? <==> sessions == []
    ensures r.Some? ==> 0.0 <= r.value <= 1.0
    ensures r.Some? ==> r.value == |SessionIds(sessions) * OrderedSessionIds(orders)| as real / |SessionIds(sessions)| as real
  {
    var S := SessionIds(sessions);
    var O := OrderedSessionIds(orders);
    SubsetCard(S * O, S);
    assert sessions != [] ==> sessions[0].id in S;
    Ratio(|S * O|, |S|)
  }

  /** Orders from sessions outside S never count. */
  lemma ConversionIgnoresOtherOrders(sessions: seq<Session>, orders: seq<Order>)
    ensures ConversionRate(sessions, orders)
         == ConversionRate(sessions, Where(orders, (o: Order) => o.sessionId in SessionIds(sessions)))
  {
    var S := SessionIds(sessions);
    var mine := Where(orders, (o: Order) => o.sessionId in S);
    WhereMembers(orders, (o: Order) => o.sessionId in S);
    assert S * OrderedSessionIds(orders) == S * OrderedSessionIds(mine);
  }

  lemma {:induction false} IdsAtMostRows(g: seq<Session>)
    ensures |SessionIds(g)| <= |g|
  {
    if g != [] {
      IdsAtMostRows(g[1..]);
    }
  }

  lemma {:induction false} DistinctIdsCard(g: seq<Session>)
    requires DistinctBy(g, SessionKey)
    ensures |SessionIds(g)| == |g|
  {
    if g != [] {
      DistinctByTail(g, SessionKey);
      DistinctIdsCard(g[1..]);
      assert g[0].id !in SessionIds(g[1..]) by {
        forall s | s in g[1..] ensures s.id != g[0].id {
          assert SessionKey(s) != SessionKey(g[0]);
        }
      }
    }
  }

  // ---------------------------------------------------------------------
  // revenue_metrics, gsearch_metrics

  datatype RevenueMetrics = RevenueMetrics(
    gross: real, refunds: real, net: real,
    perSession: Option<real>, perSessionNew: Option<real>, perSessionRepeat: Option<real>)

  function OrderPrice(o: Order): real { o.price }

  function RefundAmount(r: Refund): real { r.amount }

  /** The whole net revenue spread over a segment, NaN for an empty one. */
  function PerSession(net: real, size: nat): (r: Option<real>)
    ensures r.None? <==> size == 0
    ensures r.Some? ==> r.value * size as real == net
  {
    if size == 0 then None else Some(net / size as real)
  }

  predicate IsNewSession(s: Session) { s.isRepeat == Some(false) }

  predicate IsRepeatSession(s: Session) { s.isRepeat == Some(true) }

  predicate RepeatUnknown(s: Session) { s.isRepeat.None? }

  function NewSessions(sessions: seq<Session>, hasRepeatColumn: bool): seq<Session>
  {
    if hasRepeatColumn then Where(sessions, IsNewSession) else sessions
  }

  function RepeatSessions(sessions: seq<Session>, hasRepeatColumn: bool): seq<Session>
  {
    if hasRepeatColumn then Where(sessions, IsRepeatSession) else []
  }

  /** revenue_metrics; the flags say whether price_usd, refund_amount_usd and
      is_repeat_session are columns of their frames. */
  function RevenueMetricsOf(orders: seq<Order>, refunds: seq<Refund>, sessions: seq<Session>,
                            hasPrice: bool, hasRefundAmount: bool, hasRepeatColumn: bool): (m: RevenueMetrics)
    ensures m.gross == (if hasPrice then Sum(orders, OrderPrice) else 0.0)
    ensures m.refunds == (if hasRefundAmount then Sum(refunds, RefundAmount) else 0.0)
    ensures m.net == m.gross - m.refunds
    ensures m.perSession == PerSession(m.net, |sessions|)
    ensures m.perSessionNew == PerSession(m.net, |NewSessions(sessions, hasRepeatColumn)|)
    ensures m.perSessionRepeat == PerSession(m.net, |RepeatSessions(sessions, hasRepeatColumn)|)
  {
    var gross := if hasPrice then Sum(orders, OrderPrice) else 0.0;
    var refunds := if hasRefundAmount then Sum(refunds, RefundAmount) else 0.0;
    var net := gross - refunds;
    RevenueMetrics(gross, refunds, net, PerSession(net, |sessions|),
                   PerSession(net, |NewSessions(sessions, hasRepeatColumn)|),
                   PerSession(net, |RepeatSessions(sessions, hasRepeatColumn)|))
  }

  /** Without is_repeat_session every session counts as new and the repeat
      figure is NaN. */
  lemma RevenueWithoutRepeatColumn(orders: seq<Order>, refunds: seq<Refund>, sessions: seq<Session>,
                                   hasPrice: bool, hasRefundAmount: bool)
    ensures var m := RevenueMetricsOf(orders, refunds, sessions, hasPrice, hasRefundAmount, false);
      m.perSessionNew == m.perSession && m.perSessionRepeat.None?
  {
  }

  /** With the column, new and repeat sessions are disjoint, and a session
      whose flag is missing is in neither. */
  lemma {:induction false} SegmentsSplitSessions(sessions: seq<Session>)
    ensures |NewSessions(sessions, true)| + |RepeatSessions(sessions, true)|
         == |sessions| - |Where(sessions, RepeatUnknown)|
  {
    if sessions != [] {
      SegmentsSplitSessions(sessions[1..]);
      var x := sessions[0];
      assert |NewSessions(sessions, true)| == (if x.isRepeat == Some(false) then 1 else 0) + |NewSessions(sessions[1..], true)|;
      assert |RepeatSessions(sessions, true)| == (if x.isRepeat == Some(true) then 1 else 0) + |RepeatSessions(sessions[1..], true)|;
      assert |Where(sessions, RepeatUnknown)|
          == (if x.isRepeat.None? then 1 else 0) + |Where(sessions[1..], RepeatUnknown)|;
      var a := if x.isRepeat == Some(false) then 1 else 0;
      var b := if x.isRepeat == Some(true) then 1 else 0;
      var c := if x.isRepeat.None? then 1 else 0;
      if x.isRepeat.Some? {
        if x.isRepeat.value { assert a == 0 && b == 1 && c == 0; } else { assert a == 1 && b == 0 && c == 0; }
      }
      assert a + b + c == 1;
    } else {
      assert NewSessions(sessions, true) == [];
      assert RepeatSessions(sessions, true) == [];
    }
  }

  /** gsearch_metrics: gsearch sessions that ordered, over the number of
      gsearch session ROWS. */
  function GsearchSessions(sessions: seq<Session>): (r: seq<Session>)
    ensures forall s :: s in r <==> s in sessions && s.utmSource == Some("gsearch")
  {
    WhereMembers(sessions, (s: Session) => s.utmSource == Some("gsearch"));
    Where(sessions, (s: Session) => s.utmSource == Some("gsearch"))
  }

  function GsearchConversion(sessions: seq<Session>, orders: seq<Order>): (r: Option<real>)
    ensures r.None? <==> GsearchSessions(sessions) == []
    ensures r.Some? ==> 0.0 <= r.value <= 1.0
  {
    var g := GsearchSessions(sessions);
    var ids := SessionIds(g);
    SubsetCard(ids * OrderedSessionIds(orders), ids);
    IdsAtMostRows(g);
    Ratio(|ids * OrderedSessionIds(orders)|, |g|)
  }

  /** On sessions with distinct ids (as filter_sessions returns), the gsearch
      rate is the conversion rate of the gsearch sessions. */
  lemma GsearchIsConversionOfGsearch(sessions: seq<Session>, orders: seq<Order>)
    requires forall i, j :: 0 <= i < j < |sessions| ==> sessions[i].id != sessions[j].id
    ensures GsearchConversion(sessions, orders) == ConversionRate(GsearchSessions(sessions), orders)
  {
    var g := GsearchSessions(sessions);
    assert DistinctBy(sessions, SessionKey);
    DistinctWhere(sessions, SessionKey, (s: Session) => s.utmSource == Some("gsearch"));
    DistinctIdsCard(g);
  }

  // ---------------------------------------------------------------------
  // hour_weekday_session_volume

  function HourOf(s: Session): int
  {
    if s.createdAt.Some? then s.createdAt.value.Hour() else -1
  }

  function WeekdayOf(s: Session): int
  {
    if s.createdAt.Some? then Weekday(s.createdAt.value.Day()) else -1
  }

  const Hours: seq<int> := seq(24, (h: int) => h)

  const WeekdayNames: seq<string> := ["Monday", "Tuesday", "Wednesday", "Thursday", "Friday", "Saturday", "Sunday"]

  /** One bar per key that occurs, in the order of `ks`. */
  function Histogram<T>(rows: seq<T>, key: T -> int, ks: seq<int>): (r: seq<(int, nat)>)
    ensures forall e :: e in r ==> e.0 in ks && e.1 == CountKey(rows, key, e.0) && e.1 > 0
  {
    if ks == [] then []
    else
      var c := CountKey(rows, key, ks[0]);
      (if c > 0 then [(ks[0], c)] else []) + Histogram(rows, key, ks[1..])
  }

  function Total(h: seq<(int, nat)>): nat
  {
    if h == [] then 0 else h[0].1 + Total(h[1..])
  }

  lemma {:induction false} HistogramTotal<T>(rows: seq<T>, key: T -> int, ks: seq<int>)
    ensures Total(Histogram(rows, key, ks)) == CountOverKeys(rows, key, ks)
  {
    if ks != [] {
      HistogramTotal(rows, key, ks[1..]);
      var c := CountKey(rows, key, ks[0]);
      var rest := Histogram(rows, key, ks[1..]);
      if c > 0 {
        assert ([(ks[0], c)] + rest)[1..] == rest;
      } else {
        assert [] + rest == rest;
      }
    }
  }

  /** Sessions per hour of day, NaT rows dropped by the grouping. */
  function ByHour(sessions: seq<Session>): seq<(int, nat)>
  {
    Histogram(Where(sessions, (s: Session) => s.createdAt.Some?), HourOf, Hours)
  }

  /** Sessions per weekday, Monday (0) first. */
  function ByWeekday(sessions: seq<Session>): seq<(int, nat)>
  {
    Histogram(Where(sessions, (s: Session) => s.createdAt.Some?), WeekdayOf, seq(7, (d: int) => d))
  }

  /** Every session with a timestamp is counted in exactly one hour bar and in
      exactly one weekday bar. */
  lemma SessionVolumeConserved(sessions: seq<Session>)
    ensures Total(ByHour(sessions)) == |Where(sessions, (s: Session) => s.createdAt.Some?)|
    ensures Total(ByWeekday(sessions)) == |Where(sessions, (s: Session) => s.createdAt.Some?)|
  {
    var timed := Where(sessions, (s: Session) => s.createdAt.Some?);
    HistogramTotal(timed, HourOf, Hours);
    HistogramTotal(timed, WeekdayOf, seq(7, (d: int) => d));
    forall x | x in timed ensures HourOf(x) in Hours && WeekdayOf(x) in seq(7, (d: int) => d) {
      assert Hours[HourOf(x)] == HourOf(x);
      assert seq(7, (d: int) => d)[WeekdayOf(x)] == WeekdayOf(x);
    }
    CountByKeyConserves(timed, HourOf, Hours);
    CountByKeyConserves(timed, WeekdayOf, seq(7, (d: int) => d));
  }
}
