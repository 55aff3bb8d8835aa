/** Conversion Journey (pages/5_Conversion_Journey.py): the refund window of
    the revenue KPIs, the gsearch volume trend, the gsearch non-brand funnel
    of nested step intersections, the billing-variant conversion rates, and
    the grouped funnel with its rates and drop-offs. */
module ConversionJourney {
  import opened Wrappers
  import opened Seqs
  import opened Tables
  import opened Agg

  /** The refunds whose timestamp lies in the sidebar window (a missing
      timestamp compares false). */
  function WindowRefunds(refunds: seq<Refund>, F: Filters): (r: seq<Refund>)
    ensures forall x :: x in r <==> x in refunds && InWindow(x.createdAt, F.startTs, F.endTs)
  {
    if refunds == [] then []
    else
      assert forall x :: x in refunds <==> x == refunds[0] || x in refunds[1..];
      (if InWindow(refunds[0].createdAt, F.startTs, F.endTs) then [refunds[0]] else [])
      + WindowRefunds(refunds[1..], F)
  }

  // ---------------------------------------------------------------------
  // Gsearch volume trend

  function CreatedAt(s: Session): Option<Stamp> { s.createdAt }

  function BucketKey(x: Bucketed<Session>): Bucket { x.bucket }

  /** `g_trend`: gsearch sessions per rollup bucket. */
  function GsearchTrend(sessions: seq<Session>, granularity: string, b: Bucket): nat
  {
    CountKey(Rollup(GsearchSessions(sessions), CreatedAt, granularity), BucketKey, b)
  }

  /** Over a listing of the buckets that occur, the trend counts every
      gsearch session with a timestamp exactly once. */
  lemma GsearchTrendTotal(sessions: seq<Session>, granularity: string, bs: seq<Bucket>)
    requires Distinct(bs)
    requires forall s :: s in GsearchSessions(sessions) && s.createdAt.Some? ==>
      BucketOf(s.createdAt.value, granularity) in bs
    ensures CountOverKeys(Rollup(GsearchSessions(sessions), CreatedAt, granularity), BucketKey, bs)
         == |Rollup(GsearchSessions(sessions), CreatedAt, granularity)|
  {
    var g := GsearchSessions(sessions);
    var rolled := Rollup(g, CreatedAt, granularity);
    forall i | 0 <= i < |rolled|
      ensures BucketKey(rolled[i]) in bs
    {
      RolledRow(g, granularity, i);
    }
    CountByKeyConserves(rolled, BucketKey, bs);
  }

  lemma RolledRow(g: seq<Session>, granularity: string, i: nat)
    requires i < |Rollup(g, CreatedAt, granularity)|
    ensures var x := Rollup(g, CreatedAt, granularity)[i];
      x.row in g && x.row.createdAt.Some? && x.bucket == BucketOf(x.row.createdAt.value, granularity)
  {
    assert Rollup(g, CreatedAt, granularity)[i] in Rollup(g, CreatedAt, granularity);
  }

  // ---------------------------------------------------------------------
  // The gsearch non-brand funnel

  predicate IsNonbrand(s: Session) { s.utmCampaign == Some("nonbrand") }

  /** `f_sess`. */
  function FunnelSessions(sessions: seq<Session>): seq<Session>
  {
    Where(GsearchSessions(sessions), IsNonbrand)
  }

  /** The pageviews whose session id is one of `ids` (`isin`, where a missing
      id matches a missing id). */
  function PageviewsOf(pageviews: seq<Pageview>, ids: set<Option<Id>>): (r: seq<Pageview>)
    ensures forall p :: p in r <==> p in pageviews && p.sessionId in ids
  {
    if pageviews == [] then []
    else
      assert forall p :: p in pageviews <==> p == pageviews[0] || p in pageviews[1..];
      (if pageviews[0].sessionId in ids then [pageviews[0]] else []) + PageviewsOf(pageviews[1..], ids)
  }

  predicate IsFunnelSession(s: Session, sessions: seq<Session>, p: Pageview)
  {
    s in sessions && s.utmSource == Some("gsearch") && s.utmCampaign == Some("nonbrand") && s.id == p.sessionId
  }

  /** `f_pv`: the pageviews of gsearch non-brand sessions. */
  function FunnelPageviews(sessions: seq<Session>, pageviews: seq<Pageview>): (r: seq<Pageview>)
    ensures forall p :: p in r <==> p in pageviews && exists s :: IsFunnelSession(s, sessions, p)
  {
    var f := FunnelSessions(sessions);
    WhereMembers(GsearchSessions(sessions), IsNonbrand);
    var r := PageviewsOf(pageviews, SessionIds(f));
    forall p | p in pageviews
      ensures p.sessionId in SessionIds(f) <==> exists s :: IsFunnelSession(s, sessions, p)
    {
      if exists s :: IsFunnelSession(s, sessions, p) {
        var s :| IsFunnelSession(s, sessions, p);
        assert s in f;
      }
      if p.sessionId in SessionIds(f) {
        var s :| s in f && s.id == p.sessionId;
        assert IsFunnelSession(s, sessions, p);
      }
    }
    r
  }

  predicate StartsWith(s: string, prefix: string)
  {
    |prefix| <= |s| && s[..|prefix|] == prefix
  }

  datatype Step = LanderStep | ProductStep | CartStep | BillingStep | ThankYouStep

  const Steps: seq<Step> := [LanderStep, ProductStep, CartStep, BillingStep, ThankYouStep]

  predicate IsBillingUrl(url: string) { url == "/billing" || url == "/billing-2" }

  /** The URLs that make a pageview count for a funnel step. */
  predicate AtStep(step: Step, url: string)
  {
    match step
    case LanderStep => url == "/lander-1"
    case ProductStep => StartsWith(url, "/the-")
    case CartStep => url == "/cart"
    case BillingStep => IsBillingUrl(url)
    case ThankYouStep => url == "/thank-you-for-your-order"
  }

  /** `set(f_pv[...]["website_session_id"])` for one step. */
  function StepSessions(pvs: seq<Pageview>, step: Step): set<Option<Id>>
  {
    set p | p in pvs && AtStep(step, p.url) :: p.sessionId
  }

  /** The sessions that reached every one of the first `k + 1` steps. */
  function Reached(pvs: seq<Pageview>, k: nat): set<Option<Id>>
    requires k < |Steps|
  {
    if k == 0 then StepSessions(pvs, Steps[0]) else Reached(pvs, k - 1) * StepSessions(pvs, Steps[k])
  }

  /** Session `id` has a pageview at step `j`. */
  predicate HasStep(pvs: seq<Pageview>, id: Option<Id>, j: nat)
    requires j < |Steps|
  {
    exists p :: p in pvs && p.sessionId == id && AtStep(Steps[j], p.url)
  }

  /** Membership of the k-th intersection: a pageview of the session at each
      of the first `k + 1` steps. */
  lemma {:induction false} ReachedMeans(pvs: seq<Pageview>, k: nat, id: Option<Id>)
    requires k < |Steps|
    ensures id in Reached(pvs, k) <==> forall j :: 0 <= j <= k ==> HasStep(pvs, id, j)
  {
    assert HasStep(pvs, id, k) <==> id in StepSessions(pvs, Steps[k]) by {
      if HasStep(pvs, id, k) {
        var p :| p in pvs && p.sessionId == id && AtStep(Steps[k], p.url);
      }
    }
    if k > 0 {
      ReachedMeans(pvs, k - 1, id);
    }
  }

  /** `funnel_counts["sessions"]`. */
  function FunnelCounts(pvs: seq<Pageview>): (r: seq<nat>)
    ensures |r| == |Steps|
  {
    seq(|Steps|, k requires 0 <= k < |Steps| => |Reached(pvs, k)|)
  }

  /** A later intersection is contained in an earlier one. */
  lemma {:induction false} ReachedShrinks(pvs: seq<Pageview>, i: nat, j: nat)
    requires i <= j < |Steps|
    ensures Reached(pvs, j) <= Reached(pvs, i)
  {
    if i < j {
      ReachedShrinks(pvs, i, j - 1);
    }
  }

  /** Each step intersects the previous one, so no step counts more sessions
      than an earlier one. */
  lemma FunnelNonIncreasing(pvs: seq<Pageview>)
    ensures forall i, j :: 0 <= i <= j < |Steps| ==> FunnelCounts(pvs)[j] <= FunnelCounts(pvs)[i]
  {
    var c := FunnelCounts(pvs);
    forall i, j | 0 <= i <= j < |Steps| ensures c[j] <= c[i] {
      ReachedShrinks(pvs, i, j);
      SubsetCard(Reached(pvs, j), Reached(pvs, i));
    }
  }

  // ---------------------------------------------------------------------
  // Billing test: /billing vs /billing-2

  /** The present session ids with a pageview of `url`. */
  function UrlSessions(pvs: seq<Pageview>, url: string): set<Id>
  {
    set p | p in pvs && p.url == url && p.sessionId.Some? :: p.sessionId.value
  }

  /** `by_variant`: distinct sessions that saw the variant. */
  function VariantSessions(pvs: seq<Pageview>, v: string): set<Id>
  {
    UrlSessions(pvs, v)
  }

  /** The variant's sessions that reached the thank-you page. */
  function ConvertedSessions(pvs: seq<Pageview>, v: string): (r: set<Id>)
    ensures r <= VariantSessions(pvs, v)
  {
    VariantSessions(pvs, v) * UrlSessions(pvs, "/thank-you-for-your-order")
  }

  /** `conv_rate` as written: the numerator series only has the variants
      with a converted session, so the aligned division leaves a variant
      nobody converted on as NaN. */
  function VariantRate(pvs: seq<Pageview>, v: string): (r: Option<real>)
    ensures r.None? <==> |ConvertedSessions(pvs, v)| == 0
    ensures r.Some? ==> 0.0 < r.value <= 1.0
    ensures r.Some? ==> r.value == |ConvertedSessions(pvs, v)| as real / |VariantSessions(pvs, v)| as real
  {
    var k := |ConvertedSessions(pvs, v)|;
    var n := |VariantSessions(pvs, v)|;
    SubsetCard(ConvertedSessions(pvs, v), VariantSessions(pvs, v));
    if k == 0 then None else Some(k as real / n as real)
  }

  /** A variant seen by sessions none of which ordered shows no rate at all
      rather than 0%. */
  lemma UnconvertedVariantHasNoRate()
    ensures var pvs := [Pageview("1", Some("s"), None, "/billing-2")];
      |VariantSessions(pvs, "/billing-2")| == 1 && VariantRate(pvs, "/billing-2").None?
  {
    var pvs := [Pageview("1", Some("s"), None, "/billing-2")];
    assert VariantSessions(pvs, "/billing-2") == {"s"};
    assert UrlSessions(pvs, "/thank-you-for-your-order") == {};
  }

  /** The rate the chart evidently means: converted over seen, 0 when none
      converted, missing only when no session saw the variant. */
  function VariantRateIntended(pvs: seq<Pageview>, v: string): (r: Option<real>)
    ensures r.None? <==> |VariantSessions(pvs, v)| == 0
    ensures r.Some? ==> 0.0 <= r.value <= 1.0
    ensures r.Some? ==> r.value == |ConvertedSessions(pvs, v)| as real / |VariantSessions(pvs, v)| as real
  {
    SubsetCard(ConvertedSessions(pvs, v), VariantSessions(pvs, v));
    Ratio(|ConvertedSessions(pvs, v)|, |VariantSessions(pvs, v)|)
  }

  /** The two agree wherever some session converted; otherwise the intended
      rate is 0 for every variant a session saw. */
  lemma IntendedVariantRate(pvs: seq<Pageview>, v: string)
    ensures |ConvertedSessions(pvs, v)| > 0 ==> VariantRateIntended(pvs, v) == VariantRate(pvs, v)
    ensures |ConvertedSessions(pvs, v)| == 0 && |VariantSessions(pvs, v)| > 0 ==>
      VariantRateIntended(pvs, v) == Some(0.0)
  {
  }

  // ---------------------------------------------------------------------
  // Advanced funnel drop-off analysis

  /** `funnel_groups`, in its insertion order. */
  const FunnelGroups: seq<(string, seq<string>)> := [
    ("Landers", ["/lander-1", "/lander-2", "/lander-3", "/lander-4", "/lander-5", "/home"]),
    ("Products", ["/products", "/the-birthday-sugar-panda", "/the-forever-love-bear",
                  "/the-hudson-river-mini-bear", "/the-original-mr-fuzzy"]),
    ("Cart", ["/cart"]),
    ("Shipping", ["/shipping"]),
    ("Billing", ["/billing", "/billing-2"]),
    ("Thank You", ["/thank-you-for-your-order"])]

  /** Distinct present session ids with a pageview of one of `urls`. */
  function ReachedAny(pageviews: seq<Pageview>, urls: seq<string>): set<Id>
  {
    set p | p in pageviews && p.url in urls && p.sessionId.Some? :: p.sessionId.value
  }

  /** All distinct present session ids of the pageviews. */
  function AllSessions(pageviews: seq<Pageview>): set<Id>
  {
    set p | p in pageviews && p.sessionId.Some? :: p.sessionId.value
  }

  datatype StepCount = StepCount(step: string, sessions: nat)

  /** The step counts the loop appends, one per group. */
  function GroupedCounts(pageviews: seq<Pageview>, groups: seq<(string, seq<string>)>): (r: seq<StepCount>)
    ensures |r| == |groups|
    ensures forall i :: 0 <= i < |r| ==> r[i].step == groups[i].0
    ensures forall i :: 0 <= i < |r| ==> r[i].sessions <= |AllSessions(pageviews)|
  {
    if groups == [] then []
    else
      SubsetCard(ReachedAny(pageviews, groups[0].1), AllSessions(pageviews));
      [StepCount(groups[0].0, |ReachedAny(pageviews, groups[0].1)|)] + GroupedCounts(pageviews, groups[1..])
  }

  lemma {:induction false} GroupedCountsAt(pageviews: seq<Pageview>, groups: seq<(string, seq<string>)>, i: nat)
    requires i < |groups|
    ensures GroupedCounts(pageviews, groups)[i].sessions == |ReachedAny(pageviews, groups[i].1)|
  {
    if i > 0 {
      GroupedCountsAt(pageviews, groups[1..], i - 1);
    }
  }

  /** The loop of the page: one step count per group, appended in order. */
  method CountSteps(pageviews: seq<Pageview>, groups: seq<(string, seq<string>)>) returns (counts: seq<StepCount>)
    ensures counts == GroupedCounts(pageviews, groups)
  {
    counts := [];
    var i := 0;
    while i < |groups|
      invariant 0 <= i <= |groups|
      invariant counts + GroupedCounts(pageviews, groups[i..]) == GroupedCounts(pageviews, groups)
    {
      var reached := |ReachedAny(pageviews, groups[i].1)|;
      assert groups[i..][1..] == groups[i + 1..];
      counts := counts + [StepCount(groups[i].0, reached)];
      i := i + 1;
    }
    assert groups[i..] == [];
  }

  /** Each group is counted on its own, so a later step can count more
      sessions than an earlier one: a lone cart pageview gives Cart 1 and
      Landers 0. */
  lemma GroupedFunnelNotMonotone()
    ensures var pvs := [Pageview("1", Some("s"), None, "/cart")];
      GroupedCounts(pvs, FunnelGroups)[0].sessions == 0 && GroupedCounts(pvs, FunnelGroups)[2].sessions == 1
  {
    var pv := Pageview("1", Some("s"), None, "/cart");
    GroupedCountsAt([pv], FunnelGroups, 0);
    GroupedCountsAt([pv], FunnelGroups, 2);
    assert "/cart" !in FunnelGroups[0].1;
    SinglePageview(pv, FunnelGroups[0].1);
    SinglePageview(pv, FunnelGroups[2].1);
  }

  lemma SinglePageview(pv: Pageview, urls: seq<string>)
    requires pv.sessionId.Some?
    ensures ReachedAny([pv], urls) == if pv.url in urls then {pv.sessionId.value} else {}
  {
    if pv.url in urls {
      assert pv.sessionId.value in ReachedAny([pv], urls);
    }
  }

  function Sessions(c: StepCount): nat { c.sessions }

  /** `conversion_rate`: every step against the first; missing when the
      first step has no sessions. */
  function RatesToFirst(counts: seq<StepCount>): (r: seq<Option<real>>)
    requires counts != []
    ensures |r| == |counts|
    ensures forall i :: 0 <= i < |r| ==> (r[i].None? <==> counts[0].sessions == 0)
    ensures forall i :: 0 <= i < |r| && r[i].Some? ==> r[i].value * counts[0].sessions as real == counts[i].sessions as real
    ensures counts[0].sessions > 0 ==> r[0] == Some(1.0)
  {
    var n := counts[0].sessions as real;
    var r := seq(|counts|, i requires 0 <= i < |counts| =>
      if counts[0].sessions == 0 then None else Some(counts[i].sessions as real / n));
    assert n != 0.0 ==> n / n == 1.0;
    r
  }

  /** `drop_off`: 0 for the first step, then the previous step's sessions
      less this step's (negative where a step counts more). */
  function DropOff(counts: seq<StepCount>): (r: seq<int>)
    requires counts != []
    ensures |r| == |counts| && r[0] == 0
    ensures forall i :: 0 < i < |r| ==> r[i] == counts[i - 1].sessions - counts[i].sessions
  {
    seq(|counts|, i requires 0 <= i < |counts| => if i == 0 then 0 else counts[i - 1].sessions - counts[i].sessions)
  }

  function SumInts(xs: seq<int>): int
  {
    if xs == [] then 0 else SumInts(xs[..|xs| - 1]) + xs[|xs| - 1]
  }

  /** The drop-offs telescope: together they are the first step's sessions
      less the last step's. */
  lemma DropOffTotal(counts: seq<StepCount>)
    requires counts != []
    ensures SumInts(DropOff(counts)) == counts[0].sessions - counts[|counts| - 1].sessions
  {
    var xs := seq(|counts|, i requires 0 <= i < |counts| => counts[i].sessions as int);
    Telescope(xs, DropOff(counts));
  }

  lemma {:induction false} Telescope(xs: seq<int>, d: seq<int>)
    requires |xs| == |d| > 0 && d[0] == 0
    requires forall i :: 0 < i < |d| ==> d[i] == xs[i - 1] - xs[i]
    ensures SumInts(d) == xs[0] - xs[|xs| - 1]
  {
    var n := |d|;
    if n > 1 {
      Telescope(xs[..n - 1], d[..n - 1]);
      assert xs[..n - 1][0] == xs[0] && xs[..n - 1][n - 2] == xs[n - 2];
      assert SumInts(d) == SumInts(d[..n - 1]) + d[n - 1];
    } else {
      assert d[..0] == [];
    }
  }

  /** `overall_conv`: the last step over the first, None when the first
      step has no sessions. */
  function OverallConversion(counts: seq<StepCount>): (r: Option<real>)
    requires counts != []
    ensures r.None? <==> counts[0].sessions == 0
    ensures r.Some? ==> r.value * counts[0].sessions as real == counts[|counts| - 1].sessions as real
  {
    if counts[0].sessions > 0 then Some(counts[|counts| - 1].sessions as real / counts[0].sessions as real) else None
  }
}
