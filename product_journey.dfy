/** Product Journey Flows (pages/6_Product_Journey_Flows.py): the funnel of
    every product detail page (how many of the sessions that viewed it reached
    cart, shipping, billing and thank-you), the best converting product, the
    URL-to-group lookup, the next page of every pageview within its session,
    and the group-to-group transitions behind each product's Sankey chart.
    The page works on the unfiltered pageviews. */
module ProductJourney {
  import opened Wrappers
  import opened Seqs
  import opened Tables
  import opened Formatters
  import opened Groups
  import ConversionJourney

  const ProductsGroup: seq<string> := ConversionJourney.FunnelGroups[1].1
  const CartGroup: seq<string> := ConversionJourney.FunnelGroups[2].1
  const ShippingGroup: seq<string> := ConversionJourney.FunnelGroups[3].1
  const BillingGroup: seq<string> := ConversionJourney.FunnelGroups[4].1
  const ThankYouGroup: seq<string> := ConversionJourney.FunnelGroups[5].1

  /** The general listing page, which has no funnel of its own. */
  const Listing: string := "/products"

  // ---------------------------------------------------------------------
  // Per-product funnels

  /** `sess_prod`: the session ids (a missing one included) of the
      pageviews of `prod`. */
  function ProductSessions(pvs: seq<Pageview>, prod: string): set<Option<Id>>
  {
    set p | p in pvs && p.url == prod :: p.sessionId
  }

  /** The present session ids that viewed `prod`. */
  function Viewers(pvs: seq<Pageview>, prod: string): set<Id>
  {
    set p | p in pvs && p.url == prod && p.sessionId.Some? :: p.sessionId.value
  }

  /** One step's `nunique()`: the present ids of the product's sessions with a
      pageview of one of the step's URLs. */
  function StepSessions(pvs: seq<Pageview>, prod: string, urls: seq<string>): (r: set<Id>)
    ensures r <= Viewers(pvs, prod)
  {
    var r := set p | p in pvs && p.sessionId in ProductSessions(pvs, prod) && p.url in urls && p.sessionId.Some?
                   :: p.sessionId.value;
    assert r <= Viewers(pvs, prod) by {
      forall id | id in r
        ensures id in Viewers(pvs, prod)
      {
        var p :| p in pvs && p.sessionId in ProductSessions(pvs, prod) && p.url in urls && p.sessionId == Some(id);
        var q :| q in pvs && q.url == prod && q.sessionId == p.sessionId;
      }
    }
    r
  }

  /** A step counts exactly the sessions that viewed the product and also
      a URL of the step. */
  lemma StepMeaning(pvs: seq<Pageview>, prod: string, urls: seq<string>, id: Id)
    ensures id in StepSessions(pvs, prod, urls) <==>
      (exists p :: p in pvs && p.url == prod && p.sessionId == Some(id)) &&
      (exists q :: q in pvs && q.url in urls && q.sessionId == Some(id))
  {
    if (exists p :: p in pvs && p.url == prod && p.sessionId == Some(id)) &&
       (exists q :: q in pvs && q.url in urls && q.sessionId == Some(id)) {
      var p :| p in pvs && p.url == prod && p.sessionId == Some(id);
      var q :| q in pvs && q.url in urls && q.sessionId == Some(id);
      assert Some(id) in ProductSessions(pvs, prod);
    }
    if id in StepSessions(pvs, prod, urls) {
      var q :| q in pvs && q.sessionId in ProductSessions(pvs, prod) && q.url in urls && q.sessionId == Some(id);
      var p :| p in pvs && p.url == prod && p.sessionId == q.sessionId;
    }
  }

  datatype ProductFunnel = ProductFunnel(product: string, cart: nat, shipping: nat, billing: nat, thankYou: nat)

  /** The funnel dict of one product. */
  function FunnelOf(pvs: seq<Pageview>, prod: string): (f: ProductFunnel)
    ensures f.product == prod
    ensures f.cart <= |Viewers(pvs, prod)| && f.shipping <= |Viewers(pvs, prod)|
    ensures f.billing <= |Viewers(pvs, prod)| && f.thankYou <= |Viewers(pvs, prod)|
  {
    var v := Viewers(pvs, prod);
    SubsetCard(StepSessions(pvs, prod, CartGroup), v);
    SubsetCard(StepSessions(pvs, prod, ShippingGroup), v);
    SubsetCard(StepSessions(pvs, prod, BillingGroup), v);
    SubsetCard(StepSessions(pvs, prod, ThankYouGroup), v);
    ProductFunnel(prod, |StepSessions(pvs, prod, CartGroup)|, |StepSessions(pvs, prod, ShippingGroup)|,
                  |StepSessions(pvs, prod, BillingGroup)|, |StepSessions(pvs, prod, ThankYouGroup)|)
  }

  /** The list of product pages with the listing page skipped. */
  function DetailPages(prods: seq<string>): (r: seq<string>)
    ensures forall u :: u in r <==> u in prods && u != Listing
  {
    if prods == [] then []
    else
      assert forall u :: u in prods <==> u == prods[0] || u in prods[1..];
      (if prods[0] == Listing then [] else [prods[0]]) + DetailPages(prods[1..])
  }

  /** `funnels`: one dict per product page, the listing page skipped. */
  function ProductFunnels(pvs: seq<Pageview>, prods: seq<string>): (r: seq<ProductFunnel>)
    ensures |r| == |DetailPages(prods)|
    ensures forall i :: 0 <= i < |r| ==> r[i] == FunnelOf(pvs, DetailPages(prods)[i])
  {
    if prods == [] then []
    else (if prods[0] == Listing then [] else [FunnelOf(pvs, prods[0])]) + ProductFunnels(pvs, prods[1..])
  }

  /** The loop of the page, appending one funnel per product page. */
  method BuildFunnels(pvs: seq<Pageview>, prods: seq<string>) returns (funnels: seq<ProductFunnel>)
    ensures funnels == ProductFunnels(pvs, prods)
  {
    funnels := [];
    var i := 0;
    while i < |prods|
      invariant 0 <= i <= |prods|
      invariant funnels + ProductFunnels(pvs, prods[i..]) == ProductFunnels(pvs, prods)
    {
      ProductFunnelsStep(pvs, prods, i);
      if prods[i] != Listing {
        funnels := funnels + [FunnelOf(pvs, prods[i])];
      }
      i := i + 1;
    }
    assert prods[i..] == [];
  }

  lemma ProductFunnelsStep(pvs: seq<Pageview>, prods: seq<string>, i: nat)
    requires i < |prods|
    ensures prods[i] == Listing ==> ProductFunnels(pvs, prods[i..]) == ProductFunnels(pvs, prods[i + 1..])
    ensures prods[i] != Listing ==>
      ProductFunnels(pvs, prods[i..]) == [FunnelOf(pvs, prods[i])] + ProductFunnels(pvs, prods[i + 1..])
  {
    assert prods[i..][1..] == prods[i + 1..];
  }

  /** The page funnels the four product detail pages, in the order of the
      Products group. */
  lemma FourProductFunnels(pvs: seq<Pageview>)
    ensures DetailPages(ProductsGroup) == ProductsGroup[1..]
    ensures |ProductFunnels(pvs, ProductsGroup)| == 4
  {
    var ps := ProductsGroup;
    assert ps[0] == Listing;
    assert ps[1..][1..][1..][1..][1..] == [];
  }

  /** `km_label` of a step count: "M" with one decimal from a million, "K"
      with two from a thousand, the integer below. */
  function KmLabel(v: nat): (t: Text)
    ensures t.Number? && t.prefix == "" && !t.commas
    ensures v >= 1000000 ==> t.suffix == "M" && t.decimals == 1 && t.value * 1000000.0 == v as real
    ensures 1000 <= v < 1000000 ==> t.suffix == "K" && t.decimals == 2 && t.value * 1000.0 == v as real
    ensures v < 1000 ==> t.suffix == "" && t.decimals == 0 && t.value == v as real
  {
    if v >= 1000000 then Number("", v as real / 1000000.0, 1, false, "M")
    else if v >= 1000 then Number("", v as real / 1000.0, 2, false, "K")
    else Number("", v as real, 0, false, "")
  }

  // ---------------------------------------------------------------------
  // Best converting product

  /** `conv_rate`: thank-you over cart, missing when the cart count is 0. */
  function ConvRate(f: ProductFunnel): (r: Option<real>)
    ensures r.None? <==> f.cart == 0
    ensures r.Some? ==> r.value * f.cart as real == f.thankYou as real
  {
    if f.cart == 0 then None else Some(f.thankYou as real / f.cart as real)
  }

  /** The descending order of the rates, missing rates last. */
  predicate RateBefore(a: Option<real>, b: Option<real>)
  {
    a.Some? && (b.None? || a.value > b.value)
  }

  /** `sort_values("conv_rate", ascending=False).iloc[0]`: a funnel no other
      funnel's rate beats. */
  function BestIndex(fs: seq<ProductFunnel>): (i: nat)
    requires fs != []
    ensures i < |fs|
    ensures forall k :: 0 <= k < |fs| ==> !RateBefore(ConvRate(fs[k]), ConvRate(fs[i]))
  {
    if |fs| == 1 then 0
    else
      var n := |fs| - 1;
      var j := BestIndex(fs[..n]);
      assert forall k :: 0 <= k < n ==> fs[..n][k] == fs[k];
      if RateBefore(ConvRate(fs[n]), ConvRate(fs[j])) then n else j
  }

  /** The best product has a rate as soon as any product has one. */
  lemma BestHasRate(fs: seq<ProductFunnel>, k: nat)
    requires k < |fs| && fs[k].cart > 0
    ensures ConvRate(fs[BestIndex(fs)]).Some?
  {
  }

  /** The metric: the product's name and its rate as a percentage. */
  function BestProduct(fs: seq<ProductFunnel>): (r: Option<(string, Text)>)
    ensures r.None? <==> fs == []
    ensures r.Some? ==> exists i :: 0 <= i < |fs| && r.value == (fs[i].product, FormatPercent(ConvRate(fs[i])))
  {
    if fs == [] then None
    else
      var i := BestIndex(fs);
      Some((fs[i].product, FormatPercent(ConvRate(fs[i]))))
  }

  // ---------------------------------------------------------------------
  // URL groups

  /** The entries one group adds to the lookup. */
  function GroupEntries(name: string, urls: seq<string>): (m: map<string, string>)
    ensures forall u :: u in m <==> u in urls
    ensures forall u :: u in m ==> m[u] == name
  {
    map u | u in urls :: name
  }

  /** `url_to_group`: later groups overwrite earlier ones. */
  function UrlToGroup(gs: seq<(string, seq<string>)>): (m: map<string, string>)
    ensures forall u :: u in m <==> exists i :: 0 <= i < |gs| && u in gs[i].1
    ensures forall u :: u in m ==> exists i :: 0 <= i < |gs| && u in gs[i].1 && m[u] == gs[i].0
                                              && forall j :: i < j < |gs| ==> u !in gs[j].1
  {
    if gs == [] then map[]
    else
      var rest := UrlToGroup(gs[1..]);
      var m := GroupEntries(gs[0].0, gs[0].1) + rest;
      forall u | u in m
        ensures exists i :: 0 <= i < |gs| && u in gs[i].1 && m[u] == gs[i].0
                            && forall j :: i < j < |gs| ==> u !in gs[j].1
      {
        if u in rest {
          var i :| 0 <= i < |gs[1..]| && u in gs[1..][i].1 && rest[u] == gs[1..][i].0
                   && forall j :: i < j < |gs[1..]| ==> u !in gs[1..][j].1;
          assert gs[i + 1] == gs[1..][i];
          forall j | i + 1 < j < |gs|
            ensures u !in gs[j].1
          {
            assert gs[j] == gs[1..][j - 1];
          }
        } else {
          forall j | 0 < j < |gs|
            ensures u !in gs[j].1
          {
            assert gs[j] == gs[1..][j - 1];
          }
        }
      }
      forall u | exists i :: 0 <= i < |gs| && u in gs[i].1
        ensures u in m
      {
        var i :| 0 <= i < |gs| && u in gs[i].1;
        if i > 0 {
          assert gs[1..][i - 1] == gs[i];
        }
      }
      m
  }

  /** No URL is listed in two groups. */
  predicate DisjointGroups(gs: seq<(string, seq<string>)>)
  {
    forall i, j, u :: 0 <= i < j < |gs| && u in gs[i].1 ==> u !in gs[j].1
  }

  /** With disjoint groups every listed URL maps to its own group. */
  lemma GroupOfUrl(gs: seq<(string, seq<string>)>, i: nat, u: string)
    requires DisjointGroups(gs) && i < |gs| && u in gs[i].1
    ensures u in UrlToGroup(gs) && UrlToGroup(gs)[u] == gs[i].0
  {
    var m := UrlToGroup(gs);
    var k :| 0 <= k < |gs| && u in gs[k].1 && m[u] == gs[k].0 && forall j :: k < j < |gs| ==> u !in gs[j].1;
    assert k == i;
  }

  /** The page's groups are disjoint. */
  lemma FunnelGroupsDisjoint()
    ensures DisjointGroups(ConversionJourney.FunnelGroups)
  {
    var gs := ConversionJourney.FunnelGroups;
    forall i, j, u | 0 <= i < j < |gs| && u in gs[i].1
      ensures u !in gs[j].1
    {
      TagOfGroup(i, u);
      if u in gs[j].1 {
        TagOfGroup(j, u);
      }
    }
  }

  lemma TagOfGroup(i: nat, u: string)
    requires i < |ConversionJourney.FunnelGroups| && u in ConversionJourney.FunnelGroups[i].1
    ensures GroupTag(u) == i
  {
    var gs := ConversionJourney.FunnelGroups;
    if i == 0 {
      assert u in gs[0].1;
    } else if i == 1 {
      assert u in gs[1].1;
    } else if i == 2 {
      assert u in gs[2].1;
    } else if i == 3 {
      assert u in gs[3].1;
    } else if i == 4 {
      assert u in gs[4].1;
    } else {
      assert u in gs[5].1;
    }
  }

  /** A tag that tells the six groups' URLs apart by their second and third
      characters. */
  function GroupTag(u: string): nat
  {
    if |u| < 3 then 6
    else if u[1] == 'l' || u[1] == 'h' then 0
    else if u[1] == 'p' || (u[1] == 't' && u[2] == 'h' && |u| > 4 && u[4] == '-') then 1
    else if u[1] == 'c' then 2
    else if u[1] == 's' then 3
    else if u[1] == 'b' then 4
    else if u[1] == 't' then 5
    else 6
  }

  // ---------------------------------------------------------------------
  // Next pages and transitions

  /** Row `k`, after row `i`, belongs to session `sid`. */
  predicate InSessionAfter(pvs: seq<Pageview>, sid: Option<Id>, i: int, k: int)
  {
    0 <= k < |pvs| && i < k && pvs[k].sessionId == sid
  }

  /** Row `k` is the first row of session `sid` after row `i`. */
  predicate FirstInSessionAfter(pvs: seq<Pageview>, sid: Option<Id>, i: int, k: int)
  {
    InSessionAfter(pvs, sid, i, k) && forall l :: 0 <= l < k && i < l ==> pvs[l].sessionId != sid
  }

  /** The url of the first pageview of session `sid` after row `i`. */
  function NextFrom(pvs: seq<Pageview>, sid: Option<Id>, i: int): (r: Option<string>)
    requires -1 <= i < |pvs|
    ensures r.Some? <==> exists k :: InSessionAfter(pvs, sid, i, k)
    ensures r.Some? ==> exists k :: FirstInSessionAfter(pvs, sid, i, k) && pvs[k].url == r.value
    decreases |pvs| - i
  {
    var j := i + 1;
    if j == |pvs| then None
    else if pvs[j].sessionId == sid then
      assert FirstInSessionAfter(pvs, sid, i, j);
      Some(pvs[j].url)
    else
      NextFromSkips(pvs, sid, i, j);
      NextFrom(pvs, sid, j)
  }

  /** A row of another session does not change what comes next. */
  lemma NextFromSkips(pvs: seq<Pageview>, sid: Option<Id>, i: int, j: int)
    requires -1 <= i && j == i + 1 && j < |pvs| && pvs[j].sessionId != sid
    ensures (exists k :: InSessionAfter(pvs, sid, i, k)) <==> (exists k :: InSessionAfter(pvs, sid, j, k))
    ensures forall k :: FirstInSessionAfter(pvs, sid, j, k) ==> FirstInSessionAfter(pvs, sid, i, k)
  {
    if exists k :: InSessionAfter(pvs, sid, i, k) {
      var k :| InSessionAfter(pvs, sid, i, k);
      assert InSessionAfter(pvs, sid, j, k);
    }
    if exists k :: InSessionAfter(pvs, sid, j, k) {
      var k :| InSessionAfter(pvs, sid, j, k);
      assert InSessionAfter(pvs, sid, i, k);
    }
  }

  /** `next_page`: the URL of the next row of the same session in table
      order; missing for a session's last row and for a row without a
      session id, which the grouping leaves out. */
  function NextPage(pvs: seq<Pageview>, i: nat): (r: Option<string>)
    requires i < |pvs|
    ensures r.Some? <==> pvs[i].sessionId.Some? && exists k :: InSessionAfter(pvs, pvs[i].sessionId, i, k)
    ensures r.Some? ==> exists k :: FirstInSessionAfter(pvs, pvs[i].sessionId, i, k) && pvs[k].url == r.value
  {
    if pvs[i].sessionId.None? then None else NextFrom(pvs, pvs[i].sessionId, i)
  }

  /** `.map(url_to_group)`: a URL outside every group maps to missing. */
  function GroupOf(m: map<string, string>, url: Option<string>): (r: Option<string>)
    ensures r.Some? <==> url.Some? && url.value in m
  {
    if url.Some? && url.value in m then Some(m[url.value]) else None
  }

  /** A pageview with its three added columns. */
  datatype Step = Step(pv: Pageview, nextPage: Option<string>, pageGroup: Option<string>, nextGroup: Option<string>)

  /** `url_to_group` of the page. */
  const UrlGroups: map<string, string> := UrlToGroup(ConversionJourney.FunnelGroups)

  /** The copied pageviews with `next_page`, `page_group` and `next_group`. */
  function Augment(pvs: seq<Pageview>): (r: seq<Step>)
    ensures |r| == |pvs|
    ensures forall i :: 0 <= i < |r| ==> r[i].pv == pvs[i] && r[i].nextPage == NextPage(pvs, i)
    ensures forall i :: 0 <= i < |r| ==> r[i].pageGroup == GroupOf(UrlGroups, Some(pvs[i].url))
    ensures forall i :: 0 <= i < |r| ==> r[i].nextGroup == GroupOf(UrlGroups, r[i].nextPage)
  {
    seq(|pvs|, i requires 0 <= i < |pvs| =>
      Step(pvs[i], NextPage(pvs, i), GroupOf(UrlGroups, Some(pvs[i].url)), GroupOf(UrlGroups, NextPage(pvs, i))))
  }

  /** A group-to-group transition. */
  type Flow = (string, string)

  /** A row of the product's sessions whose page and next page both have a
      group survives `dropna`. */
  predicate Kept(s: Step, sessions: set<Option<Id>>)
  {
    s.pv.sessionId in sessions && s.pageGroup.Some? && s.nextGroup.Some?
  }

  /** The transition a kept row contributes. */
  predicate Yields(s: Step, sessions: set<Option<Id>>, f: Flow)
  {
    Kept(s, sessions) && f == (s.pageGroup.value, s.nextGroup.value)
  }

  /** The transitions of `prod_views` after `dropna`, in row order. */
  function Flows(steps: seq<Step>, sessions: set<Option<Id>>): (r: seq<Flow>)
    ensures |r| <= |steps|
    ensures forall f :: f in r <==> exists i :: 0 <= i < |steps| && Yields(steps[i], sessions, f)
  {
    if steps == [] then []
    else
      var s := steps[0];
      var rest := Flows(steps[1..], sessions);
      forall f | exists i :: 0 <= i < |steps| && Yields(steps[i], sessions, f)
        ensures Yields(s, sessions, f) || f in rest
      {
        var i :| 0 <= i < |steps| && Yields(steps[i], sessions, f);
        if i > 0 {
          assert steps[1..][i - 1] == steps[i];
        }
      }
      forall f | f in rest
        ensures exists i :: 0 <= i < |steps| && Yields(steps[i], sessions, f)
      {
        var i :| 0 <= i < |steps[1..]| && Yields(steps[1..][i], sessions, f);
        assert steps[i + 1] == steps[1..][i];
      }
      (if Kept(s, sessions) then [(s.pageGroup.value, s.nextGroup.value)] else []) + rest
  }

  /** Every counted transition goes from a pageview of one of the product's
      sessions to a later pageview of the same session, and both URLs belong
      to a group. */
  lemma FlowIsTransition(pvs: seq<Pageview>, prod: string, i: nat)
    requires i < |pvs| && Kept(Augment(pvs)[i], ProductSessions(pvs, prod))
    ensures pvs[i].sessionId.Some? && pvs[i].sessionId in ProductSessions(pvs, prod)
    ensures Augment(pvs)[i].pageGroup == GroupOf(UrlGroups, Some(pvs[i].url))
    ensures exists k :: i < k < |pvs| && pvs[k].sessionId == pvs[i].sessionId && Augment(pvs)[i].nextGroup == GroupOf(UrlGroups, Some(pvs[k].url))
  {
    var next := NextPage(pvs, i);
    var k :| FirstInSessionAfter(pvs, pvs[i].sessionId, i, k) && pvs[k].url == next.value;
  }

  function FlowKey(f: Flow): Option<Flow> { Some(f) }

  /** `groupby(["page_group", "next_group"]).size()`: the size of each
      transition group. */
  function FlowCount(flows: seq<Flow>, f: Flow): nat
  {
    CountKey(flows, FlowKey, Some(f))
  }

  /** The groups of the transitions: each distinct transition once. */
  function FlowGroups(flows: seq<Flow>): (r: seq<Flow>)
    ensures Distinct(r)
    ensures forall f :: f in r <==> f in flows
  {
    KeysOf(flows, FlowKey)
  }

  /** The counts of the Sankey links add up to the number of kept
      transitions. */
  lemma FlowCountsAddUp(flows: seq<Flow>)
    ensures CountOverKeys(flows, FlowKey, SomeKeys(FlowGroups(flows))) == |flows|
  {
    var ks := FlowGroups(flows);
    SomeKeysDistinct(ks);
    var all := [None] + SomeKeys(ks);
    forall x | x in flows
      ensures FlowKey(x) in all
    {
      SomeKeyListed(ks, x);
    }
    CountByKeyConserves(flows, FlowKey, all);
    KeyAbsent(flows, FlowKey, None, (f: Flow) => 0.0);
    assert all[1..] == SomeKeys(ks);
  }

  /** `labels`: the groups of the links' sources then targets, each once. */
  function Labels(groups: seq<Flow>): (r: seq<string>)
    ensures Distinct(r)
    ensures forall g :: g in r <==> exists f :: f in groups && (g == f.0 || g == f.1)
  {
    var sources := seq(|groups|, i requires 0 <= i < |groups| => groups[i].0);
    var targets := seq(|groups|, i requires 0 <= i < |groups| => groups[i].1);
    var r := Unique(sources + targets);
    forall g | exists f :: f in groups && (g == f.0 || g == f.1)
      ensures g in sources + targets
    {
      var f :| f in groups && (g == f.0 || g == f.1);
      var i :| 0 <= i < |groups| && groups[i] == f;
      assert sources[i] == f.0 && targets[i] == f.1;
      assert (sources + targets)[i] == sources[i] && (sources + targets)[|sources| + i] == targets[i];
    }
    r
  }

  /** Every link's endpoints resolve through `label_index`, to a position
      whose label is that group. */
  lemma LinksResolve(groups: seq<Flow>, f: Flow)
    requires f in groups
    ensures var labels := Labels(groups); var idx := IndexMap(labels);
      f.0 in idx && f.1 in idx && labels[idx[f.0]] == f.0 && labels[idx[f.1]] == f.1
  {
  }
}
