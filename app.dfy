/** The entry script (app.py): the three-way branch on the stored
    authentication status, the headline KPIs, the role's homepage, and the
    role's ordered list of dashboard links, emitted once on the page and once
    in the sidebar.  The KPI formulas and the homepage tiles are shared with
    pages/Home.py, which repeats them. */
module App {
  import opened Wrappers
  import opened Seqs
  import opened Tables
  import opened Agg
  import AuthState

  // ---------------------------------------------------------------------
  // KPIs

  function Revenue(orders: seq<Order>): real
  {
    Sum(orders, OrderPrice)
  }

  /** `total_revenue / total_orders if total_orders > 0 else 0`. */
  function AverageOrderValue(revenue: real, count: nat): (r: real)
    ensures count == 0 ==> r == 0.0
    ensures count > 0 ==> r * count as real == revenue
  {
    if count > 0 then revenue / count as real else 0.0
  }

  /** The users that placed an order (the groups of `groupby("user_id")`). */
  function Buyers(orders: seq<Order>): set<Id>
  {
    set o | o in orders :: o.userId
  }

  /** `nunique()` of a user's order ids. */
  function OrderIdsOf(orders: seq<Order>, u: Id): set<Id>
  {
    set o | o in orders && o.userId == u :: o.id
  }

  function RepeatBuyers(orders: seq<Order>): (r: set<Id>)
    ensures r <= Buyers(orders)
  {
    set u | u in Buyers(orders) && |OrderIdsOf(orders, u)| >= 2
  }

  /** `(nunique() >= 2).mean()`: NaN without orders, else a share. */
  function RepeatRate(orders: seq<Order>): (r: Option<real>)
    ensures r.None? <==> orders == []
    ensures r.Some? ==> 0.0 <= r.value <= 1.0
    ensures r.Some? ==> r.value == |RepeatBuyers(orders)| as real / |Buyers(orders)| as real
  {
    SubsetCard(RepeatBuyers(orders), Buyers(orders));
    assert orders != [] ==> orders[0].userId in Buyers(orders);
    Ratio(|RepeatBuyers(orders)|, |Buyers(orders)|)
  }

  lemma TwoElements<T>(s: set<T>)
    ensures |s| >= 2 <==> exists a, b :: a in s && b in s && a != b
  {
    if |s| >= 2 {
      var a :| a in s;
      assert |s - {a}| == |s| - 1;
      var b :| b in s - {a};
      assert a in s && b in s && a != b;
    }
    if exists a, b :: a in s && b in s && a != b {
      var a, b :| a in s && b in s && a != b;
      SubsetCard({a, b}, s);
    }
  }

  /** A repeat buyer is a user with two order rows of different order ids;
      several rows of one order do not make a repeat buyer. */
  lemma RepeatBuyerIff(orders: seq<Order>, u: Id)
    ensures u in RepeatBuyers(orders) <==>
      exists a, b :: a in orders && b in orders && a.userId == u && b.userId == u && a.id != b.id
  {
    var ids := OrderIdsOf(orders, u);
    TwoElements(ids);
    if exists a, b :: a in orders && b in orders && a.userId == u && b.userId == u && a.id != b.id {
      var a, b :| a in orders && b in orders && a.userId == u && b.userId == u && a.id != b.id;
      assert a.id in ids && b.id in ids;
      assert u in Buyers(orders);
    }
  }

  datatype Kpis = Kpis(
    totalSessions: nat,
    totalOrders: nat,
    totalRevenue: real,
    conversion: Option<real>,
    averageOrderValue: real,
    repeatRate: Option<real>)

  /** The six headline figures over the unfiltered session and order tables:
      the average order value times the order count gives back the revenue,
      and the two rates are shares, missing exactly when their base is empty. */
  function KpisOf(sessions: seq<Session>, orders: seq<Order>): (k: Kpis)
    ensures k.totalSessions == |sessions| && k.totalOrders == |orders|
    ensures k.averageOrderValue == AverageOrderValue(Revenue(orders), k.totalOrders)
    ensures k.conversion.None? <==> sessions == []
    ensures k.repeatRate.None? <==> orders == []
    ensures k.conversion.Some? ==> 0.0 <= k.conversion.value <= 1.0
    ensures k.repeatRate.Some? ==> 0.0 <= k.repeatRate.value <= 1.0
    ensures k.totalRevenue == Revenue(orders)
    ensures k.conversion == ConversionRate(sessions, orders)
    ensures k.repeatRate == RepeatRate(orders)
  {
    var revenue := Revenue(orders);
    var aov := AverageOrderValue(revenue, |orders|);
    Kpis(|sessions|, |orders|, revenue, ConversionRate(sessions, orders), aov, RepeatRate(orders))
  }

  // ---------------------------------------------------------------------
  // Homepages

  datatype Home = AdminHome | CeoHome | WebsiteManagerHome | MarketingHome | NoHomepage

  /** The role-specific homepage; any other role gets the "no configured
      homepage" error. */
  function HomeOf(role: string): (h: Home)
    ensures h == NoHomepage <==> role !in {"admin", "ceo", "website_manager", "marketing_manager"}
  {
    if role == "admin" then AdminHome
    else if role == "ceo" then CeoHome
    else if role == "website_manager" then WebsiteManagerHome
    else if role == "marketing_manager" then MarketingHome
    else NoHomepage
  }

  /** The metric tiles a homepage shows, in order. */
  datatype Tile = SessionsTile | OrdersTile | RevenueTile | ConversionTile | AovTile | RepeatTile | EngagementTile

  function Tiles(h: Home): seq<Tile>
  {
    match h
    case AdminHome => [SessionsTile, OrdersTile, RevenueTile, ConversionTile, AovTile, RepeatTile]
    case CeoHome => [RevenueTile, ConversionTile, AovTile]
    case WebsiteManagerHome => [SessionsTile, ConversionTile]
    case MarketingHome => [SessionsTile, RepeatTile, EngagementTile]
    case NoHomepage => []
  }

  /** The figure behind a tile. */
  datatype Figure = Count(n: nat) | Money(x: real) | Rate(p: Option<real>)

  function TileFigure(t: Tile, k: Kpis): Figure
  {
    match t
    case SessionsTile => Count(k.totalSessions)
    case OrdersTile => Count(k.totalOrders)
    case RevenueTile => Money(k.totalRevenue)
    case ConversionTile => Rate(k.conversion)
    case AovTile => Money(k.averageOrderValue)
    case RepeatTile => Rate(k.repeatRate)
    case EngagementTile => Rate(k.conversion)
  }

  /** The marketing homepage's "Engagement Rate" is the conversion rate under
      another label, and only the admin homepage shows the order count. */
  lemma EngagementIsConversion(k: Kpis)
    ensures TileFigure(EngagementTile, k) == TileFigure(ConversionTile, k)
    ensures forall h :: OrdersTile in Tiles(h) <==> h == AdminHome
  {
  }

  // ---------------------------------------------------------------------
  // The authentication branch

  /** Python truthiness of a stored value. */
  predicate Truthy(v: AuthState.Value)
  {
    match v
    case Null => false
    case Bool(b) => b
    case Str(s) => s != ""
    case Num(x) => x != 0.0
  }

  datatype Screen = Dashboard | IncorrectCredentials | LoginPrompt | Blank

  /** `if status: … elif status is False: … elif status is None: …`; another
      falsy value (an empty string, a zero) matches no branch. */
  function StatusScreen(status: AuthState.Value): (s: Screen)
    ensures s == Dashboard <==> Truthy(status)
    ensures s == IncorrectCredentials <==> status == AuthState.Bool(false)
    ensures s == LoginPrompt <==> status == AuthState.Null
    ensures s == Blank <==> status in {AuthState.Str(""), AuthState.Num(0.0)}
  {
    if Truthy(status) then Dashboard
    else if status == AuthState.Bool(false) then IncorrectCredentials
    else if status == AuthState.Null then LoginPrompt
    else Blank
  }

  // ---------------------------------------------------------------------
  // Role → dashboards

  /** The dashboard scripts' names; each path in ROLE_DASHBOARDS is
      `pages/<name>.py`, and the link rules match on the name. */
  const PageNames: seq<string> := [
    "1_Traffic_&_Acquisition",
    "2_Channel_Performance_&_Trends",
    "3_Channel_Quality_Metrics",
    "4_Attribution_Analysis",
    "5_Conversion_Journey",
    "6_Product_Journey_Flows",
    "7_Product_Performance",
    "8_User_Engagement",
    "9_Customer_Insights"]

  function PagePath(name: string): string
  {
    "pages/" + name + ".py"
  }

  const AdminPages: seq<string> := [
    PagePath(PageNames[0]), PagePath(PageNames[1]), PagePath(PageNames[2]),
    PagePath(PageNames[3]), PagePath(PageNames[4]), PagePath(PageNames[5]),
    PagePath(PageNames[6]), PagePath(PageNames[7]), PagePath(PageNames[8])]

  /** ROLE_DASHBOARDS; the other roles list admin's pages in their own order. */
  const RoleDashboards: map<string, seq<string>> := map[
    "admin" := AdminPages,
    "ceo" := [AdminPages[0], AdminPages[1], AdminPages[6], AdminPages[5], AdminPages[8]],
    "website_manager" := [AdminPages[2], AdminPages[4], AdminPages[5], AdminPages[1]],
    "marketing_manager" := [AdminPages[0], AdminPages[1], AdminPages[2], AdminPages[3], AdminPages[7]]]

  /** `ROLE_DASHBOARDS.get(role, [])`. */
  function AllowedPages(role: string): (r: seq<string>)
    ensures role !in RoleDashboards ==> r == []
  {
    if role in RoleDashboards then RoleDashboards[role] else []
  }

  /** admin lists all nine pages, and every role's pages are admin's. */
  lemma RolesWithinAdmin(role: string)
    ensures |AllowedPages("admin")| == 9
    ensures forall p :: p in AllowedPages(role) ==> p in AllowedPages("admin")
  {
  }

  // ---------------------------------------------------------------------
  // Links

  /** A page path contains its own script name. */
  lemma PathContainsName(name: string)
    ensures Contains(PagePath(name), name)
  {
    assert PagePath(name)[6..6 + |name|] == name;
    assert Occurs(PagePath(name), name, 6);
  }

  /** The if/elif chain of the link loops, as (substring, label) rules. */
  const LabelRules: seq<(string, string)> := [
    (PageNames[0], "Traffic & Acquisition"),
    (PageNames[1], "Channel Performance & Trends"),
    (PageNames[2], "Channel Quality Metrics"),
    (PageNames[3], "Attribution Analysis"),
    (PageNames[4], "Conversion Journey"),
    (PageNames[5], "Product Journey Flows"),
    (PageNames[6], "Product Performance & Revenue"),
    (PageNames[7], "User Engagement"),
    (PageNames[8], "Customer Insights")]

  /** The label of the first rule whose substring the page contains. */
  function FirstLabel(page: string, rules: seq<(string, string)>): (r: Option<string>)
    ensures r.Some? ==> exists j :: 0 <= j < |rules| && r.value == rules[j].1
  {
    if rules == [] then None
    else if Contains(page, rules[0].0) then Some(rules[0].1)
    else
      var r := FirstLabel(page, rules[1..]);
      assert r.Some? ==> exists j :: 0 <= j < |rules[1..]| && r.value == rules[1..][j].1;
      r
  }

  /** The if/elif chain: no label when no rule matches, otherwise the label
      of a matching rule with no matching rule before it. */
  lemma {:induction false} FirstLabelFirstMatch(page: string, rules: seq<(string, string)>)
    ensures FirstLabel(page, rules).None? <==> forall j :: 0 <= j < |rules| ==> !Contains(page, rules[j].0)
    ensures FirstLabel(page, rules).Some? ==>
      exists j :: 0 <= j < |rules| && Contains(page, rules[j].0) && FirstLabel(page, rules).value == rules[j].1
                  && forall i :: 0 <= i < j ==> !Contains(page, rules[i].0)
  {
    if rules != [] && !Contains(page, rules[0].0) {
      var tail := rules[1..];
      FirstLabelFirstMatch(page, tail);
      assert forall j :: 1 <= j < |rules| ==> rules[j] == tail[j - 1];
      if FirstLabel(page, tail).Some? {
        var j :| 0 <= j < |tail| && Contains(page, tail[j].0) && FirstLabel(page, tail).value == tail[j].1
                 && forall i :: 0 <= i < j ==> !Contains(page, tail[i].0);
        assert forall i :: 0 <= i < j + 1 ==> !Contains(page, rules[i].0);
        assert Contains(page, rules[j + 1].0);
      }
    }
  }

  datatype Link = Link(page: string, caption: string)

  /** The links the loop over `pages` emits under `rules`, first to last. */
  function Links(pages: seq<string>, rules: seq<(string, string)>): (r: seq<Link>)
    ensures |r| <= |pages|
  {
    if pages == [] then []
    else
      var last := pages[|pages| - 1];
      Links(pages[..|pages| - 1], rules)
        + (match FirstLabel(last, rules) case Some(l) => [Link(last, l)] case None => [])
  }

  /** When every page matches a rule, each page yields exactly one link, in
      list order, labelled by its first matching rule. */
  lemma {:induction false} LinksOneEach(pages: seq<string>, rules: seq<(string, string)>)
    requires forall p :: p in pages ==> FirstLabel(p, rules).Some?
    ensures |Links(pages, rules)| == |pages|
    ensures forall i :: 0 <= i < |pages| ==>
      Links(pages, rules)[i].page == pages[i] && Some(Links(pages, rules)[i].caption) == FirstLabel(pages[i], rules)
  {
    if pages != [] {
      var init := pages[..|pages| - 1];
      var last := pages[|pages| - 1];
      assert forall p :: p in init ==> p in pages;
      LinksOneEach(init, rules);
      assert last in pages;
      var l := FirstLabel(last, rules).value;
      var r := Links(pages, rules);
      assert r == Links(init, rules) + [Link(last, l)];
      forall i | 0 <= i < |pages|
        ensures r[i].page == pages[i] && Some(r[i].caption) == FirstLabel(pages[i], rules)
      {
        if i < |init| {
          assert r[i] == Links(init, rules)[i] && pages[i] == init[i];
        }
      }
    }
  }

  /** A page whose path contains some rule's substring gets a link. */
  lemma Labelled(page: string, rules: seq<(string, string)>, k: nat)
    requires k < |rules| && Contains(page, rules[k].0)
    ensures FirstLabel(page, rules).Some?
  {
    FirstLabelFirstMatch(page, rules);
  }

  /** Every one of admin's pages is labelled. */
  lemma AdminPagesLabelled(page: string)
    requires page in AdminPages
    ensures FirstLabel(page, LabelRules).Some?
  {
    var k :| 0 <= k < 9 && page == PagePath(PageNames[k]);
    PathContainsName(PageNames[k]);
    assert LabelRules[k].0 == PageNames[k];
    Labelled(page, LabelRules, k);
  }

  /** So each role's link list has exactly one link per allowed page, in the
      role's order, labelled by the page's rule. */
  lemma RoleLinksOneEach(role: string)
    ensures |Links(AllowedPages(role), LabelRules)| == |AllowedPages(role)|
    ensures forall i :: 0 <= i < |AllowedPages(role)| ==>
      Links(AllowedPages(role), LabelRules)[i].page == AllowedPages(role)[i]
      && Some(Links(AllowedPages(role), LabelRules)[i].caption) == FirstLabel(AllowedPages(role)[i], LabelRules)
  {
    RolesWithinAdmin(role);
    forall p | p in AllowedPages(role)
      ensures FirstLabel(p, LabelRules).Some?
    {
      AdminPagesLabelled(p);
    }
    LinksOneEach(AllowedPages(role), LabelRules);
  }

  /** The link loop (used for both the page and the sidebar). */
  method EmitLinks(pages: seq<string>, rules: seq<(string, string)>) returns (links: seq<Link>)
    ensures links == Links(pages, rules)
  {
    links := [];
    var i := 0;
    while i < |pages|
      invariant 0 <= i <= |pages|
      invariant links == Links(pages[..i], rules)
    {
      assert pages[..i + 1][..i] == pages[..i];
      var found := FirstLabel(pages[i], rules);
      if found.Some? {
        links := links + [Link(pages[i], found.value)];
      }
      i := i + 1;
    }
    assert pages[..i] == pages;
  }

  // ---------------------------------------------------------------------
  // One run of the script

  datatype AppPage = AppPage(screen: Screen, home: Option<Home>, kpis: Option<Kpis>, links: seq<Link>, sidebar: seq<Link>)

  /** The script after login: the branch on the status, then, on the
      dashboard branch, the KPIs, the role looked up from the user table
      (an unknown user raises KeyError), the homepage and the two link loops.
      `users` maps each configured username to its role. */
  method Render(status: AuthState.Value, username: AuthState.Value, users: map<string, string>,
                sessions: seq<Session>, orders: seq<Order>) returns (r: Result<AppPage, string>)
    ensures r.Err? <==> Truthy(status) && !(username.Str? && username.s in users)
    ensures r.Ok? ==> r.value.screen == StatusScreen(status)
    ensures r.Ok? && !Truthy(status) ==> r.value == AppPage(StatusScreen(status), None, None, [], [])
    ensures r.Ok? && Truthy(status) ==>
      var role := users[username.s];
      r.value.home == Some(HomeOf(role))
      && r.value.kpis == Some(KpisOf(sessions, orders))
      && r.value.links == Links(AllowedPages(role), LabelRules)
      && r.value.sidebar == r.value.links
  {
    var screen := StatusScreen(status);
    if screen != Dashboard {
      return Ok(AppPage(screen, None, None, [], []));
    }
    var kpis := KpisOf(sessions, orders);
    if !(username.Str? && username.s in users) {
      return Err("KeyError");
    }
    var role := users[username.s];
    var allowed := AllowedPages(role);
    var links := EmitLinks(allowed, LabelRules);
    var sidebar := EmitLinks(allowed, LabelRules);
    r := Ok(AppPage(screen, Some(HomeOf(role)), Some(kpis), links, sidebar));
  }

  /** A user whose role is not configured sees the error and no links. */
  lemma UnknownRoleNoLinks(role: string)
    requires role !in {"admin", "ceo", "website_manager", "marketing_manager"}
    ensures HomeOf(role) == NoHomepage && Tiles(HomeOf(role)) == []
    ensures Links(AllowedPages(role), LabelRules) == []
  {
  }
}
