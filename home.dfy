/** The Home page (pages/Home.py): the session guards, the headline KPIs and
    the role's homepage (the same formulas and tiles as the entry script), and
    the role-aware navigation built from its own ROLE_DASHBOARDS and
    PAGES_MAP, whose paths spell "and" where the entry script has "&". */
module HomePage {
  import opened Wrappers
  import opened Tables
  import App
  import opened AuthState

  const HomePageNames: seq<string> := [
    "1_Traffic_and_Acquisition",
    "2_Channel_Performance_and_Trends",
    "3_Channel_Quality_Metrics",
    "4_Attribution_Analysis",
    "5_Conversion_Journey",
    "6_Product_Journey_Flows",
    "7_Product_Performance",
    "8_User_Engagement",
    "9_Customer_Insights"]

  const HomePaths: seq<string> := [
    App.PagePath(HomePageNames[0]), App.PagePath(HomePageNames[1]), App.PagePath(HomePageNames[2]),
    App.PagePath(HomePageNames[3]), App.PagePath(HomePageNames[4]), App.PagePath(HomePageNames[5]),
    App.PagePath(HomePageNames[6]), App.PagePath(HomePageNames[7]), App.PagePath(HomePageNames[8])]

  /** This page's ROLE_DASHBOARDS. */
  const RoleDashboards: map<string, seq<string>> := map[
    "admin" := HomePaths,
    "ceo" := [HomePaths[0], HomePaths[1], HomePaths[6], HomePaths[5], HomePaths[8]],
    "website_manager" := [HomePaths[2], HomePaths[4], HomePaths[5], HomePaths[1]],
    "marketing_manager" := [HomePaths[0], HomePaths[1], HomePaths[2], HomePaths[3], HomePaths[7]]]

  /** `ROLE_DASHBOARDS.get(role, [])`. */
  function AllowedPages(role: string): (r: seq<string>)
    ensures role !in RoleDashboards ==> r == []
  {
    if role in RoleDashboards then RoleDashboards[role] else []
  }

  /** admin lists all nine pages, and every role's pages are admin's. */
  lemma RolesWithinAdmin(role: string)
    ensures |AllowedPages("admin")| == 9
    ensures forall p :: p in AllowedPages(role) ==> p in AllowedPages("admin")
  {
  }

  /** PAGES_MAP: each path to the title of its navigation entry. */
  const PagesMap: map<string, string> := map[
    HomePaths[0] := "Traffic & Acquisition",
    HomePaths[1] := "Channel Performance & Trends",
    HomePaths[2] := "Channel Quality Metrics",
    HomePaths[3] := "Attribution Analysis",
    HomePaths[4] := "Conversion Journey",
    HomePaths[5] := "Product Journey Flows",
    HomePaths[6] := "Product Performance",
    HomePaths[7] := "User Engagement",
    HomePaths[8] := "Customer Insights"]

  datatype NavEntry = NavEntry(path: string, title: string)

  /** `[PAGES_MAP[p] for p in allowed_pages if p in PAGES_MAP]`. */
  function Navigation(allowed: seq<string>, pages: map<string, string>): (r: seq<NavEntry>)
    ensures |r| <= |allowed|
    ensures forall e :: e in r ==> e.path in allowed && e.path in pages && e.title == pages[e.path]
  {
    if allowed == [] then []
    else
      var head := if allowed[0] in pages then [NavEntry(allowed[0], pages[allowed[0]])] else [];
      head + Navigation(allowed[1..], pages)
  }

  /** Every allowed page that has an entry is shown. */
  lemma {:induction false} NavigationComplete(allowed: seq<string>, pages: map<string, string>)
    ensures forall p :: p in allowed && p in pages ==> NavEntry(p, pages[p]) in Navigation(allowed, pages)
  {
    if allowed != [] {
      NavigationComplete(allowed[1..], pages);
      forall p | p in allowed && p in pages
        ensures NavEntry(p, pages[p]) in Navigation(allowed, pages)
      {
        if p != allowed[0] {
          assert p in allowed[1..];
        }
      }
    }
  }

  /** The filter keeps the list's order: it distributes over concatenation. */
  lemma {:induction false} NavigationAppend(a: seq<string>, b: seq<string>, pages: map<string, string>)
    ensures Navigation(a + b, pages) == Navigation(a, pages) + Navigation(b, pages)
  {
    if a != [] {
      assert (a + b)[0] == a[0] && (a + b)[1..] == a[1..] + b;
      NavigationAppend(a[1..], b, pages);
    } else {
      assert a + b == b;
    }
  }

  /** When every allowed page has an entry, the navigation is the allowed
      list itself, entry by entry. */
  lemma {:induction false} NavigationAll(allowed: seq<string>, pages: map<string, string>)
    requires forall p :: p in allowed ==> p in pages
    ensures |Navigation(allowed, pages)| == |allowed|
    ensures forall i :: 0 <= i < |allowed| ==> Navigation(allowed, pages)[i] == NavEntry(allowed[i], pages[allowed[i]])
  {
    if allowed != [] {
      assert forall p :: p in allowed[1..] ==> p in allowed;
      NavigationAll(allowed[1..], pages);
      assert allowed[0] in allowed;
    }
  }

  /** Each role's navigation lists all its allowed pages, in its own order;
      an unknown role's navigation is empty. */
  lemma RoleNavigation(role: string)
    ensures |Navigation(AllowedPages(role), PagesMap)| == |AllowedPages(role)|
    ensures forall i :: 0 <= i < |AllowedPages(role)| ==>
      Navigation(AllowedPages(role), PagesMap)[i].path == AllowedPages(role)[i]
    ensures role !in RoleDashboards ==> Navigation(AllowedPages(role), PagesMap) == []
  {
    RolesWithinAdmin(role);
    assert forall p :: p in HomePaths ==> p in PagesMap;
    NavigationAll(AllowedPages(role), PagesMap);
  }

  /** How one run of render ends. */
  datatype Outcome =
    | TimedOut                    // check_timeout logged out and reran
    | NotAuthenticated            // the guard logged out and reran
    | LoggedOut                   // the Logout button logged out and reran
    | UnknownUser                 // the role lookup raised KeyError
    | Shown(home: App.Home, kpis: App.Kpis, nav: seq<NavEntry>)

  /** The store after the guards: defaults in place, activity stamped now. */
  function Guarded(m: map<string, Value>, now: real): (r: map<string, Value>)
    ensures r.Keys == m.Keys + DefaultKeys
    ensures r[LastActivity] == Num(now)
    ensures forall k :: k in m && k != LastActivity ==> r[k] == m[k]
  {
    WithDefaults(m, now)[LastActivity := Num(now)]
  }

  const LoggedOutStore: map<string, Value> := map[NavActive := Bool(false), Nav := Str("Login")]

  /** The three session helpers render calls before anything else. */
  method Guard(state: SessionState, now: real) returns (timedOut: bool)
    requires state.Valid()
    modifies state
    ensures state.Valid()
    ensures timedOut <==> Expired(WithDefaults(old(state.entries), now), now, 180.0)
    ensures timedOut ==> state.entries == LoggedOutStore
    ensures !timedOut ==> state.entries == Guarded(old(state.entries), now)
  {
    state.EnsureSessionKeys(now);
    var flow := state.CheckTimeout(now, 3);
    if flow == Rerun {
      return true;
    }
    state.MarkActivity(now);
    timedOut := false;
  }

  /** render: the three session helpers run first; a timed-out or
      unauthenticated session, and a click on Logout, clear the store down to
      the navigation keys and rerun; otherwise the role is looked up in the
      user table (`users`, username to role) and the homepage, KPIs and
      navigation are shown. */
  method Render(state: SessionState, now: real, authenticator: Option<Authenticator>, logoutClicked: bool,
                users: map<string, string>, sessions: seq<Session>, orders: seq<Order>) returns (outcome: Outcome)
    requires state.Valid()
    modifies state
    ensures state.Valid()
    ensures outcome == TimedOut <==> Expired(WithDefaults(old(state.entries), now), now, 180.0)
    ensures outcome in {TimedOut, NotAuthenticated, LoggedOut} ==> state.entries == LoggedOutStore
    ensures outcome != TimedOut ==>
      var status := WithDefaults(old(state.entries), now)[AuthenticationStatus];
      && (outcome == NotAuthenticated <==> !App.Truthy(status))
      && (outcome == LoggedOut <==> App.Truthy(status) && logoutClicked)
    ensures outcome == UnknownUser || outcome.Shown? ==>
      var m := Guarded(old(state.entries), now);
      && state.entries == m
      && (outcome == UnknownUser <==> !(m[Username].Str? && m[Username].s in users))
      && (outcome.Shown? ==>
            var role := users[m[Username].s];
            && outcome.home == App.HomeOf(role)
            && outcome.kpis == App.KpisOf(sessions, orders)
            && outcome.nav == Navigation(AllowedPages(role), PagesMap))
  {
    var timedOut := Guard(state, now);
    if timedOut {
      return TimedOut;
    }
    var status := state.entries[AuthenticationStatus];
    assert status == WithDefaults(old(state.entries), now)[AuthenticationStatus];
    var flow, cleared;
    if !App.Truthy(status) {
      flow, cleared := state.LogoutAndRedirect(authenticator, "Login");
      return NotAuthenticated;
    }
    if logoutClicked {
      flow, cleared := state.LogoutAndRedirect(authenticator, "Login");
      return LoggedOut;
    }
    var username := state.entries[Username];
    if !(username.Str? && username.s in users) {
      return UnknownUser;
    }
    var role := users[username.s];
    var kpis := App.KpisOf(sessions, orders);
    outcome := Shown(App.HomeOf(role), kpis, Navigation(AllowedPages(role), PagesMap));
  }
}
