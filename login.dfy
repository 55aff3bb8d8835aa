/** The Login page (pages/Login.py): the session helpers, removal of the
    navigation key, the authenticator fallback, and the branch on the status
    the login widget leaves in the store. */
module LoginPage {
  import opened Wrappers
  import opened AuthState
  import App

  /** How one run of render ends. */
  datatype Outcome =
    | TimedOut          // check_timeout logged out and reran
    | NoAuthenticator   // "Authenticator not available", login never called
    | Welcome           // authenticated: nav_active reset, rerun to Home
    | Incorrect         // status False: the credentials error
    | Prompt            // any other falsy status: the info prompt

  /** The store once the helpers ran and "nav" was removed. */
  function Prepared(m: map<string, Value>, now: real): (r: map<string, Value>)
    ensures Nav !in r
    ensures LastActivity in r && r[LastActivity] == Num(now)
    ensures AuthenticationStatus in r
    ensures forall k :: k in m && k != LastActivity && k != Nav ==> k in r && r[k] == m[k]
  {
    var g := WithDefaults(m, now);
    assert AuthenticationStatus in g;
    g[LastActivity := Num(now)] - {Nav}
  }

  /** The first steps of render: the three session helpers, then the
      removal of "nav" when it is present. */
  method Prepare(state: SessionState, now: real) returns (timedOut: bool)
    requires state.Valid()
    modifies state
    ensures state.Valid()
    ensures timedOut <==> Expired(WithDefaults(old(state.entries), now), now, 180.0)
    ensures timedOut ==> state.entries == map[NavActive := Bool(false), Nav := Str("Login")]
    ensures !timedOut ==> state.entries == Prepared(old(state.entries), now)
  {
    state.EnsureSessionKeys(now);
    var flow := state.CheckTimeout(now, 3);
    if flow == Rerun {
      return true;
    }
    state.MarkActivity(now);
    if Nav in state.entries {
      state.entries := state.entries - {Nav};
    }
    timedOut := false;
  }

  /** render.  `built` is the authenticator a given config would build (None
      when no config is passed); `widget` is what the login widget writes to
      the store (status, name, username). */
  method Render(state: SessionState, now: real, authenticator: Option<Authenticator>,
                built: Option<Authenticator>, widget: map<string, Value>) returns (outcome: Outcome)
    requires state.Valid()
    requires widget.Keys <= {AuthenticationStatus, Name, Username}
    modifies state
    ensures state.Valid()
    ensures outcome == TimedOut <==> Expired(WithDefaults(old(state.entries), now), now, 180.0)
    ensures outcome == TimedOut ==> state.entries == map[NavActive := Bool(false), Nav := Str("Login")]
    ensures outcome != TimedOut ==>
      (outcome == NoAuthenticator <==> authenticator.None? && built.None?)
    ensures outcome == NoAuthenticator ==> state.entries == Prepared(old(state.entries), now)
    ensures outcome in {Welcome, Incorrect, Prompt} ==>
      var m := Prepared(old(state.entries), now) + widget;
      var status := m[AuthenticationStatus];
      && (outcome == Welcome <==> App.Truthy(status))
      && (outcome == Incorrect <==> status == Bool(false))
      && (outcome == Welcome ==> state.entries == m[NavActive := Bool(false)])
      && (outcome != Welcome ==> state.entries == m)
  {
    var timedOut := Prepare(state, now);
    if timedOut {
      return TimedOut;
    }

    var auth := authenticator;
    if auth.None? && built.Some? {
      auth := built;
    }
    if auth.None? {
      return NoAuthenticator;
    }

    state.entries := state.entries + widget;
    var status := state.entries[AuthenticationStatus];
    if App.Truthy(status) {
      state.entries := state.entries[NavActive := Bool(false)];
      outcome := Welcome;
    } else if status == Bool(false) {
      outcome := Incorrect;
    } else {
      outcome := Prompt;
    }
  }
}
