/** The login bookkeeping kept in Streamlit's per-browser session store
    (utils/auth_state.py).  The store is a mutable map from key to value;
    "now" is passed in instead of read from the clock. */
module AuthState {
  import opened Wrappers

  /** The values the dashboard keeps in the store. */
  datatype Value = Null | Bool(b: bool) | Str(s: string) | Num(x: real)

  const AuthenticationStatus: string := "authentication_status"
  const Username: string := "username"
  const Name: string := "name"
  const Email: string := "email"
  const LastActivity: string := "last_activity_ts"
  const NavActive: string := "nav_active"
  const Nav: string := "nav"

  /** The default keys, in the order ensure_session_keys visits them. */
  const DefaultOrder: seq<string> := [AuthenticationStatus, Username, Name, Email, LastActivity, NavActive, Nav]

  const DefaultKeys: set<string> := {AuthenticationStatus, Username, Name, Email, LastActivity, NavActive, Nav}

  /** The default value of a key: the activity time is now, nav_active is
      False, the rest are None. */
  function DefaultValue(k: string, now: real): Value
  {
    if k == LastActivity then Num(now) else if k == NavActive then Bool(false) else Null
  }

  /** Insert the default of each key of `ks` that is missing, first to last. */
  function AddMissing(m: map<string, Value>, ks: seq<string>, now: real): (r: map<string, Value>)
    ensures r.Keys == m.Keys + set k | k in ks
    ensures forall k :: k in m ==> r[k] == m[k]
    ensures forall k :: k in r && k !in m ==> r[k] == DefaultValue(k, now)
  {
    if ks == [] then m
    else
      var before := AddMissing(m, ks[..|ks| - 1], now);
      var k := ks[|ks| - 1];
      assert ks == ks[..|ks| - 1] + [k];
      if k in before then before else before[k := DefaultValue(k, now)]
  }

  /** The store after ensure_session_keys: every default key present, and
      no entry that was there overwritten. */
  function WithDefaults(m: map<string, Value>, now: real): (r: map<string, Value>)
    ensures r.Keys == m.Keys + DefaultKeys
    ensures forall k :: k in m ==> r[k] == m[k]
    ensures forall k :: k in DefaultKeys && k !in m ==> r[k] == DefaultValue(k, now)
  {
    assert (set k | k in DefaultOrder) == DefaultKeys;
    AddMissing(m, DefaultOrder, now)
  }

  lemma AddMissingStep(m: map<string, Value>, ks: seq<string>, i: nat, now: real)
    requires i < |ks|
    ensures var before := AddMissing(m, ks[..i], now);
      AddMissing(m, ks[..i + 1], now)
      == if ks[i] in before then before else before[ks[i] := DefaultValue(ks[i], now)]
  {
    assert ks[..i + 1][..i] == ks[..i];
  }

  /** The defaults keep the activity time a number or None. */
  lemma DefaultsKeepValid(m: map<string, Value>, now: real)
    requires LastActivity in m ==> m[LastActivity].Null? || m[LastActivity].Num?
    ensures var r := WithDefaults(m, now);
      LastActivity in r ==> r[LastActivity].Null? || r[LastActivity].Num?
  {
  }

  /** A second ensure_session_keys, at any later time, changes nothing. */
  lemma WithDefaultsIdempotent(m: map<string, Value>, now: real, later: real)
    ensures WithDefaults(WithDefaults(m, now), later) == WithDefaults(m, now)
  {
  }

  /** The expiry test of is_session_expired, on a store that holds a time. */
  predicate Expired(m: map<string, Value>, now: real, timeoutSeconds: real)
  {
    LastActivity in m && m[LastActivity].Num? && now - m[LastActivity].x > timeoutSeconds
  }

  /** What the authenticator object is to logout: whether its `logout` raises. */
  datatype Authenticator = Authenticator(logoutRaises: bool)

  class SessionState {
    var entries: map<string, Value>

    /** The activity time is a number or None whenever it is present. */
    predicate Valid()
      reads this
    {
      LastActivity in entries ==> entries[LastActivity].Null? || entries[LastActivity].Num?
    }

    constructor (initial: map<string, Value>)
      ensures entries == initial
    {
      entries := initial;
    }

    /** ensure_session_keys: the insertion loop over the defaults. */
    method EnsureSessionKeys(now: real)
      requires Valid()
      modifies this
      ensures Valid()
      ensures entries == WithDefaults(old(entries), now)
    {
      var ks := DefaultOrder;
      var i := 0;
      while i < |ks|
        invariant 0 <= i <= |ks|
        invariant entries == AddMissing(old(entries), ks[..i], now)
      {
        var k := ks[i];
        AddMissingStep(old(entries), ks, i, now);
        if k !in entries {
          entries := entries[k := DefaultValue(k, now)];
        }
        i := i + 1;
      }
      assert ks[..|ks|] == ks;
      DefaultsKeepValid(old(entries), now);
    }

    /** mark_activity: the activity time becomes now, nothing else changes. */
    method MarkActivity(now: real)
      modifies this
      ensures entries == old(entries)[LastActivity := Num(now)]
      ensures Valid()
    {
      entries := entries[LastActivity := Num(now)];
    }

    /** is_session_expired: a missing or None time is stamped with now and
        does not expire; otherwise the session expired iff strictly more than
        the timeout has passed. */
    method IsSessionExpired(now: real, timeoutSeconds: real) returns (expired: bool)
      requires Valid()
      modifies this
      ensures Valid()
      ensures expired == Expired(old(entries), now, timeoutSeconds)
      ensures LastActivity !in old(entries) || old(entries)[LastActivity].Null? ==>
        entries == old(entries)[LastActivity := Num(now)]
      ensures LastActivity in old(entries) && old(entries)[LastActivity].Num? ==> entries == old(entries)
    {
      var ts := if LastActivity in entries then entries[LastActivity] else Null;
      if ts.Null? {
        entries := entries[LastActivity := Num(now)];
        expired := false;
      } else {
        expired := now - ts.x > timeoutSeconds;
      }
    }

    /** logout_and_redirect: an exception from the authenticator's logout is
        swallowed, the whole store is cleared, exactly the two navigation
        keys are written, and the script reruns. */
    method LogoutAndRedirect(authenticator: Option<Authenticator>, target: string) returns (flow: Flow, cookieCleared: bool)
      modifies this
      ensures entries == map[NavActive := Bool(false), Nav := Str(target)]
      ensures entries.Keys == {NavActive, Nav}
      ensures Valid()
      ensures cookieCleared == (authenticator.Some? && !authenticator.value.logoutRaises)
      ensures flow == Rerun
    {
      cookieCleared := false;
      if authenticator.Some? {
        if !authenticator.value.logoutRaises {
          cookieCleared := true;
        }
      }
      entries := map[];
      entries := entries[NavActive := Bool(false)];
      entries := entries[Nav := Str(target)];
      flow := Rerun;
    }

    /** check_timeout: the threshold in minutes becomes seconds; an expired
        session is logged out to "Login" and the script reruns. */
    method CheckTimeout(now: real, thresholdMinutes: int) returns (flow: Flow)
      requires Valid()
      modifies this
      ensures Valid()
      ensures flow == Rerun <==> Expired(old(entries), now, (thresholdMinutes * 60) as real)
      ensures flow != Rerun ==> flow == Continue
      ensures flow == Rerun ==> entries == map[NavActive := Bool(false), Nav := Str("Login")]
      ensures flow == Continue && (LastActivity !in old(entries) || old(entries)[LastActivity].Null?) ==>
        entries == old(entries)[LastActivity := Num(now)]
      ensures flow == Continue && LastActivity in old(entries) && old(entries)[LastActivity].Num? ==>
        entries == old(entries)
    {
      var expired := IsSessionExpired(now, (thresholdMinutes * 60) as real);
      if expired {
        var cleared;
        flow, cleared := LogoutAndRedirect(None, "Login");
      } else {
        flow := Continue;
      }
    }
  }
}
