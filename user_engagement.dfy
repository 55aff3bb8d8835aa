/** User Engagement (pages/8_User_Engagement.py): the bounce-rate KPI, the
    top and entry pages, bounce rate per entry page, the gaps between a
    user's repeat sessions, the navigation paths and the first-three-step
    Sankey links.  The inputs are the already filtered sessions and
    pageviews. */
module UserEngagement {
  import opened Wrappers
  import opened Seqs
  import opened Tables
  import Agg
  import Groups

  // ---------------------------------------------------------------------
  // Bounce rate KPI

  /** The `pv_count` a session row receives: the grouping drops a missing
      session id, so such a row matches nothing and is filled with 0. */
  function PvCount(pvs: seq<Pageview>, s: Session): (r: nat)
    ensures s.id.None? ==> r == 0
    ensures s.id.Some? ==> (r == 0 <==> forall p :: p in pvs ==> p.sessionId != s.id)
  {
    if s.id.None? then 0
    else
      CountKeyZero(pvs, Agg.PvSession, s.id);
      Agg.PageviewCount(pvs, s.id)
  }

  /** The session rows with exactly one pageview, in input order. */
  function BouncedRows(sessions: seq<Session>, pvs: seq<Pageview>): (r: seq<Session>)
    ensures |r| <= |sessions|
    ensures forall s :: s in r <==> s in sessions && PvCount(pvs, s) == 1
  {
    if sessions == [] then []
    else
      assert forall s :: s in sessions <==> s == sessions[0] || s in sessions[1..];
      (if PvCount(pvs, sessions[0]) == 1 then [sessions[0]] else [])
      + BouncedRows(sessions[1..], pvs)
  }

  /** `bounce_rate`: None without sessions, else the share of session rows
      with exactly one pageview. */
  function BounceRate(sessions: seq<Session>, pvs: seq<Pageview>): (r: Option<real>)
    ensures r.None? <==> sessions == []
    ensures r.Some? ==> 0.0 <= r.value <= 1.0
    ensures r.Some? ==> r.value == |BouncedRows(sessions, pvs)| as real / |sessions| as real
  {
    Agg.Ratio(|BouncedRows(sessions, pvs)|, |sessions|)
  }

  /** On sessions that all carry an id (every filtered session does), the
      page's rate is compute_bounce_rate's. */
  lemma {:induction false} PageBounceIsAggBounce(sessions: seq<Session>, pvs: seq<Pageview>)
    requires forall s :: s in sessions ==> s.id.Some?
    ensures BounceRate(sessions, pvs) == Agg.BounceRate(sessions, pvs)
  {
    BouncedRowsAgree(sessions, pvs);
  }

  lemma {:induction false} BouncedRowsAgree(sessions: seq<Session>, pvs: seq<Pageview>)
    requires forall s :: s in sessions ==> s.id.Some?
    ensures BouncedRows(sessions, pvs) == Agg.Bounced(sessions, pvs)
  {
    if sessions != [] {
      assert forall s :: s in sessions[1..] ==> s in sessions;
      BouncedRowsAgree(sessions[1..], pvs);
    }
  }

  /** A session without pageviews is never a bounce. */
  lemma {:induction false} NoPageviewsNoBounce(sessions: seq<Session>)
    requires sessions != []
    ensures BounceRate(sessions, []) == Some(0.0)
  {
    NoneBounced(sessions);
  }

  lemma {:induction false} NoneBounced(sessions: seq<Session>)
    ensures BouncedRows(sessions, []) == []
  {
    if sessions != [] {
      NoneBounced(sessions[1..]);
    }
  }

  // ---------------------------------------------------------------------
  // Top pages

  function Url(p: Pageview): string { p.url }

  function Urls(pvs: seq<Pageview>): (r: seq<string>)
    ensures |r| == |pvs|
    ensures forall i :: 0 <= i < |pvs| ==> r[i] == pvs[i].url
  {
    seq(|pvs|, i requires 0 <= i < |pvs| => pvs[i].url)
  }

  /** `top_pages`: views per URL; over the distinct URLs they count every
      pageview once. */
  lemma TopPagesAddUp(pvs: seq<Pageview>)
    ensures CountOverKeys(pvs, Url, Unique(Urls(pvs))) == |pvs|
  {
    var us := Urls(pvs);
    forall p | p in pvs ensures Url(p) in Unique(us) {
      var i :| 0 <= i < |pvs| && pvs[i] == p;
      assert us[i] == Url(p);
    }
    CountByKeyConserves(pvs, Url, Unique(us));
  }

  // ---------------------------------------------------------------------
  // Pageviews of one session in time order

  /** The sort key: `created_at`, NaT last. */
  function Ts(p: Pageview): Option<int> { Seconds(p.createdAt) }

  /** The rows of session `sid`, in the order of `s`. */
  function OfSession(s: seq<Pageview>, sid: Id): (r: seq<Pageview>)
    ensures forall p :: p in r <==> p in s && p.sessionId == Some(sid)
    ensures SortedByTime(s, Ts) ==> SortedByTime(r, Ts)
  {
    if s == [] then []
    else
      assert forall p :: p in s <==> p == s[0] || p in s[1..];
      var rest := OfSession(s[1..], sid);
      if s[0].sessionId == Some(sid) then
        assert SortedByTime(s, Ts) ==> SortedByTime([s[0]] + rest, Ts) by {
          if SortedByTime(s, Ts) {
            SortedTail(s, Ts);
            SortedCons(s[0], rest, Ts);
          }
        }
        [s[0]] + rest
      else
        assert SortedByTime(s, Ts) ==> SortedByTime(s[1..], Ts) by {
          if SortedByTime(s, Ts) { SortedTail(s, Ts); }
        }
        rest
  }

  /** The pageviews of session `sid` ordered by `created_at`, as the page's
      sorted frames hand them to the per-session grouping. */
  function SessionPages(pvs: seq<Pageview>, sid: Id): (r: seq<Pageview>)
    ensures forall p :: p in r <==> p in pvs && p.sessionId == Some(sid)
    ensures SortedByTime(r, Ts)
  {
    var sorted := SortByTime(pvs, Ts);
    assert forall p :: p in sorted <==> p in pvs by {
      forall p ensures p in sorted <==> p in pvs {
        assert p in sorted <==> p in multiset(sorted);
      }
    }
    OfSession(sorted, sid)
  }

  /** The present session ids of the pageviews, in row order. */
  function PvIds(pvs: seq<Pageview>): (r: seq<Id>)
    ensures forall x :: x in r <==> exists p :: p in pvs && p.sessionId == Some(x)
  {
    if pvs == [] then []
    else
      assert forall p :: p in pvs <==> p == pvs[0] || p in pvs[1..];
      (if pvs[0].sessionId.Some? then [pvs[0].sessionId.value] else []) + PvIds(pvs[1..])
  }

  /** The groups of `groupby("website_session_id")`: the distinct present
      ids in increasing order. */
  function SessionGroups(pvs: seq<Pageview>): (r: seq<Id>)
    ensures StrictlySorted(r) && Distinct(r)
    ensures forall x :: x in r <==> exists p :: p in pvs && p.sessionId == Some(x)
  {
    var r := SortedDistinct(PvIds(pvs));
    SortedIsDistinct(r);
    r
  }

  // ---------------------------------------------------------------------
  // Entry pages

  /** `first_pv`: the URL of the session's earliest pageview. */
  function EntryPage(pvs: seq<Pageview>, sid: Id): (r: Option<string>)
    ensures r.None? <==> forall p :: p in pvs ==> p.sessionId != Some(sid)
  {
    var pages := SessionPages(pvs, sid);
    if pages == [] then None
    else
      assert pages[0] in pages;
      Some(pages[0].url)
  }

  /** The entry page is the URL of a pageview of the session that no other
      pageview of the session precedes in time. */
  lemma EntryIsEarliest(pvs: seq<Pageview>, sid: Id)
    requires EntryPage(pvs, sid).Some?
    ensures exists p :: p in pvs && p.sessionId == Some(sid) && p.url == EntryPage(pvs, sid).value
                        && forall q :: q in pvs && q.sessionId == Some(sid) ==> TimeLe(Ts(p), Ts(q))
  {
    var pages := SessionPages(pvs, sid);
    var p := pages[0];
    assert p in pages;
    forall q | q in pvs && q.sessionId == Some(sid) ensures TimeLe(Ts(p), Ts(q)) {
      assert q in pages;
      var k :| 0 <= k < |pages| && pages[k] == q;
      if k > 0 {
        assert TimeLe(Ts(pages[0]), Ts(pages[k]));
      }
    }
  }

  /** The entry page of every session group, in group order. */
  function Entries(pvs: seq<Pageview>): (r: seq<string>)
    ensures |r| == |SessionGroups(pvs)|
    ensures forall i :: 0 <= i < |r| ==> EntryPage(pvs, SessionGroups(pvs)[i]) == Some(r[i])
  {
    var g := SessionGroups(pvs);
    seq(|g|, i requires 0 <= i < |g| =>
      assert g[i] in g;
      EntryPage(pvs, g[i]).value)
  }

  function Self(s: string): string { s }

  /** `entry_pages`: over the distinct entry URLs the counts add up to the
      number of sessions that have a pageview. */
  lemma EntryPagesAddUp(pvs: seq<Pageview>)
    ensures CountOverKeys(Entries(pvs), Self, Unique(Entries(pvs))) == |SessionGroups(pvs)|
  {
    CountByKeyConserves(Entries(pvs), Self, Unique(Entries(pvs)));
  }

  // ---------------------------------------------------------------------
  // Bounce rate by entry page

  /** The entry URL the merge attaches to a session row (None when the
      session has no pageview or no id). */
  function EntryOf(pvs: seq<Pageview>, s: Session): (r: Option<string>)
    ensures r.None? <==> s.id.None? || forall p :: p in pvs ==> p.sessionId != s.id
    ensures r.Some? ==> r == EntryPage(pvs, s.id.value)
  {
    if s.id.None? then None else EntryPage(pvs, s.id.value)
  }

  function EntryKey(pvs: seq<Pageview>): Session -> Option<string>
  {
    (s: Session) => EntryOf(pvs, s)
  }

  /** `bounce_by_entry`: among the sessions entering at `url`, the share
      with one pageview; None for a URL no session enters at (such a URL
      has no group). */
  function BounceByEntry(sessions: seq<Session>, pvs: seq<Pageview>, url: string): (r: Option<real>)
    ensures r.None? <==> forall s :: s in sessions ==> EntryOf(pvs, s) != Some(url)
    ensures r.Some? ==> 0.0 <= r.value <= 1.0
    ensures r.None? <==> CountKey(sessions, EntryKey(pvs), Some(url)) == 0
    ensures r.Some? ==> r.value == CountKey(BouncedRows(sessions, pvs), EntryKey(pvs), Some(url)) as real
                                 / CountKey(sessions, EntryKey(pvs), Some(url)) as real
  {
    var entering := CountKey(sessions, EntryKey(pvs), Some(url));
    var bounced := CountKey(BouncedRows(sessions, pvs), EntryKey(pvs), Some(url));
    FilterCountAtMost(sessions, pvs, Some(url));
    assert entering == 0 <==> forall s :: s in sessions ==> EntryOf(pvs, s) != Some(url) by {
      CountKeyZero(sessions, EntryKey(pvs), Some(url));
    }
    Agg.Ratio(bounced, entering)
  }

  lemma {:induction false} FilterCountAtMost(sessions: seq<Session>, pvs: seq<Pageview>, k: Option<string>)
    ensures CountKey(BouncedRows(sessions, pvs), EntryKey(pvs), k) <= CountKey(sessions, EntryKey(pvs), k)
  {
    if sessions != [] {
      FilterCountAtMost(sessions[1..], pvs, k);
      var head := if PvCount(pvs, sessions[0]) == 1 then [sessions[0]] else [];
      CountKeyAppend(head, BouncedRows(sessions[1..], pvs), EntryKey(pvs), k);
    }
  }

  lemma {:induction false} CountKeyAppend<T, K>(a: seq<T>, b: seq<T>, key: T -> K, k: K)
    ensures CountKey(a + b, key, k) == CountKey(a, key, k) + CountKey(b, key, k)
  {
    if a != [] {
      assert (a + b)[0] == a[0];
      assert (a + b)[1..] == a[1..] + b;
      CountKeyAppend(a[1..], b, key, k);
      assert CountKey(a + b, key, k) == (if key(a[0]) == k then 1 else 0) + CountKey(a[1..] + b, key, k);
    } else {
      assert a + b == b;
    }
  }

  /** Every bounced session has an entry page, so the per-entry bounce
      counts add up to the KPI's bounce count. */
  lemma BouncesByEntryAddUp(sessions: seq<Session>, pvs: seq<Pageview>)
    ensures CountOverKeys(BouncedRows(sessions, pvs), EntryKey(pvs), Groups.SomeKeys(Unique(Entries(pvs))))
         == |BouncedRows(sessions, pvs)|
  {
    var b := BouncedRows(sessions, pvs);
    var us := Unique(Entries(pvs));
    forall s | s in b ensures EntryKey(pvs)(s) in Groups.SomeKeys(us) {
      BouncedHasEntry(sessions, pvs, s);
    }
    Groups.SomeKeysDistinct(us);
    CountByKeyConserves(b, EntryKey(pvs), Groups.SomeKeys(us));
  }

  /** A bounced session has a pageview, hence an entry page among the listed ones. */
  lemma BouncedHasEntry(sessions: seq<Session>, pvs: seq<Pageview>, s: Session)
    requires s in BouncedRows(sessions, pvs)
    ensures EntryKey(pvs)(s) in Groups.SomeKeys(Unique(Entries(pvs)))
  {
    var sid := s.id.value;
    var e := EntryPage(pvs, sid);
    assert e.Some? by {
      if e.None? { CountKeyZero(pvs, Agg.PvSession, s.id); }
    }
    var g := SessionGroups(pvs);
    assert sid in g;
    var i :| 0 <= i < |g| && g[i] == sid;
    assert Entries(pvs)[i] == e.value;
    Groups.SomeKeyListed(Unique(Entries(pvs)), e.value);
  }

  // ---------------------------------------------------------------------
  // Repeat visitor timing

  function SessionTs(s: Session): Option<int> { Seconds(s.createdAt) }

  /** `is_repeat_session == True` (a missing flag compares false). */
  predicate IsRepeat(s: Session) { s.isRepeat == Some(true) }

  /** The repeat sessions of user `u`, in row order. */
  function RepeatOf(sessions: seq<Session>, u: Id): (r: seq<Session>)
    ensures forall s :: s in r <==> s in sessions && IsRepeat(s) && s.userId == u
  {
    if sessions == [] then []
    else
      assert forall s :: s in sessions <==> s == sessions[0] || s in sessions[1..];
      (if IsRepeat(sessions[0]) && sessions[0].userId == u then [sessions[0]] else [])
      + RepeatOf(sessions[1..], u)
  }

  /** One user's block of the frame sorted by `["user_id", "created_at"]`. */
  function UserBlock(sessions: seq<Session>, u: Id): (r: seq<Session>)
    ensures SortedByTime(r, SessionTs)
    ensures multiset(r) == multiset(RepeatOf(sessions, u))
  {
    SortByTime(RepeatOf(sessions, u), SessionTs)
  }

  /** `groupby("user_id")["created_at"].diff()` on one block: a gap in
      seconds from the row before, NaN for the first row and wherever
      either time is NaT. */
  function Diffs(rows: seq<Session>): (d: seq<Option<int>>)
    ensures |d| == |rows|
    ensures forall i :: 0 <= i < |rows| ==>
      (d[i].Some? <==> i > 0 && rows[i].createdAt.Some? && rows[i - 1].createdAt.Some?)
    ensures forall i :: 0 < i < |rows| && rows[i].createdAt.Some? && rows[i - 1].createdAt.Some? ==>
      d[i] == Some(rows[i].createdAt.value.seconds - rows[i - 1].createdAt.value.seconds)
  {
    seq(|rows|, i requires 0 <= i < |rows| =>
      if i > 0 && rows[i].createdAt.Some? && rows[i - 1].createdAt.Some?
      then Some(rows[i].createdAt.value.seconds - rows[i - 1].createdAt.value.seconds)
      else None)
  }

  /** In a time-sorted block every gap is non-negative, and a row after the
      first has a gap exactly when its own time is present (NaT rows sort
      last, so the row before it is dated too). */
  lemma SortedGaps(rows: seq<Session>)
    requires SortedByTime(rows, SessionTs)
    ensures forall i :: 0 <= i < |rows| && Diffs(rows)[i].Some? ==> Diffs(rows)[i].value >= 0
    ensures forall i :: 0 < i < |rows| ==> (Diffs(rows)[i].Some? <==> rows[i].createdAt.Some?)
  {
    forall i | 0 < i < |rows| ensures TimeLe(SessionTs(rows[i - 1]), SessionTs(rows[i])) {
    }
  }

  /** Over a block whose rows are all dated, the gaps add up to the time
      between the first and the last repeat session. */
  lemma {:induction false} GapsSpan(rows: seq<Session>)
    requires |rows| > 0
    requires forall i :: 0 <= i < |rows| ==> rows[i].createdAt.Some?
    ensures SumInts(Diffs(rows))
         == rows[|rows| - 1].createdAt.value.seconds - rows[0].createdAt.value.seconds
  {
    if |rows| > 1 {
      var n := |rows| - 1;
      var init := rows[..n];
      GapsSpan(init);
      DiffsPrefix(rows);
      var d := Diffs(rows);
      assert d == d[..n] + [d[n]];
      SumIntsAppend(d[..n], d[n]);
    } else {
      assert Diffs(rows) == [None];
    }
  }

  lemma DiffsPrefix(rows: seq<Session>)
    requires |rows| > 0
    ensures Diffs(rows[..|rows| - 1]) == Diffs(rows)[..|rows| - 1]
  {
    var n := |rows| - 1;
    var a := Diffs(rows[..n]);
    var b := Diffs(rows)[..n];
    forall i | 0 <= i < n ensures a[i] == b[i] {
      assert rows[..n][i] == rows[i];
      if i > 0 { assert rows[..n][i - 1] == rows[i - 1]; }
    }
  }

  /** The sum of the present entries. */
  function SumInts(d: seq<Option<int>>): int
  {
    if d == [] then 0 else (if d[0].Some? then d[0].value else 0) + SumInts(d[1..])
  }

  lemma {:induction false} SumIntsAppend(d: seq<Option<int>>, x: Option<int>)
    ensures SumInts(d + [x]) == SumInts(d) + (if x.Some? then x.value else 0)
  {
    if d != [] {
      assert (d + [x])[1..] == d[1..] + [x];
      SumIntsAppend(d[1..], x);
    }
  }

  /** `.dt.total_seconds() / 3600`. */
  function Hours(d: seq<Option<int>>): (h: seq<Option<real>>)
    ensures |h| == |d|
    ensures forall i :: 0 <= i < |d| ==> (h[i].Some? <==> d[i].Some?)
    ensures forall i :: 0 <= i < |d| && d[i].Some? ==> h[i].value * 3600.0 == d[i].value as real
  {
    seq(|d|, i requires 0 <= i < |d| => if d[i].Some? then Some(d[i].value as real / 3600.0) else None)
  }

  /** The users with a repeat session, in `user_id` order. */
  function RepeatUsers(sessions: seq<Session>): (r: seq<Id>)
    ensures StrictlySorted(r)
    ensures forall u :: u in r <==> exists s :: s in sessions && IsRepeat(s) && s.userId == u
  {
    SortedDistinct(RepeatUserIds(sessions))
  }

  function RepeatUserIds(sessions: seq<Session>): (r: seq<Id>)
    ensures forall u :: u in r <==> exists s :: s in sessions && IsRepeat(s) && s.userId == u
  {
    if sessions == [] then []
    else
      assert forall s :: s in sessions <==> s == sessions[0] || s in sessions[1..];
      (if IsRepeat(sessions[0]) then [sessions[0].userId] else []) + RepeatUserIds(sessions[1..])
  }

  /** The whole `diffs` series in hours, block after block, before `dropna`. */
  function GapHours(sessions: seq<Session>, users: seq<Id>): (h: seq<Option<real>>)
    ensures |h| == BlockRows(sessions, users)
    ensures users != [] && RepeatOf(sessions, users[0]) != [] ==> h[0].None?
  {
    if users == [] then []
    else
      var block := UserBlock(sessions, users[0]);
      assert |block| == |multiset(block)| == |RepeatOf(sessions, users[0])|;
      Hours(Diffs(block)) + GapHours(sessions, users[1..])
  }

  /** The number of repeat-session rows of the listed users. */
  function BlockRows(sessions: seq<Session>, users: seq<Id>): nat
  {
    if users == [] then 0 else |RepeatOf(sessions, users[0])| + BlockRows(sessions, users[1..])
  }

  /** No gap is negative. */
  lemma {:induction false} GapHoursNonNegative(sessions: seq<Session>, users: seq<Id>)
    ensures forall i :: 0 <= i < |GapHours(sessions, users)| && GapHours(sessions, users)[i].Some? ==>
      GapHours(sessions, users)[i].value >= 0.0
  {
    if users != [] {
      var block := UserBlock(sessions, users[0]);
      SortedGaps(block);
      GapHoursNonNegative(sessions, users[1..]);
      var head: seq<Option<real>> := Hours(Diffs(block));
      var rest: seq<Option<real>> := GapHours(sessions, users[1..]);
      forall i | 0 <= i < |head + rest| && (head + rest)[i].Some? ensures (head + rest)[i].value >= 0.0 {
        if i < |head| {
          assert (head + rest)[i] == head[i];
          assert head[i].value * 3600.0 >= 0.0;
        } else {
          assert (head + rest)[i] == rest[i - |head|];
        }
      }
    }
  }

  datatype GapStats = GapStats(minHours: real, maxHours: real, avgHours: real)

  /** The smallest present entry (pandas `min()` skips NaN). */
  function MinPresent(xs: seq<Option<real>>): (r: Option<real>)
    ensures r.None? <==> forall i :: 0 <= i < |xs| ==> xs[i].None?
    ensures r.Some? ==> (exists i :: 0 <= i < |xs| && xs[i] == r)
                        && forall i :: 0 <= i < |xs| && xs[i].Some? ==> r.value <= xs[i].value
  {
    if xs == [] then None
    else
      var m := MinPresent(xs[1..]);
      assert forall i :: 1 <= i < |xs| ==> xs[1..][i - 1] == xs[i];
      if xs[0].None? then m
      else if m.None? || xs[0].value <= m.value then xs[0]
      else m
  }

  /** The largest present entry (pandas `max()` skips NaN). */
  function MaxPresent(xs: seq<Option<real>>): (r: Option<real>)
    ensures r.None? <==> forall i :: 0 <= i < |xs| ==> xs[i].None?
    ensures r.Some? ==> (exists i :: 0 <= i < |xs| && xs[i] == r)
                        && forall i :: 0 <= i < |xs| && xs[i].Some? ==> xs[i].value <= r.value
  {
    if xs == [] then None
    else
      var m := MaxPresent(xs[1..]);
      assert forall i :: 1 <= i < |xs| ==> xs[1..][i - 1] == xs[i];
      if xs[0].None? then m
      else if m.None? || xs[0].value >= m.value then xs[0]
      else m
  }

  /** min, max and mean of the present entries of a gap column, or None
      when none is present; the mean lies between the minimum and maximum,
      which bound every entry. */
  function StatsOf(h: seq<Option<real>>): (r: Option<GapStats>)
    ensures r.None? <==> forall i :: 0 <= i < |h| ==> h[i].None?
    ensures r.Some? ==> Some(r.value.minHours) == MinPresent(h)
                        && Some(r.value.maxHours) == MaxPresent(h)
                        && Some(r.value.avgHours) == Groups.MeanPresent(h)
    ensures r.Some? ==> r.value.minHours <= r.value.avgHours <= r.value.maxHours
    ensures r.Some? ==> forall i :: 0 <= i < |h| && h[i].Some? ==>
                          r.value.minHours <= h[i].value <= r.value.maxHours
  {
    var lo := MinPresent(h);
    if lo.None? then None
    else
      var hi := MaxPresent(h);
      var mean := Groups.MeanPresent(h);
      Groups.MeanWithinBounds(h, lo.value, hi.value);
      Some(GapStats(lo.value, hi.value, mean.value))
  }

  /** The `diff_hours` column over the repeat users' sessions; no entry is negative. */
  function GapColumn(sessions: seq<Session>): (h: seq<Option<real>>)
    ensures forall i :: 0 <= i < |h| && h[i].Some? ==> h[i].value >= 0.0
  {
    GapHoursNonNegative(sessions, RepeatUsers(sessions));
    GapHours(sessions, RepeatUsers(sessions))
  }

  /** `stats`, or None when no gap survives `dropna` (the page then shows a
      notice instead): the least, the greatest and the mean gap in hours,
      the average lying between the minimum and maximum. */
  function RepeatStats(sessions: seq<Session>): (r: Option<GapStats>)
    ensures r.None? <==> forall i :: 0 <= i < |GapColumn(sessions)| ==> GapColumn(sessions)[i].None?
    ensures r.Some? ==> Some(r.value.minHours) == MinPresent(GapColumn(sessions))
                        && Some(r.value.maxHours) == MaxPresent(GapColumn(sessions))
                        && Some(r.value.avgHours) == Groups.MeanPresent(GapColumn(sessions))
    ensures r.Some? ==> 0.0 <= r.value.minHours <= r.value.avgHours <= r.value.maxHours
  {
    var h := GapColumn(sessions);
    var r := StatsOf(h);
    assert r.Some? ==> 0.0 <= r.value.minHours by {
      if r.Some? {
        var i :| 0 <= i < |h| && h[i].Some?;
      }
    }
    r
  }

  /** Without any repeat session there is nothing to report. */
  lemma NoRepeatNoStats(sessions: seq<Session>)
    requires forall s :: s in sessions ==> !IsRepeat(s)
    ensures RepeatStats(sessions) == None
  {
    NoRepeatUserIds(sessions);
  }

  lemma {:induction false} NoRepeatUserIds(sessions: seq<Session>)
    requires forall s :: s in sessions ==> !IsRepeat(s)
    ensures RepeatUserIds(sessions) == []
  {
    if sessions != [] {
      assert forall s :: s in sessions[1..] ==> s in sessions;
      NoRepeatUserIds(sessions[1..]);
    }
  }

  // ---------------------------------------------------------------------
  // Navigation paths

  const Arrow: string := " → "

  /** `" → ".join(urls)`. */
  function Join(xs: seq<string>, sep: string): (r: string)
    ensures |xs| == 1 ==> r == xs[0]
    ensures xs != [] ==> xs[0] <= r
  {
    if xs == [] then ""
    else if |xs| == 1 then xs[0]
    else xs[0] + sep + Join(xs[1..], sep)
  }

  /** A session's path: its URLs in time order joined with an arrow. */
  function Path(pvs: seq<Pageview>, sid: Id): (r: string)
    ensures (forall p :: p in pvs ==> p.sessionId != Some(sid)) ==> r == ""
  {
    Join(Urls(SessionPages(pvs, sid)), Arrow)
  }

  /** The path begins with the entry page; a one-page visit's path is that
      page. */
  lemma PathStartsAtEntry(pvs: seq<Pageview>, sid: Id)
    requires EntryPage(pvs, sid).Some?
    ensures EntryPage(pvs, sid).value <= Path(pvs, sid)
    ensures |SessionPages(pvs, sid)| == 1 ==> Path(pvs, sid) == EntryPage(pvs, sid).value
  {
  }

  /** `paths`: one path per session group. */
  function Paths(pvs: seq<Pageview>): (r: seq<string>)
    ensures |r| == |SessionGroups(pvs)|
    ensures forall i :: 0 <= i < |r| ==> r[i] == Path(pvs, SessionGroups(pvs)[i])
  {
    var g := SessionGroups(pvs);
    seq(|g|, i requires 0 <= i < |g| => Path(pvs, g[i]))
  }

  /** `path_counts`: the counts of the distinct paths add up to the number
      of sessions with a pageview. */
  lemma PathCountsAddUp(pvs: seq<Pageview>)
    ensures CountOverKeys(Paths(pvs), Self, Unique(Paths(pvs))) == |SessionGroups(pvs)|
  {
    CountByKeyConserves(Paths(pvs), Self, Unique(Paths(pvs)));
  }

  /** A most frequent candidate, the earliest among equals. */
  function MostFrequent(cands: seq<string>, ps: seq<string>): (r: string)
    requires cands != []
    ensures r in cands
    ensures forall c :: c in cands ==> CountKey(ps, Self, c) <= CountKey(ps, Self, r)
  {
    if |cands| == 1 then cands[0]
    else
      var t := MostFrequent(cands[1..], ps);
      assert forall c :: c in cands <==> c == cands[0] || c in cands[1..];
      if CountKey(ps, Self, cands[0]) >= CountKey(ps, Self, t) then cands[0] else t
  }

  /** `top_path` with its session count, None when there are no paths. */
  function TopPath(pvs: seq<Pageview>): (r: Option<(string, nat)>)
    ensures r.None? <==> forall p :: p in pvs ==> p.sessionId.None?
    ensures r.Some? ==> r.value.0 in Paths(pvs) && r.value.1 == CountKey(Paths(pvs), Self, r.value.0)
    ensures r.Some? ==> forall q :: q in Paths(pvs) ==> CountKey(Paths(pvs), Self, q) <= r.value.1
  {
    var ps := Paths(pvs);
    if ps == [] then
      None
    else
      assert ps[0] in Unique(ps);
      var t := MostFrequent(Unique(ps), ps);
      assert SessionGroups(pvs)[0] in SessionGroups(pvs);
      Some((t, CountKey(ps, Self, t)))
  }

  // ---------------------------------------------------------------------
  // Sankey links of the first three steps

  type Link = (string, string)

  /** `x.tolist()[:3]`. */
  function FirstThree(urls: seq<string>): (r: seq<string>)
    ensures |r| <= 3 && r <= urls
    ensures |urls| <= 3 ==> r == urls
  {
    if |urls| <= 3 then urls else urls[..3]
  }

  /** `pv_first3`: the first three URLs of every session group. */
  function Firsts(pvs: seq<Pageview>): (r: seq<seq<string>>)
    ensures |r| == |SessionGroups(pvs)|
    ensures forall i :: 0 <= i < |r| ==> r[i] == FirstThree(Urls(SessionPages(pvs, SessionGroups(pvs)[i])))
  {
    var g := SessionGroups(pvs);
    seq(|g|, i requires 0 <= i < |g| => FirstThree(Urls(SessionPages(pvs, g[i]))))
  }

  /** The consecutive pairs of one session's steps. */
  function StepLinks(steps: seq<string>): (r: seq<Link>)
    ensures steps != [] ==> |r| == |steps| - 1
    ensures steps == [] ==> r == []
    ensures forall i :: 0 <= i < |r| ==> r[i] == (steps[i], steps[i + 1])
  {
    if steps == [] then []
    else seq(|steps| - 1, i requires 0 <= i < |steps| - 1 => (steps[i], steps[i + 1]))
  }

  /** `links` after the loops over `pv_first3`. */
  function LinksOf(firsts: seq<seq<string>>): seq<Link>
  {
    if firsts == [] then []
    else LinksOf(firsts[..|firsts| - 1]) + StepLinks(firsts[|firsts| - 1])
  }

  /** The nested loop that appends the links. */
  method CollectLinks(firsts: seq<seq<string>>) returns (links: seq<Link>)
    ensures links == LinksOf(firsts)
  {
    links := [];
    var k := 0;
    while k < |firsts|
      invariant 0 <= k <= |firsts|
      invariant links == LinksOf(firsts[..k])
    {
      links := AppendLinks(links, firsts[k]);
      LinksStep(firsts, k);
      k := k + 1;
    }
    assert firsts[..k] == firsts;
  }

  /** The inner loop over one session's steps. */
  method AppendLinks(links: seq<Link>, steps: seq<string>) returns (r: seq<Link>)
    ensures r == links + StepLinks(steps)
  {
    r := links;
    var i := 0;
    while i + 1 < |steps|
      invariant 0 <= i && (steps == [] ==> i == 0) && (steps != [] ==> i <= |steps| - 1)
      invariant r == links + StepLinks(steps)[..i]
    {
      assert StepLinks(steps)[..i + 1] == StepLinks(steps)[..i] + [(steps[i], steps[i + 1])];
      r := r + [(steps[i], steps[i + 1])];
      i := i + 1;
    }
    assert StepLinks(steps)[..i] == StepLinks(steps);
  }

  lemma LinksStep(firsts: seq<seq<string>>, k: nat)
    requires k < |firsts|
    ensures LinksOf(firsts[..k + 1]) == LinksOf(firsts[..k]) + StepLinks(firsts[k])
  {
    assert firsts[..k + 1][..k] == firsts[..k];
  }

  /** `l` joins step `i` and step `i + 1` of session `k`. */
  predicate IsStep(firsts: seq<seq<string>>, k: int, i: int, l: Link)
  {
    0 <= k < |firsts| && 0 <= i && i + 1 < |firsts[k]| && l == (firsts[k][i], firsts[k][i + 1])
  }

  /** A link is exactly a pair of consecutive steps of some session. */
  lemma {:induction false} LinkMeans(firsts: seq<seq<string>>, l: Link)
    ensures l in LinksOf(firsts) <==> exists k, i :: IsStep(firsts, k, i, l)
  {
    if firsts != [] {
      var n := |firsts| - 1;
      var init := firsts[..n];
      LinkMeans(init, l);
      var row := StepLinks(firsts[n]);
      assert LinksOf(firsts) == LinksOf(init) + row;
      if l in row {
        var i :| 0 <= i < |row| && row[i] == l;
        assert IsStep(firsts, n, i, l);
      }
      if l in LinksOf(init) {
        var k, i :| IsStep(init, k, i, l);
        assert init[k] == firsts[k];
        assert IsStep(firsts, k, i, l);
      }
      if exists k, i :: IsStep(firsts, k, i, l) {
        var k, i :| IsStep(firsts, k, i, l);
        if k == n {
          assert row[i] == l;
        } else {
          assert init[k] == firsts[k];
          assert IsStep(init, k, i, l);
        }
      }
    }
  }

  /** Each session contributes at most two links. */
  lemma {:induction false} AtMostTwoPerSession(firsts: seq<seq<string>>)
    requires forall k :: 0 <= k < |firsts| ==> |firsts[k]| <= 3
    ensures |LinksOf(firsts)| <= 2 * |firsts|
  {
    if firsts != [] {
      var n := |firsts| - 1;
      AtMostTwoPerSession(firsts[..n]);
      assert |StepLinks(firsts[n])| <= 2;
    }
  }

  function Sources(links: seq<Link>): (r: seq<string>)
    ensures |r| == |links| && forall i :: 0 <= i < |links| ==> r[i] == links[i].0
  {
    seq(|links|, i requires 0 <= i < |links| => links[i].0)
  }

  function Targets(links: seq<Link>): (r: seq<string>)
    ensures |r| == |links| && forall i :: 0 <= i < |links| ==> r[i] == links[i].1
  {
    seq(|links|, i requires 0 <= i < |links| => links[i].1)
  }

  /** `nodes`: the sorted distinct endpoints of the links. */
  function Nodes(links: seq<Link>): (r: seq<string>)
    ensures StrictlySorted(r) && Distinct(r)
    ensures forall l :: l in links ==> l.0 in r && l.1 in r
    ensures forall x :: x in r ==> exists l :: l in links && (x == l.0 || x == l.1)
  {
    var ends := Sources(links) + Targets(links);
    var r := SortedDistinct(ends);
    SortedIsDistinct(r);
    forall l | l in links ensures l.0 in r && l.1 in r {
      var i :| 0 <= i < |links| && links[i] == l;
      assert ends[i] == l.0 && ends[|links| + i] == l.1;
    }
    forall x | x in r ensures exists l :: l in links && (x == l.0 || x == l.1) {
      var j :| 0 <= j < |ends| && ends[j] == x;
      if j < |links| { assert links[j] in links; } else { assert links[j - |links|] in links; }
    }
    r
  }

  /** `node_index` is a bijection from the nodes onto 0 .. |nodes| - 1. */
  lemma NodeIndexBijective(links: seq<Link>)
    ensures forall x :: x in IndexMap(Nodes(links)) <==> x in Nodes(links)
    ensures forall i :: 0 <= i < |Nodes(links)| ==> IndexMap(Nodes(links))[Nodes(links)[i]] == i
    ensures forall x :: x in IndexMap(Nodes(links)) ==> Nodes(links)[IndexMap(Nodes(links))[x]] == x
  {
    var ns := Nodes(links);
    forall i | 0 <= i < |ns| ensures ns[i] in IndexMap(ns) && IndexMap(ns)[ns[i]] == i {
      IndexMapOfDistinct(ns, i);
    }
  }

  function LinkSelf(l: Link): Link { l }

  /** The Counter's values over the keys `ks`. */
  function CountsOf(links: seq<Link>, ks: seq<Link>): (r: seq<nat>)
    ensures |r| == |ks|
    ensures forall i :: 0 <= i < |ks| ==> r[i] == CountKey(links, LinkSelf, ks[i])
  {
    if ks == [] then [] else [CountKey(links, LinkSelf, ks[0])] + CountsOf(links, ks[1..])
  }

  function SumNats(xs: seq<nat>): nat
  {
    if xs == [] then 0 else xs[0] + SumNats(xs[1..])
  }

  /** The figure's data: node labels, link endpoints as node indices and
      link counts, one entry per distinct link in order of first
      appearance. */
  datatype Sankey = Sankey(nodes: seq<string>, sources: seq<nat>, targets: seq<nat>, values: seq<nat>)

  function SankeyOf(links: seq<Link>): (d: Sankey)
    ensures d.nodes == Nodes(links)
    ensures |d.sources| == |d.targets| == |d.values| == |Unique(links)|
    ensures forall i :: 0 <= i < |d.sources| ==>
      d.sources[i] < |d.nodes| && d.targets[i] < |d.nodes|
      && (d.nodes[d.sources[i]], d.nodes[d.targets[i]]) == Unique(links)[i]
    ensures forall i :: 0 <= i < |d.values| ==> d.values[i] == CountKey(links, LinkSelf, Unique(links)[i]) > 0
  {
    var ns := Nodes(links);
    var keys := Unique(links);
    KeysAreNodes(links);
    KeysCounted(links);
    Sankey(ns, Indices(ns, Sources(keys)), Indices(ns, Targets(keys)), CountsOf(links, keys))
  }

  lemma KeysAreNodes(links: seq<Link>)
    ensures forall x :: x in Sources(Unique(links)) ==> x in Nodes(links)
    ensures forall x :: x in Targets(Unique(links)) ==> x in Nodes(links)
  {
    var keys := Unique(links);
    forall i | 0 <= i < |keys| ensures keys[i].0 in Nodes(links) && keys[i].1 in Nodes(links) {
      assert keys[i] in links;
    }
  }

  lemma KeysCounted(links: seq<Link>)
    ensures forall i :: 0 <= i < |Unique(links)| ==> CountKey(links, LinkSelf, Unique(links)[i]) > 0
  {
    var keys := Unique(links);
    forall i | 0 <= i < |keys| ensures CountKey(links, LinkSelf, keys[i]) > 0 {
      assert keys[i] in links;
      CountKeyZero(links, LinkSelf, keys[i]);
    }
  }

  /** `[node_index[x] for x in ends]`. */
  function Indices(ns: seq<string>, ends: seq<string>): (r: seq<nat>)
    requires forall x :: x in ends ==> x in ns
    ensures |r| == |ends|
    ensures forall i :: 0 <= i < |ends| ==> r[i] < |ns| && ns[r[i]] == ends[i]
  {
    var index := IndexMap(ns);
    seq(|ends|, i requires 0 <= i < |ends| => assert ends[i] in ends; index[ends[i]])
  }

  lemma {:induction false} SumCounts(links: seq<Link>, ks: seq<Link>)
    ensures SumNats(CountsOf(links, ks)) == CountOverKeys(links, LinkSelf, ks)
  {
    if ks != [] {
      SumCounts(links, ks[1..]);
    }
  }

  /** `link_counts` sums to the number of links collected. */
  lemma SankeyValuesAddUp(links: seq<Link>)
    ensures SumNats(SankeyOf(links).values) == |links|
  {
    SumCounts(links, Unique(links));
    CountByKeyConserves(links, LinkSelf, Unique(links));
  }
}
