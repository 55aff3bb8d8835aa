/** The grouping pattern the dashboard pages share: sessions grouped by a key
    column and counted by distinct session id, and orders tagged with the key
    of their session through a left merge on the session id, then grouped by
    that key and counted by distinct order id and summed by price.  A missing
    key is a group pandas drops. */
module Groups {
  import opened Wrappers
  import opened Seqs
  import opened Tables

  /** One row of `orders.merge(sessions[[id, key]], on=id, how="left")`. */
  datatype Tagged<K> = Tagged(order: Order, key: Option<K>)

  function TagKey<K>(x: Tagged<K>): Option<K> { x.key }

  function TagPrice<K>(x: Tagged<K>): real { x.order.price }

  function SessionIdOf(s: Session): Option<Id> { s.id }

  /** The keys of the sessions an order's session id matches, in table order
      (pandas matches a missing id with a missing id): one per matching
      session. */
  function MatchedKeys<K(==,!new)>(o: Order, sessions: seq<Session>, key: Session -> Option<K>): (r: seq<Option<K>>)
    ensures |r| == CountKey(sessions, SessionIdOf, o.sessionId)
    ensures forall k :: k in r <==> exists s :: s in sessions && s.id == o.sessionId && key(s) == k
  {
    if sessions == [] then []
    else
      assert forall s :: s in sessions <==> s == sessions[0] || s in sessions[1..];
      (if sessions[0].id == o.sessionId then [key(sessions[0])] else []) + MatchedKeys(o, sessions[1..], key)
  }

  function Tag<K(==,!new)>(o: Order, ks: seq<Option<K>>): (r: seq<Tagged<K>>)
    ensures |r| == |ks|
    ensures forall x :: x in r <==> exists k :: k in ks && x == Tagged(o, k)
  {
    if ks == [] then []
    else
      assert forall k :: k in ks <==> k == ks[0] || k in ks[1..];
      [Tagged(o, ks[0])] + Tag(o, ks[1..])
  }

  /** The merge rows of one order: one per matching session, or one
      without a key when no session matches. */
  function MergeRows<K(==,!new)>(o: Order, sessions: seq<Session>, key: Session -> Option<K>): (here: seq<Tagged<K>>)
    ensures |here| == if CountKey(sessions, SessionIdOf, o.sessionId) == 0 then 1 else CountKey(sessions, SessionIdOf, o.sessionId)
    ensures forall x :: x in here ==> x.order == o
    ensures forall x :: x in here && x.key.Some? ==>
      exists s :: s in sessions && s.id == o.sessionId && key(s) == x.key
    ensures forall s :: s in sessions && s.id == o.sessionId ==> Tagged(o, key(s)) in here
    ensures (forall s :: s in sessions ==> s.id != o.sessionId) ==> Tagged(o, None) in here
  {
    var ks := MatchedKeys(o, sessions, key);
    var here := if ks == [] then [Tagged(o, None)] else Tag(o, ks);
    assert forall s :: s in sessions && s.id == o.sessionId ==> Tagged(o, key(s)) in here by {
      forall s | s in sessions && s.id == o.sessionId
        ensures Tagged(o, key(s)) in here
      {
        assert key(s) in ks;
      }
    }
    here
  }

  /** The left merge: one row per matching session, or one row without a key
      when no session matches. */
  function LeftMerge<K(==,!new)>(orders: seq<Order>, sessions: seq<Session>, key: Session -> Option<K>): (r: seq<Tagged<K>>)
    ensures forall x :: x in r ==> x.order in orders
    ensures forall x :: x in r && x.key.Some? ==>
      exists s :: s in sessions && s.id == x.order.sessionId && key(s) == x.key
    ensures forall o, s :: o in orders && s in sessions && s.id == o.sessionId ==> Tagged(o, key(s)) in r
    ensures forall o :: o in orders && (forall s :: s in sessions ==> s.id != o.sessionId) ==> Tagged(o, None) in r
  {
    if orders == [] then []
    else
      var o := orders[0];
      var here := MergeRows(o, sessions, key);
      assert forall x :: x in orders <==> x == o || x in orders[1..];
      here + LeftMerge(orders[1..], sessions, key)
  }

  /** `website_session_id.nunique()` within the group of `k`. */
  function GroupSessionIds<K(==,!new)>(sessions: seq<Session>, key: Session -> Option<K>, k: K): set<Id>
  {
    set s | s in sessions && key(s) == Some(k) && s.id.Some? :: s.id.value
  }

  /** `order_id.nunique()` within the group of `k`. */
  function GroupOrderIds<K(==,!new)>(rows: seq<Tagged<K>>, k: K): set<Id>
  {
    set x | x in rows && x.key == Some(k) :: x.order.id
  }

  /** `price_usd.sum()` within the group of `k`. */
  function GroupRevenue<K(==)>(rows: seq<Tagged<K>>, k: K): real
  {
    SumKey(rows, TagKey, Some(k), TagPrice)
  }

  /** The number of rows in the group of `k` (`size()`). */
  function GroupSize<K(==)>(rows: seq<Tagged<K>>, k: K): nat
  {
    CountKey(rows, TagKey, Some(k))
  }

  /** A key no row carries has an empty group: its sum and its size are 0. */
  lemma {:induction false} KeyAbsent<T, K>(rows: seq<T>, key: T -> K, k: K, f: T -> real)
    requires forall x :: x in rows ==> key(x) != k
    ensures SumKey(rows, key, k, f) == 0.0 && CountKey(rows, key, k) == 0
  {
    if rows != [] {
      assert rows[0] in rows;
      assert forall x :: x in rows[1..] ==> x in rows;
      KeyAbsent(rows[1..], key, k, f);
    }
  }

  /** The groups of a table: the distinct present keys of its rows. */
  function KeysOf<T(!new), K(==,!new)>(rows: seq<T>, key: T -> Option<K>): (r: seq<K>)
    ensures Distinct(r)
    ensures forall k :: k in r <==> exists x :: x in rows && key(x) == Some(k)
  {
    if rows == [] then []
    else
      var rest := KeysOf(rows[1..], key);
      assert forall x :: x in rows <==> x == rows[0] || x in rows[1..];
      if key(rows[0]).Some? && key(rows[0]).value !in rest then
        var r := [key(rows[0]).value] + rest;
        assert forall i :: 1 <= i < |r| ==> r[i] == rest[i - 1];
        r
      else rest
  }

  /** A group no order reaches through its sessions has no orders and no
      revenue after the merge: `fillna(0)` gives it zeros. */
  lemma UnreachedGroup<K(!new)>(orders: seq<Order>, sessions: seq<Session>, key: Session -> Option<K>, k: K)
    requires forall o, s :: o in orders && s in sessions && s.id == o.sessionId ==> key(s) != Some(k)
    ensures GroupOrderIds(LeftMerge(orders, sessions, key), k) == {}
    ensures GroupRevenue(LeftMerge(orders, sessions, key), k) == 0.0
  {
    var rows := LeftMerge(orders, sessions, key);
    assert forall x :: x in rows ==> TagKey(x) != Some(k);
    KeyAbsent(rows, TagKey, Some(k), TagPrice);
  }

  /** Every key that tags an order row is the key of some session: an outer
      merge of the order groups into the session groups adds no group. */
  lemma MergedKeysFromSessions<K(!new)>(orders: seq<Order>, sessions: seq<Session>, key: Session -> Option<K>, k: K)
    requires exists x :: x in LeftMerge(orders, sessions, key) && x.key == Some(k)
    ensures exists s :: s in sessions && key(s) == Some(k)
  {
  }

  /** An order row's price lands in the group of its session's key. */
  lemma {:induction false} RevenueOfSingleGroup<K>(rows: seq<Tagged<K>>, k: K)
    requires forall x :: x in rows ==> x.key == Some(k)
    ensures GroupRevenue(rows, k) == Sum(rows, TagPrice)
  {
    if rows != [] {
      assert rows[0] in rows;
      assert forall x :: x in rows[1..] ==> x in rows;
      RevenueOfSingleGroup(rows[1..], k);
    }
  }

  /** A list of group keys as the rows carry them. */
  function SomeKeys<K>(cs: seq<K>): (r: seq<Option<K>>)
    ensures |r| == |cs| && forall i :: 0 <= i < |cs| ==> r[i] == Some(cs[i])
  {
    if cs == [] then [] else [Some(cs[0])] + SomeKeys(cs[1..])
  }

  lemma SomeKeysDistinct<K>(cs: seq<K>)
    requires Distinct(cs)
    ensures Distinct([None] + SomeKeys(cs))
  {
    var ks := [None] + SomeKeys(cs);
    forall i, j | 0 <= i < j < |ks|
      ensures ks[i] != ks[j]
    {
      if i > 0 {
        assert ks[i] == Some(cs[i - 1]) && ks[j] == Some(cs[j - 1]);
      }
    }
  }

  lemma SomeKeyListed<K>(cs: seq<K>, c: K)
    requires c in cs
    ensures Some(c) in [None] + SomeKeys(cs)
  {
    var i :| 0 <= i < |cs| && cs[i] == c;
    assert ([None] + SomeKeys(cs))[i + 1] == Some(c);
  }

  /** The groups of a listing that covers every present key add up to the
      whole amount less the rows without a key, which groupby drops. */
  lemma GroupsAddUp<T, K>(rows: seq<T>, key: T -> Option<K>, cs: seq<K>, f: T -> real)
    requires Distinct(cs)
    requires forall x :: x in rows && key(x).Some? ==> key(x).value in cs
    ensures SumOverKeys(rows, key, SomeKeys(cs), f) == Sum(rows, f) - SumKey(rows, key, None, f)
  {
    var ks := [None] + SomeKeys(cs);
    SomeKeysDistinct(cs);
    forall x | x in rows
      ensures key(x) in ks
    {
      if key(x).Some? {
        SomeKeyListed(cs, key(x).value);
      }
    }
    SumByKeyConserves(rows, key, ks, f);
    assert ks[1..] == SomeKeys(cs);
  }

  /** pandas `mean()`: NaN entries are skipped; no entries at all is NaN. */
  function MeanPresent(xs: seq<Option<real>>): (r: Option<real>)
    ensures r.None? <==> forall i :: 0 <= i < |xs| ==> xs[i].None?
    ensures r.Some? ==> r.value == SumPresent(xs) / CountPresent(xs) as real
  {
    var n := CountPresent(xs);
    if n == 0 then None else Some(SumPresent(xs) / n as real)
  }

  function CountPresent(xs: seq<Option<real>>): (n: nat)
    ensures n == 0 <==> forall i :: 0 <= i < |xs| ==> xs[i].None?
  {
    if xs == [] then 0
    else
      assert forall i :: 1 <= i < |xs| ==> xs[1..][i - 1] == xs[i];
      (if xs[0].Some? then 1 else 0) + CountPresent(xs[1..])
  }

  function SumPresent(xs: seq<Option<real>>): real
  {
    if xs == [] then 0.0 else (if xs[0].Some? then xs[0].value else 0.0) + SumPresent(xs[1..])
  }

  /** The mean lies between the smallest and largest present entries. */
  lemma MeanWithinBounds(xs: seq<Option<real>>, lo: real, hi: real)
    requires forall i :: 0 <= i < |xs| && xs[i].Some? ==> lo <= xs[i].value <= hi
    ensures MeanPresent(xs).Some? ==> lo <= MeanPresent(xs).value <= hi
  {
    var n := CountPresent(xs);
    SumPresentBounds(xs, lo, hi);
    if n > 0 {
      Repeated(lo, n);
      Repeated(hi, n);
      DivideBounds(SumPresent(xs), n as real, lo, hi);
    }
  }

  lemma DivideBounds(s: real, n: real, lo: real, hi: real)
    requires n > 0.0 && lo * n <= s <= hi * n
    ensures lo <= s / n <= hi
  {
    assert s / n * n == s;
  }

  /** `a` added up `n` times, to keep the induction below linear. */
  function Times(a: real, n: nat): real
  {
    if n == 0 then 0.0 else a + Times(a, n - 1)
  }

  lemma {:induction false} Repeated(a: real, n: nat)
    ensures Times(a, n) == a * n as real
  {
    if n > 0 {
      Repeated(a, n - 1);
      assert a * n as real == a * (n - 1) as real + a;
    }
  }

  lemma {:induction false} SumPresentBounds(xs: seq<Option<real>>, lo: real, hi: real)
    requires forall i :: 0 <= i < |xs| && xs[i].Some? ==> lo <= xs[i].value <= hi
    ensures Times(lo, CountPresent(xs)) <= SumPresent(xs) <= Times(hi, CountPresent(xs))
  {
    if xs != [] {
      assert forall i :: 1 <= i < |xs| ==> xs[1..][i - 1] == xs[i];
      SumPresentBounds(xs[1..], lo, hi);
    }
  }
}
