/** Sequence helpers shared by the table computations: row selection, sums,
    sums per grouping key, the code-point order on strings that Python's
    `sorted` uses, and a stable sort by an optional timestamp (missing last,
    the position pandas gives NaT). */
module Seqs {
  import opened Wrappers

  /** The rows of `s` that satisfy `p`, in their original order. */
  function Where<T(!new)>(s: seq<T>, p: T -> bool): (r: seq<T>)
    ensures |r| <= |s|
    ensures forall x :: x in r ==> x in s && p(x)
  {
    if s == [] then []
    else (if p(s[0]) then [s[0]] else []) + Where(s[1..], p)
  }

  /** Selection keeps every copy of a satisfying row and no other row. */
  lemma {:induction false} WhereMultiset<T(!new)>(s: seq<T>, p: T -> bool)
    ensures forall x :: multiset(Where(s, p))[x] == if p(x) then multiset(s)[x] else 0
  {
    if s != [] {
      WhereMultiset(s[1..], p);
      assert s == [s[0]] + s[1..];
    }
  }

  lemma WhereMembers<T(!new)>(s: seq<T>, p: T -> bool)
    ensures forall x :: x in Where(s, p) <==> x in s && p(x)
  {
    WhereMultiset(s, p);
    forall x ensures x in Where(s, p) <==> x in s && p(x) {
      assert x in Where(s, p) <==> x in multiset(Where(s, p));
      assert x in s <==> x in multiset(s);
    }
  }

  lemma {:induction false} WhereAll<T(!new)>(s: seq<T>, p: T -> bool)
    requires forall x :: x in s ==> p(x)
    ensures Where(s, p) == s
  {
    if s != [] {
      WhereAll(s[1..], p);
      assert s == [s[0]] + s[1..];
    }
  }

  lemma WhereCons<T(!new)>(x: T, s: seq<T>, p: T -> bool)
    ensures Where([x] + s, p) == (if p(x) then [x] else []) + Where(s, p)
  {
    assert ([x] + s)[0] == x && ([x] + s)[1..] == s;
  }

  /** Two successive selections are one selection by the conjunction. */
  lemma {:induction false} WhereWhere<T(!new)>(s: seq<T>, p: T -> bool, q: T -> bool, pq: T -> bool)
    requires forall x :: pq(x) == (p(x) && q(x))
    ensures Where(Where(s, p), q) == Where(s, pq)
  {
    if s != [] {
      var rest := Where(s[1..], p);
      WhereWhere(s[1..], p, q, pq);
      if p(s[0]) {
        assert Where(s, p) == [s[0]] + rest;
        WhereCons(s[0], rest, q);
        assert pq(s[0]) == q(s[0]);
      } else {
        assert Where(s, p) == [] + rest == rest;
        assert !pq(s[0]);
      }
    }
  }

  /** `s[k]` is the first row of `s` with its key. */
  predicate Earliest<T, K(==)>(s: seq<T>, key: T -> K, k: int)
  {
    0 <= k < |s| && forall j :: 0 <= j < k ==> key(s[j]) != key(s[k])
  }

  /** `s[k]` satisfies `p` and is the first such row of `s` with its key. */
  predicate FirstSelected<T, K(==)>(s: seq<T>, p: T -> bool, key: T -> K, k: int)
  {
    0 <= k < |s| && p(s[k]) && forall j :: 0 <= j < k && p(s[j]) ==> key(s[j]) != key(s[k])
  }

  /** A row that is the first of its key among the selected rows is the
      first selected row of its key in the original sequence. */
  lemma {:induction false} WhereFirst<T(!new), K>(s: seq<T>, p: T -> bool, key: T -> K, k: nat)
    requires Earliest(Where(s, p), key, k)
    ensures exists k' :: FirstSelected(s, p, key, k') && s[k'] == Where(s, p)[k]
  {
    var f := Where(s, p);
    var rest := Where(s[1..], p);
    if p(s[0]) {
      assert f == [s[0]] + rest;
      if k == 0 {
        assert FirstSelected(s, p, key, 0);
      } else {
        assert Earliest(rest, key, k - 1) by {
          forall j | 0 <= j < k - 1 ensures key(rest[j]) != key(rest[k - 1]) {
            assert rest[j] == f[j + 1];
          }
        }
        WhereFirst(s[1..], p, key, k - 1);
        var k'' :| FirstSelected(s[1..], p, key, k'') && s[1..][k''] == rest[k - 1];
        assert s[k'' + 1] == f[k];
        assert FirstSelected(s, p, key, k'' + 1) by {
          forall j | 0 <= j < k'' + 1 && p(s[j]) ensures key(s[j]) != key(s[k'' + 1]) {
            if j == 0 { assert s[0] == f[0]; } else { assert s[j] == s[1..][j - 1]; }
          }
        }
      }
    } else {
      assert f == rest;
      WhereFirst(s[1..], p, key, k);
      var k'' :| FirstSelected(s[1..], p, key, k'') && s[1..][k''] == rest[k];
      assert s[k'' + 1] == f[k];
      assert FirstSelected(s, p, key, k'' + 1) by {
        forall j | 0 <= j < k'' + 1 && p(s[j]) ensures key(s[j]) != key(s[k'' + 1]) {
          if j > 0 { assert s[j] == s[1..][j - 1]; }
        }
      }
    }
  }

  function Sum<T>(s: seq<T>, f: T -> real): real
  {
    if s == [] then 0.0 else f(s[0]) + Sum(s[1..], f)
  }

  /** A sum of non-negative terms is non-negative. */
  lemma {:induction false} SumNonNegative<T>(s: seq<T>, f: T -> real)
    requires forall x :: x in s ==> f(x) >= 0.0
    ensures Sum(s, f) >= 0.0
  {
    if s != [] {
      assert s[0] in s;
      assert forall x :: x in s[1..] ==> x in s;
      SumNonNegative(s[1..], f);
    }
  }

  lemma {:induction false} SumAppend<T>(a: seq<T>, b: seq<T>, f: T -> real)
    ensures Sum(a + b, f) == Sum(a, f) + Sum(b, f)
  {
    if a == [] {
      assert a + b == b;
    } else {
      assert (a + b)[1..] == a[1..] + b;
      SumAppend(a[1..], b, f);
    }
  }

  predicate Distinct<T(==)>(s: seq<T>)
  {
    forall i, j :: 0 <= i < j < |s| ==> s[i] != s[j]
  }

  // ---------------------------------------------------------------------
  // Sums and counts per grouping key (groupby(key).sum() / Counter)

  /** Sum of `f` over the rows whose key is `k`. */
  function SumKey<T, K(==)>(s: seq<T>, key: T -> K, k: K, f: T -> real): real
  {
    if s == [] then 0.0
    else (if key(s[0]) == k then f(s[0]) else 0.0) + SumKey(s[1..], key, k, f)
  }

  /** A key's sum of non-negative terms is non-negative. */
  lemma {:induction false} SumKeyNonNegative<T, K>(rows: seq<T>, key: T -> K, k: K, f: T -> real)
    requires forall x :: x in rows && key(x) == k ==> f(x) >= 0.0
    ensures SumKey(rows, key, k, f) >= 0.0
  {
    if rows != [] {
      assert rows[0] in rows;
      assert forall x :: x in rows[1..] ==> x in rows;
      SumKeyNonNegative(rows[1..], key, k, f);
    }
  }

  /** The per-key sums added up over a listing of keys. */
  function SumOverKeys<T, K(==)>(s: seq<T>, key: T -> K, ks: seq<K>, f: T -> real): real
  {
    if ks == [] then 0.0 else SumKey(s, key, ks[0], f) + SumOverKeys(s, key, ks[1..], f)
  }

  lemma SumKeyCons<T, K>(x: T, s: seq<T>, key: T -> K, k: K, f: T -> real)
    ensures SumKey([x] + s, key, k, f) == (if key(x) == k then f(x) else 0.0) + SumKey(s, key, k, f)
  {
    assert ([x] + s)[0] == x && ([x] + s)[1..] == s;
  }

  lemma {:induction false} SumOverKeysSingle<T, K>(x: T, key: T -> K, ks: seq<K>, f: T -> real)
    requires Distinct(ks)
    ensures SumOverKeys([x], key, ks, f) == if key(x) in ks then f(x) else 0.0
  {
    if ks != [] {
      SumKeyCons(x, [], key, ks[0], f);
      assert [x] + [] == [x];
      assert ks == [ks[0]] + ks[1..];
      assert Distinct(ks[1..]);
      SumOverKeysSingle(x, key, ks[1..], f);
      assert key(x) == ks[0] ==> key(x) !in ks[1..];
    }
  }

  lemma {:induction false} SumOverKeysCons<T, K>(x: T, s: seq<T>, key: T -> K, ks: seq<K>, f: T -> real)
    ensures SumOverKeys([x] + s, key, ks, f) == SumOverKeys([x], key, ks, f) + SumOverKeys(s, key, ks, f)
  {
    if ks != [] {
      SumKeyCons(x, s, key, ks[0], f);
      SumKeyCons(x, [], key, ks[0], f);
      assert [x] + [] == [x];
      SumOverKeysCons(x, s, key, ks[1..], f);
    }
  }

  lemma {:induction false} SumOverKeysEmpty<T, K>(key: T -> K, ks: seq<K>, f: T -> real)
    ensures SumOverKeys([], key, ks, f) == 0.0
  {
    if ks != [] { SumOverKeysEmpty(key, ks[1..], f); }
  }

  /** Grouping by key and adding the groups' sums back up loses and
      duplicates nothing: every row's amount lands in exactly one group. */
  lemma {:induction false} SumByKeyConserves<T, K>(s: seq<T>, key: T -> K, ks: seq<K>, f: T -> real)
    requires Distinct(ks)
    requires forall x :: x in s ==> key(x) in ks
    ensures SumOverKeys(s, key, ks, f) == Sum(s, f)
  {
    if s == [] {
      SumOverKeysEmpty(key, ks, f);
    } else {
      assert s == [s[0]] + s[1..];
      SumOverKeysCons(s[0], s[1..], key, ks, f);
      SumOverKeysSingle(s[0], key, ks, f);
      SumByKeyConserves(s[1..], key, ks, f);
    }
  }

  /** Number of rows whose key is `k` (a Counter entry). */
  function CountKey<T, K(==)>(s: seq<T>, key: T -> K, k: K): nat
  {
    if s == [] then 0
    else (if key(s[0]) == k then 1 else 0) + CountKey(s[1..], key, k)
  }

  /** A key counts no rows exactly when no row has it. */
  lemma {:induction false} CountKeyZero<T, K>(s: seq<T>, key: T -> K, k: K)
    ensures CountKey(s, key, k) == 0 <==> forall x :: x in s ==> key(x) != k
  {
    if s != [] {
      assert forall x :: x in s <==> x == s[0] || x in s[1..];
      CountKeyZero(s[1..], key, k);
    }
  }

  function CountOverKeys<T, K(==)>(s: seq<T>, key: T -> K, ks: seq<K>): nat
  {
    if ks == [] then 0 else CountKey(s, key, ks[0]) + CountOverKeys(s, key, ks[1..])
  }

  lemma {:induction false} CountOverKeysCons<T, K>(x: T, s: seq<T>, key: T -> K, ks: seq<K>)
    requires Distinct(ks)
    ensures CountOverKeys([x] + s, key, ks)
         == (if key(x) in ks then 1 else 0) + CountOverKeys(s, key, ks)
  {
    if ks != [] {
      assert ([x] + s)[1..] == s;
      assert ks == [ks[0]] + ks[1..];
      assert Distinct(ks[1..]);
      CountOverKeysCons(x, s, key, ks[1..]);
      assert key(x) == ks[0] ==> key(x) !in ks[1..];
    }
  }

  lemma {:induction false} CountOverKeysEmpty<T, K>(key: T -> K, ks: seq<K>)
    ensures CountOverKeys([], key, ks) == 0
  {
    if ks != [] { CountOverKeysEmpty(key, ks[1..]); }
  }

  /** The counts per distinct key add up to the number of rows. */
  lemma {:induction false} CountByKeyConserves<T, K>(s: seq<T>, key: T -> K, ks: seq<K>)
    requires Distinct(ks)
    requires forall x :: x in s ==> key(x) in ks
    ensures CountOverKeys(s, key, ks) == |s|
  {
    if s == [] {
      CountOverKeysEmpty(key, ks);
    } else {
      assert s == [s[0]] + s[1..];
      CountOverKeysCons(s[0], s[1..], key, ks);
      CountByKeyConserves(s[1..], key, ks);
    }
  }

  // ---------------------------------------------------------------------
  // Code-point lexicographic order on strings (Python's `<` on str)

  predicate Less(a: string, b: string)
    decreases |a|
  {
    if a == [] then b != []
    else if b == [] then false
    else if a[0] != b[0] then a[0] < b[0]
    else Less(a[1..], b[1..])
  }

  lemma {:induction false} LessIrreflexive(a: string)
    ensures !Less(a, a)
    decreases |a|
  {
    if a != [] { LessIrreflexive(a[1..]); }
  }

  lemma {:induction false} LessTransitive(a: string, b: string, c: string)
    requires Less(a, b) && Less(b, c)
    ensures Less(a, c)
    decreases |a|
  {
    if a != [] && b != [] && c != [] && a[0] == b[0] && b[0] == c[0] {
      LessTransitive(a[1..], b[1..], c[1..]);
    }
  }

  lemma {:induction false} LessTotal(a: string, b: string)
    ensures a == b || Less(a, b) || Less(b, a)
    decreases |a|
  {
    if a != [] && b != [] && a[0] == b[0] {
      LessTotal(a[1..], b[1..]);
      assert a == [a[0]] + a[1..] && b == [b[0]] + b[1..];
    }
  }

  predicate StrictlySorted(s: seq<string>)
  {
    forall i, j :: 0 <= i < j < |s| ==> Less(s[i], s[j])
  }

  lemma SortedIsDistinct(s: seq<string>)
    requires StrictlySorted(s)
    ensures Distinct(s)
  {
    forall i, j | 0 <= i < j < |s| ensures s[i] != s[j] {
      LessIrreflexive(s[i]);
    }
  }

  lemma SortedPrepend(x: string, s: seq<string>)
    requires StrictlySorted(s)
    requires forall y :: y in s ==> Less(x, y)
    ensures StrictlySorted([x] + s)
  {
  }

  /** Insert `x` into a strictly increasing list unless it is already there. */
  function InsertSorted(x: string, s: seq<string>): (r: seq<string>)
    requires StrictlySorted(s)
    ensures StrictlySorted(r)
    ensures forall y :: y in r <==> y == x || y in s
  {
    if s == [] then [x]
    else if x == s[0] then s
    else if Less(x, s[0]) then
      assert forall y :: y in s ==> Less(x, y) by {
        forall y | y in s ensures Less(x, y) {
          if y != s[0] { LessTransitive(x, s[0], y); }
        }
      }
      SortedPrepend(x, s);
      [x] + s
    else
      LessTotal(x, s[0]);
      var r := InsertSorted(x, s[1..]);
      SortedPrepend(s[0], r);
      [s[0]] + r
  }

  /** `sorted(set(xs))`: the distinct strings of `xs` in increasing order. */
  function SortedDistinct(xs: seq<string>): (r: seq<string>)
    ensures StrictlySorted(r)
    ensures forall y :: y in r <==> y in xs
  {
    if xs == [] then [] else InsertSorted(xs[0], SortedDistinct(xs[1..]))
  }

  // ---------------------------------------------------------------------
  // Stable sort by an optional timestamp, missing timestamps last

  /** `a` may come before `b` in ascending order with NaT last. */
  predicate TimeLe(a: Option<int>, b: Option<int>)
  {
    b.None? || (a.Some? && a.value <= b.value)
  }

  predicate SortedByTime<T>(s: seq<T>, t: T -> Option<int>)
  {
    forall i, j :: 0 <= i < j < |s| ==> TimeLe(t(s[i]), t(s[j]))
  }

  /** Insert `x` after every element whose time is not later than its own. */
  function InsertByTime<T(!new)>(x: T, s: seq<T>, t: T -> Option<int>): (r: seq<T>)
    requires SortedByTime(s, t)
    ensures SortedByTime(r, t)
    ensures multiset(r) == multiset(s) + multiset{x}
  {
    if s == [] then [x]
    else if !TimeLe(t(s[0]), t(x)) then
      assert s == [s[0]] + s[1..];
      [x] + s
    else
      var r := InsertByTime(x, s[1..], t);
      assert s == [s[0]] + s[1..];
      HeadBeforeInsert(x, s, t, r);
      SortedCons(s[0], r, t);
      [s[0]] + r
  }

  /** Everything inserted after the head of a sorted sequence is not earlier. */
  lemma HeadBeforeInsert<T(!new)>(x: T, s: seq<T>, t: T -> Option<int>, r: seq<T>)
    requires s != [] && SortedByTime(s, t) && TimeLe(t(s[0]), t(x))
    requires multiset(r) == multiset(s[1..]) + multiset{x}
    ensures forall y :: y in r ==> TimeLe(t(s[0]), t(y))
  {
    forall y | y in r ensures TimeLe(t(s[0]), t(y)) {
      assert y in multiset(r);
      if y != x {
        assert y in multiset(s[1..]);
        var k :| 0 <= k < |s[1..]| && s[1..][k] == y;
        assert s[k + 1] == y;
      }
    }
  }

  lemma SortedCons<T>(h: T, r: seq<T>, t: T -> Option<int>)
    requires SortedByTime(r, t)
    requires forall y :: y in r ==> TimeLe(t(h), t(y))
    ensures SortedByTime([h] + r, t)
  {
    forall i, j | 0 <= i < j < |[h] + r| ensures TimeLe(t(([h] + r)[i]), t(([h] + r)[j])) {
      assert ([h] + r)[j] == r[j - 1];
      assert r[j - 1] in r;
      if i > 0 { assert ([h] + r)[i] == r[i - 1]; }
    }
  }

  /** The tail of a sorted sequence is sorted and not earlier than its head. */
  lemma SortedTail<T>(s: seq<T>, t: T -> Option<int>)
    requires s != [] && SortedByTime(s, t)
    ensures SortedByTime(s[1..], t)
    ensures forall y :: y in s[1..] ==> TimeLe(t(s[0]), t(y))
  {
    forall y | y in s[1..] ensures TimeLe(t(s[0]), t(y)) {
      var k :| 0 <= k < |s[1..]| && s[1..][k] == y;
      assert s[k + 1] == y;
    }
    forall i, j | 0 <= i < j < |s[1..]| ensures TimeLe(t(s[1..][i]), t(s[1..][j])) {
      assert s[1..][i] == s[i + 1] && s[1..][j] == s[j + 1];
    }
  }

  /** Rows ordered by ascending time, NaT last, ties in input order. */
  function SortByTime<T(!new)>(s: seq<T>, t: T -> Option<int>): (r: seq<T>)
    ensures SortedByTime(r, t)
    ensures multiset(r) == multiset(s)
    ensures |r| == |s|
  {
    if s == [] then []
    else
      assert s == s[..|s| - 1] + [s[|s| - 1]];
      var r := InsertByTime(s[|s| - 1], SortByTime(s[..|s| - 1], t), t);
      assert |r| == |multiset(r)| == |multiset(s)| == |s|;
      r
  }

  /** The first present value, as pandas' groupby().first() takes per column. */
  function FirstSome<T>(s: seq<Option<T>>): (r: Option<T>)
    ensures r.Some? <==> exists i :: 0 <= i < |s| && s[i].Some?
    ensures r.Some? ==> exists i :: 0 <= i < |s| && s[i] == r
                          && forall j :: 0 <= j < i ==> s[j].None?
  {
    if s == [] then None
    else if s[0].Some? then s[0]
    else
      var r := FirstSome(s[1..]);
      assert forall i :: 0 < i < |s| ==> s[i] == s[1..][i - 1];
      r
  }

  /** The last present value, as groupby().last() takes per column. */
  function LastSome<T>(s: seq<Option<T>>): (r: Option<T>)
    ensures r.Some? <==> exists i :: 0 <= i < |s| && s[i].Some?
    ensures r.Some? ==> exists i :: 0 <= i < |s| && s[i] == r
                          && forall j :: i < j < |s| ==> s[j].None?
  {
    if s == [] then None
    else
      var r := LastSome(s[1..]);
      assert forall i :: 0 < i < |s| ==> s[i] == s[1..][i - 1];
      if r.Some? then r else s[0]
  }

  // ---------------------------------------------------------------------
  // Distinct values and first occurrences

  /** The set of present values of a column: `set(col.dropna())`. */
  function Present<T, K(!new)>(s: seq<T>, f: T -> Option<K>): (r: set<K>)
    ensures |r| <= |s|
    ensures forall k :: k in r <==> exists i :: 0 <= i < |s| && f(s[i]) == Some(k)
  {
    if s == [] then {}
    else
      var rest := Present(s[1..], f);
      assert forall i :: 0 < i < |s| ==> s[i] == s[1..][i - 1];
      if f(s[0]).Some? then {f(s[0]).value} + rest else rest
  }

  /** `drop_duplicates(subset=key)` started with the keys in `seen` already
      taken: the first row of every key not yet seen, in input order. */
  function DedupeFrom<T(!new), K(==)>(s: seq<T>, key: T -> K, seen: set<K>): (r: seq<T>)
    ensures forall x :: x in r ==> x in s && key(x) !in seen
  {
    if s == [] then []
    else if key(s[0]) in seen then DedupeFrom(s[1..], key, seen)
    else [s[0]] + DedupeFrom(s[1..], key, seen + {key(s[0])})
  }

  /** No two rows share a key. */
  predicate DistinctBy<T, K(==)>(r: seq<T>, key: T -> K)
  {
    forall i, j :: 0 <= i < j < |r| ==> key(r[i]) != key(r[j])
  }

  lemma DistinctByPrepend<T, K>(x: T, r: seq<T>, key: T -> K)
    requires DistinctBy(r, key)
    requires forall y :: y in r ==> key(y) != key(x)
    ensures DistinctBy([x] + r, key)
  {
    forall i, j | 0 <= i < j < |[x] + r| ensures key(([x] + r)[i]) != key(([x] + r)[j]) {
      assert ([x] + r)[j] == r[j - 1];
      assert r[j - 1] in r;
      if i > 0 { assert ([x] + r)[i] == r[i - 1]; }
    }
  }

  /** Distinct keys stay distinct in the tail, and the head's key is not in it. */
  lemma DistinctByTail<T, K>(r: seq<T>, key: T -> K)
    requires r != [] && DistinctBy(r, key)
    ensures DistinctBy(r[1..], key)
    ensures forall y :: y in r[1..] ==> key(y) != key(r[0])
  {
    forall i, j | 0 <= i < j < |r[1..]| ensures key(r[1..][i]) != key(r[1..][j]) {
      assert r[1..][i] == r[i + 1] && r[1..][j] == r[j + 1];
    }
    forall y | y in r[1..] ensures key(y) != key(r[0]) {
      var j :| 0 <= j < |r[1..]| && r[1..][j] == y;
      assert r[j + 1] == y;
    }
  }

  /** The keys the rows carry. */
  function KeySet<T(==), K>(rows: seq<T>, key: T -> K): set<K>
  {
    set x | x in rows :: key(x)
  }

  /** Rows with distinct keys have as many keys as rows. */
  lemma {:induction false} DistinctKeysCard<T, K>(rows: seq<T>, key: T -> K)
    requires DistinctBy(rows, key)
    ensures |KeySet(rows, key)| == |rows|
  {
    if rows != [] {
      var tail := rows[1..];
      DistinctByTail(rows, key);
      DistinctKeysCard(tail, key);
      assert key(rows[0]) !in KeySet(tail, key);
      assert KeySet(rows, key) == {key(rows[0])} + KeySet(tail, key) by {
        assert forall x :: x in rows <==> x == rows[0] || x in tail;
      }
    }
  }

  /** No two kept rows share a key. */
  lemma {:induction false} DedupeDistinct<T(!new), K>(s: seq<T>, key: T -> K, seen: set<K>)
    ensures DistinctBy(DedupeFrom(s, key, seen), key)
  {
    if s != [] {
      if key(s[0]) in seen {
        DedupeDistinct(s[1..], key, seen);
      } else {
        DedupeDistinct(s[1..], key, seen + {key(s[0])});
        DistinctByPrepend(s[0], DedupeFrom(s[1..], key, seen + {key(s[0])}), key);
      }
    }
  }

  /** Selecting rows keeps their keys distinct. */
  lemma {:induction false} DistinctWhere<T(!new), K>(s: seq<T>, key: T -> K, p: T -> bool)
    requires DistinctBy(s, key)
    ensures DistinctBy(Where(s, p), key)
  {
    if s != [] {
      assert DistinctBy(s[1..], key) by {
        forall i, j | 0 <= i < j < |s[1..]| ensures key(s[1..][i]) != key(s[1..][j]) {
          assert s[1..][i] == s[i + 1] && s[1..][j] == s[j + 1];
        }
      }
      DistinctWhere(s[1..], key, p);
      if p(s[0]) {
        forall y | y in Where(s[1..], p) ensures key(y) != key(s[0]) {
          var j :| 0 < j < |s| && s[j] == y;
        }
        DistinctByPrepend(s[0], Where(s[1..], p), key);
      }
    }
  }

  /** Every key that occurs and was not already seen keeps a row. */
  lemma {:induction false} DedupeCovers<T(!new), K>(s: seq<T>, key: T -> K, seen: set<K>)
    ensures forall x :: x in s && key(x) !in seen ==>
      exists y :: y in DedupeFrom(s, key, seen) && key(y) == key(x)
  {
    if s != [] {
      var seen' := if key(s[0]) in seen then seen else seen + {key(s[0])};
      DedupeCovers(s[1..], key, seen');
      forall x | x in s && key(x) !in seen
        ensures exists y :: y in DedupeFrom(s, key, seen) && key(y) == key(x)
      {
        if key(x) == key(s[0]) {
          assert s[0] in DedupeFrom(s, key, seen);
        } else {
          assert x in s[1..];
        }
      }
    }
  }

  /** Every kept row is the first row of `s` carrying its key. */
  lemma {:induction false} DedupeKeepsFirst<T(!new), K>(s: seq<T>, key: T -> K, seen: set<K>)
    ensures forall y :: y in DedupeFrom(s, key, seen) ==> exists k :: Earliest(s, key, k) && s[k] == y
  {
    if s != [] {
      var seen' := if key(s[0]) in seen then seen else seen + {key(s[0])};
      var r := DedupeFrom(s[1..], key, seen');
      DedupeKeepsFirst(s[1..], key, seen');
      forall y | y in DedupeFrom(s, key, seen) ensures exists k :: Earliest(s, key, k) && s[k] == y {
        if y in r {
          assert key(y) != key(s[0]);
          var k :| Earliest(s[1..], key, k) && s[1..][k] == y;
          assert s[k + 1] == y;
          assert Earliest(s, key, k + 1) by {
            forall j | 0 <= j < k + 1 ensures key(s[j]) != key(s[k + 1]) {
              if j > 0 { assert s[j] == s[1..][j - 1]; }
            }
          }
        } else {
          assert y == s[0];
          assert Earliest(s, key, 0);
        }
      }
    }
  }

  /** Selecting by `p` and then keeping the first row of each key: the kept
      rows are selected rows with distinct keys, every selected key keeps a
      row, and that row is the first selected row of its key in `s`. */
  lemma SelectDedupe<T(!new), K>(s: seq<T>, p: T -> bool, key: T -> K, r: seq<T>)
    requires r == DedupeFrom(Where(s, p), key, {})
    ensures forall x :: x in r ==> x in s && p(x)
    ensures DistinctBy(r, key)
    ensures forall x :: x in s && p(x) ==> exists y :: y in r && key(y) == key(x)
    ensures forall y :: y in r ==> exists k :: FirstSelected(s, p, key, k) && s[k] == y
  {
    WhereMembers(s, p);
    DedupeDistinct(Where(s, p), key, {});
    DedupeCovers(Where(s, p), key, {});
    SelectDedupeFirst(s, p, key, r);
  }

  lemma SelectDedupeFirst<T(!new), K>(s: seq<T>, p: T -> bool, key: T -> K, r: seq<T>)
    requires r == DedupeFrom(Where(s, p), key, {})
    ensures forall y :: y in r ==> exists k :: FirstSelected(s, p, key, k) && s[k] == y
  {
    var f := Where(s, p);
    DedupeKeepsFirst(f, key, {});
    forall y | y in r ensures exists k :: FirstSelected(s, p, key, k) && s[k] == y {
      var k :| Earliest(f, key, k) && f[k] == y;
      WhereFirst(s, p, key, k);
    }
  }

  lemma SubsetCard<T>(a: set<T>, b: set<T>)
    requires a <= b
    ensures |a| <= |b|
  {
    if a != {} {
      var x :| x in a;
      SubsetCard(a - {x}, b - {x});
    }
  }

  /** `sub in s` for strings. */
  predicate Contains(s: string, sub: string)
  {
    exists i :: 0 <= i <= |s| - |sub| && Occurs(s, sub, i)
  }

  predicate Occurs(s: string, sub: string, i: int)
  {
    0 <= i && i + |sub| <= |s| && s[i..i + |sub|] == sub
  }

  /** `pd.unique`: each value once, in order of first appearance. */
  function Unique<T(==,!new)>(xs: seq<T>): (r: seq<T>)
    ensures Distinct(r)
    ensures forall x :: x in r <==> x in xs
  {
    if xs == [] then []
    else
      var u := Unique(xs[..|xs| - 1]);
      assert forall x :: x in xs <==> x in xs[..|xs| - 1] || x == xs[|xs| - 1];
      if xs[|xs| - 1] in u then u else u + [xs[|xs| - 1]]
  }

  /** `{x: i for i, x in enumerate(xs)}`: a later copy of a value overwrites
      the index of an earlier one. */
  function IndexMap<T(==,!new)>(xs: seq<T>): (m: map<T, nat>)
    ensures forall x :: x in m <==> x in xs
    ensures forall x :: x in m ==> m[x] < |xs| && xs[m[x]] == x
  {
    if xs == [] then map[]
    else
      var n := |xs| - 1;
      assert forall x :: x in xs <==> x in xs[..n] || x == xs[n];
      IndexMap(xs[..n])[xs[n] := n]
  }

  /** Over distinct values the index map is a bijection onto the positions. */
  lemma {:induction false} IndexMapOfDistinct<T(!new)>(xs: seq<T>, i: nat)
    requires Distinct(xs) && i < |xs|
    ensures xs[i] in IndexMap(xs) && IndexMap(xs)[xs[i]] == i
  {
    var m := IndexMap(xs);
    assert xs[i] in m;
    assert xs[m[xs[i]]] == xs[i];
  }
}
