/** Python's `sorted(items, key=..., reverse=...)` on a real-valued key, and the slice `items[:n]`.

    Items are paired with their key, so the same sort serves (ticker, value) pairs and
    candidates keyed by their composite score. Python's sort is stable, also with
    `reverse=True`: items with equal keys keep their input order. */
module Sorting {

  /** A key `a` belongs strictly before a key `b`: larger first when `descending`, smaller first otherwise. */
  predicate Precedes(a: real, b: real, descending: bool) {
    if descending then a > b else a < b
  }

  /** No item is strictly preceded by a later one: keys never increase (descending) or never decrease. */
  predicate SortedBy<T>(s: seq<(T, real)>, descending: bool) {
    forall i, j :: 0 <= i < j < |s| ==> !Precedes(s[j].1, s[i].1, descending)
  }

  /** The items of `s` whose key is `k`, in their order in `s`. */
  function WithKey<T>(s: seq<(T, real)>, k: real): seq<(T, real)> {
    if s == [] then [] else (if s[0].1 == k then [s[0]] else []) + WithKey(s[1..], k)
  }

  /** Inserts `x` ahead of every item it does not strictly follow, so `x` lands before the items with its own key. */
  function Insert<T>(x: (T, real), s: seq<(T, real)>, descending: bool): (r: seq<(T, real)>)
    ensures multiset(r) == multiset(s) + multiset{x}
  {
    if s == [] || !Precedes(s[0].1, x.1, descending) then
      [x] + s
    else
      assert s == [s[0]] + s[1..];
      [s[0]] + Insert(x, s[1..], descending)
  }

  lemma {:induction false} InsertSorted<T>(x: (T, real), s: seq<(T, real)>, descending: bool)
    requires SortedBy(s, descending)
    ensures SortedBy(Insert(x, s, descending), descending)
  {
    if s != [] && Precedes(s[0].1, x.1, descending) {
      var rest := Insert(x, s[1..], descending);
      InsertSorted(x, s[1..], descending);
      var r := [s[0]] + rest;
      forall i, j | 0 <= i < j < |r| ensures !Precedes(r[j].1, r[i].1, descending) {
        if i == 0 {
          var y := rest[j - 1];
          assert y in multiset(rest);
          if y != x {
            assert y in multiset(s[1..]);
            var m :| 0 <= m < |s[1..]| && s[1..][m] == y;
            assert s[m + 1] == y;
          }
        } else {
          assert r[i] == rest[i - 1] && r[j] == rest[j - 1];
        }
      }
    }
  }

  lemma {:induction false} InsertWithKey<T>(x: (T, real), s: seq<(T, real)>, descending: bool, k: real)
    ensures WithKey(Insert(x, s, descending), k) == if x.1 == k then [x] + WithKey(s, k) else WithKey(s, k)
  {
    if s == [] || !Precedes(s[0].1, x.1, descending) {
      assert ([x] + s)[1..] == s;
    } else {
      var rest := Insert(x, s[1..], descending);
      InsertWithKey(x, s[1..], descending, k);
      assert ([s[0]] + rest)[1..] == rest;
    }
  }

  /** Stable insertion sort: the sort Python's `sorted(..., reverse=descending)` performs. */
  function SortByKey<T>(xs: seq<(T, real)>, descending: bool): (r: seq<(T, real)>)
    ensures multiset(r) == multiset(xs) && |r| == |xs|
    ensures SortedBy(r, descending)
    ensures forall k :: WithKey(r, k) == WithKey(xs, k)
  {
    if xs == [] then []
    else
      assert xs == [xs[0]] + xs[1..];
      var sorted := SortByKey(xs[1..], descending);
      var r := Insert(xs[0], sorted, descending);
      assert |r| == |multiset(r)| == |multiset(xs)| == |xs|;
      InsertSorted(xs[0], sorted, descending);
      assert forall k :: WithKey(r, k) == WithKey(xs, k) by {
        forall k { InsertWithKey(xs[0], sorted, descending, k); }
      }
      r
  }

  /** Python's `s[:n]`: the first `n` items, or all but the last `-n` when `n` is negative. */
  function PySliceTo<T>(s: seq<T>, n: int): (r: seq<T>)
    ensures |r| <= |s| && r == s[..|r|]
    ensures n >= 0 ==> |r| == if n < |s| then n else |s|
    ensures n < 0 ==> |r| == if |s| + n > 0 then |s| + n else 0
  {
    if n >= 0 then (if n < |s| then s[..n] else s)
    else (if |s| + n > 0 then s[..|s| + n] else [])
  }

  /** No item occurs twice. */
  ghost predicate Distinct<T>(s: seq<T>) {
    forall i, j :: 0 <= i < j < |s| ==> s[i] != s[j]
  }

  lemma {:induction false} WithKeyAppend<T>(a: seq<(T, real)>, b: seq<(T, real)>, k: real)
    ensures WithKey(a + b, k) == WithKey(a, k) + WithKey(b, k)
  {
    if a != [] {
      assert (a + b)[1..] == a[1..] + b;
      WithKeyAppend(a[1..], b, k);
    } else {
      assert a + b == b;
    }
  }

  lemma {:induction false} WithKeyAll<T>(s: seq<(T, real)>, k: real)
    requires forall i :: 0 <= i < |s| ==> s[i].1 == k
    ensures WithKey(s, k) == s
  {
    if s != [] {
      WithKeyAll(s[1..], k);
    }
  }

  /** The sort is stable: when every key is the same it keeps the items where they are. */
  lemma {:induction false} SortAllTied<T>(xs: seq<(T, real)>, descending: bool, k: real)
    requires forall i :: 0 <= i < |xs| ==> xs[i].1 == k
    ensures SortByKey(xs, descending) == xs
  {
    var r := SortByKey(xs, descending);
    forall i | 0 <= i < |r| ensures r[i].1 == k {
      assert r[i] in multiset(xs);
    }
    WithKeyAll(r, k);
    WithKeyAll(xs, k);
  }

  lemma {:induction false} WithKeyMembers<T>(s: seq<(T, real)>, k: real)
    ensures forall x :: x in WithKey(s, k) ==> x in s && x.1 == k
  {
    if s != [] {
      WithKeyMembers(s[1..], k);
    }
  }

  lemma {:induction false} WithKeyDistinct<T>(s: seq<(T, real)>, k: real)
    requires Distinct(s)
    ensures Distinct(WithKey(s, k))
  {
    if s != [] {
      WithKeyDistinct(s[1..], k);
      WithKeyMembers(s[1..], k);
      var w := WithKey(s[1..], k);
      if s[0].1 == k {
        assert s[0] !in s[1..];
        assert s[0] !in w;
        forall i, j | 0 <= i < j < |[s[0]] + w| ensures ([s[0]] + w)[i] != ([s[0]] + w)[j] {
          if i == 0 { assert ([s[0]] + w)[j] == w[j - 1]; assert w[j - 1] in w; }
        }
      }
    }
  }

  /** Where `s[i]` (with key `k`) sits inside `WithKey(s, k)`. */
  lemma {:induction false} WithKeyAt<T>(s: seq<(T, real)>, i: nat, k: real)
    requires i < |s| && s[i].1 == k
    ensures |WithKey(s[..i], k)| < |WithKey(s, k)|
    ensures WithKey(s, k)[|WithKey(s[..i], k)|] == s[i]
  {
    assert s == s[..i] + [s[i]] + s[i + 1..];
    WithKeyAppend(s[..i] + [s[i]], s[i + 1..], k);
    WithKeyAppend(s[..i], [s[i]], k);
    assert WithKey([s[i]], k) == [s[i]];
  }

  /** Items with key `k` further right in `s` sit further right in `WithKey(s, k)`. */
  lemma {:induction false} WithKeyMonotone<T>(s: seq<(T, real)>, i: nat, j: nat, k: real)
    requires i < j <= |s| && s[i].1 == k
    ensures |WithKey(s[..i], k)| < |WithKey(s[..j], k)|
  {
    assert s[..j] == s[..i] + [s[i]] + s[i + 1..j];
    WithKeyAppend(s[..i] + [s[i]], s[i + 1..j], k);
    WithKeyAppend(s[..i], [s[i]], k);
    assert WithKey([s[i]], k) == [s[i]];
  }

  /** Stability by position: two distinct items with equal keys come out of the sort in the
      order they went in. */
  lemma {:induction false} StableTieOrder<T>(xs: seq<(T, real)>, descending: bool, i: nat, j: nat)
    requires Distinct(xs)
    requires i < j < |xs| && xs[i].1 == xs[j].1
    ensures exists p, q ::
              && 0 <= p < q < |xs|
              && SortByKey(xs, descending)[p] == xs[i]
              && SortByKey(xs, descending)[q] == xs[j]
  {
    var r := SortByKey(xs, descending);
    var k := xs[i].1;
    assert xs[i] in multiset(r) && xs[j] in multiset(r);
    var p :| 0 <= p < |r| && r[p] == xs[i];
    var q :| 0 <= q < |r| && r[q] == xs[j];
    var w := WithKey(xs, k);
    assert w == WithKey(r, k);
    WithKeyDistinct(xs, k);
    WithKeyAt(xs, i, k);
    WithKeyAt(xs, j, k);
    WithKeyAt(r, p, k);
    WithKeyAt(r, q, k);
    WithKeyMonotone(xs, i, j, k);
    // positions inside w are unique, so p and q land where i and j do
    assert |WithKey(r[..p], k)| == |WithKey(xs[..i], k)|;
    assert |WithKey(r[..q], k)| == |WithKey(xs[..j], k)|;
    if q < p {
      WithKeyMonotone(r, q, p, k);
    }
    assert p != q;
  }

  /** In a sequence without repeats, when the later of two items is in a prefix, so is the
      earlier one, at the same places. */
  lemma PrefixKeepsPair<T>(r: seq<T>, n: nat, p: nat, q: nat)
    requires Distinct(r) && n <= |r| && p < q < |r| && r[q] in r[..n]
    ensures q < n && r[..n][p] == r[p] && r[..n][q] == r[q]
  {
    var k :| 0 <= k < n && r[..n][k] == r[q];
    assert r[k] == r[q];
  }

  lemma {:induction false} DistinctCount<T>(s: seq<T>)
    requires Distinct(s)
    ensures forall v :: multiset(s)[v] <= 1
  {
    if s != [] {
      assert s == [s[0]] + s[1..];
      DistinctCount(s[1..]);
      assert s[0] !in s[1..];
      assert multiset(s[1..])[s[0]] == 0;
    }
  }

  lemma {:induction false} TwiceCounted<T>(s: seq<T>, a: nat, b: nat)
    requires a < b < |s| && s[a] == s[b]
    ensures multiset(s)[s[a]] >= 2
  {
    assert s == s[..b] + s[b..];
    assert s[a] in s[..b];
    assert s[b] in s[b..];
  }

  /** A rearrangement of a sequence without repeats has no repeats. */
  lemma {:induction false} DistinctPermutation<T>(a: seq<T>, b: seq<T>)
    requires Distinct(a) && multiset(a) == multiset(b)
    ensures Distinct(b)
  {
    DistinctCount(a);
    forall i, j | 0 <= i < j < |b| ensures b[i] != b[j] {
      if b[i] == b[j] {
        TwiceCounted(b, i, j);
      }
    }
  }

  /** The items of a sequence of pairs with their keys dropped. */
  function Items<T>(s: seq<(T, real)>): (r: seq<T>)
    ensures |r| == |s| && forall i :: 0 <= i < |s| ==> r[i] == s[i].0
  {
    if s == [] then [] else [s[0].0] + Items(s[1..])
  }
}
