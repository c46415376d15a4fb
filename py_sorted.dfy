/**
 * Python's `sorted(xs, key=f, reverse=True)` and the slice `xs[:n]`.
 *
 * `sorted` is stable, and with `reverse=True` it still keeps items with equal
 * keys in their original order. `SortDesc` inserts each item in front of the
 * items whose key it does not exceed, so ties keep input order.
 */
module PySorted {

  function InsertDesc<T>(x: T, s: seq<T>, key: T -> real): seq<T>
  {
    if s == [] || key(x) >= key(s[0]) then [x] + s
    else [s[0]] + InsertDesc(x, s[1..], key)
  }

  function SortDesc<T>(s: seq<T>, key: T -> real): seq<T>
  {
    if s == [] then [] else InsertDesc(s[0], SortDesc(s[1..], key), key)
  }

  predicate SortedDesc<T>(s: seq<T>, key: T -> real)
  {
    forall i, j :: 0 <= i < j < |s| ==> key(s[i]) >= key(s[j])
  }

  /** The items of `s` whose key is `v`, in the order of `s`. */
  function WithKey<T>(s: seq<T>, key: T -> real, v: real): seq<T>
  {
    if s == [] then [] else (if key(s[0]) == v then [s[0]] else []) + WithKey(s[1..], key, v)
  }

  /** Python's `s[:n]`: the first `n` items, or, for negative `n`, all but the last `-n`. */
  function Prefix<T>(s: seq<T>, n: int): (r: seq<T>)
    ensures |r| <= |s| && r == s[..|r|]
    ensures 0 <= n ==> |r| <= n && (|r| < n ==> r == s)
    ensures n < 0 ==> |r| == if |s| + n > 0 then |s| + n else 0
  {
    if n >= 0 then (if n < |s| then s[..n] else s)
    else if |s| + n > 0 then s[..|s| + n] else []
  }

  lemma {:induction false} InsertDescItems<T>(x: T, s: seq<T>, key: T -> real)
    ensures multiset(InsertDesc(x, s, key)) == multiset(s) + multiset{x}
  {
    if s != [] && key(x) < key(s[0]) {
      InsertDescItems(x, s[1..], key);
      assert s == [s[0]] + s[1..];
    }
  }

  /** The result is a permutation of the input (and so has its length). */
  lemma {:induction false} SortDescPermutes<T>(s: seq<T>, key: T -> real)
    ensures multiset(SortDesc(s, key)) == multiset(s)
    ensures |SortDesc(s, key)| == |s|
  {
    if s != [] {
      SortDescPermutes(s[1..], key);
      InsertDescItems(s[0], SortDesc(s[1..], key), key);
      assert s == [s[0]] + s[1..];
    }
    assert |multiset(SortDesc(s, key))| == |SortDesc(s, key)|;
  }

  lemma {:induction false} InsertDescOrdered<T>(x: T, s: seq<T>, key: T -> real)
    requires SortedDesc(s, key)
    ensures SortedDesc(InsertDesc(x, s, key), key)
  {
    if s != [] && key(x) < key(s[0]) {
      InsertDescOrdered(x, s[1..], key);
      InsertDescItems(x, s[1..], key);
      var r := InsertDesc(x, s[1..], key);
      forall k | 0 <= k < |r| ensures key(s[0]) >= key(r[k]) {
        assert r[k] in multiset(r);
        assert r[k] == x || r[k] in multiset(s[1..]);
        if r[k] != x {
          var m :| 0 <= m < |s[1..]| && s[1..][m] == r[k];
          assert s[m + 1] == r[k];
        }
      }
    }
  }

  /** The result is ordered by non-increasing key. */
  lemma {:induction false} SortDescOrdered<T>(s: seq<T>, key: T -> real)
    ensures SortedDesc(SortDesc(s, key), key)
  {
    if s != [] {
      SortDescOrdered(s[1..], key);
      InsertDescOrdered(s[0], SortDesc(s[1..], key), key);
    }
  }

  lemma {:induction false} InsertDescStable<T>(x: T, s: seq<T>, key: T -> real, v: real)
    ensures WithKey(InsertDesc(x, s, key), key, v) == (if key(x) == v then [x] else []) + WithKey(s, key, v)
  {
    if s != [] && key(x) < key(s[0]) {
      InsertDescStable(x, s[1..], key, v);
      assert ([s[0]] + InsertDesc(x, s[1..], key))[1..] == InsertDesc(x, s[1..], key);
    } else {
      assert ([x] + s)[1..] == s;
    }
  }

  /** Stability: for every key value, the items with that key come out in input order. */
  lemma {:induction false} SortDescStable<T>(s: seq<T>, key: T -> real, v: real)
    ensures WithKey(SortDesc(s, key), key, v) == WithKey(s, key, v)
  {
    if s != [] {
      SortDescStable(s[1..], key, v);
      InsertDescStable(s[0], SortDesc(s[1..], key), key, v);
    }
  }

  /** In a sorted sequence, an item beyond the first `k` has a key no larger than
      any of the first `k`. */
  lemma {:induction false} SortedSplit<T>(sorted: seq<T>, key: T -> real, k: int, x: T, f: T)
    requires SortedDesc(sorted, key) && 0 <= k <= |sorted|
    requires x in multiset(sorted) - multiset(sorted[..k]) && f in sorted[..k]
    ensures key(x) <= key(f)
  {
    assert sorted == sorted[..k] + sorted[k..];
    assert multiset(sorted) == multiset(sorted[..k]) + multiset(sorted[k..]);
    assert x in multiset(sorted[k..]);
    var b :| 0 <= b < |sorted[k..]| && sorted[k..][b] == x;
    var a :| 0 <= a < k && sorted[..k][a] == f;
    assert sorted[a] == f && sorted[k + b] == x;
  }

  /** `s[:n]` depends on `s` only through its length. */
  lemma {:induction false} PrefixLength<T, U>(a: seq<T>, b: seq<U>, n: int)
    requires |a| == |b|
    ensures |Prefix(a, n)| == |Prefix(b, n)|
  {
  }

  lemma {:induction false} PrefixIncluded<T>(s: seq<T>, k: int)
    requires 0 <= k <= |s|
    ensures multiset(s[..k]) <= multiset(s)
  {
    assert s == s[..k] + s[k..];
  }

  /** `sorted(s, key=key, reverse=True)[:n]`: as many items as `s[:n]` would hold,
      in descending key order, drawn from `s`. */
  lemma {:induction false} TopSpec<T>(s: seq<T>, key: T -> real, n: int)
    ensures |SortDesc(s, key)| == |s|
    ensures var top := Prefix(SortDesc(s, key), n);
            |top| == |Prefix(s, n)| && SortedDesc(top, key) && multiset(top) <= multiset(s)
  {
    var sorted := SortDesc(s, key);
    var top := Prefix(sorted, n);
    SortDescPermutes(s, key);
    SortDescOrdered(s, key);
    PrefixLength(sorted, s, n);
    PrefixIncluded(sorted, |top|);
  }

  /** No item left out of `sorted(s, key=key, reverse=True)[:n]` has a larger key
      than an item kept. */
  lemma {:induction false} TopBeats<T>(s: seq<T>, key: T -> real, n: int, x: T, f: T)
    requires x in multiset(s) - multiset(Prefix(SortDesc(s, key), n))
    requires f in Prefix(SortDesc(s, key), n)
    ensures key(x) <= key(f)
  {
    var sorted := SortDesc(s, key);
    var top := Prefix(sorted, n);
    SortDescPermutes(s, key);
    SortDescOrdered(s, key);
    assert top == sorted[..|top|];
    SortedSplit(sorted, key, |top|, x, f);
  }

  lemma {:induction false} WithKeyAppend<T>(s: seq<T>, x: T, key: T -> real, v: real)
    ensures WithKey(s + [x], key, v) == WithKey(s, key, v) + (if key(x) == v then [x] else [])
  {
    if s == [] {
      assert s + [x] == [x];
    } else {
      assert (s + [x])[1..] == s[1..] + [x];
      WithKeyAppend(s[1..], x, key, v);
    }
  }

  /** Cutting a sequence short cuts each of its key classes short. */
  lemma {:induction false} WithKeyPrefix<T>(s: seq<T>, key: T -> real, v: real, k: int)
    requires 0 <= k <= |s|
    ensures var w := WithKey(s[..k], key, v);
            |w| <= |WithKey(s, key, v)| && w == WithKey(s, key, v)[..|w|]
  {
    if k > 0 {
      assert s[..k][1..] == s[1..][..k - 1];
      WithKeyPrefix(s[1..], key, v, k - 1);
    }
  }

  /** Ties in `sorted(s, key=key, reverse=True)[:n]`: of the items whose key is `v`,
      the ones kept are the first ones of `s`, in the order of `s`. */
  lemma {:induction false} TopStable<T>(s: seq<T>, key: T -> real, n: int, v: real)
    ensures var tied := WithKey(Prefix(SortDesc(s, key), n), key, v);
            |tied| <= |WithKey(s, key, v)| && tied == WithKey(s, key, v)[..|tied|]
  {
    var sorted := SortDesc(s, key);
    var top := Prefix(sorted, n);
    assert top == sorted[..|top|];
    WithKeyPrefix(sorted, key, v, |top|);
    SortDescStable(s, key, v);
  }
}
