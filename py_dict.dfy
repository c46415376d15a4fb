/**
 * Python `dict` semantics over association lists.
 *
 * A dict is the sequence of its items in insertion order. Reading a key finds
 * its item; assigning to a key that is present replaces the value where it
 * stands, and assigning to a new key appends an item at the end. Iteration
 * order (which decides ties later on) is the order of the sequence.
 */
module PyDict {
  import opened Wrappers
  import opened PySorted

  type Dict<K, V> = seq<(K, V)>

  predicate HasKey<K(==), V>(d: Dict<K, V>, k: K)
  {
    exists i :: 0 <= i < |d| && d[i].0 == k
  }

  predicate DistinctKeys<K(==), V>(d: Dict<K, V>)
  {
    forall i, j :: 0 <= i < j < |d| ==> d[i].0 != d[j].0
  }

  /** The keys of a list of items, in order: `[k for k, _ in items]`. */
  function Keys<K, V>(items: seq<(K, V)>): seq<K>
  {
    seq(|items|, i requires 0 <= i < |items| => items[i].0)
  }

  /** `d.get(k)`: the value of the first item with key `k`. */
  function Get<K(==), V>(d: Dict<K, V>, k: K): Option<V>
  {
    if d == [] then None
    else if d[0].0 == k then Some(d[0].1)
    else Get(d[1..], k)
  }

  /** `d[k] = v`. */
  function Put<K(==), V>(d: Dict<K, V>, k: K, v: V): Dict<K, V>
  {
    if d == [] then [(k, v)]
    else if d[0].0 == k then [(k, v)] + d[1..]
    else [d[0]] + Put(d[1..], k, v)
  }

  /** Assigning every item of `items` in turn: `for k, v in items: d[k] = v`,
      which is also what `{**d, **dict(items)}` builds. */
  function PutAll<K(==), V>(d: Dict<K, V>, items: seq<(K, V)>): Dict<K, V>
  {
    if items == [] then d
    else
      var n := |items| - 1;
      Put(PutAll(d, items[..n]), items[n].0, items[n].1)
  }

  /** The value of the last item of `items` whose key is `k`. */
  function LastWith<K(==), V>(items: seq<(K, V)>, k: K): Option<V>
  {
    if items == [] then None
    else
      var n := |items| - 1;
      if items[n].0 == k then Some(items[n].1) else LastWith(items[..n], k)
  }

  lemma {:induction false} GetHasKey<K, V>(d: Dict<K, V>, k: K)
    ensures Get(d, k).Some? <==> HasKey(d, k)
  {
    if d != [] {
      GetHasKey(d[1..], k);
      if d[0].0 == k {
        assert d[0].0 == k;
      } else {
        if HasKey(d, k) {
          var i :| 0 <= i < |d| && d[i].0 == k;
          assert d[1..][i - 1].0 == k;
        }
        if HasKey(d[1..], k) {
          var i :| 0 <= i < |d[1..]| && d[1..][i].0 == k;
          assert d[i + 1].0 == k;
        }
      }
    }
  }

  /** In a dict with distinct keys, looking up an item's key yields that item's value. */
  lemma {:induction false} GetAt<K, V>(d: Dict<K, V>, i: int)
    requires DistinctKeys(d)
    requires 0 <= i < |d|
    ensures Get(d, d[i].0) == Some(d[i].1)
  {
    if i > 0 {
      assert d[0].0 != d[i].0;
      assert d[1..][i - 1] == d[i];
      GetAt(d[1..], i - 1);
    }
  }

  /** Reading after an assignment sees the assigned value, and only at its key. */
  lemma {:induction false} PutGet<K, V>(d: Dict<K, V>, k: K, v: V, k': K)
    ensures Get(Put(d, k, v), k') == if k' == k then Some(v) else Get(d, k')
  {
    if d != [] && d[0].0 != k {
      PutGet(d[1..], k, v, k');
      assert Put(d, k, v)[1..] == Put(d[1..], k, v);
    } else if d != [] {
      assert Put(d, k, v)[1..] == d[1..];
    }
  }

  /** Assigning a new key appends one item at the end. */
  lemma {:induction false} PutNew<K, V>(d: Dict<K, V>, k: K, v: V)
    requires !HasKey(d, k)
    ensures Put(d, k, v) == d + [(k, v)]
  {
    if d != [] {
      assert d[0].0 != k;
      forall i | 0 <= i < |d[1..]| ensures d[1..][i].0 != k {
        assert d[1..][i] == d[i + 1];
      }
      PutNew(d[1..], k, v);
      assert [d[0]] + (d[1..] + [(k, v)]) == d + [(k, v)];
    }
  }

  /** Assigning a present key replaces its value where it stands. */
  lemma {:induction false} PutExisting<K, V>(d: Dict<K, V>, k: K, v: V, i: int)
    requires DistinctKeys(d)
    requires 0 <= i < |d| && d[i].0 == k
    ensures Put(d, k, v) == d[i := (k, v)]
  {
    if i > 0 {
      assert d[0].0 != k;
      PutExisting(d[1..], k, v, i - 1);
      assert [d[0]] + d[1..][i - 1 := (k, v)] == d[i := (k, v)];
    } else {
      assert [(k, v)] + d[1..] == d[0 := (k, v)];
    }
  }

  /** Every item of `d[k] = v` is the new item or an item of `d`. */
  lemma {:induction false} PutItems<K, V>(d: Dict<K, V>, k: K, v: V)
    ensures forall e :: e in Put(d, k, v) ==> e == (k, v) || e in d
  {
    if d != [] && d[0].0 != k {
      PutItems(d[1..], k, v);
    }
  }

  /** Assignment keeps the keys of a dict distinct. */
  lemma {:induction false} PutDistinct<K, V>(d: Dict<K, V>, k: K, v: V)
    requires DistinctKeys(d)
    ensures DistinctKeys(Put(d, k, v))
  {
    if HasKey(d, k) {
      var i :| 0 <= i < |d| && d[i].0 == k;
      PutExisting(d, k, v, i);
    } else {
      PutNew(d, k, v);
      var r := d + [(k, v)];
      forall i, j | 0 <= i < j < |r| ensures r[i].0 != r[j].0 {
        if j == |d| {
          assert r[i] == d[i];
        }
      }
    }
  }

  lemma {:induction false} PutAllDistinct<K, V>(d: Dict<K, V>, items: seq<(K, V)>)
    requires DistinctKeys(d)
    ensures DistinctKeys(PutAll(d, items))
  {
    if items != [] {
      var n := |items| - 1;
      PutAllDistinct(d, items[..n]);
      PutDistinct(PutAll(d, items[..n]), items[n].0, items[n].1);
    }
  }

  /** After assigning all items, a key holds the value of its last assignment,
      or its old value if `items` never assigns it. */
  lemma {:induction false} PutAllGet<K, V>(d: Dict<K, V>, items: seq<(K, V)>, k: K)
    ensures Get(PutAll(d, items), k) == if LastWith(items, k).Some? then LastWith(items, k) else Get(d, k)
  {
    if items != [] {
      var n := |items| - 1;
      PutAllGet(d, items[..n], k);
      PutGet(PutAll(d, items[..n]), items[n].0, items[n].1, k);
    }
  }

  /** Every item of the result of `PutAll` is an item of the old dict or an assigned item. */
  lemma {:induction false} PutAllItems<K, V>(d: Dict<K, V>, items: seq<(K, V)>)
    ensures forall e :: e in PutAll(d, items) ==> e in d || e in items
  {
    if items != [] {
      var n := |items| - 1;
      PutAllItems(d, items[..n]);
      PutItems(PutAll(d, items[..n]), items[n].0, items[n].1);
      assert forall e :: e in items[..n] ==> e in items;
    }
  }

  /** The last assignment of `k` in `a + b` is in `b` when `b` assigns `k` at all. */
  lemma {:induction false} LastWithConcat<K, V>(a: seq<(K, V)>, b: seq<(K, V)>, k: K)
    ensures LastWith(a + b, k) == if LastWith(b, k).Some? then LastWith(b, k) else LastWith(a, k)
  {
    if b == [] {
      assert a + b == a;
    } else {
      var n := |b| - 1;
      assert (a + b)[..|a + b| - 1] == a + b[..n];
      LastWithConcat(a, b[..n], k);
    }
  }

  /** Looking up in a dict with one more item at the end. */
  lemma {:induction false} GetAppend<K, V>(d: Dict<K, V>, e: (K, V), k: K)
    ensures Get(d + [e], k) == if Get(d, k).Some? then Get(d, k) else if e.0 == k then Some(e.1) else None
  {
    if d != [] {
      assert (d + [e])[1..] == d[1..] + [e];
      GetAppend(d[1..], e, k);
    }
  }

  lemma {:induction false} InsertDescDistinct<K, V>(x: (K, V), d: Dict<K, V>, key: ((K, V)) -> real)
    requires DistinctKeys(d)
    requires forall e :: e in d ==> e.0 != x.0
    ensures DistinctKeys(InsertDesc(x, d, key))
  {
    if d != [] && key(x) < key(d[0]) {
      var rest := InsertDesc(x, d[1..], key);
      assert forall e :: e in d[1..] ==> e in d;
      InsertDescDistinct(x, d[1..], key);
      InsertDescItems(x, d[1..], key);
      forall j | 0 <= j < |rest| ensures rest[j].0 != d[0].0 {
        assert rest[j] in multiset(d[1..]) + multiset{x};
        if rest[j] != x {
          var m :| 0 <= m < |d[1..]| && d[1..][m] == rest[j];
          assert d[m + 1] == rest[j];
        }
      }
      var r := [d[0]] + rest;
      forall i, j | 0 <= i < j < |r| ensures r[i].0 != r[j].0 {
        if i > 0 {
          assert r[i] == rest[i - 1] && r[j] == rest[j - 1];
        } else {
          assert r[j] == rest[j - 1];
        }
      }
    }
  }

  /** Sorting the items of a dict (`sorted(d.items(), ...)`) keeps every key once. */
  lemma {:induction false} SortDescDistinct<K, V>(d: Dict<K, V>, key: ((K, V)) -> real)
    requires DistinctKeys(d)
    ensures DistinctKeys(SortDesc(d, key))
  {
    if d != [] {
      var rest := SortDesc(d[1..], key);
      SortDescDistinct(d[1..], key);
      SortDescPermutes(d[1..], key);
      forall e | e in rest ensures e.0 != d[0].0 {
        assert e in multiset(d[1..]);
        var m :| 0 <= m < |d[1..]| && d[1..][m] == e;
        assert d[m + 1] == e;
      }
      InsertDescDistinct(d[0], rest, key);
    }
  }

  /** `dict(sorted(d.items(), ...))` has the same contents as `d`: only the order changes. */
  lemma {:induction false} SortDescGet<K, V>(d: Dict<K, V>, key: ((K, V)) -> real, k: K)
    requires DistinctKeys(d)
    ensures Get(SortDesc(d, key), k) == Get(d, k)
  {
    var sorted := SortDesc(d, key);
    SortDescDistinct(d, key);
    SortDescPermutes(d, key);
    GetHasKey(d, k);
    GetHasKey(sorted, k);
    if HasKey(d, k) {
      var i :| 0 <= i < |d| && d[i].0 == k;
      GetAt(d, i);
      assert d[i] in multiset(sorted);
      var j :| 0 <= j < |sorted| && sorted[j] == d[i];
      GetAt(sorted, j);
    } else {
      forall j | 0 <= j < |sorted| ensures sorted[j].0 != k {
        assert sorted[j] in multiset(d);
        var m :| 0 <= m < |d| && d[m] == sorted[j];
      }
    }
  }

  /** Assignments never move the first item: `{k0: v0, **rest}` keeps `k0` first. */
  lemma {:induction false} PutAllFirst<K, V>(d: Dict<K, V>, items: seq<(K, V)>)
    requires d != []
    ensures |PutAll(d, items)| >= 1 && PutAll(d, items)[0].0 == d[0].0
  {
    if items != [] {
      PutAllFirst(d, items[..|items| - 1]);
    }
  }

  /** Assigning keys that are all new appends the items in order. */
  lemma {:induction false} PutAllFresh<K, V>(d: Dict<K, V>, items: seq<(K, V)>)
    requires DistinctKeys(d + items)
    ensures PutAll(d, items) == d + items
  {
    if items != [] {
      var n := |items| - 1;
      var front := d + items[..n];
      assert front == (d + items)[..|d| + n];
      PutAllFresh(d, items[..n]);
      forall j | 0 <= j < |front| ensures front[j].0 != items[n].0 {
        assert front[j] == (d + items)[j] && items[n] == (d + items)[|d| + n];
      }
      PutNew(front, items[n].0, items[n].1);
      assert front + [items[n]] == d + items;
    }
  }

  /** Each key of `ks` that is not in `skip`, once, where it first occurs. */
  function FirstOccurrences<K(==)>(ks: seq<K>, skip: set<K>): seq<K>
  {
    if ks == [] then []
    else
      var n := |ks| - 1;
      FirstOccurrences(ks[..n], skip) + (if ks[n] !in skip && ks[n] !in ks[..n] then [ks[n]] else [])
  }

  lemma {:induction false} FirstOccurrencesMembers<K>(ks: seq<K>, skip: set<K>, x: K)
    ensures x in FirstOccurrences(ks, skip) <==> x in ks && x !in skip
  {
    if ks != [] {
      var n := |ks| - 1;
      FirstOccurrencesMembers(ks[..n], skip, x);
      assert ks == ks[..n] + [ks[n]];
    }
  }

  /** Later keys never move the first occurrences of earlier ones. */
  lemma {:induction false} FirstOccurrencesPrefix<K>(a: seq<K>, b: seq<K>, skip: set<K>)
    ensures FirstOccurrences(a, skip) <= FirstOccurrences(a + b, skip)
  {
    if b == [] {
      assert a + b == a;
    } else {
      var n := |b| - 1;
      FirstOccurrencesPrefix(a, b[..n], skip);
      assert (a + b)[..|a + b| - 1] == a + b[..n];
    }
  }

  /** Extending the key sequence by a batch: the batch's new keys come last. */
  lemma {:induction false} FirstOccurrencesSnoc<K, V>(prev: seq<K>, items: seq<(K, V)>, skip: set<K>)
    requires items != []
    ensures var n := |items| - 1;
            FirstOccurrences(prev + Keys(items), skip)
            == FirstOccurrences(prev + Keys(items[..n]), skip)
               + (if items[n].0 !in skip && items[n].0 !in prev + Keys(items[..n]) then [items[n].0] else [])
  {
    var n := |items| - 1;
    var all := prev + Keys(items);
    assert all[..|all| - 1] == prev + Keys(items[..n]);
    assert all[|all| - 1] == items[n].0;
  }

  lemma {:induction false} KeysConcat<K, V>(a: seq<(K, V)>, b: seq<(K, V)>)
    ensures Keys(a + b) == Keys(a) + Keys(b)
  {
    assert |Keys(a + b)| == |Keys(a) + Keys(b)|;
    forall i | 0 <= i < |a + b| ensures Keys(a + b)[i] == (Keys(a) + Keys(b))[i] {
      if i >= |a| {
        assert (a + b)[i] == b[i - |a|];
      }
    }
  }

  lemma {:induction false} KeysHasKey<K, V>(d: Dict<K, V>, k: K)
    ensures k in Keys(d) <==> HasKey(d, k)
  {
    if k in Keys(d) {
      var i :| 0 <= i < |Keys(d)| && Keys(d)[i] == k;
      assert d[i].0 == k;
    }
    if HasKey(d, k) {
      var i :| 0 <= i < |d| && d[i].0 == k;
      assert Keys(d)[i] == k;
    }
  }

  /** `d[k] = v` leaves every key where it stands and appends a new key at the end. */
  lemma {:induction false} PutKeys<K, V>(d: Dict<K, V>, k: K, v: V)
    ensures Keys(Put(d, k, v)) == Keys(d) + (if k in Keys(d) then [] else [k])
  {
    KeysHasKey(d, k);
    if d != [] {
      KeysHasKey(d[1..], k);
      PutKeys(d[1..], k, v);
      assert Keys(d) == [d[0].0] + Keys(d[1..]);
      if d[0].0 == k {
        assert Keys(Put(d, k, v)) == [k] + Keys(d[1..]);
      } else {
        assert Keys(Put(d, k, v)) == [d[0].0] + Keys(Put(d[1..], k, v));
        if HasKey(d[1..], k) {
          var i :| 0 <= i < |d[1..]| && d[1..][i].0 == k;
          assert d[i + 1].0 == k;
        }
        if HasKey(d, k) {
          var i :| 0 <= i < |d| && d[i].0 == k;
          assert d[1..][i - 1].0 == k;
        }
      }
    }
  }

  /** Key order after assignments: every key stands where it was first assigned,
      later assignments to it change its value and not its position. */
  lemma {:induction false} PutAllKeys<K, V>(d: Dict<K, V>, items: seq<(K, V)>, prev: seq<K>)
    requires Keys(d) == FirstOccurrences(prev, {})
    ensures Keys(PutAll(d, items)) == FirstOccurrences(prev + Keys(items), {})
  {
    if items == [] {
      assert prev + Keys(items) == prev;
    } else {
      var n := |items| - 1;
      var before := PutAll(d, items[..n]);
      PutAllKeys(d, items[..n], prev);
      PutKeys(before, items[n].0, items[n].1);
      FirstOccurrencesMembers(prev + Keys(items[..n]), {}, items[n].0);
      FirstOccurrencesSnoc(prev, items, {});
    }
  }
}
