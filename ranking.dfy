/**
  Python's `sorted(items, key=key, reverse=True)`: a stable sort by descending key,
  defined as insertion sort so that elements with equal keys keep their order.
 */
module Ranking {

  /** Keys never increase from left to right. */
  predicate SortedDesc<T>(s: seq<T>, key: T -> int)
  {
    forall i, j :: 0 <= i < j < |s| ==> key(s[i]) >= key(s[j])
  }

  /** The elements of `s` whose key is `k`, in their order in `s`. */
  function WithKey<T>(s: seq<T>, key: T -> int, k: int): seq<T>
  {
    if s == [] then [] else (if key(s[0]) == k then [s[0]] else []) + WithKey(s[1..], key, k)
  }

  lemma {:induction false} WithKeyAppend<T>(a: seq<T>, b: seq<T>, key: T -> int, k: int)
    ensures WithKey(a + b, key, k) == WithKey(a, key, k) + WithKey(b, key, k)
    decreases |a|
  {
    if a == [] {
      assert a + b == b;
    } else {
      var head := if key(a[0]) == k then [a[0]] else [];
      assert (a + b)[0] == a[0];
      assert (a + b)[1..] == a[1..] + b;
      assert WithKey(a + b, key, k) == head + WithKey(a[1..] + b, key, k);
      WithKeyAppend(a[1..], b, key, k);
      assert WithKey(a, key, k) == head + WithKey(a[1..], key, k);
    }
  }

  /** Prepending an element whose key is at least the first key keeps a sequence descending. */
  lemma ConsSorted<T>(h: T, t: seq<T>, key: T -> int)
    requires SortedDesc(t, key)
    requires t != [] ==> key(h) >= key(t[0])
    ensures SortedDesc([h] + t, key)
  {
    var r := [h] + t;
    forall i, j | 0 <= i < j < |r| ensures key(r[i]) >= key(r[j]) {
      if i == 0 {
        assert r[j] == t[j - 1];
        if j > 1 {
          assert key(t[0]) >= key(t[j - 1]);
        }
      } else {
        assert r[i] == t[i - 1] && r[j] == t[j - 1];
      }
    }
  }

  /** A descending sequence whose first key is below `k` has no element with key `k`. */
  lemma {:induction false} WithKeyBelow<T>(s: seq<T>, key: T -> int, k: int)
    requires SortedDesc(s, key)
    requires s != [] ==> key(s[0]) < k
    ensures WithKey(s, key, k) == []
    decreases |s|
  {
    if |s| > 1 {
      WithKeyBelow(s[1..], key, k);
    }
  }

  /** Inserts `x` after every leading element whose key is at least `x`'s. */
  function Insert<T>(x: T, s: seq<T>, key: T -> int): (r: seq<T>)
    ensures |r| == |s| + 1
  {
    if s == [] then [x]
    else if key(s[0]) >= key(x) then [s[0]] + Insert(x, s[1..], key)
    else [x] + s
  }

  lemma {:induction false} InsertPermutes<T>(x: T, s: seq<T>, key: T -> int)
    ensures multiset(Insert(x, s, key)) == multiset(s) + multiset{x}
    decreases |s|
  {
    if s != [] && key(s[0]) >= key(x) {
      InsertPermutes(x, s[1..], key);
      assert s == [s[0]] + s[1..];
    }
  }

  lemma {:induction false} InsertSorted<T>(x: T, s: seq<T>, key: T -> int)
    requires SortedDesc(s, key)
    ensures SortedDesc(Insert(x, s, key), key)
    ensures Insert(x, s, key)[0] == (if s != [] && key(s[0]) >= key(x) then s[0] else x)
    decreases |s|
  {
    if s == [] {
    } else if key(s[0]) >= key(x) {
      var tail := Insert(x, s[1..], key);
      assert Insert(x, s, key) == [s[0]] + tail;
      assert SortedDesc(s[1..], key);
      InsertSorted(x, s[1..], key);
      if |s| > 1 {
        assert key(s[0]) >= key(s[1]);
      }
      ConsSorted(s[0], tail, key);
    } else {
      assert Insert(x, s, key) == [x] + s;
      ConsSorted(x, s, key);
    }
  }

  lemma {:induction false} InsertWithKey<T>(x: T, s: seq<T>, key: T -> int, k: int)
    requires SortedDesc(s, key)
    ensures WithKey(Insert(x, s, key), key, k) == WithKey(s, key, k) + (if key(x) == k then [x] else [])
    decreases |s|
  {
    if s == [] {
    } else if key(s[0]) >= key(x) {
      assert SortedDesc(s[1..], key);
      InsertWithKey(x, s[1..], key, k);
      PassStep(x, s, key, k);
    } else {
      StopStep(x, s, key, k);
    }
  }

  /** The step of `InsertWithKey` where `x` moves past the first element. */
  lemma PassStep<T>(x: T, s: seq<T>, key: T -> int, k: int)
    requires s != [] && key(s[0]) >= key(x)
    requires WithKey(Insert(x, s[1..], key), key, k) == WithKey(s[1..], key, k) + (if key(x) == k then [x] else [])
    ensures WithKey(Insert(x, s, key), key, k) == WithKey(s, key, k) + (if key(x) == k then [x] else [])
  {
    var xk := if key(x) == k then [x] else [];
    var h := if key(s[0]) == k then [s[0]] else [];
    var tail := Insert(x, s[1..], key);
    assert Insert(x, s, key) == [s[0]] + tail;
    WithKeyAppend([s[0]], tail, key, k);
    assert WithKey([s[0]], key, k) == h;
    assert WithKey(s, key, k) == h + WithKey(s[1..], key, k);
    calc {
      WithKey(Insert(x, s, key), key, k);
      h + WithKey(tail, key, k);
      h + (WithKey(s[1..], key, k) + xk);
      (h + WithKey(s[1..], key, k)) + xk;
      WithKey(s, key, k) + xk;
    }
  }

  /** The step of `InsertWithKey` where `x` lands in front. */
  lemma StopStep<T>(x: T, s: seq<T>, key: T -> int, k: int)
    requires SortedDesc(s, key)
    requires s != [] && key(s[0]) < key(x)
    ensures WithKey(Insert(x, s, key), key, k) == WithKey(s, key, k) + (if key(x) == k then [x] else [])
  {
    var xk := if key(x) == k then [x] else [];
    assert Insert(x, s, key) == [x] + s;
    WithKeyAppend([x], s, key, k);
    assert WithKey([x], key, k) == xk;
    if key(x) == k {
      WithKeyBelow(s, key, k);
    }
  }

  /** `sorted(s, key=key, reverse=True)`: a descending permutation of `s`. */
  function SortDesc<T>(s: seq<T>, key: T -> int): (r: seq<T>)
    ensures |r| == |s|
    ensures multiset(r) == multiset(s)
    ensures SortedDesc(r, key)
  {
    if s == [] then []
    else
      var init := s[..|s| - 1];
      var x := s[|s| - 1];
      var sorted := SortDesc(init, key);
      assert s == init + [x];
      InsertSorted(x, sorted, key);
      InsertPermutes(x, sorted, key);
      Insert(x, sorted, key)
  }

  /** Stability: for every key, the elements with that key appear in the same order as in the input. */
  lemma {:induction false} SortStable<T>(s: seq<T>, key: T -> int, k: int)
    ensures WithKey(SortDesc(s, key), key, k) == WithKey(s, key, k)
    decreases |s|
  {
    if s != [] {
      var init := s[..|s| - 1];
      var x := s[|s| - 1];
      assert s == init + [x];
      assert SortDesc(s, key) == Insert(x, SortDesc(init, key), key);
      SortStable(init, key, k);
      InsertWithKey(x, SortDesc(init, key), key, k);
      WithKeyAppend(init, [x], key, k);
      assert WithKey([x], key, k) == (if key(x) == k then [x] else []);
    }
  }
}
