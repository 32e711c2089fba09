/** Facts about sequences without repeated elements. */
module Collections {

  predicate Distinct<T(==)>(s: seq<T>)
  {
    forall i, j :: 0 <= i < j < |s| ==> s[i] != s[j]
  }

  /** Adding an element that is not yet present keeps a sequence repetition-free. */
  lemma ConsDistinct<T>(x: T, s: seq<T>)
    requires Distinct(s) && x !in s
    ensures Distinct([x] + s)
  {
    var r := [x] + s;
    forall i, j | 0 <= i < j < |r| ensures r[i] != r[j] {
      assert r[j] == s[j - 1];
      if i > 0 {
        assert r[i] == s[i - 1];
      }
    }
  }

  /** Removing the element at `i` leaves the others, and no copy of the removed one if there was none. */
  lemma RemoveAt<T>(s: seq<T>, i: nat)
    requires i < |s|
    ensures forall x :: x in s[..i] + s[i + 1..] ==> x in s
    ensures Distinct(s) ==> Distinct(s[..i] + s[i + 1..]) && s[i] !in s[..i] + s[i + 1..]
  {
    var rest := s[..i] + s[i + 1..];
    assert forall k :: 0 <= k < |rest| ==> rest[k] == s[if k < i then k else k + 1];
    if Distinct(s) {
      forall a, b | 0 <= a < b < |rest| ensures rest[a] != rest[b] {
        assert rest[a] == s[if a < i then a else a + 1];
        assert rest[b] == s[if b < i then b else b + 1];
      }
    }
  }

  /** The tail of a repetition-free sequence is repetition-free and misses the head. */
  lemma TailDistinct<T>(s: seq<T>)
    requires |s| > 0
    ensures Distinct(s) ==> Distinct(s[1..]) && s[0] !in s[1..]
  {
    if Distinct(s) {
      forall i, j | 0 <= i < j < |s[1..]| ensures s[1..][i] != s[1..][j] {
        assert s[1..][i] == s[i + 1] && s[1..][j] == s[j + 1];
      }
      forall i | 0 <= i < |s[1..]| ensures s[1..][i] != s[0] {
        assert s[1..][i] == s[i + 1];
      }
    }
  }

  /** A repetition-free sequence holds each element at most once. */
  lemma {:induction false} DistinctCount<T>(s: seq<T>, x: T)
    requires Distinct(s)
    ensures multiset(s)[x] <= 1
  {
    if s != [] {
      TailDistinct(s);
      DistinctCount(s[1..], x);
      assert s == [s[0]] + s[1..];
      assert multiset(s) == multiset{s[0]} + multiset(s[1..]);
    }
  }

  /** Reordering keeps a sequence repetition-free. */
  lemma PermutationDistinct<T>(a: seq<T>, b: seq<T>)
    requires multiset(a) == multiset(b) && Distinct(b)
    ensures Distinct(a)
  {
    forall i, j | 0 <= i < j < |a| ensures a[i] != a[j] {
      if a[i] == a[j] {
        assert a == a[..j] + a[j..];
        assert a[i] in multiset(a[..j]) && a[j] in multiset(a[j..]);
        assert multiset(a) == multiset(a[..j]) + multiset(a[j..]);
        DistinctCount(b, a[i]);
        assert false;
      }
    }
  }

  /** Position of the first element satisfying `p`, or `|s|` if there is none (`fetchone()` in row order). */
  function FirstWhere<T>(s: seq<T>, p: T -> bool): (i: nat)
    ensures i <= |s|
    ensures i < |s| ==> p(s[i])
    ensures forall j :: 0 <= j < i ==> !p(s[j])
  {
    if s == [] || p(s[0]) then 0 else 1 + FirstWhere(s[1..], p)
  }

  /** Appending rows never changes a search that already succeeds. */
  lemma FirstWhereAppend<T>(s: seq<T>, t: seq<T>, p: T -> bool)
    ensures FirstWhere(s + t, p) == if FirstWhere(s, p) < |s| then FirstWhere(s, p) else |s| + FirstWhere(t, p)
  {
    var i := FirstWhere(s + t, p);
    var k := FirstWhere(s, p);
    if k < |s| {
      assert (s + t)[k] == s[k];
      assert forall j :: 0 <= j < k ==> (s + t)[j] == s[j];
    } else {
      var m := FirstWhere(t, p);
      assert forall j :: 0 <= j < |s| ==> (s + t)[j] == s[j];
      assert forall j :: |s| <= j < |s| + m ==> (s + t)[j] == t[j - |s|];
      if m < |t| {
        assert (s + t)[|s| + m] == t[m];
      }
    }
  }

  /** Position of the last element satisfying `p`, or `-1` if there is none. */
  function LastWhere<T>(s: seq<T>, p: T -> bool): (i: int)
    ensures -1 <= i < |s|
    ensures 0 <= i ==> p(s[i])
    ensures forall j :: i < j < |s| ==> !p(s[j])
  {
    if s == [] then -1
    else if p(s[|s| - 1]) then |s| - 1
    else LastWhere(s[..|s| - 1], p)
  }

  /** The number of elements satisfying `p` (`COUNT(CASE WHEN … THEN 1 END)`). */
  function Count<T>(s: seq<T>, p: T -> bool): nat
  {
    if s == [] then 0 else (if p(s[0]) then 1 else 0) + Count(s[1..], p)
  }

  lemma {:induction false} CountAppend<T>(s: seq<T>, t: seq<T>, p: T -> bool)
    ensures Count(s + t, p) == Count(s, p) + Count(t, p)
    decreases |s|
  {
    if s == [] {
      assert s + t == t;
    } else {
      assert (s + t)[0] == s[0];
      assert (s + t)[1..] == s[1..] + t;
      CountAppend(s[1..], t, p);
    }
  }

  /** No element satisfies `p`: nothing is counted. */
  lemma {:induction false} CountNone<T>(s: seq<T>, p: T -> bool)
    requires forall i :: 0 <= i < |s| ==> !p(s[i])
    ensures Count(s, p) == 0
    decreases |s|
  {
    if s != [] {
      assert !p(s[0]);
      CountNone(s[1..], p);
    }
  }

  /** Two searches that agree element by element stop at the same place. */
  lemma FirstWhereAgree<T, U>(s: seq<T>, p: T -> bool, t: seq<U>, q: U -> bool)
    requires |s| == |t| && forall i :: 0 <= i < |s| ==> p(s[i]) == q(t[i])
    ensures FirstWhere(s, p) == FirstWhere(t, q)
  {
  }

  /** A weaker condition counts at least as many elements. */
  lemma {:induction false} CountImplies<T>(s: seq<T>, p: T -> bool, q: T -> bool)
    requires forall i :: 0 <= i < |s| ==> p(s[i]) ==> q(s[i])
    ensures Count(s, p) <= Count(s, q)
    decreases |s|
  {
    if s != [] {
      assert forall i :: 0 <= i < |s[1..]| ==> s[1..][i] == s[i + 1];
      CountImplies(s[1..], p, q);
    }
  }
}
