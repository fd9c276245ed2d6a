/** `Array.prototype.sort` with a numeric comparator `(a, b) => key(b) - key(a)`. The
    sort is stable, so its result is fully determined: the elements with the largest
    key in their input order, then those with the next key, and so on. That is the
    definition below; the lemmas show it is ordered, a permutation of its input, and
    keeps the input order among equal keys. */
module StableSort {

  /** The elements whose key is `k`, in input order. */
  function WithKey<T>(xs: seq<T>, key: T -> int, k: int): (r: seq<T>)
    ensures |r| <= |xs|
    ensures forall i :: 0 <= i < |r| ==> key(r[i]) == k
  {
    if xs == [] then []
    else (if key(xs[0]) == k then [xs[0]] else []) + WithKey(xs[1..], key, k)
  }

  /** The elements whose key is below `k`, in input order. */
  function KeyBelow<T>(xs: seq<T>, key: T -> int, k: int): (r: seq<T>)
    ensures |r| <= |xs|
    ensures (exists i :: 0 <= i < |xs| && key(xs[i]) >= k) ==> |r| < |xs|
    ensures forall i :: 0 <= i < |r| ==> key(r[i]) < k
  {
    if xs == [] then []
    else (if key(xs[0]) < k then [xs[0]] else []) + KeyBelow(xs[1..], key, k)
  }

  /** The largest key of a non-empty sequence. */
  function MaxKey<T>(xs: seq<T>, key: T -> int): (m: int)
    requires xs != []
    ensures forall i :: 0 <= i < |xs| ==> key(xs[i]) <= m
    ensures exists i :: 0 <= i < |xs| && key(xs[i]) == m
  {
    if |xs| == 1 then key(xs[0])
    else
      var m := MaxKey(xs[1..], key);
      if key(xs[0]) >= m then key(xs[0]) else m
  }

  /** The stable sort by descending key. */
  function SortByKeyDesc<T>(xs: seq<T>, key: T -> int): seq<T>
    decreases |xs|
  {
    if xs == [] then []
    else
      var m := MaxKey(xs, key);
      WithKey(xs, key, m) + SortByKeyDesc(KeyBelow(xs, key, m), key)
  }

  predicate SortedDesc<T>(xs: seq<T>, key: T -> int) {
    forall i, j :: 0 <= i < j < |xs| ==> key(xs[i]) >= key(xs[j])
  }

  lemma {:induction false} SplitAtMax<T>(xs: seq<T>, key: T -> int, k: int)
    requires forall i :: 0 <= i < |xs| ==> key(xs[i]) <= k
    ensures multiset(WithKey(xs, key, k)) + multiset(KeyBelow(xs, key, k)) == multiset(xs)
  {
    if xs != [] {
      SplitAtMax(xs[1..], key, k);
      assert xs == [xs[0]] + xs[1..];
    }
  }

  /** The sort is a permutation of its input. */
  lemma {:induction false} SortPermutation<T>(xs: seq<T>, key: T -> int)
    ensures multiset(SortByKeyDesc(xs, key)) == multiset(xs)
    decreases |xs|
  {
    if xs != [] {
      var m := MaxKey(xs, key);
      SortPermutation(KeyBelow(xs, key, m), key);
      SplitAtMax(xs, key, m);
    }
  }

  /** The sort keeps exactly the elements of its input. */
  lemma SortKeepsMembers<T>(xs: seq<T>, key: T -> int)
    ensures forall x :: x in SortByKeyDesc(xs, key) <==> x in xs
  {
    SortPermutation(xs, key);
    forall x ensures x in SortByKeyDesc(xs, key) <==> x in xs {
      assert x in SortByKeyDesc(xs, key) <==> x in multiset(SortByKeyDesc(xs, key));
    }
  }

  /** The sort orders by non-increasing key. */
  lemma {:induction false} SortSorted<T>(xs: seq<T>, key: T -> int)
    ensures SortedDesc(SortByKeyDesc(xs, key), key)
    decreases |xs|
  {
    if xs != [] {
      var m := MaxKey(xs, key);
      var below := KeyBelow(xs, key, m);
      var g, s := WithKey(xs, key, m), SortByKeyDesc(below, key);
      SortSorted(below, key);
      SortPermutation(below, key);
      forall j | 0 <= j < |s| ensures key(s[j]) < m {
        assert s[j] in multiset(below);
      }
      var r := g + s;
      forall i, j | 0 <= i < j < |r| ensures key(r[i]) >= key(r[j]) {
        if j >= |g| {
          if i >= |g| {
            assert r[i] == s[i - |g|] && r[j] == s[j - |g|];
          }
        }
      }
    }
  }

  lemma {:induction false} WithKeyAppend<T>(a: seq<T>, b: seq<T>, key: T -> int, k: int)
    ensures WithKey(a + b, key, k) == WithKey(a, key, k) + WithKey(b, key, k)
  {
    if a == [] {
      assert a + b == b;
    } else {
      assert (a + b)[1..] == a[1..] + b;
      WithKeyAppend(a[1..], b, key, k);
    }
  }

  lemma {:induction false} WithKeyOfBelow<T>(xs: seq<T>, key: T -> int, m: int, k: int)
    ensures WithKey(KeyBelow(xs, key, m), key, k) == if k < m then WithKey(xs, key, k) else []
  {
    if xs != [] {
      WithKeyOfBelow(xs[1..], key, m, k);
      var head := if key(xs[0]) < m then [xs[0]] else [];
      WithKeyAppend(head, KeyBelow(xs[1..], key, m), key, k);
    }
  }

  lemma {:induction false} WithKeyOfWithKey<T>(xs: seq<T>, key: T -> int, m: int, k: int)
    ensures WithKey(WithKey(xs, key, m), key, k) == if k == m then WithKey(xs, key, m) else []
  {
    if xs != [] {
      WithKeyOfWithKey(xs[1..], key, m, k);
      var head := if key(xs[0]) == m then [xs[0]] else [];
      WithKeyAppend(head, WithKey(xs[1..], key, m), key, k);
    }
  }

  lemma {:induction false} WithKeyAbsent<T>(xs: seq<T>, key: T -> int, k: int)
    requires forall i :: 0 <= i < |xs| ==> key(xs[i]) != k
    ensures WithKey(xs, key, k) == []
  {
    if xs != [] {
      WithKeyAbsent(xs[1..], key, k);
    }
  }

  /** Stability: for every key, the elements with that key come out in their input order. */
  lemma {:induction false} SortStable<T>(xs: seq<T>, key: T -> int, k: int)
    ensures WithKey(SortByKeyDesc(xs, key), key, k) == WithKey(xs, key, k)
    decreases |xs|
  {
    if xs != [] {
      var m := MaxKey(xs, key);
      var below := KeyBelow(xs, key, m);
      SortStable(below, key, k);
      WithKeyAppend(WithKey(xs, key, m), SortByKeyDesc(below, key), key, k);
      WithKeyOfWithKey(xs, key, m, k);
      WithKeyOfBelow(xs, key, m, k);
      if k > m {
        WithKeyAbsent(xs, key, k);
      }
    }
  }
}
