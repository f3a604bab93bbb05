/** A stable sort by an integer key, as `Array.prototype.sort` with a
    comparator `(a, b) => key(a) - key(b)` performs it. The specification
    is `SortBy` (insertion from the back); `SortInPlace` is the in-place
    array algorithm proved to produce exactly `SortBy` of the old contents. */
module Sorting {

  /** Keys never decrease from left to right. */
  predicate SortedBy<T>(s: seq<T>, key: T -> int) {
    forall i, j :: 0 <= i < j < |s| ==> key(s[i]) <= key(s[j])
  }

  /** The elements whose key is `k`, in their order in `s`. */
  function WithKey<T>(s: seq<T>, key: T -> int, k: int): seq<T> {
    if s == [] then []
    else WithKey(s[..|s| - 1], key, k) + (if key(s[|s| - 1]) == k then [s[|s| - 1]] else [])
  }

  /** Insert `x` into `s` after every element whose key is at most `key(x)`. */
  function InsertBy<T>(s: seq<T>, x: T, key: T -> int): seq<T> {
    if s == [] then [x]
    else if key(s[|s| - 1]) <= key(x) then s + [x]
    else InsertBy(s[..|s| - 1], x, key) + [s[|s| - 1]]
  }

  /** The stable sort of `s`: each element in turn is inserted after the
      already sorted elements with a key at most its own. */
  function SortBy<T>(s: seq<T>, key: T -> int): seq<T> {
    if s == [] then []
    else InsertBy(SortBy(s[..|s| - 1], key), s[|s| - 1], key)
  }

  lemma {:induction false} WithKeyAppend<T>(s: seq<T>, t: seq<T>, key: T -> int, k: int)
    ensures WithKey(s + t, key, k) == WithKey(s, key, k) + WithKey(t, key, k)
    decreases |t|
  {
    if t == [] {
      assert s + t == s;
    } else {
      assert (s + t)[..|s + t| - 1] == s + t[..|t| - 1];
      WithKeyAppend(s, t[..|t| - 1], key, k);
    }
  }

  lemma {:induction false} InsertByMultiset<T>(s: seq<T>, x: T, key: T -> int)
    ensures multiset(InsertBy(s, x, key)) == multiset(s) + multiset{x}
    decreases |s|
  {
    if s != [] && key(s[|s| - 1]) > key(x) {
      var init, y := s[..|s| - 1], s[|s| - 1];
      assert s == init + [y];
      InsertByMultiset(init, x, key);
    }
  }

  /** Every key of an insertion result is bounded by whatever bounds the
      keys of the sequence and of the inserted element. */
  lemma {:induction false} InsertByBounded<T>(s: seq<T>, x: T, key: T -> int, b: int)
    requires forall i :: 0 <= i < |s| ==> key(s[i]) <= b
    requires key(x) <= b
    ensures forall i :: 0 <= i < |InsertBy(s, x, key)| ==> key(InsertBy(s, x, key)[i]) <= b
    decreases |s|
  {
    if s != [] && key(s[|s| - 1]) > key(x) {
      InsertByBounded(s[..|s| - 1], x, key, b);
    }
  }

  lemma {:induction false} InsertBySorted<T>(s: seq<T>, x: T, key: T -> int)
    requires SortedBy(s, key)
    ensures SortedBy(InsertBy(s, x, key), key)
    decreases |s|
  {
    if s != [] && key(s[|s| - 1]) > key(x) {
      var init, y := s[..|s| - 1], s[|s| - 1];
      InsertBySorted(init, x, key);
      InsertByBounded(init, x, key, key(y));
    }
  }

  lemma {:induction false} InsertByWithKey<T>(s: seq<T>, x: T, key: T -> int, k: int)
    ensures WithKey(InsertBy(s, x, key), key, k) == WithKey(s, key, k) + (if key(x) == k then [x] else [])
    decreases |s|
  {
    if s == [] {
    } else if key(s[|s| - 1]) <= key(x) {
      WithKeyAppend(s, [x], key, k);
    } else {
      var init, y := s[..|s| - 1], s[|s| - 1];
      assert s == init + [y];
      InsertByWithKey(init, x, key, k);
      WithKeyAppend(InsertBy(init, x, key), [y], key, k);
      WithKeyAppend(init, [y], key, k);
    }
  }

  /** `SortBy` sorts. */
  lemma {:induction false} SortBySorted<T>(s: seq<T>, key: T -> int)
    ensures SortedBy(SortBy(s, key), key)
    ensures |SortBy(s, key)| == |s|
  {
    if s != [] {
      SortBySorted(s[..|s| - 1], key);
      InsertBySorted(SortBy(s[..|s| - 1], key), s[|s| - 1], key);
      InsertByMultiset(SortBy(s[..|s| - 1], key), s[|s| - 1], key);
      assert |multiset(SortBy(s, key))| == |SortBy(s[..|s| - 1], key)| + 1;
    }
  }

  /** `SortBy` is a permutation of its input. */
  lemma {:induction false} SortByPermutation<T>(s: seq<T>, key: T -> int)
    ensures multiset(SortBy(s, key)) == multiset(s)
  {
    if s != [] {
      SortByPermutation(s[..|s| - 1], key);
      InsertByMultiset(SortBy(s[..|s| - 1], key), s[|s| - 1], key);
      assert s == s[..|s| - 1] + [s[|s| - 1]];
    }
  }

  /** `SortBy` is stable: elements with equal keys keep their relative order. */
  lemma {:induction false} SortByStable<T>(s: seq<T>, key: T -> int, k: int)
    ensures WithKey(SortBy(s, key), key, k) == WithKey(s, key, k)
  {
    if s != [] {
      SortByStable(s[..|s| - 1], key, k);
      InsertByWithKey(SortBy(s[..|s| - 1], key), s[|s| - 1], key, k);
      WithKeyAppend(s[..|s| - 1], [s[|s| - 1]], key, k);
      assert s == s[..|s| - 1] + [s[|s| - 1]];
    }
  }

  /** Inserting into a sorted sequence puts `x` right after the last element
      whose key is at most `key(x)`. */
  lemma {:induction false} InsertByAt<T>(s: seq<T>, x: T, key: T -> int, j: nat)
    requires j <= |s|
    requires forall m :: j <= m < |s| ==> key(s[m]) > key(x)
    requires j == 0 || key(s[j - 1]) <= key(x)
    ensures InsertBy(s, x, key) == s[..j] + [x] + s[j..]
    decreases |s|
  {
    if s == [] {
    } else if j == |s| {
    } else {
      InsertByAt(s[..|s| - 1], x, key, j);
      assert s[..|s| - 1][..j] == s[..j];
      assert s[j..] == s[..|s| - 1][j..] + [s[|s| - 1]];
    }
  }

  /** One step of insertion sort: shifts the elements of `a[..i]` whose key
      exceeds that of `a[i]` one place right and drops `a[i]` into the gap. */
  method InsertAt<T>(a: array<T>, i: nat, key: T -> int)
    requires i < a.Length
    modifies a
    ensures a[..i + 1] == InsertBy(old(a[..i]), old(a[i]), key)
    ensures a[i + 1..] == old(a[i + 1..])
  {
    ghost var s := a[..i];
    var x := a[i];
    var j := i;
    while j > 0 && key(a[j - 1]) > key(x)
      invariant 0 <= j <= i
      invariant forall m :: 0 <= m < j ==> a[m] == s[m]
      invariant forall m :: j < m <= i ==> a[m] == s[m - 1]
      invariant forall m :: i < m < a.Length ==> a[m] == old(a[m])
      invariant forall m :: j <= m < i ==> key(s[m]) > key(x)
    {
      a[j] := a[j - 1];
      j := j - 1;
    }
    a[j] := x;
    InsertByAt(s, x, key, j);
    assert a[..i + 1] == s[..j] + [x] + s[j..];
  }

  /** Insertion sort of `a` in place; the result is the stable sort of the
      old contents. */
  method SortInPlace<T>(a: array<T>, key: T -> int)
    modifies a
    ensures a[..] == SortBy(old(a[..]), key)
  {
    ghost var orig := a[..];
    var i := 0;
    while i < a.Length
      invariant 0 <= i <= a.Length
      invariant a[..i] == SortBy(orig[..i], key)
      invariant a[i..] == orig[i..]
    {
      assert a[i + 1..] == a[i..][1..] == orig[i..][1..] == orig[i + 1..];
      InsertAt(a, i, key);
      assert orig[..i + 1][..i] == orig[..i];
      i := i + 1;
    }
    assert orig[..a.Length] == orig;
  }
}
