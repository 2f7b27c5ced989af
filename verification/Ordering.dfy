/** Stable sorting by an integer key, as Python's `sorted(xs, key=...)` and a stable `argsort` do it. */
module Ordering {

  function InsertBy<T>(key: T -> int, x: T, xs: seq<T>): seq<T> {
    if xs == [] || key(x) <= key(xs[0]) then [x] + xs
    else [xs[0]] + InsertBy(key, x, xs[1..])
  }

  function SortBy<T>(key: T -> int, xs: seq<T>): seq<T> {
    if xs == [] then [] else InsertBy(key, xs[0], SortBy(key, xs[1..]))
  }

  ghost predicate SortedBy<T>(key: T -> int, xs: seq<T>) {
    forall i, j :: 0 <= i < j < |xs| ==> key(xs[i]) <= key(xs[j])
  }

  /** The elements with key `k`, in order. */
  function WithKey<T>(key: T -> int, xs: seq<T>, k: int): seq<T> {
    if xs == [] then []
    else if key(xs[0]) == k then [xs[0]] + WithKey(key, xs[1..], k)
    else WithKey(key, xs[1..], k)
  }

  lemma {:induction false} InsertByPermutes<T>(key: T -> int, x: T, xs: seq<T>)
    ensures multiset(InsertBy(key, x, xs)) == multiset([x] + xs)
    ensures |InsertBy(key, x, xs)| == |xs| + 1
  {
    if xs != [] && key(x) > key(xs[0]) {
      InsertByPermutes(key, x, xs[1..]);
      assert [x] + xs == [x] + ([xs[0]] + xs[1..]);
    }
  }

  lemma {:induction false} InsertBySorts<T>(key: T -> int, x: T, xs: seq<T>)
    requires SortedBy(key, xs)
    ensures SortedBy(key, InsertBy(key, x, xs))
    ensures InsertBy(key, x, xs)[0] == x || (xs != [] && InsertBy(key, x, xs)[0] == xs[0])
  {
    if xs != [] && key(x) > key(xs[0]) {
      InsertBySorts(key, x, xs[1..]);
    } else {
    }
  }

  /** The result is sorted and a permutation of the input. */
  lemma {:induction false} SortBySorts<T>(key: T -> int, xs: seq<T>)
    ensures SortedBy(key, SortBy(key, xs))
    ensures multiset(SortBy(key, xs)) == multiset(xs)
  {
    if xs != [] {
      SortBySorts(key, xs[1..]);
      InsertBySorts(key, xs[0], SortBy(key, xs[1..]));
      InsertByPermutes(key, xs[0], SortBy(key, xs[1..]));
      assert xs == [xs[0]] + xs[1..];
    }
  }

  lemma SortByLength<T>(key: T -> int, xs: seq<T>)
    ensures |SortBy(key, xs)| == |xs|
    ensures forall y :: y in SortBy(key, xs) <==> y in xs
  {
    SortBySorts(key, xs);
    var ys := SortBy(key, xs);
    assert |multiset(ys)| == |multiset(xs)|;
    forall y ensures y in ys <==> y in xs {
      assert y in ys <==> y in multiset(ys);
      assert y in xs <==> y in multiset(xs);
    }
  }

  lemma {:induction false} InsertByStable<T>(key: T -> int, x: T, xs: seq<T>, k: int)
    requires SortedBy(key, xs)
    ensures WithKey(key, InsertBy(key, x, xs), k) ==
      if key(x) == k then [x] + WithKey(key, xs, k) else WithKey(key, xs, k)
  {
    if xs == [] || key(x) <= key(xs[0]) {
      assert ([x] + xs)[1..] == xs;
    } else {
      InsertByStable(key, x, xs[1..], k);
      var r := InsertBy(key, x, xs[1..]);
      assert ([xs[0]] + r)[1..] == r;
      if key(x) == k {
        assert key(xs[0]) < k;
      }
    }
  }

  /** Elements with equal keys keep their input order. */
  lemma {:induction false} SortByStable<T>(key: T -> int, xs: seq<T>, k: int)
    ensures WithKey(key, SortBy(key, xs), k) == WithKey(key, xs, k)
  {
    if xs != [] {
      SortByStable(key, xs[1..], k);
      SortBySorts(key, xs[1..]);
      InsertByStable(key, xs[0], SortBy(key, xs[1..]), k);
    }
  }

  lemma SmallestStays<T>(key: T -> int, x: T, xs: seq<T>)
    requires SortedBy(key, [x] + xs)
    ensures InsertBy(key, x, xs) == [x] + xs
  {
    if xs != [] { assert ([x] + xs)[0] == x && ([x] + xs)[1] == xs[0]; }
  }

  /** A sorted list stays as it is. */
  lemma {:induction false} SortedStays<T>(key: T -> int, xs: seq<T>)
    requires SortedBy(key, xs)
    ensures SortBy(key, xs) == xs
  {
    if xs != [] {
      var rest := xs[1..];
      assert forall i :: 0 <= i < |rest| ==> rest[i] == xs[i + 1];
      SortedStays(key, rest);
      assert xs == [xs[0]] + rest;
      SmallestStays(key, xs[0], rest);
    }
  }
}
