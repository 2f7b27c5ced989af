/** Cold-expert placement: a stable ascending argsort of hit counts, whose every prefix is a
    spill set with the fewest hits. */
module ColdSet {
  import opened Ordering

  function Range(n: nat): (r: seq<nat>)
    ensures |r| == n && forall i :: 0 <= i < n ==> r[i] == i
  {
    seq(n, i requires i >= 0 => i)
  }

  function CountOf(hits: seq<nat>): nat -> int {
    (i: nat) => if i < |hits| then hits[i] else 0
  }

  /** `per_rank.argsort(dim=-1, stable=True)` on one rank. */
  function Argsort(hits: seq<nat>): seq<nat> {
    SortBy(CountOf(hits), Range(|hits|))
  }

  predicate Increasing(xs: seq<nat>) {
    xs == [] || ((forall y :: y in xs[1..] ==> xs[0] < y) && Increasing(xs[1..]))
  }

  lemma {:induction false} UpwardIncreasing(xs: seq<nat>)
    requires forall i, j :: 0 <= i < j < |xs| ==> xs[i] < xs[j]
    ensures Increasing(xs)
  {
    if xs != [] { UpwardIncreasing(xs[1..]); }
  }

  lemma {:induction false} WithKeyMembers<T>(key: T -> int, xs: seq<T>, k: int)
    ensures forall x :: x in WithKey(key, xs, k) <==> x in xs && key(x) == k
  {
    if xs != [] {
      WithKeyMembers(key, xs[1..], k);
      assert xs == [xs[0]] + xs[1..];
    }
  }

  lemma {:induction false} WithKeyIncreasing(key: nat -> int, xs: seq<nat>, k: int)
    requires Increasing(xs)
    ensures Increasing(WithKey(key, xs, k))
  {
    if xs != [] {
      WithKeyIncreasing(key, xs[1..], k);
      WithKeyMembers(key, xs[1..], k);
      var rest := WithKey(key, xs[1..], k);
      assert ([xs[0]] + rest)[1..] == rest;
    }
  }

  /** If the elements with key `k` increase as a list, they increase wherever they stand. */
  lemma {:induction false} TiesInOrder(key: nat -> int, xs: seq<nat>, k: int, i: nat, j: nat)
    requires i < j < |xs| && key(xs[i]) == k && key(xs[j]) == k
    requires Increasing(WithKey(key, xs, k))
    ensures xs[i] < xs[j]
  {
    var rest := WithKey(key, xs[1..], k);
    assert ([xs[0]] + rest)[1..] == rest;
    if i == 0 {
      WithKeyMembers(key, xs[1..], k);
      assert xs[1..][j - 1] in rest;
    } else {
      TiesInOrder(key, xs[1..], k, i - 1, j - 1);
    }
  }

  ghost predicate IsPermutation(order: seq<nat>, n: nat) {
    && |order| == n
    && (forall k :: 0 <= k < n ==> order[k] < n)
    && (forall i, j :: 0 <= i < j < n ==> order[i] != order[j])
  }

  /** The cold order is a permutation of the ids, ascending in count, ties in id order. */
  lemma ArgsortOrder(hits: seq<nat>)
    ensures IsPermutation(Argsort(hits), |hits|)
    ensures var a := Argsort(hits);
            forall i, j :: 0 <= i < j < |a| ==> hits[a[i]] < hits[a[j]] || (hits[a[i]] == hits[a[j]] && a[i] < a[j])
  {
    var key, ids, a := CountOf(hits), Range(|hits|), Argsort(hits);
    SortBySorts(key, ids);
    SortByLength(key, ids);
    forall k | 0 <= k < |a| ensures a[k] < |hits| {
      assert a[k] in ids;
    }
    forall i, j | 0 <= i < j < |a|
      ensures hits[a[i]] < hits[a[j]] || (hits[a[i]] == hits[a[j]] && a[i] < a[j])
    {
      assert key(a[i]) <= key(a[j]);
      if key(a[i]) == key(a[j]) {
        UpwardIncreasing(ids);
        SortByStable(key, ids, key(a[i]));
        WithKeyIncreasing(key, ids, key(a[i]));
        TiesInOrder(key, a, key(a[i]), i, j);
      }
    }
  }

  // ----- Hits of a set of experts -----

  /** Total hits of the experts in `ids` among the first `n`. */
  ghost function HitsOf(hits: seq<nat>, ids: set<nat>, n: nat): int
    requires n <= |hits|
  {
    if n == 0 then 0 else HitsOf(hits, ids, n - 1) + (if n - 1 in ids then hits[n - 1] else 0)
  }

  ghost function SizeBelow(ids: set<nat>, n: nat): nat {
    if n == 0 then 0 else SizeBelow(ids, n - 1) + (if n - 1 in ids then 1 else 0)
  }

  lemma {:induction false} SizeBelowIsSize(ids: set<nat>, n: nat)
    requires forall i :: i in ids ==> i < n
    ensures SizeBelow(ids, n) == |ids|
  {
    if n == 0 {
      assert forall i :: i !in ids;
      assert ids == {};
    } else {
      var rest := ids - {n - 1};
      SizeBelowIsSize(rest, n - 1);
      SizeAgree(ids, rest, n - 1);
      if n - 1 in ids { assert |ids| == |rest| + 1; } else { assert ids == rest; }
    }
  }

  lemma {:induction false} SizeAgree(a: set<nat>, b: set<nat>, n: nat)
    requires forall i: nat :: i < n ==> (i in a <==> i in b)
    ensures SizeBelow(a, n) == SizeBelow(b, n)
  {
    if n > 0 { SizeAgree(a, b, n - 1); }
  }

  /** Swapping the members of `p` outside `t` for those of `t` outside `p` turns `p` into `t`. */
  lemma {:induction false} Exchange(hits: seq<nat>, p: set<nat>, t: set<nat>, n: nat)
    requires n <= |hits|
    ensures HitsOf(hits, p, n) + HitsOf(hits, t - p, n) == HitsOf(hits, t, n) + HitsOf(hits, p - t, n)
    ensures SizeBelow(p, n) + SizeBelow(t - p, n) == SizeBelow(t, n) + SizeBelow(p - t, n)
  {
    if n > 0 { Exchange(hits, p, t, n - 1); }
  }

  lemma {:induction false} HitsBounds(hits: seq<nat>, ids: set<nat>, n: nat, m: int)
    requires n <= |hits|
    ensures (forall i :: i in ids && i < n ==> hits[i] <= m) ==> HitsOf(hits, ids, n) <= SizeBelow(ids, n) * m
    ensures (forall i :: i in ids && i < n ==> hits[i] >= m) ==> HitsOf(hits, ids, n) >= SizeBelow(ids, n) * m
  {
    if n > 0 {
      HitsBounds(hits, ids, n - 1, m);
      assert (SizeBelow(ids, n - 1) + 1) * m == SizeBelow(ids, n - 1) * m + m;
    }
  }

  predicate InRange(order: seq<nat>, n: nat) {
    forall k :: 0 <= k < |order| ==> order[k] < n
  }

  /** The hits a table spills on one rank: `gather` of the first `s` ids, summed. */
  function Spilled(hits: seq<nat>, order: seq<nat>, s: nat): int
    requires s <= |order| && InRange(order, |hits|)
  {
    if s == 0 then 0 else Spilled(hits, order, s - 1) + hits[order[s - 1]]
  }

  ghost function IdSet(order: seq<nat>, s: nat): set<nat>
    requires s <= |order|
  {
    set k | 0 <= k < s :: order[k]
  }

  ghost predicate ValidTable(order: seq<nat>, n: nat) {
    InRange(order, n) && forall i, j :: 0 <= i < j < |order| ==> order[i] != order[j]
  }

  lemma {:induction false} HitsAdd(hits: seq<nat>, ids: set<nat>, x: nat, n: nat)
    requires n <= |hits| && x < |hits| && x !in ids
    ensures HitsOf(hits, ids + {x}, n) == HitsOf(hits, ids, n) + (if x < n then hits[x] else 0)
  {
    if n > 0 { HitsAdd(hits, ids, x, n - 1); }
  }

  lemma {:induction false} SpilledIsHits(hits: seq<nat>, order: seq<nat>, s: nat)
    requires ValidTable(order, |hits|) && s <= |order|
    ensures Spilled(hits, order, s) == HitsOf(hits, IdSet(order, s), |hits|)
    ensures |IdSet(order, s)| == s
  {
    if s == 0 {
      NoHits(hits, |hits|);
      assert IdSet(order, 0) == {};
    } else {
      SpilledIsHits(hits, order, s - 1);
      var x := order[s - 1];
      assert IdSet(order, s) == IdSet(order, s - 1) + {x};
      assert x !in IdSet(order, s - 1);
      HitsAdd(hits, IdSet(order, s - 1), x, |hits|);
    }
  }

  lemma {:induction false} NoHits(hits: seq<nat>, n: nat)
    requires n <= |hits|
    ensures HitsOf(hits, {}, n) == 0
  {
    if n > 0 { NoHits(hits, n - 1); }
  }

  /** Optimality by exchange: no set of `s` experts is hit less than the first `s` of the cold order. */
  lemma ColdestPrefixOptimal(hits: seq<nat>, t: set<nat>, s: nat)
    requires s <= |hits| && |t| == s && forall i :: i in t ==> i < |hits|
    ensures |Argsort(hits)| == |hits| && ValidTable(Argsort(hits), |hits|)
    ensures Spilled(hits, Argsort(hits), s) <= HitsOf(hits, t, |hits|)
  {
    ArgsortOrder(hits);
    var a, n := Argsort(hits), |hits|;
    SpilledIsHits(hits, a, s);
    if s > 0 {
      var p := IdSet(a, s);
      var m := hits[a[s - 1]];
      Exchange(hits, p, t, n);
      SizeBelowIsSize(p, n);
      SizeBelowIsSize(t, n);
      HitsBounds(hits, p - t, n, m);
      HitsBounds(hits, t - p, n, m);
      forall i | i in t - p ensures hits[i] >= m {
        OutsidePrefix(hits, s, i);
      }
    }
  }

  lemma OutsidePrefix(hits: seq<nat>, s: nat, i: nat)
    requires 0 < s <= |hits| && i < |hits| && |Argsort(hits)| == |hits| && i !in IdSet(Argsort(hits), s)
    requires forall k :: 0 <= k < |hits| ==> Argsort(hits)[k] < |hits|
    ensures hits[i] >= hits[Argsort(hits)[s - 1]]
  {
    ArgsortOrder(hits);
    var a := Argsort(hits);
    SortByLength(CountOf(hits), Range(|hits|));
    assert Range(|hits|)[i] == i;
    assert i in a;
    var k :| 0 <= k < |a| && a[k] == i;
  }
}
