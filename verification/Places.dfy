/** Lists that name each client at one place exactly once: how the workload models track where
    every client's request is. */
module Places {

  function One(b: bool): nat {
    if b then 1 else 0
  }

  function Remove<T>(xs: seq<T>, i: nat): seq<T>
    requires i < |xs|
  {
    xs[..i] + xs[i + 1..]
  }

  /** The list names each client at that place once, and no other. */
  ghost predicate Lists<P>(xs: seq<nat>, place: seq<P>, p: P) {
    && (forall i, j :: 0 <= i < j < |xs| ==> xs[i] != xs[j])
    && (forall c: nat :: c in xs <==> c < |place| && place[c] == p)
  }

  lemma ListsAppend<P>(xs: seq<nat>, place: seq<P>, p: P, c: nat)
    requires Lists(xs, place, p) && c < |place| && place[c] != p
    ensures Lists(xs + [c], place[c := p], p)
  {
    assert c !in xs;
  }

  lemma ListsRemove<P>(xs: seq<nat>, place: seq<P>, p: P, i: nat, q: P)
    requires Lists(xs, place, p) && i < |xs| && q != p
    ensures xs[i] < |place| && place[xs[i]] == p
    ensures Lists(Remove(xs, i), place[xs[i] := q], p)
  {
    var c, ys := xs[i], Remove(xs, i);
    assert c in xs;
    assert xs == xs[..i] + [c] + xs[i + 1..];
    assert forall k :: 0 <= k < |ys| ==> ys[k] == xs[if k < i then k else k + 1];
    assert forall x: nat :: x in ys <==> x in xs && x != c;
    forall a, b | 0 <= a < b < |ys| ensures ys[a] != ys[b] {
      assert ys[a] == xs[if a < i then a else a + 1] && ys[b] == xs[if b < i then b else b + 1];
    }
  }

  /** `x` is the only client at that place, or -1 and there is none. */
  ghost predicate Single<P>(x: int, place: seq<P>, p: P) {
    && (x >= 0 ==> x < |place| && place[x] == p)
    && (forall c :: 0 <= c < |place| && place[c] == p ==> x == c)
  }

  /** Distinct clients below `n`, with one of them missing, are fewer than `n`. */
  lemma MissingOne(xs: seq<nat>, n: nat, c: nat)
    requires forall i, j :: 0 <= i < j < |xs| ==> xs[i] != xs[j]
    requires forall i :: 0 <= i < |xs| ==> xs[i] < n && xs[i] != c
    requires c < n
    ensures |xs| < n
  {
    var ys := xs + [c];
    DistinctBelow(ys, n);
  }

  lemma {:induction false} DistinctBelow(xs: seq<nat>, n: nat)
    requires forall i, j :: 0 <= i < j < |xs| ==> xs[i] != xs[j]
    requires forall i :: 0 <= i < |xs| ==> xs[i] < n
    ensures |xs| <= n
  {
    if xs != [] {
      assert xs[0] < n;
      if k :| 0 <= k < |xs| && xs[k] == n - 1 {
        var ys := Remove(xs, k);
        assert forall i :: 0 <= i < |ys| ==> ys[i] == xs[if i < k then i else i + 1];
        DistinctBelow(ys, n - 1);
      } else {
        DistinctBelow(xs, n - 1);
      }
    }
  }

  /** A queue after one more step: put, got and waiting stay in step. */
  lemma Shift<T>(puts: seq<T>, taken: seq<T>, queue: seq<T>, put: seq<T>, got: seq<T>, queue': seq<T>)
    requires puts == taken + queue && queue + put == got + queue'
    ensures puts + put == taken + got + queue'
  {
    assert taken + queue + put == taken + (queue + put);
    assert taken + got + queue' == taken + (got + queue');
  }
}
