/** The cold-expert table over all layers and ranks: fitting, scoring and shipping. */
module ColdTable {
  import opened Wrappers
  import opened Sums
  import opened ColdSet

  /** Hit counts, one row of `width` experts per layer. */
  datatype Tensor = Tensor(width: nat, rows: seq<seq<nat>>)

  /** `[layers, ep, local]`. */
  type Table = seq<seq<seq<nat>>>

  ghost predicate WellFormed(t: Tensor) {
    forall l :: 0 <= l < |t.rows| ==> |t.rows[l]| == t.width
  }

  lemma SliceInRange(ep: nat, local: nat, r: nat)
    requires r < ep
    ensures 0 <= r * local <= (r + 1) * local <= ep * local
  {
    Scaled(r, r + 1, local);
    Scaled(r + 1, ep, local);
  }

  lemma {:induction false} Scaled(x: nat, y: nat, n: nat)
    requires x <= y
    ensures 0 <= x * n <= y * n
  {
    if n > 0 { Scaled(x, y, n - 1); }
  }

  function RankSlice(row: seq<nat>, ep: nat, local: nat, r: nat): (s: seq<nat>)
    requires |row| == ep * local && r < ep
    ensures |s| == local
  {
    SliceInRange(ep, local, r);
    row[r * local..(r + 1) * local]
  }

  /** `cnt.view(layers, ep, local)`. */
  function View(t: Tensor, ep: nat, local: nat): (v: Table)
    requires WellFormed(t) && t.width == ep * local
    ensures Shaped(v, |t.rows|, ep, local)
  {
    seq(|t.rows|, l requires 0 <= l < |t.rows| => seq(ep, r requires 0 <= r < ep => RankSlice(t.rows[l], ep, local, r)))
  }

  ghost predicate Shaped(v: Table, layers: nat, ep: nat, local: nat) {
    && |v| == layers
    && (forall l :: 0 <= l < layers ==> |v[l]| == ep)
    && (forall l, r :: 0 <= l < layers && 0 <= r < ep ==> |v[l][r]| == local)
  }

  function OrderOf(v: Table): (o: Table) {
    seq(|v|, l requires 0 <= l < |v| => seq(|v[l]|, r requires 0 <= r < |v[l]| => Argsort(v[l][r])))
  }

  /** `cold_order`. */
  function ColdOrder(t: Tensor, ep: nat, local: nat): (o: Result<Table>)
    requires WellFormed(t)
    ensures o.Failure? <==> t.width != ep * local
  {
    if t.width != ep * local then Failure("experts != ep*local") else Success(OrderOf(View(t, ep, local)))
  }

  /** The ids of the `local` experts from `base` on, coldest first, equally cold ones by id. */
  ghost predicate ColdFirst(row: seq<nat>, base: nat, local: nat, order: seq<nat>)
    requires base + local <= |row|
  {
    && IsPermutation(order, local)
    && forall i, j :: 0 <= i < j < local ==>
         || row[base + order[i]] < row[base + order[j]]
         || (row[base + order[i]] == row[base + order[j]] && order[i] < order[j])
  }

  /** `cold_order` fails exactly if the experts do not divide; otherwise it has, for each layer and
      rank, that rank's experts coldest first. */
  lemma ColdOrderExact(t: Tensor, ep: nat, local: nat, l: nat, r: nat)
    requires WellFormed(t) && l < |t.rows| && r < ep
    ensures ColdOrder(t, ep, local).Failure? <==> t.width != ep * local
    ensures t.width == ep * local ==>
      var o := ColdOrder(t, ep, local).value;
      && |o| == |t.rows| && |o[l]| == ep
      && r * local + local <= |t.rows[l]| && ColdFirst(t.rows[l], r * local, local, o[l][r])
  {
    if t.width == ep * local {
      SliceInRange(ep, local, r);
      var hits := RankSlice(t.rows[l], ep, local, r);
      ArgsortOrder(hits);
      assert forall i :: 0 <= i < local ==> hits[i] == t.rows[l][r * local + i];
    }
  }

  /** A table naming, per layer and rank, at least `k` distinct local ids. */
  ghost predicate TableFor(o: Table, v: Table, k: nat) {
    && |o| == |v|
    && (forall l :: 0 <= l < |v| ==> |o[l]| == |v[l]|)
    && (forall l, r :: 0 <= l < |v| && 0 <= r < |v[l]| ==> k <= |o[l][r]| && ValidTable(o[l][r], |v[l][r]|))
  }

  /** Hits spilled per rank of one layer. */
  ghost function LayerSpills(v: seq<seq<nat>>, o: seq<seq<nat>>, k: nat): (s: seq<int>)
    requires |o| == |v| && forall r :: 0 <= r < |v| ==> k <= |o[r]| && ValidTable(o[r], |v[r]|)
  {
    seq(|v|, r requires 0 <= r < |v| => (assert ValidTable(o[r], |v[r]|); Spilled(v[r], o[r], k)))
  }

  /** `per_rank.gather(-1, order[..., :k]).sum()`. */
  ghost function TotalSpilled(v: Table, o: Table, k: nat): int
    requires TableFor(o, v, k)
  {
    Sum(seq(|v|, l requires 0 <= l < |v| => Sum(LayerSpills(v[l], o[l], k))))
  }

  ghost function LayerHits(v: seq<seq<nat>>): seq<int> {
    seq(|v|, r requires 0 <= r < |v| => Sum(v[r]))
  }

  /** `per_rank.sum()`. */
  ghost function TotalHits(v: Table): int {
    Sum(seq(|v|, l requires 0 <= l < |v| => Sum(LayerHits(v[l]))))
  }

  lemma OrderIsTable(v: Table, local: nat, k: nat)
    requires (forall l, r :: 0 <= l < |v| && 0 <= r < |v[l]| ==> |v[l][r]| == local) && k <= local
    ensures TableFor(OrderOf(v), v, k)
  {
    forall l, r | 0 <= l < |v| && 0 <= r < |v[l]|
      ensures k <= |OrderOf(v)[l][r]| && ValidTable(OrderOf(v)[l][r], |v[l][r]|)
    {
      ArgsortOrder(v[l][r]);
    }
  }

  /** No table spills fewer hits than the cold order, for any number of spilled experts. */
  lemma ColdOrderBest(v: Table, other: Table, local: nat, k: nat)
    requires forall l, r :: 0 <= l < |v| && 0 <= r < |v[l]| ==> |v[l][r]| == local
    requires k <= local && TableFor(other, v, k)
    ensures TableFor(OrderOf(v), v, k)
    ensures TotalSpilled(v, OrderOf(v), k) <= TotalSpilled(v, other, k)
  {
    OrderIsTable(v, local, k);
    var o := OrderOf(v);
    var mine := seq(|v|, l requires 0 <= l < |v| => Sum(LayerSpills(v[l], o[l], k)));
    var theirs := seq(|v|, l requires 0 <= l < |v| => Sum(LayerSpills(v[l], other[l], k)));
    forall l | 0 <= l < |v| ensures mine[l] <= theirs[l] {
      forall r | 0 <= r < |v[l]| ensures LayerSpills(v[l], o[l], k)[r] <= LayerSpills(v[l], other[l], k)[r] {
        SpilledIsHits(v[l][r], other[l][r], k);
        ColdestPrefixOptimal(v[l][r], IdSet(other[l][r], k), k);
      }
      SumMonotone(LayerSpills(v[l], o[l], k), LayerSpills(v[l], other[l], k));
    }
    SumMonotone(mine, theirs);
  }

  lemma {:induction false} SpilledMonotone(hits: seq<nat>, order: seq<nat>, s: nat, s': nat)
    requires s <= s' <= |order| && InRange(order, |hits|)
    ensures 0 <= Spilled(hits, order, s) <= Spilled(hits, order, s')
    decreases s'
  {
    if s' > s {
      SpilledMonotone(hits, order, s, s' - 1);
    } else if s > 0 {
      SpilledMonotone(hits, order, s - 1, s - 1);
    }
  }

  /** Spilling more experts never spills fewer hits. */
  lemma TotalMonotone(v: Table, o: Table, k: nat, k': nat)
    requires k <= k' && TableFor(o, v, k')
    ensures TableFor(o, v, k) && 0 <= TotalSpilled(v, o, k) <= TotalSpilled(v, o, k')
  {
    var a := seq(|v|, l requires 0 <= l < |v| => Sum(LayerSpills(v[l], o[l], k)));
    var b := seq(|v|, l requires 0 <= l < |v| => Sum(LayerSpills(v[l], o[l], k')));
    var zero := seq(|v|, l => 0);
    forall l | 0 <= l < |v| ensures 0 <= a[l] <= b[l] {
      var none := seq(|v[l]|, r => 0);
      forall r | 0 <= r < |v[l]| ensures 0 <= LayerSpills(v[l], o[l], k)[r] <= LayerSpills(v[l], o[l], k')[r] {
        SpilledMonotone(v[l][r], o[l][r], k, k');
      }
      SumConstant(none, 0);
      SumMonotone(none, LayerSpills(v[l], o[l], k));
      SumMonotone(LayerSpills(v[l], o[l], k), LayerSpills(v[l], o[l], k'));
    }
    SumConstant(zero, 0);
    SumMonotone(zero, a);
    SumMonotone(a, b);
  }

  // ----- Against uniform spilling -----

  /** Experts outside `ids`, each hit at least `m` times. */
  lemma {:induction false} OthersAtLeast(hits: seq<nat>, ids: set<nat>, n: nat, m: int)
    requires n <= |hits| && forall i: nat :: i < n && i !in ids ==> hits[i] >= m
    ensures Sum(hits[..n]) - HitsOf(hits, ids, n) >= (n - SizeBelow(ids, n)) * m
  {
    if n > 0 {
      OthersAtLeast(hits, ids, n - 1, m);
      assert hits[..n][..n - 1] == hits[..n - 1];
      assert (n - SizeBelow(ids, n - 1)) * m == (n - 1 - SizeBelow(ids, n - 1)) * m + m;
    }
  }

  /** A set of `s` experts below a bound that all others reach carries at most `s/n` of the hits. */
  lemma BelowAverage(hits: seq<nat>, p: set<nat>, s: nat, m: int)
    requires SizeBelow(p, |hits|) == s <= |hits|
    requires forall i: nat :: i < |hits| ==> if i in p then hits[i] <= m else hits[i] >= m
    ensures |hits| * HitsOf(hits, p, |hits|) <= s * Sum(hits)
  {
    var n := |hits|;
    HitsBounds(hits, p, n, m);
    OthersAtLeast(hits, p, n, m);
    assert hits[..n] == hits;
    Average(n, s, m, HitsOf(hits, p, n), Sum(hits) - HitsOf(hits, p, n));
  }

  /** The `s` coldest of `n` experts carry at most `s/n` of the hits. */
  lemma ColdestBelowAverage(hits: seq<nat>, s: nat)
    requires s <= |hits|
    ensures |Argsort(hits)| == |hits| && ValidTable(Argsort(hits), |hits|)
    ensures |hits| * Spilled(hits, Argsort(hits), s) <= s * Sum(hits)
  {
    ArgsortOrder(hits);
    var a, n := Argsort(hits), |hits|;
    SpilledIsHits(hits, a, s);
    if 0 < s {
      var p, m := IdSet(a, s), hits[a[s - 1]];
      SizeBelowIsSize(p, n);
      forall i: nat | i < n ensures if i in p then hits[i] <= m else hits[i] >= m {
        if i !in p { OutsidePrefix(hits, s, i); }
      }
      BelowAverage(hits, p, s, m);
    }
  }

  lemma Average(n: nat, s: nat, m: int, cold: int, warm: int)
    requires s <= n && cold <= s * m && warm >= (n - s) * m
    ensures n * cold <= s * (cold + warm)
  {
    assert (n - s) * cold <= (n - s) * (s * m);
    assert s * warm >= s * ((n - s) * m);
    assert (n - s) * (s * m) == s * ((n - s) * m);
    assert n * cold == s * cold + (n - s) * cold;
    assert s * (cold + warm) == s * cold + s * warm;
  }

  lemma {:induction false} SumScaled(xs: seq<int>, ys: seq<int>, a: int, b: int)
    requires |xs| == |ys| && forall i :: 0 <= i < |xs| ==> a * xs[i] <= b * ys[i]
    ensures a * Sum(xs) <= b * Sum(ys)
  {
    if xs != [] {
      var n := |xs| - 1;
      SumScaled(xs[..n], ys[..n], a, b);
      assert a * Sum(xs) == a * Sum(xs[..n]) + a * xs[n];
      assert b * Sum(ys) == b * Sum(ys[..n]) + b * ys[n];
    }
  }

  /** In sample, the cold order spills at most its uniform share of all hits. */
  lemma TotalBelowUniform(v: Table, local: nat, k: nat)
    requires (forall l, r :: 0 <= l < |v| && 0 <= r < |v[l]| ==> |v[l][r]| == local) && k <= local
    ensures TableFor(OrderOf(v), v, k)
    ensures local * TotalSpilled(v, OrderOf(v), k) <= k * TotalHits(v)
  {
    OrderIsTable(v, local, k);
    var o := OrderOf(v);
    var mine := seq(|v|, l requires 0 <= l < |v| => Sum(LayerSpills(v[l], o[l], k)));
    var all := seq(|v|, l requires 0 <= l < |v| => Sum(LayerHits(v[l])));
    forall l | 0 <= l < |v| ensures local * mine[l] <= k * all[l] {
      forall r | 0 <= r < |v[l]| ensures local * LayerSpills(v[l], o[l], k)[r] <= k * LayerHits(v[l])[r] {
        ColdestBelowAverage(v[l][r], k);
      }
      SumScaled(LayerSpills(v[l], o[l], k), LayerHits(v[l]), local, k);
    }
    SumScaled(mine, all, local, k);
  }
}
