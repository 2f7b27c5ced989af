/** Scoring and shipping the cold-expert table: what `main` prints and saves. */
module ColdShip {
  import opened Sums
  import opened ColdSet
  import opened ColdTable

  // ----- Scores -----

  /** The length of Python's `order[..., :spill]` on `local` ids. */
  function SliceEnd(spill: int, local: nat): (k: nat)
    ensures k <= local
  {
    if spill < 0 then (if local + spill < 0 then 0 else local + spill)
    else if spill < local then spill else local
  }

  /** Which positions the slice keeps: a negative end counts from the last. */
  lemma SliceKeeps(spill: int, local: nat, i: nat)
    requires i < local
    ensures i < SliceEnd(spill, local) <==> if spill >= 0 then i < spill else i - local < spill
  {
  }

  /** `share * topk * layers`. */
  function Rate(share: real, topk: nat, layers: nat): real {
    share * topk as real * layers as real
  }

  lemma RateMonotone(x: real, y: real, topk: nat, layers: nat)
    requires x <= y
    ensures Rate(x, topk, layers) <= Rate(y, topk, layers)
  {
    assert x * topk as real <= y * topk as real;
  }

  /** `per_rank.sum().clamp(min=1)`. */
  ghost function Clamped(v: Table): (total: int)
    ensures total >= 1 && total >= TotalHits(v)
  {
    if TotalHits(v) < 1 then 1 else TotalHits(v)
  }

  function Quotient(a: int, b: int): real
    requires b >= 1
  {
    a as real / b as real
  }

  lemma QuotientMonotone(a: int, b: int, c: int, d: int)
    requires b >= 1 && d >= 1 && a * d <= c * b
    ensures Quotient(a, b) <= Quotient(c, d)
  {
    var x, y := Quotient(a, b), Quotient(c, d);
    var b', d' := b as real, d as real;
    assert x * b' == a as real && y * d' == c as real;
    assert (a * d) as real == a as real * d' && (c * b) as real == c as real * b';
    assert x * b' * d' <= y * d' * b';
    assert (y - x) * (b' * d') >= 0.0;
    assert b' * d' > 0.0;
  }

  /** `spilled_hits_per_token`, in exact arithmetic. */
  ghost function Score(v: Table, o: Table, k: nat, topk: nat): real
    requires TableFor(o, v, k)
  {
    Rate(Quotient(TotalSpilled(v, o, k), Clamped(v)), topk, |v|)
  }

  /** The score, without division: times all hits, or one if there are none, it is the spilled hits of all
      layers times `topk` and the number of layers. */
  lemma ScoreIs(v: Table, o: Table, k: nat, topk: nat)
    requires TableFor(o, v, k)
    ensures var total := if TotalHits(v) > 0 then TotalHits(v) else 1;
      Score(v, o, k, topk) * total as real == (TotalSpilled(v, o, k) * topk * |v|) as real
  {
    RateIs(TotalSpilled(v, o, k), Clamped(v), topk, |v|);
  }

  lemma RateIs(a: int, b: int, topk: nat, layers: nat)
    requires b >= 1
    ensures Rate(Quotient(a, b), topk, layers) * b as real == (a * topk * layers) as real
  {
    var x, b', t, l := Quotient(a, b), b as real, topk as real, layers as real;
    assert x * b' == a as real;
    assert x * t * l * b' == (x * b') * t * l;
    assert (a * topk) as real == a as real * t;
    assert (a * topk * layers) as real == (a * topk) as real * l;
  }

  ghost predicate Uniform(v: Table, local: nat) {
    forall l, r :: 0 <= l < |v| && 0 <= r < |v[l]| ==> |v[l][r]| == local
  }

  lemma ScoreMonotone(a: int, b: int, total: int, topk: nat, layers: nat)
    requires a <= b && total >= 1
    ensures Rate(Quotient(a, total), topk, layers) <= Rate(Quotient(b, total), topk, layers)
  {
    QuotientMonotone(a, total, b, total);
    RateMonotone(Quotient(a, total), Quotient(b, total), topk, layers);
  }

  /** In sample, no table scores better than the fitted one; the tail table in particular. */
  lemma FittedScoreBest(v: Table, other: Table, local: nat, spill: int, topk: nat)
    requires Uniform(v, local) && TableFor(other, v, SliceEnd(spill, local))
    ensures TableFor(OrderOf(v), v, SliceEnd(spill, local))
    ensures Score(v, OrderOf(v), SliceEnd(spill, local), topk) <= Score(v, other, SliceEnd(spill, local), topk)
  {
    var k := SliceEnd(spill, local);
    ColdOrderBest(v, other, local, k);
    ScoreMonotone(TotalSpilled(v, OrderOf(v), k), TotalSpilled(v, other, k), Clamped(v), topk, |v|);
  }

  /** The in-sample score grows with the number of spilled experts. */
  lemma FittedScoreMonotone(v: Table, local: nat, spill: int, spill': int, topk: nat)
    requires Uniform(v, local) && SliceEnd(spill, local) <= SliceEnd(spill', local)
    ensures TableFor(OrderOf(v), v, SliceEnd(spill, local)) && TableFor(OrderOf(v), v, SliceEnd(spill', local))
    ensures Score(v, OrderOf(v), SliceEnd(spill, local), topk) <= Score(v, OrderOf(v), SliceEnd(spill', local), topk)
  {
    var k, k' := SliceEnd(spill, local), SliceEnd(spill', local);
    OrderIsTable(v, local, k');
    TotalMonotone(v, OrderOf(v), k, k');
    ScoreMonotone(TotalSpilled(v, OrderOf(v), k), TotalSpilled(v, OrderOf(v), k'), Clamped(v), topk, |v|);
  }

  lemma CrossBound(a: int, hits: int, total: int, k: nat, spill: nat, local: nat)
    requires local * a <= k * hits && hits <= total && k <= spill && total >= 1
    ensures a * local <= spill * total
  {
    assert k * hits <= k * total;
    assert k * total <= spill * total;
  }

  /** In sample, the fitted table is never above the printed uniform figure. */
  lemma FittedScoreBelowUniform(v: Table, local: nat, spill: nat, topk: nat)
    requires Uniform(v, local) && local > 0
    ensures TableFor(OrderOf(v), v, SliceEnd(spill, local))
    ensures Score(v, OrderOf(v), SliceEnd(spill, local), topk) <= Rate(Quotient(spill, local), topk, |v|)
  {
    var k := SliceEnd(spill, local);
    TotalBelowUniform(v, local, k);
    var a := TotalSpilled(v, OrderOf(v), k);
    CrossBound(a, TotalHits(v), Clamped(v), k, spill, local);
    QuotientMonotone(a, Clamped(v), spill, local);
    RateMonotone(Quotient(a, Clamped(v)), Quotient(spill, local), topk, |v|);
  }

  lemma RateSign(share: real, topk: nat, layers: nat)
    ensures (share >= 0.0 ==> Rate(share, topk, layers) >= 0.0)
    ensures (share < 0.0 && topk > 0 && layers > 0 ==> Rate(share, topk, layers) < 0.0)
    ensures topk == 0 || layers == 0 ==> Rate(share, topk, layers) == 0.0
  {
    var x := share * topk as real;
    assert share >= 0.0 ==> x >= 0.0;
    assert share < 0.0 && topk > 0 ==> x < 0.0;
    assert x >= 0.0 ==> x * layers as real >= 0.0;
    assert x < 0.0 && layers > 0 ==> x * layers as real < 0.0;
  }

  /** A share of hits against a negative share. */
  lemma AboveNegative(hits: int, total: int, spill: int, local: nat, topk: nat, layers: nat)
    requires hits >= 0 && total >= 1 && spill < 0 && local > 0
    ensures Rate(Quotient(hits, total), topk, layers) <= Rate(Quotient(spill, local), topk, layers)
       <==> topk == 0 || layers == 0
  {
    QuotientMonotone(0, 1, hits, total);
    RateSign(Quotient(hits, total), topk, layers);
    RateSign(Quotient(spill, local), topk, layers);
  }

  /** For which `--spill` values this holds: a negative one slices from the end, but its uniform
      figure is negative. */
  lemma UniformExactly(v: Table, local: nat, spill: int, topk: nat)
    requires Uniform(v, local) && local > 0
    ensures TableFor(OrderOf(v), v, SliceEnd(spill, local))
    ensures Score(v, OrderOf(v), SliceEnd(spill, local), topk) <= Rate(Quotient(spill, local), topk, |v|)
       <==> spill >= 0 || topk == 0 || |v| == 0
  {
    var k := SliceEnd(spill, local);
    OrderIsTable(v, local, k);
    if spill >= 0 {
      FittedScoreBelowUniform(v, local, spill, topk);
    } else {
      TotalMonotone(v, OrderOf(v), k, k);
      AboveNegative(TotalSpilled(v, OrderOf(v), k), Clamped(v), spill, local, topk, |v|);
    }
  }

  /** `torch.arange(local - 1, -1, -1)` for every layer and rank. */
  function TailOrder(v: Table): Table {
    seq(|v|, l requires 0 <= l < |v| => seq(|v[l]|, r requires 0 <= r < |v[l]| =>
      seq(|v[l][r]|, i requires 0 <= i < |v[l][r]| => |v[l][r]| - 1 - i)))
  }

  /** In sample, the fitted table is never above the tail placement. */
  lemma FittedBelowTail(v: Table, local: nat, spill: int, topk: nat)
    requires Uniform(v, local)
    ensures TableFor(OrderOf(v), v, SliceEnd(spill, local)) && TableFor(TailOrder(v), v, SliceEnd(spill, local))
    ensures forall l, r, i :: 0 <= l < |v| && 0 <= r < |v[l]| && 0 <= i < local ==>
      TailOrder(v)[l][r][i] == local - 1 - i
    ensures Score(v, OrderOf(v), SliceEnd(spill, local), topk) <= Score(v, TailOrder(v), SliceEnd(spill, local), topk)
  {
    FittedScoreBest(v, TailOrder(v), local, spill, topk);
  }

  // ----- Several dumps -----

  function AddSeq(x: seq<nat>, y: seq<nat>): seq<nat>
    requires |x| == |y|
  {
    seq(|x|, i requires 0 <= i < |x| => x[i] + y[i])
  }

  ghost predicate SameShape(a: Table, b: Table) {
    && |a| == |b|
    && (forall l :: 0 <= l < |a| ==> |a[l]| == |b[l]|)
    && (forall l, r :: 0 <= l < |a| && 0 <= r < |a[l]| ==> |a[l][r]| == |b[l][r]|)
  }

  ghost function AddTables(a: Table, b: Table): Table
    requires SameShape(a, b)
  {
    seq(|a|, l requires 0 <= l < |a| => seq(|a[l]|, r requires 0 <= r < |a[l]| => AddSeq(a[l][r], b[l][r])))
  }

  /** `torch.stack(dumps).sum(0)`. */
  ghost function Fit(dumps: seq<Table>): (f: Table)
    requires dumps != [] && forall d :: 0 <= d < |dumps| ==> SameShape(dumps[d], dumps[0])
    ensures SameShape(f, dumps[0])
  {
    var n := |dumps| - 1;
    if n == 0 then dumps[0]
    else
      assert forall d :: 0 <= d < n ==> dumps[..n][d] == dumps[d];
      assert SameShape(dumps[n], dumps[0]);
      AddTables(Fit(dumps[..n]), dumps[n])
  }

  lemma {:induction false} SpilledAdds(x: seq<nat>, y: seq<nat>, o: seq<nat>, k: nat)
    requires |x| == |y| && k <= |o| && InRange(o, |x|)
    ensures Spilled(AddSeq(x, y), o, k) == Spilled(x, o, k) + Spilled(y, o, k)
  {
    if k > 0 { SpilledAdds(x, y, o, k - 1); }
  }

  lemma {:induction false} SumAdds(xs: seq<int>, ys: seq<int>, zs: seq<int>)
    requires |xs| == |ys| == |zs| && forall i :: 0 <= i < |xs| ==> zs[i] == xs[i] + ys[i]
    ensures Sum(zs) == Sum(xs) + Sum(ys)
  {
    if xs != [] {
      var n := |xs| - 1;
      SumAdds(xs[..n], ys[..n], zs[..n]);
    }
  }

  /** Spilled hits of a fixed table add up over dumps. */
  lemma TotalAdds(a: Table, b: Table, o: Table, k: nat)
    requires SameShape(a, b) && TableFor(o, a, k)
    ensures TableFor(o, b, k) && TableFor(o, AddTables(a, b), k)
    ensures TotalSpilled(AddTables(a, b), o, k) == TotalSpilled(a, o, k) + TotalSpilled(b, o, k)
  {
    var c := AddTables(a, b);
    assert TableFor(o, b, k);
    assert TableFor(o, c, k);
    var as_ := seq(|a|, l requires 0 <= l < |a| => Sum(LayerSpills(a[l], o[l], k)));
    var bs := seq(|b|, l requires 0 <= l < |b| => Sum(LayerSpills(b[l], o[l], k)));
    var cs := seq(|c|, l requires 0 <= l < |c| => Sum(LayerSpills(c[l], o[l], k)));
    forall l | 0 <= l < |a| ensures cs[l] == as_[l] + bs[l] {
      forall r | 0 <= r < |a[l]|
        ensures LayerSpills(c[l], o[l], k)[r] == LayerSpills(a[l], o[l], k)[r] + LayerSpills(b[l], o[l], k)[r]
      {
        SpilledAdds(a[l][r], b[l][r], o[l][r], k);
      }
      SumAdds(LayerSpills(a[l], o[l], k), LayerSpills(b[l], o[l], k), LayerSpills(c[l], o[l], k));
    }
    SumAdds(as_, bs, cs);
  }

  ghost function SpilledOver(dumps: seq<Table>, o: Table, k: nat): int
    requires forall d :: 0 <= d < |dumps| ==> TableFor(o, dumps[d], k)
  {
    if dumps == [] then 0
    else SpilledOver(dumps[..|dumps| - 1], o, k) + TotalSpilled(dumps[|dumps| - 1], o, k)
  }

  lemma SameShapeTable(a: Table, b: Table, o: Table, k: nat)
    requires SameShape(a, b) && TableFor(o, b, k)
    ensures TableFor(o, a, k)
  {
  }

  lemma {:induction false} FitSpills(dumps: seq<Table>, o: Table, k: nat)
    requires dumps != [] && (forall d :: 0 <= d < |dumps| ==> SameShape(dumps[d], dumps[0]))
    requires forall d :: 0 <= d < |dumps| ==> TableFor(o, dumps[d], k)
    ensures TableFor(o, Fit(dumps), k) && TotalSpilled(Fit(dumps), o, k) == SpilledOver(dumps, o, k)
  {
    var n := |dumps| - 1;
    if n > 0 {
      var init := dumps[..n];
      assert forall d :: 0 <= d < n ==> init[d] == dumps[d];
      FitSpills(init, o, k);
      assert SameShape(dumps[n], dumps[0]);
      TotalAdds(Fit(init), dumps[n], o, k);
    } else {
      assert dumps[..0] == [];
    }
  }

  lemma EveryDump(dumps: seq<Table>, o: Table, k: nat)
    requires dumps != [] && (forall d :: 0 <= d < |dumps| ==> SameShape(dumps[d], dumps[0])) && TableFor(o, dumps[0], k)
    ensures forall d :: 0 <= d < |dumps| ==> TableFor(o, dumps[d], k)
  {
    forall d | 0 <= d < |dumps| ensures TableFor(o, dumps[d], k) {
      SameShapeTable(dumps[d], dumps[0], o, k);
    }
  }

  /** The dumps `main` fits the scored table on. */
  function Train(dumps: seq<Table>, noHoldout: bool): seq<Table> {
    if noHoldout || |dumps| < 2 then dumps else dumps[..|dumps| - 1]
  }

  /** The table `main` saves: fitted again on everything when a dump was held out. */
  ghost function Shipped(dumps: seq<Table>, noHoldout: bool): Table
    requires dumps != [] && forall d :: 0 <= d < |dumps| ==> SameShape(dumps[d], dumps[0])
  {
    var train := Train(dumps, noHoldout);
    assert forall d :: 0 <= d < |train| ==> train[d] == dumps[d];
    if |train| == |dumps| then OrderOf(Fit(train)) else OrderOf(Fit(dumps))
  }

  /** The shipped table is the best fixed table for all dumps together, held out or not. */
  lemma ShippedBest(dumps: seq<Table>, noHoldout: bool, other: Table, local: nat, k: nat)
    requires dumps != [] && forall d :: 0 <= d < |dumps| ==> SameShape(dumps[d], dumps[0])
    requires Uniform(dumps[0], local) && k <= local && TableFor(other, dumps[0], k)
    ensures forall d :: 0 <= d < |dumps| ==>
      TableFor(other, dumps[d], k) && TableFor(Shipped(dumps, noHoldout), dumps[d], k)
    ensures SpilledOver(dumps, Shipped(dumps, noHoldout), k) <= SpilledOver(dumps, other, k)
  {
    var f := Fit(dumps);
    assert Shipped(dumps, noHoldout) == OrderOf(f);
    assert Uniform(f, local);
    EveryDump(dumps, other, k);
    FitSpills(dumps, other, k);
    ColdOrderBest(f, other, local, k);
    SameShapeTable(dumps[0], f, OrderOf(f), k);
    EveryDump(dumps, OrderOf(f), k);
    FitSpills(dumps, OrderOf(f), k);
  }
}
