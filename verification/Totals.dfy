/** Sums over the values of a map, whatever the order they are added in. */
module Totals {
  ghost function Total<K(!new)>(f: map<K, real>): real {
    if f.Keys == {} then 0.0 else var k :| k in f; f[k] + Total(f - {k})
  }

  lemma {:induction false} TotalRemove<K(!new)>(f: map<K, real>, k: K)
    requires k in f
    ensures Total(f) == f[k] + Total(f - {k})
    decreases |f|
  {
    var j: K :| j in f && Total(f) == f[j] + Total(f - {j});
    if j != k {
      TotalRemove(f - {j}, k);
      TotalRemove(f - {k}, j);
      assert f - {j} - {k} == f - {k} - {j};
    }
  }

  lemma {:induction false} TotalNonNegative<K(!new)>(f: map<K, real>)
    requires forall k :: k in f ==> f[k] >= 0.0
    ensures Total(f) >= 0.0
    decreases |f|
  {
    if f.Keys != {} {
      var k :| k in f;
      TotalRemove(f, k);
      TotalNonNegative(f - {k});
    }
  }

  lemma {:induction false} TotalAdds<K(!new)>(f: map<K, real>, g: map<K, real>, h: map<K, real>)
    requires f.Keys == g.Keys == h.Keys && forall k :: k in f ==> h[k] == f[k] + g[k]
    ensures Total(h) == Total(f) + Total(g)
    decreases |f|
  {
    if f.Keys != {} {
      var k :| k in f;
      TotalRemove(f, k);
      TotalRemove(g, k);
      TotalRemove(h, k);
      TotalAdds(f - {k}, g - {k}, h - {k});
    }
  }

  lemma MergeNothing<K(!new)>(g: map<K, real>, h: map<K, real>)
    requires g.Keys == {}
    ensures Total(g + h) == Total(g) + Total(h)
  {
    assert g + h == h;
  }

  lemma MergeOne<K(!new)>(g: map<K, real>, h: map<K, real>, k: K)
    requires k in g && k !in h
    requires Total((g - {k}) + h) == Total(g - {k}) + Total(h)
    ensures Total(g + h) == Total(g) + Total(h)
  {
    assert (g + h) - {k} == (g - {k}) + h;
    TotalRemove(g + h, k);
    TotalRemove(g, k);
  }

  /** Splitting the keys splits the sum. */
  lemma {:induction false} TotalMerge<K(!new)>(g: map<K, real>, h: map<K, real>)
    requires forall k :: k in g ==> k !in h
    ensures Total(g + h) == Total(g) + Total(h)
    decreases |g|
  {
    if g.Keys == {} {
      MergeNothing(g, h);
    } else {
      var k :| k in g;
      TotalMerge(g - {k}, h);
      MergeOne(g, h, k);
    }
  }

  /** `g` is `f` under other names: `to` pairs the keys off one to one. */
  ghost predicate Renames<K(!new), L(!new)>(to: map<K, L>, f: map<K, real>, g: map<L, real>) {
    && to.Keys == f.Keys
    && (forall k :: k in to ==> to[k] in g && f[k] == g[to[k]])
    && (forall j, k :: j in to && k in to && to[j] == to[k] ==> j == k)
    && (forall l :: l in g ==> exists k :: k in to && to[k] == l)
  }

  lemma RenamesRemove<K(!new), L(!new)>(to: map<K, L>, f: map<K, real>, g: map<L, real>, k: K)
    requires Renames(to, f, g) && k in to
    ensures Renames(to - {k}, f - {k}, g - {to[k]})
  {
    forall l | l in g && l != to[k] ensures exists j :: j in to - {k} && (to - {k})[j] == l {
      var j :| j in to && to[j] == l;
      assert (to - {k})[j] == l;
    }
  }

  lemma RenamesAdd<K(!new), L(!new)>(to: map<K, L>, f: map<K, real>, g: map<L, real>, k: K, l: L, x: real)
    requires Renames(to, f, g) && k !in to && l !in g
    ensures Renames(to[k := l], f[k := x], g[l := x])
  {
    var more := to[k := l];
    forall m | m in g || m == l ensures exists j :: j in more && more[j] == m {
      if m == l {
        assert more[k] == m;
      } else {
        var j :| j in to && to[j] == m;
        assert more[j] == m;
      }
    }
  }

  /** Renaming the keys one to one keeps the sum. */
  lemma {:induction false} TotalRenamed<K(!new), L(!new)>(to: map<K, L>, f: map<K, real>, g: map<L, real>)
    requires Renames(to, f, g)
    ensures Total(f) == Total(g)
    decreases |f|
  {
    if f.Keys == {} {
      assert g.Keys == {};
    } else {
      var k :| k in f;
      RenamesRemove(to, f, g, k);
      TotalRenamed(to - {k}, f - {k}, g - {to[k]});
      TotalRemove(f, k);
      TotalRemove(g, to[k]);
    }
  }

  /** Adds the values up in any order. */
  method SumOf<K(==, !new)>(f: map<K, real>) returns (total: real)
    ensures total == Total(f)
  {
    total := 0.0;
    var rest := f;
    while rest.Keys != {}
      invariant total + Total(rest) == Total(f)
      decreases |rest|
    {
      var k :| k in rest;
      TotalRemove(rest, k);
      total := total + rest[k];
      rest := rest - {k};
    }
  }
}
