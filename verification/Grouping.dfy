/** Regrouping a table of numbers by its first key: a dictionary of dictionaries filled entry by
    entry, as `workers.setdefault(w, {})[m] = x` does. */
module Grouping {
  import opened Totals

  type Workers<!W, !M> = map<W, map<M, real>>

  predicate Has<W, M>(workers: Workers<W, M>, w: W, m: M) {
    w in workers && m in workers[w]
  }

  /** The dictionaries hold exactly the cells. */
  ghost predicate Groups<W(!new), M(!new)>(workers: Workers<W, M>, cells: map<(W, M), real>) {
    && (forall w, m :: Has(workers, w, m) <==> (w, m) in cells)
    && (forall w, m :: Has(workers, w, m) ==> workers[w][m] == cells[(w, m)])
    && (forall w :: w in workers ==> workers[w].Keys != {})
  }

  function Store<W, M>(workers: Workers<W, M>, w: W, m: M, x: real): Workers<W, M> {
    workers[w := (if w in workers then workers[w] else map[])[m := x]]
  }

  lemma GroupsAdd<W(!new), M(!new)>(workers: Workers<W, M>, cells: map<(W, M), real>, w: W, m: M, x: real)
    requires Groups(workers, cells)
    ensures Groups(Store(workers, w, m, x), cells[(w, m) := x])
  {
    var stored := Store(workers, w, m, x);
    assert m in stored[w];
    forall v, k ensures Has(stored, v, k) <==> Has(workers, v, k) || (v, k) == (w, m) {
    }
  }

  /** Every cell is in one of the columns `ms` and comes with its whole row. */
  ghost predicate FullRows<W(!new), M(!new)>(cells: map<(W, M), real>, ms: set<M>) {
    && (forall w, m :: (w, m) in cells ==> m in ms)
    && (forall w, m, k :: (w, m) in cells && k in ms ==> (w, k) in cells)
  }

  predicate AllFull<W, M>(workers: Workers<W, M>, ms: set<M>) {
    forall w :: w in workers ==> workers[w].Keys == ms
  }

  /** Every group has exactly the columns `ms` if and only if the rows are full. */
  lemma FullGroups<W(!new), M(!new)>(workers: Workers<W, M>, cells: map<(W, M), real>, ms: set<M>)
    requires Groups(workers, cells)
    ensures AllFull(workers, ms) <==> FullRows(cells, ms)
  {
    if FullRows(cells, ms) {
      forall w | w in workers ensures workers[w].Keys == ms {
        var m :| m in workers[w];
        assert Has(workers, w, m);
        assert forall k :: k in workers[w] <==> Has(workers, w, k);
      }
    }
    if AllFull(workers, ms) {
      forall w, m | (w, m) in cells ensures m in ms && forall k :: k in ms ==> (w, k) in cells {
        assert Has(workers, w, m);
        forall k | k in ms ensures (w, k) in cells { assert Has(workers, w, k); }
      }
    }
  }

  /** The cells of one column. */
  ghost function Column<W(!new), M(!new)>(cells: map<(W, M), real>, m: M): map<(W, M), real> {
    map c | c in cells && c.1 == m :: cells[c]
  }

  ghost function Names<W(!new), M(!new)>(workers: Workers<W, M>, m: M): map<W, (W, M)> {
    map w | w in workers :: (w, m)
  }

  /** Summing one entry per group is summing a column: nothing is lost or counted twice. */
  lemma ColumnTotal<W(!new), M(!new)>(workers: Workers<W, M>, cells: map<(W, M), real>, m: M)
    requires Groups(workers, cells) && forall w :: w in workers ==> Has(workers, w, m)
    ensures Total(map w | w in workers :: workers[w][m]) == Total(Column(cells, m))
  {
    var to := Names(workers, m);
    forall c | c in Column(cells, m) ensures exists w :: w in to && to[w] == c {
      assert Has(workers, c.0, c.1);
      assert to[c.0] == c;
    }
    TotalRenamed(to, map w | w in workers :: workers[w][m], Column(cells, m));
  }

  ghost function Outside<W(!new), M(!new)>(cells: map<(W, M), real>, ms: set<M>): map<(W, M), real> {
    map c | c in cells && c.1 !in ms :: cells[c]
  }

  lemma SplitColumn<W(!new), M(!new)>(cells: map<(W, M), real>, ms: set<M>, m: M)
    requires m !in ms
    ensures Total(Outside(cells, ms)) == Total(Column(cells, m)) + Total(Outside(cells, ms + {m}))
  {
    assert Outside(cells, ms) == Column(cells, m) + Outside(cells, ms + {m});
    TotalMerge(Column(cells, m), Outside(cells, ms + {m}));
  }

  /** Four columns that cover all cells add up to the whole table. */
  lemma FourColumns<W(!new), M(!new)>(cells: map<(W, M), real>, a: M, b: M, c: M, d: M)
    requires forall w, m :: (w, m) in cells ==> m in {a, b, c, d}
    requires a != b && a != c && a != d && b != c && b != d && c != d
    ensures Total(cells) ==
      Total(Column(cells, a)) + Total(Column(cells, b)) + Total(Column(cells, c)) + Total(Column(cells, d))
  {
    SplitColumn(cells, {}, a);
    SplitColumn(cells, {a}, b);
    SplitColumn(cells, {a, b}, c);
    SplitColumn(cells, {a, b, c}, d);
    assert {} + {a} == {a} && {a} + {b} == {a, b} && {a, b} + {c} == {a, b, c} && {a, b, c} + {d} == {a, b, c, d};
    assert Outside(cells, {}) == cells;
    assert Outside(cells, {a, b, c, d}).Keys == {};
  }
}
