/** The analyser's time windows: token increments are counted in the window they arrive in, and the
    exported windows give rates. */
module Windows {
  import opened Totals
  import opened Generation

  /** A successful row of the request log. */
  datatype Row = Row(submitted: real, events: seq<Arrival>)

  /** An increment of received tokens and the window it falls into. */
  datatype Hit = Hit(index: int, tokens: real)

  function IndexAt(row: Row, offset: real, start: real, window: real): int
    requires window > 0.0
  {
    ((row.submitted + offset - start) / window).Floor
  }

  /** The increments of the first `n` events of a row. */
  function RowHits(row: Row, start: real, window: real, n: nat): seq<Hit>
    requires window > 0.0 && n <= |row.events|
  {
    if n == 0 then []
    else
      var previous := if n == 1 then 0 else row.events[n - 2].count;
      RowHits(row, start, window, n - 1)
        + [Hit(IndexAt(row, row.events[n - 1].offset, start, window), (row.events[n - 1].count - previous) as real)]
  }

  function HitsOf(rows: seq<Row>, start: real, window: real, n: nat): seq<Hit>
    requires window > 0.0 && n <= |rows|
  {
    if n == 0 then []
    else HitsOf(rows, start, window, n - 1) + RowHits(rows[n - 1], start, window, |rows[n - 1].events|)
  }

  /** The tokens of all rows: their final counts. */
  function Tokens(rows: seq<Row>, n: nat): real
    requires n <= |rows|
  {
    if n == 0 then 0.0 else Tokens(rows, n - 1) + LastCount(rows[n - 1].events) as real
  }

  // ----- Sums over increments -----

  function SumHits(hits: seq<Hit>): real {
    if hits == [] then 0.0 else SumHits(hits[..|hits| - 1]) + hits[|hits| - 1].tokens
  }

  function SumAt(hits: seq<Hit>, index: int): real {
    if hits == [] then 0.0
    else SumAt(hits[..|hits| - 1], index) + (if hits[|hits| - 1].index == index then hits[|hits| - 1].tokens else 0.0)
  }

  lemma SumSnoc(hits: seq<Hit>, hit: Hit)
    ensures SumHits(hits + [hit]) == SumHits(hits) + hit.tokens
    ensures forall index ::
      SumAt(hits + [hit], index) == SumAt(hits, index) + (if hit.index == index then hit.tokens else 0.0)
  {
    assert (hits + [hit])[..|hits|] == hits;
  }

  lemma {:induction false} SumHitsConcat(a: seq<Hit>, b: seq<Hit>)
    ensures SumHits(a + b) == SumHits(a) + SumHits(b)
    decreases |b|
  {
    if b == [] {
      assert a + b == a;
    } else {
      var b', hit := b[..|b| - 1], b[|b| - 1];
      assert a + b == (a + b') + [hit] && b == b' + [hit];
      SumSnoc(a + b', hit);
      SumSnoc(b', hit);
      SumHitsConcat(a, b');
    }
  }

  /** Increments of one row telescope to its final count. */
  lemma {:induction false} RowTelescopes(row: Row, start: real, window: real, n: nat)
    requires window > 0.0 && n <= |row.events|
    ensures SumHits(RowHits(row, start, window, n)) == LastCount(row.events[..n]) as real
  {
    if n > 0 {
      RowTelescopes(row, start, window, n - 1);
      var hits := RowHits(row, start, window, n);
      SumSnoc(hits[..|hits| - 1], hits[|hits| - 1]);
      assert hits == hits[..|hits| - 1] + [hits[|hits| - 1]];
    }
  }

  lemma {:induction false} HitsTelescope(rows: seq<Row>, start: real, window: real, n: nat)
    requires window > 0.0 && n <= |rows|
    ensures SumHits(HitsOf(rows, start, window, n)) == Tokens(rows, n)
  {
    if n > 0 {
      var row := rows[n - 1];
      HitsTelescope(rows, start, window, n - 1);
      RowTelescopes(row, start, window, |row.events|);
      assert row.events[..|row.events|] == row.events;
      SumHitsConcat(HitsOf(rows, start, window, n - 1), RowHits(row, start, window, |row.events|));
    }
  }

  // ----- Windows as stretches of time -----

  /** The tokens the first `n` events of the row brought from `lo` on and before `hi`. */
  function RowArrived(row: Row, lo: real, hi: real, n: nat): real
    requires n <= |row.events|
  {
    if n == 0 then 0.0
    else
      var previous := if n == 1 then 0 else row.events[n - 2].count;
      var added := (row.events[n - 1].count - previous) as real;
      RowArrived(row, lo, hi, n - 1)
        + (if lo <= row.submitted + row.events[n - 1].offset < hi then added else 0.0)
  }

  function Arrived(rows: seq<Row>, lo: real, hi: real, n: nat): real
    requires n <= |rows|
  {
    if n == 0 then 0.0
    else Arrived(rows, lo, hi, n - 1) + RowArrived(rows[n - 1], lo, hi, |rows[n - 1].events|)
  }

  /** The tokens that arrived in window `index`. */
  function InWindow(rows: seq<Row>, start: real, window: real, index: int): real {
    Arrived(rows, start + index as real * window, start + (index + 1) as real * window, |rows|)
  }

  /** An arrival's window is the one whose stretch of time it falls into. */
  lemma IndexFalls(row: Row, offset: real, start: real, window: real, index: int)
    requires window > 0.0
    ensures IndexAt(row, offset, start, window) == index
       <==> start + index as real * window <= row.submitted + offset < start + (index + 1) as real * window
  {
    FloorFalls(row.submitted + offset - start, window, index);
  }

  lemma FloorIs(q: real, index: int)
    ensures q.Floor == index <==> index as real <= q < (index + 1) as real
  {
    assert q.Floor as real <= q < (q.Floor + 1) as real;
  }

  lemma FloorFalls(t: real, window: real, index: int)
    requires window > 0.0
    ensures (t / window).Floor == index <==> index as real * window <= t < (index + 1) as real * window
  {
    var q, lo, hi := t / window, index as real, (index + 1) as real;
    assert q * window == t;
    FloorIs(q, index);
    QuotientOrder(q, t, window, lo);
    QuotientOrder(q, t, window, hi);
  }

  lemma QuotientOrder(q: real, t: real, window: real, x: real)
    requires q * window == t && window > 0.0
    ensures x <= q <==> x * window <= t
  {
    if x <= q { Scale(x, q, window); } else { StrictScale(q, x, window); }
  }

  lemma Scale(x: real, y: real, window: real)
    requires x <= y && window > 0.0
    ensures x * window <= y * window
  {
  }

  lemma StrictScale(x: real, y: real, window: real)
    requires x < y && window > 0.0
    ensures x * window < y * window
  {
  }

  lemma {:induction false} RowInWindow(row: Row, start: real, window: real, lo: real, hi: real, index: int, n: nat)
    requires window > 0.0 && n <= |row.events|
    requires lo == start + index as real * window && hi == start + (index + 1) as real * window
    ensures SumAt(RowHits(row, start, window, n), index) == RowArrived(row, lo, hi, n)
  {
    if n > 0 {
      RowInWindow(row, start, window, lo, hi, index, n - 1);
      var hits := RowHits(row, start, window, n);
      IndexFalls(row, row.events[n - 1].offset, start, window, index);
      assert hits[..|hits| - 1] == RowHits(row, start, window, n - 1);
    }
  }

  lemma {:induction false} SumAtConcat(a: seq<Hit>, b: seq<Hit>, index: int)
    ensures SumAt(a + b, index) == SumAt(a, index) + SumAt(b, index)
    decreases |b|
  {
    if b == [] {
      assert a + b == a;
    } else {
      SumAtConcat(a, b[..|b| - 1], index);
      assert (a + b)[..|a + b| - 1] == a + b[..|b| - 1];
    }
  }

  lemma {:induction false} HitsInWindow(rows: seq<Row>, start: real, window: real, lo: real, hi: real, index: int,
          n: nat)
    requires window > 0.0 && n <= |rows|
    requires lo == start + index as real * window && hi == start + (index + 1) as real * window
    ensures SumAt(HitsOf(rows, start, window, n), index) == Arrived(rows, lo, hi, n)
  {
    if n > 0 {
      var row := rows[n - 1];
      HitsInWindow(rows, start, window, lo, hi, index, n - 1);
      RowInWindow(row, start, window, lo, hi, index, |row.events|);
      SumAtConcat(HitsOf(rows, start, window, n - 1), RowHits(row, start, window, |row.events|), index);
    }
  }

  // ----- The tally -----

  function Get(rates: map<int, real>, index: int): real {
    if index in rates then rates[index] else 0.0
  }

  /** `rates` holds exactly the increments, window by window and in total. */
  ghost predicate Tallies(rates: map<int, real>, hits: seq<Hit>) {
    && (forall index :: Get(rates, index) == SumAt(hits, index))
    && Total(rates) == SumHits(hits)
  }

  lemma TotalBump(rates: map<int, real>, index: int, x: real)
    ensures Total(rates[index := Get(rates, index) + x]) == Total(rates) + x
  {
    var more := rates[index := Get(rates, index) + x];
    TotalRemove(more, index);
    if index in rates {
      TotalRemove(rates, index);
      assert more - {index} == rates - {index};
    } else {
      assert more - {index} == rates;
    }
  }

  lemma TalliesSnoc(rates: map<int, real>, hits: seq<Hit>, hit: Hit)
    requires Tallies(rates, hits)
    ensures Tallies(rates[hit.index := Get(rates, hit.index) + hit.tokens], hits + [hit])
  {
    SumSnoc(hits, hit);
    TotalBump(rates, hit.index, hit.tokens);
  }

  /** The accumulation loops of `analyze`: each window holds the tokens that arrived in its stretch of time. */
  method Accumulate(rows: seq<Row>, start: real, window: real) returns (rates: map<int, real>)
    requires window > 0.0
    ensures Tallies(rates, HitsOf(rows, start, window, |rows|))
    ensures forall index :: Get(rates, index) == InWindow(rows, start, window, index)
    ensures Total(rates) == Tokens(rows, |rows|)
  {
    rates := map[];
    for r := 0 to |rows|
      invariant Tallies(rates, HitsOf(rows, start, window, r))
    {
      rates := AccumulateRow(rates, rows[r], start, window, HitsOf(rows, start, window, r));
    }
    HitsTelescope(rows, start, window, |rows|);
    forall index ensures Get(rates, index) == InWindow(rows, start, window, index) {
      var lo, hi := start + index as real * window, start + (index + 1) as real * window;
      HitsInWindow(rows, start, window, lo, hi, index, |rows|);
    }
  }

  method AccumulateRow(before: map<int, real>, row: Row, start: real, window: real,
          ghost hits: seq<Hit>) returns (rates: map<int, real>)
    requires window > 0.0 && Tallies(before, hits)
    ensures Tallies(rates, hits + RowHits(row, start, window, |row.events|))
  {
    rates := before;
    var previous := 0;
    assert hits + [] == hits;
    for i := 0 to |row.events|
      invariant previous == if i == 0 then 0 else row.events[i - 1].count
      invariant Tallies(rates, hits + RowHits(row, start, window, i))
    {
      var hit := Hit(IndexAt(row, row.events[i].offset, start, window), (row.events[i].count - previous) as real);
      TalliesSnoc(rates, hits + RowHits(row, start, window, i), hit);
      assert hits + RowHits(row, start, window, i + 1) == hits + RowHits(row, start, window, i) + [hit];
      rates := rates[hit.index := Get(rates, hit.index) + hit.tokens];
      previous := row.events[i].count;
    }
  }

  // ----- Exported windows -----

  datatype Export = Export(elapsed: real, tokensPerSecond: real)

  /** The window begins at or after the start and before the finish. */
  predicate Exported(index: int, length: real, window: real) {
    0 <= index && index as real * window < length
  }

  /** The duration a window's rate refers to. */
  function Duration(elapsed: real, length: real, window: real): real {
    if window <= length - elapsed then window else length - elapsed
  }

  /** Tokens recovered from exported rates. */
  function Recovered(exports: seq<Export>, length: real, window: real): real {
    if exports == [] then 0.0
    else
      var last := exports[|exports| - 1];
      Recovered(exports[..|exports| - 1], length, window) +
          last.tokensPerSecond * Duration(last.elapsed, length, window)
  }

  /** The tokens of the windows below `n` that are exported. */
  function SumExported(rates: map<int, real>, length: real, window: real, n: nat): real {
    if n == 0 then 0.0
    else
      var last := if Exported(n - 1, length, window) then Get(rates, n - 1) else 0.0;
      SumExported(rates, length, window, n - 1) + last
  }

  lemma RecoveredSnoc(exports: seq<Export>, length: real, window: real, row: Export, tokens: real)
    requires row.tokensPerSecond * Duration(row.elapsed, length, window) == tokens
    ensures Recovered(exports + [row], length, window) == Recovered(exports, length, window) + tokens
  {
    assert (exports + [row])[..|exports|] == exports;
  }

  lemma TimesBack(tokens: real, duration: real)
    requires duration > 0.0
    ensures tokens / duration * duration == tokens
  {
  }

  /** How many windows `range` runs over. */
  function WindowCount(length: real, window: real): nat
    requires window > 0.0
  {
    if (length / window).Floor + 1 > 0 then (length / window).Floor + 1 else 0
  }

  /** The export loop of `analyze`. */
  method ExportWindows(rates: map<int, real>, length: real, window: real) returns (exports: seq<Export>)
    requires window > 0.0
    ensures Recovered(exports, length, window) == SumExported(rates, length, window, WindowCount(length, window))
    ensures ExportsAre(exports, rates, length, window)
  {
    exports := [];
    var index, last := 0, WindowCount(length, window);
    while index < last
      invariant 0 <= index <= last
      invariant ExportsBelow(exports, rates, length, window, index)
      invariant Recovered(exports, length, window) == SumExported(rates, length, window, index)
    {
      exports := ExportWindow(exports, rates, length, window, index);
      index := index + 1;
    }
    AllExports(exports, rates, length, window, last);
  }

  lemma AllExports(exports: seq<Export>, rates: map<int, real>, length: real, window: real, last: nat)
    requires window > 0.0 && last >= (length / window).Floor + 1 && ExportsBelow(exports, rates, length, window, last)
    ensures ExportsAre(exports, rates, length, window)
  {
    forall n: nat ensures n < |exports| <==> Exported(n, length, window) {
      if Exported(n, length, window) { ExportedBelow(n, length, window); }
    }
  }

  /** Export `n` is about the stretch from `n` windows after the start to the next window or the finish. */
  ghost predicate ExportIs(row: Export, rates: map<int, real>, length: real, window: real, n: nat) {
    && row.elapsed == n as real * window
    && (length - row.elapsed >= window ==> row.tokensPerSecond * window == Get(rates, n))
    && (length - row.elapsed < window ==> row.tokensPerSecond * (length - row.elapsed) == Get(rates, n))
  }

  /** There is an export for each window that begins before the finish, in order. */
  ghost predicate ExportsAre(exports: seq<Export>, rates: map<int, real>, length: real, window: real) {
    && (forall n: nat :: n < |exports| <==> Exported(n, length, window))
    && forall n :: 0 <= n < |exports| ==> ExportIs(exports[n], rates, length, window, n)
  }

  ghost predicate ExportsBelow(exports: seq<Export>, rates: map<int, real>, length: real, window: real, index: nat) {
    && |exports| <= index
    && (forall n :: 0 <= n < index ==> (n < |exports| <==> Exported(n, length, window)))
    && forall n :: 0 <= n < |exports| ==> ExportIs(exports[n], rates, length, window, n)
  }

  /** The loop body: a window without a positive duration is skipped. */
  method ExportWindow(before: seq<Export>, rates: map<int, real>, length: real, window: real, index: nat)
    returns (exports: seq<Export>)
    requires window > 0.0 && ExportsBelow(before, rates, length, window, index)
    ensures ExportsBelow(exports, rates, length, window, index + 1)
    ensures Recovered(exports, length, window)
         == Recovered(before, length, window) + (if Exported(index, length, window) then Get(rates, index) else 0.0)
  {
    var elapsed := index as real * window;
    var duration := Duration(elapsed, length, window);
    exports := before;
    if duration > 0.0 {
      var row := Export(elapsed, Get(rates, index) / duration);
      TimesBack(Get(rates, index), duration);
      RecoveredSnoc(before, length, window, row, Get(rates, index));
      ExportAdded(before, rates, length, window, index, row);
      exports := before + [row];
    }
  }

  lemma ExportAdded(before: seq<Export>, rates: map<int, real>, length: real, window: real, index: nat, row: Export)
    requires window > 0.0 && ExportsBelow(before, rates, length, window, index) && Exported(index, length, window)
    requires row.elapsed == index as real * window
    requires row.tokensPerSecond * Duration(row.elapsed, length, window) == Get(rates, index)
    ensures ExportsBelow(before + [row], rates, length, window, index + 1)
  {
    EarlierExported(before, rates, length, window, index);
    assert ExportIs(row, rates, length, window, index);
  }

  /** Before an exported window all are. */
  lemma EarlierExported(exports: seq<Export>, rates: map<int, real>, length: real, window: real, index: nat)
    requires window > 0.0 && ExportsBelow(exports, rates, length, window, index)
    ensures Exported(index, length, window) ==> |exports| == index
  {
    var n := |exports|;
    if n < index {
      Scale(n as real, index as real, window);
      var earlier := Exported(n, length, window);
    }
  }

  /** No exported window lies beyond the loop. */
  lemma ExportedBelow(index: int, length: real, window: real)
    requires window > 0.0 && Exported(index, length, window)
    ensures index < (length / window).Floor + 1
  {
    var q := length / window;
    assert q * window == length;
    if index as real >= q { Scale(q, index as real, window); }
  }

  /** Increments in exported windows below `n`. */
  function ShownBelow(hits: seq<Hit>, length: real, window: real, n: nat): real {
    if hits == [] then 0.0
    else
      var last := hits[|hits| - 1];
      ShownBelow(hits[..|hits| - 1], length, window, n)
        + (if last.index < n && Exported(last.index, length, window) then last.tokens else 0.0)
  }

  lemma {:induction false} ShownStep(hits: seq<Hit>, length: real, window: real, n: nat)
    ensures ShownBelow(hits, length, window, n + 1)
         == ShownBelow(hits, length, window, n) + (if Exported(n, length, window) then SumAt(hits, n) else 0.0)
  {
    if hits != [] { ShownStep(hits[..|hits| - 1], length, window, n); }
  }

  lemma {:induction false} ShownNone(hits: seq<Hit>, length: real, window: real)
    ensures ShownBelow(hits, length, window, 0) == 0.0
  {
    if hits != [] { ShownNone(hits[..|hits| - 1], length, window); }
  }

  /** What is exported is exactly the increments in exported windows. */
  lemma {:induction false} ExportedAreShown(rates: map<int, real>, hits: seq<Hit>, length: real, window: real, n: nat)
    requires Tallies(rates, hits)
    ensures SumExported(rates, length, window, n) == ShownBelow(hits, length, window, n)
  {
    if n == 0 {
      ShownNone(hits, length, window);
    } else {
      ExportedAreShown(rates, hits, length, window, n - 1);
      ShownStep(hits, length, window, n - 1);
    }
  }

  ghost predicate AllExported(hits: seq<Hit>, length: real, window: real) {
    forall i :: 0 <= i < |hits| ==> Exported(hits[i].index, length, window)
  }

  /** With positive increments, nothing is missing exactly if every increment is in an exported window. */
  lemma {:induction false} ShownAll(hits: seq<Hit>, length: real, window: real, n: nat)
    requires window > 0.0 && n >= (length / window).Floor + 1
    requires forall i :: 0 <= i < |hits| ==> hits[i].tokens > 0.0
    ensures ShownBelow(hits, length, window, n) <= SumHits(hits)
    ensures ShownBelow(hits, length, window, n) == SumHits(hits) <==> AllExported(hits, length, window)
  {
    if hits != [] {
      var k := |hits| - 1;
      ShownAll(hits[..k], length, window, n);
      if Exported(hits[k].index, length, window) { ExportedBelow(hits[k].index, length, window); }
      assert AllExported(hits, length, window) <==>
          AllExported(hits[..k], length, window) && Exported(hits[k].index, length, window);
    }
  }

  // ----- Recorder and analyser together -----

  lemma {:induction false} RowHitsPositive(row: Row, start: real, window: real, n: nat)
    requires window > 0.0 && n <= |row.events| && Rising(row.events)
    ensures |RowHits(row, start, window, n)| == n
    ensures forall i :: 0 <= i < n ==> RowHits(row, start, window, n)[i].tokens > 0.0
    ensures forall i :: 0 <= i < n ==>
      RowHits(row, start, window, n)[i].index == IndexAt(row, row.events[i].offset, start, window)
  {
    if n > 0 {
      RowHitsPositive(row, start, window, n - 1);
      if n > 1 { assert row.events[n - 2].count < row.events[n - 1].count; }
    }
  }

  /** Every arrival of the first `n` rows falls into an exported window. */
  ghost predicate Inside(rows: seq<Row>, start: real, length: real, window: real, n: nat)
    requires window > 0.0 && n <= |rows|
  {
    forall r, i :: 0 <= r < n && 0 <= i < |rows[r].events| ==>
      Exported(IndexAt(rows[r], rows[r].events[i].offset, start, window), length, window)
  }

  lemma {:induction false} HitsPositive(rows: seq<Row>, start: real, length: real, window: real, n: nat)
    requires window > 0.0 && n <= |rows| && forall r :: 0 <= r < |rows| ==> Rising(rows[r].events)
    ensures var hits := HitsOf(rows, start, window, n);
      && (forall i :: 0 <= i < |hits| ==> hits[i].tokens > 0.0)
      && (AllExported(hits, length, window) <==> Inside(rows, start, length, window, n))
  {
    if n > 0 {
      var row := rows[n - 1];
      var before, now := HitsOf(rows, start, window, n - 1), RowHits(row, start, window, |row.events|);
      HitsPositive(rows, start, length, window, n - 1);
      RowHitsPositive(row, start, window, |row.events|);
      ExportedConcat(before, now, length, window);
    }
  }

  lemma ExportedConcat(a: seq<Hit>, b: seq<Hit>, length: real, window: real)
    ensures AllExported(a + b, length, window) <==> AllExported(a, length, window) && AllExported(b, length, window)
  {
    if AllExported(a + b, length, window) {
      assert forall i :: 0 <= i < |a| ==> a[i] == (a + b)[i];
      assert forall i :: 0 <= i < |b| ==> b[i] == (a + b)[|a| + i];
    }
  }

  /** `analyze` on rows as `generate` leaves them: all window counts add up to the tokens of all rows,
      and the exported rates recover that total exactly if every arrival is in an exported window. */
  method Analyze(rows: seq<Row>, start: real, finish: real, window: real) returns (rates: map<int, real>,
          exports: seq<Export>)
    requires window > 0.0
    ensures Total(rates) == Tokens(rows, |rows|)
    ensures forall index :: Get(rates, index) == InWindow(rows, start, window, index)
    ensures ExportsAre(exports, rates, finish - start, window)
    ensures (forall r :: 0 <= r < |rows| ==> Rising(rows[r].events)) ==>
      (Recovered(exports, finish - start, window) == Tokens(rows, |rows|) <==>
          Inside(rows, start, finish - start, window, |rows|))
  {
    rates := Accumulate(rows, start, window);
    exports := ExportWindows(rates, finish - start, window);
    if forall r :: 0 <= r < |rows| ==> Rising(rows[r].events) {
      RecoveredExactly(rows, rates, start, finish - start, window, WindowCount(finish - start, window));
    }
  }

  lemma RecoveredExactly(rows: seq<Row>, rates: map<int, real>, start: real, length: real, window: real, n: nat)
    requires window > 0.0 && n >= (length / window).Floor + 1
    requires Tallies(rates, HitsOf(rows, start, window, |rows|))
    requires forall r :: 0 <= r < |rows| ==> Rising(rows[r].events)
    ensures SumExported(rates, length, window, n) == Tokens(rows, |rows|) <==>
      Inside(rows, start, length, window, |rows|)
  {
    var hits := HitsOf(rows, start, window, |rows|);
    HitsPositive(rows, start, length, window, |rows|);
    ExportedAreShown(rates, hits, length, window, n);
    ShownAll(hits, length, window, n);
    HitsTelescope(rows, start, window, |rows|);
  }

  /** An arrival from the start on and before the finish is in an exported window. */
  lemma InRangeExported(row: Row, offset: real, start: real, finish: real, window: real)
    requires window > 0.0 && start <= row.submitted + offset < finish
    ensures Exported(IndexAt(row, offset, start, window), finish - start, window)
  {
    var t := row.submitted + offset - start;
    var q := t / window;
    assert q * window == t;
    if q < 0.0 { Scale(q, 0.0, window); }
    Scale(q.Floor as real, q, window);
  }
}
