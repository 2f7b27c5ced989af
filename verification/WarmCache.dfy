/** Inter-token latencies of one streamed response: the gap between two counted chunks is spread
    evenly over the tokens that arrived with the second. */
module WarmCache {
  /** A line of the response: a chunk with text, or anything the loop passes over. */
  datatype Chunk = Skipped | Text(time: real, count: int)

  function Texts(chunks: seq<Chunk>): (ts: seq<Chunk>)
    ensures forall i :: 0 <= i < |ts| ==> ts[i].Text?
  {
    if chunks == [] then []
    else
      var before := Texts(chunks[..|chunks| - 1]);
      if chunks[|chunks| - 1].Text? then before + [chunks[|chunks| - 1]] else before
  }

  /** Where the latencies start: the first text chunk whose time differs from the start time, since
      a time to first token of zero counts as not yet known. */
  function Base(ts: seq<Chunk>, st: real): (b: nat)
    requires AllText(ts)
    ensures b <= |ts| && (forall i :: 0 <= i < b ==> ts[i].time == st) && (b < |ts| ==> ts[b].time != st)
  {
    if ts == [] || ts[0].time != st then 0 else 1 + Base(ts[1..], st)
  }

  predicate AllText(ts: seq<Chunk>) {
    forall i :: 0 <= i < |ts| ==> ts[i].Text?
  }

  /** The last of the first `n` chunks whose count differs from the one before, or the base. */
  function LastCounted(ts: seq<Chunk>, b: nat, n: nat): (k: nat)
    requires AllText(ts) && b < n <= |ts|
    ensures b <= k < n
  {
    if n == b + 1 || ts[n - 1].count != ts[n - 2].count then n - 1 else LastCounted(ts, b, n - 1)
  }

  lemma {:induction false} LastCountedIs(ts: seq<Chunk>, b: nat, n: nat)
    requires AllText(ts) && b < n <= |ts|
    ensures var k := LastCounted(ts, b, n);
      && (forall i :: k <= i < n ==> ts[i].count == ts[k].count)
      && (k > b ==> ts[k].count != ts[k - 1].count)
  {
    if n > b + 1 && ts[n - 1].count == ts[n - 2].count { LastCountedIs(ts, b, n - 1); }
  }

  /** `[gap / added] * added`, empty if nothing was added or the count fell. */
  function Shares(gap: real, added: int): (r: seq<real>)
    ensures |r| == if added > 0 then added else 0
  {
    if added > 0 then seq(added, _ => gap / added as real) else []
  }

  /** The tokens that came with chunk `i`, and the time since the last counted chunk before it. */
  function Added(ts: seq<Chunk>, i: nat): int
    requires AllText(ts) && 0 < i < |ts|
  {
    ts[i].count - ts[i - 1].count
  }

  function Gap(ts: seq<Chunk>, b: nat, i: nat): real
    requires AllText(ts) && b < i < |ts|
  {
    ts[i].time - ts[LastCounted(ts, b, i)].time
  }

  /** The latencies of chunk `i`. */
  function Part(ts: seq<Chunk>, b: nat, i: nat): seq<real>
    requires AllText(ts) && b < i < |ts|
  {
    Shares(Gap(ts, b, i), Added(ts, i))
  }

  function Latencies(ts: seq<Chunk>, b: nat, n: nat): seq<real>
    requires AllText(ts) && b < n <= |ts|
  {
    if n == b + 1 then [] else Latencies(ts, b, n - 1) + Part(ts, b, n - 1)
  }

  /** The loop's variables after the first `n` text chunks. */
  ghost predicate After(ts: seq<Chunk>, st: real, n: nat, ttft: real, recent: real, last: int, itl: seq<real>)
    requires AllText(ts) && n <= |ts|
  {
    var b := Base(ts, st);
    if n <= b then ttft == 0.0 && itl == []
    else
      && ttft == ts[b].time - st && last == ts[n - 1].count
      && recent == ts[LastCounted(ts, b, n)].time && itl == Latencies(ts, b, n)
  }

  /** The loop body on a chunk with text. */
  method Feed(ghost ts: seq<Chunk>, st: real, ghost n: nat, ttft: real, recent: real, last: int, itl: seq<real>,
          t: Chunk)
    returns (ttft': real, recent': real, last': int, itl': seq<real>)
    requires AllText(ts) && n < |ts| && t == ts[n] && After(ts, st, n, ttft, recent, last, itl)
    ensures After(ts, st, n + 1, ttft', recent', last', itl')
  {
    ttft', itl' := ttft, itl;
    if ttft == 0.0 {
      ttft' := t.time - st;
    } else {
      var added := t.count - last;
      if added == 0 {
        assert Latencies(ts, Base(ts, st), n + 1) == itl + [];
        return ttft, recent, last, itl;
      }
      itl' := itl + Shares(t.time - recent, added);
    }
    recent', last' := t.time, t.count;
  }

  lemma {:induction false} TextsPrefix(chunks: seq<Chunk>, i: nat)
    requires i <= |chunks|
    ensures Texts(chunks[..i]) <= Texts(chunks)
    ensures i < |chunks| && chunks[i].Text? ==> Texts(chunks[..i]) + [chunks[i]] <= Texts(chunks)
    decreases |chunks|
  {
    if i == |chunks| {
      assert chunks[..i] == chunks;
    } else {
      var k := |chunks| - 1;
      TextsPrefix(chunks[..k], i);
      assert chunks[..k][..i] == chunks[..i];
      if i == k { assert chunks[..k] == chunks[..i]; }
    }
  }

  lemma TextsStep(chunks: seq<Chunk>, i: nat)
    requires i < |chunks|
    ensures Texts(chunks[..i + 1]) == if chunks[i].Text? then Texts(chunks[..i]) + [chunks[i]] else Texts(chunks[..i])
  {
    assert chunks[..i + 1][..i] == chunks[..i];
  }

  /** One turn of the loop over all chunks; `n` chunks with text came before. */
  method Read(chunk: Chunk, ghost ts: seq<Chunk>, st: real, ghost n: nat, ttft: real, recent: real, last: int,
          itl: seq<real>)
    returns (ttft': real, recent': real, last': int, itl': seq<real>)
    requires AllText(ts) && n <= |ts| && After(ts, st, n, ttft, recent, last, itl)
    requires chunk.Text? ==> n < |ts| && chunk == ts[n]
    ensures After(ts, st, if chunk.Text? then n + 1 else n, ttft', recent', last', itl')
  {
    if chunk.Text? {
      ttft', recent', last', itl' := Feed(ts, st, n, ttft, recent, last, itl, chunk);
    } else {
      ttft', recent', last', itl' := ttft, recent, last, itl;
    }
  }

  /** How the chunks with text are counted. */
  lemma TextsAt(chunks: seq<Chunk>, i: nat)
    requires i < |chunks|
    ensures var ts, n := Texts(chunks), |Texts(chunks[..i])|;
      && n <= |ts| && (chunks[i].Text? ==> n < |ts| && chunks[i] == ts[n])
      && |Texts(chunks[..i + 1])| == if chunks[i].Text? then n + 1 else n
  {
    TextsPrefix(chunks, i);
    TextsStep(chunks, i);
  }

  /** The streaming loop of `async_request_sglang_generate`. */
  method Stream(chunks: seq<Chunk>, st: real) returns (ttft: real, itl: seq<real>)
    ensures var ts := Texts(chunks);
      var b := Base(ts, st);
      && (b == |ts| ==> ttft == 0.0 && itl == [])
      && (b < |ts| ==> ttft == ts[b].time - st && itl == Latencies(ts, b, |ts|) && Telescopes(ts, st, itl))
  {
    ttft, itl := 0.0, [];
    var recent, last := st, 0;
    ghost var ts, n := Texts(chunks), 0;
    for i := 0 to |chunks|
      invariant n == |Texts(chunks[..i])| <= |ts| && After(ts, st, n, ttft, recent, last, itl)
    {
      TextsAt(chunks, i);
      ttft, recent, last, itl := Read(chunks[i], ts, st, n, ttft, recent, last, itl);
      n := if chunks[i].Text? then n + 1 else n;
      TextsCount(chunks, i + 1);
    }
    assert chunks[..|chunks|] == chunks;
    AfterAll(ts, st, ttft, recent, last, itl);
  }

  lemma TextsCount(chunks: seq<Chunk>, i: nat)
    requires i <= |chunks|
    ensures |Texts(chunks[..i])| <= |Texts(chunks)|
  {
    TextsPrefix(chunks, i);
  }

  lemma AfterAll(ts: seq<Chunk>, st: real, ttft: real, recent: real, last: int, itl: seq<real>)
    requires AllText(ts) && After(ts, st, |ts|, ttft, recent, last, itl)
    ensures var b := Base(ts, st);
      && (b == |ts| ==> ttft == 0.0 && itl == [])
      && (b < |ts| ==> ttft == ts[b].time - st && itl == Latencies(ts, b, |ts|) && Telescopes(ts, st, itl))
  {
    if Base(ts, st) < |ts| { StreamTelescopes(ts, st); }
  }

  // ----- Telescoping -----

  function Sum(xs: seq<real>): real {
    if xs == [] then 0.0 else xs[0] + Sum(xs[1..])
  }

  lemma {:induction false} SumConcat(a: seq<real>, b: seq<real>)
    ensures Sum(a + b) == Sum(a) + Sum(b)
  {
    if a == [] {
      assert a + b == b;
    } else {
      assert (a + b)[1..] == a[1..] + b;
      SumConcat(a[1..], b);
    }
  }

  lemma {:induction false} SumSame(xs: seq<real>, x: real)
    requires forall i :: 0 <= i < |xs| ==> xs[i] == x
    ensures Sum(xs) == |xs| as real * x
  {
    if xs != [] { SumSame(xs[1..], x); }
  }

  /** Counts never fall from the base on. */
  ghost predicate NonDecreasing(ts: seq<Chunk>, b: nat, n: nat)
    requires AllText(ts) && n <= |ts|
  {
    forall i, j :: b <= i < j < n ==> ts[i].count <= ts[j].count
  }

  function Positive(x: int): nat {
    if x > 0 then x else 0
  }

  /** Tokens by which the counts rise, and the time from the last counted chunk that each rise
      takes. */
  function Risen(ts: seq<Chunk>, b: nat, n: nat): nat
    requires AllText(ts) && b < n <= |ts|
  {
    if n == b + 1 then 0 else Risen(ts, b, n - 1) + Positive(Added(ts, n - 1))
  }

  function Covered(ts: seq<Chunk>, b: nat, n: nat): real
    requires AllText(ts) && b < n <= |ts|
  {
    if n == b + 1 then 0.0
    else Covered(ts, b, n - 1) + (if Added(ts, n - 1) > 0 then Gap(ts, b, n - 1) else 0.0)
  }

  lemma SharesAre(gap: real, added: int)
    ensures Sum(Shares(gap, added)) == if added > 0 then gap else 0.0
  {
    if added > 0 { SumSame(Shares(gap, added), gap / added as real); }
  }

  lemma PartIs(ts: seq<Chunk>, b: nat, i: nat)
    requires AllText(ts) && b < i < |ts|
    ensures |Part(ts, b, i)| == Positive(Added(ts, i))
    ensures Sum(Part(ts, b, i)) == if Added(ts, i) > 0 then Gap(ts, b, i) else 0.0
  {
    SharesAre(Gap(ts, b, i), Added(ts, i));
  }

  lemma Joined(before: seq<real>, part: seq<real>, n: nat, sum: real, m: nat, more: real)
    requires |before| == n && Sum(before) == sum && |part| == m && Sum(part) == more
    ensures |before + part| == n + m && Sum(before + part) == sum + more
  {
    SumConcat(before, part);
  }

  lemma LatenciesNext(ts: seq<Chunk>, b: nat, i: nat, before: seq<real>)
    requires AllText(ts) && b < i < |ts| && before == Latencies(ts, b, i)
    requires |before| == Risen(ts, b, i) && Sum(before) == Covered(ts, b, i)
    ensures var all := before + Part(ts, b, i);
      |all| == Risen(ts, b, i + 1) && Sum(all) == Covered(ts, b, i + 1)
  {
    PartIs(ts, b, i);
    var more := if Added(ts, i) > 0 then Gap(ts, b, i) else 0.0;
    Joined(before, Part(ts, b, i), Risen(ts, b, i), Covered(ts, b, i), Positive(Added(ts, i)), more);
  }

  lemma {:induction false} LatenciesAre(ts: seq<Chunk>, b: nat, n: nat)
    requires AllText(ts) && b < n <= |ts|
    ensures |Latencies(ts, b, n)| == Risen(ts, b, n) && Sum(Latencies(ts, b, n)) == Covered(ts, b, n)
  {
    if n > b + 1 {
      LatenciesAre(ts, b, n - 1);
      LatenciesNext(ts, b, n - 1, Latencies(ts, b, n - 1));
    }
  }

  lemma {:induction false} LatenciesPrefix(ts: seq<Chunk>, b: nat, i: nat, n: nat)
    requires AllText(ts) && b < i <= n <= |ts|
    ensures Latencies(ts, b, i) <= Latencies(ts, b, n)
  {
    if i < n { LatenciesPrefix(ts, b, i, n - 1); }
  }

  lemma PartAt(whole: seq<real>, before: seq<real>, part: seq<real>, m: nat)
    requires before + part <= whole && m < |part|
    ensures |before| + m < |whole| && whole[|before| + m] == part[m]
  {
    assert whole[|before| + m] == (before + part)[|before| + m];
  }

  lemma LatencyPart(ts: seq<Chunk>, b: nat, n: nat, i: nat, m: nat)
    requires AllText(ts) && b < i < n <= |ts| && m < |Part(ts, b, i)|
    ensures Risen(ts, b, i) + m < |Latencies(ts, b, n)|
    ensures Latencies(ts, b, n)[Risen(ts, b, i) + m] == Part(ts, b, i)[m]
  {
    LatenciesPrefix(ts, b, i + 1, n);
    LatenciesAre(ts, b, i);
    PartAt(Latencies(ts, b, n), Latencies(ts, b, i), Part(ts, b, i), m);
  }

  /** The number, taken once for each token, makes up the gap. */
  predicate ShareOf(x: real, gap: real, added: int) {
    x * added as real == gap
  }

  lemma ShareAt(gap: real, added: int, m: nat)
    requires m < added
    ensures ShareOf(Shares(gap, added)[m], gap, added)
  {
  }

  /** Each latency by itself: the time since the last counted chunk before chunk `i` is shared equally by
      the tokens that came with it, and these stand behind the latencies of the chunks before. */
  lemma LatencyAt(ts: seq<Chunk>, b: nat, n: nat, i: nat, m: nat)
    requires AllText(ts) && b < i < n <= |ts| && m < ts[i].count - ts[i - 1].count
    ensures Risen(ts, b, i) + m < |Latencies(ts, b, n)|
    ensures ShareOf(Latencies(ts, b, n)[Risen(ts, b, i) + m], ts[i].time - ts[LastCounted(ts, b, i)].time,
                    ts[i].count - ts[i - 1].count)
  {
    PartIs(ts, b, i);
    LatencyPart(ts, b, n, i, m);
    ShareAt(Gap(ts, b, i), Added(ts, i), m);
  }

  lemma NonDecreasingStep(ts: seq<Chunk>, b: nat, n: nat)
    requires AllText(ts) && b + 1 < n <= |ts|
    ensures NonDecreasing(ts, b, n) <==> NonDecreasing(ts, b, n - 1) && ts[n - 2].count <= ts[n - 1].count
  {
  }

  lemma {:induction false} RisenExact(ts: seq<Chunk>, b: nat, n: nat)
    requires AllText(ts) && b < n <= |ts|
    ensures Risen(ts, b, n) >= ts[n - 1].count - ts[b].count
    ensures Risen(ts, b, n) == ts[n - 1].count - ts[b].count <==> NonDecreasing(ts, b, n)
  {
    if n > b + 1 {
      RisenExact(ts, b, n - 1);
      NonDecreasingStep(ts, b, n);
    }
  }

  /** The number of latencies is the last count minus the base count exactly if counts never fall;
      otherwise there are more. */
  lemma LengthExact(ts: seq<Chunk>, b: nat, n: nat)
    requires AllText(ts) && b < n <= |ts|
    ensures |Latencies(ts, b, n)| >= ts[n - 1].count - ts[b].count
    ensures |Latencies(ts, b, n)| == ts[n - 1].count - ts[b].count <==> NonDecreasing(ts, b, n)
  {
    LatenciesAre(ts, b, n);
    RisenExact(ts, b, n);
  }

  lemma {:induction false} CoveredTelescopes(ts: seq<Chunk>, b: nat, n: nat)
    requires AllText(ts) && b < n <= |ts| && NonDecreasing(ts, b, n)
    ensures Covered(ts, b, n) == ts[LastCounted(ts, b, n)].time - ts[b].time
  {
    if n > b + 1 { CoveredTelescopes(ts, b, n - 1); }
  }

  /** The latencies add up to the time from the base to the last counted chunk if counts never fall. */
  lemma SumTelescopes(ts: seq<Chunk>, b: nat, n: nat)
    requires AllText(ts) && b < n <= |ts| && NonDecreasing(ts, b, n)
    ensures Sum(Latencies(ts, b, n)) == ts[LastCounted(ts, b, n)].time - ts[b].time
  {
    LatenciesAre(ts, b, n);
    CoveredTelescopes(ts, b, n);
  }

  /** The clock moves forward from chunk to chunk. */
  ghost predicate Ticks(ts: seq<Chunk>, b: nat, n: nat)
    requires AllText(ts) && n <= |ts|
  {
    forall i :: b < i < n ==> ts[i - 1].time < ts[i].time
  }

  lemma {:induction false} Later(ts: seq<Chunk>, b: nat, j: nat, k: nat)
    requires AllText(ts) && b <= j < k < |ts| && Ticks(ts, b, k + 1)
    ensures ts[j].time < ts[k].time
  {
    if j + 1 < k { Later(ts, b, j, k - 1); }
  }

  lemma {:induction false} CoveredOnlyThen(ts: seq<Chunk>, b: nat, n: nat)
    requires AllText(ts) && b < n <= |ts| && Ticks(ts, b, n)
    ensures Covered(ts, b, n) <= ts[LastCounted(ts, b, n)].time - ts[b].time
    ensures Covered(ts, b, n) == ts[LastCounted(ts, b, n)].time - ts[b].time ==> NonDecreasing(ts, b, n)
  {
    if n > b + 1 {
      CoveredOnlyThen(ts, b, n - 1);
      OnlyThenStep(ts, b, n, LastCounted(ts, b, n - 1), LastCounted(ts, b, n));
      NonDecreasingStep(ts, b, n);
    }
  }

  /** What is left of the time to the last counted chunk does not shrink, and grows at a fall. */
  lemma OnlyThenStep(ts: seq<Chunk>, b: nat, n: nat, k: nat, k': nat)
    requires AllText(ts) && b + 1 < n <= |ts| && Ticks(ts, b, n)
    requires k == LastCounted(ts, b, n - 1) && k' == LastCounted(ts, b, n)
    ensures ts[k'].time - Covered(ts, b, n) >= ts[k].time - Covered(ts, b, n - 1)
    ensures ts[n - 1].count < ts[n - 2].count ==>
      ts[k'].time - Covered(ts, b, n) > ts[k].time - Covered(ts, b, n - 1)
  {
    Later(ts, b, k, n - 1);
  }

  /** With a clock that moves forward, only then: a fall in the counts loses its gap. */
  lemma SumOnlyThen(ts: seq<Chunk>, b: nat, n: nat)
    requires AllText(ts) && b < n <= |ts| && Ticks(ts, b, n)
    ensures Sum(Latencies(ts, b, n)) <= ts[LastCounted(ts, b, n)].time - ts[b].time
    ensures Sum(Latencies(ts, b, n)) == ts[LastCounted(ts, b, n)].time - ts[b].time ==> NonDecreasing(ts, b, n)
  {
    LatenciesAre(ts, b, n);
    CoveredOnlyThen(ts, b, n);
  }

  /** The laws against the first chunk with text, for counts that never fall from the base `b` on.
      The number of latencies is last minus first count exactly if the chunks before the base
      brought no tokens, and their sum runs from the first chunk exactly if it is the base. */
  lemma FirstChunkExact(ts: seq<Chunk>, st: real)
    requires AllText(ts) && Base(ts, st) < |ts| && NonDecreasing(ts, Base(ts, st), |ts|)
    ensures var b, n := Base(ts, st), |ts|;
      && |Latencies(ts, b, n)| == ts[n - 1].count - ts[b].count
      && Sum(Latencies(ts, b, n)) == ts[LastCounted(ts, b, n)].time - ts[b].time
      && (|Latencies(ts, b, n)| == ts[n - 1].count - ts[0].count <==> ts[b].count == ts[0].count)
      && (Sum(Latencies(ts, b, n)) == ts[LastCounted(ts, b, n)].time - ts[0].time <==> ts[0].time != st)
  {
    var b, n := Base(ts, st), |ts|;
    LengthExact(ts, b, n);
    SumTelescopes(ts, b, n);
    BaseIsFirst(ts, st, b);
    FirstOrBase(Sum(Latencies(ts, b, n)), ts[LastCounted(ts, b, n)].time, ts[b].time, ts[0].time);
  }

  lemma FirstOrBase(sum: real, last: real, base: real, first: real)
    requires sum == last - base
    ensures sum == last - first <==> base == first
  {
  }

  lemma BaseIsFirst(ts: seq<Chunk>, st: real, b: nat)
    requires AllText(ts) && b == Base(ts, st) < |ts|
    ensures ts[b].time == ts[0].time <==> ts[0].time != st
  {
  }

  /** The laws of a whole response with latencies `itl`. */
  ghost predicate Telescopes(ts: seq<Chunk>, st: real, itl: seq<real>)
    requires AllText(ts) && Base(ts, st) < |ts|
  {
    var b, n := Base(ts, st), |ts|;
    && (|itl| == ts[n - 1].count - ts[b].count <==> NonDecreasing(ts, b, n))
    && (NonDecreasing(ts, b, n) ==>
          && Sum(itl) == ts[LastCounted(ts, b, n)].time - ts[b].time
          && (|itl| == ts[n - 1].count - ts[0].count <==> ts[b].count == ts[0].count)
          && (Sum(itl) == ts[LastCounted(ts, b, n)].time - ts[0].time <==> ts[0].time != st))
  }

  /** Latencies telescope from the base, and from the first chunk exactly as stated. */
  lemma StreamTelescopes(ts: seq<Chunk>, st: real)
    requires AllText(ts) && Base(ts, st) < |ts|
    ensures Telescopes(ts, st, Latencies(ts, Base(ts, st), |ts|))
  {
    LengthExact(ts, Base(ts, st), |ts|);
    if NonDecreasing(ts, Base(ts, st), |ts|) { FirstChunkExact(ts, st); }
  }
}
