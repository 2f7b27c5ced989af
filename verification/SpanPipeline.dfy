/** The passes over all top spans of a trace, in whatever order the roots are visited. */
module SpanPipeline {
  import opened SpanForest
  import opened SpanPasses

  /** Span `j` belongs to the `k`-th span of `order`. */
  ghost predicate Belongs(spans: Trace, order: seq<nat>, d: nat, j: nat, k: int)
    requires AllAtDepth(spans, order, d)
  {
    0 <= k < |order| && j in Visited(spans, order[k], d)
  }

  /** A span belongs to one top span only. */
  lemma BelongsOnce(spans: Trace, order: seq<nat>, d: nat, j: nat, k: int, l: int)
    requires IsLevel(spans, order, d) && AllAtDepth(spans, order, d)
    requires Belongs(spans, order, d, j, k) && Belongs(spans, order, d, j, l)
    ensures k == l
  {
    VisitedMembers(spans, order[k], d);
    VisitedMembers(spans, order[l], d);
    SameDepthDisjoint(spans, j, order[k], order[l], d);
  }

  /** The spans that belong to some top span are those at least as deep. */
  lemma BelongsIffDeep(spans: Trace, order: seq<nat>, d: nat, j: nat)
    requires IsLevel(spans, order, d) && AllAtDepth(spans, order, d)
    ensures (exists k :: Belongs(spans, order, d, j, k)) <==> Deep(spans, j, d)
  {
    if k :| Belongs(spans, order, d, j, k) {
      VisitedMembers(spans, order[k], d);
      assert UnderSome(spans, j, order);
      UnderIsDeep(spans, order, d, j);
    }
    if Deep(spans, j, d) {
      DeepIsUnder(spans, order, d, j);
      var k :| 0 <= k < |order| && Under(spans, j, order[k]);
      VisitedMembers(spans, order[k], d);
      assert Belongs(spans, order, d, j, k);
    }
  }

  /** `__set_span_tid` for every top span: each span below gets its top ancestor's lane, and no
      other span is touched. */
  method SetAllTids(spans: Trace, child: seq<seq<nat>>, order: seq<nat>, ghost d: nat, lines: seq<int>,
          tids: array<int>)
    requires IsChildTable(spans, child) && IsLevel(spans, order, d) && |lines| == |order| && tids.Length == |spans|
    modifies tids
    ensures AllAtDepth(spans, order, d)
    ensures forall j: nat, k :: j < |spans| && Belongs(spans, order, d, j, k) ==> tids[j] == lines[k]
    ensures forall j: nat :: j < |spans| && !Deep(spans, j, d) ==> tids[j] == old(tids[j])
  {
    LevelAtDepth(spans, order, d);
    for n := 0 to |order|
      invariant forall j: nat, k :: j < |spans| && k < n && Belongs(spans, order, d, j, k) ==> tids[j] == lines[k]
      invariant forall j: nat :: j < |spans| && !Deep(spans, j, d) ==> tids[j] == old(tids[j])
    {
      assert order[n] in order;
      SetSpanTid(spans, child, order[n], d, lines[n], tids);
      forall j: nat, k | j < |spans| && k <= n && Belongs(spans, order, d, j, k) ensures tids[j] == lines[k] {
        if Belongs(spans, order, d, j, n) { BelongsOnce(spans, order, d, j, k, n); }
      }
      forall j: nat | j < |spans| && !Deep(spans, j, d) ensures tids[j] == old(tids[j]) {
        BelongsIffDeep(spans, order, d, j);
        assert !Belongs(spans, order, d, j, n);
      }
    }
  }

  lemma {:induction false} OnceInMultiset(xs: seq<nat>, x: nat)
    requires Distinct(xs)
    ensures multiset(xs)[x] == if x in xs then 1 else 0
  {
    if xs != [] {
      var init, last := xs[..|xs| - 1], xs[|xs| - 1];
      assert xs == init + [last];
      assert last !in init;
      OnceInMultiset(init, x);
    }
  }

  /** `__convert_to_perfetto_span` for every top span: each span below gets the process id of its top
      ancestor's thread and its end moves 1000 ns earlier exactly once; no other span is touched. */
  method ConvertAll(spans: Trace, child: seq<seq<nat>>, order: seq<nat>, ghost d: nat, threadPid: seq<int>,
          pids: array<int>, ends: array<int>)
    requires IsChildTable(spans, child) && IsLevel(spans, order, d) && |threadPid| == |order|
    requires pids != ends && pids.Length == |spans| && ends.Length == |spans|
    modifies pids, ends
    ensures AllAtDepth(spans, order, d)
    ensures forall j: nat, k :: j < |spans| && Belongs(spans, order, d, j, k) ==> pids[j] == threadPid[k]
    ensures forall j: nat :: j < |spans| ==> ends[j] == old(ends[j]) - (if Deep(spans, j, d) then 1000 else 0)
    ensures forall j: nat :: j < |spans| && !Deep(spans, j, d) ==> pids[j] == old(pids[j])
  {
    LevelAtDepth(spans, order, d);
    for n := 0 to |order|
      invariant forall j: nat, k :: j < |spans| && k < n && Belongs(spans, order, d, j, k) ==> pids[j] == threadPid[k]
      invariant forall j: nat, k :: j < |spans| && k < n && Belongs(spans, order, d, j, k) ==>
        ends[j] == old(ends[j]) - 1000
      invariant forall j: nat, k :: j < |spans| && k >= n && Belongs(spans, order, d, j, k) ==> ends[j] == old(ends[j])
      invariant forall j: nat :: j < |spans| && !Deep(spans, j, d) ==>
        pids[j] == old(pids[j]) && ends[j] == old(ends[j])
    {
      VisitedDistinct(spans, order[n], d);
      ConvertSpan(spans, child, order[n], d, threadPid[n], pids, ends);
      forall j: nat | j < |spans|
        ensures multiset(Visited(spans, order[n], d))[j] == if Belongs(spans, order, d, j, n) then 1 else 0
      {
        OnceInMultiset(Visited(spans, order[n], d), j);
      }
      forall j: nat, k | j < |spans| && Belongs(spans, order, d, j, k) && Belongs(spans, order, d, j, n)
        ensures k == n
      {
        BelongsOnce(spans, order, d, j, k, n);
      }
      forall j: nat | j < |spans| && !Deep(spans, j, d) ensures !Belongs(spans, order, d, j, n) {
        BelongsIffDeep(spans, order, d, j);
      }
    }
    forall j: nat | j < |spans| ensures ends[j] == old(ends[j]) - (if Deep(spans, j, d) then 1000 else 0) {
      BelongsIffDeep(spans, order, d, j);
    }
  }
}
