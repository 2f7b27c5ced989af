/** The recursive passes over the span forest, which mutate the spans they visit. */
module SpanPasses {
  import opened SpanForest

  ghost predicate IsChildTable(spans: Trace, child: seq<seq<nat>>) {
    |child| == |spans| && forall p :: 0 <= p < |spans| ==> child[p] == Children(spans, p)
  }

  lemma VisitedPrefix(spans: Trace, nodes: seq<nat>, k: nat, d: nat)
    requires AllAtDepth(spans, nodes, d) && k < |nodes|
    ensures AllAtDepth(spans, nodes[..k + 1], d)
    ensures VisitedAll(spans, nodes[..k + 1], d) == VisitedAll(spans, nodes[..k], d) + Visited(spans, nodes[k], d)
  {
    assert nodes[..k + 1][..k] == nodes[..k];
  }

  /** `__convert_to_perfetto_span`: stamp the process id and move the end 1000 ns earlier,
      here and in all children.  The end moves once per visit. */
  method ConvertSpan(spans: Trace, child: seq<seq<nat>>, i: nat, ghost d: nat, pid: int, pids: array<int>,
          ends: array<int>)
    requires IsChildTable(spans, child) && AtDepth(spans, i, d)
    requires pids != ends && pids.Length == |spans| && ends.Length == |spans|
    modifies pids, ends
    ensures forall j :: 0 <= j < |spans| ==> pids[j] == if j in Visited(spans, i, d) then pid else old(pids[j])
    ensures forall j :: 0 <= j < |spans| ==> ends[j] == old(ends[j]) - 1000 * multiset(Visited(spans, i, d))[j]
    decreases |spans| - d, 1, 0
  {
    DepthBounded(spans, i, d);
    ChildrenDepth(spans, i, d);
    pids[i] := pid;
    ends[i] := ends[i] - 1000;
    ConvertChildren(spans, child, child[i], d + 1, pid, pids, ends);
  }

  /** The loop over a span's children. */
  method ConvertChildren(spans: Trace, child: seq<seq<nat>>, nodes: seq<nat>, ghost d: nat, pid: int,
          pids: array<int>, ends: array<int>)
    requires IsChildTable(spans, child) && AllAtDepth(spans, nodes, d)
    requires pids != ends && pids.Length == |spans| && ends.Length == |spans|
    modifies pids, ends
    ensures forall j :: 0 <= j < |spans| ==> pids[j] == if j in VisitedAll(spans, nodes, d) then pid else old(pids[j])
    ensures forall j :: 0 <= j < |spans| ==> ends[j] == old(ends[j]) - 1000 * multiset(VisitedAll(spans, nodes, d))[j]
    decreases |spans| - d, 2, |nodes|
  {
    for k := 0 to |nodes|
      invariant forall j :: 0 <= j < |spans| ==>
        pids[j] == if j in VisitedAll(spans, nodes[..k], d) then pid else old(pids[j])
      invariant forall j :: 0 <= j < |spans| ==>
        ends[j] == old(ends[j]) - 1000 * multiset(VisitedAll(spans, nodes[..k], d))[j]
    {
      VisitedPrefix(spans, nodes, k, d);
      ConvertSpan(spans, child, nodes[k], d, pid, pids, ends);
    }
    assert nodes[..|nodes|] == nodes;
  }

  /** `__set_span_tid`. */
  method SetSpanTid(spans: Trace, child: seq<seq<nat>>, i: nat, ghost d: nat, line: int, tids: array<int>)
    requires IsChildTable(spans, child) && AtDepth(spans, i, d) && tids.Length == |spans|
    modifies tids
    ensures forall j :: 0 <= j < |spans| ==> tids[j] == if j in Visited(spans, i, d) then line else old(tids[j])
    decreases |spans| - d, 1, 0
  {
    DepthBounded(spans, i, d);
    ChildrenDepth(spans, i, d);
    tids[i] := line;
    SetChildrenTid(spans, child, child[i], d + 1, line, tids);
  }

  /** The loop over a span's children. */
  method SetChildrenTid(spans: Trace, child: seq<seq<nat>>, nodes: seq<nat>, ghost d: nat, line: int, tids: array<int>)
    requires IsChildTable(spans, child) && AllAtDepth(spans, nodes, d) && tids.Length == |spans|
    modifies tids
    ensures forall j :: 0 <= j < |spans| ==> tids[j] == if j in VisitedAll(spans, nodes, d) then line else old(tids[j])
    decreases |spans| - d, 2, |nodes|
  {
    for k := 0 to |nodes|
      invariant forall j :: 0 <= j < |spans| ==>
        tids[j] == if j in VisitedAll(spans, nodes[..k], d) then line else old(tids[j])
    {
      VisitedPrefix(spans, nodes, k, d);
      SetSpanTid(spans, child, nodes[k], d, line, tids);
    }
    assert nodes[..|nodes|] == nodes;
  }

  /** `__gather_one_span`: the visited spans, in order. */
  method GatherOneSpan(spans: Trace, child: seq<seq<nat>>, i: nat, ghost d: nat) returns (elems: seq<nat>)
    requires IsChildTable(spans, child) && AtDepth(spans, i, d)
    ensures elems == Visited(spans, i, d)
    decreases |spans| - d, 1, 0
  {
    DepthBounded(spans, i, d);
    ChildrenDepth(spans, i, d);
    var more := GatherSpans(spans, child, child[i], d + 1);
    elems := [i] + more;
  }

  /** The gathering loop, over a span's children or over a root's spans. */
  method GatherSpans(spans: Trace, child: seq<seq<nat>>, nodes: seq<nat>, ghost d: nat) returns (elems: seq<nat>)
    requires IsChildTable(spans, child) && AllAtDepth(spans, nodes, d)
    ensures elems == VisitedAll(spans, nodes, d)
    decreases |spans| - d, 2, |nodes|
  {
    elems := [];
    for k := 0 to |nodes|
      invariant elems == VisitedAll(spans, nodes[..k], d)
    {
      VisitedPrefix(spans, nodes, k, d);
      var more := GatherOneSpan(spans, child, nodes[k], d);
      elems := elems + more;
    }
    assert nodes[..|nodes|] == nodes;
  }

  // ----- What the passes reach -----

  /** The children of the listed spans, in order. */
  function NextLevel(spans: Trace, nodes: seq<nat>): seq<nat> {
    if nodes == [] then [] else NextLevel(spans, nodes[..|nodes| - 1]) + Children(spans, nodes[|nodes| - 1])
  }

  /** The list holds every span at the depth, each once. */
  ghost predicate IsLevel(spans: Trace, nodes: seq<nat>, d: nat) {
    Distinct(nodes) && forall i: nat :: i in nodes <==> AtDepth(spans, i, d)
  }

  lemma {:induction false} NextLevelMembers(spans: Trace, nodes: seq<nat>)
    requires Distinct(nodes)
    ensures Distinct(NextLevel(spans, nodes))
    ensures forall i: nat :: i in NextLevel(spans, nodes) <==> i < |spans| && ParentOf(spans, i) in nodes
  {
    if nodes != [] {
      var init, last := nodes[..|nodes| - 1], nodes[|nodes| - 1];
      NextLevelMembers(spans, init);
      ChildListMembers(spans, last, |spans|);
      assert nodes == init + [last];
      assert last !in init;
      DistinctConcat(NextLevel(spans, init), Children(spans, last));
    }
  }

  lemma NextLevelIsLevel(spans: Trace, nodes: seq<nat>, d: nat)
    requires IsLevel(spans, nodes, d)
    ensures IsLevel(spans, NextLevel(spans, nodes), d + 1)
  {
    NextLevelMembers(spans, nodes);
    forall i: nat ensures i in NextLevel(spans, nodes) <==> AtDepth(spans, i, d + 1) {
      if i < |spans| && ParentOf(spans, i) >= 0 {
        var p: nat := ParentOf(spans, i);
        assert p in nodes <==> AtDepth(spans, p, d);
      }
    }
  }

  /** All spans two links below a root, in the order `generate_perfetto_span` meets them. */
  function TopSpans(spans: Trace): seq<nat> {
    NextLevel(spans, NextLevel(spans, Roots(spans)))
  }

  lemma TopSpansLevel(spans: Trace)
    ensures IsLevel(spans, TopSpans(spans), 2)
  {
    RootListMembers(spans, |spans|);
    assert IsLevel(spans, Roots(spans), 0);
    NextLevelIsLevel(spans, Roots(spans), 0);
    NextLevelIsLevel(spans, NextLevel(spans, Roots(spans)), 1);
  }

  lemma {:induction false} DepthUp(spans: Trace, j: nat, e: nat, k: nat)
    requires AtDepth(spans, j, e) && k <= e
    ensures AtDepth(spans, Up(spans, j, k), e - k)
  {
    if k > 0 { DepthUp(spans, j, e, k - 1); }
  }

  /** `j` is `d` or more links below a root. */
  ghost predicate Deep(spans: Trace, j: nat, d: nat) {
    exists e: nat :: e >= d && AtDepth(spans, j, e)
  }

  lemma UnderIsDeep(spans: Trace, order: seq<nat>, d: nat, j: nat)
    requires IsLevel(spans, order, d) && UnderSome(spans, j, order)
    ensures Deep(spans, j, d)
  {
    var n :| 0 <= n < |order| && Under(spans, j, order[n]);
    var k: nat :| Up(spans, j, k) == order[n];
    assert order[n] in order;
    UpDepth(spans, j, k, d);
  }

  lemma DeepIsUnder(spans: Trace, order: seq<nat>, d: nat, j: nat)
    requires IsLevel(spans, order, d) && Deep(spans, j, d)
    ensures UnderSome(spans, j, order)
  {
    var e: nat :| e >= d && AtDepth(spans, j, e);
    DepthUp(spans, j, e, e - d);
    var a: nat := Up(spans, j, e - d);
    assert a in order;
    var n :| 0 <= n < |order| && order[n] == a;
    assert Under(spans, j, order[n]);
  }

  lemma LevelAtDepth(spans: Trace, order: seq<nat>, d: nat)
    requires IsLevel(spans, order, d)
    ensures AllAtDepth(spans, order, d)
  {
    forall k | 0 <= k < |order| ensures AtDepth(spans, order[k], d) {
      assert order[k] in order;
    }
  }

  /** For every trace, cyclic, dangling or with repeated ids: gathering from all spans of a level,
      in any order, emits each span at least that deep exactly once, and nothing else. */
  lemma EmittedExactlyOnce(spans: Trace, order: seq<nat>, d: nat)
    requires IsLevel(spans, order, d)
    ensures AllAtDepth(spans, order, d)
    ensures Distinct(VisitedAll(spans, order, d))
    ensures forall j: nat :: j in VisitedAll(spans, order, d) <==> Deep(spans, j, d)
  {
    LevelAtDepth(spans, order, d);
    VisitedAllDistinct(spans, order, d);
    VisitedAllMembers(spans, order, d);
    forall j: nat ensures j in VisitedAll(spans, order, d) <==> Deep(spans, j, d) {
      if UnderSome(spans, j, order) { UnderIsDeep(spans, order, d, j); }
      if Deep(spans, j, d) { DeepIsUnder(spans, order, d, j); }
    }
  }
}
