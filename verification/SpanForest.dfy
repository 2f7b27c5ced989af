/** The span tree of the trace converter.  Parent ids come from the trace and may dangle, repeat,
    or form cycles; the recursive passes still only ever see a forest hanging off the roots. */
module SpanForest {

  /** The fields of an engine span the converter reads.  A missing `parentSpanId` reads as "". */
  datatype OtelSpan = OtelSpan(spanId: string, parentSpanId: string, moduleName: string, pid: int, start: int, end: int)

  /** Spans are identified by their position, as Python identifies the dictionaries by reference. */
  type Trace = seq<OtelSpan>

  /** `span_id_map.get(id)` restricted to the first `n` spans: the last span wins; -1 if absent. */
  function Lookup(spans: Trace, id: string, n: nat): (i: int)
    requires n <= |spans|
    ensures -1 <= i < n
    ensures i >= 0 ==> spans[i].spanId == id
    ensures forall j :: i < j < n ==> spans[j].spanId != id
  {
    if n == 0 then -1
    else if spans[n - 1].spanId == id then n - 1
    else Lookup(spans, id, n - 1)
  }

  predicate IsRoot(spans: Trace, i: nat)
    requires i < |spans|
  {
    spans[i].moduleName == "sglang::request" || spans[i].moduleName == "sglang::mooncake"
  }

  /** The span whose child list `i` is appended to, or -1. */
  function ParentOf(spans: Trace, i: nat): (p: int)
    requires i < |spans|
    ensures -1 <= p < |spans|
  {
    if IsRoot(spans, i) then -1 else Lookup(spans, spans[i].parentSpanId, |spans|)
  }

  function RootList(spans: Trace, n: nat): seq<nat>
    requires n <= |spans|
  {
    if n == 0 then [] else RootList(spans, n - 1) + (if IsRoot(spans, n - 1) then [n - 1] else [])
  }

  function ChildList(spans: Trace, p: nat, n: nat): seq<nat>
    requires n <= |spans|
  {
    if n == 0 then [] else ChildList(spans, p, n - 1) + (if ParentOf(spans, n - 1) == p then [n - 1] else [])
  }

  predicate Distinct(s: seq<nat>) {
    forall i, j :: 0 <= i < j < |s| ==> s[i] != s[j]
  }

  lemma DistinctConcat(a: seq<nat>, b: seq<nat>)
    requires Distinct(a) && Distinct(b) && forall x :: x in a ==> x !in b
    ensures Distinct(a + b)
  {
    forall i, j | 0 <= i < j < |a + b| ensures (a + b)[i] != (a + b)[j] {
      if i < |a| <= j { assert a[i] in a && b[j - |a|] in b; }
    }
  }

  lemma {:induction false} RootListMembers(spans: Trace, n: nat)
    requires n <= |spans|
    ensures Distinct(RootList(spans, n))
    ensures forall i: nat :: i in RootList(spans, n) <==> i < n && IsRoot(spans, i)
  {
    if n > 0 { RootListMembers(spans, n - 1); }
  }

  lemma {:induction false} ChildListMembers(spans: Trace, p: nat, n: nat)
    requires n <= |spans|
    ensures Distinct(ChildList(spans, p, n))
    ensures forall i: nat :: i in ChildList(spans, p, n) <==> i < n && ParentOf(spans, i) == p
  {
    if n > 0 { ChildListMembers(spans, p, n - 1); }
  }

  function Children(spans: Trace, p: nat): seq<nat> {
    ChildList(spans, p, |spans|)
  }

  function Roots(spans: Trace): seq<nat> {
    RootList(spans, |spans|)
  }

  predicate Increasing(s: seq<nat>) {
    forall i, j :: 0 <= i < j < |s| ==> s[i] < s[j]
  }

  predicate RequestModule(name: string) {
    name in ["sglang::request", "sglang::mooncake"]
  }

  /** Span `i` is linked below span `p`: it is no root, names `p` as its parent, and no later span of
      the trace, before or after `i`, has that id too. */
  ghost predicate LinkedTo(spans: Trace, i: nat, p: nat) {
    && i < |spans| && p < |spans|
    && !RequestModule(spans[i].moduleName)
    && spans[p].spanId == spans[i].parentSpanId
    && forall j :: p < j < |spans| ==> spans[j].spanId != spans[i].parentSpanId
  }

  lemma ParentIs(spans: Trace, i: nat, p: nat)
    requires i < |spans|
    ensures ParentOf(spans, i) == p <==> LinkedTo(spans, i, p)
  {
  }

  lemma {:induction false} ChildListIncreases(spans: Trace, p: nat, n: nat)
    requires n <= |spans|
    ensures Increasing(ChildList(spans, p, n))
  {
    if n > 0 {
      ChildListIncreases(spans, p, n - 1);
      ChildListMembers(spans, p, n - 1);
      var before := ChildList(spans, p, n - 1);
      assert forall i :: 0 <= i < |before| ==> before[i] in before;
    }
  }

  lemma {:induction false} RootListIncreases(spans: Trace, n: nat)
    requires n <= |spans|
    ensures Increasing(RootList(spans, n))
  {
    if n > 0 {
      RootListIncreases(spans, n - 1);
      RootListMembers(spans, n - 1);
      var before := RootList(spans, n - 1);
      assert forall i :: 0 <= i < |before| ==> before[i] in before;
    }
  }

  lemma ChildrenAreLinked(spans: Trace, p: nat)
    ensures Increasing(Children(spans, p)) && Increasing(Roots(spans))
    ensures forall i: nat :: i in Children(spans, p) <==> LinkedTo(spans, i, p)
    ensures forall i: nat :: i in Roots(spans) <==> i < |spans| && RequestModule(spans[i].moduleName)
  {
    ChildListIncreases(spans, p, |spans|);
    RootListIncreases(spans, |spans|);
    ChildListMembers(spans, p, |spans|);
    RootListMembers(spans, |spans|);
    forall i: nat ensures i in Children(spans, p) <==> LinkedTo(spans, i, p) {
      if i < |spans| { ParentIs(spans, i, p); }
    }
  }

  /** `build_otel_span_tree`: the roots in order, and every span's child list in order.  A span is in
      the list of the last span of the whole trace that has the id it names as its parent. */
  method BuildSpanTree(spans: Trace) returns (roots: seq<nat>, child: seq<seq<nat>>)
    ensures roots == Roots(spans) && Increasing(roots)
    ensures forall i: nat :: i in roots <==> i < |spans| && RequestModule(spans[i].moduleName)
    ensures |child| == |spans| && forall p :: 0 <= p < |spans| ==> child[p] == Children(spans, p)
    ensures forall p :: 0 <= p < |spans| ==> Increasing(child[p])
    ensures forall i: nat, p: nat :: p < |spans| ==> (i in child[p] <==> LinkedTo(spans, i, p))
  {
    var spanIdMap: map<string, nat> := map[];
    for i := 0 to |spans|
      invariant forall id :: Lookup(spans, id, i) == if id in spanIdMap then spanIdMap[id] else -1
    {
      spanIdMap := spanIdMap[spans[i].spanId := i];
    }
    child := seq(|spans|, _ => []);
    roots := [];
    for i := 0 to |spans|
      invariant roots == RootList(spans, i)
      invariant |child| == |spans| && forall p :: 0 <= p < |spans| ==> child[p] == ChildList(spans, p, i)
    {
      var parent := spans[i].parentSpanId;
      if spans[i].moduleName == "sglang::request" || spans[i].moduleName == "sglang::mooncake" {
        roots := roots + [i];
      } else if parent in spanIdMap {
        assert Lookup(spans, parent, |spans|) == spanIdMap[parent];
        child := child[spanIdMap[parent] := child[spanIdMap[parent]] + [i]];
      }
    }
    ChildrenAreLinked(spans, 0);
    forall p: nat | p < |spans|
      ensures Increasing(child[p]) && forall i: nat :: i in child[p] <==> LinkedTo(spans, i, p)
    {
      ChildrenAreLinked(spans, p);
    }
  }

  // ----- Depth below a root -----

  /** `i` is `d` child links below a root. */
  predicate AtDepth(spans: Trace, i: int, d: nat)
    decreases d
  {
    && 0 <= i < |spans|
    && if d == 0 then IsRoot(spans, i) else AtDepth(spans, ParentOf(spans, i), d - 1)
  }

  lemma {:induction false} DepthUnique(spans: Trace, i: int, d: nat, e: nat)
    requires AtDepth(spans, i, d) && AtDepth(spans, i, e)
    ensures d == e
    decreases d
  {
    if d > 0 && e > 0 { DepthUnique(spans, ParentOf(spans, i), d - 1, e - 1); }
  }

  /** `i` and its ancestors up to the root. */
  ghost function Chain(spans: Trace, i: int, d: nat): (c: set<int>)
    requires AtDepth(spans, i, d)
    decreases d
  {
    if d == 0 then {i} else {i} + Chain(spans, ParentOf(spans, i), d - 1)
  }

  /** `i` is at most `d` links below a root. */
  ghost predicate Within(spans: Trace, i: int, d: nat) {
    exists e: nat :: e <= d && AtDepth(spans, i, e)
  }

  lemma {:induction false} ChainWithin(spans: Trace, i: int, d: nat)
    requires AtDepth(spans, i, d)
    ensures forall a :: a in Chain(spans, i, d) ==> Within(spans, a, d)
    decreases d
  {
    assert Within(spans, i, d);
    if d > 0 {
      var p := ParentOf(spans, i);
      ChainWithin(spans, p, d - 1);
      forall a | a in Chain(spans, p, d - 1) ensures Within(spans, a, d) {
        var e: nat :| e <= d - 1 && AtDepth(spans, a, e);
      }
    }
  }

  lemma {:induction false} ChainSize(spans: Trace, i: int, d: nat)
    requires AtDepth(spans, i, d)
    ensures |Chain(spans, i, d)| == d + 1
    decreases d
  {
    if d > 0 {
      var p := ParentOf(spans, i);
      ChainSize(spans, p, d - 1);
      ChainWithin(spans, p, d - 1);
      if i in Chain(spans, p, d - 1) {
        var e: nat :| e <= d - 1 && AtDepth(spans, i, e);
        DepthUnique(spans, i, d, e);
      }
    }
  }

  lemma {:induction false} BoundedSetSize(s: set<int>, n: nat)
    requires forall a :: a in s ==> 0 <= a < n
    ensures |s| <= n
  {
    if n == 0 {
      assert forall a :: a !in s;
      assert s == {};
    } else {
      BoundedSetSize(s - {n - 1}, n - 1);
    }
  }

  /** Depths are bounded by the number of spans, whatever the parent ids say: this is what makes
      the recursive passes terminate. */
  lemma DepthBounded(spans: Trace, i: int, d: nat)
    requires AtDepth(spans, i, d)
    ensures d < |spans|
  {
    ChainSize(spans, i, d);
    ChainWithin(spans, i, d);
    BoundedSetSize(Chain(spans, i, d), |spans|);
  }

  predicate AllAtDepth(spans: Trace, nodes: seq<nat>, d: nat) {
    forall k :: 0 <= k < |nodes| ==> AtDepth(spans, nodes[k], d)
  }

  lemma ChildrenDepth(spans: Trace, i: nat, d: nat)
    requires AtDepth(spans, i, d)
    ensures AllAtDepth(spans, Children(spans, i), d + 1)
  {
    ChildListMembers(spans, i, |spans|);
    forall k | 0 <= k < |Children(spans, i)| ensures AtDepth(spans, Children(spans, i)[k], d + 1) {
      assert Children(spans, i)[k] in Children(spans, i);
    }
  }

  // ----- The recursive passes -----

  /** The spans a recursive pass started at `i` visits, in order. */
  function Visited(spans: Trace, i: nat, d: nat): seq<nat>
    requires AtDepth(spans, i, d)
    decreases |spans| - d, 1, 0
  {
    DepthBounded(spans, i, d);
    ChildrenDepth(spans, i, d);
    [i] + VisitedAll(spans, Children(spans, i), d + 1)
  }

  function VisitedAll(spans: Trace, nodes: seq<nat>, d: nat): seq<nat>
    requires AllAtDepth(spans, nodes, d)
    decreases |spans| - d, 2, |nodes|
  {
    if nodes == [] then []
    else VisitedAll(spans, nodes[..|nodes| - 1], d) + Visited(spans, nodes[|nodes| - 1], d)
  }

  /** The `k`-th ancestor, or -1. */
  function Up(spans: Trace, j: nat, k: nat): (a: int)
    requires j < |spans|
    ensures -1 <= a < |spans|
  {
    if k == 0 then j
    else
      var a := Up(spans, j, k - 1);
      if a < 0 then -1 else ParentOf(spans, a)
  }

  lemma {:induction false} UpDepth(spans: Trace, j: nat, k: nat, d: nat)
    requires j < |spans| && AtDepth(spans, Up(spans, j, k), d)
    ensures AtDepth(spans, j, d + k)
  {
    if k > 0 { UpDepth(spans, j, k - 1, d + 1); }
  }

  ghost predicate Under(spans: Trace, j: nat, i: nat) {
    j < |spans| && exists k: nat :: Up(spans, j, k) == i
  }

  ghost predicate UnderSome(spans: Trace, j: nat, nodes: seq<nat>) {
    exists n :: 0 <= n < |nodes| && Under(spans, j, nodes[n])
  }

  lemma UnderStep(spans: Trace, j: nat, i: nat)
    requires i < |spans|
    ensures Under(spans, j, i) <==> j == i || UnderSome(spans, j, Children(spans, i))
  {
    ChildListMembers(spans, i, |spans|);
    var child := Children(spans, i);
    if Under(spans, j, i) && j != i {
      var k: nat :| Up(spans, j, k) == i;
      var c := Up(spans, j, k - 1);
      assert c in child;
      var n :| 0 <= n < |child| && child[n] == c;
      assert Under(spans, j, child[n]);
    }
    if UnderSome(spans, j, child) {
      var n :| 0 <= n < |child| && Under(spans, j, child[n]);
      var k: nat :| Up(spans, j, k) == child[n];
      assert child[n] in child;
      assert Up(spans, j, k + 1) == i;
    }
    if j == i { assert Up(spans, j, 0) == i; }
  }

  lemma {:induction false} VisitedMembers(spans: Trace, i: nat, d: nat)
    requires AtDepth(spans, i, d)
    ensures forall j: nat :: j in Visited(spans, i, d) <==> Under(spans, j, i)
    decreases |spans| - d, 1, 0
  {
    DepthBounded(spans, i, d);
    ChildrenDepth(spans, i, d);
    VisitedAllMembers(spans, Children(spans, i), d + 1);
    forall j: nat ensures j in Visited(spans, i, d) <==> Under(spans, j, i) {
      UnderStep(spans, j, i);
    }
  }

  lemma {:induction false} VisitedAllMembers(spans: Trace, nodes: seq<nat>, d: nat)
    requires AllAtDepth(spans, nodes, d)
    ensures forall j: nat :: j in VisitedAll(spans, nodes, d) <==> UnderSome(spans, j, nodes)
    decreases |spans| - d, 2, |nodes|
  {
    if nodes != [] {
      var init, last := nodes[..|nodes| - 1], nodes[|nodes| - 1];
      VisitedAllMembers(spans, init, d);
      VisitedMembers(spans, last, d);
      forall j: nat ensures UnderSome(spans, j, nodes) <==> UnderSome(spans, j, init) || Under(spans, j, last) {
        if UnderSome(spans, j, init) {
          var n :| 0 <= n < |init| && Under(spans, j, init[n]);
          assert nodes[n] == init[n];
        }
        if UnderSome(spans, j, nodes) {
          var n :| 0 <= n < |nodes| && Under(spans, j, nodes[n]);
          assert n < |init| ==> init[n] == nodes[n];
        }
      }
    }
  }

  /** Two spans at one depth have no visited span in common. */
  lemma SameDepthDisjoint(spans: Trace, j: nat, a: nat, b: nat, d: nat)
    requires AtDepth(spans, a, d) && AtDepth(spans, b, d) && Under(spans, j, a) && Under(spans, j, b)
    ensures a == b
  {
    var k: nat :| Up(spans, j, k) == a;
    var l: nat :| Up(spans, j, l) == b;
    UpDepth(spans, j, k, d);
    UpDepth(spans, j, l, d);
    DepthUnique(spans, j, d + k, d + l);
  }

  lemma NotBelowItself(spans: Trace, i: nat, d: nat)
    requires AtDepth(spans, i, d)
    ensures !UnderSome(spans, i, Children(spans, i))
  {
    ChildrenDepth(spans, i, d);
    var child := Children(spans, i);
    if UnderSome(spans, i, child) {
      var n :| 0 <= n < |child| && Under(spans, i, child[n]);
      var k: nat :| Up(spans, i, k) == child[n];
      UpDepth(spans, i, k, d + 1);
      DepthUnique(spans, i, d, d + 1 + k);
    }
  }

  lemma {:induction false} VisitedDistinct(spans: Trace, i: nat, d: nat)
    requires AtDepth(spans, i, d)
    ensures Distinct(Visited(spans, i, d))
    decreases |spans| - d, 1, 0
  {
    DepthBounded(spans, i, d);
    ChildrenDepth(spans, i, d);
    ChildListMembers(spans, i, |spans|);
    VisitedAllDistinct(spans, Children(spans, i), d + 1);
    VisitedAllMembers(spans, Children(spans, i), d + 1);
    NotBelowItself(spans, i, d);
    DistinctConcat([i], VisitedAll(spans, Children(spans, i), d + 1));
  }

  lemma {:induction false} VisitedAllDistinct(spans: Trace, nodes: seq<nat>, d: nat)
    requires AllAtDepth(spans, nodes, d) && Distinct(nodes)
    ensures Distinct(VisitedAll(spans, nodes, d))
    decreases |spans| - d, 2, |nodes|
  {
    if nodes != [] {
      var init, last := nodes[..|nodes| - 1], nodes[|nodes| - 1];
      VisitedAllDistinct(spans, init, d);
      VisitedDistinct(spans, last, d);
      VisitedAllMembers(spans, init, d);
      VisitedMembers(spans, last, d);
      forall j: nat | j in VisitedAll(spans, init, d) ensures j !in Visited(spans, last, d) {
        if Under(spans, j, last) {
          var n :| 0 <= n < |init| && Under(spans, j, init[n]);
          assert init[n] == nodes[n];
          SameDepthDisjoint(spans, j, init[n], last, d);
        }
      }
      DistinctConcat(VisitedAll(spans, init, d), Visited(spans, last, d));
    }
  }
}
