/** How many lanes the converter announces for a process, read off the trace. */
module TraceLanes {
  import opened Lanes
  import opened Layout
  import opened LaneOptimality
  import opened TraceSteps
  import opened TraceLayout
  import opened LaneBound
  import opened SpanForest
  import opened SpanPasses
  import opened TraceOrder

  ghost predicate TopOf(spans: Trace, p: Pid, i: nat) {
    i < |spans| && AtDepth(spans, i, 2) && TopSpan(spans, i).pid == p
  }

  /** The process's top spans that cover an instant. */
  ghost function TopsAt(spans: Trace, p: Pid, t: int): set<nat> {
    set i: nat | i < |spans| && TopOf(spans, p, i) && Covers(At(TopSpan(spans, i)), t)
  }

  ghost predicate PositiveTops(spans: Trace, p: Pid) {
    forall i: nat :: TopOf(spans, p, i) ==> Positive(At(TopSpan(spans, i)))
  }

  /** All top spans of the process hang off the same root. */
  ghost predicate OneRoot(spans: Trace, p: Pid) {
    forall i: nat, j: nat :: TopOf(spans, p, i) && TopOf(spans, p, j) ==> Up(spans, i, 2) == Up(spans, j, 2)
  }

  /** The lanes a drawing uses for the process. */
  ghost function LanesOf(spans: Trace, tids: seq<int>, p: Pid): set<int>
    requires |tids| == |spans|
  {
    set i: nat | i < |spans| && TopOf(spans, p, i) :: tids[i]
  }

  /** Exactly the lanes 1..n of the process are announced, each once. */
  ghost predicate Announces(slots: seq<Record>, p: Pid, n: nat) {
    forall line :: multiset(slots)[Record(p, line)] == if 1 <= line <= n then 1 else 0
  }

  /** The number of announced lanes is the number of top spans at the busiest instant, and no
      drawing of the same spans that keeps its lanes in order uses fewer. */
  ghost predicate FewestLanes(spans: Trace, slots: seq<Record>, p: Pid) {
    exists n: nat ::
      && Announces(slots, p, n)
      && (forall t :: |TopsAt(spans, p, t)| <= n)
      && (exists t :: |TopsAt(spans, p, t)| == n)
      && (forall tids: seq<int> :: |tids| == |spans| && LanesApart(spans, tids, p) ==> n <= |LanesOf(spans, tids, p)|)
  }

  /** What the layout sees of each root: its top spans. */
  ghost function Values(spans: Trace): seq<seq<Span>> {
    Map(Image(spans), Tops(spans, Roots(spans)))
  }

  /** The announced lanes are at least the top spans at the busiest instant, and at most the busiest
      instants of the roots, each taken alone, added up. */
  ghost predicate BoundedLanes(spans: Trace, slots: seq<Record>, p: Pid) {
    exists n: nat ::
      && Announces(slots, p, n)
      && (forall t :: |TopsAt(spans, p, t)| <= n)
      && n <= SumBusiest(Values(spans), p)
  }

  // ----- What the layout sees -----

  /** The positions in the order whose span belongs to the process and covers the instant. */
  ghost function Showing(spans: Trace, order: seq<nat>, p: Pid, t: int): set<nat> {
    set i | i in order && TopSpan(spans, i).pid == p && Covers(At(TopSpan(spans, i)), t)
  }

  lemma ShowingSnoc(spans: Trace, before: seq<nat>, i: nat, p: Pid, t: int)
    requires i !in before
    ensures |Showing(spans, before + [i], p, t)| == |Showing(spans, before, p, t)|
              + (if TopSpan(spans, i).pid == p && Covers(At(TopSpan(spans, i)), t) then 1 else 0)
  {
    var shown := Showing(spans, before, p, t);
    if TopSpan(spans, i).pid == p && Covers(At(TopSpan(spans, i)), t) {
      assert Showing(spans, before + [i], p, t) == shown + {i};
    } else {
      assert Showing(spans, before + [i], p, t) == shown;
    }
  }

  lemma {:induction false} DepthCounts(spans: Trace, order: seq<nat>, p: Pid, t: int)
    requires Distinct(order)
    ensures Depth(Image(spans)(order), p, t) == |Showing(spans, order, p, t)|
  {
    if order == [] {
      assert Showing(spans, order, p, t) == {};
    } else {
      var n := |order| - 1;
      var before := order[..n];
      DepthCounts(spans, before, p, t);
      assert Image(spans)(order)[..n] == Image(spans)(before);
      assert order == before + [order[n]];
      ShowingSnoc(spans, before, order[n], p, t);
    }
  }

  lemma ShowingTops(spans: Trace, order: seq<nat>, p: Pid, t: int)
    requires IsLevel(spans, order, 2)
    ensures Showing(spans, order, p, t) == TopsAt(spans, p, t)
  {
    forall i: nat ensures i in Showing(spans, order, p, t) <==> i in TopsAt(spans, p, t) {
      assert i in order <==> AtDepth(spans, i, 2);
    }
  }

  lemma FlatValues(spans: Trace, requests: seq<seq<nat>>)
    ensures Flat(Map(Image(spans), requests) + [[]]) == Image(spans)(Flat(requests))
  {
    FlatImage(spans, requests);
    var values: seq<seq<Span>> := Map(Image(spans), requests);
    assert (values + [[]])[..|values|] == values;
  }

  /** The depth of the input is counted by top spans. */
  lemma DepthOfTops(spans: Trace, p: Pid, t: int)
    ensures TotalDepth(Values(spans) + [[]], p, t) == |TopsAt(spans, p, t)|
  {
    var requests := Tops(spans, Roots(spans));
    OrdersAreLevels(spans, requests);
    FlatDepth(Values(spans) + [[]], p, t);
    FlatValues(spans, requests);
    var order := Flat(requests);
    DepthCounts(spans, order, p, t);
    ShowingTops(spans, order, p, t);
  }

  /** A span the layout sees is a top span below the root it was listed under. */
  lemma ValueIsTop(spans: Trace, r: nat, k: nat) returns (i: nat)
    requires r < |Values(spans)| && k < |Values(spans)[r]|
    ensures r < |Roots(spans)| && AtDepth(spans, i, 2) && i < |spans|
    ensures Values(spans)[r][k] == TopSpan(spans, i) && Up(spans, i, 2) == Roots(spans)[r]
  {
    TopsLength(spans, Roots(spans));
    var root := Roots(spans)[r];
    var tops := TopsOf(spans, root);
    i := tops[k];
    assert i in tops;
    RootListMembers(spans, |spans|);
    assert root in Roots(spans);
    ChildListMembers(spans, root, |spans|);
    NextLevelMembers(spans, Children(spans, root));
    var thread: nat := ParentOf(spans, i);
    assert thread in Children(spans, root);
    assert AtDepth(spans, thread, 1);
    assert Up(spans, i, 0) == i;
    assert Up(spans, i, 1) == thread;
  }

  /** The process's top spans under one root that cover an instant. */
  ghost function TopsUnder(spans: Trace, p: Pid, root: nat, t: int): set<nat> {
    set i | i in TopsAt(spans, p, t) && i < |spans| && Up(spans, i, 2) == root
  }

  /** A root's depth is counted by the top spans under it. */
  lemma DepthUnderRoot(spans: Trace, p: Pid, r: nat, t: int)
    requires r < |Roots(spans)|
    ensures r < |Values(spans)| && Depth(Values(spans)[r], p, t) == |TopsUnder(spans, p, Roots(spans)[r], t)|
  {
    TopsLength(spans, Roots(spans));
    var root := Roots(spans)[r];
    var tops := TopsOf(spans, root);
    TopsOfMembers(spans, root);
    DepthCounts(spans, tops, p, t);
    RootListMembers(spans, |spans|);
    assert root in Roots(spans);
    ShowingUnder(spans, tops, p, root, t);
  }

  lemma ShowingUnder(spans: Trace, tops: seq<nat>, p: Pid, root: nat, t: int)
    requires root < |spans| && IsRoot(spans, root)
    requires forall i: nat :: i in tops <==> i < |spans| && Up(spans, i, 2) == root
    ensures Showing(spans, tops, p, t) == TopsUnder(spans, p, root, t)
  {
    forall i: nat ensures i in Showing(spans, tops, p, t) <==> i in TopsUnder(spans, p, root, t) {
      if i < |spans| { GrandparentDepth(spans, i, root); }
    }
  }

  lemma TopsOfMembers(spans: Trace, root: nat)
    ensures Distinct(TopsOf(spans, root))
    ensures forall i: nat :: i in TopsOf(spans, root) <==> i < |spans| && Up(spans, i, 2) == root
  {
    ChildListMembers(spans, root, |spans|);
    NextLevelMembers(spans, Children(spans, root));
    forall i: nat ensures i in TopsOf(spans, root) <==> i < |spans| && Up(spans, i, 2) == root {
      if i < |spans| {
        assert Up(spans, i, 0) == i;
        assert Up(spans, i, 1) == ParentOf(spans, i);
      }
    }
  }

  lemma GrandparentDepth(spans: Trace, i: nat, root: nat)
    requires i < |spans| && root < |spans| && IsRoot(spans, root)
    ensures Up(spans, i, 2) == root ==> AtDepth(spans, i, 2)
  {
    assert Up(spans, i, 0) == i;
    assert Up(spans, i, 1) == ParentOf(spans, i);
    if Up(spans, i, 2) == root { assert AtDepth(spans, ParentOf(spans, i), 1); }
  }

  lemma ValuesPositive(spans: Trace, p: Pid)
    requires PositiveTops(spans, p)
    ensures AllPositive(Values(spans) + [[]], p)
  {
    var all: seq<seq<Span>> := Values(spans) + [[]];
    forall r, k | 0 <= r < |all| && 0 <= k < |all[r]| && all[r][k].pid == p ensures Positive(At(all[r][k])) {
      assert all[r] == Values(spans)[r];
      var i := ValueIsTop(spans, r, k);
      assert TopOf(spans, p, i);
    }
  }

  /** More than one user means two of them. */
  lemma {:induction false} TwoUsers(requests: seq<seq<Span>>, p: Pid) returns (a: nat, b: nat)
    requires Users(requests, p) >= 2
    ensures a < b < |requests| && Uses(requests[a], p) && Uses(requests[b], p)
  {
    if Uses(requests[0], p) {
      a := 0;
      b := OneUser(requests[1..], p);
      b := b + 1;
    } else {
      a, b := TwoUsers(requests[1..], p);
      a, b := a + 1, b + 1;
    }
  }

  lemma {:induction false} OneUser(requests: seq<seq<Span>>, p: Pid) returns (a: nat)
    requires Users(requests, p) >= 1
    ensures a < |requests| && Uses(requests[a], p)
  {
    if Uses(requests[0], p) {
      a := 0;
    } else {
      a := OneUser(requests[1..], p);
      a := a + 1;
    }
  }

  lemma UserRoot(spans: Trace, p: Pid, r: nat) returns (i: nat)
    requires r < |Values(spans) + [[]]| && Uses((Values(spans) + [[]])[r], p)
    ensures r < |Roots(spans)| && TopOf(spans, p, i) && Up(spans, i, 2) == Roots(spans)[r]
  {
    var all: seq<seq<Span>> := Values(spans) + [[]];
    var k :| 0 <= k < |all[r]| && all[r][k].pid == p;
    assert all[r] == Values(spans)[r];
    i := ValueIsTop(spans, r, k);
  }

  lemma OneRootOneUser(spans: Trace, p: Pid)
    requires OneRoot(spans, p)
    ensures Users(Values(spans) + [[]], p) <= 1
  {
    if Users(Values(spans) + [[]], p) >= 2 {
      var a, b := TwoUsers(Values(spans) + [[]], p);
      var i := UserRoot(spans, p, a);
      var j := UserRoot(spans, p, b);
      RootListMembers(spans, |spans|);
      assert false;
    }
  }

  // ----- The lower bound -----

  function Picked(tids: seq<int>, some: set<nat>): set<int> {
    set i | i in some && i < |tids| :: tids[i]
  }

  lemma {:induction false} PickedDistinct(tids: seq<int>, some: set<nat>)
    requires forall i :: i in some ==> i < |tids|
    requires forall i, j :: i in some && j in some && i != j ==> tids[i] != tids[j]
    ensures |Picked(tids, some)| == |some|
  {
    if some == {} {
      assert Picked(tids, some) == {};
    } else {
      var x :| x in some;
      var rest := some - {x};
      PickedDistinct(tids, rest);
      assert Picked(tids, some) == Picked(tids, rest) + {tids[x]};
      assert tids[x] !in Picked(tids, rest);
    }
  }

  /** Lanes in order give the spans of an instant different lanes. */
  lemma LanesAtInstant(spans: Trace, tids: seq<int>, p: Pid, t: int)
    requires |tids| == |spans| && LanesApart(spans, tids, p)
    ensures |TopsAt(spans, p, t)| <= |LanesOf(spans, tids, p)|
  {
    var tops := TopsAt(spans, p, t);
    forall i, j | i in tops && j in tops && i != j ensures tids[i] != tids[j] {
      assert TopOf(spans, p, i) && TopOf(spans, p, j);
    }
    PickedDistinct(tids, tops);
    assert Picked(tids, tops) <= LanesOf(spans, tids, p);
    SubsetNotLarger(Picked(tids, tops), LanesOf(spans, tids, p));
  }

  /** Some drawing is proper: one lane per span. */
  lemma ProperExists(spans: seq<Span>, p: Pid) returns (lanes: seq<int>)
    ensures Proper(spans, p, lanes)
  {
    lanes := seq(|spans|, i => i);
  }

  /** The layout opens as many lanes as top spans of the process overlap at the busiest instant. */
  lemma LanesAtBusiest(spans: Trace, p: Pid) returns (n: nat, busy: int)
    requires OneRoot(spans, p) && PositiveTops(spans, p)
    ensures n == |SlotsOf(Run(StepsFor(spans)).board, p)| == |TopsAt(spans, p, busy)|
    ensures forall t :: |TopsAt(spans, p, t)| <= n
  {
    var values := Values(spans);
    n := |SlotsOf(Run(StepsFor(spans)).board, p)|;
    ValuesPositive(spans, p);
    OneRootOneUser(spans, p);
    var lanes := ProperExists(Flat(Requests(values, [])), p);
    TraceLanesOptimal(values, [], p, lanes);
    busy :| TotalDepth(values + [[]], p, busy) == n;
    DepthOfTops(spans, p, busy);
    forall t ensures |TopsAt(spans, p, t)| <= n {
      DepthOfTops(spans, p, t);
      assert TotalDepth(values + [[]], p, t) <= n;
    }
  }

  lemma RunAnnounces(steps: seq<Step>, p: Pid)
    ensures Announces(Run(steps).board.meta, p, |SlotsOf(Run(steps).board, p)|)
  {
  }

  lemma LanesFewest(spans: Trace, p: Pid)
    requires OneRoot(spans, p) && PositiveTops(spans, p)
    ensures FewestLanes(spans, Run(StepsFor(spans)).board.meta, p)
  {
    var n, busy := LanesAtBusiest(spans, p);
    RunAnnounces(StepsFor(spans), p);
    forall tids: seq<int> | |tids| == |spans| && LanesApart(spans, tids, p) ensures n <= |LanesOf(spans, tids, p)| {
      LanesAtInstant(spans, tids, p, busy);
    }
  }

  /** Any number of roots: the announced lanes against the trace and against its roots. */
  lemma LanesBounded(spans: Trace, p: Pid)
    requires PositiveTops(spans, p)
    ensures BoundedLanes(spans, Run(StepsFor(spans)).board.meta, p)
  {
    var values, n := Values(spans), |SlotsOf(Run(StepsFor(spans)).board, p)|;
    ValuesPositive(spans, p);
    TraceLanesBetween(values, [], p);
    SumNoGateway(values, p);
    RunAnnounces(StepsFor(spans), p);
    forall t ensures |TopsAt(spans, p, t)| <= n {
      DepthOfTops(spans, p, t);
      assert TotalDepth(values + [[]], p, t) <= n;
    }
  }

  lemma SumNoGateway(values: seq<seq<Span>>, p: Pid)
    ensures SumBusiest(values + [[]], p) == SumBusiest(values, p)
  {
    var none: seq<Span> := [];
    SumConcat(values, [none], p);
    SumOne(none, p);
    UnusedBusiest(none, p);
  }
}
