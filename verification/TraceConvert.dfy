/** The converter from end to end: build the forest, convert, lay out, set the lanes and gather. */
module TraceConvert {
  import opened Wrappers
  import opened Lanes
  import opened Layout
  import opened TraceSteps
  import opened LayoutRule
  import opened TraceLayout
  import opened SpanForest
  import opened SpanPasses
  import opened SpanPipeline
  import opened TraceOrder
  import opened TraceLanes

  // ----- End to end -----

  /** What is written for the engine spans: the spans in output order, and their process, lane and
      end by position. */
  datatype Output = Output(elems: seq<nat>, pids: seq<int>, tids: seq<int>, ends: seq<int>, slots: seq<Record>)

  /** `generate_perfetto_span`: collect the spans two links below a root. */
  method CollectTops(spans: Trace, child: seq<seq<nat>>, root: nat) returns (tops: seq<nat>)
    requires IsChildTable(spans, child) && root < |spans|
    ensures tops == TopsOf(spans, root)
  {
    tops := [];
    var threads := child[root];
    ChildListMembers(spans, root, |spans|);
    for t := 0 to |threads|
      invariant tops == NextLevel(spans, threads[..t])
    {
      assert threads[t] in threads;
      assert threads[..t + 1][..t] == threads[..t];
      tops := tops + child[threads[t]];
    }
    assert threads[..|threads|] == threads;
  }

  method CollectAll(spans: Trace, child: seq<seq<nat>>, roots: seq<nat>) returns (requests: seq<seq<nat>>)
    requires IsChildTable(spans, child) && forall i :: 0 <= i < |roots| ==> roots[i] < |spans|
    ensures requests == Tops(spans, roots)
  {
    requests := [];
    for r := 0 to |roots|
      invariant requests == Tops(spans, roots[..r])
    {
      assert roots[..r + 1][..r] == roots[..r];
      var tops := CollectTops(spans, child, roots[r]);
      requests := requests + [tops];
    }
    assert roots[..|roots|] == roots;
  }

  /** Each deep span is written once, with its end moved once and the process and lane of its top
      ancestor. */
  ghost predicate Placed(spans: Trace, out: Output) {
    && |out.pids| == |out.tids| == |out.ends| == |spans|
    && Distinct(out.elems)
    && (forall j: nat :: j in out.elems <==> Deep(spans, j, 2))
    && (forall j: nat :: Deep(spans, j, 2) && j < |spans| ==> out.ends[j] == spans[j].end - 1000)
    && (forall i: nat, j: nat :: i < |spans| && j < |spans| && AtDepth(spans, i, 2) && Under(spans, j, i) ==>
          out.tids[j] == out.tids[i] && Process(out.pids[j]) == TopSpan(spans, i).pid)
  }

  /** Everything below a thread span is written under that thread's process. */
  ghost predicate ThreadProcess(spans: Trace, pids: seq<int>) {
    && |pids| == |spans|
    && forall i: nat, j: nat, thread: nat {:trigger Under(spans, j, i), LinkedTo(spans, i, thread)} ::
         j < |spans| && AtDepth(spans, i, 2) && LinkedTo(spans, i, thread) && Under(spans, j, i) ==>
           pids[j] == spans[thread].pid
  }

  lemma PlacedInProcess(spans: Trace, out: Output)
    requires Placed(spans, out)
    ensures ThreadProcess(spans, out.pids)
  {
    forall i: nat, j: nat, thread: nat
      | j < |spans| && AtDepth(spans, i, 2) && LinkedTo(spans, i, thread) && Under(spans, j, i)
      ensures out.pids[j] == spans[thread].pid
    {
      ParentIs(spans, i, thread);
      assert Process(out.pids[j]) == TopSpan(spans, i).pid;
    }
  }

  /** Every top span stands somewhere in the order, and what is below it belongs there. */
  lemma PositionOf(spans: Trace, order: seq<nat>, i: nat, j: nat) returns (k: nat)
    requires IsLevel(spans, order, 2) && AllAtDepth(spans, order, 2) && AtDepth(spans, i, 2) && Under(spans, j, i)
    ensures k < |order| && order[k] == i && Belongs(spans, order, 2, j, k) && Belongs(spans, order, 2, i, k)
  {
    assert i in order;
    k :| 0 <= k < |order| && order[k] == i;
    VisitedMembers(spans, i, 2);
    assert Up(spans, i, 0) == i;
  }

  lemma TopIsUnder(spans: Trace, i: nat)
    requires AtDepth(spans, i, 2)
    ensures i < |spans| && Under(spans, i, i) && ParentOf(spans, i) >= 0
  {
    assert Up(spans, i, 0) == i;
  }

  /** The lanes were set along the order. */
  ghost predicate SetAlong(spans: Trace, order: seq<nat>, lines: seq<int>, tids: seq<int>) {
    && |tids| == |spans| && |lines| == |order| && IsLevel(spans, order, 2) && AllAtDepth(spans, order, 2)
    && forall j: nat, k :: j < |spans| && Belongs(spans, order, 2, j, k) ==> tids[j] == lines[k]
  }

  lemma LineOf(spans: Trace, order: seq<nat>, lines: seq<int>, tids: seq<int>, k: nat)
    requires SetAlong(spans, order, lines, tids) && k < |order|
    ensures AtDepth(spans, order[k], 2) && order[k] < |spans| && tids[order[k]] == lines[k]
  {
    TopIsUnder(spans, order[k]);
    var l := PositionOf(spans, order, order[k], order[k]);
    assert Belongs(spans, order, 2, order[k], l);
  }

  lemma PairApart(drawn: seq<Span>, lines: seq<int>, p: Pid, k: nat, l: nat)
    requires |drawn| == |lines| && PairsApart(drawn, lines, p) && k < |drawn| && l < |drawn| && k != l
    requires drawn[k].pid == p && drawn[l].pid == p && lines[k] == lines[l]
    ensures Apart(At(drawn[k]), At(drawn[l]))
  {
    if l < k { assert Apart(At(drawn[l]), At(drawn[k])); }
  }

  lemma PairsThenLanes(spans: Trace, order: seq<nat>, lines: seq<int>, tids: seq<int>, p: Pid, i: nat, j: nat)
    requires SetAlong(spans, order, lines, tids) && PairsApart(Image(spans)(order), lines, p)
    requires i < |spans| && j < |spans| && i != j && AtDepth(spans, i, 2) && AtDepth(spans, j, 2)
    requires TopSpan(spans, i).pid == p && TopSpan(spans, j).pid == p && tids[i] == tids[j]
    ensures Apart(At(TopSpan(spans, i)), At(TopSpan(spans, j)))
  {
    TopIsUnder(spans, i);
    TopIsUnder(spans, j);
    var k := PositionOf(spans, order, i, i);
    var l := PositionOf(spans, order, j, j);
    LineOf(spans, order, lines, tids, k);
    LineOf(spans, order, lines, tids, l);
    var drawn := Image(spans)(order);
    assert drawn[k] == TopSpan(spans, i) && drawn[l] == TopSpan(spans, j);
    PairApart(drawn, lines, p, k, l);
  }

  lemma LanesThenPairs(spans: Trace, order: seq<nat>, lines: seq<int>, tids: seq<int>, p: Pid, k: nat, l: nat)
    requires SetAlong(spans, order, lines, tids) && LanesApart(spans, tids, p) && k < l < |order|
    requires TopSpan(spans, order[k]).pid == p && TopSpan(spans, order[l]).pid == p && lines[k] == lines[l]
    ensures Apart(At(TopSpan(spans, order[k])), At(TopSpan(spans, order[l])))
  {
    LineOf(spans, order, lines, tids, k);
    LineOf(spans, order, lines, tids, l);
    assert order[k] != order[l];
  }

  /** Reading the drawn lanes by top span is reading them by layout position. */
  lemma LanesApartExact(spans: Trace, order: seq<nat>, lines: seq<int>, tids: seq<int>, p: Pid)
    requires SetAlong(spans, order, lines, tids)
    ensures LanesApart(spans, tids, p) <==> PairsApart(Image(spans)(order), lines, p)
  {
    var drawn := Image(spans)(order);
    if PairsApart(drawn, lines, p) {
      forall i: nat, j: nat |
        && i < |spans| && j < |spans| && i != j && AtDepth(spans, i, 2) && AtDepth(spans, j, 2)
        && TopSpan(spans, i).pid == p && TopSpan(spans, j).pid == p && tids[i] == tids[j]
        ensures Apart(At(TopSpan(spans, i)), At(TopSpan(spans, j)))
      {
        PairsThenLanes(spans, order, lines, tids, p, i, j);
      }
    }
    if LanesApart(spans, tids, p) {
      forall k, l | 0 <= k < l < |drawn| && drawn[k].pid == p && drawn[l].pid == p && lines[k] == lines[l]
        ensures Apart(At(drawn[k]), At(drawn[l]))
      {
        LanesThenPairs(spans, order, lines, tids, p, k, l);
      }
    }
  }

  /** What the array passes leave behind adds up to `Placed`. */
  lemma PassesPlace(spans: Trace, requests: seq<seq<nat>>, lines: seq<int>, out: Output)
    requires requests == Tops(spans, Roots(spans)) && |out.pids| == |out.ends| == |spans|
    requires AllAtDepth(spans, Flat(requests), 2) && Converted(spans, Flat(requests), out.pids, out.ends)
    requires Laid(spans, requests, lines, out.tids, out.elems)
    ensures Placed(spans, out)
  {
    OrdersAreLevels(spans, requests);
    EmittedExactlyOnce(spans, Flat(SortAll(StartAt(spans), requests)), 2);
    forall i: nat, j: nat | i < |spans| && j < |spans| && AtDepth(spans, i, 2) && Under(spans, j, i)
      ensures out.tids[j] == out.tids[i] && Process(out.pids[j]) == TopSpan(spans, i).pid
    {
      var k := PositionOf(spans, LayoutOrder(spans, requests), i, j);
      var l := PositionOf(spans, Flat(requests), i, j);
    }
  }

  /** The process ids of the threads above the listed spans. */
  method ThreadPids(spans: Trace, order: seq<nat>) returns (threadPid: seq<int>)
    requires AllAtDepth(spans, order, 2)
    ensures |threadPid| == |order|
    ensures forall k :: 0 <= k < |order| ==> Process(threadPid[k]) == TopSpan(spans, order[k]).pid
  {
    threadPid := [];
    for k := 0 to |order|
      invariant |threadPid| == k && forall l :: 0 <= l < k ==> Process(threadPid[l]) == TopSpan(spans, order[l]).pid
    {
      TopIsUnder(spans, order[k]);
      threadPid := threadPid + [spans[ParentOf(spans, order[k])].pid];
    }
  }

  /** The converted top span carries what the layout is proved for. */
  ghost predicate ReadyTop(spans: Trace, pids: seq<int>, ends: seq<int>, i: nat)
    requires |pids| == |ends| == |spans|
  {
    AtDepth(spans, i, 2) && i < |spans| && Process(pids[i]) == TopSpan(spans, i).pid && ends[i] == spans[i].end - 1000
  }

  /** The spans of one root as the layout reads them back from the converted spans. */
  method ReadBack(spans: Trace, tops: seq<nat>, pids: array<int>, ends: array<int>) returns (values: seq<Span>)
    requires pids.Length == ends.Length == |spans|
    requires forall k :: 0 <= k < |tops| ==> ReadyTop(spans, pids[..], ends[..], tops[k])
    ensures values == Image(spans)(tops)
  {
    values := [];
    for k := 0 to |tops|
      invariant values == Image(spans)(tops[..k])
    {
      var i := tops[k];
      assert ReadyTop(spans, pids[..], ends[..], i);
      TopIsUnder(spans, i);
      values := values + [Span(Process(pids[i]), spans[i].start, ends[i])];
    }
    assert tops[..|tops|] == tops;
  }

  lemma {:induction false} InFlat(requests: seq<seq<nat>>, r: nat, k: nat)
    requires r < |requests| && k < |requests[r]|
    ensures requests[r][k] in Flat(requests)
  {
    if r < |requests| - 1 { InFlat(requests[..|requests| - 1], r, k); }
  }

  /** The converted arrays agree with what the layout is proved for. */
  ghost predicate Converted(spans: Trace, order: seq<nat>, pids: seq<int>, ends: seq<int>)
    requires AllAtDepth(spans, order, 2) && |pids| == |ends| == |spans|
  {
    && (forall j: nat, k :: j < |spans| && Belongs(spans, order, 2, j, k) ==>
         Process(pids[j]) == TopSpan(spans, order[k]).pid)
    && (forall j: nat :: j < |spans| && Deep(spans, j, 2) ==> ends[j] == spans[j].end - 1000)
  }

  method ReadAll(spans: Trace, requests: seq<seq<nat>>, pids: array<int>,
          ends: array<int>) returns (values: seq<seq<Span>>)
    requires pids.Length == ends.Length == |spans|
    requires IsLevel(spans, Flat(requests), 2) && AllAtDepth(spans, Flat(requests), 2)
    requires Converted(spans, Flat(requests), pids[..], ends[..])
    ensures values == Map(Image(spans), requests)
  {
    values := [];
    for r := 0 to |requests|
      invariant values == Map(Image(spans), requests[..r])
    {
      forall k | 0 <= k < |requests[r]| ensures ReadyTop(spans, pids[..], ends[..], requests[r][k]) {
        InFlat(requests, r, k);
      }
      var one := ReadBack(spans, requests[r], pids, ends);
      values := values + [one];
    }
    assert requests[..|requests|] == requests;
  }

  method ConvertTops(spans: Trace, child: seq<seq<nat>>, order: seq<nat>) returns (pids: array<int>, ends: array<int>)
    requires IsChildTable(spans, child) && IsLevel(spans, order, 2)
    ensures fresh(pids) && fresh(ends) && pids != ends && pids.Length == ends.Length == |spans|
    ensures AllAtDepth(spans, order, 2) && Converted(spans, order, pids[..], ends[..])
  {
    LevelAtDepth(spans, order, 2);
    var threadPid := ThreadPids(spans, order);
    pids := new int[|spans|];
    ends := new int[|spans|](i requires 0 <= i < |spans| => spans[i].end);
    ConvertAll(spans, child, order, 2, threadPid, pids, ends);
  }

  /** The lanes of the top spans, read in layout order, follow the rule of the lane search. */
  ghost predicate LanesFollow(spans: Trace, tids: seq<int>) {
    var order := LayoutOrder(spans, Tops(spans, Roots(spans)));
    && |tids| == |spans| && (forall k :: 0 <= k < |order| ==> order[k] < |spans|)
    && Follows(Requests(Values(spans), []), seq(|order|, k requires 0 <= k < |order| => tids[order[k]]))
  }

  lemma TidsFollow(spans: Trace, requests: seq<seq<nat>>, lines: seq<int>, tids: seq<int>, elems: seq<nat>)
    requires requests == Tops(spans, Roots(spans)) && Laid(spans, requests, lines, tids, elems)
    requires Follows(Requests(Values(spans), []), lines)
    ensures LanesFollow(spans, tids)
  {
    var order := LayoutOrder(spans, requests);
    OrdersAreLevels(spans, requests);
    assert SetAlong(spans, order, lines, tids);
    forall k | 0 <= k < |order| ensures order[k] < |spans| && tids[order[k]] == lines[k] {
      LineOf(spans, order, lines, tids, k);
    }
    assert seq(|order|, k requires 0 <= k < |order| => tids[order[k]]) == lines;
  }

  /** The converter.  It fails exactly if there is a gateway span, because the conversion reads a
      child list that only engine spans were given, or if some root has no span two links below it.
      Otherwise every such span and everything below it is written once, with its end moved once
      and on its top ancestor's lane; the top spans' lanes are those the rule of the lane search
      gives; the lanes of a process are in order exactly if the layout met no clash; if the process's
      top spans have positive length, its announced lanes are at most its roots' busiest instants
      added up; and with one root they are the fewest possible. */
  method ConvertTrace(spans: Trace, gateway: seq<OtelSpan>) returns (r: Result<Output>)
    ensures r.Failure? <==> gateway != [] || exists i :: 0 <= i < |Roots(spans)| && TopsOf(spans, Roots(spans)[i]) == []
    ensures r.Success? ==> Placed(spans, r.value) && r.value.slots == Run(StepsFor(spans)).board.meta
    ensures r.Success? ==> ThreadProcess(spans, r.value.pids) && LanesFollow(spans, r.value.tids)
    ensures r.Success? ==> forall p :: LanesApart(spans, r.value.tids, p) <==> ClashFree(StepsFor(spans), p)
    ensures r.Success? ==> forall p :: PositiveTops(spans, p) ==> BoundedLanes(spans, r.value.slots, p)
    ensures r.Success? ==> forall p :: OneRoot(spans, p) && PositiveTops(spans, p) ==>
      FewestLanes(spans, r.value.slots, p)
  {
    var child, requests, pids, ends, values := Prepare(spans);
    if gateway != [] {
      return Failure("KeyError");
    }
    NoTops(spans, values);
    var layout := GenerateLayout(values, []);
    if layout.Failure? {
      return Failure(layout.error);
    }
    var lines := layout.value.0;
    var tids, elems := SetAndGather(spans, child, requests, lines);
    var out := Output(elems, pids, tids, ends, layout.value.1);
    PassesPlace(spans, requests, lines, out);
    PlacedInProcess(spans, out);
    TidsFollow(spans, requests, lines, tids, elems);
    forall p ensures LanesApart(spans, out.tids, p) <==> ClashFree(StepsFor(spans), p) {
      ApartIffClashFree(spans, requests, lines, tids, elems, p);
    }
    forall p | PositiveTops(spans, p) ensures BoundedLanes(spans, out.slots, p) {
      LanesBounded(spans, p);
    }
    forall p | OneRoot(spans, p) && PositiveTops(spans, p) ensures FewestLanes(spans, out.slots, p) {
      LanesFewest(spans, p);
    }
    r := Success(out);
  }

  /** Everything before the layout: the forest, the top spans by root, and their conversion. */
  method Prepare(spans: Trace)
    returns (child: seq<seq<nat>>, requests: seq<seq<nat>>, pids: seq<int>, ends: seq<int>, values: seq<seq<Span>>)
    ensures IsChildTable(spans, child) && requests == Tops(spans, Roots(spans)) && |pids| == |ends| == |spans|
    ensures AllAtDepth(spans, Flat(requests), 2) && Converted(spans, Flat(requests), pids, ends)
    ensures values == Map(Image(spans), Tops(spans, Roots(spans)))
  {
    var roots;
    roots, child := BuildSpanTree(spans);
    RootListMembers(spans, |spans|);
    assert forall i :: 0 <= i < |roots| ==> roots[i] in roots;
    requests := CollectAll(spans, child, roots);
    OrdersAreLevels(spans, requests);
    var pidOf, endOf := ConvertTops(spans, child, Flat(requests));
    values := ReadAll(spans, requests, pidOf, endOf);
    pids, ends := pidOf[..], endOf[..];
  }

  lemma NoTops(spans: Trace, values: seq<seq<Span>>)
    requires values == Map(Image(spans), Tops(spans, Roots(spans)))
    ensures (exists i :: 0 <= i < |values| && values[i] == []) <==>
      exists i :: 0 <= i < |Roots(spans)| && TopsOf(spans, Roots(spans)[i]) == []
  {
    TopsLength(spans, Roots(spans));
    assert forall i :: 0 <= i < |values| ==> values[i] == Image(spans)(TopsOf(spans, Roots(spans)[i]));
  }

  lemma LinesLength(spans: Trace, requests: seq<seq<nat>>)
    ensures |Run(StepsOf(Requests(Map(Image(spans), requests), []))).lines| == |LayoutOrder(spans, requests)|
  {
    TracePicture(Map(Image(spans), requests), [], Smg);
    LayoutOrderImage(spans, requests);
  }

  /** Lanes set and spans gathered along the two orders used after the conversion. */
  ghost predicate Laid(spans: Trace, requests: seq<seq<nat>>, lines: seq<int>, tids: seq<int>, elems: seq<nat>) {
    var order, last := LayoutOrder(spans, requests), Flat(SortAll(StartAt(spans), requests));
    && |tids| == |spans| && |lines| == |order| && AllAtDepth(spans, order, 2) && AllAtDepth(spans, last, 2)
    && (forall j: nat, k :: j < |spans| && Belongs(spans, order, 2, j, k) ==> tids[j] == lines[k])
    && elems == VisitedAll(spans, last, 2)
  }

  method SetAndGather(spans: Trace, child: seq<seq<nat>>, requests: seq<seq<nat>>,
          lines: seq<int>) returns (tids: seq<int>, elems: seq<nat>)
    requires IsChildTable(spans, child) && requests == Tops(spans, Roots(spans))
    requires lines == Run(StepsOf(Requests(Map(Image(spans), requests), []))).lines
    ensures Laid(spans, requests, lines, tids, elems)
  {
    OrdersAreLevels(spans, requests);
    LinesLength(spans, requests);
    var a := new int[|spans|](_ => 0);
    SetAllTids(spans, child, LayoutOrder(spans, requests), 2, lines, a);
    tids := a[..];
    LevelAtDepth(spans, Flat(SortAll(StartAt(spans), requests)), 2);
    elems := GatherSpans(spans, child, Flat(SortAll(StartAt(spans), requests)), 2);
  }

  lemma ApartIffClashFree(spans: Trace, requests: seq<seq<nat>>, lines: seq<int>, tids: seq<int>, elems: seq<nat>,
          p: Pid)
    requires requests == Tops(spans, Roots(spans)) && Laid(spans, requests, lines, tids, elems)
    requires lines == Run(StepsFor(spans)).lines
    ensures LanesApart(spans, tids, p) <==> ClashFree(StepsFor(spans), p)
  {
    OrdersAreLevels(spans, requests);
    LayoutOrderImage(spans, requests);
    TracePicture(Map(Image(spans), requests), [], p);
    LanesApartExact(spans, LayoutOrder(spans, requests), lines, tids, p);
  }

  /** No clash, and so lanes in order, if no top span of the process has a shifted end
      equal to its start. */
  lemma NoZeroLengthNoClash(spans: Trace, p: Pid)
    requires forall i: nat :: AtDepth(spans, i, 2) && TopSpan(spans, i).pid == p ==>
      TopSpan(spans, i).start != TopSpan(spans, i).end
    ensures ClashFree(StepsFor(spans), p)
  {
    var requests := Tops(spans, Roots(spans));
    var order := LayoutOrder(spans, requests);
    OrdersAreLevels(spans, requests);
    LayoutOrderImage(spans, requests);
    TracePicture(Map(Image(spans), requests), [], p);
    forall k | 0 <= k < |order| ensures AtDepth(spans, order[k], 2) { assert order[k] in order; }
  }
}
