/** Traces on which the layout opens a lane too many: both start order and positive lengths are
    needed for the optimal number. */
module LaneWaste {
  import opened Ordering
  import opened Lanes
  import opened Layout
  import opened LaneOptimality
  import opened TraceSteps
  import opened TraceLayout

  function SpanAt(p: Pid, iv: Interval): Span {
    Span(p, iv.start, iv.end)
  }

  /** Roots that are sorted already are laid out as they come. */
  lemma RequestsInOrder(roots: seq<seq<Span>>)
    requires SortedBy(FirstStart, roots) && forall i :: 0 <= i < |roots| ==> SortedBy(StartOf, roots[i])
    ensures Requests(roots, []) == roots + [[]]
  {
    SortAllMembers(roots);
    forall i | 0 <= i < |roots| ensures SortAll(StartOf, roots)[i] == roots[i] {
      SortedStays(StartOf, roots[i]);
    }
    assert SortAll(StartOf, roots) == roots;
    SortedStays(FirstStart, roots);
  }

  lemma RunRequest(requests: seq<seq<Span>>, spans: seq<Span>)
    ensures Run(StepsOf(requests + [spans])) == PlaceAll(Next(Run(StepsOf(requests)), NewRequest), spans)
  {
    var all := requests + [spans];
    var n := |requests|;
    assert all[..n] == requests && all[..n + 1] == all && all[n] == spans;
    StepsPrefix(all, n);
  }

  lemma PlaceOne(s: State, spans: seq<Span>)
    requires StateOk(s) && |spans| == 1
    ensures PlaceAll(s, spans) == Next(s, Place(spans[0]))
  {
    assert spans[..1] == spans;
    PlaceAllPrefix(s, spans, 0);
  }

  lemma PlaceTwo(s: State, spans: seq<Span>)
    requires StateOk(s) && |spans| == 2
    ensures PlaceAll(s, spans) == Next(Next(s, Place(spans[0])), Place(spans[1]))
  {
    assert spans[..2] == spans;
    PlaceAllPrefix(s, spans, 1);
    PlaceOne(s, spans[..1]);
  }

  lemma OpenStep(s: State, span: Span)
    requires StateOk(s) && FirstFree(SlotsOf(s.board, span.pid), span.start, span.end) == |SlotsOf(s.board, span.pid)|
    requires span.start != span.end
    ensures var slots := SlotsOf(s.board, span.pid);
      SlotsOf(Next(s, Place(span)).board, span.pid) == slots + [Slot(|slots| + 1, [At(span)])]
  {
    assert Inserted([], span.start, span.end) == [At(span)];
  }

  /** No lane takes the interval. */
  ghost predicate Full(slots: seq<Slot>, iv: Interval) {
    forall i :: 0 <= i < |slots| ==> Overlaps(slots[i].lane, iv.start, iv.end)
  }

  lemma {:induction false} AllReject(slots: seq<Slot>, iv: Interval)
    requires Full(slots, iv)
    ensures FirstFree(slots, iv.start, iv.end) == |slots|
  {
    if slots != [] { AllReject(slots[1..], iv); }
  }

  /** A request with one span that every lane rejects opens a lane. */
  lemma OpensRequest(s: State, spans: seq<Span>)
    requires StateOk(s) && |spans| == 1 && spans[0].start != spans[0].end
    requires Full(SlotsOf(s.board, spans[0].pid), At(spans[0]))
    ensures var slots := SlotsOf(s.board, spans[0].pid);
      var s' := PlaceAll(Next(s, NewRequest), spans);
      SlotsOf(s'.board, spans[0].pid) == slots + [Slot(|slots| + 1, [At(spans[0])])]
  {
    var s0, span := Next(s, NewRequest), spans[0];
    PlaceOne(s0, spans);
    AllReject(SlotsOf(s0.board, span.pid), At(span));
    OpenStep(s0, span);
  }

  // The requests grow by one; only the process's lanes are looked at.

  lemma OpensMore(requests: seq<seq<Span>>, p: Pid, slots: seq<Slot>, iv: Interval) returns (more: seq<seq<Span>>)
    requires SlotsOf(Run(StepsOf(requests)).board, p) == slots && iv.start != iv.end
    requires Full(slots, iv)
    ensures more == requests + [[SpanAt(p, iv)]]
    ensures SlotsOf(Run(StepsOf(more)).board, p) == slots + [Slot(|slots| + 1, [iv])]
  {
    var spans := [SpanAt(p, iv)];
    more := requests + [spans];
    RunRequest(requests, spans);
    OpensRequest(Run(StepsOf(requests)), spans);
  }

  /** The gateway's empty list at the end changes no lane. */
  lemma EmptyGateway(requests: seq<seq<Span>>, p: Pid, slots: seq<Slot>) returns (more: seq<seq<Span>>)
    requires SlotsOf(Run(StepsOf(requests)).board, p) == slots
    ensures more == requests + [[]] && SlotsOf(Run(StepsOf(more)).board, p) == slots
  {
    var none: seq<Span> := [];
    more := requests + [none];
    RunRequest(requests, none);
  }

  // ----- Start order -----

  /** Four spans of one process, of which no instant sees three, from three roots: the first root's
      second span starts last but is laid out before the others. */
  ghost predicate Staggered(a: Interval, b: Interval, c: Interval, d: Interval) {
    a.start < c.start < a.end <= d.start < c.end <= b.start < d.end && b.start < b.end
  }

  lemma LaterFits(a: Interval, b: Interval)
    requires a.start < b.start && a.end <= b.start
    ensures !Overlaps([a], b.start, b.end) && Inserted([a], b.start, b.end) == [a, b]
  {
  }

  lemma StaggeredLanes(a: Interval, b: Interval, c: Interval, d: Interval)
    requires Staggered(a, b, c, d)
    ensures Overlaps([a, b], c.start, c.end) && Overlaps([a, b], d.start, d.end) && Overlaps([c], d.start, d.end)
  {
    var ab := [a, b];
    assert BisectLeft(ab, Opening(c.start), 0, 2) == BisectLeft(ab, Opening(c.start), 0, 1) == 1;
    assert BisectLeft(ab, Opening(d.start), 0, 2) == BisectLeft(ab, Opening(d.start), 0, 1) == 1;
  }

  lemma TwoOnFirstLane(s: State, spans: seq<Span>, p: Pid, a: Interval, b: Interval) returns (s': State)
    requires StateOk(s) && SlotsOf(s.board, p) == [] && spans == [SpanAt(p, a), SpanAt(p, b)]
    requires a.start < b.start && a.end <= b.start
    ensures StateOk(s') && s' == PlaceAll(Next(s, NewRequest), spans)
    ensures SlotsOf(s'.board, p) == [Slot(1, [a, b])]
  {
    LaterFits(a, b);
    var s0 := Next(s, NewRequest);
    PlaceTwo(s0, spans);
    var s1 := FirstLaneStep(s0, spans[0]);
    s' := OneLaneStep(s1, [a], spans[1]);
  }

  lemma FirstRoot(p: Pid, a: Interval, b: Interval) returns (more: seq<seq<Span>>)
    requires a.start < b.start && a.end <= b.start
    ensures more == [[SpanAt(p, a), SpanAt(p, b)]]
    ensures SlotsOf(Run(StepsOf(more)).board, p) == [Slot(1, [a, b])]
  {
    var none: seq<seq<Span>>, spans := [], [SpanAt(p, a), SpanAt(p, b)];
    more := none + [spans];
    RunRequest(none, spans);
    var s := TwoOnFirstLane(Run([]), spans, p, a, b);
  }

  lemma StaggeredFull(a: Interval, b: Interval, c: Interval, d: Interval) returns (one: seq<Slot>, two: seq<Slot>)
    requires Staggered(a, b, c, d)
    ensures one == [Slot(1, [a, b])] && two == one + [Slot(2, [c])]
    ensures Full(one, c) && Full(two, d)
  {
    StaggeredLanes(a, b, c, d);
    one := [Slot(1, [a, b])];
    two := one + [Slot(2, [c])];
  }

  lemma StaggeredRoots(p: Pid, a: Interval, b: Interval, c: Interval, d: Interval) returns (roots: seq<seq<Span>>)
    requires Staggered(a, b, c, d)
    ensures roots == [[SpanAt(p, a), SpanAt(p, b)]] + [[SpanAt(p, c)]] + [[SpanAt(p, d)]]
    ensures SlotsOf(Run(StepsOf(roots)).board, p) == [Slot(1, [a, b])] + [Slot(2, [c])] + [Slot(3, [d])]
  {
    var one, two := StaggeredFull(a, b, c, d);
    roots := FirstRoot(p, a, b);
    roots := OpensMore(roots, p, one, c);
    roots := OpensMore(roots, p, two, d);
  }

  lemma StaggeredInOrder(p: Pid, a: Interval, b: Interval, c: Interval, d: Interval, roots: seq<seq<Span>>)
    requires Staggered(a, b, c, d)
    requires roots == [[SpanAt(p, a), SpanAt(p, b)]] + [[SpanAt(p, c)]] + [[SpanAt(p, d)]]
    ensures Requests(roots, []) == roots + [[]]
  {
    RequestsInOrder(roots);
  }

  lemma StaggeredProper(p: Pid, a: Interval, b: Interval, c: Interval, d: Interval, spans: seq<Span>, lanes: seq<int>)
    requires Staggered(a, b, c, d)
    requires spans == [SpanAt(p, a), SpanAt(p, b), SpanAt(p, c), SpanAt(p, d)] && lanes == [1, 2, 2, 1]
    ensures Proper(spans, p, lanes)
  {
  }

  /** Three roots, sorted as the pass leaves them, open three lanes although two lanes show the same
      spans properly. */
  lemma OutOfOrderWastesLane(p: Pid, a: Interval, b: Interval, c: Interval, d: Interval)
      returns (roots: seq<seq<Span>>, requests: seq<seq<Span>>, spans: seq<Span>)
    requires Staggered(a, b, c, d)
    ensures roots == [[SpanAt(p, a), SpanAt(p, b)]] + [[SpanAt(p, c)]] + [[SpanAt(p, d)]]
    ensures requests == Requests(roots, []) == roots + [[]]
    ensures SlotsOf(Run(StepsOf(requests)).board, p) == [Slot(1, [a, b])] + [Slot(2, [c])] + [Slot(3, [d])]
    ensures spans == [SpanAt(p, a), SpanAt(p, b), SpanAt(p, c), SpanAt(p, d)]
    ensures Proper(spans, p, [1, 2, 2, 1])
  {
    spans := [SpanAt(p, a), SpanAt(p, b), SpanAt(p, c), SpanAt(p, d)];
    StaggeredProper(p, a, b, c, d, spans, [1, 2, 2, 1]);
    roots := StaggeredRoots(p, a, b, c, d);
    requests := EmptyGateway(roots, p, [Slot(1, [a, b])] + [Slot(2, [c])] + [Slot(3, [d])]);
    StaggeredInOrder(p, a, b, c, d, roots);
  }

  // ----- Positive lengths -----

  lemma SameStartRejects(x: int, y: int) returns (slots: seq<Slot>)
    requires x < y
    ensures slots == [Slot(1, [Interval(x, x)])] && Full(slots, Interval(x, y))
  {
    slots := [Slot(1, [Interval(x, x)])];
    assert BisectLeft([Interval(x, x)], Opening(x), 0, 1) == 0;
  }

  lemma ZeroThenLonger(s: State, spans: seq<Span>, p: Pid, x: int, y: int) returns (s': State)
    requires StateOk(s) && SlotsOf(s.board, p) == []
    requires x < y && spans == [Span(p, x, x), Span(p, x, y)]
    ensures StateOk(s') && s' == PlaceAll(Next(s, NewRequest), spans)
    ensures SlotsOf(s'.board, p) == [Slot(1, [Interval(x, x)])] + [Slot(2, [Interval(x, y)])]
  {
    var s0 := Next(s, NewRequest);
    PlaceTwo(s0, spans);
    var s1 := FirstLaneStep(s0, spans[0]);
    var slots := SameStartRejects(x, y);
    AllReject(slots, Interval(x, y));
    OpenStep(s1, spans[1]);
    s' := Next(s1, Place(spans[1]));
  }

  lemma ZeroRoot(p: Pid, x: int, y: int) returns (more: seq<seq<Span>>)
    requires x < y
    ensures more == [[Span(p, x, x), Span(p, x, y)]]
    ensures SlotsOf(Run(StepsOf(more)).board, p) == [Slot(1, [Interval(x, x)])] + [Slot(2, [Interval(x, y)])]
  {
    var none: seq<seq<Span>>, spans := [], [Span(p, x, x), Span(p, x, y)];
    more := none + [spans];
    RunRequest(none, spans);
    var s := ZeroThenLonger(Run([]), spans, p, x, y);
  }

  lemma ZeroDepth(spans: seq<Span>, p: Pid, x: int, y: int, t: int)
    requires spans == [Span(p, x, x), Span(p, x, y)]
    ensures Depth(spans, p, t) <= 1
  {
    var first := spans[..1];
    assert first[..0] == [];
    assert Depth(first, p, t) == 0;
  }

  lemma ZeroProper(p: Pid, x: int, y: int) returns (spans: seq<Span>)
    ensures spans == [Span(p, x, x), Span(p, x, y)] && Proper(spans, p, [1, 1])
    ensures forall t :: Depth(spans, p, t) <= 1
  {
    spans := [Span(p, x, x), Span(p, x, y)];
    forall t ensures Depth(spans, p, t) <= 1 { ZeroDepth(spans, p, x, y, t); }
  }

  /** One root with a zero-length span and a longer one from the same instant, in start order: two
      lanes, although no instant sees two spans and one lane shows both properly. */
  lemma ZeroLengthWastesLane(p: Pid, x: int, y: int)
      returns (roots: seq<seq<Span>>, requests: seq<seq<Span>>, spans: seq<Span>)
    requires x < y
    ensures spans == [Span(p, x, x), Span(p, x, y)] && roots == [spans]
    ensures requests == Requests(roots, []) == roots + [[]]
    ensures SlotsOf(Run(StepsOf(requests)).board, p) == [Slot(1, [Interval(x, x)])] + [Slot(2, [Interval(x, y)])]
    ensures Proper(spans, p, [1, 1])
    ensures forall t :: Depth(spans, p, t) <= 1
  {
    spans := ZeroProper(p, x, y);
    roots := ZeroRoot(p, x, y);
    requests := EmptyGateway(roots, p, [Slot(1, [Interval(x, x)])] + [Slot(2, [Interval(x, y)])]);
    RequestsInOrder(roots);
  }
}
