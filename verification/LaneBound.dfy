/** How many lanes a process gets when several roots use it: at least its busiest instant, and at
    most the busiest instants of the roots added up. */
module LaneBound {
  import opened Ordering
  import opened Lanes
  import opened Layout
  import opened LaneOptimality
  import opened TraceSteps
  import opened TraceLayout

  // ----- The busiest instant -----

  ghost predicate IsBusiest(spans: seq<Span>, p: Pid, m: nat) {
    (forall t :: Depth(spans, p, t) <= m) && exists t :: Depth(spans, p, t) == m
  }

  lemma {:induction false} DepthBounded(spans: seq<Span>, p: Pid, t: int)
    ensures Depth(spans, p, t) <= |spans|
  {
    if spans != [] { DepthBounded(spans[..|spans| - 1], p, t); }
  }

  /** Climb from an instant to the busiest one. */
  lemma {:induction false} Climb(spans: seq<Span>, p: Pid, t: int) returns (m: nat)
    ensures IsBusiest(spans, p, m)
    decreases |spans| - Depth(spans, p, t)
  {
    DepthBounded(spans, p, t);
    if t' :| Depth(spans, p, t') > Depth(spans, p, t) {
      DepthBounded(spans, p, t');
      m := Climb(spans, p, t');
    } else {
      m := Depth(spans, p, t);
    }
  }

  /** The greatest number of the process's spans that cover one instant. */
  ghost function Busiest(spans: seq<Span>, p: Pid): (m: nat)
    ensures IsBusiest(spans, p, m)
  {
    assert exists m: nat :: IsBusiest(spans, p, m) by {
      var m := Climb(spans, p, 0);
    }
    var m: nat :| IsBusiest(spans, p, m);
    m
  }

  lemma SameBusiest(a: seq<Span>, b: seq<Span>, p: Pid)
    requires forall t :: Depth(a, p, t) == Depth(b, p, t)
    ensures Busiest(a, p) == Busiest(b, p)
  {
    var s :| Depth(a, p, s) == Busiest(a, p);
    var t :| Depth(b, p, t) == Busiest(b, p);
    assert Depth(a, p, t) == Depth(b, p, t);
    assert Depth(a, p, s) == Depth(b, p, s);
  }

  // ----- One request -----

  ghost predicate SortedPositive(spans: seq<Span>, p: Pid) {
    && (forall j, k :: 0 <= j < k < |spans| ==> spans[j].start <= spans[k].start)
    && (forall k :: 0 <= k < |spans| && spans[k].pid == p ==> Positive(At(spans[k])))
  }

  /** What the first `k` spans of a request did to the lanes after the first `n`: these show only
      spans of the request, none of which starts after span `k - 1`. */
  ghost predicate OwnLanes(slots: seq<Slot>, n: nat, spans: seq<Span>, p: Pid, k: nat)
    requires k <= |spans|
  {
    && n <= |slots| && LanesOk(slots)
    && (k == 0 ==> |slots| == n)
    && (k > 0 ==> NoneStartsAfter(slots[n..], spans[k - 1].start))
    && (forall t :: LaneDepth(slots[n..], t) <= Depth(spans[..k], p, t))
  }

  lemma NoneLater(slots: seq<Slot>, t: int, t': int)
    requires NoneStartsAfter(slots, t) && t <= t'
    ensures NoneStartsAfter(slots, t')
  {
  }

  /** Spans of other processes change nothing. */
  lemma OwnOther(slots: seq<Slot>, n: nat, spans: seq<Span>, p: Pid, k: nat)
    requires SortedPositive(spans, p) && k < |spans| && OwnLanes(slots, n, spans, p, k) && spans[k].pid != p
    ensures OwnLanes(slots, n, spans, p, k + 1)
  {
    if k > 0 { NoneLater(slots[n..], spans[k - 1].start, spans[k].start); }
    forall t ensures Depth(spans[..k + 1], p, t) == Depth(spans[..k], p, t) { DepthStep(spans, p, k, t); }
  }

  lemma DepthStep(spans: seq<Span>, p: Pid, k: nat, t: int)
    requires k < |spans|
    ensures Depth(spans[..k + 1], p, t)
         == Depth(spans[..k], p, t) + (if spans[k].pid == p && Covers(At(spans[k]), t) then 1 else 0)
  {
    assert spans[..k + 1][..k] == spans[..k];
  }

  lemma InsertedMembers(ivs: seq<Interval>, start: int, end: int)
    ensures forall iv :: iv in Inserted(ivs, start, end) ==> iv in ivs || iv == Interval(start, end)
  {
  }

  /** The lanes after the first `n` when a span goes onto one of the first `n`. */
  lemma OwnElsewhere(slots: seq<Slot>, n: nat, span: Span, line: int)
    requires 1 <= line <= n <= |slots|
    ensures PutSlots(slots, span.start, span.end, line)[n..] == slots[n..]
  {
  }

  /** The lanes after the first `n` when a span goes onto one of them, old or new. */
  lemma OwnPut(slots: seq<Slot>, n: nat, span: Span, line: int, t: int)
    requires n <= |slots| && n < line <= |slots| + 1
    ensures var after := PutSlots(slots, span.start, span.end, line);
      LaneDepth(after[n..], t) == LaneDepth(slots[n..], t) + (if Covers(At(span), t) then 1 else 0)
  {
    var own, after := slots[n..], PutSlots(slots, span.start, span.end, line);
    var lane := if line == |slots| + 1 then [] else slots[line - 1].lane;
    var slot := Slot(line, Inserted(lane, span.start, span.end));
    CountInserted(lane, span.start, span.end, t);
    if line == |slots| + 1 {
      assert after[n..] == own + [slot];
      assert (own + [slot])[..|own|] == own;
    } else {
      LaneDepthUpdate(own, line - 1 - n, slot, t);
      assert after[n..] == own[line - 1 - n := slot];
    }
  }

  lemma OwnStarts(slots: seq<Slot>, n: nat, span: Span, line: int)
    requires n <= |slots| && n < line <= |slots| + 1 && Positive(At(span)) && NoneStartsAfter(slots[n..], span.start)
    ensures NoneStartsAfter(PutSlots(slots, span.start, span.end, line)[n..], span.start)
  {
    var own, after := slots[n..], PutSlots(slots, span.start, span.end, line);
    var lane := if line == |slots| + 1 then [] else slots[line - 1].lane;
    InsertedMembers(lane, span.start, span.end);
    forall i, iv | 0 <= i < |after[n..]| && iv in after[n..][i].lane ensures Positive(iv) && iv.start <= span.start {
      assert after[n..][i] == after[n + i];
      if n + i != line - 1 {
        assert own[i] == slots[n + i] == after[n + i];
      } else if line <= |slots| {
        assert own[i] == slots[line - 1];
      }
    }
  }

  /** The line takes the span, and if it is new no other does. */
  ghost predicate Fits(slots: seq<Slot>, span: Span, line: int) {
    && 1 <= line <= |slots| + 1
    && (if line <= |slots| then !Overlaps(slots[line - 1].lane, span.start, span.end) else FirstFit(slots, span, line))
  }

  /** One span of the process: the lanes stay as described, and a lane is opened only where all own
      lanes and the span are busy. */
  lemma OwnStep(slots: seq<Slot>, n: nat, spans: seq<Span>, p: Pid, k: nat, line: int)
    requires SortedPositive(spans, p) && k < |spans| && spans[k].pid == p && OwnLanes(slots, n, spans, p, k)
    requires Fits(slots, spans[k], line)
    ensures OwnLanes(PutSlots(slots, spans[k].start, spans[k].end, line), n, spans, p, k + 1)
    ensures line == |slots| + 1 ==> Depth(spans[..k + 1], p, spans[k].start) >= |slots| + 1 - n
  {
    var span, own := spans[k], slots[n..];
    var after := PutSlots(slots, span.start, span.end, line);
    if k > 0 { NoneLater(own, spans[k - 1].start, span.start); }
    PutSlotsExact(slots, span.start, span.end, line);
    if line <= n {
      OwnElsewhere(slots, n, span, line);
    } else {
      OwnStarts(slots, n, span, line);
    }
    forall t ensures LaneDepth(after[n..], t) <= Depth(spans[..k + 1], p, t) {
      DepthStep(spans, p, k, t);
      if line > n { OwnPut(slots, n, span, line, t); }
    }
    if line == |slots| + 1 {
      OwnOpening(slots, n, spans, p, k);
    }
  }

  lemma OwnOpening(slots: seq<Slot>, n: nat, spans: seq<Span>, p: Pid, k: nat)
    requires SortedPositive(spans, p) && k < |spans| && spans[k].pid == p && OwnLanes(slots, n, spans, p, k)
    requires FirstFit(slots, spans[k], |slots| + 1) && NoneStartsAfter(slots[n..], spans[k].start)
    ensures Depth(spans[..k + 1], p, spans[k].start) >= |slots| + 1 - n
  {
    var span, own := spans[k], slots[n..];
    forall i | 0 <= i < |own| ensures Overlaps(own[i].lane, span.start, span.end) && LaneOk(own[i].lane) {
      assert own[i] == slots[n + i];
    }
    AllBusy(own, span.start, span.end);
    DepthStep(spans, p, k, span.start);
  }

  lemma ChosenFits(s: State, span: Span)
    requires StateOk(s) && Positive(At(span))
    ensures var slots, line := SlotsOf(s.board, span.pid), ChooseLine(s.board, s.status, span);
      Fits(slots, span, line)
  {
    ChosenExactly(s.board, s.status, span, ChooseLine(s.board, s.status, span));
  }

  /** The lanes after the first `k` spans of a request; at `t` as many of them overlap as lanes were opened. */
  ghost predicate Opens(s: State, n: nat, spans: seq<Span>, p: Pid, k: nat, t: int)
    requires StateOk(s) && k <= |spans|
  {
    OwnLanes(SlotsOf(s.board, p), n, spans, p, k) && Depth(spans[..k], p, t) >= |SlotsOf(s.board, p)| - n
  }

  /** One more span of the request; `t` is an instant as deep as lanes were opened. */
  lemma RequestStep(s: State, spans: seq<Span>, p: Pid, k: nat, n: nat, t: int) returns (t': int)
    requires StateOk(s) && SortedPositive(spans, p) && k < |spans| && Opens(s, n, spans, p, k, t)
    ensures Opens(Next(s, Place(spans[k])), n, spans, p, k + 1, t')
  {
    var slots, span := SlotsOf(s.board, p), spans[k];
    StepSlots(s, Place(span), p);
    DepthStep(spans, p, k, t);
    t' := t;
    if span.pid == p {
      var line := ChooseLine(s.board, s.status, span);
      ChosenFits(s, span);
      OwnStep(slots, n, spans, p, k, line);
      if line == |slots| + 1 { t' := span.start; }
    } else {
      OwnOther(slots, n, spans, p, k);
    }
  }

  lemma OpensNext(s: State, before: State, spans: seq<Span>, p: Pid, k: nat, n: nat, u: int) returns (s': State, t: int)
    requires StateOk(s) && k < |spans| && SortedPositive(spans, p)
    requires StateOk(before) && before == PlaceAll(s, spans[..k]) && Opens(before, n, spans, p, k, u)
    ensures StateOk(s') && s' == PlaceAll(s, spans[..k + 1]) && Opens(s', n, spans, p, k + 1, t)
  {
    s' := Next(before, Place(spans[k]));
    t := RequestStep(before, spans, p, k, n, u);
    PlaceAllPrefix(s, spans, k);
  }

  /** Over a request: it opens at most as many lanes as its own spans overlap at some instant. */
  lemma {:induction false} RequestOpens(s: State, spans: seq<Span>, p: Pid, n: nat, k: nat) returns (s': State, t: int)
    requires StateOk(s) && LanesOk(SlotsOf(s.board, p)) && SortedPositive(spans, p) && k <= |spans|
    requires n == |SlotsOf(s.board, p)|
    ensures StateOk(s') && s' == PlaceAll(s, spans[..k]) && Opens(s', n, spans, p, k, t)
  {
    if k == 0 {
      s', t := s, 0;
      OpensNone(s, spans, p, n);
    } else {
      var before, u := RequestOpens(s, spans, p, n, k - 1);
      s', t := OpensNext(s, before, spans, p, k - 1, n, u);
    }
  }

  lemma OpensNone(s: State, spans: seq<Span>, p: Pid, n: nat)
    requires StateOk(s) && LanesOk(SlotsOf(s.board, p)) && n == |SlotsOf(s.board, p)|
    ensures s == PlaceAll(s, spans[..0]) && Opens(s, n, spans, p, 0, 0)
  {
    assert spans[..0] == [] && SlotsOf(s.board, p)[n..] == [];
  }

  // ----- All requests -----

  ghost function SumBusiest(requests: seq<seq<Span>>, p: Pid): nat {
    if requests == [] then 0 else SumBusiest(requests[1..], p) + Busiest(requests[0], p)
  }

  lemma {:induction false} SumConcat(a: seq<seq<Span>>, b: seq<seq<Span>>, p: Pid)
    ensures SumBusiest(a + b, p) == SumBusiest(a, p) + SumBusiest(b, p)
  {
    if a == [] {
      assert a + b == b;
    } else {
      SumConcat(a[1..], b, p);
      assert (a + b)[1..] == a[1..] + b;
    }
  }

  lemma SumOne(spans: seq<Span>, p: Pid)
    ensures SumBusiest([spans], p) == Busiest(spans, p)
  {
    assert [spans][1..] == [];
  }

  lemma RequestLanes(requests: seq<seq<Span>>, spans: seq<Span>, p: Pid)
    requires SortedPositive(spans, p) && LanesOk(SlotsOf(Run(StepsOf(requests)).board, p))
    ensures var slots := SlotsOf(Run(StepsOf(requests + [spans])).board, p);
      LanesOk(slots) && |slots| <= |SlotsOf(Run(StepsOf(requests)).board, p)| + Busiest(spans, p)
  {
    var all, r := requests + [spans], |requests|;
    assert all[..r] == requests && all[..r + 1] == all && all[r] == spans;
    StepsPrefix(all, r);
    var s := Next(Run(StepsOf(requests)), NewRequest);
    var s', t := RequestOpens(s, spans, p, |SlotsOf(s.board, p)|, |spans|);
    assert spans[..|spans|] == spans;
    assert Depth(spans, p, t) <= Busiest(spans, p);
  }

  /** The lanes of a process are at most its requests' busiest instants added up. */
  lemma {:induction false} LanesWithinSum(requests: seq<seq<Span>>, p: Pid)
    requires forall r :: 0 <= r < |requests| ==> SortedPositive(requests[r], p)
    ensures var slots := SlotsOf(Run(StepsOf(requests)).board, p);
      LanesOk(slots) && |slots| <= SumBusiest(requests, p)
  {
    if requests != [] {
      var n := |requests| - 1;
      var init, last := requests[..n], requests[n];
      assert requests == init + [last];
      LanesWithinSum(init, p);
      RequestLanes(init, last, p);
      SumConcat(init, [last], p);
      SumOne(last, p);
    }
  }

  // ----- Whole traces -----

  lemma SortBusiest(spans: seq<Span>, p: Pid)
    ensures Busiest(SortBy(StartOf, spans), p) == Busiest(spans, p)
  {
    forall t ensures Depth(SortBy(StartOf, spans), p, t) == Depth(spans, p, t) { SortDepth(spans, p, t); }
    SameBusiest(SortBy(StartOf, spans), spans, p);
  }

  lemma {:induction false} SumSortAll(roots: seq<seq<Span>>, p: Pid)
    ensures SumBusiest(SortAll(StartOf, roots), p) == SumBusiest(roots, p)
  {
    if roots != [] {
      SumSortAll(roots[1..], p);
      SortBusiest(roots[0], p);
      assert SortAll(StartOf, roots)[1..] == SortAll(StartOf, roots[1..]);
    }
  }

  lemma {:induction false} SumInsert(x: seq<Span>, xs: seq<seq<Span>>, p: Pid)
    ensures SumBusiest(InsertBy(FirstStart, x, xs), p) == Busiest(x, p) + SumBusiest(xs, p)
  {
    if xs == [] || FirstStart(x) <= FirstStart(xs[0]) {
      assert ([x] + xs)[1..] == xs;
    } else {
      SumInsert(x, xs[1..], p);
      var rest := InsertBy(FirstStart, x, xs[1..]);
      assert ([xs[0]] + rest)[1..] == rest;
    }
  }

  lemma {:induction false} SumSort(xs: seq<seq<Span>>, p: Pid)
    ensures SumBusiest(SortBy(FirstStart, xs), p) == SumBusiest(xs, p)
  {
    if xs != [] {
      SumSort(xs[1..], p);
      SumInsert(xs[0], SortBy(FirstStart, xs[1..]), p);
    }
  }

  lemma SumRequests(roots: seq<seq<Span>>, smg: seq<Span>, p: Pid)
    ensures SumBusiest(Requests(roots, smg), p) == SumBusiest(roots + [smg], p)
  {
    var sorted, last := SortAll(StartOf, roots), SortBy(StartOf, smg);
    SumSortAll(roots, p);
    SumSort(sorted, p);
    SortBusiest(smg, p);
    SumConcat(SortBy(FirstStart, sorted), [last], p);
    SumOne(last, p);
    SumConcat(roots, [smg], p);
    SumOne(smg, p);
  }

  /** Any trace with positive spans of the process: the lanes opened are at least the spans at the
      busiest instant of the input, and at most the busiest instants of the roots (and the gateway)
      added up. */
  lemma TraceLanesBetween(roots: seq<seq<Span>>, smg: seq<Span>, p: Pid)
    requires AllPositive(roots + [smg], p)
    ensures var n := |SlotsOf(Run(StepsOf(Requests(roots, smg))).board, p)|;
      (forall t :: TotalDepth(roots + [smg], p, t) <= n) && n <= SumBusiest(roots + [smg], p)
  {
    var requests: seq<seq<Span>> := Requests(roots, smg);
    RequestsSorted(roots, smg);
    RequestsPositive(roots, smg, p);
    forall r | 0 <= r < |requests| ensures SortedPositive(requests[r], p) {
    }
    LanesWithinSum(requests, p);
    SumRequests(roots, smg, p);
    var slots := SlotsOf(Run(StepsOf(requests)).board, p);
    forall t ensures TotalDepth(roots + [smg], p, t) <= |slots| {
      DepthAtMostLanes(slots, t);
      RunDepth(StepsOf(requests), p, t);
      SpansFlat(requests);
      FlatDepth(requests, p, t);
      RequestTotals(roots, smg, p, t);
    }
  }

  // ----- One root -----

  lemma {:induction false} UnusedDepth(spans: seq<Span>, p: Pid, t: int)
    requires !Uses(spans, p)
    ensures Depth(spans, p, t) == 0
  {
    if spans != [] {
      var n := |spans| - 1;
      assert forall k :: 0 <= k < n ==> spans[..n][k] == spans[k];
      UnusedDepth(spans[..n], p, t);
    }
  }

  lemma UnusedBusiest(spans: seq<Span>, p: Pid)
    requires !Uses(spans, p)
    ensures Busiest(spans, p) == 0
  {
    var t :| Depth(spans, p, t) == Busiest(spans, p);
    UnusedDepth(spans, p, t);
  }

  lemma {:induction false} NoUsers(requests: seq<seq<Span>>, p: Pid, t: int)
    requires Users(requests, p) == 0
    ensures TotalDepth(requests, p, t) == SumBusiest(requests, p) == 0
  {
    if requests != [] {
      NoUsers(requests[1..], p, t);
      UnusedDepth(requests[0], p, t);
      UnusedBusiest(requests[0], p);
    }
  }

  /** If one root uses the process, its busiest instant is the trace's. */
  lemma {:induction false} OneUserSum(requests: seq<seq<Span>>, p: Pid) returns (t: int)
    requires Users(requests, p) <= 1
    ensures TotalDepth(requests, p, t) == SumBusiest(requests, p)
  {
    t := 0;
    if requests != [] {
      if Uses(requests[0], p) {
        t :| Depth(requests[0], p, t) == Busiest(requests[0], p);
        NoUsers(requests[1..], p, t);
      } else {
        t := OneUserSum(requests[1..], p);
        UnusedDepth(requests[0], p, t);
        UnusedBusiest(requests[0], p);
      }
    }
  }

  /** The lanes of a whole trace.  If a process's spans are positive and come from one root only
      (or, for the gateway, from the gateway's list), then the trace opens exactly as many lanes
      for it as spans of it overlap at the busiest instant of the input, and no layout of the
      placed spans without overlap uses fewer. */
  lemma TraceLanesOptimal(roots: seq<seq<Span>>, smg: seq<Span>, p: Pid, lanes: seq<int>)
    requires AllPositive(roots + [smg], p) && Users(roots + [smg], p) <= 1
    requires Proper(Flat(Requests(roots, smg)), p, lanes)
    ensures var n := |SlotsOf(Run(StepsOf(Requests(roots, smg))).board, p)|;
            && (forall t :: TotalDepth(roots + [smg], p, t) <= n)
            && (exists t :: TotalDepth(roots + [smg], p, t) == n)
            && n <= |LanesUsed(Flat(Requests(roots, smg)), p, lanes)|
  {
    var spans := Flat(Requests(roots, smg));
    TraceLanesBetween(roots, smg, p);
    var t := OneUserSum(roots + [smg], p);
    FlatDepth(Requests(roots, smg), p, t);
    RequestTotals(roots, smg, p, t);
    DepthNeedsLanes(spans, p, lanes, t);
    SubsetNotLarger(LanesShowing(spans, p, lanes, t), LanesUsed(spans, p, lanes));
  }
}
