/** The layout opens as few lanes as any layout could, when a process's spans have positive
    length and arrive in start order. */
module LaneOptimality {
  import opened Lanes
  import opened Layout

  /** How many of the process's spans cover instant `t`. */
  function Depth(spans: seq<Span>, p: Pid, t: int): nat {
    if spans == [] then 0
    else
      var last := spans[|spans| - 1];
      Depth(spans[..|spans| - 1], p, t) + (if last.pid == p && Covers(At(last), t) then 1 else 0)
  }

  function LaneDepth(slots: seq<Slot>, t: int): nat {
    if slots == [] then 0
    else LaneDepth(slots[..|slots| - 1], t) + CountCovering(slots[|slots| - 1].lane, t)
  }

  lemma {:induction false} LaneDepthUpdate(slots: seq<Slot>, i: nat, slot: Slot, t: int)
    requires i < |slots|
    ensures LaneDepth(slots[i := slot], t) + CountCovering(slots[i].lane, t)
         == LaneDepth(slots, t) + CountCovering(slot.lane, t)
  {
    var slots' := slots[i := slot];
    var n := |slots| - 1;
    if i == n {
      assert slots'[..n] == slots[..n];
    } else {
      LaneDepthUpdate(slots[..n], i, slot, t);
      assert slots'[..n] == slots[..n][i := slot];
    }
  }

  lemma PutDepth(b: Board, span: Span, line: int, p: Pid, t: int)
    requires 1 <= line <= |SlotsOf(b, span.pid)| + 1
    ensures LaneDepth(SlotsOf(Put(b, span, line), p), t)
         == LaneDepth(SlotsOf(b, p), t) + (if span.pid == p && Covers(At(span), t) then 1 else 0)
  {
    if span.pid == p {
      var slots := SlotsOf(b, p);
      var lane := if line == |slots| + 1 then [] else slots[line - 1].lane;
      var slot := Slot(line, Inserted(lane, span.start, span.end));
      CountInserted(lane, span.start, span.end, t);
      if line == |slots| + 1 {
      } else {
        LaneDepthUpdate(slots, line - 1, slot, t);
      }
    }
  }

  /** The lanes show exactly the placed spans, instant by instant. */
  lemma {:induction false} RunDepth(steps: seq<Step>, p: Pid, t: int)
    ensures LaneDepth(SlotsOf(Run(steps).board, p), t) == Depth(Spans(steps), p, t)
  {
    if steps != [] {
      var init, last := steps[..|steps| - 1], steps[|steps| - 1];
      RunDepth(init, p, t);
      if last.Place? {
        var s := Run(init);
        PutDepth(s.board, last.span, ChooseLine(s.board, s.status, last.span), p, t);
      }
    }
  }

  lemma {:induction false} DepthAtMostLanes(slots: seq<Slot>, t: int)
    requires LanesOk(slots)
    ensures LaneDepth(slots, t) <= |slots|
  {
    if slots != [] {
      DepthAtMostLanes(slots[..|slots| - 1], t);
      LaneCoversOnce(slots[|slots| - 1].lane, t);
    }
  }

  /** The process's spans have positive length and arrive in start order. */
  predicate InOrder(spans: seq<Span>, p: Pid) {
    && (forall k :: 0 <= k < |spans| && spans[k].pid == p ==> Positive(At(spans[k])))
    && (forall i, j :: 0 <= i < j < |spans| && spans[i].pid == p && spans[j].pid == p ==>
         spans[i].start <= spans[j].start)
  }

  predicate NoneStartsAfter(slots: seq<Slot>, t: int) {
    forall i, iv :: 0 <= i < |slots| && iv in slots[i].lane ==> Positive(iv) && iv.start <= t
  }

  lemma {:induction false} AllBusy(slots: seq<Slot>, start: int, end: int)
    requires LanesOk(slots) && NoneStartsAfter(slots, start)
    requires forall i :: 0 <= i < |slots| ==> Overlaps(slots[i].lane, start, end)
    ensures LaneDepth(slots, start) >= |slots|
  {
    if slots != [] {
      var n := |slots| - 1;
      AllBusy(slots[..n], start, end);
      assert Overlaps(slots[n].lane, start, end);
      LateOverlapCoversStart(slots[n].lane, start, end);
    }
  }

  lemma StoredStartEarlier(steps: seq<Step>, p: Pid, start: int)
    requires forall k :: 0 <= k < |Spans(steps)| && Spans(steps)[k].pid == p ==>
                           Positive(At(Spans(steps)[k])) && Spans(steps)[k].start <= start
    ensures NoneStartsAfter(SlotsOf(Run(steps).board, p), start)
  {
    RunTracks(steps, p);
    var slots, spans, lines := SlotsOf(Run(steps).board, p), Spans(steps), Run(steps).lines;
    forall i, iv | 0 <= i < |slots| && iv in slots[i].lane ensures Positive(iv) && iv.start <= start {
      assert HasSource(spans, lines, p, i + 1, iv);
    }
  }

  lemma InOrderInit(spans: seq<Span>, span: Span, p: Pid)
    requires InOrder(spans + [span], p)
    ensures InOrder(spans, p)
    ensures span.pid == p ==> Positive(At(span))
    ensures span.pid == p ==> forall k :: 0 <= k < |spans| && spans[k].pid == p ==>
      Positive(At(spans[k])) && spans[k].start <= span.start
  {
    var all := spans + [span];
    assert forall k :: 0 <= k < |spans| ==> all[k] == spans[k];
    assert all[|spans|] == span;
  }

  /** A lane is opened only at an instant at which all lanes and the new span are busy. */
  lemma OpeningIsTight(init: seq<Step>, span: Span)
    requires InOrder(Spans(init) + [span], span.pid)
    requires ChooseLine(Run(init).board, Run(init).status, span) == |SlotsOf(Run(init).board, span.pid)| + 1
    ensures Depth(Spans(init) + [span], span.pid, span.start) >= |SlotsOf(Run(init).board, span.pid)| + 1
  {
    var p, slots := span.pid, SlotsOf(Run(init).board, span.pid);
    InOrderInit(Spans(init), span, p);
    NoZeroLengthClashFree(init, p);
    LaneSafetyExact(init, p);
    StoredStartEarlier(init, p, span.start);
    AllBusy(slots, span.start, span.end);
    RunDepth(init, p, span.start);
  }

  /** Some instant is as deep as there are lanes. */
  lemma {:induction false} SomeInstantFull(steps: seq<Step>, p: Pid) returns (t: int)
    requires InOrder(Spans(steps), p)
    ensures Depth(Spans(steps), p, t) >= |SlotsOf(Run(steps).board, p)|
  {
    t := 0;
    if steps != [] {
      var init, last := steps[..|steps| - 1], steps[|steps| - 1];
      if last.Place? {
        InOrderInit(Spans(init), last.span, p);
        t := SomeInstantFull(init, p);
        var s := Run(init);
        if last.span.pid == p && ChooseLine(s.board, s.status, last.span) == |SlotsOf(s.board, p)| + 1 {
          OpeningIsTight(init, last.span);
          t := last.span.start;
        } else {
        }
      } else {
        t := SomeInstantFull(init, p);
      }
    }
  }

  // ----- Any other layout -----

  predicate Uses(spans: seq<Span>, p: Pid) {
    exists k :: 0 <= k < |spans| && spans[k].pid == p
  }

  /** Any assignment of the spans to lanes that never draws two overlapping spans of the process on one lane. */
  ghost predicate Proper(spans: seq<Span>, p: Pid, lanes: seq<int>) {
    && |lanes| == |spans|
    && forall i, j :: 0 <= i < j < |spans| && spans[i].pid == p && spans[j].pid == p && lanes[i] == lanes[j]
         ==> forall t :: !(Covers(At(spans[i]), t) && Covers(At(spans[j]), t))
  }

  /** The lanes an assignment uses for the process. */
  function LanesUsed(spans: seq<Span>, p: Pid, lanes: seq<int>): set<int>
    requires |lanes| == |spans|
  {
    set k | 0 <= k < |spans| && spans[k].pid == p :: lanes[k]
  }

  /** The lanes on which an assignment shows something at instant `t`. */
  function LanesShowing(spans: seq<Span>, p: Pid, lanes: seq<int>, t: int): set<int>
    requires |lanes| == |spans|
  {
    set k | 0 <= k < |spans| && spans[k].pid == p && Covers(At(spans[k]), t) :: lanes[k]
  }

  lemma {:induction false} DepthNeedsLanes(spans: seq<Span>, p: Pid, lanes: seq<int>, t: int)
    requires Proper(spans, p, lanes)
    ensures |LanesShowing(spans, p, lanes, t)| == Depth(spans, p, t)
  {
    var showing := LanesShowing(spans, p, lanes, t);
    if spans != [] {
      var n := |spans| - 1;
      var before := LanesShowing(spans[..n], p, lanes[..n], t);
      assert Proper(spans[..n], p, lanes[..n]) by {
        forall i, j |
          && 0 <= i < j < n && spans[..n][i].pid == p && spans[..n][j].pid == p
          && lanes[..n][i] == lanes[..n][j]
          ensures forall t' :: !(Covers(At(spans[..n][i]), t') && Covers(At(spans[..n][j]), t'))
        {
          assert spans[..n][i] == spans[i] && spans[..n][j] == spans[j];
        }
      }
      DepthNeedsLanes(spans[..n], p, lanes[..n], t);
      ShowingSnoc(spans, p, lanes, t);
    }
  }

  lemma ShowingSnoc(spans: seq<Span>, p: Pid, lanes: seq<int>, t: int)
    requires spans != [] && Proper(spans, p, lanes)
    ensures var n := |spans| - 1;
            var before := LanesShowing(spans[..n], p, lanes[..n], t);
            if spans[n].pid == p && Covers(At(spans[n]), t)
            then LanesShowing(spans, p, lanes, t) == before + {lanes[n]} && lanes[n] !in before
            else LanesShowing(spans, p, lanes, t) == before
  {
    var n := |spans| - 1;
    var before, showing := LanesShowing(spans[..n], p, lanes[..n], t), LanesShowing(spans, p, lanes, t);
    forall x | x in before ensures x in showing && (spans[n].pid == p && Covers(At(spans[n]), t) ==> x != lanes[n]) {
      var k :| 0 <= k < n && spans[..n][k].pid == p && Covers(At(spans[..n][k]), t) && lanes[..n][k] == x;
      assert spans[k] == spans[..n][k] && lanes[k] == x;
    }
    forall x | x in showing ensures x in before || (x == lanes[n] && spans[n].pid == p && Covers(At(spans[n]), t)) {
      var k :| 0 <= k <= n && spans[k].pid == p && Covers(At(spans[k]), t) && lanes[k] == x;
      if k < n { assert spans[..n][k] == spans[k] && lanes[..n][k] == x; }
    }
  }

  lemma SubsetNotLarger<T>(a: set<T>, b: set<T>)
    requires a <= b
    ensures |a| <= |b|
  {
    assert b == a + (b - a);
  }

  /** Optimality: for a process whose spans are positive and arrive in start order, the number of
      lanes is the greatest number of spans covering one instant, and no proper layout of the
      same spans uses fewer. */
  lemma LanesOptimal(steps: seq<Step>, p: Pid, lanes: seq<int>)
    requires InOrder(Spans(steps), p) && Proper(Spans(steps), p, lanes)
    ensures var n := |SlotsOf(Run(steps).board, p)|;
            && (forall t :: Depth(Spans(steps), p, t) <= n)
            && (exists t :: Depth(Spans(steps), p, t) == n)
            && n <= |LanesUsed(Spans(steps), p, lanes)|
  {
    var slots := SlotsOf(Run(steps).board, p);
    NoZeroLengthClashFree(steps, p);
    LaneSafetyExact(steps, p);
    forall t ensures Depth(Spans(steps), p, t) <= |slots| {
      DepthAtMostLanes(slots, t);
      RunDepth(steps, p, t);
    }
    var t := SomeInstantFull(steps, p);
    DepthNeedsLanes(Spans(steps), p, lanes, t);
    SubsetNotLarger(LanesShowing(Spans(steps), p, lanes, t), LanesUsed(Spans(steps), p, lanes));
  }
}
