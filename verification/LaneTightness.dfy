/** Exactly when the layout has no lane too many, for runs in any order and spans of any length. */
module LaneTightness {
  import opened Lanes
  import opened Layout
  import opened LaneOptimality
  import opened LaneColouring

  /** The process has as many lanes as spans at its busiest instant. */
  ghost predicate AtMaximum(steps: seq<Step>, p: Pid) {
    exists t :: Depth(Spans(steps), p, t) == |SlotsOf(Run(steps).board, p)|
  }

  /** The step opens a lane of the process. */
  predicate Opens(s: State, step: Step, p: Pid)
    requires StatusOk(s.board, s.status)
  {
    step.Place? && step.span.pid == p && ChooseLine(s.board, s.status, step.span) > |SlotsOf(s.board, p)|
  }

  /** At one instant the span and every lane are busy. */
  ghost predicate BusyTogether(slots: seq<Slot>, span: Span) {
    exists t :: BusyAt(slots, span, t)
  }

  predicate BusyAt(slots: seq<Slot>, span: Span, t: int) {
    Covers(At(span), t) && forall i :: 0 <= i < |slots| ==> CountCovering(slots[i].lane, t) >= 1
  }

  ghost predicate TightStep(s: State, step: Step, p: Pid)
    requires StatusOk(s.board, s.status)
  {
    Opens(s, step, p) ==> BusyTogether(SlotsOf(s.board, p), step.span)
  }

  lemma {:induction false} ClashFreePrefix(steps: seq<Step>, p: Pid, k: nat)
    requires ClashFree(steps, p) && k <= |steps|
    ensures ClashFree(steps[..k], p)
  {
    if k < |steps| {
      ClashFreePrefix(steps[..|steps| - 1], p, k);
      assert steps[..|steps| - 1][..k] == steps[..k];
    } else {
      assert steps[..k] == steps;
    }
  }

  /** Lanes in order are full at an instant exactly if each of them is busy. */
  lemma {:induction false} FullExactly(slots: seq<Slot>, t: int)
    requires LanesOk(slots)
    ensures LaneDepth(slots, t) <= |slots|
    ensures LaneDepth(slots, t) == |slots| <==> forall i :: 0 <= i < |slots| ==> CountCovering(slots[i].lane, t) >= 1
  {
    if slots != [] {
      var n := |slots| - 1;
      FullExactly(slots[..n], t);
      LaneCoversOnce(slots[n].lane, t);
      assert forall i :: 0 <= i < n ==> slots[..n][i] == slots[i];
    }
  }

  lemma DepthWithin(steps: seq<Step>, p: Pid, t: int)
    requires ClashFree(steps, p)
    ensures Depth(Spans(steps), p, t) <= |SlotsOf(Run(steps).board, p)|
    ensures Depth(Spans(steps), p, t) == |SlotsOf(Run(steps).board, p)|
       <==> forall i :: 0 <= i < |SlotsOf(Run(steps).board, p)| ==>
           CountCovering(SlotsOf(Run(steps).board, p)[i].lane, t) >= 1
  {
    LaneSafetyExact(steps, p);
    RunDepth(steps, p, t);
    FullExactly(SlotsOf(Run(steps).board, p), t);
  }

  /** A step that opens no lane of the process leaves it at the maximum. */
  lemma KeepsMaximum(init: seq<Step>, step: Step, p: Pid)
    requires ClashFree(init + [step], p) && AtMaximum(init, p) && !Opens(Run(init), step, p)
    ensures AtMaximum(init + [step], p)
  {
    var t :| Depth(Spans(init), p, t) == |SlotsOf(Run(init).board, p)|;
    RunSnoc(init, step);
    SpansSnoc(init, step);
    DepthWithin(init + [step], p, t);
    if step.Place? { DepthSnoc(Spans(init), step.span, p, t); }
    assert Depth(Spans(init + [step]), p, t) == |SlotsOf(Run(init + [step]).board, p)|;
  }

  lemma DepthSnoc(spans: seq<Span>, span: Span, p: Pid, t: int)
    ensures Depth(spans + [span], p, t) == Depth(spans, p, t) + (if span.pid == p && Covers(At(span), t) then 1 else 0)
  {
    assert (spans + [span])[..|spans|] == spans;
  }

  /** An opening leads to the maximum exactly if it is tight. */
  lemma OpensToMaximum(init: seq<Step>, step: Step, p: Pid)
    requires ClashFree(init, p) && ClashFree(init + [step], p) && Opens(Run(init), step, p)
    ensures AtMaximum(init + [step], p) <==> BusyTogether(SlotsOf(Run(init).board, p), step.span)
  {
    var slots, n := SlotsOf(Run(init).board, p), |SlotsOf(Run(init).board, p)|;
    RunSnoc(init, step);
    SpansSnoc(init, step);
    assert |SlotsOf(Run(init + [step]).board, p)| == n + 1;
    forall t ensures Depth(Spans(init + [step]), p, t) == n + 1 <==> BusyAt(slots, step.span, t) {
      DepthWithin(init, p, t);
      DepthSnoc(Spans(init), step.span, p, t);
    }
    if AtMaximum(init + [step], p) {
      var t :| Depth(Spans(init + [step]), p, t) == n + 1;
      assert BusyAt(slots, step.span, t);
    }
    if t :| BusyAt(slots, step.span, t) {
      assert Depth(Spans(init + [step]), p, t) == n + 1;
    }
  }

  ghost predicate MaximumAfter(steps: seq<Step>, p: Pid, k: nat)
    requires k <= |steps|
  {
    AtMaximum(steps[..k], p)
  }

  ghost predicate TightAt(steps: seq<Step>, p: Pid, k: nat)
    requires k < |steps|
  {
    TightStep(Run(steps[..k]), steps[k], p)
  }

  lemma MaximumStep(steps: seq<Step>, p: Pid, k: nat)
    requires ClashFree(steps, p) && k < |steps| && MaximumAfter(steps, p, k)
    ensures MaximumAfter(steps, p, k + 1) <==> TightAt(steps, p, k)
  {
    ClashFreePrefix(steps, p, k);
    ClashFreePrefix(steps, p, k + 1);
    assert steps[..k + 1] == steps[..k] + [steps[k]];
    if Opens(Run(steps[..k]), steps[k], p) {
      OpensToMaximum(steps[..k], steps[k], p);
    } else {
      KeepsMaximum(steps[..k], steps[k], p);
    }
  }

  lemma {:induction false} StepByStep(good: seq<bool>, ok: seq<bool>, n: nat)
    requires n < |good| == |ok| + 1 && good[0]
    requires forall k :: 0 <= k < |ok| && good[k] ==> (good[k + 1] <==> ok[k])
    ensures (forall k :: 0 <= k <= n ==> good[k]) <==> (forall k :: 0 <= k < n ==> ok[k])
  {
    if n > 0 {
      StepByStep(good, ok, n - 1);
      assert good[n - 1] ==> (good[n - 1 + 1] <==> ok[n - 1]);
    }
  }

  /** Without clashes: after each step the process has as many lanes as spans at its busiest instant,
      if and only if each step that opened a lane did so for a span that shares an instant with
      something on every lane.  The first lane of a span that covers no instant is not such a step. */
  lemma BusiestThroughoutExactly(steps: seq<Step>, p: Pid)
    requires ClashFree(steps, p)
    ensures (forall k :: 0 <= k <= |steps| ==> MaximumAfter(steps, p, k))
       <==> (forall k :: 0 <= k < |steps| ==> TightAt(steps, p, k))
  {
    var good := seq(|steps| + 1, k requires 0 <= k <= |steps| => MaximumAfter(steps, p, k));
    var ok := seq(|steps|, k requires 0 <= k < |steps| => TightAt(steps, p, k));
    forall k | 0 <= k < |ok| && good[k] ensures good[k + 1] <==> ok[k] {
      MaximumStep(steps, p, k);
    }
    MaximumInitially(steps, p);
    StepByStep(good, ok, |steps|);
    assert forall k :: 0 <= k <= |steps| ==> good[k] == MaximumAfter(steps, p, k);
    assert forall k :: 0 <= k < |steps| ==> ok[k] == TightAt(steps, p, k);
  }

  lemma MaximumInitially(steps: seq<Step>, p: Pid)
    ensures MaximumAfter(steps, p, 0)
  {
    assert Depth(Spans(steps[..0]), p, 0) == 0;
  }

  // ----- The fewest lanes -----

  /** No layout of the placed spans without overlap uses fewer lanes for the process. */
  ghost predicate Fewest(steps: seq<Step>, p: Pid) {
    NeedsLanes(Spans(steps), p, |SlotsOf(Run(steps).board, p)|)
  }

  lemma {:induction false} LanesHaveSpans(steps: seq<Step>, p: Pid)
    ensures SlotsOf(Run(steps).board, p) != [] <==> Uses(Spans(steps), p)
  {
    if steps != [] {
      var init, last := steps[..|steps| - 1], steps[|steps| - 1];
      LanesHaveSpans(init, p);
      StepSlots(Run(init), last, p);
      if last.Place? { UsesSnoc(Spans(init), last.span, p); }
    }
  }

  lemma UsesSnoc(spans: seq<Span>, span: Span, p: Pid)
    ensures Uses(spans + [span], p) <==> Uses(spans, p) || span.pid == p
  {
    var all := spans + [span];
    assert all[|spans|] == span;
    if k :| 0 <= k < |spans| && spans[k].pid == p { assert all[k].pid == p; }
  }

  /** For every run, clashes included: no layout without overlap uses fewer lanes if and only if there
      is at most one lane or as many spans overlap at some instant. */
  lemma FewestExactly(steps: seq<Step>, p: Pid)
    ensures var n := |SlotsOf(Run(steps).board, p)|;
      Fewest(steps, p) <==> n <= 1 || Meet(Spans(steps), p, n)
  {
    var n := |SlotsOf(Run(steps).board, p)|;
    NeedsExactly(Spans(steps), p, n);
    LanesHaveSpans(steps, p);
    if n == 0 { assert Depth(Spans(steps), p, 0) >= n; }
    if n == 1 { assert Uses(Spans(steps), p); }
  }

  /** Without clashes that is the busiest instant exactly. */
  lemma FewestClashFree(steps: seq<Step>, p: Pid)
    requires ClashFree(steps, p)
    ensures Fewest(steps, p) <==> |SlotsOf(Run(steps).board, p)| <= 1 || AtMaximum(steps, p)
  {
    var spans, n := Spans(steps), |SlotsOf(Run(steps).board, p)|;
    FewestExactly(steps, p);
    if t :| Depth(spans, p, t) >= n {
      DepthWithin(steps, p, t);
      assert Depth(spans, p, t) == n;
    }
    if t :| Depth(spans, p, t) == n { assert Meet(spans, p, n); }
  }

  /** How many spans on the lanes cover the instant, the new one included. */
  function Crowd(slots: seq<Slot>, span: Span, t: int): nat {
    LaneDepth(slots, t) + (if Covers(At(span), t) then 1 else 0)
  }

  /** If the step opens a further lane, then more spans than there were lanes overlap somewhere. */
  ghost predicate CrowdedStep(s: State, step: Step, p: Pid)
    requires StatusOk(s.board, s.status)
  {
    var slots := SlotsOf(s.board, p);
    Opens(s, step, p) && slots != [] ==> exists t :: Crowd(slots, step.span, t) > |slots|
  }

  lemma DepthAfter(init: seq<Step>, step: Step, p: Pid, t: int)
    ensures Depth(Spans(init + [step]), p, t) >= Depth(Spans(init), p, t)
    ensures step.Place? && step.span.pid == p ==>
      Depth(Spans(init + [step]), p, t) == Crowd(SlotsOf(Run(init).board, p), step.span, t)
  {
    SpansSnoc(init, step);
    RunDepth(init, p, t);
    if step.Place? { DepthSnoc(Spans(init), step.span, p, t); }
  }

  lemma LanesAfter(init: seq<Step>, step: Step, p: Pid)
    ensures |SlotsOf(Run(init + [step]).board, p)|
         == |SlotsOf(Run(init).board, p)| + (if Opens(Run(init), step, p) then 1 else 0)
  {
    RunSnoc(init, step);
    StepSlots(Run(init), step, p);
  }

  lemma FewestKept(init: seq<Step>, step: Step, p: Pid)
    requires Fewest(init, p) && !Opens(Run(init), step, p)
    ensures Fewest(init + [step], p)
  {
    var n := |SlotsOf(Run(init).board, p)|;
    FewestExactly(init, p);
    FewestExactly(init + [step], p);
    LanesAfter(init, step, p);
    if n > 1 {
      var t :| Depth(Spans(init), p, t) >= n;
      DepthAfter(init, step, p, t);
      assert Depth(Spans(init + [step]), p, t) >= n;
    }
  }

  lemma MeetAfter(init: seq<Step>, step: Step, p: Pid)
    requires step.Place? && step.span.pid == p
    ensures var slots := SlotsOf(Run(init).board, p);
      Meet(Spans(init + [step]), p, |slots| + 1) <==> exists t :: Crowd(slots, step.span, t) > |slots|
  {
    var slots, spans := SlotsOf(Run(init).board, p), Spans(init + [step]);
    if t :| Depth(spans, p, t) >= |slots| + 1 {
      DepthAfter(init, step, p, t);
      assert Crowd(slots, step.span, t) > |slots|;
    }
    if t :| Crowd(slots, step.span, t) > |slots| {
      DepthAfter(init, step, p, t);
      assert Depth(spans, p, t) >= |slots| + 1;
    }
  }

  lemma FewestOpened(init: seq<Step>, step: Step, p: Pid)
    requires Opens(Run(init), step, p)
    ensures Fewest(init + [step], p) <==> CrowdedStep(Run(init), step, p)
  {
    FewestExactly(init + [step], p);
    LanesAfter(init, step, p);
    MeetAfter(init, step, p);
  }

  ghost predicate FewestAfter(steps: seq<Step>, p: Pid, k: nat)
    requires k <= |steps|
  {
    Fewest(steps[..k], p)
  }

  ghost predicate CrowdedAt(steps: seq<Step>, p: Pid, k: nat)
    requires k < |steps|
  {
    CrowdedStep(Run(steps[..k]), steps[k], p)
  }

  lemma FewestStep(steps: seq<Step>, p: Pid, k: nat)
    requires k < |steps| && FewestAfter(steps, p, k)
    ensures FewestAfter(steps, p, k + 1) <==> CrowdedAt(steps, p, k)
  {
    assert steps[..k + 1] == steps[..k] + [steps[k]];
    if Opens(Run(steps[..k]), steps[k], p) {
      FewestOpened(steps[..k], steps[k], p);
    } else {
      FewestKept(steps[..k], steps[k], p);
    }
  }

  /** Exactly when a run never has a lane too many, in any order, for any lengths and with clashes: no
      layout without overlap uses fewer lanes after any step, if and only if every step that opened
      a lane where the process already had one met more overlapping spans than lanes. */
  lemma NeverTooManyExactly(steps: seq<Step>, p: Pid)
    ensures (forall k :: 0 <= k <= |steps| ==> FewestAfter(steps, p, k))
       <==> (forall k :: 0 <= k < |steps| ==> CrowdedAt(steps, p, k))
  {
    var good := seq(|steps| + 1, k requires 0 <= k <= |steps| => FewestAfter(steps, p, k));
    var ok := seq(|steps|, k requires 0 <= k < |steps| => CrowdedAt(steps, p, k));
    forall k | 0 <= k < |ok| && good[k] ensures good[k + 1] <==> ok[k] {
      FewestStep(steps, p, k);
    }
    FewestInitially(steps, p);
    StepByStep(good, ok, |steps|);
    assert forall k :: 0 <= k <= |steps| ==> good[k] == FewestAfter(steps, p, k);
    assert forall k :: 0 <= k < |steps| ==> ok[k] == CrowdedAt(steps, p, k);
  }

  lemma FewestInitially(steps: seq<Step>, p: Pid)
    ensures FewestAfter(steps, p, 0)
  {
    assert steps[..0] == [];
    FewestExactly(steps[..0], p);
  }

  /** Without clashes such a step met a span on every lane at one instant of its own. */
  lemma CrowdedClashFree(steps: seq<Step>, p: Pid, k: nat)
    requires ClashFree(steps, p) && k < |steps|
    ensures var s, step := Run(steps[..k]), steps[k];
      CrowdedAt(steps, p, k) <==>
      (Opens(s, step, p) && SlotsOf(s.board, p) != [] ==> BusyTogether(SlotsOf(s.board, p), step.span))
  {
    var s, step := Run(steps[..k]), steps[k];
    var slots := SlotsOf(s.board, p);
    ClashFreePrefix(steps, p, k);
    LaneSafetyExact(steps[..k], p);
    if step.Place? {
      forall t ensures Crowd(slots, step.span, t) > |slots| <==> BusyAt(slots, step.span, t) {
        FullExactly(slots, t);
      }
      if t :| Crowd(slots, step.span, t) > |slots| { assert BusyAt(slots, step.span, t); }
      if t :| BusyAt(slots, step.span, t) { assert Crowd(slots, step.span, t) > |slots|; }
    }
  }

  /** One span that covers no instant: its lane is not the busiest instant's, but not too many. */
  lemma LoneEmptySpan(p: Pid, x: int, y: int) returns (steps: seq<Step>)
    requires y <= x
    ensures steps == [Place(Span(p, x, y))] && |SlotsOf(Run(steps).board, p)| == 1
    ensures Fewest(steps, p) && !AtMaximum(steps, p) && !TightAt(steps, p, 0)
  {
    var none: seq<Step>, span := [], Span(p, x, y);
    steps := none + [Place(span)];
    RunSnoc(none, Place(span));
    SpansSnoc(none, Place(span));
    LanesAfter(none, Place(span), p);
    FewestExactly(steps, p);
    forall t ensures Depth(Spans(steps), p, t) == 0 { DepthSnoc(Spans(none), span, p, t); }
    assert steps[..0] == none;
  }

  // ----- Rejection through the left neighbour -----

  /** The check answers yes at its first branch: the interval before the bisection point ends after
      the query's start. */
  predicate RejectsLeft(ivs: seq<Interval>, start: int) {
    var idx := BisectLeft(ivs, Opening(start), 0, |ivs|);
    idx > 0 && ivs[idx - 1].end > start
  }

  lemma LeftCoversStart(ivs: seq<Interval>, start: int)
    requires Ordered(ivs) && RejectsLeft(ivs, start)
    ensures CountCovering(ivs, start) >= 1
  {
    var idx := BisectLeft(ivs, Opening(start), 0, |ivs|);
    BisectSplits(ivs, Opening(start), 0, |ivs|);
    assert Below(ivs[idx - 1], Opening(start));
    OneCovering(ivs, idx - 1, start);
  }

  /** A positive span that every lane rejects through its left neighbour opens tightly, so that
      start order is not needed. */
  lemma LeftRejectionsTight(slots: seq<Slot>, span: Span)
    requires LanesOk(slots) && span.start < span.end
    requires forall i :: 0 <= i < |slots| ==> RejectsLeft(slots[i].lane, span.start)
    ensures BusyTogether(slots, span)
  {
    forall i | 0 <= i < |slots| ensures CountCovering(slots[i].lane, span.start) >= 1 {
      LeftCoversStart(slots[i].lane, span.start);
    }
    assert BusyAt(slots, span, span.start);
  }
}
