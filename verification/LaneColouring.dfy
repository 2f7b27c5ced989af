/** The fewest lanes any layout can use for given spans: as many as overlap at the busiest instant,
    and one if there is a span at all. */
module LaneColouring {
  import opened Places
  import opened Lanes
  import opened Layout
  import opened LaneOptimality

  /** The list with `x` put in at position `m`. */
  function With<T>(xs: seq<T>, m: nat, x: T): seq<T>
    requires m <= |xs|
  {
    xs[..m] + [x] + xs[m..]
  }

  /** Where position `i != m` is after the removal of position `m`. */
  function Shifted(i: nat, m: nat): nat
    requires i != m
  {
    if i < m then i else i - 1
  }

  lemma {:induction false} DepthWithout(spans: seq<Span>, m: nat, p: Pid, t: int)
    requires m < |spans|
    ensures Depth(spans, p, t)
         == Depth(Remove(spans, m), p, t) + (if spans[m].pid == p && Covers(At(spans[m]), t) then 1 else 0)
  {
    var n := |spans| - 1;
    if m == n {
      assert Remove(spans, m) == spans[..n];
    } else {
      DepthWithout(spans[..n], m, p, t);
      var rest := Remove(spans, m);
      assert rest[..|rest| - 1] == Remove(spans[..n], m) && rest[|rest| - 1] == spans[n];
    }
  }

  /** A span that starts last. */
  lemma {:induction false} LatestStart(spans: seq<Span>) returns (m: nat)
    requires spans != []
    ensures m < |spans| && forall k :: 0 <= k < |spans| ==> spans[k].start <= spans[m].start
  {
    var n := |spans| - 1;
    m := n;
    if n > 0 {
      var before := spans[..n];
      var l := LatestStart(before);
      assert forall k :: 0 <= k < n ==> before[k] == spans[k];
      if spans[l].start > spans[n].start { m := l; }
    }
  }

  function UpTo(d: nat): (lanes: set<int>)
    ensures |lanes| == d && forall x :: x in lanes <==> 1 <= x <= d
  {
    if d == 0 then {} else UpTo(d - 1) + {d}
  }

  /** Fewer than `d` lanes leave one of the first `d` free. */
  lemma FreeLane(d: nat, taken: set<int>) returns (c: int)
    requires |taken| < d
    ensures 1 <= c <= d && c !in taken
  {
    if UpTo(d) <= taken { SubsetNotLarger(UpTo(d), taken); }
    c :| c in UpTo(d) && c !in taken;
  }

  ghost predicate Within(lanes: seq<int>, d: nat) {
    forall k :: 0 <= k < |lanes| ==> 1 <= lanes[k] <= d
  }

  /** The lane `c` shows no span that the latest one overlaps. */
  ghost predicate FreeFor(spans: seq<Span>, lanes: seq<int>, p: Pid, span: Span, c: int)
    requires |lanes| == |spans|
  {
    forall k :: 0 <= k < |spans| && spans[k].pid == p && lanes[k] == c ==>
      forall t :: !(Covers(At(spans[k]), t) && Covers(At(span), t))
  }

  /** What starts no later than the span and overlaps it is busy when it starts. */
  lemma FreeAtStart(spans: seq<Span>, lanes: seq<int>, p: Pid, span: Span, c: int)
    requires |lanes| == |spans| && forall k :: 0 <= k < |spans| ==> spans[k].start <= span.start
    requires c !in LanesShowing(spans, p, lanes, span.start)
    ensures FreeFor(spans, lanes, p, span, c)
  {
    forall k, t | 0 <= k < |spans| && spans[k].pid == p && lanes[k] == c
      ensures !(Covers(At(spans[k]), t) && Covers(At(span), t))
    {
      if Covers(At(spans[k]), t) && Covers(At(span), t) {
        assert Covers(At(spans[k]), span.start);
      }
    }
  }

  lemma ProperWith(spans: seq<Span>, m: nat, p: Pid, lanes: seq<int>, c: int)
    requires m < |spans| && Proper(Remove(spans, m), p, lanes)
    requires spans[m].pid == p ==> FreeFor(Remove(spans, m), lanes, p, spans[m], c)
    ensures Proper(spans, p, With(lanes, m, c))
  {
    var rest, all := Remove(spans, m), With(lanes, m, c);
    forall i: nat | i < |spans| && i != m ensures rest[Shifted(i, m)] == spans[i] && lanes[Shifted(i, m)] == all[i] {
    }
    forall i, j | 0 <= i < j < |spans| && spans[i].pid == p && spans[j].pid == p && all[i] == all[j]
      ensures forall t :: !(Covers(At(spans[i]), t) && Covers(At(spans[j]), t))
    {
      if i == m {
        assert rest[Shifted(j, m)] == spans[j];
      } else if j == m {
        assert rest[Shifted(i, m)] == spans[i];
      } else {
        assert rest[Shifted(i, m)] == spans[i] && rest[Shifted(j, m)] == spans[j];
        assert Shifted(i, m) < Shifted(j, m);
      }
    }
  }

  /** If at most `d` spans overlap anywhere, some layout without overlap stays within `d` lanes. */
  lemma {:induction false} Colour(spans: seq<Span>, p: Pid, d: nat) returns (lanes: seq<int>)
    requires d >= 1 && forall t :: Depth(spans, p, t) <= d
    ensures Proper(spans, p, lanes) && Within(lanes, d)
    decreases |spans|
  {
    lanes := [];
    if spans != [] {
      var m := LatestStart(spans);
      var rest, span := Remove(spans, m), spans[m];
      forall t ensures Depth(rest, p, t) <= d { DepthWithout(spans, m, p, t); }
      var others := Colour(rest, p, d);
      var c := 1;
      if span.pid == p {
        c := ColourLast(spans, m, p, d, others);
      }
      ProperWith(spans, m, p, others, c);
      lanes := With(others, m, c);
    }
  }

  lemma ColourLast(spans: seq<Span>, m: nat, p: Pid, d: nat, others: seq<int>) returns (c: int)
    requires m < |spans| && spans[m].pid == p && forall k :: 0 <= k < |spans| ==> spans[k].start <= spans[m].start
    requires d >= 1 && Depth(spans, p, spans[m].start) <= d && Proper(Remove(spans, m), p, others)
    ensures 1 <= c <= d && FreeFor(Remove(spans, m), others, p, spans[m], c)
  {
    var rest, span := Remove(spans, m), spans[m];
    if Positive(At(span)) {
      DepthWithout(spans, m, p, span.start);
      DepthNeedsLanes(rest, p, others, span.start);
      c := FreeLane(d, LanesShowing(rest, p, others, span.start));
      FreeAtStart(rest, others, p, span, c);
    } else {
      c := 1;
    }
  }

  /** No layout without overlap uses fewer than `n` lanes for the process. */
  ghost predicate NeedsLanes(spans: seq<Span>, p: Pid, n: nat) {
    forall lanes: seq<int> :: Proper(spans, p, lanes) ==> |LanesUsed(spans, p, lanes)| >= n
  }

  /** At some instant at least `n` spans of the process overlap. */
  ghost predicate Meet(spans: seq<Span>, p: Pid, n: nat) {
    exists t :: Depth(spans, p, t) >= n
  }

  lemma UsesOne(spans: seq<Span>, p: Pid, lanes: seq<int>)
    requires |lanes| == |spans| && Uses(spans, p)
    ensures |LanesUsed(spans, p, lanes)| >= 1
  {
    var k :| 0 <= k < |spans| && spans[k].pid == p;
    assert lanes[k] in LanesUsed(spans, p, lanes);
  }

  lemma CrowdNeeds(spans: seq<Span>, p: Pid, n: nat, t: int)
    requires Depth(spans, p, t) >= n
    ensures NeedsLanes(spans, p, n)
  {
    forall lanes: seq<int> | Proper(spans, p, lanes) ensures |LanesUsed(spans, p, lanes)| >= n {
      DepthNeedsLanes(spans, p, lanes, t);
      SubsetNotLarger(LanesShowing(spans, p, lanes, t), LanesUsed(spans, p, lanes));
    }
  }

  lemma SparseFits(spans: seq<Span>, p: Pid, n: nat)
    requires n >= 2 && forall t :: Depth(spans, p, t) < n
    ensures !NeedsLanes(spans, p, n)
  {
    var lanes := Colour(spans, p, n - 1);
    assert LanesUsed(spans, p, lanes) <= UpTo(n - 1);
    SubsetNotLarger(LanesUsed(spans, p, lanes), UpTo(n - 1));
  }

  /** For spans of any lengths in any order: every layout without overlap needs at least `n` lanes if
      and only if `n` spans overlap somewhere, or `n` is one and there is a span, or `n` is zero. */
  lemma NeedsExactly(spans: seq<Span>, p: Pid, n: nat)
    ensures NeedsLanes(spans, p, n) <==> Meet(spans, p, n) || (n == 1 && Uses(spans, p))
  {
    if t :| Depth(spans, p, t) >= n {
      CrowdNeeds(spans, p, n, t);
    } else if n == 1 && Uses(spans, p) {
      forall lanes: seq<int> | Proper(spans, p, lanes) ensures |LanesUsed(spans, p, lanes)| >= n {
        UsesOne(spans, p, lanes);
      }
    } else if n >= 2 {
      SparseFits(spans, p, n);
    } else {
      NoneNeedsNone(spans, p, n);
    }
  }

  lemma NoneNeedsNone(spans: seq<Span>, p: Pid, n: nat)
    requires n <= 1 && !Uses(spans, p) && forall t :: Depth(spans, p, t) < n
    ensures !NeedsLanes(spans, p, n)
  {
    assert Depth(spans, p, 0) < n;
    var lanes := Colour(spans, p, 1);
    assert LanesUsed(spans, p, lanes) == {};
  }
}
