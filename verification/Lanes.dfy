/** The lane container of the trace converter: a list of intervals kept sorted by
    `insort_left`, and an overlap check that bisects and looks at two neighbours only. */
module Lanes {

  /** A stored span.  Ends are stored after the converter's 1000 ns shift, so `end < start` is possible. */
  datatype Interval = Interval(start: int, end: int)

  /** The right-hand side of a bisection: `(start, -inf)` or `(start, end)`. */
  datatype Key = Opening(start: int) | Exact(start: int, end: int)

  /** Tuple order `iv < key`. */
  predicate Below(iv: Interval, key: Key) {
    iv.start < key.start || (iv.start == key.start && key.Exact? && iv.end < key.end)
  }

  /** `bisect.bisect_left` on `ivs[lo..hi]`. */
  function BisectLeft(ivs: seq<Interval>, key: Key, lo: nat, hi: nat): (idx: nat)
    requires lo <= hi <= |ivs|
    ensures lo <= idx <= hi
    decreases hi - lo
  {
    if lo == hi then lo
    else
      var mid := (lo + hi) / 2;
      if Below(ivs[mid], key) then BisectLeft(ivs, key, mid + 1, hi)
      else BisectLeft(ivs, key, lo, mid)
  }

  predicate Ordered(ivs: seq<Interval>) {
    forall i, j :: 0 <= i < j < |ivs| ==> !Below(ivs[j], Exact(ivs[i].start, ivs[i].end))
  }

  /** The lane invariant: sorted, and every stored end is at most every later start. */
  predicate LaneOk(ivs: seq<Interval>) {
    && Ordered(ivs)
    && forall i, j :: 0 <= i < j < |ivs| ==> ivs[i].end <= ivs[j].start
  }

  /** The bisection point splits an ordered list into the intervals below the key and the rest. */
  lemma {:induction false} BisectSplits(ivs: seq<Interval>, key: Key, lo: nat, hi: nat)
    requires Ordered(ivs) && lo <= hi <= |ivs|
    requires forall i :: 0 <= i < lo ==> Below(ivs[i], key)
    requires forall i :: hi <= i < |ivs| ==> !Below(ivs[i], key)
    ensures forall i :: 0 <= i < |ivs| ==> (Below(ivs[i], key) <==> i < BisectLeft(ivs, key, lo, hi))
    decreases hi - lo
  {
    if lo < hi {
      var mid := (lo + hi) / 2;
      if Below(ivs[mid], key) {
        forall i | 0 <= i < mid ensures Below(ivs[i], key) {
          assert !Below(ivs[mid], Exact(ivs[i].start, ivs[i].end));
        }
        BisectSplits(ivs, key, mid + 1, hi);
      } else {
        forall i | mid <= i < |ivs| ensures !Below(ivs[i], key) {
          assert i == mid || !Below(ivs[i], Exact(ivs[mid].start, ivs[mid].end));
        }
        BisectSplits(ivs, key, lo, mid);
      }
    }
  }

  /** `check_overlap`: bisect for the first interval starting at or after `start`, then
      compare with that interval and its predecessor. */
  predicate Overlaps(ivs: seq<Interval>, start: int, end: int) {
    var idx := BisectLeft(ivs, Opening(start), 0, |ivs|);
    || (idx > 0 && ivs[idx - 1].end > start)
    || (idx < |ivs| && ivs[idx].start < end)
  }

  /** `insert_span`: `insort_left` of the pair. */
  function Inserted(ivs: seq<Interval>, start: int, end: int): seq<Interval> {
    var p := BisectLeft(ivs, Exact(start, end), 0, |ivs|);
    ivs[..p] + [Interval(start, end)] + ivs[p..]
  }

  /** No common instant of the half-open spans; also the order the lane keeps for degenerate spans. */
  predicate Apart(a: Interval, b: Interval) {
    a.end <= b.start || b.end <= a.start
  }

  predicate Covers(iv: Interval, t: int) {
    iv.start <= t < iv.end
  }

  predicate Positive(iv: Interval) {
    iv.start < iv.end
  }

  /** A negative check means the query is apart from every stored interval, of whatever length. */
  lemma NoOverlapApart(ivs: seq<Interval>, start: int, end: int)
    requires LaneOk(ivs) && !Overlaps(ivs, start, end)
    ensures forall iv :: iv in ivs ==> Apart(iv, Interval(start, end))
  {
    BisectSplits(ivs, Opening(start), 0, |ivs|);
    var idx := BisectLeft(ivs, Opening(start), 0, |ivs|);
    forall i | 0 <= i < |ivs| ensures Apart(ivs[i], Interval(start, end)) {
      if i < idx {
        assert Below(ivs[i], Opening(start)) && Below(ivs[idx - 1], Opening(start));
      } else {
        assert !Below(ivs[idx], Opening(start));
        assert i == idx || !Below(ivs[i], Exact(ivs[idx].start, ivs[idx].end));
      }
    }
  }

  /** The two-neighbour check refines the plain one: on a lane of positive spans it answers
      yes for a positive query exactly when some stored span shares an instant with it. */
  lemma FastCheckExact(ivs: seq<Interval>, start: int, end: int)
    requires LaneOk(ivs) && start < end
    requires forall iv :: iv in ivs ==> Positive(iv)
    ensures Overlaps(ivs, start, end) <==> exists iv, t :: iv in ivs && Covers(iv, t) && Covers(Interval(start, end), t)
  {
    var idx := BisectLeft(ivs, Opening(start), 0, |ivs|);
    BisectSplits(ivs, Opening(start), 0, |ivs|);
    if Overlaps(ivs, start, end) {
      if idx > 0 && ivs[idx - 1].end > start {
        assert Below(ivs[idx - 1], Opening(start));
        assert Covers(ivs[idx - 1], start) && Covers(Interval(start, end), start);
      } else {
        assert !Below(ivs[idx], Opening(start)) && ivs[idx] in ivs;
        assert Covers(ivs[idx], ivs[idx].start) && Covers(Interval(start, end), ivs[idx].start);
      }
    } else {
      NoOverlapApart(ivs, start, end);
    }
  }

  /** On a lane in order, for spans of whatever length: a span is rejected exactly if its start lies
      strictly inside a stored span or a stored span starts within it. */
  lemma CheckMeans(ivs: seq<Interval>, start: int, end: int)
    requires LaneOk(ivs)
    ensures Overlaps(ivs, start, end) <==>
      exists i :: 0 <= i < |ivs| && (ivs[i].start < start < ivs[i].end || start <= ivs[i].start < end)
  {
    var idx := BisectLeft(ivs, Opening(start), 0, |ivs|);
    BisectSplits(ivs, Opening(start), 0, |ivs|);
    if idx > 0 && ivs[idx - 1].end > start {
      assert Below(ivs[idx - 1], Opening(start));
    }
    if idx < |ivs| && ivs[idx].start < end {
      assert !Below(ivs[idx], Opening(start));
    }
    forall i | 0 <= i < |ivs| && (ivs[i].start < start < ivs[i].end || start <= ivs[i].start < end)
      ensures Overlaps(ivs, start, end)
    {
      if i < idx {
        assert Below(ivs[i], Opening(start)) && Below(ivs[idx - 1], Opening(start));
      } else {
        assert !Below(ivs[i], Opening(start));
        assert i == idx || !Below(ivs[i], Exact(ivs[idx].start, ivs[idx].end));
      }
    }
  }

  lemma InsertedOrdered(ivs: seq<Interval>, start: int, end: int)
    requires Ordered(ivs)
    ensures Ordered(Inserted(ivs, start, end))
  {
    BisectSplits(ivs, Exact(start, end), 0, |ivs|);
  }

  /** An unrejected span ends before everything that sorts after it and starts after
      everything that sorts before it. */
  lemma NoOverlapFits(ivs: seq<Interval>, start: int, end: int, i: nat)
    requires LaneOk(ivs) && !Overlaps(ivs, start, end) && i < |ivs|
    ensures if Below(ivs[i], Exact(start, end)) then ivs[i].end <= start else end <= ivs[i].start
  {
    BisectSplits(ivs, Opening(start), 0, |ivs|);
    var q := BisectLeft(ivs, Opening(start), 0, |ivs|);
    if i < q {
      assert Below(ivs[i], Opening(start)) && Below(ivs[q - 1], Opening(start));
    } else {
      assert !Below(ivs[q], Opening(start));
      assert i == q || !Below(ivs[i], Exact(ivs[q].start, ivs[q].end));
    }
  }

  /** A span that passed the check may be inserted without breaking the lane, even when the
      lane or the span is of zero or negative length. */
  lemma InsertKeepsLane(ivs: seq<Interval>, start: int, end: int)
    requires LaneOk(ivs) && !Overlaps(ivs, start, end)
    ensures LaneOk(Inserted(ivs, start, end))
  {
    InsertedOrdered(ivs, start, end);
    BisectSplits(ivs, Exact(start, end), 0, |ivs|);
    var p := BisectLeft(ivs, Exact(start, end), 0, |ivs|);
    var all := Inserted(ivs, start, end);
    forall i | 0 <= i < |ivs| ensures if i < p then ivs[i].end <= start else end <= ivs[i].start {
      NoOverlapFits(ivs, start, end, i);
    }
    forall i, j | 0 <= i < j < |all| ensures all[i].end <= all[j].start {
      assert i < p ==> all[i] == ivs[i];
      assert i > p ==> all[i] == ivs[i - 1];
      assert j < p ==> all[j] == ivs[j];
      assert j > p ==> all[j] == ivs[j - 1];
    }
  }

  /** The reverse direction for the spans the converter may insert unchecked. */
  lemma ClashBreaksLane(ivs: seq<Interval>, start: int)
    requires LaneOk(ivs) && Overlaps(ivs, start, start)
    ensures !LaneOk(Inserted(ivs, start, start))
  {
    var q := BisectLeft(ivs, Opening(start), 0, |ivs|);
    var p := BisectLeft(ivs, Exact(start, start), 0, |ivs|);
    BisectSplits(ivs, Opening(start), 0, |ivs|);
    BisectSplits(ivs, Exact(start, start), 0, |ivs|);
    var all := Inserted(ivs, start, start);
    assert q > 0 && Below(ivs[q - 1], Opening(start)) && ivs[q - 1].end > start;
    assert Below(ivs[q - 1], Exact(start, start));
    assert all[q - 1] == ivs[q - 1] && all[p] == Interval(start, start) && q - 1 < p;
  }

  /** Lanes only grow, so a broken lane stays broken. */
  lemma InsertReflectsLane(ivs: seq<Interval>, start: int, end: int)
    requires LaneOk(Inserted(ivs, start, end))
    ensures LaneOk(ivs)
  {
    var p := BisectLeft(ivs, Exact(start, end), 0, |ivs|);
    var all := Inserted(ivs, start, end);
    forall i, j | 0 <= i < j < |ivs|
      ensures ivs[i].end <= ivs[j].start && !Below(ivs[j], Exact(ivs[i].start, ivs[i].end))
    {
      var i' := if i < p then i else i + 1;
      var j' := if j < p then j else j + 1;
      assert all[i'] == ivs[i] && all[j'] == ivs[j];
    }
  }

  /** Exactly when may a span the converter places be inserted: a span that was checked always
      may, and an unchecked zero-length span may if and only if the check would have passed. */
  lemma LaneInsertExact(ivs: seq<Interval>, start: int, end: int)
    requires start == end || !Overlaps(ivs, start, end)
    ensures LaneOk(Inserted(ivs, start, end)) <==> LaneOk(ivs) && !Overlaps(ivs, start, end)
  {
    if LaneOk(Inserted(ivs, start, end)) {
      InsertReflectsLane(ivs, start, end);
      if Overlaps(ivs, start, end) { ClashBreaksLane(ivs, start); }
    }
    if LaneOk(ivs) && !Overlaps(ivs, start, end) { InsertKeepsLane(ivs, start, end); }
  }

  /** A zero-length span is rejected only because some stored span is not apart from it. */
  lemma ZeroLengthRejected(ivs: seq<Interval>, start: int) returns (iv: Interval)
    requires LaneOk(ivs) && Overlaps(ivs, start, start)
    ensures iv in ivs && !Apart(iv, Interval(start, start))
  {
    var idx := BisectLeft(ivs, Opening(start), 0, |ivs|);
    BisectSplits(ivs, Opening(start), 0, |ivs|);
    assert idx > 0 && Below(ivs[idx - 1], Opening(start));
    iv := ivs[idx - 1];
  }

  /** How many stored spans cover instant `t`. */
  function CountCovering(ivs: seq<Interval>, t: int): nat {
    if ivs == [] then 0
    else (if Covers(ivs[0], t) then 1 else 0) + CountCovering(ivs[1..], t)
  }

  lemma {:induction false} CountConcat(a: seq<Interval>, b: seq<Interval>, t: int)
    ensures CountCovering(a + b, t) == CountCovering(a, t) + CountCovering(b, t)
  {
    if a == [] {
      assert a + b == b;
    } else {
      CountConcat(a[1..], b, t);
      assert (a + b)[1..] == a[1..] + b;
    }
  }

  lemma CountInserted(ivs: seq<Interval>, start: int, end: int, t: int)
    ensures CountCovering(Inserted(ivs, start, end), t)
         == CountCovering(ivs, t) + (if Covers(Interval(start, end), t) then 1 else 0)
  {
    var p := BisectLeft(ivs, Exact(start, end), 0, |ivs|);
    var mid := [Interval(start, end)];
    CountConcat(ivs[..p] + mid, ivs[p..], t);
    CountConcat(ivs[..p], mid, t);
    CountConcat(ivs[..p], ivs[p..], t);
    assert ivs == ivs[..p] + ivs[p..];
    assert mid[1..] == [];
  }

  /** A lane never shows two spans at one instant. */
  lemma {:induction false} LaneCoversOnce(ivs: seq<Interval>, t: int)
    requires LaneOk(ivs)
    ensures CountCovering(ivs, t) <= 1
  {
    if ivs != [] {
      var rest := ivs[1..];
      assert forall i :: 0 <= i < |rest| ==> rest[i] == ivs[i + 1];
      LaneCoversOnce(rest, t);
      if Covers(ivs[0], t) {
        forall i | 0 <= i < |rest| ensures !Covers(rest[i], t) {
          assert ivs[0].end <= ivs[i + 1].start;
        }
        NoneCovering(rest, t);
      }
    }
  }

  lemma {:induction false} NoneCovering(ivs: seq<Interval>, t: int)
    requires forall i :: 0 <= i < |ivs| ==> !Covers(ivs[i], t)
    ensures CountCovering(ivs, t) == 0
  {
    if ivs != [] { NoneCovering(ivs[1..], t); }
  }

  lemma {:induction false} OneCovering(ivs: seq<Interval>, i: nat, t: int)
    requires i < |ivs| && Covers(ivs[i], t)
    ensures CountCovering(ivs, t) >= 1
  {
    if i > 0 { OneCovering(ivs[1..], i - 1, t); }
  }

  /** When no stored span starts after the query, a positive answer means the query's own
      start is covered by the lane. */
  lemma LateOverlapCoversStart(ivs: seq<Interval>, start: int, end: int)
    requires LaneOk(ivs) && Overlaps(ivs, start, end)
    requires forall iv :: iv in ivs ==> Positive(iv) && iv.start <= start
    ensures CountCovering(ivs, start) >= 1
  {
    var idx := BisectLeft(ivs, Opening(start), 0, |ivs|);
    BisectSplits(ivs, Opening(start), 0, |ivs|);
    if idx > 0 && ivs[idx - 1].end > start {
      assert Below(ivs[idx - 1], Opening(start));
      OneCovering(ivs, idx - 1, start);
    } else {
      assert !Below(ivs[idx], Opening(start));
      assert ivs[idx] in ivs;
      OneCovering(ivs, idx, start);
    }
  }

  /** `SpanLayoutContainer`. */
  class SpanLayoutContainer {
    var intervals: seq<Interval>

    constructor ()
      ensures intervals == []
    {
      intervals := [];
    }

    method CheckOverlap(start: int, end: int) returns (r: bool)
      ensures r == Overlaps(intervals, start, end)
    {
      var idx := BisectLeft(intervals, Opening(start), 0, |intervals|);
      if idx > 0 {
        var prev := intervals[idx - 1];
        if prev.end > start { return true; }
      }
      if idx < |intervals| {
        var next := intervals[idx];
        if next.start < end { return true; }
      }
      return false;
    }

    method InsertSpan(start: int, end: int)
      modifies this
      ensures intervals == Inserted(old(intervals), start, end)
      ensures LaneOk(old(intervals)) && !Overlaps(old(intervals), start, end) ==> LaneOk(intervals)
    {
      var p := BisectLeft(intervals, Exact(start, end), 0, |intervals|);
      if LaneOk(intervals) && !Overlaps(intervals, start, end) {
        InsertKeepsLane(intervals, start, end);
      }
      intervals := intervals[..p] + [Interval(start, end)] + intervals[p..];
    }
  }
}
