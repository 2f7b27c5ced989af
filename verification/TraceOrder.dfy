/** The orders in which the converter meets the spans two links below a root, by position in the
    trace: each of them holds every such span once. */
module TraceOrder {
  import opened Ordering
  import opened Lanes
  import opened Layout
  import opened TraceSteps
  import opened TraceLayout
  import opened SpanForest
  import opened SpanPasses
  import opened SpanPipeline

  // ----- Sorting positions instead of spans -----

  function Map<A, B>(f: A -> B, xs: seq<A>): (ys: seq<B>)
    ensures |ys| == |xs| && forall i :: 0 <= i < |xs| ==> ys[i] == f(xs[i])
  {
    seq(|xs|, i requires 0 <= i < |xs| => f(xs[i]))
  }

  lemma {:induction false} MapInsert<A, B>(f: A -> B, key: B -> int, keyOf: A -> int, x: A, xs: seq<A>)
    requires forall a :: keyOf(a) == key(f(a))
    ensures Map(f, InsertBy(keyOf, x, xs)) == InsertBy(key, f(x), Map(f, xs))
  {
    if xs == [] || keyOf(x) <= keyOf(xs[0]) {
      assert Map(f, [x] + xs) == [f(x)] + Map(f, xs);
    } else {
      MapInsert(f, key, keyOf, x, xs[1..]);
      assert Map(f, xs)[1..] == Map(f, xs[1..]);
      assert Map(f, [xs[0]] + InsertBy(keyOf, x, xs[1..])) == [f(xs[0])] + Map(f, InsertBy(keyOf, x, xs[1..]));
    }
  }

  /** Sorting by a key of the image and then taking images is taking images and then sorting. */
  lemma {:induction false} MapSort<A, B>(f: A -> B, key: B -> int, keyOf: A -> int, xs: seq<A>)
    requires forall a :: keyOf(a) == key(f(a))
    ensures Map(f, SortBy(keyOf, xs)) == SortBy(key, Map(f, xs))
  {
    if xs != [] {
      MapSort(f, key, keyOf, xs[1..]);
      assert Map(f, xs)[1..] == Map(f, xs[1..]);
      MapInsert(f, key, keyOf, xs[0], SortBy(keyOf, xs[1..]));
    }
  }

  // ----- Levels up to order -----

  lemma DistinctByCount(xs: seq<nat>)
    requires forall x :: multiset(xs)[x] <= 1
    ensures Distinct(xs)
  {
    forall i, j | 0 <= i < j < |xs| ensures xs[i] != xs[j] {
      assert xs == xs[..j] + xs[j..];
      assert xs[i] == xs[..j][i] && xs[j] == xs[j..][0];
      assert xs[i] in multiset(xs[..j]) && xs[j] in multiset(xs[j..]);
      assert multiset(xs)[xs[i]] == multiset(xs[..j])[xs[i]] + multiset(xs[j..])[xs[i]];
    }
  }

  /** A level stays one in any other order. */
  lemma LevelPermuted(spans: Trace, a: seq<nat>, b: seq<nat>, d: nat)
    requires IsLevel(spans, a, d) && multiset(a) == multiset(b)
    ensures IsLevel(spans, b, d)
  {
    forall x ensures multiset(b)[x] <= 1 { OnceInMultiset(a, x); }
    DistinctByCount(b);
    forall i: nat ensures i in b <==> AtDepth(spans, i, d) {
      assert i in b <==> i in multiset(b);
      assert i in a <==> i in multiset(a);
    }
  }

  // ----- The top spans of each root -----

  /** The spans two links below one root: `root_span["spans"]` before sorting. */
  function TopsOf(spans: Trace, root: nat): seq<nat> {
    NextLevel(spans, Children(spans, root))
  }

  function Tops(spans: Trace, roots: seq<nat>): seq<seq<nat>> {
    if roots == [] then [] else Tops(spans, roots[..|roots| - 1]) + [TopsOf(spans, roots[|roots| - 1])]
  }

  lemma NextLevelSnoc(spans: Trace, nodes: seq<nat>, x: nat)
    ensures NextLevel(spans, nodes + [x]) == NextLevel(spans, nodes) + Children(spans, x)
  {
    assert (nodes + [x])[..|nodes|] == nodes;
  }

  lemma {:induction false} NextLevelConcat(spans: Trace, a: seq<nat>, b: seq<nat>)
    ensures NextLevel(spans, a + b) == NextLevel(spans, a) + NextLevel(spans, b)
    decreases |b|
  {
    if b == [] {
      assert a + b == a;
    } else {
      var b', x := b[..|b| - 1], b[|b| - 1];
      assert a + b == (a + b') + [x] && b == b' + [x];
      NextLevelConcat(spans, a, b');
      NextLevelSnoc(spans, a + b', x);
      NextLevelSnoc(spans, b', x);
    }
  }

  lemma {:induction false} TopsAreTopSpans(spans: Trace, roots: seq<nat>)
    ensures Flat(Tops(spans, roots)) == NextLevel(spans, NextLevel(spans, roots))
  {
    if roots != [] {
      var before, x := roots[..|roots| - 1], roots[|roots| - 1];
      TopsAreTopSpans(spans, before);
      NextLevelConcat(spans, NextLevel(spans, before), Children(spans, x));
    }
  }

  lemma {:induction false} TopsLength(spans: Trace, roots: seq<nat>)
    ensures |Tops(spans, roots)| == |roots|
    ensures forall i :: 0 <= i < |roots| ==> Tops(spans, roots)[i] == TopsOf(spans, roots[i])
  {
    if roots != [] { TopsLength(spans, roots[..|roots| - 1]); }
  }

  // ----- Layout order of positions -----

  /** What the layout sees of a top span: its thread's process and its shifted times. */
  function TopSpan(spans: Trace, i: nat): Span {
    if i < |spans| && ParentOf(spans, i) >= 0
    then Span(Process(spans[ParentOf(spans, i)].pid), spans[i].start, spans[i].end - 1000)
    else Span(Process(-1), 0, 0)
  }

  function StartAt(spans: Trace): nat -> int {
    (i: nat) => TopSpan(spans, i).start
  }

  function Image(spans: Trace): seq<nat> -> seq<Span> {
    xs => Map((i: nat) => TopSpan(spans, i), xs)
  }

  function FirstAt(spans: Trace): seq<nat> -> int {
    xs => FirstStart(Image(spans)(xs))
  }

  /** The top spans as the layout meets them. */
  function LayoutOrder(spans: Trace, requests: seq<seq<nat>>): seq<nat> {
    Flat(SortBy(FirstAt(spans), SortAll(StartAt(spans), requests)))
  }

  lemma {:induction false} SortAllImage(spans: Trace, requests: seq<seq<nat>>)
    ensures Map(Image(spans), SortAll(StartAt(spans), requests)) == SortAll(StartOf, Map(Image(spans), requests))
  {
    if requests != [] {
      SortAllImage(spans, requests[1..]);
      MapSort((i: nat) => TopSpan(spans, i), StartOf, StartAt(spans), requests[0]);
      assert Map(Image(spans), requests)[1..] == Map(Image(spans), requests[1..]);
      assert Map(Image(spans), SortAll(StartAt(spans), requests))
          == [Image(spans)(SortBy(StartAt(spans), requests[0]))] +
              Map(Image(spans), SortAll(StartAt(spans), requests[1..]));
    }
  }

  lemma {:induction false} FlatImage(spans: Trace, requests: seq<seq<nat>>)
    ensures Flat(Map(Image(spans), requests)) == Image(spans)(Flat(requests))
  {
    if requests != [] {
      var k := |requests| - 1;
      FlatImage(spans, requests[..k]);
      assert Map(Image(spans), requests)[..k] == Map(Image(spans), requests[..k]);
    }
  }

  /** The spans laid out are the images of the positions in layout order. */
  lemma LayoutOrderImage(spans: Trace, requests: seq<seq<nat>>)
    ensures Flat(Requests(Map(Image(spans), requests), [])) == Image(spans)(LayoutOrder(spans, requests))
  {
    var sorted := SortAll(StartAt(spans), requests);
    SortAllImage(spans, requests);
    MapSort(Image(spans), FirstStart, FirstAt(spans), sorted);
    FlatImage(spans, SortBy(FirstAt(spans), sorted));
    var all := Requests(Map(Image(spans), requests), []);
    assert all[..|all| - 1] == SortBy(FirstStart, SortAll(StartOf, Map(Image(spans), requests)));
    assert all[|all| - 1] == [];
  }

  // ----- Neither sort loses a span -----

  /** Both orders used after the conversion hold every top span once. */
  lemma OrdersAreLevels(spans: Trace, requests: seq<seq<nat>>)
    requires requests == Tops(spans, Roots(spans))
    ensures IsLevel(spans, Flat(requests), 2)
    ensures IsLevel(spans, LayoutOrder(spans, requests), 2)
    ensures IsLevel(spans, Flat(SortAll(StartAt(spans), requests)), 2)
  {
    TopsAreTopSpans(spans, Roots(spans));
    TopSpansLevel(spans);
    FlatSortAll(StartAt(spans), requests);
    FlatSort(FirstAt(spans), SortAll(StartAt(spans), requests));
    LevelPermuted(spans, Flat(requests), LayoutOrder(spans, requests), 2);
    LevelPermuted(spans, Flat(requests), Flat(SortAll(StartAt(spans), requests)), 2);
  }

  // ----- Lanes by position -----

  /** Of two top spans of one process on one lane, one ends before the other starts. */
  ghost predicate LanesApart(spans: Trace, tids: seq<int>, p: Pid)
    requires |tids| == |spans|
  {
    forall i: nat, j: nat ::
      && i < |spans| && j < |spans| && i != j && AtDepth(spans, i, 2) && AtDepth(spans, j, 2)
      && TopSpan(spans, i).pid == p && TopSpan(spans, j).pid == p && tids[i] == tids[j]
      ==> Apart(At(TopSpan(spans, i)), At(TopSpan(spans, j)))
  }

  ghost function StepsFor(spans: Trace): seq<Step> {
    StepsOf(Requests(Map(Image(spans), Tops(spans, Roots(spans))), []))
  }
}
