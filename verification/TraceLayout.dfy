/** `generate_perfetto_span_layout` over a whole trace: each root's spans are sorted by start,
    roots by their first span, then everything is placed, the gateway spans last. */
module TraceLayout {
  import opened Wrappers
  import opened Lanes
  import opened Layout
  import opened LaneOptimality
  import opened Ordering
  import opened TraceSteps
  import opened LayoutRule
  import LayoutPass

  ghost predicate Shows(pass: LayoutPass.Pass, s: State)
    reads pass, pass.owner.Keys
  {
    pass.Valid() && StateOk(s) && pass.board == s.board && pass.reqThreadStatus == s.status
  }

  /** One turn of the loop over a request's spans. */
  method PlaceNth(pass: LayoutPass.Pass, spans: seq<Span>, k: nat, ghost s: State) returns (line: int)
    requires StateOk(s) && k < |spans| && Shows(pass, PlaceAll(s, spans[..k]))
    modifies pass, pass.owner.Keys
    ensures fresh(pass.owner.Keys - old(pass.owner.Keys))
    ensures Shows(pass, PlaceAll(s, spans[..k + 1]))
    ensures PlaceAll(s, spans[..k + 1]).lines == PlaceAll(s, spans[..k]).lines + [line]
  {
    PlaceAllPrefix(s, spans, k);
    line := pass.PlaceSpan(spans[k]);
  }

  /** The loop over one request's spans; `done` are the lines given out before. */
  method LayoutRequest(pass: LayoutPass.Pass, spans: seq<Span>, done: seq<int>,
          ghost s: State) returns (lines: seq<int>)
    requires Shows(pass, s) && done == s.lines
    modifies pass, pass.owner.Keys
    ensures fresh(pass.owner.Keys - old(pass.owner.Keys))
    ensures StateOk(s) && Shows(pass, PlaceAll(s, spans)) && lines == PlaceAll(s, spans).lines
  {
    lines := done;
    for k := 0 to |spans|
      invariant fresh(pass.owner.Keys - old(pass.owner.Keys))
      invariant Shows(pass, PlaceAll(s, spans[..k])) && lines == PlaceAll(s, spans[..k]).lines
    {
      var line := PlaceNth(pass, spans, k, s);
      lines := lines + [line];
    }
    assert spans[..|spans|] == spans;
  }

  /** `generate_perfetto_span_layout`: the lines of all spans in layout order, and the lane
      records.  A root without spans makes the sort key fail. */
  method GenerateLayout(roots: seq<seq<Span>>, smg: seq<Span>) returns (r: Result<(seq<int>, seq<Record>)>)
    ensures r.Failure? <==> exists i :: 0 <= i < |roots| && roots[i] == []
    ensures r.Success? ==> r.value.0 == Run(StepsOf(Requests(roots, smg))).lines
    ensures r.Success? ==> r.value.1 == Run(StepsOf(Requests(roots, smg))).board.meta
    ensures r.Success? ==> Follows(Requests(roots, smg), r.value.0)
    ensures r.Success? ==> AnnouncesOpened(Requests(roots, smg), r.value.0, r.value.1)
  {
    if i :| 0 <= i < |roots| && roots[i] == [] {
      return Failure("IndexError");
    }
    var requests: seq<seq<Span>> := Requests(roots, smg);
    var pass := new LayoutPass.Pass();
    var lines: seq<int> := [];
    for k := 0 to |requests|
      invariant pass.Valid() && fresh(pass) && fresh(pass.owner.Keys)
      invariant pass.board == Run(StepsOf(requests[..k])).board
      invariant lines == Run(StepsOf(requests[..k])).lines
    {
      lines := LayoutNth(pass, requests, k, lines);
    }
    assert requests[..|requests|] == requests;
    RunFollows(requests);
    r := Success((lines, pass.slotMetaData));
  }

  /** Every line up to the highest one of a process has one record, and no other. */
  ghost predicate AnnouncesOpened(requests: seq<seq<Span>>, lines: seq<int>, slots: seq<Record>) {
    && |lines| == |Flat(requests)|
    && forall p, line :: multiset(slots)[Record(p, line)]
         == if 1 <= line <= Opened(Flat(requests), lines, p) then 1 else 0
  }

  /** One turn of the loop over requests: an empty status, then its spans. */
  method LayoutNth(pass: LayoutPass.Pass, requests: seq<seq<Span>>, k: nat, done: seq<int>) returns (lines: seq<int>)
    requires k < |requests| && pass.Valid()
    requires pass.board == Run(StepsOf(requests[..k])).board && done == Run(StepsOf(requests[..k])).lines
    modifies pass, pass.owner.Keys
    ensures pass.Valid() && fresh(pass.owner.Keys - old(pass.owner.Keys))
    ensures pass.board == Run(StepsOf(requests[..k + 1])).board && lines == Run(StepsOf(requests[..k + 1])).lines
  {
    StepsPrefix(requests, k);
    lines := LayoutFrom(pass, requests[k], done, Run(StepsOf(requests[..k])));
  }

  /** A request from the state the ones before left. */
  method LayoutFrom(pass: LayoutPass.Pass, spans: seq<Span>, done: seq<int>, ghost s: State) returns (lines: seq<int>)
    requires pass.Valid() && StateOk(s) && pass.board == s.board && done == s.lines
    modifies pass, pass.owner.Keys
    ensures pass.Valid() && fresh(pass.owner.Keys - old(pass.owner.Keys))
    ensures var s' := PlaceAll(Next(s, NewRequest), spans);
      pass.board == s'.board && lines == s'.lines
  {
    pass.NewRequest();
    lines := LayoutRequest(pass, spans, done, Next(s, NewRequest));
  }

  // ----- From the placed sequence back to the input -----

  /** How many requests have a span of the process. */
  function Users(requests: seq<seq<Span>>, p: Pid): nat {
    if requests == [] then 0 else (if Uses(requests[0], p) then 1 else 0) + Users(requests[1..], p)
  }

  function TotalDepth(requests: seq<seq<Span>>, p: Pid, t: int): nat {
    if requests == [] then 0 else Depth(requests[0], p, t) + TotalDepth(requests[1..], p, t)
  }

  predicate AllPositive(requests: seq<seq<Span>>, p: Pid) {
    forall i, k :: 0 <= i < |requests| && 0 <= k < |requests[i]| && requests[i][k].pid == p ==>
      Positive(At(requests[i][k]))
  }

  lemma {:induction false} DepthConcat(a: seq<Span>, b: seq<Span>, p: Pid, t: int)
    ensures Depth(a + b, p, t) == Depth(a, p, t) + Depth(b, p, t)
  {
    if b == [] {
      assert a + b == a;
    } else {
      var n := |b| - 1;
      DepthConcat(a, b[..n], p, t);
      assert (a + b)[..|a + b| - 1] == a + b[..n];
    }
  }

  lemma {:induction false} TotalsConcat(a: seq<seq<Span>>, b: seq<seq<Span>>, p: Pid, t: int)
    ensures Users(a + b, p) == Users(a, p) + Users(b, p)
    ensures TotalDepth(a + b, p, t) == TotalDepth(a, p, t) + TotalDepth(b, p, t)
  {
    if a == [] {
      assert a + b == b;
    } else {
      TotalsConcat(a[1..], b, p, t);
      assert (a + b)[1..] == a[1..] + b;
    }
  }

  lemma {:induction false} FlatDepth(requests: seq<seq<Span>>, p: Pid, t: int)
    ensures Depth(Flat(requests), p, t) == TotalDepth(requests, p, t)
  {
    if requests != [] {
      var n := |requests| - 1;
      FlatDepth(requests[..n], p, t);
      DepthConcat(Flat(requests[..n]), requests[n], p, t);
      assert requests == requests[..n] + [requests[n]];
      TotalsConcat(requests[..n], [requests[n]], p, t);
      assert [requests[n]][1..] == [];
    }
  }

  // Sorting changes neither the depths nor the users.

  lemma {:induction false} InsertDepth(x: Span, xs: seq<Span>, p: Pid, t: int)
    ensures Depth(InsertBy(StartOf, x, xs), p, t) == Depth([x], p, t) + Depth(xs, p, t)
  {
    if xs == [] || StartOf(x) <= StartOf(xs[0]) {
      DepthConcat([x], xs, p, t);
    } else {
      InsertDepth(x, xs[1..], p, t);
      DepthConcat([xs[0]], InsertBy(StartOf, x, xs[1..]), p, t);
      DepthConcat([xs[0]], xs[1..], p, t);
      assert xs == [xs[0]] + xs[1..];
    }
  }

  lemma {:induction false} SortDepth(xs: seq<Span>, p: Pid, t: int)
    ensures Depth(SortBy(StartOf, xs), p, t) == Depth(xs, p, t)
  {
    if xs != [] {
      SortDepth(xs[1..], p, t);
      InsertDepth(xs[0], SortBy(StartOf, xs[1..]), p, t);
      DepthConcat([xs[0]], xs[1..], p, t);
      assert xs == [xs[0]] + xs[1..];
    }
  }

  lemma SortUses(xs: seq<Span>, p: Pid)
    ensures Uses(SortBy(StartOf, xs), p) == Uses(xs, p)
  {
    SortByLength(StartOf, xs);
    var ys := SortBy(StartOf, xs);
    if Uses(xs, p) {
      var k :| 0 <= k < |xs| && xs[k].pid == p;
      assert xs[k] in ys;
    }
    if Uses(ys, p) {
      var k :| 0 <= k < |ys| && ys[k].pid == p;
      assert ys[k] in xs;
    }
  }

  lemma {:induction false} SortAllTotals(roots: seq<seq<Span>>, p: Pid, t: int)
    ensures Users(SortAll(StartOf, roots), p) == Users(roots, p)
    ensures TotalDepth(SortAll(StartOf, roots), p, t) == TotalDepth(roots, p, t)
  {
    if roots != [] {
      SortAllTotals(roots[1..], p, t);
      SortUses(roots[0], p);
      SortDepth(roots[0], p, t);
      assert SortAll(StartOf, roots)[1..] == SortAll(StartOf, roots[1..]);
    }
  }

  lemma {:induction false} InsertTotals(x: seq<Span>, xs: seq<seq<Span>>, p: Pid, t: int)
    ensures Users(InsertBy(FirstStart, x, xs), p) == Users([x] + xs, p)
    ensures TotalDepth(InsertBy(FirstStart, x, xs), p, t) == TotalDepth([x] + xs, p, t)
  {
    if xs != [] && FirstStart(x) > FirstStart(xs[0]) {
      InsertTotals(x, xs[1..], p, t);
      var rest := InsertBy(FirstStart, x, xs[1..]);
      assert ([xs[0]] + rest)[1..] == rest;
      assert ([x] + xs)[1..] == xs && ([x] + xs[1..])[1..] == xs[1..];
    }
  }

  lemma {:induction false} SortTotals(xs: seq<seq<Span>>, p: Pid, t: int)
    ensures Users(SortBy(FirstStart, xs), p) == Users(xs, p)
    ensures TotalDepth(SortBy(FirstStart, xs), p, t) == TotalDepth(xs, p, t)
  {
    if xs != [] {
      SortTotals(xs[1..], p, t);
      InsertTotals(xs[0], SortBy(FirstStart, xs[1..]), p, t);
      var rest := SortBy(FirstStart, xs[1..]);
      assert ([xs[0]] + rest)[1..] == rest;
    }
  }

  lemma RequestTotals(roots: seq<seq<Span>>, smg: seq<Span>, p: Pid, t: int)
    ensures Users(Requests(roots, smg), p) == Users(roots + [smg], p)
    ensures TotalDepth(Requests(roots, smg), p, t) == TotalDepth(roots + [smg], p, t)
  {
    SortAllTotals(roots, p, t);
    SortTotals(SortAll(StartOf, roots), p, t);
    SortUses(smg, p);
    SortDepth(smg, p, t);
    TotalsConcat(SortBy(FirstStart, SortAll(StartOf, roots)), [SortBy(StartOf, smg)], p, t);
    TotalsConcat(roots, [smg], p, t);
    assert [smg][1..] == [] && [SortBy(StartOf, smg)][1..] == [];
  }

  // ----- Whole-trace results -----

  predicate EachSorted(requests: seq<seq<Span>>) {
    forall i, j, k :: 0 <= i < |requests| && 0 <= j < k < |requests[i]| ==> requests[i][j].start <= requests[i][k].start
  }

  lemma SortedRequest(spans: seq<Span>)
    ensures var r := SortBy(StartOf, spans);
            && (forall j, k :: 0 <= j < k < |r| ==> r[j].start <= r[k].start)
            && (forall x :: x in r <==> x in spans)
  {
    SortBySorts(StartOf, spans);
    SortByLength(StartOf, spans);
    var r := SortBy(StartOf, spans);
    forall j, k | 0 <= j < k < |r| ensures r[j].start <= r[k].start {
      assert StartOf(r[j]) <= StartOf(r[k]);
    }
  }

  lemma {:induction false} SortAllMembers(roots: seq<seq<Span>>)
    ensures |SortAll(StartOf, roots)| == |roots|
    ensures forall i :: 0 <= i < |roots| ==> SortAll(StartOf, roots)[i] == SortBy(StartOf, roots[i])
  {
    if roots != [] { SortAllMembers(roots[1..]); }
  }

  // Sorting the roots and each root's spans loses and doubles none.

  lemma {:induction false} FlatConcat<T>(a: seq<seq<T>>, b: seq<seq<T>>)
    ensures Flat(a + b) == Flat(a) + Flat(b)
  {
    if b == [] {
      assert a + b == a;
    } else {
      var n := |b| - 1;
      FlatConcat(a, b[..n]);
      assert (a + b)[..|a + b| - 1] == a + b[..n];
    }
  }

  lemma FlatCons<T>(x: seq<T>, xs: seq<seq<T>>)
    ensures Flat([x] + xs) == x + Flat(xs)
  {
    FlatConcat([x], xs);
    assert [x][..0] == [] && [] + x == x;
  }

  lemma {:induction false} FlatInsert<T>(key: seq<T> -> int, x: seq<T>, xs: seq<seq<T>>)
    ensures multiset(Flat(InsertBy(key, x, xs))) == multiset(x) + multiset(Flat(xs))
  {
    if xs == [] || key(x) <= key(xs[0]) {
      FlatCons(x, xs);
    } else {
      FlatInsert(key, x, xs[1..]);
      FlatCons(xs[0], InsertBy(key, x, xs[1..]));
      FlatCons(xs[0], xs[1..]);
      assert xs == [xs[0]] + xs[1..];
    }
  }

  lemma {:induction false} FlatSort<T>(key: seq<T> -> int, xs: seq<seq<T>>)
    ensures multiset(Flat(SortBy(key, xs))) == multiset(Flat(xs))
  {
    if xs != [] {
      FlatSort(key, xs[1..]);
      FlatInsert(key, xs[0], SortBy(key, xs[1..]));
      FlatCons(xs[0], xs[1..]);
      assert xs == [xs[0]] + xs[1..];
    }
  }

  lemma {:induction false} FlatSortAll<T>(key: T -> int, lists: seq<seq<T>>)
    ensures multiset(Flat(SortAll(key, lists))) == multiset(Flat(lists))
  {
    if lists != [] {
      FlatSortAll(key, lists[1..]);
      SortBySorts(key, lists[0]);
      FlatCons(SortBy(key, lists[0]), SortAll(key, lists[1..]));
      FlatCons(lists[0], lists[1..]);
      assert lists == [lists[0]] + lists[1..];
    }
  }

  lemma RequestsFlat(roots: seq<seq<Span>>, smg: seq<Span>)
    ensures multiset(Flat(Requests(roots, smg))) == multiset(Flat(roots + [smg]))
  {
    var sorted: seq<seq<Span>> := SortAll(StartOf, roots);
    FlatSortAll(StartOf, roots);
    FlatSort(FirstStart, sorted);
    SortBySorts(StartOf, smg);
    assert forall x: seq<Span>, xs: seq<seq<Span>> :: (xs + [x])[..|xs|] == xs;
  }

  /** The request comes from `source`, which is a root or the gateway's list. */
  lemma RequestSource(roots: seq<seq<Span>>, smg: seq<Span>, i: nat) returns (source: seq<Span>)
    requires i < |Requests(roots, smg)|
    ensures source in roots + [smg] && Requests(roots, smg)[i] == SortBy(StartOf, source)
  {
    var sorted: seq<seq<Span>> := SortAll(StartOf, roots);
    SortAllMembers(roots);
    SortByLength(FirstStart, sorted);
    if i < |roots| {
      var root := SortBy(FirstStart, sorted)[i];
      assert root in SortBy(FirstStart, sorted);
      var m :| 0 <= m < |sorted| && sorted[m] == root;
      source := roots[m];
      assert (roots + [smg])[m] == source;
    } else {
      source := smg;
      assert (roots + [smg])[|roots|] == source;
    }
  }

  /** The roots are laid out by their first start, the gateway's list last; each list is sorted by
      start; and together they hold every span of the input as often as the input does. */
  lemma RequestsSorted(roots: seq<seq<Span>>, smg: seq<Span>)
    ensures |Requests(roots, smg)| == |roots| + 1
    ensures SortedBy(FirstStart, Requests(roots, smg)[..|roots|])
    ensures multiset(Requests(roots, smg)[..|roots|]) == multiset(SortAll(StartOf, roots))
    ensures multiset(Requests(roots, smg)[|roots|]) == multiset(smg)
    ensures EachSorted(Requests(roots, smg))
    ensures multiset(Flat(Requests(roots, smg))) == multiset(Flat(roots + [smg]))
  {
    var sorted: seq<seq<Span>> := SortAll(StartOf, roots);
    var requests: seq<seq<Span>> := Requests(roots, smg);
    SortAllMembers(roots);
    SortBySorts(FirstStart, sorted);
    SortByLength(FirstStart, sorted);
    SortBySorts(StartOf, smg);
    assert requests[..|roots|] == SortBy(FirstStart, sorted);
    RequestsFlat(roots, smg);
    forall i | 0 <= i < |requests|
      ensures forall j, k :: 0 <= j < k < |requests[i]| ==> requests[i][j].start <= requests[i][k].start
    {
      var source := RequestSource(roots, smg, i);
      SortedRequest(source);
    }
  }

  lemma RequestsPositive(roots: seq<seq<Span>>, smg: seq<Span>, p: Pid)
    requires AllPositive(roots + [smg], p)
    ensures AllPositive(Requests(roots, smg), p)
  {
    var requests: seq<seq<Span>> := Requests(roots, smg);
    forall i, k | 0 <= i < |requests| && 0 <= k < |requests[i]| && requests[i][k].pid == p
      ensures Positive(At(requests[i][k]))
    {
      var source := RequestSource(roots, smg, i);
      SortedRequest(source);
      assert requests[i][k] in source;
    }
  }

  /** The picture of a whole trace keeps every lane in order exactly when its run has no clash;
      in particular when no span of the process has a shifted end equal to its start. */
  lemma TracePicture(roots: seq<seq<Span>>, smg: seq<Span>, p: Pid)
    ensures var steps := StepsOf(Requests(roots, smg));
            && |Run(steps).lines| == |Flat(Requests(roots, smg))|
            && (PairsApart(Flat(Requests(roots, smg)), Run(steps).lines, p) <==> ClashFree(steps, p))
            && (LanesOk(SlotsOf(Run(steps).board, p)) <==> ClashFree(steps, p))
            && ((forall k :: 0 <= k < |Flat(Requests(roots, smg))| && Flat(Requests(roots, smg))[k].pid == p
                  ==> Flat(Requests(roots, smg))[k].start != Flat(Requests(roots, smg))[k].end) ==> ClashFree(steps, p))
  {
    var requests: seq<seq<Span>> := Requests(roots, smg);
    var steps := StepsOf(requests);
    SpansFlat(requests);
    PictureExact(steps, p);
    LaneSafetyExact(steps, p);
    if forall k :: 0 <= k < |Flat(requests)| && Flat(requests)[k].pid == p ==>
        Flat(requests)[k].start != Flat(requests)[k].end {
      NoZeroLengthClashFree(steps, p);
    }
  }
}
