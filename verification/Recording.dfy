/** The recorder and the analyser together: requests are streamed, the successful rows are kept,
    and the windows account for exactly the tokens that were asked for. */
module Recording {
  import opened Totals
  import opened Generation
  import opened Windows

  /** One request with the events the server sends and when they arrive after submission. */
  datatype Exchange = Exchange(request: Request, stream: seq<Event>, clock: seq<real>, submitted: real)

  predicate Timed(xs: seq<Exchange>) {
    forall i :: 0 <= i < |xs| ==> |xs[i].clock| == |xs[i].stream|
  }

  predicate Succeeds(x: Exchange) {
    Complete(x.request, x.stream, FirstDone(x.stream))
  }

  /** The tokens asked for by the first `n` exchanges that succeed. */
  function Asked(xs: seq<Exchange>, n: nat): real
    requires n <= |xs|
  {
    if n == 0 then 0.0
    else Asked(xs, n - 1) + (if Succeeds(xs[n - 1]) then xs[n - 1].request.maxNewTokens as real else 0.0)
  }

  function RowOf(x: Exchange): Row
    requires |x.clock| == |x.stream|
  {
    Row(x.submitted, Rises(x.stream, x.clock, FirstDone(x.stream)))
  }

  /** The rows without an error. */
  function RowsOf(xs: seq<Exchange>, n: nat): seq<Row>
    requires n <= |xs| && Timed(xs)
  {
    if n == 0 then [] else RowsOf(xs, n - 1) + (if Succeeds(xs[n - 1]) then [RowOf(xs[n - 1])] else [])
  }

  method Record(xs: seq<Exchange>) returns (rows: seq<Row>)
    requires Timed(xs)
    ensures rows == RowsOf(xs, |xs|)
  {
    rows := [];
    for i := 0 to |xs|
      invariant rows == RowsOf(xs, i)
    {
      var result, events := Generate(xs[i].request, xs[i].stream, xs[i].clock);
      if result.Ok? {
        rows := rows + [Row(xs[i].submitted, events)];
      }
    }
  }

  lemma {:induction false} TokensPrefix(a: seq<Row>, b: seq<Row>, n: nat)
    requires n <= |a| <= |b| && forall i :: 0 <= i < n ==> a[i] == b[i]
    ensures Tokens(a, n) == Tokens(b, n)
  {
    if n > 0 { TokensPrefix(a, b, n - 1); }
  }

  /** Kept rows rise strictly, and their tokens are the tokens asked for. */
  lemma {:induction false} RowsAccount(xs: seq<Exchange>, n: nat)
    requires n <= |xs| && Timed(xs)
    ensures var rows := RowsOf(xs, n);
      && (forall r :: 0 <= r < |rows| ==> Rising(rows[r].events))
      && Tokens(rows, |rows|) == Asked(xs, n)
  {
    if n > 0 {
      RowsAccount(xs, n - 1);
      var before, rows := RowsOf(xs, n - 1), RowsOf(xs, n);
      if Succeeds(xs[n - 1]) {
        SuccessRecorded(xs[n - 1].request, xs[n - 1].stream, xs[n - 1].clock);
        TokensPrefix(before, rows, |before|);
      } else {
        assert rows == before;
      }
    }
  }

  // ----- Runs that end after the last event -----

  /** Every event of a successful exchange arrives from `start` on and before `finish`. */
  ghost predicate During(xs: seq<Exchange>, start: real, finish: real) {
    forall i, k :: 0 <= i < |xs| && Succeeds(xs[i]) && 0 <= k < |xs[i].clock| ==>
      start <= xs[i].submitted + xs[i].clock[k] < finish
  }

  lemma {:induction false} RiseTimed(stream: seq<Event>, clock: seq<real>, n: nat, i: nat) returns (k: nat)
    requires n <= |stream| == |clock| && i < |Rises(stream, clock, n)|
    ensures k < n && Rises(stream, clock, n)[i].offset == clock[k]
  {
    if i < |Rises(stream, clock, n - 1)| {
      k := RiseTimed(stream, clock, n - 1, i);
    } else {
      k := n - 1;
    }
  }

  lemma {:induction false} KeptRow(xs: seq<Exchange>, n: nat, r: nat) returns (i: nat)
    requires n <= |xs| && Timed(xs) && r < |RowsOf(xs, n)|
    ensures i < n && Succeeds(xs[i]) && RowsOf(xs, n)[r] == RowOf(xs[i])
  {
    if r < |RowsOf(xs, n - 1)| {
      i := KeptRow(xs, n - 1, r);
    } else {
      i := n - 1;
    }
  }

  lemma DuringInside(xs: seq<Exchange>, start: real, finish: real, window: real)
    requires window > 0.0 && Timed(xs) && During(xs, start, finish)
    ensures Inside(RowsOf(xs, |xs|), start, finish - start, window, |RowsOf(xs, |xs|)|)
  {
    var rows := RowsOf(xs, |xs|);
    forall r, e | 0 <= r < |rows| && 0 <= e < |rows[r].events|
      ensures Exported(IndexAt(rows[r], rows[r].events[e].offset, start, window), finish - start, window)
    {
      var i := KeptRow(xs, |xs|, r);
      var k := RiseTimed(xs[i].stream, xs[i].clock, FirstDone(xs[i].stream), e);
      InRangeExported(rows[r], rows[r].events[e].offset, start, finish, window);
    }
  }

  /** All windows together hold exactly the tokens the successful requests asked for.  The exported
      rates recover that number if and only if every arrival is in an exported window, and so
      whenever the run lasts from before the first event until after the last. */
  method RecordAndAnalyze(xs: seq<Exchange>, start: real, finish: real, window: real)
      returns (rows: seq<Row>, rates: map<int, real>, exports: seq<Export>)
    requires window > 0.0 && Timed(xs)
    ensures rows == RowsOf(xs, |xs|) && Total(rates) == Asked(xs, |xs|)
    ensures forall index :: Get(rates, index) == InWindow(rows, start, window, index)
    ensures ExportsAre(exports, rates, finish - start, window)
    ensures Recovered(exports, finish - start, window) == Asked(xs, |xs|)
       <==> Inside(rows, start, finish - start, window, |rows|)
    ensures During(xs, start, finish) ==> Recovered(exports, finish - start, window) == Asked(xs, |xs|)
  {
    rows := Record(xs);
    rates, exports := Analyze(rows, start, finish, window);
    RowsAccount(xs, |xs|);
    if During(xs, start, finish) {
      DuringInside(xs, start, finish, window);
    }
  }
}
