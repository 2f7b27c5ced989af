/** A trace as a sequence of layout steps: the roots sorted by their first span, each root's spans
    sorted by start, and the gateway spans last. */
module TraceSteps {
  import opened Layout
  import opened Ordering

  function StartOf(span: Span): int {
    span.start
  }

  /** `x["spans"][0]["startTimeUnixNano"]`; the pass fails before this is asked of an empty root. */
  function FirstStart(spans: seq<Span>): int {
    if spans == [] then 0 else spans[0].start
  }

  /** Each list sorted by the key. */
  function SortAll<T>(key: T -> int, lists: seq<seq<T>>): seq<seq<T>> {
    if lists == [] then [] else [SortBy(key, lists[0])] + SortAll(key, lists[1..])
  }

  /** The requests in the order they are laid out. */
  function Requests(roots: seq<seq<Span>>, smg: seq<Span>): seq<seq<Span>> {
    SortBy(FirstStart, SortAll(StartOf, roots)) + [SortBy(StartOf, smg)]
  }

  function Places(spans: seq<Span>): seq<Step> {
    if spans == [] then [] else Places(spans[..|spans| - 1]) + [Place(spans[|spans| - 1])]
  }

  /** Each request starts with an empty status. */
  function StepsOf(requests: seq<seq<Span>>): seq<Step> {
    if requests == [] then []
    else StepsOf(requests[..|requests| - 1]) + [NewRequest] + Places(requests[|requests| - 1])
  }

  ghost function PlaceAll(s: State, spans: seq<Span>): (s': State)
    requires StateOk(s)
    ensures StateOk(s')
  {
    if spans == [] then s else Next(PlaceAll(s, spans[..|spans| - 1]), Place(spans[|spans| - 1]))
  }

  lemma {:induction false} RunPlaces(steps: seq<Step>, spans: seq<Span>)
    ensures Run(steps + Places(spans)) == PlaceAll(Run(steps), spans)
  {
    if spans == [] {
      assert steps + Places(spans) == steps;
    } else {
      var n := |spans| - 1;
      RunPlaces(steps, spans[..n]);
      RunSnoc(steps + Places(spans[..n]), Place(spans[n]));
      assert steps + Places(spans) == steps + Places(spans[..n]) + [Place(spans[n])];
    }
  }

  lemma PlaceAllPrefix(s: State, spans: seq<Span>, k: nat)
    requires StateOk(s) && k < |spans|
    ensures PlaceAll(s, spans[..k + 1]) == Next(PlaceAll(s, spans[..k]), Place(spans[k]))
  {
    assert spans[..k + 1][..k] == spans[..k];
  }

  lemma StepsPrefix(requests: seq<seq<Span>>, k: nat)
    requires k < |requests|
    ensures Run(StepsOf(requests[..k + 1])) == PlaceAll(Next(Run(StepsOf(requests[..k])), NewRequest), requests[k])
  {
    assert requests[..k + 1][..k] == requests[..k];
    RunSnoc(StepsOf(requests[..k]), NewRequest);
    RunPlaces(StepsOf(requests[..k]) + [NewRequest], requests[k]);
  }

  function Flat<T>(requests: seq<seq<T>>): seq<T> {
    if requests == [] then [] else Flat(requests[..|requests| - 1]) + requests[|requests| - 1]
  }

  lemma {:induction false} SpansPlaces(steps: seq<Step>, spans: seq<Span>)
    ensures Spans(steps + Places(spans)) == Spans(steps) + spans
  {
    if spans == [] {
      assert steps + Places(spans) == steps;
    } else {
      var n := |spans| - 1;
      SpansPlaces(steps, spans[..n]);
      SpansSnoc(steps + Places(spans[..n]), Place(spans[n]));
      assert steps + Places(spans) == steps + Places(spans[..n]) + [Place(spans[n])];
      assert spans == spans[..n] + [spans[n]];
    }
  }

  lemma {:induction false} SpansFlat(requests: seq<seq<Span>>)
    ensures Spans(StepsOf(requests)) == Flat(requests)
  {
    if requests != [] {
      var n := |requests| - 1;
      SpansFlat(requests[..n]);
      SpansSnoc(StepsOf(requests[..n]), NewRequest);
      SpansPlaces(StepsOf(requests[..n]) + [NewRequest], requests[n]);
    }
  }
}
