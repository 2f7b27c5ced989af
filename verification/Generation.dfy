/** One streamed generation request: what `generate` records of the events and when it accepts. */
module Generation {
  import opened Wrappers

  datatype Meta = Meta(completion: int, stoppedAtLength: bool, prompt: int, dpRank: Option<int>, id: string)

  /** A decoded server-sent event; `Broken` stands for an error message or undecodable data. */
  datatype Event = Done | Broken | Message(meta: Meta, outputIds: Option<seq<int>>)

  datatype Request = Request(maxNewTokens: int, contextTokens: int, rank: Option<int>, incremental: bool,
      dpSize: Option<int>)

  datatype Result = Ok(id: string, ids: seq<int>) | Err

  /** A token arrival: seconds since submission and the count so far. */
  datatype Arrival = Arrival(offset: real, count: int)

  // ----- What a stream says -----

  /** The first `n` events are messages whose counts never move backwards. */
  predicate Forward(stream: seq<Event>, n: nat)
    requires n <= |stream|
  {
    forall i :: 0 <= i < n ==> stream[i].Message? && CountAfter(stream, i) <= stream[i].meta.completion
  }

  function CountAfter(stream: seq<Event>, n: nat): int
    requires n <= |stream|
  {
    if n > 0 && stream[n - 1].Message? then stream[n - 1].meta.completion else 0
  }

  function IdsAfter(stream: seq<Event>, n: nat, incremental: bool): seq<int>
    requires n <= |stream|
  {
    if n == 0 then []
    else
      var before := IdsAfter(stream, n - 1, incremental);
      match stream[n - 1]
      case Message(_, Some(ids)) => if incremental then before + ids else ids
      case _ => before
  }

  /** The arrivals recorded for the first `n` events: those whose count rises. */
  function Rises(stream: seq<Event>, clock: seq<real>, n: nat): seq<Arrival>
    requires n <= |stream| == |clock|
  {
    if n == 0 then []
    else if stream[n - 1].Message? && stream[n - 1].meta.completion > CountAfter(stream, n - 1)
    then Rises(stream, clock, n - 1) + [Arrival(clock[n - 1], stream[n - 1].meta.completion)]
    else Rises(stream, clock, n - 1)
  }

  predicate RankAgrees(request: Request, dpRank: Option<int>) {
    || request.rank == None
    || dpRank == request.rank
    || (request.dpSize == Some(1) && request.rank == Some(0) && dpRank == None)
  }

  /** The stream is acceptable up to its first `Done`, which is event `n`. */
  predicate Complete(request: Request, stream: seq<Event>, n: nat)
    requires n <= |stream|
  {
    && n < |stream| && stream[n].Done? && Forward(stream, n)
    && n > 0
    && stream[n - 1].Message?
    && var meta := stream[n - 1].meta;
       && meta.stoppedAtLength
       && meta.completion == request.maxNewTokens != 0
       && |IdsAfter(stream, n, request.incremental)| == request.maxNewTokens
       && meta.prompt == request.contextTokens
       && RankAgrees(request, meta.dpRank)
  }

  function FirstDone(stream: seq<Event>): (n: nat)
    ensures n <= |stream| && (forall i :: 0 <= i < n ==> !stream[i].Done?) && (n < |stream| ==> stream[n].Done?)
  {
    if stream == [] || stream[0].Done? then 0 else 1 + FirstDone(stream[1..])
  }

  // ----- What is recorded -----

  /** The ids an event carries. */
  function IdsIn(event: Event): seq<int> {
    if event.Message? && event.outputIds.Some? then event.outputIds.value else []
  }

  /** How many ids the first `n` events carry. */
  function Carried(stream: seq<Event>, n: nat): nat
    requires n <= |stream|
  {
    if n == 0 then 0 else Carried(stream, n - 1) + |IdsIn(stream[n - 1])|
  }

  /** With incremental output the ids of the events stand one behind the other in the order they came;
      otherwise the ids are those of the last event that has some. */
  ghost predicate IdsAre(stream: seq<Event>, n: nat, incremental: bool, ids: seq<int>)
    requires n <= |stream|
  {
    if incremental then
      && |ids| == Carried(stream, n)
      && forall k, j :: 0 <= k < n && 0 <= j < |IdsIn(stream[k])| ==>
           var at := Carried(stream, k) + j;
           at < |ids| && ids[at] == IdsIn(stream[k])[j]
    else
      && (forall k :: 0 <= k < n && LastWithIds(stream, n, k) ==> ids == IdsIn(stream[k]))
      && ((forall k :: 0 <= k < n ==> !HasIds(stream[k])) ==> ids == [])
  }

  predicate HasIds(event: Event) {
    event.Message? && event.outputIds.Some?
  }

  predicate LastWithIds(stream: seq<Event>, n: nat, k: nat)
    requires k < n <= |stream|
  {
    HasIds(stream[k]) && forall l :: k < l < n ==> !HasIds(stream[l])
  }

  lemma IdsStep(stream: seq<Event>, n: nat)
    requires 0 < n <= |stream|
    ensures IdsAfter(stream, n, true) == IdsAfter(stream, n - 1, true) + IdsIn(stream[n - 1])
  {
    assert IdsAfter(stream, n - 1, true) + [] == IdsAfter(stream, n - 1, true);
  }

  lemma {:induction false} IdsLength(stream: seq<Event>, n: nat)
    requires n <= |stream|
    ensures |IdsAfter(stream, n, true)| == Carried(stream, n)
  {
    if n > 0 {
      IdsStep(stream, n);
      IdsLength(stream, n - 1);
    }
  }

  lemma {:induction false} IdAt(stream: seq<Event>, n: nat, k: nat, j: nat)
    requires k < n <= |stream| && j < |IdsIn(stream[k])|
    ensures Carried(stream, k) + j < |IdsAfter(stream, n, true)|
    ensures IdsAfter(stream, n, true)[Carried(stream, k) + j] == IdsIn(stream[k])[j]
  {
    IdsStep(stream, n);
    IdsLength(stream, n - 1);
    if k < n - 1 { IdAt(stream, n - 1, k, j); }
  }

  lemma AppendedIds(stream: seq<Event>, n: nat)
    requires n <= |stream|
    ensures IdsAre(stream, n, true, IdsAfter(stream, n, true))
  {
    IdsLength(stream, n);
    forall k, j | 0 <= k < n && 0 <= j < |IdsIn(stream[k])|
      ensures var at := Carried(stream, k) + j;
        at < |IdsAfter(stream, n, true)| && IdsAfter(stream, n, true)[at] == IdsIn(stream[k])[j]
    {
      IdAt(stream, n, k, j);
    }
  }

  lemma {:induction false} LastIds(stream: seq<Event>, n: nat, k: nat)
    requires k < n <= |stream| && LastWithIds(stream, n, k)
    ensures IdsAfter(stream, n, false) == IdsIn(stream[k])
  {
    if k < n - 1 { LastIds(stream, n - 1, k); }
  }

  lemma {:induction false} NoIds(stream: seq<Event>, n: nat)
    requires n <= |stream| && forall k :: 0 <= k < n ==> !HasIds(stream[k])
    ensures IdsAfter(stream, n, false) == []
  {
    if n > 0 { NoIds(stream, n - 1); }
  }

  lemma ReplacedIds(stream: seq<Event>, n: nat)
    requires n <= |stream|
    ensures IdsAre(stream, n, false, IdsAfter(stream, n, false))
  {
    forall k | 0 <= k < n && LastWithIds(stream, n, k) ensures IdsAfter(stream, n, false) == IdsIn(stream[k]) {
      LastIds(stream, n, k);
    }
    if forall k :: 0 <= k < n ==> !HasIds(stream[k]) { NoIds(stream, n); }
  }

  lemma IdsMean(stream: seq<Event>, n: nat, incremental: bool)
    requires n <= |stream|
    ensures IdsAre(stream, n, incremental, IdsAfter(stream, n, incremental))
  {
    if incremental { AppendedIds(stream, n); } else { ReplacedIds(stream, n); }
  }

  /** The event's count is above the one before. */
  predicate RisesAt(stream: seq<Event>, k: nat)
    requires k < |stream|
  {
    stream[k].Message? && stream[k].meta.completion > CountAfter(stream, k)
  }

  /** One arrival for each of the first `n` events whose count rises, with that event's time and count; these
      events stand at `at`, in order. */
  ghost predicate ArrivalsAre(stream: seq<Event>, clock: seq<real>, n: nat, events: seq<Arrival>, at: seq<nat>)
    requires n <= |stream| == |clock|
  {
    && |events| == |at| && (forall i, j :: 0 <= i < j < |at| ==> at[i] < at[j])
    && (forall k: nat :: k in at <==> k < n && RisesAt(stream, k))
    && forall i :: 0 <= i < |at| && at[i] < n && stream[at[i]].Message? ==>
         events[i] == Arrival(clock[at[i]], stream[at[i]].meta.completion)
  }

  lemma ArrivalAdded(stream: seq<Event>, clock: seq<real>, n: nat, events: seq<Arrival>, at: seq<nat>)
    requires n < |stream| == |clock| && ArrivalsAre(stream, clock, n, events, at) && RisesAt(stream, n)
    ensures ArrivalsAre(stream, clock, n + 1, events + [Arrival(clock[n], stream[n].meta.completion)], at + [n])
  {
    forall i | 0 <= i < |at| ensures at[i] < n && stream[at[i]].Message? {
      assert at[i] in at;
      assert RisesAt(stream, at[i]);
    }
    forall k: nat ensures k in at + [n] <==> k < n + 1 && RisesAt(stream, k) {
      assert k in at + [n] <==> k in at || k == n;
    }
  }

  lemma ArrivalsKept(stream: seq<Event>, clock: seq<real>, n: nat, events: seq<Arrival>, at: seq<nat>)
    requires n < |stream| == |clock| && ArrivalsAre(stream, clock, n, events, at) && !RisesAt(stream, n)
    ensures ArrivalsAre(stream, clock, n + 1, events, at)
  {
    forall i | 0 <= i < |at| ensures at[i] < n { assert at[i] in at; }
  }

  lemma {:induction false} RisesAre(stream: seq<Event>, clock: seq<real>, n: nat) returns (at: seq<nat>)
    requires n <= |stream| == |clock|
    ensures ArrivalsAre(stream, clock, n, Rises(stream, clock, n), at)
  {
    at := [];
    if n > 0 {
      at := RisesAre(stream, clock, n - 1);
      if RisesAt(stream, n - 1) {
        ArrivalAdded(stream, clock, n - 1, Rises(stream, clock, n - 1), at);
        at := at + [n - 1];
      } else {
        ArrivalsKept(stream, clock, n - 1, Rises(stream, clock, n - 1), at);
      }
    }
  }

  /** Which data-parallel rank may answer: any if none was asked for; the one asked for; and no rank at all only
      for rank 0 of a single one. */
  lemma RankTable(request: Request, rank: int)
    ensures request.rank.None? ==> RankAgrees(request, None) && RankAgrees(request, Some(rank))
    ensures request.rank.Some? ==> (RankAgrees(request, Some(rank)) <==> rank == request.rank.value)
    ensures request.rank.Some? ==> (RankAgrees(request, None) <==> request.rank.value == 0 && request.dpSize == Some(1))
  {
  }

  // ----- The streaming loop -----

  method Generate(request: Request, stream: seq<Event>, clock: seq<real>) returns (result: Result, events: seq<Arrival>)
    requires |clock| == |stream|
    ensures result.Ok? ==> IdsAre(stream, FirstDone(stream), request.incremental, result.ids)
    ensures result.Ok? <==> Complete(request, stream, FirstDone(stream))
    ensures result.Ok? ==> events == Rises(stream, clock, FirstDone(stream))
    ensures result.Ok? ==> result.ids == IdsAfter(stream, FirstDone(stream), request.incremental)
    ensures exists k :: 0 <= k <= FirstDone(stream) && Forward(stream, k) && events == Rises(stream, clock, k)
  {
    ghost var end := FirstDone(stream);
    var count, ids, meta, done := 0, [], Meta(0, false, 0, None, ""), false;
    events := [];
    var i := 0;
    while i < |stream|
      invariant i <= end && !done && Forward(stream, i)
      invariant count == CountAfter(stream, i) && ids == IdsAfter(stream, i, request.incremental)
      invariant events == Rises(stream, clock, i)
      invariant i > 0 ==> stream[i - 1].Message? && meta == stream[i - 1].meta
    {
      var event := stream[i];
      if event.Done? {
        done := true;
        break;
      }
      if event.Broken? {
        return Err, events;
      }
      meta := event.meta;
      var current := meta.completion;
      if current < count {
        return Err, events;
      }
      if current > count {
        events := events + [Arrival(clock[i], current)];
        count := current;
      }
      if event.outputIds.Some? {
        ids := if request.incremental then ids + event.outputIds.value else event.outputIds.value;
      }
      i := i + 1;
    }
    if !done || count == 0 || !meta.stoppedAtLength {
      return Err, events;
    }
    if count != request.maxNewTokens || |ids| != request.maxNewTokens {
      return Err, events;
    }
    if meta.prompt != request.contextTokens {
      return Err, events;
    }
    if !RankAgrees(request, meta.dpRank) {
      return Err, events;
    }
    IdsMean(stream, end, request.incremental);
    return Ok(meta.id, ids), events;
  }

  // ----- Recorded arrivals -----

  function LastCount(events: seq<Arrival>): int {
    if events == [] then 0 else events[|events| - 1].count
  }

  /** Counts start above zero and strictly increase. */
  ghost predicate Rising(events: seq<Arrival>) {
    && (events != [] ==> events[0].count > 0)
    && (forall i, j :: 0 <= i < j < |events| ==> events[i].count < events[j].count)
  }

  /** Whatever happens, the recorded counts rise strictly and end at the last count seen. */
  lemma {:induction false} RisesRise(stream: seq<Event>, clock: seq<real>, n: nat)
    requires n <= |stream| == |clock| && Forward(stream, n)
    ensures Rising(Rises(stream, clock, n)) && LastCount(Rises(stream, clock, n)) == CountAfter(stream, n)
    ensures forall e :: e in Rises(stream, clock, n) ==> 0 < e.count <= CountAfter(stream, n)
  {
    if n > 0 {
      assert stream[n - 1].Message?;
      RisesRise(stream, clock, n - 1);
      var before := Rises(stream, clock, n - 1);
      assert forall i :: 0 <= i < |before| ==> before[i] in before;
    }
  }

  /** A request that succeeds leaves strictly rising counts that end at `max_new_tokens`, and as
      many ids; in particular it asked for a positive number of tokens. */
  lemma SuccessRecorded(request: Request, stream: seq<Event>, clock: seq<real>)
    requires |clock| == |stream| && Complete(request, stream, FirstDone(stream))
    ensures var events := Rises(stream, clock, FirstDone(stream));
      events != [] && Rising(events) && LastCount(events) == request.maxNewTokens
    ensures request.maxNewTokens > 0
    ensures |IdsAfter(stream, FirstDone(stream), request.incremental)| == request.maxNewTokens
  {
    RisesRise(stream, clock, FirstDone(stream));
  }
}
