/** The sender, the event loop and the response handler as interleaved steps. */
module MultiturnRun {
  import opened Multiturn
  import opened Places

  /** Where a client's current request is. */
  datatype Place = Ready | Held | Flying | Replied | Handling | Parked | Lost | Done

  datatype Response = Response(client: nat, success: bool, output: seq<int>)

  /** The sender between its statements; tasks only run while it sleeps. */
  datatype Sender =
    | Checking                 // before the test of sent - completed
    | Cleared                  // test passed, nothing popped yet
    | Holding(client: nat)     // popped, task not yet created
    | Spawned                  // task created, sent_requests not yet increased
    | Sleeping
    | Stopped

  /** The handler between its statements. */
  datatype Handler =
    | Waiting
    | Got(response: Response)
    | Recorded(client: nat)    // history and round updated, completed_requests not yet
    | Counted(client: nat)     // completed_requests increased, next request not yet made
    | Releasing(k: nat)        // the first k parked requests are back in the ready queue

  datatype State = State(
    ready: seq<nat>, tasks: seq<nat>, responses: seq<Response>,
    sender: Sender, handler: Handler,
    sent: nat, completed: nat,
    round: seq<nat>, history: seq<seq<int>>, pool: seq<seq<int>>,
    next: seq<nat>, barrierRound: nat, barrierCount: nat,
    // bookkeeping of the model: places, sub-questions used, and payloads dispatched, per client
    place: seq<Place>, used: seq<nat>, log: seq<seq<seq<int>>>)

  datatype Step =
    | Check | Pop(i: nat) | PopEmpty(stop: bool) | Spawn | Count(stop: bool) | Wake
    | Finish(i: nat, success: bool, output: seq<int>)
    | Get | DropFailed | Record | Complete | Requeue | Release | EndRelease

  function Start(cfg: Config, prompts: seq<seq<int>>, pool: seq<seq<int>>): State
    requires |prompts| == |cfg.total|
  {
    var n := |cfg.total|;
    State(seq(n, i requires i >= 0 => i), [], [], Checking, Waiting, 0, 0,
          seq(n, _ => 0), prompts, pool, [], 0, 0,
          seq(n, _ => Ready), seq(n, _ => 0), seq(n, _ => []))
  }

  predicate Enabled(cfg: Config, s: State, step: Step) {
    match step
    case Check => s.sender.Checking?
    case Pop(i) => s.sender.Cleared? && i < |s.ready| && (cfg.fifo ==> i == 0)
    case PopEmpty(_) => s.sender.Cleared? && s.ready == []
    case Spawn => s.sender.Holding?
    case Count(_) => s.sender.Spawned?
    case Wake => s.sender.Sleeping?
    case Finish(i, _, _) => s.sender.Sleeping? && i < |s.tasks|
    case Get => s.handler.Waiting? && s.responses != []
    case DropFailed => s.handler.Got? && !s.handler.response.success
    case Record => s.handler.Got? && s.handler.response.success
    case Complete => s.handler.Recorded?
    case Requeue => s.handler.Counted?
    case Release => s.handler.Releasing? && s.handler.k < |s.next|
    case EndRelease => s.handler.Releasing? && s.handler.k == |s.next|
  }

  /** The clients the lists and threads mention are real ones; needed to read their records. */
  predicate Bounded(cfg: Config, s: State) {
    var n := |cfg.total|;
    && |s.round| == |s.history| == |s.place| == |s.used| == |s.log| == n
    && (forall i :: 0 <= i < |s.ready| ==> s.ready[i] < n)
    && (forall i :: 0 <= i < |s.tasks| ==> s.tasks[i] < n)
    && (forall i :: 0 <= i < |s.next| ==> s.next[i] < n)
    && (forall i :: 0 <= i < |s.responses| ==> s.responses[i].client < n)
    && (s.sender.Holding? ==> s.sender.client < n)
    && (s.handler.Got? ==> s.handler.response.client < n)
    && (s.handler.Recorded? || s.handler.Counted? ==> s.handler.client < n)
  }

  /** The round barrier at the end of the handler's loop body. */
  function Barrier(cfg: Config, s: State): State {
    if cfg.barrier && s.barrierRound < cfg.maxRounds then
      var count := s.barrierCount + 1;
      if count == Participants(cfg.total, s.barrierRound, |cfg.total|)
      then s.(barrierCount := count, handler := Releasing(0))
      else s.(barrierCount := count, handler := Waiting)
    else s.(handler := Waiting)
  }

  /** A finished client stops; otherwise a sub-question is popped and the next request made. */
  function NextRequest(cfg: Config, s: State, c: nat): State
    requires Bounded(cfg, s) && c < |cfg.total|
    requires s.round[c] < cfg.total[c] ==> s.pool != []
  {
    if s.round[c] < cfg.total[c] then
      var subQ := s.pool[|s.pool| - 1];
      var s' := s.(pool := s.pool[..|s.pool| - 1],
                   history := s.history[c := s.history[c] + subQ],
                   used := s.used[c := s.used[c] + 1]);
      if cfg.barrier then s'.(next := s.next + [c], place := s.place[c := Parked])
      else s'.(ready := s.ready + [c], place := s.place[c := Ready])
    else
      s.(place := s.place[c := Done])
  }

  /** `sub_question_inputs.pop()` would fail. */
  predicate PopsEmptyPool(cfg: Config, s: State, step: Step)
    requires Bounded(cfg, s) && Enabled(cfg, s, step)
  {
    step.Requeue? && s.round[s.handler.client] < cfg.total[s.handler.client] && s.pool == []
  }

  function Next(cfg: Config, s: State, step: Step): State
    requires Bounded(cfg, s) && Enabled(cfg, s, step) && !PopsEmptyPool(cfg, s, step)
  {
    match step
    case Check =>
      s.(sender := if s.sent - s.completed < cfg.maxParallel then Cleared else Sleeping)
    case Pop(i) =>
      s.(ready := Remove(s.ready, i), sender := Holding(s.ready[i]), place := s.place[s.ready[i] := Held])
    case PopEmpty(stop) =>
      s.(sender := if stop then Stopped else Sleeping)
    case Spawn =>
      var c := s.sender.client;
      s.(tasks := s.tasks + [c], sender := Spawned, place := s.place[c := Flying],
          log := s.log[c := s.log[c] + [s.history[c]]])
    case Count(stop) =>
      s.(sent := s.sent + 1, sender := if stop then Stopped else Sleeping)
    case Wake =>
      s.(sender := Checking)
    case Finish(i, success, output) =>
      s.(tasks := Remove(s.tasks, i), responses := s.responses + [Response(s.tasks[i], success, output)],
         place := s.place[s.tasks[i] := Replied])
    case Get =>
      s.(responses := s.responses[1..], handler := Got(s.responses[0]),
          place := s.place[s.responses[0].client := Handling])
    case DropFailed =>
      s.(completed := s.completed + 1, handler := Waiting, place := s.place[s.handler.response.client := Lost])
    case Record =>
      var c := s.handler.response.client;
      s.(history := s.history[c := s.history[c] + s.handler.response.output], round := s.round[c := s.round[c] + 1],
         handler := Recorded(c))
    case Complete =>
      s.(completed := s.completed + 1, handler := Counted(s.handler.client))
    case Requeue =>
      Barrier(cfg, NextRequest(cfg, s, s.handler.client))
    case Release =>
      var c := s.next[s.handler.k];
      s.(ready := s.ready + [c], handler := Releasing(s.handler.k + 1), place := s.place[c := Ready])
    case EndRelease =>
      s.(next := [], barrierRound := s.barrierRound + 1, barrierCount := 0, handler := Waiting)
  }

  // ----- Where every client is -----

  function ClientsOf(rs: seq<Response>): (cs: seq<nat>)
    ensures |cs| == |rs| && forall i :: 0 <= i < |rs| ==> cs[i] == rs[i].client
  {
    if rs == [] then [] else ClientsOf(rs[..|rs| - 1]) + [rs[|rs| - 1].client]
  }

  /** The client the handler is busy with, or -1. */
  function InHand(h: Handler): int {
    match h
    case Waiting => -1
    case Got(r) => r.client
    case Recorded(c) => c
    case Counted(c) => c
    case Releasing(_) => -1
  }

  /** Parked requests not yet released. */
  function StillParked(s: State): seq<nat> {
    if s.handler.Releasing? && s.handler.k <= |s.next| then s.next[s.handler.k..] else s.next
  }

  /** The client the sender has popped, or -1. */
  function HeldBy(s: Sender): int {
    if s.Holding? then s.client else -1
  }

  /** The lists and the two threads' hands tell the place of every client. */
  ghost predicate Spread(place: seq<Place>, ready: seq<nat>, tasks: seq<nat>, replied: seq<nat>, parked: seq<nat>,
          held: int, inHand: int) {
    && Lists(ready, place, Ready)
    && Lists(tasks, place, Flying)
    && Lists(replied, place, Replied)
    && Lists(parked, place, Parked)
    && Single(held, place, Held)
    && Single(inHand, place, Handling)
  }

  /** Every client is in exactly one place. */
  ghost predicate Placed(cfg: Config, s: State) {
    && |s.place| == |cfg.total|
    && Spread(s.place, s.ready, s.tasks, ClientsOf(s.responses), StillParked(s), HeldBy(s.sender), InHand(s.handler))
    && (s.handler.Releasing? ==> s.handler.k <= |s.next|)
  }
}
