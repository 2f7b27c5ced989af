/** Sender, event loop and handler of the mixed workload.  Two threads increase the completed
    counter by a read and a later write, and a failed response never increases it. */
module MixRun {
  import opened Places
  import opened Mix

  datatype Spot = Queued | Held | Flying | Replied | InHand | Lost | Gone

  datatype Response = Response(user: nat, success: bool, lenItl: nat)

  datatype Sender =
    | Checking | Cleared | Holding(user: nat) | Spawned
    | Sleeping
    | Raising(seen: nat)       // a request's exception path has read completed_requests
    | Stopped

  datatype Handler =
    | Waiting | Got(response: Response)
    | Pushed                   // the user is back in the generator, the counter not yet read
    | Loaded(seen: nat)        // completed_requests read, not yet written

  datatype State = State(
    gen: Gen, tasks: seq<nat>, responses: seq<Response>, sender: Sender, handler: Handler,
    sent: nat, completed: nat,
    // bookkeeping of the model: places of users, increments really made, failed responses
    place: seq<Spot>, done: nat, dropped: nat)

  datatype Step =
    | Check | Pop(now: real, drawn: int, promptLen: int) | Spawn | Count(stop: bool) | Wake
    | Respond(i: nat, success: bool, lenItl: nat) | Raise(i: nat) | RaiseStore
    | Get | Drop | PushBack(promptLen: int, start: real) | Load | Store

  datatype Config = Config(cumulative: seq<int>, maxParallel: int)

  function Start(cfg: Config): State {
    State(Fresh(|cfg.cumulative|), [], [], Checking, Waiting, 0, 0, [], 0, 0)
  }

  predicate Enabled(s: State, step: Step) {
    match step
    case Check => s.sender.Checking?
    case Pop(_, _, _) => s.sender.Cleared?
    case Spawn => s.sender.Holding?
    case Count(_) => s.sender.Spawned?
    case Wake => s.sender.Sleeping?
    case Respond(i, _, _) => s.sender.Sleeping? && i < |s.tasks|
    case Raise(i) => s.sender.Sleeping? && i < |s.tasks|
    case RaiseStore => s.sender.Raising?
    case Get => s.handler.Waiting? && s.responses != []
    case Drop => s.handler.Got? && !s.handler.response.success
    case PushBack(_, _) => s.handler.Got? && s.handler.response.success
    case Load => s.handler.Pushed?
    case Store => s.handler.Loaded?
  }

  function UsersOf(rs: seq<Response>): (us: seq<nat>)
    ensures |us| == |rs| && forall i :: 0 <= i < |rs| ==> us[i] == rs[i].user
  {
    seq(|rs|, i requires 0 <= i < |rs| => rs[i].user)
  }

  function HeldBy(s: Sender): int {
    if s.Holding? then s.user else -1
  }

  function Handled(h: Handler): int {
    if h.Got? then h.response.user else -1
  }

  /** Every user is in exactly one place. */
  ghost predicate Spread(place: seq<Spot>, queue: seq<nat>, tasks: seq<nat>, replied: seq<nat>, held: int,
          inHand: int) {
    && Lists(queue, place, Queued)
    && Lists(tasks, place, Flying)
    && Lists(replied, place, Replied)
    && Single(held, place, Held)
    && Single(inHand, place, InHand)
  }

  /** Users that are not gone have a round left; gone ones are through. */
  predicate RoundOk(user: User, spot: Spot) {
    && (spot != Gone ==> user.currentRound < user.totalRounds)
    && (spot == Gone ==> user.currentRound == user.totalRounds)
    && (spot == Queued ==> user.currentRound >= 1)
  }

  ghost predicate UsersOk(cfg: Config, s: State) {
    && cfg.cumulative != []
    && Shaped(s.gen, |cfg.cumulative|)
    && Balanced(s.gen, |cfg.cumulative|)
    && |s.place| == |s.gen.users|
    && Spread(s.place, s.gen.queue, s.tasks, UsersOf(s.responses), HeldBy(s.sender), Handled(s.handler))
    && (forall u :: 0 <= u < |s.place| ==> RoundOk(s.gen.users[u], s.place[u]))
  }

  predicate Committed(sender: Sender) {
    sender.Cleared? || sender.Holding? || sender.Spawned?
  }

  /** Every started request is open, answered, failed or really completed; the shared counter can
      only lag behind the completions. */
  predicate CountsOk(cfg: Config, s: State) {
    && s.sent + One(s.sender.Spawned?)
         == s.done + |s.tasks| + |s.responses| + One(!s.handler.Waiting?) + One(s.sender.Raising?) + s.dropped
    && (s.sender.Spawned? ==> s.tasks != [])
    && s.completed <= s.done
    && (s.handler.Loaded? ==> s.handler.seen <= s.done)
    && (s.sender.Raising? ==> s.sender.seen <= s.done)
    && s.sent + One(Committed(s.sender)) - s.done <= (if cfg.maxParallel > 0 then cfg.maxParallel else 0)
  }

  function Next(cfg: Config, s: State, step: Step): State
    requires UsersOk(cfg, s) && Enabled(s, step)
  {
    match step
    case Check =>
      s.(sender := if s.sent - s.completed < cfg.maxParallel then Cleared else Sleeping)
    case Pop(now, drawn, promptLen) =>
      if HeadIsDue(s.gen, |cfg.cumulative|, now) then
        var u := s.gen.queue[0];
        s.(gen := s.gen.(queue := s.gen.queue[1..]), sender := Holding(u), place := s.place[u := Held])
      else
        s.(gen := Generate(s.gen, cfg.cumulative, drawn, promptLen), sender := Holding(|s.gen.users|),
            place := s.place + [Held])
    case Spawn =>
      assert s.place[s.sender.user] == Held;
      s.(tasks := s.tasks + [s.sender.user], sender := Spawned, place := s.place[s.sender.user := Flying])
    case Count(stop) =>
      s.(sent := s.sent + 1, sender := if stop then Stopped else Checking)
    case Wake => s.(sender := Checking)
    case Respond(i, success, lenItl) =>
      assert s.tasks[i] in s.tasks;
      s.(tasks := Remove(s.tasks, i), responses := s.responses + [Response(s.tasks[i], success, lenItl)],
         place := s.place[s.tasks[i] := Replied])
    case Raise(i) =>
      assert s.tasks[i] in s.tasks;
      s.(tasks := Remove(s.tasks, i), sender := Raising(s.completed), place := s.place[s.tasks[i] := Lost])
    case RaiseStore =>
      s.(completed := s.sender.seen + 1, done := s.done + 1, sender := Sleeping)
    case Get =>
      assert UsersOf(s.responses)[0] in UsersOf(s.responses);
      s.(responses := s.responses[1..], handler := Got(s.responses[0]), place := s.place[s.responses[0].user := InHand])
    case Drop =>
      s.(handler := Waiting, dropped := s.dropped + 1, place := s.place[s.handler.response.user := Lost])
    case PushBack(promptLen, start) =>
      var u := s.handler.response.user;
      assert s.place[u] == InHand && RoundOk(s.gen.users[u], s.place[u]);
      s.(gen := Push(s.gen, |cfg.cumulative|, u, s.handler.response.lenItl + 1, promptLen, start), handler := Pushed,
         place := s.place[u := if s.gen.users[u].currentRound + 1 >= s.gen.users[u].totalRounds then Gone else Queued])
    case Load => s.(handler := Loaded(s.completed))
    case Store =>
      s.(completed := s.handler.seen + 1, done := s.done + 1, handler := Waiting)
  }

  lemma CountsNext(cfg: Config, s: State, step: Step)
    requires UsersOk(cfg, s) && CountsOk(cfg, s) && Enabled(s, step)
    ensures CountsOk(cfg, Next(cfg, s, step))
  {
  }

  // ----- One place per user -----

  lemma SpreadCreate(place: seq<Spot>, queue: seq<nat>, tasks: seq<nat>, replied: seq<nat>, inHand: int)
    requires Spread(place, queue, tasks, replied, -1, inHand)
    ensures Spread(place + [Held], queue, tasks, replied, |place|, inHand)
  {
  }

  lemma SpreadDue(place: seq<Spot>, queue: seq<nat>, tasks: seq<nat>, replied: seq<nat>, inHand: int)
    requires Spread(place, queue, tasks, replied, -1, inHand) && queue != []
    ensures queue[0] < |place| && Spread(place[queue[0] := Held], queue[1..], tasks, replied, queue[0], inHand)
  {
    ListsRemove(queue, place, Queued, 0, Held);
    assert Remove(queue, 0) == queue[1..];
  }

  lemma SpreadSpawn(place: seq<Spot>, queue: seq<nat>, tasks: seq<nat>, replied: seq<nat>, held: nat, inHand: int)
    requires Spread(place, queue, tasks, replied, held, inHand)
    ensures held < |place| && Spread(place[held := Flying], queue, tasks + [held], replied, -1, inHand)
  {
    ListsAppend(tasks, place, Flying, held);
  }

  lemma SpreadLand(place: seq<Spot>, queue: seq<nat>, tasks: seq<nat>, replied: seq<nat>, held: int, inHand: int,
          i: nat, q: Spot)
    requires Spread(place, queue, tasks, replied, held, inHand) && i < |tasks| && q in {Replied, Lost}
    ensures tasks[i] < |place|
    ensures var replied' := if q == Replied then replied + [tasks[i]] else replied;
      Spread(place[tasks[i] := q], queue, Remove(tasks, i), replied', held, inHand)
  {
    ListsRemove(tasks, place, Flying, i, q);
    if q == Replied { ListsAppend(replied, place, Replied, tasks[i]); }
  }

  lemma SpreadGet(place: seq<Spot>, queue: seq<nat>, tasks: seq<nat>, replied: seq<nat>, held: int)
    requires Spread(place, queue, tasks, replied, held, -1) && replied != []
    ensures replied[0] < |place| && Spread(place[replied[0] := InHand], queue, tasks, replied[1..], held, replied[0])
  {
    ListsRemove(replied, place, Replied, 0, InHand);
    assert Remove(replied, 0) == replied[1..];
  }

  lemma SpreadOut(place: seq<Spot>, queue: seq<nat>, tasks: seq<nat>, replied: seq<nat>, held: int, inHand: nat,
          q: Spot)
    requires Spread(place, queue, tasks, replied, held, inHand) && q in {Lost, Gone}
    ensures inHand < |place| && Spread(place[inHand := q], queue, tasks, replied, held, -1)
  {
  }

  lemma SpreadBack(place: seq<Spot>, queue: seq<nat>, tasks: seq<nat>, replied: seq<nat>, held: int, inHand: nat,
          idx: nat)
    requires Spread(place, queue, tasks, replied, held, inHand) && idx <= |queue|
    ensures inHand < |place| && Spread(place[inHand := Queued], Inserted(queue, idx, inHand), tasks, replied, held, -1)
  {
  }
}
