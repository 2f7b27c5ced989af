/** What every interleaving of the multi-turn workload keeps. */
module MultiturnSafety {
  import opened Multiturn
  import opened MultiturnRun
  import opened Places

  lemma BoundedNext(cfg: Config, s: State, step: Step)
    requires Bounded(cfg, s) && Enabled(cfg, s, step) && !PopsEmptyPool(cfg, s, step)
    ensures Bounded(cfg, Next(cfg, s, step))
  {
    if step.Requeue? { BoundedRequeue(cfg, s); }
  }

  lemma BoundedRequeue(cfg: Config, s: State)
    requires Bounded(cfg, s) && Enabled(cfg, s, Requeue) && !PopsEmptyPool(cfg, s, Requeue)
    ensures Bounded(cfg, Next(cfg, s, Requeue))
  {
    assert Bounded(cfg, NextRequest(cfg, s, s.handler.client));
  }

  // ----- One place per client -----

  lemma SpreadPop(place: seq<Place>, ready: seq<nat>, tasks: seq<nat>, replied: seq<nat>, parked: seq<nat>,
          inHand: int, i: nat)
    requires Spread(place, ready, tasks, replied, parked, -1, inHand) && i < |ready|
    ensures ready[i] < |place|
    ensures Spread(place[ready[i] := Held], Remove(ready, i), tasks, replied, parked, ready[i], inHand)
  {
    ListsRemove(ready, place, Ready, i, Held);
  }

  lemma SpreadFinish(place: seq<Place>, ready: seq<nat>, tasks: seq<nat>, replied: seq<nat>, parked: seq<nat>,
          held: int, inHand: int, i: nat)
    requires Spread(place, ready, tasks, replied, parked, held, inHand) && i < |tasks|
    ensures tasks[i] < |place|
    ensures Spread(place[tasks[i] := Replied], ready, Remove(tasks, i), replied + [tasks[i]], parked, held, inHand)
  {
    ListsRemove(tasks, place, Flying, i, Replied);
    ListsAppend(replied, place, Replied, tasks[i]);
  }

  lemma SpreadGet(place: seq<Place>, ready: seq<nat>, tasks: seq<nat>, replied: seq<nat>, parked: seq<nat>, held: int)
    requires Spread(place, ready, tasks, replied, parked, held, -1) && replied != []
    ensures replied[0] < |place|
    ensures Spread(place[replied[0] := Handling], ready, tasks, replied[1..], parked, held, replied[0])
  {
    ListsRemove(replied, place, Replied, 0, Handling);
    assert Remove(replied, 0) == replied[1..];
  }

  lemma SpreadLeave(place: seq<Place>, ready: seq<nat>, tasks: seq<nat>, replied: seq<nat>, parked: seq<nat>,
          held: int, inHand: nat, q: Place)
    requires Spread(place, ready, tasks, replied, parked, held, inHand) && q in {Lost, Done, Ready, Parked}
    ensures inHand < |place|
    ensures Spread(place[inHand := q], if q == Ready then ready + [inHand] else ready, tasks, replied,
                   if q == Parked then parked + [inHand] else parked, held, -1)
  {
    if q == Ready { ListsAppend(ready, place, Ready, inHand); }
    if q == Parked { ListsAppend(parked, place, Parked, inHand); }
  }

  lemma SpreadRelease(place: seq<Place>, ready: seq<nat>, tasks: seq<nat>, replied: seq<nat>, parked: seq<nat>,
          held: int, inHand: int)
    requires Spread(place, ready, tasks, replied, parked, held, inHand) && parked != []
    ensures parked[0] < |place|
    ensures Spread(place[parked[0] := Ready], ready + [parked[0]], tasks, replied, parked[1..], held, inHand)
  {
    ListsRemove(parked, place, Parked, 0, Ready);
    assert Remove(parked, 0) == parked[1..];
    ListsAppend(ready, place, Ready, parked[0]);
  }

  lemma ClientsOfTail(rs: seq<Response>)
    requires rs != []
    ensures ClientsOf(rs[1..]) == ClientsOf(rs)[1..]
  {
  }

  /** What the handler's last step does to the lists. */
  lemma RequeueShape(cfg: Config, s: State)
    requires Bounded(cfg, s) && Enabled(cfg, s, Requeue) && !PopsEmptyPool(cfg, s, Requeue)
    ensures var s', c := Next(cfg, s, Requeue), s.handler.client;
            var q := if s.round[c] < cfg.total[c] then (if cfg.barrier then Parked else Ready) else Done;
            && s'.place == s.place[c := q]
            && s'.ready == (if q == Ready then s.ready + [c] else s.ready)
            && StillParked(s') == s'.next == (if q == Parked then s.next + [c] else s.next)
            && s'.tasks == s.tasks && s'.responses == s.responses && s'.sender == s.sender && InHand(s'.handler) == -1
            && (s'.handler.Releasing? ==> s'.handler.k == 0)
  {
  }

  lemma PlacedRequeue(cfg: Config, s: State)
    requires Placed(cfg, s) && Bounded(cfg, s) && Enabled(cfg, s, Requeue) && !PopsEmptyPool(cfg, s, Requeue)
    ensures Placed(cfg, Next(cfg, s, Requeue))
  {
    RequeueShape(cfg, s);
    var c := s.handler.client;
    var q := if s.round[c] < cfg.total[c] then (if cfg.barrier then Parked else Ready) else Done;
    SpreadLeave(s.place, s.ready, s.tasks, ClientsOf(s.responses), s.next, HeldBy(s.sender), c, q);
  }

  predicate HandlerStep(step: Step) {
    step.Get? || step.DropFailed? || step.Record? || step.Complete? || step.Requeue? || step.Release? ||
        step.EndRelease?
  }

  lemma PlacedPop(cfg: Config, s: State, i: nat)
    requires Placed(cfg, s) && Bounded(cfg, s) && Enabled(cfg, s, Pop(i))
    ensures Placed(cfg, Next(cfg, s, Pop(i)))
  {
    SpreadPop(s.place, s.ready, s.tasks, ClientsOf(s.responses), StillParked(s), InHand(s.handler), i);
  }

  lemma PlacedFinish(cfg: Config, s: State, i: nat, success: bool, output: seq<int>)
    requires Placed(cfg, s) && Bounded(cfg, s) && Enabled(cfg, s, Finish(i, success, output))
    ensures Placed(cfg, Next(cfg, s, Finish(i, success, output)))
  {
    SpreadFinish(s.place, s.ready, s.tasks, ClientsOf(s.responses), StillParked(s), HeldBy(s.sender),
        InHand(s.handler), i);
  }

  lemma PlacedSender(cfg: Config, s: State, step: Step)
    requires Placed(cfg, s) && Bounded(cfg, s) && Enabled(cfg, s, step) && !HandlerStep(step)
    ensures Placed(cfg, Next(cfg, s, step))
  {
    match step
    case Pop(i) => PlacedPop(cfg, s, i);
    case Finish(i, success, output) => PlacedFinish(cfg, s, i, success, output);
    case _ =>
  }

  lemma PlacedHandler(cfg: Config, s: State, step: Step)
    requires Placed(cfg, s) && Bounded(cfg, s) && Enabled(cfg, s, step) && HandlerStep(step) && !step.Requeue?
    ensures Placed(cfg, Next(cfg, s, step))
  {
    var ready, tasks, replied, parked := s.ready, s.tasks, ClientsOf(s.responses), StillParked(s);
    var held, inHand := HeldBy(s.sender), InHand(s.handler);
    match step
    case Get =>
      ClientsOfTail(s.responses);
      SpreadGet(s.place, ready, tasks, replied, parked, held);
    case DropFailed => SpreadLeave(s.place, ready, tasks, replied, parked, held, inHand, Lost);
    case Release =>
      assert parked[0] == s.next[s.handler.k] && parked[1..] == s.next[s.handler.k + 1..];
      SpreadRelease(s.place, ready, tasks, replied, parked, held, inHand);
    case EndRelease => assert parked == [];
    case _ =>
  }

  /** One place per client, whatever happens. */
  lemma PlacedNext(cfg: Config, s: State, step: Step)
    requires Placed(cfg, s) && Bounded(cfg, s) && Enabled(cfg, s, step) && !PopsEmptyPool(cfg, s, step)
    ensures Placed(cfg, Next(cfg, s, step))
  {
    if step.Requeue? {
      PlacedRequeue(cfg, s);
    } else if HandlerStep(step) {
      PlacedHandler(cfg, s, step);
    } else {
      PlacedSender(cfg, s, step);
    }
  }
}
