/** The mixed workload over whole runs: every interleaving of the two threads, every drawn length
    and start time, and every pattern of failed and raising requests. */
module MixTheorems {
  import opened Places
  import opened Mix
  import opened MixRun

  lemma SpreadNext(cfg: Config, s: State, step: Step)
    requires UsersOk(cfg, s) && Enabled(s, step)
    ensures var s' := Next(cfg, s, step);
      Spread(s'.place, s'.gen.queue, s'.tasks, UsersOf(s'.responses), HeldBy(s'.sender), Handled(s'.handler))
  {
    var place, queue, tasks, replied := s.place, s.gen.queue, s.tasks, UsersOf(s.responses);
    var held, inHand := HeldBy(s.sender), Handled(s.handler);
    var s' := Next(cfg, s, step);
    match step
    case Pop(now, _, _) =>
      if HeadIsDue(s.gen, |cfg.cumulative|, now) {
        SpreadDue(place, queue, tasks, replied, inHand);
      } else {
        SpreadCreate(place, queue, tasks, replied, inHand);
      }
    case Spawn => SpreadSpawn(place, queue, tasks, replied, s.sender.user, inHand);
    case Respond(i, _, _) =>
      SpreadLand(place, queue, tasks, replied, held, inHand, i, Replied);
      assert UsersOf(s'.responses) == replied + [tasks[i]];
    case Raise(i) => SpreadLand(place, queue, tasks, replied, held, inHand, i, Lost);
    case Get =>
      SpreadGet(place, queue, tasks, replied, held);
      assert UsersOf(s'.responses) == replied[1..];
    case Drop => SpreadOut(place, queue, tasks, replied, held, s.handler.response.user, Lost);
    case PushBack(_, _) => SpreadPushed(cfg, s, step);
    case _ =>
  }

  lemma SpreadPushed(cfg: Config, s: State, step: Step)
    requires UsersOk(cfg, s) && step.PushBack? && Enabled(s, step)
    ensures var s' := Next(cfg, s, step);
      Spread(s'.place, s'.gen.queue, s'.tasks, UsersOf(s'.responses), HeldBy(s'.sender), Handled(s'.handler))
  {
    var u, r := s.handler.response.user, UsersOf(s.responses);
    assert s.place[u] == InHand && RoundOk(s.gen.users[u], s.place[u]);
    if s.gen.users[u].currentRound + 1 >= s.gen.users[u].totalRounds {
      SpreadOut(s.place, s.gen.queue, s.tasks, r, HeldBy(s.sender), u, Gone);
    } else {
      var idx := InsertAt(s.gen.queue, Next(cfg, s, step).gen.users, step.start);
      SpreadBack(s.place, s.gen.queue, s.tasks, r, HeldBy(s.sender), u, idx);
    }
  }

  lemma GenPop(cfg: Config, s: State, step: Step)
    requires UsersOk(cfg, s) && step.Pop? && Enabled(s, step)
    ensures var s' := Next(cfg, s, step);
      && Shaped(s'.gen, |cfg.cumulative|) && Balanced(s'.gen, |cfg.cumulative|)
      && |s'.place| == |s'.gen.users|
      && forall u :: 0 <= u < |s'.place| ==> RoundOk(s'.gen.users[u], s'.place[u])
  {
    if HeadIsDue(s.gen, |cfg.cumulative|, step.now) {
      assert s.gen.queue[0] in s.gen.queue;
    } else {
      GenerateBalanced(s.gen, cfg.cumulative, step.drawn, step.promptLen);
    }
  }

  lemma PushRounds(g: Gen, rounds: nat, u: nat, outTokens: int, promptLen: int, start: real, place: seq<Spot>)
    requires Shaped(g, rounds) && u < |g.users| == |place| && g.users[u].currentRound < g.users[u].totalRounds
    requires forall v :: 0 <= v < |place| ==> RoundOk(g.users[v], place[v])
    ensures var users := Push(g, rounds, u, outTokens, promptLen, start).users;
      var spot := if g.users[u].currentRound + 1 >= g.users[u].totalRounds then Gone else Queued;
      |users| == |g.users| && forall v :: 0 <= v < |place| ==> RoundOk(users[v], place[u := spot][v])
  {
  }

  lemma GenPush(cfg: Config, s: State, step: Step)
    requires UsersOk(cfg, s) && step.PushBack? && Enabled(s, step)
    ensures var s' := Next(cfg, s, step);
      && Shaped(s'.gen, |cfg.cumulative|) && Balanced(s'.gen, |cfg.cumulative|)
      && |s'.place| == |s'.gen.users|
      && forall u :: 0 <= u < |s'.place| ==> RoundOk(s'.gen.users[u], s'.place[u])
  {
    var u := s.handler.response.user;
    assert s.place[u] == InHand && RoundOk(s.gen.users[u], s.place[u]);
    PushBalanced(s.gen, |cfg.cumulative|, u, s.handler.response.lenItl + 1, step.promptLen, step.start);
    PushRounds(s.gen, |cfg.cumulative|, u, s.handler.response.lenItl + 1, step.promptLen, step.start, s.place);
  }

  lemma GenKept(cfg: Config, s: State, step: Step)
    requires UsersOk(cfg, s) && !step.Pop? && !step.PushBack? && Enabled(s, step)
    ensures var s' := Next(cfg, s, step);
      && s'.gen == s.gen && |s'.place| == |s.place|
      && forall u :: 0 <= u < |s'.place| ==> RoundOk(s'.gen.users[u], s'.place[u])
  {
    match step
    case Respond(i, _, _) => assert s.tasks[i] in s.tasks;
    case Raise(i) => assert s.tasks[i] in s.tasks;
    case Get => assert UsersOf(s.responses)[0] in UsersOf(s.responses);
    case _ =>
  }

  lemma UsersNext(cfg: Config, s: State, step: Step)
    requires UsersOk(cfg, s) && Enabled(s, step)
    ensures UsersOk(cfg, Next(cfg, s, step))
  {
    SpreadNext(cfg, s, step);
    if step.Pop? {
      GenPop(cfg, s, step);
    } else if step.PushBack? {
      GenPush(cfg, s, step);
    } else {
      GenKept(cfg, s, step);
    }
  }

  ghost predicate Moves(cfg: Config, s: State, step: Step, s': State) {
    UsersOk(cfg, s) && Enabled(s, step) && s' == Next(cfg, s, step)
  }

  datatype Run = Run(states: seq<State>, steps: seq<Step>)

  ghost predicate ValidRun(cfg: Config, run: Run) {
    && cfg.cumulative != []
    && |run.states| == |run.steps| + 1
    && run.states[0] == Start(cfg)
    && forall k :: 0 <= k < |run.steps| ==> Moves(cfg, run.states[k], run.steps[k], run.states[k + 1])
  }

  lemma MoveKeeps(cfg: Config, s: State, step: Step, s': State)
    requires UsersOk(cfg, s) && CountsOk(cfg, s) && Moves(cfg, s, step, s')
    ensures UsersOk(cfg, s') && CountsOk(cfg, s')
  {
    UsersNext(cfg, s, step);
    CountsNext(cfg, s, step);
  }

  lemma {:induction false} RunKeeps(cfg: Config, run: Run, n: nat)
    requires ValidRun(cfg, run) && n < |run.states|
    ensures UsersOk(cfg, run.states[n]) && CountsOk(cfg, run.states[n])
  {
    if n == 0 {
      FreshBalanced(|cfg.cumulative|);
    } else {
      RunKeeps(cfg, run, n - 1);
      MoveKeeps(cfg, run.states[n - 1], run.steps[n - 1], run.states[n]);
    }
  }

  /** Every enabled step of a reachable state can be taken: `push` never indexes a statistic outside
      the configured rounds, and no queued or running user is unknown. */
  lemma RunExtends(cfg: Config, run: Run, step: Step)
    requires ValidRun(cfg, run) && Enabled(run.states[|run.steps|], step)
    ensures UsersOk(cfg, run.states[|run.steps|])
    ensures ValidRun(cfg, Run(run.states + [Next(cfg, run.states[|run.steps|], step)], run.steps + [step]))
  {
    RunKeeps(cfg, run, |run.steps|);
    var last := run.states[|run.steps|];
    var longer := Run(run.states + [Next(cfg, last, step)], run.steps + [step]);
    assert Moves(cfg, last, step, Next(cfg, last, step));
    forall k | 0 <= k < |longer.steps| ensures Moves(cfg, longer.states[k], longer.steps[k], longer.states[k + 1]) {
      if k < |run.steps| { assert Moves(cfg, run.states[k], run.steps[k], run.states[k + 1]); }
    }
  }

  /** Round accounting: in every reachable state and for every round, requests entered minus
      requests answered is the number of users in that round, each of which is queued, held,
      in flight, answered, in hand or lost - in exactly one of these. */
  lemma RoundsAccounted(cfg: Config, run: Run, n: nat, r: nat)
    requires ValidRun(cfg, run) && n < |run.states| && r < |cfg.cumulative|
    ensures var s := run.states[n];
      && UsersOk(cfg, s)
      && s.gen.inputCount[r] - s.gen.outputCount[r] == AtRound(s, r, |s.place|)
  {
    RunKeeps(cfg, run, n);
    AtRoundIsHeld(cfg, run.states[n], r, |run.states[n].place|);
  }

  /** No queued user is released before its start time: a step that takes it out of the queue is a
      `pop` at a later time. */
  lemma ReleasedOnTime(cfg: Config, run: Run, k: nat, u: nat)
    requires ValidRun(cfg, run) && k < |run.steps|
    requires u < |run.states[k].place| && run.states[k].place[u] == Queued
    ensures u < |run.states[k].gen.users| && u < |run.states[k + 1].place|
    ensures run.states[k + 1].place[u] != Queued ==>
      run.steps[k].Pop? && run.steps[k].now > run.states[k].gen.users[u].start
  {
    var s, step := run.states[k], run.steps[k];
    RunKeeps(cfg, run, k);
    assert Moves(cfg, s, step, run.states[k + 1]);
    match step
    case Respond(i, _, _) => assert s.tasks[i] in s.tasks;
    case Raise(i) => assert s.tasks[i] in s.tasks;
    case Get => assert UsersOf(s.responses)[0] in UsersOf(s.responses);
    case _ =>
  }

  /** How many of the first `n` users sit somewhere in round `r`. */
  ghost function AtRound(s: State, r: nat, n: nat): nat
    requires n <= |s.place| == |s.gen.users|
  {
    if n == 0 then 0 else AtRound(s, r, n - 1) + One(s.place[n - 1] != Gone && s.gen.users[n - 1].currentRound == r)
  }

  lemma {:induction false} AtRoundIsHeld(cfg: Config, s: State, r: nat, n: nat)
    requires UsersOk(cfg, s) && n <= |s.place|
    ensures AtRound(s, r, n) == HeldAt(s.gen.users, r, n)
  {
    if n > 0 {
      AtRoundIsHeld(cfg, s, r, n - 1);
      assert RoundOk(s.gen.users[n - 1], s.place[n - 1]);
    }
  }

  /** The slots: although both threads increase the completed counter without a lock, it never
      exceeds the completions, so no more than `maxParallel` requests are ever open; a failed
      response counts as open for good. */
  lemma SlotsBounded(cfg: Config, run: Run, n: nat)
    requires ValidRun(cfg, run) && n < |run.states|
    ensures var s := run.states[n];
      && s.completed <= s.done <= s.sent
      && |s.tasks| + |s.responses| + s.dropped + One(!s.handler.Waiting?)
           <= (if cfg.maxParallel > 0 then cfg.maxParallel else 0)
  {
    RunKeeps(cfg, run, n);
  }

  /** Failed responses use up slots: once there are `maxParallel` of them, the test before a new
      request fails in every later state. */
  lemma LeakedSlots(cfg: Config, run: Run, n: nat, m: nat)
    requires ValidRun(cfg, run) && n <= m < |run.states|
    requires run.states[n].dropped >= cfg.maxParallel
    ensures run.states[m].sent - run.states[m].completed >= cfg.maxParallel
    ensures run.states[m].sender.Checking? ==>
      UsersOk(cfg, run.states[m]) && Next(cfg, run.states[m], Check).sender == Sleeping
  {
    DroppedGrows(cfg, run, n, m);
    RunKeeps(cfg, run, m);
  }

  lemma {:induction false} DroppedGrows(cfg: Config, run: Run, n: nat, m: nat)
    requires ValidRun(cfg, run) && n <= m < |run.states|
    ensures run.states[n].dropped <= run.states[m].dropped
    decreases m
  {
    if n < m {
      DroppedGrows(cfg, run, n, m - 1);
      assert Moves(cfg, run.states[m - 1], run.steps[m - 1], run.states[m]);
    }
  }
}
