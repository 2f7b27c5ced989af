/** The order in which the multi-turn workload handles responses and dispatches requests, over whole runs. */
module MultiturnOrder {
  import opened Places
  import opened Multiturn
  import opened MultiturnRun
  import opened MultiturnSafety
  import opened MultiturnTheorems

  // ----- Responses -----

  function AnsweredBy(s: State, step: Step): seq<Response> {
    if step.Finish? && step.i < |s.tasks| then [Response(s.tasks[step.i], step.success, step.output)] else []
  }

  function HandledBy(s': State, step: Step): seq<Response> {
    if step.Get? && s'.handler.Got? then [s'.handler.response] else []
  }

  ghost function AllAnswered(run: Run, n: nat): seq<Response>
    requires n <= |run.steps| < |run.states|
  {
    if n == 0 then [] else AllAnswered(run, n - 1) + AnsweredBy(run.states[n - 1], run.steps[n - 1])
  }

  ghost function AllHandled(run: Run, n: nat): seq<Response>
    requires n <= |run.steps| < |run.states|
  {
    if n == 0 then [] else AllHandled(run, n - 1) + HandledBy(run.states[n], run.steps[n - 1])
  }

  lemma ResponseMove(cfg: Config, s: State, step: Step, s': State)
    requires Moves(cfg, s, step, s')
    ensures s.responses + AnsweredBy(s, step) == HandledBy(s', step) + s'.responses
  {
    if step.Get? { assert s.responses == [s.responses[0]] + s.responses[1..]; }
    if step.Requeue? { RequeueShape(cfg, s); }
  }

  /** Responses are handled in the order the requests end, each as it came. */
  lemma {:induction false} ResponsesInOrder(cfg: Config, run: Run, n: nat)
    requires ValidRun(cfg, run) && n <= |run.steps|
    ensures AllAnswered(run, n) == AllHandled(run, n) + run.states[n].responses
  {
    if n > 0 {
      var s, step, s' := run.states[n - 1], run.steps[n - 1], run.states[n];
      ResponsesInOrder(cfg, run, n - 1);
      ResponseMove(cfg, s, step, s');
      Shift(AllAnswered(run, n - 1), AllHandled(run, n - 1), s.responses, AnsweredBy(s, step), HandledBy(s', step),
            s'.responses);
    }
  }

  // ----- Requests -----

  /** The client for which the step makes another request. */
  function RenewedBy(cfg: Config, s: State, step: Step): seq<nat> {
    if step.Requeue? && s.handler.Counted? && s.handler.client < |s.round| && s.handler.client < |cfg.total|
       && s.round[s.handler.client] < cfg.total[s.handler.client]
    then [s.handler.client] else []
  }

  /** The parked client the step releases. */
  function ReleasedBy(s': State, step: Step): seq<nat> {
    if step.Release? && s'.ready != [] then [s'.ready[|s'.ready| - 1]] else []
  }

  /** What the step puts into the ready queue. */
  function ReadyBy(cfg: Config, s: State, step: Step, s': State): seq<nat> {
    if cfg.barrier then ReleasedBy(s', step) else RenewedBy(cfg, s, step)
  }

  function PoppedBy(s': State, step: Step): seq<nat> {
    if step.Pop? && s'.sender.Holding? then [s'.sender.client] else []
  }

  ghost function AllRenewed(cfg: Config, run: Run, n: nat): seq<nat>
    requires n <= |run.steps| < |run.states|
  {
    if n == 0 then [] else AllRenewed(cfg, run, n - 1) + RenewedBy(cfg, run.states[n - 1], run.steps[n - 1])
  }

  ghost function AllReleased(run: Run, n: nat): seq<nat>
    requires n <= |run.steps| < |run.states|
  {
    if n == 0 then [] else AllReleased(run, n - 1) + ReleasedBy(run.states[n], run.steps[n - 1])
  }

  /** Everything put into the ready queue: all clients, then new requests as they are made or released. */
  ghost function AllReady(cfg: Config, run: Run, n: nat): seq<nat>
    requires n <= |run.steps| < |run.states|
  {
    if n == 0 then seq(|cfg.total|, i requires i >= 0 => i)
    else
      AllReady(cfg, run, n - 1) + ReadyBy(cfg, run.states[n - 1], run.steps[n - 1], run.states[n])
  }

  ghost function AllPopped(run: Run, n: nat): seq<nat>
    requires n <= |run.steps| < |run.states|
  {
    if n == 0 then [] else AllPopped(run, n - 1) + PoppedBy(run.states[n], run.steps[n - 1])
  }

  lemma ParkedMove(cfg: Config, s: State, step: Step, s': State)
    requires Moves(cfg, s, step, s') && cfg.barrier
    ensures StillParked(s) + RenewedBy(cfg, s, step) == ReleasedBy(s', step) + StillParked(s')
  {
    if step.Requeue? {
      RequeueShape(cfg, s);
    } else if step.Release? {
      ReleaseParked(cfg, s);
    }
  }

  lemma ReleaseParked(cfg: Config, s: State)
    requires Bounded(cfg, s) && s.handler.Releasing? && s.handler.k < |s.next|
    ensures var s' := Next(cfg, s, Release); StillParked(s) == ReleasedBy(s', Release) + StillParked(s')
  {
    var k := s.handler.k;
    assert s.next[k..] == [s.next[k]] + s.next[k + 1..];
  }

  lemma ReadyMove(cfg: Config, s: State, step: Step, s': State)
    requires Moves(cfg, s, step, s') && cfg.fifo && (!cfg.barrier ==> !s.handler.Releasing?)
    ensures s.ready + ReadyBy(cfg, s, step, s') == PoppedBy(s', step) + s'.ready
  {
    if step.Requeue? {
      RequeueShape(cfg, s);
    } else if step.Pop? {
      assert s.ready == [s.ready[0]] + Remove(s.ready, 0);
    }
  }

  lemma ParkedAt(cfg: Config, run: Run, n: nat)
    requires ValidConfig(cfg) && ValidRun(cfg, run) && 0 < n <= |run.steps| && cfg.barrier
    ensures StillParked(run.states[n - 1]) + RenewedBy(cfg, run.states[n - 1], run.steps[n - 1])
         == ReleasedBy(run.states[n], run.steps[n - 1]) + StillParked(run.states[n])
  {
    RunKeepsInv(cfg, run, n - 1);
    ParkedMove(cfg, run.states[n - 1], run.steps[n - 1], run.states[n]);
  }

  lemma ReadyAt(cfg: Config, run: Run, n: nat)
    requires ValidConfig(cfg) && ValidRun(cfg, run) && 0 < n <= |run.steps| && cfg.fifo
    ensures run.states[n - 1].ready + ReadyBy(cfg, run.states[n - 1], run.steps[n - 1], run.states[n])
         == PoppedBy(run.states[n], run.steps[n - 1]) + run.states[n].ready
  {
    RunKeepsInv(cfg, run, n - 1);
    ReadyMove(cfg, run.states[n - 1], run.steps[n - 1], run.states[n]);
  }

  /** With the barrier on, clients are released in the order their next requests were made. */
  lemma {:induction false} ReleasedInOrder(cfg: Config, run: Run, n: nat)
    requires ValidConfig(cfg) && ValidRun(cfg, run) && n <= |run.steps| && cfg.barrier
    ensures AllRenewed(cfg, run, n) == AllReleased(run, n) + StillParked(run.states[n])
  {
    if n > 0 {
      var s, step, s' := run.states[n - 1], run.steps[n - 1], run.states[n];
      ReleasedInOrder(cfg, run, n - 1);
      ParkedAt(cfg, run, n);
      Shift(AllRenewed(cfg, run, n - 1), AllReleased(run, n - 1), StillParked(s), RenewedBy(cfg, s, step),
            ReleasedBy(s', step), StillParked(s'));
    }
  }

  /** Under the fifo policy requests are dispatched in the order they became ready. */
  lemma {:induction false} PoppedInOrder(cfg: Config, run: Run, n: nat)
    requires ValidConfig(cfg) && ValidRun(cfg, run) && n <= |run.steps| && cfg.fifo
    ensures AllReady(cfg, run, n) == AllPopped(run, n) + run.states[n].ready
  {
    if n > 0 {
      var s, step, s' := run.states[n - 1], run.steps[n - 1], run.states[n];
      PoppedInOrder(cfg, run, n - 1);
      ReadyAt(cfg, run, n);
      Shift(AllReady(cfg, run, n - 1), AllPopped(run, n - 1), s.ready, ReadyBy(cfg, s, step, s'), PoppedBy(s', step),
            s'.ready);
    }
  }

  // ----- The test -----

  /** The sender's test passes exactly if fewer requests than `maxParallel` are running, answered or in the
      handler's hands. */
  lemma TestExactly(cfg: Config, run: Run, n: nat)
    requires ValidConfig(cfg) && ValidRun(cfg, run) && n <= |run.steps| && run.states[n].sender.Checking?
    ensures Bounded(cfg, run.states[n])
    ensures var s := run.states[n];
      var open := |s.tasks| + |s.responses| + One(s.handler.Got? || s.handler.Recorded?);
      Next(cfg, s, Check).sender == if open < cfg.maxParallel then Cleared else Sleeping
  {
    RunKeepsInv(cfg, run, n);
  }
}
