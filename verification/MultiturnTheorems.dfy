/** The multi-turn workload over whole runs: every interleaving, pop order and pattern of failures. */
module MultiturnTheorems {
  import opened Sums
  import opened Multiturn
  import opened MultiturnRun
  import opened Places
  import opened MultiturnSafety
  import opened MultiturnInvariant
  import opened MultiturnBarrier

  ghost predicate Inv(cfg: Config, s: State, pool0: nat) {
    && Bounded(cfg, s)
    && Placed(cfg, s)
    && (forall c :: 0 <= c < |cfg.total| ==> ClientOk(cfg, s, c))
    && TotalsOk(cfg, s, pool0)
    && (if cfg.barrier then BarrierOk(cfg, s) else s.next == [] && !s.handler.Releasing?)
  }

  lemma InvStart(cfg: Config, prompts: seq<seq<int>>, pool: seq<seq<int>>)
    requires ValidConfig(cfg) && |prompts| == |cfg.total|
    ensures Inv(cfg, Start(cfg, prompts, pool), |pool|)
  {
    var s, n := Start(cfg, prompts, pool), |cfg.total|;
    forall c: nat ensures c in s.ready <==> c < n {
      if c < n { assert s.ready[c] == c; }
    }
    SumConstant(s.used, 0);
    SumConstant(Lengths(s.log), 0);
    FinishedNone(cfg.total, s.round, 0, n);
  }

  lemma NoEmptyPop(cfg: Config, s: State, step: Step, pool0: nat)
    requires Inv(cfg, s, pool0) && pool0 >= Sum(SubQuestions(cfg.total)) && Enabled(cfg, s, step)
    ensures !PopsEmptyPool(cfg, s, step)
  {
    if PopsEmptyPool(cfg, s, step) {
      PlacedMover(cfg, s, step);
      PoolSuffices(cfg, s, pool0);
    }
  }

  lemma BarrierNext(cfg: Config, s: State, step: Step)
    requires ValidConfig(cfg) && cfg.barrier && Bounded(cfg, s) && Placed(cfg, s) && BarrierOk(cfg, s)
    requires forall c :: 0 <= c < |cfg.total| ==> ClientOk(cfg, s, c)
    requires Enabled(cfg, s, step) && !PopsEmptyPool(cfg, s, step)
    ensures Bounded(cfg, Next(cfg, s, step)) && BarrierOk(cfg, Next(cfg, s, step))
  {
    BoundedNext(cfg, s, step);
    PlacedMover(cfg, s, step);
    var s' := Next(cfg, s, step);
    forall c | 0 <= c < |cfg.total| ensures ClientInRound(cfg, s', c) {
      if step.Requeue? {
        InRoundRequeue(cfg, s, c);
      } else if step.EndRelease? {
        InRoundEndRelease(cfg, s, c);
      } else if HandlerStep(step) {
        InRoundHandler(cfg, s, step, c);
      } else {
        InRoundSender(cfg, s, step, c);
      }
    }
    match step
    case Record => CountersRecord(cfg, s);
    case Requeue => CountersRequeue(cfg, s);
    case EndRelease => CountersEndRelease(cfg, s);
    case _ =>
  }

  lemma InvNext(cfg: Config, s: State, step: Step, pool0: nat)
    requires ValidConfig(cfg) && Inv(cfg, s, pool0) && Enabled(cfg, s, step) && !PopsEmptyPool(cfg, s, step)
    ensures Inv(cfg, Next(cfg, s, step), pool0)
  {
    BoundedNext(cfg, s, step);
    PlacedNext(cfg, s, step);
    TotalsNext(cfg, s, step, pool0);
    forall c | 0 <= c < |cfg.total| ensures ClientOk(cfg, Next(cfg, s, step), c) {
      ClientOkNext(cfg, s, step, c);
    }
    if cfg.barrier { BarrierNext(cfg, s, step); }
  }

  // ----- Runs -----

  ghost predicate Moves(cfg: Config, s: State, step: Step, s': State) {
    Bounded(cfg, s) && Enabled(cfg, s, step) && !PopsEmptyPool(cfg, s, step) && s' == Next(cfg, s, step)
  }

  /** The states of some interleaving, from the start. */
  datatype Run = Run(prompts: seq<seq<int>>, pool: seq<seq<int>>, states: seq<State>, steps: seq<Step>)

  ghost predicate ValidRun(cfg: Config, run: Run) {
    && |run.prompts| == |cfg.total|
    && |run.states| == |run.steps| + 1
    && run.states[0] == Start(cfg, run.prompts, run.pool)
    && forall k :: 0 <= k < |run.steps| ==> Moves(cfg, run.states[k], run.steps[k], run.states[k + 1])
  }

  lemma {:induction false} RunKeepsInv(cfg: Config, run: Run, n: nat)
    requires ValidConfig(cfg) && ValidRun(cfg, run) && n < |run.states|
    ensures Inv(cfg, run.states[n], |run.pool|)
  {
    if n == 0 {
      InvStart(cfg, run.prompts, run.pool);
    } else {
      RunKeepsInv(cfg, run, n - 1);
      MoveKeepsInv(cfg, run.states[n - 1], run.steps[n - 1], run.states[n], |run.pool|);
    }
  }

  lemma MoveKeepsInv(cfg: Config, s: State, step: Step, s': State, pool0: nat)
    requires ValidConfig(cfg) && Inv(cfg, s, pool0) && Moves(cfg, s, step, s')
    ensures Inv(cfg, s', pool0)
  {
    InvNext(cfg, s, step, pool0);
  }

  /** `sub_question_inputs.pop()` never meets an empty list, if as many were sampled as the
      generator asks for. */
  lemma SubQuestionsNeverRunOut(cfg: Config, run: Run, n: nat, step: Step)
    requires ValidConfig(cfg) && ValidRun(cfg, run) && n < |run.states|
    requires |run.pool| >= Sum(SubQuestions(cfg.total))
    ensures var s := run.states[n]; Bounded(cfg, s) && (Enabled(cfg, s, step) ==> !PopsEmptyPool(cfg, s, step))
  {
    RunKeepsInv(cfg, run, n);
    if Enabled(cfg, run.states[n], step) { NoEmptyPop(cfg, run.states[n], step, |run.pool|); }
  }

  /** Completed never exceeds sent, and no more than `maxParallel` requests are open, although
      testing the limit and counting the request are separate steps. */
  lemma ConcurrencyBound(cfg: Config, run: Run, n: nat)
    requires ValidConfig(cfg) && ValidRun(cfg, run) && n < |run.states|
    ensures var s := run.states[n];
      && 0 <= s.sent - s.completed <= (if cfg.maxParallel > 0 then cfg.maxParallel else 0)
      && |s.tasks| + |s.responses| <= s.sent - s.completed + One(s.sender.Spawned?)
  {
    RunKeepsInv(cfg, run, n);
  }

  /** A client whose request is waiting, held, running or answered but unhandled. */
  predicate Live(s: State, c: nat)
    requires c < |s.place|
  {
    s.place[c] in {Ready, Held, Flying, Replied} || (s.place[c] == Handling && !Settling(s, c))
  }

  /** Barrier safety: while any request of round `r + 1` is live, every client that takes part in
      round `r` has succeeded in it; and all live requests belong to one round. */
  lemma BarrierSafety(cfg: Config, run: Run, n: nat, c: nat, d: nat)
    requires ValidConfig(cfg) && cfg.barrier && ValidRun(cfg, run) && n < |run.states|
    requires c < |cfg.total| && d < |cfg.total|
    ensures var s := run.states[n];
      && Bounded(cfg, s)
      && (Live(s, c) && s.round[c] > 0 && cfg.total[d] > s.round[c] - 1 ==> s.round[d] > s.round[c] - 1)
      && (Live(s, c) && Live(s, d) ==> s.round[c] == s.round[d])
  {
    RunKeepsInv(cfg, run, n);
    var s := run.states[n];
    assert ClientInRound(cfg, s, c) && ClientInRound(cfg, s, d) && ClientOk(cfg, s, d) && ClientOk(cfg, s, c);
  }

  lemma LostMove(cfg: Config, s: State, step: Step, s': State, pool0: nat, d: nat)
    requires ValidConfig(cfg) && Inv(cfg, s, pool0) && Moves(cfg, s, step, s') && d < |cfg.total| && s.place[d] == Lost
    ensures Bounded(cfg, s') && s'.place[d] == Lost && s'.round[d] == s.round[d]
  {
    BoundedNext(cfg, s, step);
    PlacedMover(cfg, s, step);
    if step.Requeue? { RequeueRecords(cfg, s); }
  }

  lemma {:induction false} LostStays(cfg: Config, run: Run, n: nat, m: nat, d: nat)
    requires ValidConfig(cfg) && ValidRun(cfg, run) && n <= m < |run.states| && d < |cfg.total|
    requires Bounded(cfg, run.states[n]) && run.states[n].place[d] == Lost
    ensures Bounded(cfg, run.states[m]) && run.states[m].place[d] == Lost
    ensures run.states[m].round[d] == run.states[n].round[d]
    decreases m
  {
    if n < m {
      LostStays(cfg, run, n, m - 1, d);
      RunKeepsInv(cfg, run, m - 1);
      LostMove(cfg, run.states[m - 1], run.steps[m - 1], run.states[m], |run.pool|, d);
    }
  }

  /** A failed request pins the barrier: from then on every live request belongs to its round. */
  lemma FailurePinsRound(cfg: Config, run: Run, n: nat, m: nat, c: nat, d: nat)
    requires ValidConfig(cfg) && cfg.barrier && ValidRun(cfg, run) && n <= m < |run.states|
    requires c < |cfg.total| && d < |cfg.total| && Bounded(cfg, run.states[n]) && run.states[n].place[d] == Lost
    ensures Bounded(cfg, run.states[m]) && (Live(run.states[m], c) ==> run.states[m].round[c] == run.states[n].round[d])
  {
    LostStays(cfg, run, n, m, d);
    RunKeepsInv(cfg, run, m);
    assert ClientInRound(cfg, run.states[m], c) && ClientInRound(cfg, run.states[m], d);
  }

  /** Each client has at most one request anywhere; its dispatched payloads extend one another, and
      the history of an open request is untouched until it is answered, so sharing it by
      reference is harmless. */
  lemma HistoriesExtend(cfg: Config, run: Run, n: nat, c: nat)
    requires ValidConfig(cfg) && ValidRun(cfg, run) && n < |run.states| && c < |cfg.total|
    ensures var s := run.states[n];
      && Bounded(cfg, s) && Placed(cfg, s)
      && Growing(s.log[c]) && s.round[c] <= |s.log[c]| <= cfg.total[c]
      && (s.place[c] in {Flying, Replied} ==> s.log[c] != [] && s.history[c] == s.log[c][|s.log[c]| - 1])
  {
    RunKeepsInv(cfg, run, n);
    assert ClientOk(cfg, run.states[n], c);
  }

  /** Nothing is moving: no request is queued, held, running, or being handled. */
  predicate Quiet(s: State) {
    s.ready == [] && s.tasks == [] && s.responses == [] && !s.sender.Holding? && s.handler.Waiting?
  }

  lemma QuietDone(cfg: Config, s: State, pool0: nat, c: nat)
    requires ValidConfig(cfg) && Inv(cfg, s, pool0) && Quiet(s) && c < |cfg.total|
    requires forall d :: 0 <= d < |cfg.total| ==> s.place[d] != Lost
    ensures s.place[c] == Done
  {
    forall d: nat | d < |cfg.total| ensures s.place[d] == Done || s.place[d] == Parked {
      assert d !in s.ready && d !in s.tasks && d !in ClientsOf(s.responses);
    }
    if s.place[c] == Parked {
      assert c in s.next && cfg.barrier;
      var b, n := s.barrierRound, |cfg.total|;
      forall d | 0 <= d < n && cfg.total[d] > b ensures s.round[d] > b {
        assert ClientInRound(cfg, s, d) && ClientOk(cfg, s, d);
      }
      FinishedAll(cfg.total, s.round, b, n);
      assert ClientInRound(cfg, s, c) && ClientOk(cfg, s, c);
      SomeParticipant(cfg.total, b, n, c);
    }
  }

  /** Work conservation: when a run without failures comes to rest, with or without the barrier,
      every client has sent exactly its `total_rounds` requests and all requests are completed. */
  lemma WorkConserved(cfg: Config, run: Run, n: nat)
    requires ValidConfig(cfg) && ValidRun(cfg, run) && n < |run.states|
    requires var s := run.states[n];
      Quiet(s) && Bounded(cfg, s) && forall d :: 0 <= d < |cfg.total| ==> s.place[d] != Lost
    ensures var s := run.states[n];
      && (forall c :: 0 <= c < |cfg.total| ==> s.round[c] == cfg.total[c] == |s.log[c]|)
      && s.completed == s.sent == Sum(cfg.total) == Sum(PerRound(cfg.total, cfg.maxRounds))
  {
    RunKeepsInv(cfg, run, n);
    var s := run.states[n];
    forall c | 0 <= c < |cfg.total| ensures s.round[c] == cfg.total[c] == |s.log[c]| {
      QuietDone(cfg, s, |run.pool|, c);
      assert ClientOk(cfg, s, c);
    }
    assert Lengths(s.log) == cfg.total;
    RequestsCountedTwice(cfg.total, cfg.maxRounds);
  }
}
