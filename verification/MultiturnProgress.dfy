/** The multi-turn workload can always finish: from every reachable state in which nothing has failed,
    some continuation without failures comes to rest with all work done. */
module MultiturnProgress {
  import opened Sums
  import opened Places
  import opened Multiturn
  import opened MultiturnRun
  import opened MultiturnSafety
  import opened MultiturnInvariant
  import opened MultiturnTheorems

  /** No request has failed, nor is a failure on its way. */
  predicate Unfailed(s: State) {
    && (forall c :: 0 <= c < |s.place| ==> s.place[c] != Lost)
    && (forall i :: 0 <= i < |s.responses| ==> s.responses[i].success)
    && (s.handler.Got? ==> s.handler.response.success)
  }

  // ----- How much is left to do -----

  /** The moves left for a client's request, ten to a round. */
  function Weight(total: nat, round: nat, place: Place, handler: Handler): nat {
    var rounds := if round < total then 10 * (total - round) else 0;
    rounds + match place
             case Handling => if handler.Recorded? then 9 else if handler.Counted? then 8 else 2
             case Parked => 7
             case Ready => 6
             case Held => 5
             case Flying => 4
             case Replied => 3
             case _ => 0
  }

  function Weights(cfg: Config, s: State): seq<int>
    requires Bounded(cfg, s)
  {
    seq(|cfg.total|, c requires 0 <= c < |cfg.total| => Weight(cfg.total[c], s.round[c], s.place[c], s.handler))
  }

  function Work(cfg: Config, s: State): int
    requires Bounded(cfg, s)
  {
    2 * Sum(Weights(cfg, s)) + One(s.handler.Releasing?)
  }

  /** The sender's steps until it moves a request or lets one finish. */
  function Phase(s: State): nat {
    if s.tasks == [] then
      if s.sender.Sleeping? then 2 else if s.sender.Checking? then 1 else 0
    else
      if s.sender.Checking? then 3 else if s.sender.Cleared? || s.sender.Spawned? then 2 else 0
  }

  lemma WorkNat(cfg: Config, s: State)
    requires Bounded(cfg, s)
    ensures Work(cfg, s) >= 0
  {
    var zeros: seq<int> := seq(|cfg.total|, _ => 0);
    SumMonotone(zeros, Weights(cfg, s));
    SumConstant(zeros, 0);
  }

  // ----- The next step -----

  /** The step a friendly schedule takes: the handler first, then responses, then the tasks while the
      sender sleeps, then the sender. */
  function Chosen(s: State): Step {
    match s.handler
    case Got(_) => Record
    case Recorded(_) => Complete
    case Counted(_) => Requeue
    case Releasing(k) => if k < |s.next| then Release else EndRelease
    case Waiting =>
      if s.responses != [] then Get
      else if s.sender.Sleeping? && s.tasks != [] then Finish(0, true, [])
      else match s.sender
           case Checking => Check
           case Cleared => if s.ready == [] then PopEmpty(false) else Pop(0)
           case Holding(_) => Spawn
           case Spawned => Count(false)
           case _ => Wake
  }

  lemma ChosenEnabled(cfg: Config, s: State)
    requires Placed(cfg, s) && Unfailed(s) && !s.sender.Stopped?
    ensures Enabled(cfg, s, Chosen(s))
  {
  }

  /** The client the step moves, if it moves one. */
  function Mover(s: State, step: Step): int
    requires step.Pop? ==> step.i < |s.ready|
    requires step.Finish? ==> step.i < |s.tasks|
    requires step.Get? ==> s.responses != []
    requires step.Release? ==> s.handler.Releasing? && s.handler.k < |s.next|
    requires step.Spawn? ==> s.sender.Holding?
  {
    match step
    case Pop(i) => s.ready[i]
    case Spawn => s.sender.client
    case Finish(i, _, _) => s.tasks[i]
    case Get => s.responses[0].client
    case Release => s.next[s.handler.k]
    case Record => InHand(s.handler)
    case Complete => InHand(s.handler)
    case Requeue => InHand(s.handler)
    case _ => -1
  }

  /** Every move takes weight off the client it moves and leaves the others alone. */
  lemma WeightDrops(cfg: Config, s: State, step: Step, c: nat)
    requires Bounded(cfg, s) && Enabled(cfg, s, step) && MoverOk(cfg, s, step)
    requires !step.Requeue? && !step.DropFailed?
    requires c < |cfg.total| && ClientOk(cfg, s, c) && Bounded(cfg, Next(cfg, s, step))
    ensures var s' := Next(cfg, s, step);
      && Weights(cfg, s')[c] <= Weights(cfg, s)[c]
      && (c == Mover(s, step) ==> Weights(cfg, s')[c] < Weights(cfg, s)[c])
  {
  }

  lemma WeightDropsRequeue(cfg: Config, s: State, c: nat)
    requires Bounded(cfg, s) && Enabled(cfg, s, Requeue) && !PopsEmptyPool(cfg, s, Requeue) && MoverOk(cfg, s, Requeue)
    requires c < |cfg.total| && ClientOk(cfg, s, c) && Bounded(cfg, Next(cfg, s, Requeue))
    ensures var s' := Next(cfg, s, Requeue);
      && Weights(cfg, s')[c] <= Weights(cfg, s)[c]
      && (c == Mover(s, Requeue) ==> Weights(cfg, s')[c] < Weights(cfg, s)[c])
  {
    RequeueShape(cfg, s);
    RequeueRecords(cfg, s);
  }

  lemma SumDrops(cfg: Config, s: State, step: Step, pool0: nat)
    requires Inv(cfg, s, pool0) && Enabled(cfg, s, step) && !PopsEmptyPool(cfg, s, step) && !step.DropFailed?
    ensures Bounded(cfg, Next(cfg, s, step))
    ensures Sum(Weights(cfg, Next(cfg, s, step))) <= Sum(Weights(cfg, s))
    ensures Mover(s, step) >= 0 ==> Sum(Weights(cfg, Next(cfg, s, step))) < Sum(Weights(cfg, s))
  {
    BoundedNext(cfg, s, step);
    PlacedMover(cfg, s, step);
    var s' := Next(cfg, s, step);
    var before, after := Weights(cfg, s), Weights(cfg, s');
    forall c | 0 <= c < |cfg.total| ensures after[c] <= before[c] && (c == Mover(s, step) ==> after[c] < before[c]) {
      if step.Requeue? { WeightDropsRequeue(cfg, s, c); } else { WeightDrops(cfg, s, step, c); }
    }
    SumMonotone(after, before);
    if Mover(s, step) >= 0 { assert after[Mover(s, step)] < before[Mover(s, step)]; }
  }

  /** The sender's steps that move no request. */
  predicate Idle(step: Step) {
    step.Check? || step.PopEmpty? || step.Count? || step.Wake?
  }

  /** If the schedule takes such a step, a move comes nearer. */
  lemma IdlePhase(cfg: Config, s: State, pool0: nat)
    requires Bounded(cfg, s) && TotalsOk(cfg, s, pool0) && !Quiet(s) && cfg.maxParallel > 0
    requires Idle(Chosen(s)) && Enabled(cfg, s, Chosen(s))
    ensures Phase(Next(cfg, s, Chosen(s))) < Phase(s)
    ensures Next(cfg, s, Chosen(s)).handler == s.handler
  {
  }

  lemma ChosenMoves(s: State)
    requires s.handler.Releasing? ==> s.handler.k <= |s.next|
    requires !Idle(Chosen(s)) && !Chosen(s).EndRelease?
    ensures Mover(s, Chosen(s)) >= 0
  {
  }

  /** The chosen step takes work away, or brings the sender nearer to a step that does. */
  lemma ChosenProgress(cfg: Config, s: State, pool0: nat)
    requires Inv(cfg, s, pool0) && !Quiet(s) && cfg.maxParallel > 0
    requires Enabled(cfg, s, Chosen(s)) && !PopsEmptyPool(cfg, s, Chosen(s))
    ensures var s' := Next(cfg, s, Chosen(s));
      && Bounded(cfg, s')
      && (Work(cfg, s') < Work(cfg, s) || (Work(cfg, s') == Work(cfg, s) && Phase(s') < Phase(s)))
  {
    var step := Chosen(s);
    SumDrops(cfg, s, step, pool0);
    if Idle(step) {
      IdlePhase(cfg, s, pool0);
    } else if step.EndRelease? {
      assert !Next(cfg, s, step).handler.Releasing?;
    } else {
      ChosenMoves(s);
    }
  }

  lemma ChosenUnfailed(cfg: Config, s: State)
    requires Bounded(cfg, s) && Unfailed(s) && !s.sender.Stopped?
    requires Enabled(cfg, s, Chosen(s)) && !PopsEmptyPool(cfg, s, Chosen(s))
    ensures Unfailed(Next(cfg, s, Chosen(s))) && !Next(cfg, s, Chosen(s)).sender.Stopped?
  {
    if Chosen(s).Requeue? { RequeueShape(cfg, s); }
  }

  // ----- Whole runs -----

  ghost function Last(run: Run): State
    requires |run.states| == |run.steps| + 1
  {
    run.states[|run.steps|]
  }

  ghost predicate Extends(run: Run, longer: Run) {
    && longer.prompts == run.prompts && longer.pool == run.pool
    && run.states <= longer.states && run.steps <= longer.steps
  }

  lemma Extend(cfg: Config, run: Run, step: Step) returns (longer: Run)
    requires ValidRun(cfg, run) && Bounded(cfg, Last(run))
    requires Enabled(cfg, Last(run), step) && !PopsEmptyPool(cfg, Last(run), step)
    ensures ValidRun(cfg, longer) && Extends(run, longer) && Last(longer) == Next(cfg, Last(run), step)
  {
    var s := Last(run);
    longer := run.(states := run.states + [Next(cfg, s, step)], steps := run.steps + [step]);
    assert Moves(cfg, s, step, Next(cfg, s, step));
    forall k | 0 <= k < |longer.steps| ensures Moves(cfg, longer.states[k], longer.steps[k], longer.states[k + 1]) {
      if k < |run.steps| { assert Moves(cfg, run.states[k], run.steps[k], run.states[k + 1]); }
    }
  }

  /** The last state of a run is one from which the chosen step can be taken. */
  lemma CanStep(cfg: Config, run: Run)
    requires ValidConfig(cfg) && ValidRun(cfg, run) && |run.pool| >= Sum(SubQuestions(cfg.total))
    requires Unfailed(Last(run)) && !Last(run).sender.Stopped?
    ensures var s := Last(run);
      Inv(cfg, s, |run.pool|) && Enabled(cfg, s, Chosen(s)) && !PopsEmptyPool(cfg, s, Chosen(s))
  {
    RunKeepsInv(cfg, run, |run.steps|);
    ChosenEnabled(cfg, Last(run));
    NoEmptyPop(cfg, Last(run), Chosen(Last(run)), |run.pool|);
  }

  /** Every run without failures, not stopped by its deadline, can be continued without failures until
      it comes to rest; then every client has sent all its requests and all are completed. */
  lemma {:induction false} CanFinish(cfg: Config, run: Run) returns (longer: Run)
    requires ValidConfig(cfg) && cfg.maxParallel > 0
    requires ValidRun(cfg, run) && |run.pool| >= Sum(SubQuestions(cfg.total))
    requires Unfailed(Last(run)) && !Last(run).sender.Stopped? && Bounded(cfg, Last(run))
    ensures ValidRun(cfg, longer) && Extends(run, longer) && Unfailed(Last(longer)) && Quiet(Last(longer))
    ensures var s := Last(longer);
      && Bounded(cfg, s) && (forall c :: 0 <= c < |cfg.total| ==> s.round[c] == cfg.total[c] == |s.log[c]|)
      && s.completed == s.sent == Sum(cfg.total)
    decreases Work(cfg, Last(run)), Phase(Last(run))
  {
    CanStep(cfg, run);
    var s := Last(run);
    if Quiet(s) {
      longer := run;
      WorkConserved(cfg, run, |run.steps|);
    } else {
      WorkNat(cfg, s);
      ChosenProgress(cfg, s, |run.pool|);
      ChosenUnfailed(cfg, s);
      var next := Extend(cfg, run, Chosen(s));
      longer := CanFinish(cfg, next);
    }
  }

  // ----- Which configurations finish -----

  /** Some run comes to rest without a failure. */
  ghost predicate Finishes(cfg: Config, prompts: seq<seq<int>>, pool: seq<seq<int>>) {
    exists run :: ValidRun(cfg, run) && run.prompts == prompts && run.pool == pool && AtEnd(Last(run))
  }

  ghost predicate AtEnd(s: State) {
    Quiet(s) && Unfailed(s)
  }

  /** Without a slot nothing is ever taken out of the ready queue. */
  lemma {:induction false} NeverSends(cfg: Config, run: Run, n: nat)
    requires ValidConfig(cfg) && ValidRun(cfg, run) && n < |run.states| && cfg.maxParallel <= 0 && cfg.total != []
    ensures run.states[n].ready != []
  {
    if n > 0 {
      NeverSends(cfg, run, n - 1);
      RunKeepsInv(cfg, run, n - 1);
      assert Moves(cfg, run.states[n - 1], run.steps[n - 1], run.states[n]);
      ReadyKept(cfg, run.states[n - 1], run.steps[n - 1], |run.pool|);
    }
  }

  lemma ReadyKept(cfg: Config, s: State, step: Step, pool0: nat)
    requires Inv(cfg, s, pool0) && Enabled(cfg, s, step) && !PopsEmptyPool(cfg, s, step)
    requires cfg.maxParallel <= 0 && s.ready != []
    ensures Next(cfg, s, step).ready != []
  {
    if step.Requeue? { RequeueShape(cfg, s); }
  }

  /** With enough sub-questions some run finishes if and only if there is a slot or nothing to do. */
  lemma FinishPossibleExactly(cfg: Config, prompts: seq<seq<int>>, pool: seq<seq<int>>)
    requires ValidConfig(cfg) && |prompts| == |cfg.total| && |pool| >= Sum(SubQuestions(cfg.total))
    ensures Finishes(cfg, prompts, pool) <==> cfg.maxParallel > 0 || cfg.total == []
  {
    var run := Run(prompts, pool, [Start(cfg, prompts, pool)], []);
    if cfg.maxParallel > 0 {
      InvStart(cfg, prompts, pool);
      var longer := CanFinish(cfg, run);
      assert AtEnd(Last(longer));
    } else if cfg.total == [] {
      assert AtEnd(Last(run));
    } else if other :| ValidRun(cfg, other) && AtEnd(Last(other)) {
      NeverSends(cfg, other, |other.steps|);
    }
  }
}
