/** The completed counter of the mixed workload, which two threads increase by a read and a later
    write: when it loses completions, and when slots come back. */
module MixCounter {
  import opened MixRun
  import opened MixTheorems

  /** A write based on a value that is no longer the counter's. */
  predicate Stale(s: State, step: Step) {
    || (step.Store? && s.handler.Loaded? && s.handler.seen != s.completed)
    || (step.RaiseStore? && s.sender.Raising? && s.sender.seen != s.completed)
  }

  ghost predicate NoneStale(run: Run, n: nat)
    requires n <= |run.steps| && |run.states| == |run.steps| + 1
  {
    forall k :: 0 <= k < n ==> !Stale(run.states[k], run.steps[k])
  }

  /** A value read that accounts for all completions is the counter's. */
  predicate PendingOk(s: State) {
    && (s.handler.Loaded? && s.handler.seen == s.done ==> s.completed == s.done)
    && (s.sender.Raising? && s.sender.seen == s.done ==> s.completed == s.done)
  }

  lemma CounterStep(cfg: Config, s: State, step: Step, s': State)
    requires UsersOk(cfg, s) && CountsOk(cfg, s) && PendingOk(s) && Moves(cfg, s, step, s')
    ensures PendingOk(s')
    ensures s'.completed == s'.done <==> s.completed == s.done && !Stale(s, step)
  {
  }

  lemma {:induction false} CounterRun(cfg: Config, run: Run, n: nat)
    requires ValidRun(cfg, run) && n <= |run.steps|
    ensures PendingOk(run.states[n])
    ensures run.states[n].completed == run.states[n].done <==> NoneStale(run, n)
  {
    if n > 0 {
      CounterRun(cfg, run, n - 1);
      RunKeeps(cfg, run, n - 1);
      CounterStep(cfg, run.states[n - 1], run.steps[n - 1], run.states[n]);
    }
  }

  /** For every prefix of every run: the counter agrees with the completions if and only if no write
      so far was stale; a loss is never made up for. */
  lemma CounterExact(cfg: Config, run: Run, n: nat)
    requires ValidRun(cfg, run) && n <= |run.steps|
    ensures run.states[n].completed <= run.states[n].done
    ensures run.states[n].completed == run.states[n].done <==> NoneStale(run, n)
  {
    RunKeeps(cfg, run, n);
    CounterRun(cfg, run, n);
  }

  /** No request is open: none running, answered, in the handler or raising. */
  predicate AtRest(s: State) {
    s.tasks == [] && s.responses == [] && s.handler.Waiting? && !s.sender.Raising?
  }

  /** At rest the slots in use are those of failed responses and lost completions: all are back if
      and only if no response failed and no write was stale, and the sender's test fails if and
      only if the leaked slots are all there are. */
  lemma SlotsReturned(cfg: Config, run: Run, n: nat)
    requires ValidRun(cfg, run) && n <= |run.steps| && AtRest(run.states[n])
    ensures var s := run.states[n];
      && s.sent - s.completed == s.dropped + (s.done - s.completed)
      && (s.sent == s.completed <==> s.dropped == 0 && NoneStale(run, n))
      && (s.sender.Checking? ==>
            UsersOk(cfg, s) && (Next(cfg, s, Check).sender == Sleeping <==> Leaked(s) >= cfg.maxParallel))
  {
    RunKeeps(cfg, run, n);
    CounterExact(cfg, run, n);
  }

  /** Slots that no open request holds and that do not come back. */
  function Leaked(s: State): int {
    s.dropped + (s.done - s.completed)
  }

  /** At rest with every slot leaked, the sender between its tests. */
  predicate Stuck(cfg: Config, s: State) {
    AtRest(s) && (s.sender.Checking? || s.sender.Sleeping?) && s.sent - s.completed >= cfg.maxParallel
  }

  /** Once stuck, a run sends nothing any more. */
  lemma {:induction false} StuckForGood(cfg: Config, run: Run, n: nat, m: nat)
    requires ValidRun(cfg, run) && n <= m <= |run.steps| && Stuck(cfg, run.states[n])
    ensures Stuck(cfg, run.states[m]) && run.states[m].sent == run.states[n].sent
    decreases m
  {
    if n < m {
      StuckForGood(cfg, run, n, m - 1);
      assert Moves(cfg, run.states[m - 1], run.steps[m - 1], run.states[m]);
    }
  }

  // ----- One slot is safe -----

  /** With one slot at most one thread is between its read and its write. */
  lemma {:induction false} OneSlotFresh(cfg: Config, run: Run, n: nat)
    requires ValidRun(cfg, run) && n <= |run.steps| && cfg.maxParallel <= 1
    ensures var s := run.states[n];
      && (s.handler.Loaded? ==> s.handler.seen == s.completed)
      && (s.sender.Raising? ==> s.sender.seen == s.completed)
  {
    if n > 0 {
      OneSlotFresh(cfg, run, n - 1);
      RunKeeps(cfg, run, n - 1);
      OneSlotStep(cfg, run.states[n - 1], run.steps[n - 1], run.states[n]);
    }
  }

  lemma OneSlotStep(cfg: Config, s: State, step: Step, s': State)
    requires UsersOk(cfg, s) && CountsOk(cfg, s) && Moves(cfg, s, step, s') && cfg.maxParallel <= 1
    requires (s.handler.Loaded? ==> s.handler.seen == s.completed) &&
      (s.sender.Raising? ==> s.sender.seen == s.completed)
    ensures (s'.handler.Loaded? ==> s'.handler.seen == s'.completed) &&
      (s'.sender.Raising? ==> s'.sender.seen == s'.completed)
  {
  }

  // ----- Two slots are enough to lose a completion -----

  ghost function Last(run: Run): State
    requires |run.states| == |run.steps| + 1
  {
    run.states[|run.steps|]
  }

  lemma Extend(cfg: Config, run: Run, step: Step) returns (longer: Run)
    requires ValidRun(cfg, run) && Enabled(Last(run), step)
    ensures ValidRun(cfg, longer) && UsersOk(cfg, Last(run)) && Last(longer) == Next(cfg, Last(run), step)
    ensures longer == Run(run.states + [Last(longer)], run.steps + [step])
  {
    RunExtends(cfg, run, step);
    longer := Run(run.states + [Next(cfg, Last(run), step)], run.steps + [step]);
  }

  /** `m` requests under way and nothing else. */
  predicate Filled(s: State, m: nat) {
    && s.sender.Checking? && s.handler.Waiting? && s.responses == [] && |s.tasks| == m
    && s.sent == m && s.completed == 0 && s.dropped == 0
  }

  lemma {:induction false} FillSlots(cfg: Config, m: nat) returns (run: Run)
    requires cfg.cumulative != [] && (m == 0 || m <= cfg.maxParallel)
    ensures ValidRun(cfg, run) && Filled(Last(run), m)
  {
    if m == 0 {
      run := Run([Start(cfg)], []);
    } else {
      run := FillSlots(cfg, m - 1);
      run := Extend(cfg, run, Check);
      run := Extend(cfg, run, Pop(0.0, 0, 0));
      run := Extend(cfg, run, Spawn);
      run := Extend(cfg, run, Count(false));
    }
  }

  /** All slots can leak: every configuration has a run that gets stuck, by failed responses alone. */
  lemma CanGetStuck(cfg: Config) returns (run: Run)
    requires cfg.cumulative != []
    ensures ValidRun(cfg, run) && Stuck(cfg, Last(run))
    ensures Last(run).dropped == (if cfg.maxParallel > 0 then cfg.maxParallel else 0)
  {
    run := FillSlots(cfg, if cfg.maxParallel > 0 then cfg.maxParallel else 0);
    RunKeeps(cfg, run, |run.steps|);
    run := Extend(cfg, run, Check);
    run := FailAll(cfg, run);
  }

  lemma {:induction false} FailAll(cfg: Config, run: Run) returns (longer: Run)
    requires ValidRun(cfg, run)
    requires Last(run).sender.Sleeping? && Last(run).handler.Waiting? && Last(run).responses == []
    ensures ValidRun(cfg, longer) && AtRest(Last(longer)) && Last(longer).sender.Sleeping?
    ensures Last(longer).dropped == Last(run).dropped + |Last(run).tasks|
    ensures Last(longer).sent == Last(run).sent && Last(longer).completed == Last(run).completed
    decreases |Last(run).tasks|
  {
    longer := run;
    if Last(run).tasks != [] {
      longer := Extend(cfg, run, Respond(0, false, 0));
      longer := Extend(cfg, longer, Get);
      longer := Extend(cfg, longer, Drop);
      longer := FailAll(cfg, longer);
    }
  }

  /** A run to the point where the handler has pushed a user back, with another request open. */
  lemma ReachPushed(cfg: Config) returns (run: Run)
    requires cfg.cumulative != [] && cfg.maxParallel >= 2
    ensures ValidRun(cfg, run)
    ensures Last(run).sender.Sleeping? && Last(run).handler.Pushed? && Last(run).tasks != []
  {
    run := FillSlots(cfg, cfg.maxParallel);
    run := Extend(cfg, run, Check);
    run := Extend(cfg, run, Respond(0, true, 0));
    run := Extend(cfg, run, Get);
    run := Extend(cfg, run, PushBack(0, 0.0));
  }

  /** The lost update: the handler reads the counter, a raising request reads and writes it, the
      handler writes - two completions, counted once. */
  lemma LostUpdate(cfg: Config, run: Run) returns (longer: Run)
    requires ValidRun(cfg, run)
    requires Last(run).sender.Sleeping? && Last(run).handler.Pushed? && Last(run).tasks != []
    ensures ValidRun(cfg, longer) && longer.steps == run.steps + [Load, Raise(0), RaiseStore, Store]
    ensures Last(longer).done == Last(run).done + 2 && Last(longer).completed == Last(run).completed + 1
  {
    longer := Extend(cfg, run, Load);
    longer := Extend(cfg, longer, Raise(0));
    longer := Extend(cfg, longer, RaiseStore);
    longer := Extend(cfg, longer, Store);
  }

  /** In some run the counter falls behind. */
  ghost predicate CanLose(cfg: Config) {
    exists run :: ValidRun(cfg, run) && Last(run).completed < Last(run).done
  }

  /** Completions can be lost if and only if two requests may be open at once. */
  lemma LossPossibleExactly(cfg: Config)
    requires cfg.cumulative != []
    ensures CanLose(cfg) <==> cfg.maxParallel >= 2
  {
    if cfg.maxParallel >= 2 {
      var run := ReachPushed(cfg);
      RunKeeps(cfg, run, |run.steps|);
      var longer := LostUpdate(cfg, run);
      assert Last(longer).completed < Last(longer).done;
    } else if run :| ValidRun(cfg, run) && Last(run).completed < Last(run).done {
      CounterExact(cfg, run, |run.steps|);
      var k :| 0 <= k < |run.steps| && Stale(run.states[k], run.steps[k]);
      OneSlotFresh(cfg, run, k);
    }
  }
}
