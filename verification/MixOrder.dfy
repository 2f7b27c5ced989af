/** The queue of waiting users over whole runs: for which configurations it can get out of order. */
module MixOrder {
  import opened Mix
  import opened MixRun
  import opened MixTheorems
  import opened MixCounter

  /** A user waits in front of one that may start earlier. */
  predicate OutOfOrder(g: Gen) {
    exists i, j :: 0 <= i < j < |g.queue| && Before(g, j, i)
  }

  predicate Before(g: Gen, j: nat, i: nat)
    requires j < |g.queue| && i < |g.queue|
  {
    g.queue[i] < |g.users| && g.queue[j] < |g.users| && g.users[g.queue[j]].start < g.users[g.queue[i]].start
  }

  // ----- A run that does it -----

  /** The user has not been answered yet and will come back. */
  predicate Returning(s: State, u: nat) {
    u < |s.gen.users| && s.gen.users[u].currentRound == 0 && s.gen.users[u].totalRounds >= 2
  }

  /** All slots are taken by users in their first of several rounds. */
  predicate AllReturning(s: State) {
    s.handler.Waiting? && s.responses == [] && forall i :: 0 <= i < |s.tasks| ==> Returning(s, s.tasks[i])
  }

  /** One more new user that will come back, drawn as the first ratio. */
  lemma SendNew(cfg: Config, run: Run) returns (longer: Run)
    requires ValidRun(cfg, run) && |cfg.cumulative| >= 2 && Last(run).sender.Cleared? && AllReturning(Last(run))
    requires UsersOk(cfg, Last(run)) && !HeadIsDue(Last(run).gen, |cfg.cumulative|, 0.5)
    ensures ValidRun(cfg, longer) && Last(longer).sender.Checking? && AllReturning(Last(longer))
    ensures var s, s' := Last(run), Last(longer);
      && s'.tasks == s.tasks + [|s.gen.users|] && s'.sent == s.sent + 1 && s'.completed == s.completed
      && s'.gen.queue == s.gen.queue && s.gen.users <= s'.gen.users
  {
    ghost var s := Last(run);
    longer := Extend(cfg, run, Pop(0.5, cfg.cumulative[0], 0));
    longer := Extend(cfg, longer, Spawn);
    longer := Extend(cfg, longer, Count(false));
    assert RoundsFor(cfg.cumulative, cfg.cumulative[0]) >= 2;
  }

  /** The first request in flight is answered and its user comes back with the given start. */
  lemma ReturnFirst(cfg: Config, run: Run, start: real) returns (longer: Run)
    requires ValidRun(cfg, run) && Last(run).sender.Sleeping? && AllReturning(Last(run)) && Last(run).tasks != []
    ensures ValidRun(cfg, longer) && Last(longer).sender.Sleeping? && Last(longer).handler.Pushed?
    ensures UsersOk(cfg, Last(run))
    ensures var s, s', u := Last(run), Last(longer), Last(run).tasks[0];
      && u < |s.gen.users| && s'.tasks == s.tasks[1..] && s'.responses == []
      && s'.sent == s.sent && s'.completed == s.completed
      && s'.gen.users == s.gen.users[u := s.gen.users[u].(currentRound := 1, start := start)]
      && s'.gen.queue == Inserted(s.gen.queue, InsertAt(s.gen.queue, s'.gen.users, start), u)
  {
    longer := Extend(cfg, run, Respond(0, true, 0));
    longer := Extend(cfg, longer, Get);
    longer := Extend(cfg, longer, PushBack(0, start));
  }

  lemma {:induction false} FillReturning(cfg: Config, m: nat) returns (run: Run)
    requires |cfg.cumulative| >= 2 && (m == 0 || m <= cfg.maxParallel)
    ensures ValidRun(cfg, run) && Last(run).sender.Checking? && AllReturning(Last(run))
    ensures var s := Last(run);
      |s.tasks| == m && s.sent == m && s.completed == 0 && s.gen.queue == []
  {
    if m == 0 {
      run := Run([Start(cfg)], []);
    } else {
      run := FillReturning(cfg, m - 1);
      run := Extend(cfg, run, Check);
      RunKeeps(cfg, run, |run.steps|);
      run := SendNew(cfg, run);
    }
  }

  /** The users still in flight are as they were. */
  lemma OthersReturning(s: State, s': State, u: nat, user: User)
    requires AllReturning(s) && u < |s.gen.users| && s.tasks != [] && s'.tasks == s.tasks[1..]
    requires s'.gen.users == s.gen.users[u := user] && forall i :: 0 <= i < |s'.tasks| ==> s'.tasks[i] != u
    ensures forall i :: 0 <= i < |s'.tasks| ==> Returning(s', s'.tasks[i])
  {
    forall i | 0 <= i < |s'.tasks| ensures Returning(s', s'.tasks[i]) {
      assert s'.tasks[i] == s.tasks[i + 1];
      assert Returning(s, s.tasks[i + 1]);
    }
  }

  /** The first user is back, its completion not yet counted. */
  lemma FirstPushed(cfg: Config) returns (run: Run, u: nat)
    requires |cfg.cumulative| >= 2 && cfg.maxParallel >= 1
    ensures ValidRun(cfg, run) && Last(run).sender.Sleeping? && Last(run).handler.Pushed? && Last(run).responses == []
    ensures var s := Last(run);
      && s.sent == cfg.maxParallel && s.completed == 0
      && s.gen.queue == [u] && u < |s.gen.users| && s.gen.users[u].start == 1.0
      && forall i :: 0 <= i < |s.tasks| ==> Returning(s, s.tasks[i])
  {
    run := FillReturning(cfg, cfg.maxParallel);
    run := Extend(cfg, run, Check);
    ghost var before := Last(run);
    u := before.tasks[0];
    run := ReturnFirst(cfg, run, 1.0);
    RunKeeps(cfg, run, |run.steps|);
    ghost var s := Last(run);
    assert s.gen.queue == [u];
    TasksApart(cfg, s);
    OthersReturning(before, s, u, s.gen.users[u]);
  }

  /** The first user is back and counted. */
  lemma FirstBack(cfg: Config) returns (run: Run, u: nat)
    requires |cfg.cumulative| >= 2 && cfg.maxParallel >= 1
    ensures ValidRun(cfg, run) && Last(run).sender.Sleeping? && AllReturning(Last(run))
    ensures var s := Last(run);
      && s.sent == cfg.maxParallel && s.completed == 1
      && s.gen.queue == [u] && u < |s.gen.users| && s.gen.users[u].start == 1.0
  {
    run, u := FirstPushed(cfg);
    run := Extend(cfg, run, Load);
    run := Extend(cfg, run, Store);
  }

  /** A user in flight is not in the queue. */
  lemma TasksApart(cfg: Config, s: State)
    requires UsersOk(cfg, s)
    ensures forall i, k :: 0 <= i < |s.tasks| && 0 <= k < |s.gen.queue| ==> s.tasks[i] != s.gen.queue[k]
  {
    forall i, k | 0 <= i < |s.tasks| && 0 <= k < |s.gen.queue| ensures s.tasks[i] != s.gen.queue[k] {
      assert s.tasks[i] in s.tasks && s.gen.queue[k] in s.gen.queue;
    }
  }

  /** The second user comes back later, with a later start, and is put in front of the first. */
  lemma SecondInFront(cfg: Config) returns (run: Run)
    requires |cfg.cumulative| >= 2 && cfg.maxParallel >= 1
    ensures ValidRun(cfg, run) && OutOfOrder(Last(run).gen)
  {
    var u;
    run, u := FirstBack(cfg);
    run := Extend(cfg, run, Wake);
    run := Extend(cfg, run, Check);
    RunKeeps(cfg, run, |run.steps|);
    run := SendNew(cfg, run);
    run := Extend(cfg, run, Check);
    RunKeeps(cfg, run, |run.steps|);
    TasksApart(cfg, Last(run));
    ghost var s := Last(run);
    run := ReturnFirst(cfg, run, 2.0);
    assert Last(run).gen.queue == [s.tasks[0], u];
    assert Before(Last(run).gen, 1, 0);
  }

  // ----- Runs that cannot -----

  /** Without slots nobody is answered, and with one round nobody comes back. */
  lemma {:induction false} QueueEmpty(cfg: Config, run: Run, n: nat)
    requires ValidRun(cfg, run) && n <= |run.steps| && (cfg.maxParallel <= 0 || |cfg.cumulative| == 1)
    ensures run.states[n].gen.queue == []
  {
    if n > 0 {
      QueueEmpty(cfg, run, n - 1);
      RunKeeps(cfg, run, n - 1);
      QueueStaysEmpty(cfg, run.states[n - 1], run.steps[n - 1], run.states[n]);
    }
  }

  lemma QueueStaysEmpty(cfg: Config, s: State, step: Step, s': State)
    requires UsersOk(cfg, s) && CountsOk(cfg, s) && Moves(cfg, s, step, s') && s.gen.queue == []
    requires cfg.maxParallel <= 0 || |cfg.cumulative| == 1
    ensures s'.gen.queue == []
  {
  }

  ghost predicate CanGetOutOfOrder(cfg: Config) {
    exists run :: ValidRun(cfg, run) && OutOfOrder(Last(run).gen)
  }

  /** In some run the queue is out of order if and only if there is a slot and more than one round. */
  lemma DisorderPossibleExactly(cfg: Config)
    ensures CanGetOutOfOrder(cfg) <==> cfg.maxParallel >= 1 && |cfg.cumulative| >= 2
  {
    if cfg.maxParallel >= 1 && |cfg.cumulative| >= 2 {
      var run := SecondInFront(cfg);
    } else if run :| ValidRun(cfg, run) && OutOfOrder(Last(run).gen) {
      QueueEmpty(cfg, run, |run.steps|);
    }
  }
}
