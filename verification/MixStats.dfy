/** The statistics of the mixed workload over whole runs: what was counted in each round, and what
    is known of each user, read off the steps. */
module MixStats {
  import opened Places
  import opened Mix
  import opened MixRun
  import opened MixTheorems

  // ----- What the steps did -----

  /** The step makes a new user: nobody waits whose start has passed. */
  predicate Creates(s: State, step: Step) {
    && step.Pop?
    && !(s.gen.queue != [] && s.gen.queue[0] < |s.gen.users| && step.now > s.gen.users[s.gen.queue[0]].start)
  }

  /** The step brings the user back after an answer. */
  predicate Brings(s: State, step: Step, u: nat) {
    step.PushBack? && s.handler.Got? && s.handler.response.user == u && u < |s.gen.users|
  }

  /** Tokens and requests that entered a round, and that were answered in it. */
  datatype Stat = Stat(inTokens: int, inCount: int, outTokens: int, outCount: int)

  function Plus(a: Stat, b: Stat): Stat {
    Stat(a.inTokens + b.inTokens, a.inCount + b.inCount, a.outTokens + b.outTokens, a.outCount + b.outCount)
  }

  /** What the step adds to round `r`: a new user enters round 0; an answered one leaves its round and,
      if it has another, enters that. */
  function Change(s: State, step: Step, r: nat): Stat {
    if Creates(s, step) then
      if r == 0 then Stat(step.promptLen, 1, 0, 0) else Stat(0, 0, 0, 0)
    else if step.PushBack? && s.handler.Got? && Brings(s, step, s.handler.response.user) then
      var user := s.gen.users[s.handler.response.user];
      if r == user.currentRound then Stat(0, 0, s.handler.response.lenItl + 1, 1)
      else if r == user.currentRound + 1 < user.totalRounds then Stat(step.promptLen, 1, 0, 0)
      else Stat(0, 0, 0, 0)
    else Stat(0, 0, 0, 0)
  }

  ghost function Changes(run: Run, r: nat, n: nat): Stat
    requires n <= |run.steps| < |run.states|
  {
    if n == 0 then Stat(0, 0, 0, 0) else Plus(Changes(run, r, n - 1), Change(run.states[n - 1], run.steps[n - 1], r))
  }

  /** The values drawn for the users, in the order they were made. */
  ghost function Draws(run: Run, n: nat): seq<int>
    requires n <= |run.steps| < |run.states|
  {
    if n == 0 then []
    else Draws(run, n - 1) + (if Creates(run.states[n - 1], run.steps[n - 1]) then [run.steps[n - 1].drawn] else [])
  }

  /** How often the user came back. */
  ghost function Returns(run: Run, u: nat, n: nat): nat
    requires n <= |run.steps| < |run.states|
  {
    if n == 0 then 0
    else Returns(run, u, n - 1) + (if Brings(run.states[n - 1], run.steps[n - 1], u) then 1 else 0)
  }

  /** How many users have that many rounds. */
  function WithRounds(users: seq<User>, rounds: nat): nat {
    if users == [] then 0
    else WithRounds(users[..|users| - 1], rounds) + (if users[|users| - 1].totalRounds == rounds then 1 else 0)
  }

  // ----- One step -----

  function StatOf(g: Gen, r: nat): Stat
    requires r < |g.inputTokens| && r < |g.inputCount| && r < |g.outputTokens| && r < |g.outputCount|
  {
    Stat(g.inputTokens[r], g.inputCount[r], g.outputTokens[r], g.outputCount[r])
  }

  lemma StatMove(cfg: Config, s: State, step: Step, s': State, r: nat)
    requires UsersOk(cfg, s) && UsersOk(cfg, s') && Moves(cfg, s, step, s') && r < |cfg.cumulative|
    ensures StatOf(s'.gen, r) == Plus(StatOf(s.gen, r), Change(s, step, r))
  {
    if Creates(s, step) {
      GenerateStat(s.gen, cfg.cumulative, step.drawn, step.promptLen, r);
    } else if step.PushBack? {
      PushStat(cfg, s, step, r);
    }
  }

  lemma GenerateStat(g: Gen, cumulative: seq<int>, drawn: int, promptLen: int, r: nat)
    requires cumulative != [] && Shaped(g, |cumulative|) && r < |cumulative|
    ensures var more := if r == 0 then Stat(promptLen, 1, 0, 0) else Stat(0, 0, 0, 0);
      StatOf(Generate(g, cumulative, drawn, promptLen), r) == Plus(StatOf(g, r), more)
  {
  }

  lemma PushStat(cfg: Config, s: State, step: Step, r: nat)
    requires UsersOk(cfg, s) && step.PushBack? && Enabled(s, step) && r < |cfg.cumulative|
    ensures var g' := Next(cfg, s, step).gen;
      && r < |g'.inputTokens| && r < |g'.inputCount| && r < |g'.outputTokens| && r < |g'.outputCount|
      && StatOf(g', r) == Plus(StatOf(s.gen, r), Change(s, step, r))
  {
    var u := s.handler.response.user;
    assert s.place[u] == InHand && RoundOk(s.gen.users[u], s.place[u]);
  }

  lemma {:induction false} WithRoundsUpdate(users: seq<User>, u: nat, user: User, rounds: nat)
    requires u < |users| && user.totalRounds == users[u].totalRounds
    ensures WithRounds(users[u := user], rounds) == WithRounds(users, rounds)
  {
    var n := |users| - 1;
    if u == n {
      assert users[u := user][..n] == users[..n];
    } else {
      WithRoundsUpdate(users[..n], u, user, rounds);
      assert users[u := user][..n] == users[..n][u := user];
    }
  }

  lemma UserMove(cfg: Config, s: State, step: Step, s': State)
    requires UsersOk(cfg, s) && Moves(cfg, s, step, s')
    ensures Creates(s, step) ==>
      s'.gen.users == s.gen.users + [User(|s.gen.users|, 0, RoundsFor(cfg.cumulative, step.drawn), 0.0)]
    ensures !Creates(s, step) ==> |s'.gen.users| == |s.gen.users|
    ensures !Creates(s, step) ==> forall u :: 0 <= u < |s.gen.users| ==>
      && s'.gen.users[u].totalRounds == s.gen.users[u].totalRounds
      && s'.gen.users[u].currentRound == s.gen.users[u].currentRound + (if Brings(s, step, u) then 1 else 0)
  {
  }

  lemma DrawnMove(cfg: Config, s: State, step: Step, s': State, r: nat)
    requires UsersOk(cfg, s) && UsersOk(cfg, s') && Moves(cfg, s, step, s') && r < |cfg.cumulative|
    requires s.gen.userStats[r] == WithRounds(s.gen.users, r + 1)
    ensures s'.gen.userStats[r] == WithRounds(s'.gen.users, r + 1)
  {
    if Creates(s, step) {
      assert s'.gen.users[..|s.gen.users|] == s.gen.users;
    } else if step.PushBack? {
      DrawnPush(cfg, s, step, r);
    }
  }

  lemma DrawnPush(cfg: Config, s: State, step: Step, r: nat)
    requires UsersOk(cfg, s) && step.PushBack? && Enabled(s, step) && r < |cfg.cumulative|
    ensures var g' := Next(cfg, s, step).gen;
      g'.userStats == s.gen.userStats && WithRounds(g'.users, r + 1) == WithRounds(s.gen.users, r + 1)
  {
    var u, users := s.handler.response.user, Next(cfg, s, step).gen.users;
    assert s.place[u] == InHand && RoundOk(s.gen.users[u], s.place[u]);
    WithRoundsUpdate(s.gen.users, u, users[u], r + 1);
    assert users == s.gen.users[u := users[u]];
  }

  // ----- Whole runs -----

  lemma {:induction false} RunStats(cfg: Config, run: Run, r: nat, n: nat)
    requires ValidRun(cfg, run) && n <= |run.steps| && r < |cfg.cumulative|
    ensures UsersOk(cfg, run.states[n])
    ensures StatOf(run.states[n].gen, r) == Changes(run, r, n)
    ensures run.states[n].gen.userStats[r] == WithRounds(run.states[n].gen.users, r + 1)
  {
    RunKeeps(cfg, run, n);
    if n > 0 {
      RunStats(cfg, run, r, n - 1);
      StatMove(cfg, run.states[n - 1], run.steps[n - 1], run.states[n], r);
      DrawnMove(cfg, run.states[n - 1], run.steps[n - 1], run.states[n], r);
    }
  }

  /** Each round's statistics are the sums over the steps of the run, and `user_stats[r]` is the number of
      users with `r + 1` rounds. */
  lemma StatsAre(cfg: Config, run: Run, r: nat, n: nat)
    requires ValidRun(cfg, run) && n <= |run.steps| && r < |cfg.cumulative|
    ensures UsersOk(cfg, run.states[n])
    ensures var g, sums := run.states[n].gen, Changes(run, r, n);
      && g.inputTokens[r] == sums.inTokens && g.inputCount[r] == sums.inCount
      && g.outputTokens[r] == sums.outTokens && g.outputCount[r] == sums.outCount
      && g.userStats[r] == WithRounds(g.users, r + 1)
  {
    RunStats(cfg, run, r, n);
  }

  /** Each user has the rounds drawn for it and is in the round it came back to. */
  lemma {:induction false} UsersAre(cfg: Config, run: Run, n: nat)
    requires ValidRun(cfg, run) && n <= |run.steps|
    ensures var users, draws := run.states[n].gen.users, Draws(run, n);
      && |users| == |draws|
      && forall u :: 0 <= u < |users| ==>
           users[u].totalRounds == RoundsFor(cfg.cumulative, draws[u]) && users[u].currentRound == Returns(run, u, n)
    ensures forall u :: u >= |run.states[n].gen.users| ==> Returns(run, u, n) == 0
  {
    RunKeeps(cfg, run, n);
    if n > 0 {
      UsersAre(cfg, run, n - 1);
      RunKeeps(cfg, run, n - 1);
      UserMove(cfg, run.states[n - 1], run.steps[n - 1], run.states[n]);
    }
  }

  // ----- Responses and the test -----

  function AnsweredBy(s: State, step: Step): seq<Response> {
    if step.Respond? && step.i < |s.tasks| then [Response(s.tasks[step.i], step.success, step.lenItl)] else []
  }

  function HandledBy(s': State, step: Step): seq<Response> {
    if step.Get? && s'.handler.Got? then [s'.handler.response] else []
  }

  ghost function AllAnswered(run: Run, n: nat): seq<Response>
    requires n <= |run.steps| < |run.states|
  {
    if n == 0 then [] else AllAnswered(run, n - 1) + AnsweredBy(run.states[n - 1], run.steps[n - 1])
  }

  ghost function AllHandled(run: Run, n: nat): seq<Response>
    requires n <= |run.steps| < |run.states|
  {
    if n == 0 then [] else AllHandled(run, n - 1) + HandledBy(run.states[n], run.steps[n - 1])
  }

  lemma ResponseMove(cfg: Config, s: State, step: Step, s': State)
    requires Moves(cfg, s, step, s')
    ensures s.responses + AnsweredBy(s, step) == HandledBy(s', step) + s'.responses
  {
    if step.Get? { assert s.responses == [s.responses[0]] + s.responses[1..]; }
  }

  /** Responses are handled in the order the requests end, each as it came. */
  lemma {:induction false} ResponsesInOrder(cfg: Config, run: Run, n: nat)
    requires ValidRun(cfg, run) && n <= |run.steps|
    ensures AllAnswered(run, n) == AllHandled(run, n) + run.states[n].responses
  {
    if n > 0 {
      var s, step, s' := run.states[n - 1], run.steps[n - 1], run.states[n];
      ResponsesInOrder(cfg, run, n - 1);
      ResponseMove(cfg, s, step, s');
      Shift(AllAnswered(run, n - 1), AllHandled(run, n - 1), s.responses, AnsweredBy(s, step), HandledBy(s', step),
            s'.responses);
    }
  }

  /** The sender's test counts, beside the requests that are open, every failed response so far and every
      completion the shared counter lost; it passes exactly if these are fewer than `maxParallel`. */
  lemma TestExactly(cfg: Config, run: Run, n: nat)
    requires ValidRun(cfg, run) && n <= |run.steps| && run.states[n].sender.Checking?
    ensures UsersOk(cfg, run.states[n])
    ensures var s := run.states[n];
      var open := |s.tasks| + |s.responses| + One(!s.handler.Waiting?);
      Next(cfg, s, Check).sender
        == if open + s.dropped + (s.done - s.completed) < cfg.maxParallel then Cleared else Sleeping
  {
    RunKeeps(cfg, run, n);
  }
}
