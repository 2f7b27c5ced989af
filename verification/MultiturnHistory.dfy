/** What the dispatched payloads of the multi-turn workload say, over whole runs: the client's prompt,
    then by turns the answers it got and the sub-questions drawn for it. */
module MultiturnHistory {
  import opened Wrappers
  import opened Multiturn
  import opened MultiturnRun
  import opened Places
  import opened MultiturnSafety
  import opened MultiturnInvariant
  import opened MultiturnTheorems

  // ----- What happened, read off the steps -----

  /** The output the step brings for the client, if it ends its request with success. */
  function NewAnswer(s: State, step: Step, c: nat): seq<seq<int>> {
    if step.Finish? && step.success && step.i < |s.tasks| && s.tasks[step.i] == c then [step.output] else []
  }

  /** The step makes the client's next request, for which a sub-question is drawn. */
  predicate DrawsFor(cfg: Config, s: State, step: Step, c: nat) {
    && step.Requeue? && s.handler == Counted(c)
    && c < |cfg.total| && c < |s.round| && s.round[c] < cfg.total[c]
  }

  predicate Draws(cfg: Config, s: State, step: Step) {
    s.handler.Counted? && DrawsFor(cfg, s, step, s.handler.client)
  }

  /** The outputs of the client's successful requests among the first `n` steps. */
  ghost function Answers(run: Run, c: nat, n: nat): seq<seq<int>>
    requires n <= |run.steps| < |run.states|
  {
    if n == 0 then [] else Answers(run, c, n - 1) + NewAnswer(run.states[n - 1], run.steps[n - 1], c)
  }

  /** How many sub-questions the first `n` steps drew. */
  ghost function Drawn(cfg: Config, run: Run, n: nat): nat
    requires n <= |run.steps| < |run.states|
  {
    if n == 0 then 0 else Drawn(cfg, run, n - 1) + One(Draws(cfg, run.states[n - 1], run.steps[n - 1]))
  }

  /** The `k`-th sub-question drawn: they are taken from the end of the sampled list. */
  function SubQuestion(pool: seq<seq<int>>, k: nat): seq<int> {
    if k < |pool| then pool[|pool| - 1 - k] else []
  }

  /** The sub-questions drawn for the client among the first `n` steps. */
  ghost function Asks(cfg: Config, run: Run, c: nat, n: nat): seq<seq<int>>
    requires n <= |run.steps| < |run.states|
  {
    if n == 0 then []
    else
      var asked := if DrawsFor(cfg, run.states[n - 1], run.steps[n - 1], c)
                   then [SubQuestion(run.pool, Drawn(cfg, run, n - 1))] else [];
      Asks(cfg, run, c, n - 1) + asked
  }

  /** The prompt, then `k` answers each followed by a sub-question. */
  ghost function Text(prompt: seq<int>, answers: seq<seq<int>>, asks: seq<seq<int>>, k: nat): seq<int>
    requires k <= |answers| && k <= |asks|
  {
    if k == 0 then prompt else Text(prompt, answers, asks, k - 1) + answers[k - 1] + asks[k - 1]
  }

  lemma {:induction false} TextPrefix(prompt: seq<int>, answers: seq<seq<int>>, asks: seq<seq<int>>,
          answers': seq<seq<int>>, asks': seq<seq<int>>, k: nat)
    requires k <= |answers| && k <= |asks| && answers <= answers' && asks <= asks'
    ensures Text(prompt, answers', asks', k) == Text(prompt, answers, asks, k)
  {
    if k > 0 { TextPrefix(prompt, answers, asks, answers', asks', k - 1); }
  }

  // ----- The pool -----

  lemma {:induction false} PoolIs(cfg: Config, run: Run, n: nat)
    requires ValidRun(cfg, run) && n <= |run.steps|
    ensures Drawn(cfg, run, n) <= |run.pool|
    ensures run.states[n].pool == run.pool[..|run.pool| - Drawn(cfg, run, n)]
  {
    if n > 0 {
      PoolIs(cfg, run, n - 1);
      PoolMove(cfg, run.states[n - 1], run.steps[n - 1], run.states[n]);
    }
  }

  lemma PoolMove(cfg: Config, s: State, step: Step, s': State)
    requires Moves(cfg, s, step, s')
    ensures if Draws(cfg, s, step) then s.pool != [] && s'.pool == s.pool[..|s.pool| - 1] else s'.pool == s.pool
  {
    if step.Requeue? { RequeueRecords(cfg, s); }
  }

  // ----- One client -----

  function ReplyIn(rs: seq<Response>, c: nat): Option<seq<int>> {
    if rs == [] then None
    else if rs[0].client == c then (if rs[0].success then Some(rs[0].output) else None)
    else ReplyIn(rs[1..], c)
  }

  /** The client's answer if it has arrived but is not in its history yet. */
  function Reply(s: State, c: nat): Option<seq<int>> {
    if s.handler.Got? then ReplyIn([s.handler.response] + s.responses, c) else ReplyIn(s.responses, c)
  }

  lemma {:induction false} ReplyAbsent(rs: seq<Response>, c: nat)
    requires c !in ClientsOf(rs)
    ensures ReplyIn(rs, c) == None
  {
    if rs != [] {
      assert ClientsOf(rs)[0] in ClientsOf(rs);
      ClientsOfTail(rs);
      ReplyAbsent(rs[1..], c);
    }
  }

  lemma {:induction false} ReplySnoc(rs: seq<Response>, r: Response, c: nat)
    requires r.client == c ==> c !in ClientsOf(rs)
    ensures ReplyIn(rs + [r], c)
         == if r.client == c then (if r.success then Some(r.output) else None) else ReplyIn(rs, c)
  {
    if rs == [] {
      assert rs + [r] == [r] && [r][1..] == [];
    } else {
      assert ClientsOf(rs)[0] in ClientsOf(rs);
      ClientsOfTail(rs);
      ReplySnoc(rs[1..], r, c);
      assert (rs + [r])[1..] == rs[1..] + [r];
    }
  }

  /** What is known of the client's records, by where its request is. */
  ghost predicate TalkOk(prompt: seq<int>, place: Place, settling: bool, reply: Option<seq<int>>, round: nat,
          history: seq<int>, log: seq<seq<int>>, answers: seq<seq<int>>, asks: seq<seq<int>>) {
    var settled := place == Done || (place == Handling && settling);
    && |answers| == round + One(reply.Some?)
    && (reply.Some? ==> answers[round] == reply.value && place in {Replied, Handling})
    && (if settled then round == |asks| + 1 && reply == None else |asks| == round)
    && history == (if settled then Text(prompt, answers, asks, |asks|) + answers[|asks|]
                   else Text(prompt, answers, asks, round))
    && |log| <= |asks| + 1
    && forall k :: 0 <= k < |log| ==> log[k] == Text(prompt, answers, asks, k)
  }

  ghost predicate Talks(cfg: Config, s: State, c: nat, prompt: seq<int>, answers: seq<seq<int>>, asks: seq<seq<int>>)
    requires Bounded(cfg, s) && c < |cfg.total|
  {
    TalkOk(prompt, s.place[c], Settling(s, c), Reply(s, c), s.round[c], s.history[c], s.log[c], answers, asks)
  }

  /** The sub-question the step pops for the client. */
  function NewAsk(cfg: Config, s: State, step: Step, c: nat): seq<seq<int>> {
    if DrawsFor(cfg, s, step, c) && s.pool != [] then [s.pool[|s.pool| - 1]] else []
  }

  /** The replies on their way after the step. */
  lemma ReplyNext(cfg: Config, s: State, step: Step, c: nat)
    requires Placed(cfg, s) && Bounded(cfg, s) && Enabled(cfg, s, step) && !PopsEmptyPool(cfg, s, step)
    requires c < |cfg.total|
    ensures ReplyMoves(s, step, Next(cfg, s, step), c)
  {
    PlacedMover(cfg, s, step);
    match step
    case Finish(i, success, output) => ReplyFinish(cfg, s, i, success, output, c);
    case Get => assert [s.responses[0]] + s.responses[1..] == s.responses;
    case Record => ReplyHandled(cfg, s, c);
    case DropFailed => ReplyHandled(cfg, s, c);
    case Requeue => RequeueShape(cfg, s);
    case _ =>
  }

  lemma ReplyFinish(cfg: Config, s: State, i: nat, success: bool, output: seq<int>, c: nat)
    requires Placed(cfg, s) && Bounded(cfg, s) && Enabled(cfg, s, Finish(i, success, output)) && c < |cfg.total|
    ensures var s' := Next(cfg, s, Finish(i, success, output));
      Reply(s', c) == if s.tasks[i] == c then (if success then Some(output) else None) else Reply(s, c)
    ensures s.tasks[i] == c ==> Reply(s, c) == None
  {
    var r := Response(s.tasks[i], success, output);
    assert s.tasks[i] in s.tasks;
    assert s.place[s.tasks[i]] == Flying;
    if s.tasks[i] == c { ReplyAbsent(s.responses, c); }
    ReplySnoc(s.responses, r, c);
    if s.handler.Got? {
      var all := [s.handler.response] + s.responses;
      assert (all + [r])[1..] == s.responses + [r] && all[1..] == s.responses;
      assert [s.handler.response] + (s.responses + [r]) == all + [r];
      assert s.place[s.handler.response.client] == Handling;
    }
  }

  lemma ReplyHandled(cfg: Config, s: State, c: nat)
    requires Placed(cfg, s) && Bounded(cfg, s) && s.handler.Got? && c < |cfg.total|
    ensures var r, all := s.handler.response, [s.handler.response] + s.responses;
      if r.client == c then
        ReplyIn(all, c) == (if r.success then Some(r.output) else None) && ReplyIn(s.responses, c) == None
      else ReplyIn(all, c) == ReplyIn(s.responses, c)
  {
    var r, all := s.handler.response, [s.handler.response] + s.responses;
    assert all[1..] == s.responses;
    assert s.place[r.client] == Handling;
    if r.client == c { ReplyAbsent(s.responses, c); }
  }

  // ----- One step for one client -----

  lemma LogKept(prompt: seq<int>, log: seq<seq<int>>, answers: seq<seq<int>>, asks: seq<seq<int>>,
          answers': seq<seq<int>>, asks': seq<seq<int>>)
    requires |log| <= |asks| + 1 && |asks| <= |answers| && answers <= answers' && asks <= asks'
    requires forall k :: 0 <= k < |log| ==> k <= |asks| && log[k] == Text(prompt, answers, asks, k)
    ensures forall k :: 0 <= k < |log| ==> log[k] == Text(prompt, answers', asks', k)
  {
    forall k | 0 <= k < |log| ensures log[k] == Text(prompt, answers', asks', k) {
      TextPrefix(prompt, answers, asks, answers', asks', k);
    }
  }

  lemma TalkAnswered(prompt: seq<int>, place: Place, round: nat, history: seq<int>, log: seq<seq<int>>,
          answers: seq<seq<int>>, asks: seq<seq<int>>, output: seq<int>)
    requires place == Flying && TalkOk(prompt, place, false, None, round, history, log, answers, asks)
    ensures TalkOk(prompt, Replied, false, Some(output), round, history, log, answers + [output], asks)
  {
    LogKept(prompt, log, answers, asks, answers + [output], asks);
    TextPrefix(prompt, answers, asks, answers + [output], asks, round);
  }

  lemma TalkRecorded(prompt: seq<int>, round: nat, history: seq<int>, log: seq<seq<int>>,
          answers: seq<seq<int>>, asks: seq<seq<int>>, output: seq<int>)
    requires TalkOk(prompt, Handling, false, Some(output), round, history, log, answers, asks)
    ensures TalkOk(prompt, Handling, true, None, round + 1, history + output, log, answers, asks)
  {
  }

  lemma TalkAsked(prompt: seq<int>, place: Place, round: nat, history: seq<int>, log: seq<seq<int>>,
          answers: seq<seq<int>>, asks: seq<seq<int>>, q: seq<int>)
    requires TalkOk(prompt, Handling, true, None, round, history, log, answers, asks) && place in {Ready, Parked}
    ensures TalkOk(prompt, place, false, None, round, history + q, log, answers, asks + [q])
  {
    LogKept(prompt, log, answers, asks, answers, asks + [q]);
    TextPrefix(prompt, answers, asks, answers, asks + [q], |asks|);
    assert (asks + [q])[|asks|] == q;
  }

  lemma TalkSpawned(prompt: seq<int>, round: nat, history: seq<int>, log: seq<seq<int>>,
          answers: seq<seq<int>>, asks: seq<seq<int>>)
    requires TalkOk(prompt, Held, false, None, round, history, log, answers, asks) && |log| == round
    ensures TalkOk(prompt, Flying, false, None, round, history, log + [history], answers, asks)
  {
  }

  /** What the step does to the client's reply. */
  ghost predicate ReplyMoves(s: State, step: Step, s': State, c: nat) {
    && (Reply(s', c) ==
        if step.Finish? && step.i < |s.tasks| && s.tasks[step.i] == c then
          (if step.success then Some(step.output) else None)
        else if (step.Record? || step.DropFailed?) && s.handler.Got? && s.handler.response.client == c then None
        else Reply(s, c))
    && (step.Finish? && step.i < |s.tasks| && s.tasks[step.i] == c ==> Reply(s, c) == None)
    && (step.Record? && s.handler.Got? && s.handler.response.client == c ==>
          Reply(s, c) == Some(s.handler.response.output))
    && (step.DropFailed? && s.handler.Got? && s.handler.response.client == c ==> Reply(s, c) == None)
  }

  lemma TalkSender(cfg: Config, s: State, step: Step, c: nat, prompt: seq<int>, answers: seq<seq<int>>,
          asks: seq<seq<int>>)
    requires Bounded(cfg, s) && Enabled(cfg, s, step) && !HandlerStep(step) && MoverOk(cfg, s, step)
    requires c < |cfg.total| && ClientOk(cfg, s, c) && Talks(cfg, s, c, prompt, answers, asks)
    requires Bounded(cfg, Next(cfg, s, step)) && ReplyMoves(s, step, Next(cfg, s, step), c)
    ensures Talks(cfg, Next(cfg, s, step), c, prompt, answers + NewAnswer(s, step, c), asks + NewAsk(cfg, s, step, c))
  {
    assert answers + [] == answers && asks + [] == asks;
    var round, history, log := s.round[c], s.history[c], s.log[c];
    if step.Finish? && step.success && s.tasks[step.i] == c {
      TalkAnswered(prompt, s.place[c], round, history, log, answers, asks, step.output);
    } else if step.Spawn? && s.sender.client == c {
      TalkSpawned(prompt, round, history, log, answers, asks);
    }
  }

  lemma TalkHandler(cfg: Config, s: State, step: Step, c: nat, prompt: seq<int>, answers: seq<seq<int>>,
          asks: seq<seq<int>>)
    requires Bounded(cfg, s) && Enabled(cfg, s, step) && HandlerStep(step) && !step.Requeue? && MoverOk(cfg, s, step)
    requires c < |cfg.total| && ClientOk(cfg, s, c) && Talks(cfg, s, c, prompt, answers, asks)
    requires Bounded(cfg, Next(cfg, s, step)) && ReplyMoves(s, step, Next(cfg, s, step), c)
    ensures Talks(cfg, Next(cfg, s, step), c, prompt, answers + NewAnswer(s, step, c), asks + NewAsk(cfg, s, step, c))
  {
    assert answers + [] == answers && asks + [] == asks;
    if step.Record? && s.handler.response.client == c {
      TalkRecorded(prompt, s.round[c], s.history[c], s.log[c], answers, asks, s.handler.response.output);
    }
  }

  /** Whatever the step, the client's records stay what was said, with the step's answer and sub-question added. */
  lemma TalkNext(cfg: Config, s: State, step: Step, c: nat, prompt: seq<int>, answers: seq<seq<int>>,
          asks: seq<seq<int>>)
    requires Placed(cfg, s) && Bounded(cfg, s) && Enabled(cfg, s, step) && !PopsEmptyPool(cfg, s, step)
    requires c < |cfg.total| && ClientOk(cfg, s, c) && Talks(cfg, s, c, prompt, answers, asks)
    ensures Bounded(cfg, Next(cfg, s, step))
    ensures Talks(cfg, Next(cfg, s, step), c, prompt, answers + NewAnswer(s, step, c), asks + NewAsk(cfg, s, step, c))
  {
    BoundedNext(cfg, s, step);
    PlacedMover(cfg, s, step);
    ReplyNext(cfg, s, step, c);
    if step.Requeue? {
      TalkRequeue(cfg, s, step, c, prompt, answers, asks);
    } else if HandlerStep(step) {
      TalkHandler(cfg, s, step, c, prompt, answers, asks);
    } else {
      TalkSender(cfg, s, step, c, prompt, answers, asks);
    }
  }

  /** The client whose turn it is gets a sub-question or is done. */
  lemma TalkOwnRequeue(cfg: Config, s: State, c: nat, prompt: seq<int>, answers: seq<seq<int>>, asks: seq<seq<int>>)
    requires Bounded(cfg, s) && Enabled(cfg, s, Requeue) && !PopsEmptyPool(cfg, s, Requeue) && MoverOk(cfg, s, Requeue)
    requires c < |cfg.total| && s.handler.client == c && Talks(cfg, s, c, prompt, answers, asks)
    requires Bounded(cfg, Next(cfg, s, Requeue)) && Reply(Next(cfg, s, Requeue), c) == Reply(s, c)
    ensures Talks(cfg, Next(cfg, s, Requeue), c, prompt, answers, asks + NewAsk(cfg, s, Requeue, c))
  {
    RequeueShape(cfg, s);
    RequeueRecords(cfg, s);
    if s.round[c] < cfg.total[c] {
      var place := Next(cfg, s, Requeue).place[c];
      TalkAsked(prompt, place, s.round[c], s.history[c], s.log[c], answers, asks, s.pool[|s.pool| - 1]);
    } else {
      assert asks + [] == asks;
    }
  }

  lemma TalkRequeue(cfg: Config, s: State, step: Step, c: nat, prompt: seq<int>, answers: seq<seq<int>>,
          asks: seq<seq<int>>)
    requires Bounded(cfg, s) && Enabled(cfg, s, step) && !PopsEmptyPool(cfg, s, step) && MoverOk(cfg, s, step)
    requires step.Requeue? && c < |cfg.total| && Talks(cfg, s, c, prompt, answers, asks)
    requires Bounded(cfg, Next(cfg, s, step)) && Reply(Next(cfg, s, step), c) == Reply(s, c)
    ensures Talks(cfg, Next(cfg, s, step), c, prompt, answers + NewAnswer(s, step, c), asks + NewAsk(cfg, s, step, c))
  {
    assert answers + [] == answers;
    if s.handler.client == c {
      TalkOwnRequeue(cfg, s, c, prompt, answers, asks);
    } else {
      RequeueShape(cfg, s);
      RequeueRecords(cfg, s);
      assert asks + [] == asks;
    }
  }

  // ----- Whole runs -----

  lemma TalkMove(cfg: Config, s: State, step: Step, s': State, c: nat, pool0: nat, prompt: seq<int>,
          answers: seq<seq<int>>, asks: seq<seq<int>>)
    requires Inv(cfg, s, pool0) && Moves(cfg, s, step, s') && c < |cfg.total| && Talks(cfg, s, c, prompt, answers, asks)
    ensures Bounded(cfg, s')
    ensures Talks(cfg, s', c, prompt, answers + NewAnswer(s, step, c), asks + NewAsk(cfg, s, step, c))
  {
    assert ClientOk(cfg, s, c);
    TalkNext(cfg, s, step, c, prompt, answers, asks);
  }

  ghost predicate TalksAt(cfg: Config, run: Run, c: nat, n: nat)
    requires n <= |run.steps| < |run.states| && c < |cfg.total| == |run.prompts|
  {
    && Bounded(cfg, run.states[n])
    && Talks(cfg, run.states[n], c, run.prompts[c], Answers(run, c, n), Asks(cfg, run, c, n))
  }

  lemma TalksInitially(cfg: Config, run: Run, c: nat)
    requires ValidConfig(cfg) && ValidRun(cfg, run) && c < |cfg.total|
    ensures TalksAt(cfg, run, c, 0)
  {
    RunKeepsInv(cfg, run, 0);
  }

  lemma {:induction false} RunTalks(cfg: Config, run: Run, c: nat, n: nat)
    requires ValidConfig(cfg) && ValidRun(cfg, run) && n <= |run.steps| && c < |cfg.total|
    ensures TalksAt(cfg, run, c, n)
  {
    if n == 0 {
      TalksInitially(cfg, run, c);
    } else {
      RunTalks(cfg, run, c, n - 1);
      RunKeepsInv(cfg, run, n - 1);
      TalkMove(cfg, run.states[n - 1], run.steps[n - 1], run.states[n], c, |run.pool|, run.prompts[c],
               Answers(run, c, n - 1), Asks(cfg, run, c, n - 1));
      NewAskIs(cfg, run, c, n);
    }
  }

  /** The sub-question the step pops is the next one from the end of the sampled list. */
  lemma NewAskIs(cfg: Config, run: Run, c: nat, n: nat)
    requires ValidRun(cfg, run) && 0 < n <= |run.steps|
    ensures Asks(cfg, run, c, n) == Asks(cfg, run, c, n - 1) + NewAsk(cfg, run.states[n - 1], run.steps[n - 1], c)
  {
    PoolIs(cfg, run, n - 1);
    AskFromPool(cfg, run.pool, run.states[n - 1], run.steps[n - 1], run.states[n], c, Drawn(cfg, run, n - 1));
  }

  lemma AskFromPool(cfg: Config, pool0: seq<seq<int>>, s: State, step: Step, s': State, c: nat, drawn: nat)
    requires Moves(cfg, s, step, s') && drawn <= |pool0| && s.pool == pool0[..|pool0| - drawn]
    ensures NewAsk(cfg, s, step, c) == if DrawsFor(cfg, s, step, c) then [SubQuestion(pool0, drawn)] else []
  {
    PoolMove(cfg, s, step, s');
    LastInPool(pool0, s.pool, drawn);
  }

  lemma LastInPool(pool0: seq<seq<int>>, pool: seq<seq<int>>, drawn: nat)
    requires drawn <= |pool0| && pool == pool0[..|pool0| - drawn]
    ensures pool != [] ==> pool[|pool| - 1] == SubQuestion(pool0, drawn)
  {
  }

  lemma TextsChain(prompt: seq<int>, log: seq<seq<int>>, answers: seq<seq<int>>, asks: seq<seq<int>>)
    requires |log| <= |answers| + 1 && |log| <= |asks| + 1
    requires forall k :: 0 <= k < |log| ==> log[k] == Text(prompt, answers, asks, k)
    ensures log != [] ==> log[0] == prompt
    ensures forall k :: 0 <= k < |log| - 1 ==> log[k + 1] == log[k] + answers[k] + asks[k]
  {
  }

  /** What is sent: the client's first payload is its prompt, and each later one is the payload before,
      the answer to it and the sub-question drawn next for the client. */
  lemma PayloadsAre(cfg: Config, run: Run, c: nat, n: nat)
    requires ValidConfig(cfg) && ValidRun(cfg, run) && n <= |run.steps| && c < |cfg.total|
    ensures Bounded(cfg, run.states[n])
    ensures var log, answers, asks := run.states[n].log[c], Answers(run, c, n), Asks(cfg, run, c, n);
      && |log| <= |answers| + 1 && |log| <= |asks| + 1
      && (log != [] ==> log[0] == run.prompts[c])
      && forall k :: 0 <= k < |log| - 1 ==> log[k + 1] == log[k] + answers[k] + asks[k]
  {
    RunTalks(cfg, run, c, n);
    TextsChain(run.prompts[c], run.states[n].log[c], Answers(run, c, n), Asks(cfg, run, c, n));
  }
}
