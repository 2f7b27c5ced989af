/** The invariant of the multi-turn workload, client by client and in total. */
module MultiturnInvariant {
  import opened Sums
  import opened Multiturn
  import opened MultiturnRun
  import opened Places
  import opened MultiturnSafety

  /** The handler has recorded this client's success but not yet made its next request. */
  predicate Settling(s: State, c: nat) {
    (s.handler.Recorded? || s.handler.Counted?) && s.handler.client == c
  }

  predicate Growing(payloads: seq<seq<int>>) {
    forall i, j :: 0 <= i < j < |payloads| ==> payloads[i] <= payloads[j]
  }

  /** Rounds, sub-questions and dispatched payloads of one client. */
  ghost predicate RecordOk(total: nat, place: Place, settling: bool, round: nat, used: nat, log: seq<seq<int>>,
          history: seq<int>) {
    var outstanding := place in {Flying, Replied, Lost} || (place == Handling && !settling);
    var settled := place == Done || (place == Handling && settling);
    && (if place == Done then round == total else if settled then 1 <= round <= total else round < total)
    && used + (if settled then 1 else 0) == round
    && |log| == round + (if outstanding then 1 else 0)
    && Growing(log)
    && (log != [] ==> log[|log| - 1] <= history)
    && (outstanding ==> log[|log| - 1] == history)
  }

  ghost predicate ClientOk(cfg: Config, s: State, c: nat)
    requires Bounded(cfg, s) && c < |cfg.total|
  {
    RecordOk(cfg.total[c], s.place[c], Settling(s, c), s.round[c], s.used[c], s.log[c], s.history[c])
  }

  /** The client a step moves is where the step expects it. */
  ghost predicate MoverOk(cfg: Config, s: State, step: Step)
    requires Bounded(cfg, s) && Enabled(cfg, s, step)
  {
    && (forall c :: 0 <= c < |s.place| && s.place[c] == Handling ==> InHand(s.handler) == c)
    && match step
       case Pop(i) => s.place[s.ready[i]] == Ready
       case Spawn => s.place[s.sender.client] == Held
       case Finish(i, _, _) => s.place[s.tasks[i]] == Flying
       case Get => s.place[s.responses[0].client] == Replied
       case DropFailed => s.place[s.handler.response.client] == Handling
       case Record => s.place[s.handler.response.client] == Handling
       case Complete => s.place[s.handler.client] == Handling
       case Requeue => s.place[s.handler.client] == Handling
       case Release => s.place[s.next[s.handler.k]] == Parked
       case _ => true
  }

  lemma PlacedMover(cfg: Config, s: State, step: Step)
    requires Placed(cfg, s) && Bounded(cfg, s) && Enabled(cfg, s, step)
    ensures MoverOk(cfg, s, step)
  {
    match step
    case Pop(i) => assert s.ready[i] in s.ready;
    case Finish(i, _, _) => assert s.tasks[i] in s.tasks;
    case Get => assert ClientsOf(s.responses)[0] in ClientsOf(s.responses);
    case Release => assert s.next[s.handler.k] == StillParked(s)[0] && StillParked(s)[0] in StillParked(s);
    case _ =>
  }

  lemma ClientOkHandler(cfg: Config, s: State, step: Step, c: nat)
    requires Bounded(cfg, s) && Enabled(cfg, s, step) && HandlerStep(step) && !step.Requeue? && MoverOk(cfg, s, step)
    requires c < |cfg.total| && ClientOk(cfg, s, c)
    ensures Bounded(cfg, Next(cfg, s, step)) ==> ClientOk(cfg, Next(cfg, s, step), c)
  {
  }

  lemma ClientOkRequeue(cfg: Config, s: State, c: nat)
    requires Bounded(cfg, s) && Enabled(cfg, s, Requeue) && !PopsEmptyPool(cfg, s, Requeue) && MoverOk(cfg, s, Requeue)
    requires c < |cfg.total| && ClientOk(cfg, s, c)
    ensures Bounded(cfg, Next(cfg, s, Requeue)) ==> ClientOk(cfg, Next(cfg, s, Requeue), c)
  {
    RequeueShape(cfg, s);
    RequeueRecords(cfg, s);
    assert InHand(Next(cfg, s, Requeue).handler) == -1;
  }

  lemma RequeueRecords(cfg: Config, s: State)
    requires Bounded(cfg, s) && Enabled(cfg, s, Requeue) && !PopsEmptyPool(cfg, s, Requeue)
    ensures var s', c := Next(cfg, s, Requeue), s.handler.client;
            && s'.round == s.round && s'.log == s.log && s'.sent == s.sent && s'.completed == s.completed
            && (if s.round[c] < cfg.total[c]
                then && s'.pool == s.pool[..|s.pool| - 1]
                     && s'.history == s.history[c := s.history[c] + s.pool[|s.pool| - 1]]
                     && s'.used == s.used[c := s.used[c] + 1]
                else s'.pool == s.pool && s'.history == s.history && s'.used == s.used)
  {
  }

  lemma ClientOkNext(cfg: Config, s: State, step: Step, c: nat)
    requires Placed(cfg, s) && Bounded(cfg, s) && Enabled(cfg, s, step) && !PopsEmptyPool(cfg, s, step)
    requires c < |cfg.total| && ClientOk(cfg, s, c)
    ensures Bounded(cfg, Next(cfg, s, step)) && ClientOk(cfg, Next(cfg, s, step), c)
  {
    BoundedNext(cfg, s, step);
    PlacedMover(cfg, s, step);
    if step.Requeue? {
      ClientOkRequeue(cfg, s, c);
    } else if HandlerStep(step) {
      ClientOkHandler(cfg, s, step, c);
    } else {
    }
  }

  // ----- Totals -----

  function SubQuestions(total: seq<nat>): seq<int> {
    seq(|total|, c requires 0 <= c < |total| => if total[c] > 0 then total[c] - 1 else 0)
  }

  function Lengths(log: seq<seq<seq<int>>>): seq<int> {
    seq(|log|, c requires 0 <= c < |log| => |log[c]|)
  }

  /** The sender has passed its test but not yet increased `sent_requests`. */
  predicate Committed(sender: Sender) {
    sender.Cleared? || sender.Holding? || sender.Spawned?
  }

  /** `pool0` sub-questions were sampled; every counter accounts for every request. */
  ghost predicate TotalsOk(cfg: Config, s: State, pool0: nat) {
    && Sum(s.used) + |s.pool| == pool0
    && s.sent + One(s.sender.Spawned?) == Sum(Lengths(s.log))
    && s.sent + One(s.sender.Spawned?)
         == s.completed + |s.tasks| + |s.responses| + One(s.handler.Got? || s.handler.Recorded?)
    && (s.sender.Spawned? ==> s.tasks != [])
    && s.sent + One(Committed(s.sender)) - s.completed <= (if cfg.maxParallel > 0 then cfg.maxParallel else 0)
  }

  lemma LengthsUpdate(log: seq<seq<seq<int>>>, c: nat, l: seq<seq<int>>)
    requires c < |log|
    ensures Lengths(log[c := l]) == Lengths(log)[c := |l|]
  {
  }

  lemma TotalsSpawn(cfg: Config, s: State, pool0: nat)
    requires Bounded(cfg, s) && Enabled(cfg, s, Spawn) && TotalsOk(cfg, s, pool0)
    ensures TotalsOk(cfg, Next(cfg, s, Spawn), pool0)
  {
    var c := s.sender.client;
    LengthsUpdate(s.log, c, s.log[c] + [s.history[c]]);
    SumUpdate(Lengths(s.log), c, |s.log[c]| + 1);
  }

  /** A sub-question moves from the pool to the client, or nothing moves. */
  lemma RequeuePool(cfg: Config, s: State)
    requires Bounded(cfg, s) && Enabled(cfg, s, Requeue) && !PopsEmptyPool(cfg, s, Requeue)
    ensures var s' := Next(cfg, s, Requeue);
      Sum(s'.used) + |s'.pool| == Sum(s.used) + |s.pool|
  {
    RequeueRecords(cfg, s);
    SumUpdate(s.used, s.handler.client, s.used[s.handler.client] + 1);
  }

  lemma TotalsSame(cfg: Config, s: State, s': State, pool0: nat)
    requires TotalsOk(cfg, s, pool0) && Sum(s'.used) + |s'.pool| == Sum(s.used) + |s.pool|
    requires s'.log == s.log && s'.sent == s.sent && s'.completed == s.completed && s'.sender == s.sender
    requires s'.tasks == s.tasks && s'.responses == s.responses
    requires !s.handler.Got? && !s.handler.Recorded? && !s'.handler.Got? && !s'.handler.Recorded?
    ensures TotalsOk(cfg, s', pool0)
  {
  }

  lemma TotalsRequeue(cfg: Config, s: State, pool0: nat)
    requires Bounded(cfg, s) && Enabled(cfg, s, Requeue) && !PopsEmptyPool(cfg, s, Requeue) && TotalsOk(cfg, s, pool0)
    ensures TotalsOk(cfg, Next(cfg, s, Requeue), pool0)
  {
    RequeueRecords(cfg, s);
    RequeueShape(cfg, s);
    RequeuePool(cfg, s);
    TotalsSame(cfg, s, Next(cfg, s, Requeue), pool0);
  }

  lemma TotalsNext(cfg: Config, s: State, step: Step, pool0: nat)
    requires Bounded(cfg, s) && Enabled(cfg, s, step) && !PopsEmptyPool(cfg, s, step) && TotalsOk(cfg, s, pool0)
    ensures TotalsOk(cfg, Next(cfg, s, step), pool0)
  {
    match step
    case Spawn => TotalsSpawn(cfg, s, pool0);
    case Requeue => TotalsRequeue(cfg, s, pool0);
    case _ =>
  }

  /** A sub-question is left whenever the handler needs one. */
  lemma PoolSuffices(cfg: Config, s: State, pool0: nat)
    requires Bounded(cfg, s) && TotalsOk(cfg, s, pool0) && pool0 >= Sum(SubQuestions(cfg.total))
    requires forall c :: 0 <= c < |cfg.total| ==> ClientOk(cfg, s, c)
    requires s.handler.Counted? && s.round[s.handler.client] < cfg.total[s.handler.client]
    requires s.place[s.handler.client] == Handling
    ensures s.pool != []
  {
    var need := SubQuestions(cfg.total);
    forall c | 0 <= c < |cfg.total| ensures s.used[c] <= need[c] && (c == s.handler.client ==> s.used[c] < need[c]) {
      assert ClientOk(cfg, s, c);
    }
    SumMonotone(s.used, need);
    assert s.used[s.handler.client] < need[s.handler.client];
  }
}
