/** The round barrier: while it is on, all live requests belong to one round. */
module MultiturnBarrier {
  import opened Multiturn
  import opened MultiturnRun
  import opened Places
  import opened MultiturnSafety
  import opened MultiturnInvariant

  /** How many of the first `n` clients take part in round `b` and have finished it. */
  function Finished(total: seq<nat>, round: seq<nat>, b: nat, n: nat): nat
    requires n <= |total| == |round|
  {
    if n == 0 then 0 else Finished(total, round, b, n - 1) + One(total[n - 1] > b && round[n - 1] > b)
  }

  lemma {:induction false} FinishedUpdate(total: seq<nat>, round: seq<nat>, b: nat, n: nat, c: nat)
    requires n <= |total| == |round| && c < |total| && total[c] > b && round[c] == b
    ensures Finished(total, round[c := b + 1], b, n) == Finished(total, round, b, n) + One(c < n)
  {
    if n > 0 { FinishedUpdate(total, round, b, n - 1, c); }
  }

  /** The count reaches the number of participants exactly when all of them have finished. */
  lemma {:induction false} FinishedAll(total: seq<nat>, round: seq<nat>, b: nat, n: nat)
    requires n <= |total| == |round|
    ensures Finished(total, round, b, n) <= Participants(total, b, n)
    ensures Finished(total, round, b, n) == Participants(total, b, n)
       <==> forall c :: 0 <= c < n && total[c] > b ==> round[c] > b
  {
    if n > 0 { FinishedAll(total, round, b, n - 1); }
  }

  lemma {:induction false} FinishedNone(total: seq<nat>, round: seq<nat>, b: nat, n: nat)
    requires n <= |total| == |round| && forall c :: 0 <= c < n ==> round[c] <= b
    ensures Finished(total, round, b, n) == 0
  {
    if n > 0 { FinishedNone(total, round, b, n - 1); }
  }

  lemma {:induction false} SomeParticipant(total: seq<nat>, b: nat, n: nat, c: nat)
    requires n <= |total| && c < n && total[c] > b
    ensures Participants(total, b, n) > 0
  {
    if c < n - 1 { SomeParticipant(total, b, n - 1, c); }
  }

  /** The round of one client relative to the barrier's round `b`. */
  predicate InRound(total: nat, place: Place, settling: bool, round: nat, b: nat, releasing: bool) {
    match place
    case Parked => round == b + 1
    case Done => total <= b + 1
    case Handling => round == b + One(settling)
    case _ => round == b + One(releasing)
  }

  ghost predicate ClientInRound(cfg: Config, s: State, c: nat)
    requires Bounded(cfg, s) && c < |cfg.total|
  {
    InRound(cfg.total[c], s.place[c], Settling(s, c), s.round[c], s.barrierRound, s.handler.Releasing?)
  }

  predicate AllFinished(cfg: Config, s: State)
    requires Bounded(cfg, s)
  {
    forall c :: 0 <= c < |cfg.total| && cfg.total[c] > s.barrierRound ==> s.round[c] > s.barrierRound
  }

  /** The barrier's own counters. */
  ghost predicate CountersOk(cfg: Config, s: State)
    requires Bounded(cfg, s)
  {
    var n := |cfg.total|;
    if s.handler.Releasing? then s.barrierRound < cfg.maxRounds && AllFinished(cfg, s)
    else
      && s.barrierCount + One(s.handler.Recorded? || s.handler.Counted?) ==
           Finished(cfg.total, s.round, s.barrierRound, n)
      && (s.barrierCount < Participants(cfg.total, s.barrierRound, n) ||
          Participants(cfg.total, s.barrierRound, n) == 0)
  }

  ghost predicate BarrierOk(cfg: Config, s: State)
    requires Bounded(cfg, s)
  {
    CountersOk(cfg, s) && forall c :: 0 <= c < |cfg.total| ==> ClientInRound(cfg, s, c)
  }

  lemma CountersRecord(cfg: Config, s: State)
    requires Bounded(cfg, s) && Enabled(cfg, s, Record) && BarrierOk(cfg, s) && MoverOk(cfg, s, Record)
    requires ClientOk(cfg, s, s.handler.response.client)
    ensures Bounded(cfg, Next(cfg, s, Record)) ==> CountersOk(cfg, Next(cfg, s, Record))
  {
    var c := s.handler.response.client;
    assert ClientInRound(cfg, s, c);
    FinishedUpdate(cfg.total, s.round, s.barrierRound, |cfg.total|, c);
  }

  lemma CountersRequeue(cfg: Config, s: State)
    requires ValidConfig(cfg) && cfg.barrier
    requires Bounded(cfg, s) && Enabled(cfg, s, Requeue) && !PopsEmptyPool(cfg, s, Requeue) && BarrierOk(cfg, s)
    requires MoverOk(cfg, s, Requeue) && ClientOk(cfg, s, s.handler.client)
    ensures Bounded(cfg, Next(cfg, s, Requeue)) ==> CountersOk(cfg, Next(cfg, s, Requeue))
    ensures s.barrierRound < cfg.maxRounds && Next(cfg, s, Requeue).barrierRound == s.barrierRound
  {
    var c, n := s.handler.client, |cfg.total|;
    assert ClientInRound(cfg, s, c);
    RequeueRecords(cfg, s);
    SomeParticipant(cfg.total, s.barrierRound, n, c);
    FinishedAll(cfg.total, s.round, s.barrierRound, n);
  }

  lemma CountersEndRelease(cfg: Config, s: State)
    requires Bounded(cfg, s) && Enabled(cfg, s, EndRelease) && BarrierOk(cfg, s) && StillParked(s) == []
    requires forall c :: 0 <= c < |cfg.total| ==> ClientOk(cfg, s, c)
    requires forall c :: 0 <= c < |cfg.total| ==> s.place[c] != Handling
    ensures Bounded(cfg, Next(cfg, s, EndRelease)) ==> CountersOk(cfg, Next(cfg, s, EndRelease))
  {
    forall c | 0 <= c < |cfg.total| ensures s.round[c] <= s.barrierRound + 1 {
      assert ClientInRound(cfg, s, c) && ClientOk(cfg, s, c);
    }
    FinishedNone(cfg.total, s.round, s.barrierRound + 1, |cfg.total|);
  }

  lemma InRoundSender(cfg: Config, s: State, step: Step, c: nat)
    requires Bounded(cfg, s) && Enabled(cfg, s, step) && !HandlerStep(step) && MoverOk(cfg, s, step)
    requires c < |cfg.total| && ClientInRound(cfg, s, c)
    ensures Bounded(cfg, Next(cfg, s, step)) ==> ClientInRound(cfg, Next(cfg, s, step), c)
  {
  }

  lemma InRoundHandler(cfg: Config, s: State, step: Step, c: nat)
    requires Bounded(cfg, s) && Enabled(cfg, s, step) && HandlerStep(step) && !step.Requeue? && !step.EndRelease?
    requires MoverOk(cfg, s, step)
    requires c < |cfg.total| && ClientInRound(cfg, s, c)
    ensures Bounded(cfg, Next(cfg, s, step)) ==> ClientInRound(cfg, Next(cfg, s, step), c)
  {
  }

  lemma InRoundEndRelease(cfg: Config, s: State, c: nat)
    requires Bounded(cfg, s) && Enabled(cfg, s, EndRelease) && c < |cfg.total| && ClientInRound(cfg, s, c)
    requires s.place[c] != Parked && s.place[c] != Handling
    ensures Bounded(cfg, Next(cfg, s, EndRelease)) ==> ClientInRound(cfg, Next(cfg, s, EndRelease), c)
  {
  }

  lemma InRoundRequeue(cfg: Config, s: State, c: nat)
    requires ValidConfig(cfg) && cfg.barrier
    requires Bounded(cfg, s) && Enabled(cfg, s, Requeue) && !PopsEmptyPool(cfg, s, Requeue) && MoverOk(cfg, s, Requeue)
    requires BarrierOk(cfg, s) && ClientOk(cfg, s, s.handler.client) && c < |cfg.total| && ClientOk(cfg, s, c)
    ensures Bounded(cfg, Next(cfg, s, Requeue)) ==> ClientInRound(cfg, Next(cfg, s, Requeue), c)
  {
    assert ClientInRound(cfg, s, c);
    RequeueShape(cfg, s);
    RequeueRecords(cfg, s);
    CountersRequeue(cfg, s);
  }
}
