/** The re-queue protocol of the serving benchmark: a getter takes conversations from a bounded
    queue, tasks run one turn each, and a finished turn puts its conversation back. */
module Serving {
  import opened Sums
  import opened Places
  import opened Conversation

  datatype Spot = Queued | Waiting | Sent | Failed | Finished

  /** The benchmark's input: the turns of every conversation. */
  type Workload = seq<seq<Turn>>

  datatype State = State(
    queue: seq<nat>,      // the asyncio.Queue, bounded by the number of conversations
    waiting: seq<nat>,    // tasks created but not yet running
    sent: seq<nat>,       // tasks whose request is on its way
    gets: nat, aborted: bool,
    convs: seq<Conv>,
    // bookkeeping of the model, per conversation
    place: seq<Spot>, replies: seq<seq<Reply>>, asked: seq<seq<int>>, got: seq<nat>)

  datatype Step = Get | Abort | Start(i: nat) | Fail(i: nat) | Answer(i: nat, reply: Reply)

  function Lens(w: Workload): seq<int> {
    seq(|w|, c requires 0 <= c < |w| => |w[c]|)
  }

  /** `num_actual_requests`. */
  function NumRequests(w: Workload): int {
    Sum(Lens(w))
  }

  /** `[[r] for requests in input_requests for r in requests]`. */
  function Flatten(w: Workload): Workload {
    if w == [] then [] else Flatten(w[..|w| - 1]) + Singles(w[|w| - 1])
  }

  function Singles(turns: seq<Turn>): Workload {
    seq(|turns|, i requires 0 <= i < |turns| => [turns[i]])
  }

  /** Flattening for a shared prefix changes neither the number of requests nor leaves a
      conversation of any other length than one. */
  lemma {:induction false} FlattenKeepsRequests(w: Workload)
    ensures NumRequests(Flatten(w)) == NumRequests(w) == |Flatten(w)|
    ensures forall c :: 0 <= c < |Flatten(w)| ==> |Flatten(w)[c]| == 1
  {
    if w == [] {
      assert Lens(w) == [];
    } else {
      var n := |w| - 1;
      FlattenKeepsRequests(w[..n]);
      assert Lens(w) == Lens(w[..n]) + [|w[n]|];
      assert Lens(Flatten(w)) == Lens(Flatten(w[..n])) + Lens(Singles(w[n]));
      SumConcat(Lens(Flatten(w[..n])), Lens(Singles(w[n])));
      SumConstant(Lens(Singles(w[n])), 1);
    }
  }

  function Initial(w: Workload): State {
    var n := |w|;
    State(seq(n, i requires i >= 0 => i), [], [], 0, false,
          seq(n, c requires 0 <= c < |w| => Fresh(w[c])),
          seq(n, _ => Queued), seq(n, _ => []), seq(n, _ => []), seq(n, _ => 0))
  }

  predicate Bounded(w: Workload, s: State) {
    var n := |w|;
    && |s.convs| == |s.place| == |s.replies| == |s.asked| == |s.got| == n
    && (forall i :: 0 <= i < |s.queue| ==> s.queue[i] < n)
    && (forall i :: 0 <= i < |s.waiting| ==> s.waiting[i] < n)
    && (forall i :: 0 <= i < |s.sent| ==>
         s.sent[i] < n && s.convs[s.sent[i]].finishedPrompts < |s.convs[s.sent[i]].prompts|)
  }

  /** The getter stops after `num_actual_requests` gets or when a get times out. */
  predicate Enabled(w: Workload, s: State, step: Step) {
    match step
    case Get => !s.aborted && s.gets < NumRequests(w) && s.queue != []
    case Abort => !s.aborted && s.gets < NumRequests(w) && s.queue == []
    case Start(i) => i < |s.waiting|
    case Fail(i) => i < |s.sent|
    case Answer(i, _) => i < |s.sent|
  }

  /** The put of a finished turn would have to wait for room in the queue. */
  predicate PutBlocks(w: Workload, s: State, step: Step)
    requires Bounded(w, s) && Enabled(w, s, step)
  {
    step.Answer? && HasMore(s.convs[s.sent[step.i]]) && |s.queue| >= |w|
  }

  function Next(w: Workload, s: State, step: Step): State
    requires Bounded(w, s) && Enabled(w, s, step) && !PutBlocks(w, s, step)
  {
    match step
    case Get =>
      var c := s.queue[0];
      s.(queue := s.queue[1..], waiting := s.waiting + [c], gets := s.gets + 1,
         place := s.place[c := Waiting], got := s.got[c := s.got[c] + 1])
    case Abort => s.(aborted := true)
    case Start(i) =>
      var c := s.waiting[i];
      if s.convs[c].finishedPrompts >= |s.convs[c].prompts| then
        // an empty conversation: indexing its prompts raises
        s.(waiting := Remove(s.waiting, i), place := s.place[c := Failed])
      else
        s.(waiting := Remove(s.waiting, i), sent := s.sent + [c], place := s.place[c := Sent],
           convs := s.convs[c := Begin(s.convs[c])], asked := s.asked[c := s.asked[c] + [PromptLen(s.convs[c])]])
    case Fail(i) =>
      s.(sent := Remove(s.sent, i), place := s.place[s.sent[i] := Failed])
    case Answer(i, reply) =>
      var c := s.sent[i];
      var s' := s.(sent := Remove(s.sent, i), convs := s.convs[c := Succeed(s.convs[c], reply)],
                   replies := s.replies[c := s.replies[c] + [reply]]);
      if HasMore(s.convs[c]) then s'.(queue := s.queue + [c], place := s.place[c := Queued])
      else s'.(place := s.place[c := Finished])
  }

  // ----- The invariant -----

  /** The lists tell the place of every conversation. */
  ghost predicate Spread(place: seq<Spot>, queue: seq<nat>, waiting: seq<nat>, sent: seq<nat>) {
    Lists(queue, place, Queued) && Lists(waiting, place, Waiting) && Lists(sent, place, Sent)
  }

  /** One conversation's turns so far. */
  ghost predicate ConvOk(turns: seq<Turn>, place: Spot, c: Conv, replies: seq<Reply>, asked: seq<int>, got: nat) {
    var k := |replies|;
    && k <= |turns|
    && (place != Failed ==> Answered(turns, c, replies, place == Sent))
    && (place == Finished ==> k == |turns| > 0)
    && (place in {Queued, Waiting} ==> k < |turns| || turns == [])
    && |asked| <= |turns| && |asked| <= k + 1
    && (place != Failed ==> |asked| == k + (if place == Sent then 1 else 0))
    && (place != Failed ==> got == k + (if place in {Waiting, Sent} then 1 else 0))
    && (forall i :: 0 <= i < |asked| ==> asked[i] == Spent(turns, replies, i) + turns[i].inputLen)
  }

  ghost predicate ConvAt(w: Workload, s: State, c: nat)
    requires Bounded(w, s) && c < |w|
  {
    ConvOk(w[c], s.place[c], s.convs[c], s.replies[c], s.asked[c], s.got[c])
  }

  ghost predicate Inv(w: Workload, s: State) {
    && Bounded(w, s)
    && Spread(s.place, s.queue, s.waiting, s.sent)
    && (forall c :: 0 <= c < |w| ==> ConvAt(w, s, c))
    && s.gets == Sum(s.got)
  }

  lemma SpreadNext(w: Workload, s: State, step: Step)
    requires Bounded(w, s) && Enabled(w, s, step) && !PutBlocks(w, s, step)
    requires Spread(s.place, s.queue, s.waiting, s.sent)
    ensures var s' := Next(w, s, step); Spread(s'.place, s'.queue, s'.waiting, s'.sent)
  {
    match step
    case Get =>
      ListsRemove(s.queue, s.place, Queued, 0, Waiting);
      assert Remove(s.queue, 0) == s.queue[1..];
      ListsAppend(s.waiting, s.place, Waiting, s.queue[0]);
    case Abort =>
    case Start(i) =>
      ListsRemove(s.waiting, s.place, Waiting, i, Failed);
      ListsRemove(s.waiting, s.place, Waiting, i, Sent);
      ListsAppend(s.sent, s.place, Sent, s.waiting[i]);
    case Fail(i) =>
      ListsRemove(s.sent, s.place, Sent, i, Failed);
    case Answer(i, _) =>
      ListsRemove(s.sent, s.place, Sent, i, Queued);
      ListsRemove(s.sent, s.place, Sent, i, Finished);
      ListsAppend(s.queue, s.place, Queued, s.sent[i]);
  }

  lemma ConvStart(turns: seq<Turn>, c: Conv, replies: seq<Reply>, asked: seq<int>, got: nat)
    requires ConvOk(turns, Waiting, c, replies, asked, got) && turns != []
    ensures c.finishedPrompts < |c.prompts|
    ensures ConvOk(turns, Sent, Begin(c), replies, asked + [PromptLen(c)], got)
  {
    BeginAnswered(turns, c, replies);
  }

  lemma ConvAnswer(turns: seq<Turn>, c: Conv, replies: seq<Reply>, asked: seq<int>, got: nat, r: Reply)
    requires ConvOk(turns, Sent, c, replies, asked, got)
    ensures c.finishedPrompts < |c.prompts|
    ensures ConvOk(turns, if HasMore(c) then Queued else Finished, Succeed(c, r), replies + [r], asked, got)
  {
    SucceedAnswered(turns, c, replies, r);
    forall i | 0 <= i < |asked| ensures asked[i] == Spent(turns, replies + [r], i) + turns[i].inputLen {
      TranscriptSnoc(turns, replies, r, i);
    }
  }

  /** The conversation a step moves is where the step expects it. */
  predicate MoverOk(w: Workload, s: State, step: Step)
    requires Bounded(w, s) && Enabled(w, s, step)
  {
    match step
    case Get => s.place[s.queue[0]] == Queued
    case Abort => true
    case Start(i) => s.place[s.waiting[i]] == Waiting
    case Fail(i) => s.place[s.sent[i]] == Sent
    case Answer(i, _) => s.place[s.sent[i]] == Sent
  }

  lemma ConvNext(w: Workload, s: State, step: Step, c: nat)
    requires Bounded(w, s) && Enabled(w, s, step) && !PutBlocks(w, s, step) && MoverOk(w, s, step)
    requires c < |w| && ConvAt(w, s, c)
    ensures Bounded(w, Next(w, s, step)) ==> ConvAt(w, Next(w, s, step), c)
  {
    match step
    case Start(i) =>
      if s.waiting[i] == c && w[c] != [] { ConvStart(w[c], s.convs[c], s.replies[c], s.asked[c], s.got[c]); }
    case Answer(i, reply) =>
      if s.sent[i] == c { ConvAnswer(w[c], s.convs[c], s.replies[c], s.asked[c], s.got[c], reply); }
    case _ =>
  }

  /** Requests that are out are about a turn that is there. */
  predicate SentOk(convs: seq<Conv>, sent: seq<nat>, n: nat) {
    |convs| == n && forall i :: 0 <= i < |sent| ==>
      sent[i] < n && convs[sent[i]].finishedPrompts < |convs[sent[i]].prompts|
  }

  lemma SentAppend(convs: seq<Conv>, sent: seq<nat>, c: nat, conv: Conv, n: nat)
    requires SentOk(convs, sent, n) && c < n && conv.finishedPrompts < |conv.prompts|
    ensures SentOk(convs[c := conv], sent + [c], n)
  {
  }

  lemma SentRemove(convs: seq<Conv>, sent: seq<nat>, i: nat, conv: Conv, n: nat)
    requires SentOk(convs, sent, n) && i < |sent| && conv.finishedPrompts < |conv.prompts|
    ensures SentOk(convs[sent[i] := conv], Remove(sent, i), n)
  {
  }

  lemma BoundedNext(w: Workload, s: State, step: Step)
    requires Bounded(w, s) && Enabled(w, s, step) && !PutBlocks(w, s, step)
    ensures Bounded(w, Next(w, s, step))
  {
    if step.Start? { BoundedStart(w, s, step); }
    if step.Answer? { BoundedAnswer(w, s, step); }
  }

  lemma BoundedStart(w: Workload, s: State, step: Step)
    requires Bounded(w, s) && step.Start? && Enabled(w, s, step)
    ensures Bounded(w, Next(w, s, step))
  {
    var c := s.waiting[step.i];
    if s.convs[c].finishedPrompts < |s.convs[c].prompts| { SentAppend(s.convs, s.sent, c, Begin(s.convs[c]), |w|); }
  }

  lemma BoundedAnswer(w: Workload, s: State, step: Step)
    requires Bounded(w, s) && step.Answer? && Enabled(w, s, step) && !PutBlocks(w, s, step)
    ensures Bounded(w, Next(w, s, step))
  {
    SentRemove(s.convs, s.sent, step.i, Succeed(s.convs[s.sent[step.i]], step.reply), |w|);
  }

  lemma GetsNext(w: Workload, s: State, step: Step)
    requires Inv(w, s) && Enabled(w, s, step) && !PutBlocks(w, s, step)
    ensures Next(w, s, step).gets == Sum(Next(w, s, step).got)
  {
    if step.Get? { SumUpdate(s.got, s.queue[0], s.got[s.queue[0]] + 1); }
  }

  lemma InvNext(w: Workload, s: State, step: Step)
    requires Inv(w, s) && Enabled(w, s, step) && !PutBlocks(w, s, step)
    ensures Inv(w, Next(w, s, step))
  {
    BoundedNext(w, s, step);
    SpreadNext(w, s, step);
    GetsNext(w, s, step);
    forall c | 0 <= c < |w| ensures ConvAt(w, Next(w, s, step), c) {
      assert ConvAt(w, s, c);
      ConvNext(w, s, step, c);
    }
  }

  lemma InvInitial(w: Workload)
    ensures Inv(w, Initial(w))
  {
    var s := Initial(w);
    forall c: nat ensures c in s.queue <==> c < |w| {
      if c < |w| { assert s.queue[c] == c; }
    }
    SumConstant(s.got, 0);
    forall c | 0 <= c < |w| ensures ConvAt(w, s, c) {
    }
  }

  /** A task that finishes a turn always finds room in the queue: its own conversation is not in it. */
  lemma PutNeverBlocks(w: Workload, s: State, step: Step)
    requires Inv(w, s) && Enabled(w, s, step)
    ensures !PutBlocks(w, s, step)
  {
    if step.Answer? {
      var c := s.sent[step.i];
      assert c in s.sent;
      assert s.place[c] == Sent && c !in s.queue;
      MissingOne(s.queue, |w|, c);
    }
  }

  // ----- Runs -----

  datatype Run = Run(states: seq<State>, steps: seq<Step>)

  ghost predicate Moves(w: Workload, s: State, step: Step, s': State) {
    Bounded(w, s) && Enabled(w, s, step) && !PutBlocks(w, s, step) && s' == Next(w, s, step)
  }

  ghost predicate ValidRun(w: Workload, run: Run) {
    && |run.states| == |run.steps| + 1
    && run.states[0] == Initial(w)
    && forall k :: 0 <= k < |run.steps| ==> Moves(w, run.states[k], run.steps[k], run.states[k + 1])
  }

  lemma {:induction false} RunKeepsInv(w: Workload, run: Run, n: nat)
    requires ValidRun(w, run) && n < |run.states|
    ensures Inv(w, run.states[n])
  {
    if n == 0 {
      InvInitial(w);
    } else {
      RunKeepsInv(w, run, n - 1);
      assert Moves(w, run.states[n - 1], run.steps[n - 1], run.states[n]);
      InvNext(w, run.states[n - 1], run.steps[n - 1]);
    }
  }

  /** In every run the bounded queue has room for every put, and a conversation is never both
      queued and running. */
  lemma QueueNeverBlocks(w: Workload, run: Run, n: nat, step: Step)
    requires ValidRun(w, run) && n < |run.states|
    ensures var s := run.states[n];
            && Bounded(w, s) && |s.queue| <= |w|
            && (forall c: nat :: !(c in s.queue && (c in s.waiting || c in s.sent)) && !(c in s.waiting && c in s.sent))
            && (Enabled(w, s, step) ==> !PutBlocks(w, s, step))
  {
    var s := run.states[n];
    RunKeepsInv(w, run, n);
    if Enabled(w, s, step) { PutNeverBlocks(w, s, step); }
    DistinctBelow(s.queue, |w|);
  }

  /** Whatever fails, every turn that was asked, was asked in order with the prompt length of the
      outputs actually produced, and a started turn sees an alternating history. */
  lemma TurnsInOrder(w: Workload, run: Run, n: nat, c: nat)
    requires ValidRun(w, run) && n < |run.states| && c < |w|
    ensures var s := run.states[n];
            && Bounded(w, s) && |s.asked[c]| <= |w[c]| && |s.asked[c]| <= |s.replies[c]| + 1
            && (forall i :: 0 <= i < |s.asked[c]| ==> s.asked[c][i] == Spent(w[c], s.replies[c], i) + w[c][i].inputLen)
            && (s.place[c] == Sent ==>
                 Answered(w[c], s.convs[c], s.replies[c], true) && Alternating(s.convs[c].prevMessages)
                                       && |s.convs[c].prevMessages| == 2 * |s.replies[c]| + 1)
  {
    RunKeepsInv(w, run, n);
    var s := run.states[n];
    assert ConvAt(w, s, c);
    if s.place[c] == Sent { TranscriptAlternates(w[c], s.replies[c], |s.replies[c]|); }
  }

  predicate NoFailure(s: State) {
    forall c :: 0 <= c < |s.place| ==> s.place[c] != Failed
  }

  lemma GotAtMost(w: Workload, s: State)
    requires Inv(w, s) && NoFailure(s) && s.waiting == []
    ensures forall c :: 0 <= c < |w| ==> s.got[c] <= |w[c]|
    ensures s.gets <= NumRequests(w)
  {
    forall c: nat | c < |w| ensures s.got[c] <= Lens(w)[c] {
      assert ConvAt(w, s, c);
      assert c !in s.waiting;
    }
    SumMonotone(s.got, Lens(w));
  }

  /** Without failures, when all tasks have run: `num_actual_requests` gets were made exactly when
      every conversation has had each of its turns once; what is left in the queue then is
      precisely the empty conversations. */
  lemma AllTurnsRun(w: Workload, run: Run, n: nat)
    requires ValidRun(w, run) && n < |run.states|
    requires NoFailure(run.states[n]) && run.states[n].waiting == [] && run.states[n].sent == []
    ensures var s := run.states[n];
            && Bounded(w, s)
            && (s.gets == NumRequests(w) <==> forall c :: 0 <= c < |w| ==> |s.asked[c]| == |s.replies[c]| == |w[c]|)
            && (s.gets == NumRequests(w) ==> forall c :: 0 <= c < |w| ==> (c in s.queue <==> w[c] == []))
  {
    var s := run.states[n];
    RunKeepsInv(w, run, n);
    GotAtMost(w, s);
    forall c: nat | c < |w|
      ensures |s.asked[c]| == |s.replies[c]| == s.got[c] && (c in s.queue <==> s.place[c] == Queued)
      ensures s.got[c] == |w[c]| ==> (s.place[c] == Queued <==> w[c] == [])
    {
      assert ConvAt(w, s, c);
      assert c !in s.waiting && c !in s.sent;
    }
    if forall c :: 0 <= c < |w| ==> s.got[c] == |w[c]| {
      assert s.got == Lens(w);
    } else {
      var c :| 0 <= c < |w| && s.got[c] != |w[c]|;
      assert s.got[c] < Lens(w)[c];
      SumMonotone(s.got, Lens(w));
    }
  }

  /** With nothing queued or running and no failure, all requests have been made. */
  lemma RestMeansAll(w: Workload, s: State)
    requires Inv(w, s) && NoFailure(s) && s.queue == [] && s.waiting == [] && s.sent == []
    ensures s.gets == NumRequests(w)
  {
    forall c: nat | c < |w| ensures s.got[c] == Lens(w)[c] {
      assert ConvAt(w, s, c);
      assert c !in s.queue && c !in s.waiting && c !in s.sent;
    }
    assert s.got == Lens(w);
  }

  /** Without failures the getter is never starved: until it has made all its gets, some
      conversation is queued or running. */
  lemma GetterNotStarved(w: Workload, run: Run, n: nat)
    requires ValidRun(w, run) && n < |run.states| && NoFailure(run.states[n])
    requires run.states[n].gets < NumRequests(w)
    ensures run.states[n].queue != [] || run.states[n].waiting != [] || run.states[n].sent != []
  {
    RunKeepsInv(w, run, n);
    var s := run.states[n];
    if s.queue == [] && s.waiting == [] && s.sent == [] { RestMeansAll(w, s); }
  }
}
