/** The serving benchmark's queue is first in, first out over whole runs. */
module ServingOrder {
  import opened Places
  import opened Conversation
  import opened Serving

  /** What the step puts into the queue: the conversation whose turn it ends, if it has another. */
  function PutBy(w: Workload, s: State, step: Step): seq<nat> {
    if step.Answer? && step.i < |s.sent| && s.sent[step.i] < |w| && s.sent[step.i] < |s.replies|
       && |s.replies[s.sent[step.i]]| + 1 < |w[s.sent[step.i]]|
    then [s.sent[step.i]] else []
  }

  /** What the step hands to a task. */
  function TakenBy(s': State, step: Step): seq<nat> {
    if step.Get? && s'.waiting != [] then [s'.waiting[|s'.waiting| - 1]] else []
  }

  /** Everything put into the queue so far, all conversations first. */
  ghost function Puts(w: Workload, run: Run, n: nat): seq<nat>
    requires n <= |run.steps| < |run.states|
  {
    if n == 0 then seq(|w|, i requires i >= 0 => i)
    else Puts(w, run, n - 1) + PutBy(w, run.states[n - 1], run.steps[n - 1])
  }

  ghost function Taken(run: Run, n: nat): seq<nat>
    requires n <= |run.steps| < |run.states|
  {
    if n == 0 then [] else Taken(run, n - 1) + TakenBy(run.states[n], run.steps[n - 1])
  }

  lemma QueueMove(w: Workload, s: State, step: Step, s': State)
    requires Inv(w, s) && Moves(w, s, step, s')
    ensures s.queue + PutBy(w, s, step) == TakenBy(s', step) + s'.queue
  {
    if step.Answer? {
      var c := s.sent[step.i];
      assert c in s.sent;
      assert ConvAt(w, s, c);
      SucceedAnswered(w[c], s.convs[c], s.replies[c], step.reply);
    } else if step.Get? {
      assert s.queue == [s.queue[0]] + s.queue[1..];
    }
  }

  lemma QueueAt(w: Workload, run: Run, n: nat)
    requires ValidRun(w, run) && 0 < n <= |run.steps|
    ensures run.states[n - 1].queue + PutBy(w, run.states[n - 1], run.steps[n - 1])
         == TakenBy(run.states[n], run.steps[n - 1]) + run.states[n].queue
  {
    RunKeepsInv(w, run, n - 1);
    QueueMove(w, run.states[n - 1], run.steps[n - 1], run.states[n]);
  }

  /** What was put in is what was taken out, in the same order, and then what is queued. */
  lemma {:induction false} FirstInFirstOut(w: Workload, run: Run, n: nat)
    requires ValidRun(w, run) && n <= |run.steps|
    ensures Puts(w, run, n) == Taken(run, n) + run.states[n].queue
  {
    if n > 0 {
      var s, step, s' := run.states[n - 1], run.steps[n - 1], run.states[n];
      FirstInFirstOut(w, run, n - 1);
      QueueAt(w, run, n);
      Shift(Puts(w, run, n - 1), Taken(run, n - 1), s.queue, PutBy(w, s, step), TakenBy(s', step), s'.queue);
    }
  }

  // ----- Replies -----

  function RepliedBy(s: State, step: Step, c: nat): seq<Reply> {
    if step.Answer? && step.i < |s.sent| && s.sent[step.i] == c then [step.reply] else []
  }

  ghost function AllReplies(run: Run, c: nat, n: nat): seq<Reply>
    requires n <= |run.steps| < |run.states|
  {
    if n == 0 then [] else AllReplies(run, c, n - 1) + RepliedBy(run.states[n - 1], run.steps[n - 1], c)
  }

  /** A conversation's replies are those its requests got, in order, and its messages and lengths are those of
      its turns with these replies. */
  lemma {:induction false} RepliesAre(w: Workload, run: Run, c: nat, n: nat)
    requires ValidRun(w, run) && n <= |run.steps| && c < |w|
    ensures Inv(w, run.states[n]) && run.states[n].replies[c] == AllReplies(run, c, n)
    ensures run.states[n].place[c] != Failed ==>
      Answered(w[c], run.states[n].convs[c], AllReplies(run, c, n), run.states[n].place[c] == Sent)
  {
    RunKeepsInv(w, run, n);
    assert ConvAt(w, run.states[n], c);
    if n > 0 {
      RepliesAre(w, run, c, n - 1);
      ReplyMove(w, run.states[n - 1], run.steps[n - 1], run.states[n], c);
    }
  }

  lemma ReplyMove(w: Workload, s: State, step: Step, s': State, c: nat)
    requires Inv(w, s) && Moves(w, s, step, s') && Bounded(w, s') && c < |w|
    ensures s'.replies[c] == s.replies[c] + RepliedBy(s, step, c)
  {
  }
}
