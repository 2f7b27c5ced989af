/** One multi-turn conversation of the serving benchmark, as `RequestFuncInput` carries it from turn to turn. */
module Conversation {

  /** A prompt with its length and output budget; after the turn the budget is replaced by the actual length. */
  datatype Turn = Turn(prompt: string, inputLen: int, outputLen: int)

  datatype Message = User(content: string) | Assistant(content: string)

  datatype Reply = Reply(text: string, outputLen: int)

  datatype Conv = Conv(prompts: seq<Turn>, prevMessages: seq<Message>, finishedPrompts: nat)

  function Fresh(prompts: seq<Turn>): Conv {
    Conv(prompts, [], 0)
  }

  /** `sum(p[1] + p[2] for p in prompts)`. */
  function TotalLen(prompts: seq<Turn>): int {
    if prompts == [] then 0
    else TotalLen(prompts[..|prompts| - 1]) + prompts[|prompts| - 1].inputLen + prompts[|prompts| - 1].outputLen
  }

  /** The prompt length a turn reports when it starts. */
  function PromptLen(c: Conv): int
    requires c.finishedPrompts < |c.prompts|
  {
    TotalLen(c.prompts[..c.finishedPrompts]) + c.prompts[c.finishedPrompts].inputLen
  }

  /** Start of a turn: the user message is appended to the shared message list. */
  function Begin(c: Conv): Conv
    requires c.finishedPrompts < |c.prompts|
  {
    c.(prevMessages := c.prevMessages + [User(c.prompts[c.finishedPrompts].prompt)])
  }

  /** A successful turn.  The index only moves if another turn follows. */
  function Succeed(c: Conv, reply: Reply): Conv
    requires c.finishedPrompts < |c.prompts|
  {
    var i := c.finishedPrompts;
    Conv(c.prompts[i := c.prompts[i].(outputLen := reply.outputLen)],
         c.prevMessages + [Assistant(reply.text)],
         if i + 1 < |c.prompts| then i + 1 else i)
  }

  predicate HasMore(c: Conv) {
    c.finishedPrompts + 1 < |c.prompts|
  }

  /** The object the source mutates. */
  class RequestFuncInput {
    var prompts: seq<Turn>
    var prevMessages: seq<Message>
    var finishedPrompts: nat

    ghost function View(): Conv
      reads this
    {
      Conv(prompts, prevMessages, finishedPrompts)
    }

    constructor (prompts: seq<Turn>)
      ensures View() == Fresh(prompts)
    {
      this.prompts := prompts;
      prevMessages := [];
      finishedPrompts := 0;
    }

    /** The first half of `async_request_openai_completions`, up to the post. */
    method BeginTurn() returns (promptLen: int)
      requires finishedPrompts < |prompts|
      modifies this`prevMessages
      ensures promptLen == PromptLen(old(View())) && View() == Begin(old(View()))
    {
      promptLen := 0;
      for k := 0 to finishedPrompts
        invariant promptLen == TotalLen(prompts[..k])
      {
        assert prompts[..k + 1][..k] == prompts[..k];
        promptLen := promptLen + prompts[k].inputLen + prompts[k].outputLen;
      }
      promptLen := promptLen + prompts[finishedPrompts].inputLen;
      prevMessages := prevMessages + [User(prompts[finishedPrompts].prompt)];
    }

    /** The bookkeeping after a complete response; `requeue` says whether the object is put back. */
    method FinishTurn(reply: Reply) returns (requeue: bool)
      requires finishedPrompts < |prompts|
      modifies this
      ensures View() == Succeed(old(View()), reply) && requeue == HasMore(old(View()))
    {
      var promptIdx := finishedPrompts;
      prompts := prompts[promptIdx := Turn(prompts[promptIdx].prompt, prompts[promptIdx].inputLen, reply.outputLen)];
      promptIdx := promptIdx + 1;
      prevMessages := prevMessages + [Assistant(reply.text)];
      requeue := promptIdx < |prompts|;
      if requeue { finishedPrompts := promptIdx; }
    }
  }

  // ----- What a conversation has gone through -----

  /** The messages after the first `k` turns were answered. */
  function Transcript(turns: seq<Turn>, replies: seq<Reply>, k: nat): seq<Message>
    requires k <= |turns| && k <= |replies|
  {
    if k == 0 then []
    else Transcript(turns, replies, k - 1) + [User(turns[k - 1].prompt), Assistant(replies[k - 1].text)]
  }

  /** Tokens of the first `k` turns, counting the outputs actually produced. */
  function Spent(turns: seq<Turn>, replies: seq<Reply>, k: nat): int
    requires k <= |turns| && k <= |replies|
  {
    if k == 0 then 0 else Spent(turns, replies, k - 1) + turns[k - 1].inputLen + replies[k - 1].outputLen
  }

  predicate Alternating(ms: seq<Message>) {
    forall i :: 0 <= i < |ms| ==> (ms[i].User? <==> i % 2 == 0)
  }

  /** `k` turns of a conversation are answered; `open` says whether the next one has started. */
  ghost predicate Answered(turns: seq<Turn>, c: Conv, replies: seq<Reply>, open: bool) {
    var k := |replies|;
    && k <= |turns| == |c.prompts|
    && (forall i :: 0 <= i < |turns| ==>
         c.prompts[i] == if i < k then turns[i].(outputLen := replies[i].outputLen) else turns[i])
    && (open ==> k < |turns|)
    && c.prevMessages == Transcript(turns, replies, k) + (if open then [User(turns[k].prompt)] else [])
    && c.finishedPrompts == if k == |turns| > 0 then k - 1 else k
  }

  lemma {:induction false} TranscriptSnoc(turns: seq<Turn>, replies: seq<Reply>, r: Reply, k: nat)
    requires k <= |turns| && k <= |replies|
    ensures Transcript(turns, replies + [r], k) == Transcript(turns, replies, k)
    ensures Spent(turns, replies + [r], k) == Spent(turns, replies, k)
  {
    if k > 0 { TranscriptSnoc(turns, replies, r, k - 1); }
  }

  lemma {:induction false} TranscriptAlternates(turns: seq<Turn>, replies: seq<Reply>, k: nat)
    requires k <= |turns| && k <= |replies|
    ensures |Transcript(turns, replies, k)| == 2 * k && Alternating(Transcript(turns, replies, k))
  {
    if k > 0 { TranscriptAlternates(turns, replies, k - 1); }
  }

  lemma {:induction false} TotalLenIsSpent(turns: seq<Turn>, prompts: seq<Turn>, replies: seq<Reply>, k: nat)
    requires k <= |turns| == |prompts| && k <= |replies|
    requires forall i :: 0 <= i < k ==> prompts[i] == turns[i].(outputLen := replies[i].outputLen)
    ensures TotalLen(prompts[..k]) == Spent(turns, replies, k)
  {
    if k > 0 {
      TotalLenIsSpent(turns, prompts, replies, k - 1);
      assert prompts[..k][..k - 1] == prompts[..k - 1];
    }
  }

  /** Turn `k` starts with `2k` alternating messages and a prompt length that sums the outputs
      actually produced so far. */
  lemma BeginAnswered(turns: seq<Turn>, c: Conv, replies: seq<Reply>)
    requires Answered(turns, c, replies, false) && |replies| < |turns|
    ensures c.finishedPrompts == |replies| && |c.prevMessages| == 2 * |replies| && Alternating(c.prevMessages)
    ensures PromptLen(c) == Spent(turns, replies, |replies|) + turns[|replies|].inputLen
    ensures Answered(turns, Begin(c), replies, true)
  {
    TranscriptAlternates(turns, replies, |replies|);
    TotalLenIsSpent(turns, c.prompts, replies, |replies|);
    assert c.prevMessages == Transcript(turns, replies, |replies|);
  }

  lemma SucceedAnswered(turns: seq<Turn>, c: Conv, replies: seq<Reply>, r: Reply)
    requires Answered(turns, c, replies, true)
    ensures Answered(turns, Succeed(c, r), replies + [r], false)
    ensures HasMore(c) <==> |replies| + 1 < |turns|
  {
    var k := |replies|;
    TranscriptSnoc(turns, replies, r, k);
    var c' := Succeed(c, r);
    assert c'.prevMessages == Transcript(turns, replies + [r], k + 1);
    forall i | 0 <= i < |turns|
      ensures c'.prompts[i] == if i < k + 1 then turns[i].(outputLen := (replies + [r])[i].outputLen) else turns[i]
    {
    }
  }
}
