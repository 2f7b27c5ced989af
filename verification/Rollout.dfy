/** A synthetic conversation: its history grows by a tool result and the generated tokens per turn. */
module Rollout {
  import opened Wrappers
  import opened Generation

  datatype Args = Args(turns: int, initialTokens: int, toolTokens: int, outputTokens: int, fullHistory: bool)

  function MaxContextTokens(args: Args): int {
    args.initialTokens + (args.turns - 1) * (args.toolTokens + args.outputTokens) + args.outputTokens
  }

  function Clip(x: int): nat {
    if x > 0 then x else 0
  }

  // ----- Synthetic input of exact length -----

  /** `r` runs through `ids` again and again. */
  ghost predicate Cycles(r: seq<int>, ids: seq<int>) {
    && (forall i :: 0 <= i < |r| && i < |ids| ==> r[i] == ids[i])
    && (forall i :: |ids| <= i < |r| ==> r[i] == r[i - |ids|])
  }

  function Times(k: int, n: nat): (p: nat)
    ensures k >= 0 ==> p == k * n
    decreases Clip(k)
  {
    if k <= 0 then 0 else n + Times(k - 1, n)
  }

  /** `ids * k`, which is empty for negative `k`. */
  function Repeat(ids: seq<int>, k: int): (r: seq<int>)
    ensures |r| == Times(k, |ids|) && Cycles(r, ids)
    decreases Clip(k)
  {
    if k <= 0 then []
    else
      assert k == 1 ==> Repeat(ids, 0) == [];
      ids + Repeat(ids, k - 1)
  }

  /** `synthetic_tokens`: the encoded text over and over, cut to the length asked for. */
  method SyntheticTokens(ids: seq<int>, length: int) returns (chunk: Option<seq<int>>)
    ensures chunk == None <==> ids == []
    ensures chunk.Some? ==> |chunk.value| == Clip(length) && Cycles(chunk.value, ids)
  {
    if ids == [] {
      return None;
    }
    var k := (length + |ids| - 1) / |ids|;
    Enough(length, |ids|, k);
    var all := Repeat(ids, k);
    return Some(all[..Clip(length)]);
  }

  lemma Enough(length: int, n: nat, k: int)
    requires n > 0 && k == (length + n - 1) / n
    ensures Clip(length) <= Times(k, n)
  {
    assert length + n - 1 == k * n + (length + n - 1) % n;
    if length > 0 && k < 0 { Below(k, n); }
  }

  lemma Below(k: int, n: nat)
    requires k <= 0
    ensures k * n <= 0
  {
  }

  // ----- The conversation -----

  /** One request: the ids sent and the context length recorded for it. */
  datatype Row = Row(context: nat, payload: seq<int>, events: seq<Arrival>)

  /** What the outside world does in one turn: the encoded text and the response stream. */
  datatype Turn = Turn(text: seq<int>, stream: seq<Event>, clock: seq<real>)

  /** The length of the history after `t` answered turns. */
  function Answered(args: Args, t: nat): nat
    decreases t, 0
  {
    if t == 0 then 0 else ContextAt(args, t - 1) + Clip(args.outputTokens)
  }

  /** The context length sent with turn `t`. */
  function ContextAt(args: Args, t: nat): nat
    decreases t, 1
  {
    Answered(args, t) + Clip(if t > 0 then args.toolTokens else args.initialTokens)
  }

  /** What the server holds after these payloads and answers, when each turn sends its chunk only. */
  ghost function Joined(chunks: seq<seq<int>>, answers: seq<seq<int>>, n: nat): seq<int>
    requires n <= |chunks| && n <= |answers|
  {
    if n == 0 then [] else Joined(chunks, answers, n - 1) + chunks[n - 1] + answers[n - 1]
  }

  /** The tokenizer gives something, and the response is complete for the turn's context. */
  predicate TurnOk(args: Args, t: nat, turn: Turn, rank: Option<int>, incremental: bool, dpSize: Option<int>) {
    && turn.text != []
    && Complete(Request(args.outputTokens, ContextAt(args, t), rank, incremental, dpSize), turn.stream,
          FirstDone(turn.stream))
  }

  /** One turn of `conversation`: extend the history, ask, extend it by the answer.  A row is recorded
      unless the tokenizer gives nothing. */
  method RunTurn(args: Args, t: nat, turn: Turn, rank: Option<int>, incremental: bool, dpSize: Option<int>,
          history: seq<int>)
    returns (ok: bool, row: Option<Row>, history': seq<int>, ghost chunk: seq<int>, ghost answer: seq<int>)
    requires |turn.clock| == |turn.stream| && |history| == Answered(args, t)
    ensures ok <==> TurnOk(args, t, turn, rank, incremental, dpSize)
    ensures row == None <==> turn.text == []
    ensures row.Some? ==> row.value.context == ContextAt(args, t) == |history| + |chunk|
    ensures row.Some? ==> row.value.payload == if args.fullHistory then history + chunk else chunk
    ensures ok ==> history' == history + chunk + answer && |answer| == args.outputTokens > 0
    ensures ok ==> Rising(row.value.events) && LastCount(row.value.events) == args.outputTokens
  {
    var made := SyntheticTokens(turn.text, if t > 0 then args.toolTokens else args.initialTokens);
    chunk, answer, row, history' := [], [], None, history;
    if made.None? {
      return false, row, history', chunk, answer;
    }
    chunk := made.value;
    history' := history + made.value;
    var request := Request(args.outputTokens, |history'|, rank, incremental, dpSize);
    var result, events := Generate(request, turn.stream, turn.clock);
    row := Some(Row(|history'|, if args.fullHistory then history' else made.value, events));
    if result.Err? {
      return false, row, history', chunk, answer;
    }
    SuccessRecorded(request, turn.stream, turn.clock);
    answer := result.ids;
    history' := history' + result.ids;
    ok := true;
  }

  /** What is kept over the turns: each row's context and payload, and the joined history. */
  ghost predicate Kept(args: Args, rows: seq<Row>, history: seq<int>, chunks: seq<seq<int>>, answers: seq<seq<int>>) {
    && |chunks| == |answers| == |rows|
    && history == Joined(chunks, answers, |rows|)
    && |history| == Answered(args, |rows|)
    && forall t :: 0 <= t < |rows| ==> RowKept(args, rows[t], chunks, answers, t)
  }

  ghost predicate RowKept(args: Args, row: Row, chunks: seq<seq<int>>, answers: seq<seq<int>>, t: nat)
    requires t < |chunks| == |answers|
  {
    && row.context == ContextAt(args, t) == |Joined(chunks, answers, t)| + |chunks[t]|
    && row.payload == (if args.fullHistory then Joined(chunks, answers, t) + chunks[t] else chunks[t])
    && Rising(row.events) && LastCount(row.events) == args.outputTokens == |answers[t]|
  }

  lemma {:induction false} JoinedPrefix(chunks: seq<seq<int>>, answers: seq<seq<int>>, c: seq<int>, a: seq<int>, n: nat)
    requires n <= |chunks| == |answers|
    ensures Joined(chunks + [c], answers + [a], n) == Joined(chunks, answers, n)
  {
    if n > 0 { JoinedPrefix(chunks, answers, c, a, n - 1); }
  }

  lemma RowStays(args: Args, row: Row, chunks: seq<seq<int>>, answers: seq<seq<int>>, c: seq<int>, a: seq<int>, t: nat)
    requires t < |chunks| == |answers| && RowKept(args, row, chunks, answers, t)
    ensures RowKept(args, row, chunks + [c], answers + [a], t)
  {
    JoinedPrefix(chunks, answers, c, a, t);
  }

  lemma KeptSnoc(args: Args, rows: seq<Row>, history: seq<int>, chunks: seq<seq<int>>, answers: seq<seq<int>>,
          row: Row, c: seq<int>, a: seq<int>)
    requires Kept(args, rows, history, chunks, answers)
    requires |a| == args.outputTokens > 0 && row.context == ContextAt(args, |rows|) == |history| + |c|
    requires row.payload == if args.fullHistory then history + c else c
    requires Rising(row.events) && LastCount(row.events) == args.outputTokens
    ensures Kept(args, rows + [row], history + c + a, chunks + [c], answers + [a])
  {
    forall t | 0 <= t < |rows| ensures RowKept(args, rows[t], chunks + [c], answers + [a], t) {
      RowStays(args, rows[t], chunks, answers, c, a, t);
    }
    JoinedPrefix(chunks, answers, c, a, |rows|);
    assert RowKept(args, row, chunks + [c], answers + [a], |rows|);
  }

  /** `conversation`, up to its first failed turn.  The rows of the turns before it are kept; the failed
      turn leaves a row with its context, and none if the tokenizer gave nothing. */
  method Conversation(args: Args, turns: seq<Turn>, rank: Option<int>, incremental: bool, dpSize: Option<int>)
    returns (ok: bool, rows: seq<Row>, history: seq<int>, ghost chunks: seq<seq<int>>, ghost answers: seq<seq<int>>)
    requires |turns| == Clip(args.turns) && forall t :: 0 <= t < |turns| ==> |turns[t].clock| == |turns[t].stream|
    ensures |chunks| == |answers| <= |rows| && |chunks| <= |turns|
    ensures forall t :: 0 <= t < |chunks| ==> TurnOk(args, t, turns[t], rank, incremental, dpSize)
    ensures Kept(args, rows[..|chunks|], Joined(chunks, answers, |chunks|), chunks, answers)
    ensures ok ==> |chunks| == |rows| == |turns| && history == Joined(chunks, answers, |chunks|)
    ensures !ok ==> |chunks| < |turns| && !TurnOk(args, |chunks|, turns[|chunks|], rank, incremental, dpSize)
    ensures !ok ==> |rows| == |chunks| + (if turns[|chunks|].text == [] then 0 else 1)
    ensures |rows| > |chunks| ==> rows[|chunks|].context == ContextAt(args, |chunks|)
    ensures ok && args.turns >= 1 ==>
              (|history| == MaxContextTokens(args) <==>
                  args.initialTokens >= 0 && (args.turns == 1 || args.toolTokens >= 0))
  {
    rows, history, chunks, answers := [], [], [], [];
    for t := 0 to |turns|
      invariant |rows| == t && Kept(args, rows, history, chunks, answers)
      invariant forall k :: 0 <= k < t ==> TurnOk(args, k, turns[k], rank, incremental, dpSize)
      invariant t > 0 ==> args.outputTokens > 0
    {
      var done, row, history', chunk, answer := RunTurn(args, t, turns[t], rank, incremental, dpSize, history);
      if !done {
        ghost var before := rows;
        if row.Some? {
          rows := rows + [row.value];
        }
        assert rows[..t] == before;
        return false, rows, history', chunks, answers;
      }
      KeptSnoc(args, rows, history, chunks, answers, row.value, chunk, answer);
      rows, history, chunks, answers := rows + [row.value], history', chunks + [chunk], answers + [answer];
    }
    ok := true;
    assert rows[..|rows|] == rows;
    if args.turns >= 1 { FinalLength(args, args.turns); }
  }

  /** After all turns the history has the length `max_context_tokens` computes, exactly if no
      length that was used is negative. */
  lemma FinalLength(args: Args, t: nat)
    requires t == args.turns >= 1 && args.outputTokens > 0
    ensures Answered(args, t) == MaxContextTokens(args) <==>
      args.initialTokens >= 0 && (args.turns == 1 || args.toolTokens >= 0)
  {
    AnsweredClosed(args, t);
    var tool := Clip(args.toolTokens) - args.toolTokens;
    assert (t - 1) * (Clip(args.toolTokens) + args.outputTokens) ==
        (t - 1) * (args.toolTokens + args.outputTokens) + (t - 1) * tool;
    Grows(t - 1, tool);
  }

  lemma Grows(k: nat, x: nat)
    ensures k * x >= 0 && (k * x == 0 <==> k == 0 || x == 0)
  {
  }

  lemma {:induction false} AnsweredClosed(args: Args, t: nat)
    requires t >= 1 && args.outputTokens > 0
    ensures Answered(args, t) ==
      Clip(args.initialTokens) + (t - 1) * (Clip(args.toolTokens) + args.outputTokens) + args.outputTokens
  {
    if t == 1 {
      assert ContextAt(args, 0) == Clip(args.initialTokens);
    } else {
      AnsweredClosed(args, t - 1);
      assert ContextAt(args, t - 1) == Answered(args, t - 1) + Clip(args.toolTokens);
      var x := Clip(args.toolTokens) + args.outputTokens;
      assert (t - 1) * x == (t - 2) * x + x;
    }
  }
}
