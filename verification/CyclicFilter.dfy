/** The chat data filter: conversations that keep a turn are taken round and round until enough
    requests have been collected. */
module CyclicFilter {
  import opened Wrappers

  /** A question and answer with their token counts. */
  datatype Pair = Pair(prompt: string, promptLen: int, completionLen: int)

  datatype Limits = Limits(minPrompt: Option<int>, minOutput: Option<int>, maxPrompt: Option<int>,
      maxOutput: Option<int>, fixedOutput: Option<int>)

  datatype Sample = Sample(prompt: string, promptLen: int, outputLen: int)

  function OutputLen(limits: Limits, pair: Pair): int {
    if limits.fixedOutput.None? then pair.completionLen else limits.fixedOutput.value
  }

  predicate Pruned(limits: Limits, promptLen: int, outputLen: int) {
    || (limits.minPrompt.Some? && promptLen < limits.minPrompt.value)
    || (limits.minOutput.Some? && outputLen < limits.minOutput.value)
    || (limits.maxPrompt.Some? && promptLen > limits.maxPrompt.value)
    || (limits.maxOutput.Some? && outputLen > limits.maxOutput.value)
  }

  /** The turns a conversation keeps. */
  function Turns(limits: Limits, conversation: seq<Pair>): seq<Sample> {
    if conversation == [] then []
    else
      var k := |conversation| - 1;
      var before, pair := Turns(limits, conversation[..k]), conversation[k];
      if Pruned(limits, pair.promptLen, OutputLen(limits, pair)) then before
      else before + [Sample(pair.prompt, pair.promptLen, OutputLen(limits, pair))]
  }

  /** The conversations that keep a turn, in order. */
  function Kept(limits: Limits, dataset: seq<seq<Pair>>): seq<seq<Sample>> {
    if dataset == [] then []
    else
      var k := |dataset| - 1;
      var before, turns := Kept(limits, dataset[..k]), Turns(limits, dataset[k]);
      if turns != [] then before + [turns] else before
  }

  // ----- What is kept -----

  predicate NotBelow(limit: Option<int>, x: int) {
    match limit
    case None => true
    case Some(least) => least <= x
  }

  predicate NotAbove(limit: Option<int>, x: int) {
    match limit
    case None => true
    case Some(most) => x <= most
  }

  /** The length asked for: the fixed one if there is one, else the completion's. */
  predicate AsksFor(limits: Limits, pair: Pair, outputLen: int) {
    match limits.fixedOutput
    case None => outputLen == pair.completionLen
    case Some(fixed) => outputLen == fixed
  }

  /** The turn is within all four limits with the length asked for. */
  ghost predicate WithinLimits(limits: Limits, pair: Pair) {
    forall outputLen :: AsksFor(limits, pair, outputLen) ==>
      && NotBelow(limits.minPrompt, pair.promptLen) && NotAbove(limits.maxPrompt, pair.promptLen)
      && NotBelow(limits.minOutput, outputLen) && NotAbove(limits.maxOutput, outputLen)
  }

  ghost predicate IsSample(limits: Limits, pair: Pair, sample: Sample) {
    sample.prompt == pair.prompt && sample.promptLen == pair.promptLen && AsksFor(limits, pair, sample.outputLen)
  }

  predicate Upward(xs: seq<nat>) {
    forall i, j :: 0 <= i < j < |xs| ==> xs[i] < xs[j]
  }

  /** `turns` are the samples of exactly the turns within the limits, in order; these stand at `at`. */
  ghost predicate Picks(limits: Limits, conversation: seq<Pair>, turns: seq<Sample>, at: seq<nat>) {
    && Upward(at) && |at| == |turns|
    && (forall j: nat :: j in at <==> j < |conversation| && WithinLimits(limits, conversation[j]))
    && forall i :: 0 <= i < |at| && at[i] < |conversation| ==> IsSample(limits, conversation[at[i]], turns[i])
  }

  lemma PrunedExactly(limits: Limits, pair: Pair)
    ensures Pruned(limits, pair.promptLen, OutputLen(limits, pair)) <==> !WithinLimits(limits, pair)
    ensures AsksFor(limits, pair, OutputLen(limits, pair))
  {
    var outputLen := OutputLen(limits, pair);
    assert AsksFor(limits, pair, outputLen);
  }

  lemma {:induction false} TurnsArePicked(limits: Limits, conversation: seq<Pair>) returns (at: seq<nat>)
    ensures Picks(limits, conversation, Turns(limits, conversation), at)
  {
    at := [];
    if conversation != [] {
      var k := |conversation| - 1;
      var before := conversation[..k];
      at := TurnsArePicked(limits, before);
      PrunedExactly(limits, conversation[k]);
      forall i | 0 <= i < |at| ensures at[i] < k { assert at[i] in at; }
      if WithinLimits(limits, conversation[k]) {
        var more := at + [k];
        forall j: nat ensures j in more <==> j < |conversation| && WithinLimits(limits, conversation[j]) {
          assert j in more <==> j in at || j == k;
        }
        at := more;
      } else {
        forall j: nat ensures j in at <==> j < |conversation| && WithinLimits(limits, conversation[j]) {
          assert j < k ==> before[j] == conversation[j];
        }
      }
    }
  }

  /** The inner loop: the samples of exactly the turns within the limits, in order. */
  method FilterTurns(limits: Limits, conversation: seq<Pair>) returns (processed: seq<Sample>, ghost at: seq<nat>)
    ensures processed == Turns(limits, conversation)
    ensures Picks(limits, conversation, processed, at)
  {
    at := TurnsArePicked(limits, conversation);
    processed := [];
    for j := 0 to |conversation|
      invariant processed == Turns(limits, conversation[..j])
    {
      assert conversation[..j + 1][..j] == conversation[..j];
      var outputLen := OutputLen(limits, conversation[j]);
      if Pruned(limits, conversation[j].promptLen, outputLen) {
        continue;
      }
      processed := processed + [Sample(conversation[j].prompt, conversation[j].promptLen, outputLen)];
    }
    assert conversation[..|conversation|] == conversation;
  }

  function Min(a: nat, b: nat): nat {
    if a < b then a else b
  }

  /** One pass over the data: as many kept conversations as are still wanted. */
  function Pass(limits: Limits, dataset: seq<seq<Pair>>, taken: seq<seq<Sample>>, n: nat): seq<seq<Sample>>
    requires |taken| <= n
  {
    taken + Kept(limits, dataset)[..Min(|Kept(limits, dataset)|, n - |taken|)]
  }

  lemma KeptStep(limits: Limits, dataset: seq<seq<Pair>>, i: nat)
    requires i < |dataset|
    ensures Kept(limits, dataset[..i + 1])
         == Kept(limits, dataset[..i]) + (if Turns(limits, dataset[i]) != [] then [Turns(limits, dataset[i])] else [])
  {
    assert dataset[..i + 1][..i] == dataset[..i];
  }

  lemma {:induction false} KeptPrefix(limits: Limits, dataset: seq<seq<Pair>>, i: nat)
    requires i <= |dataset|
    ensures Kept(limits, dataset[..i]) <= Kept(limits, dataset)
    decreases |dataset| - i
  {
    if i < |dataset| {
      KeptStep(limits, dataset, i);
      KeptPrefix(limits, dataset, i + 1);
    } else {
      assert dataset[..i] == dataset;
    }
  }

  /** The conversation has a turn within the limits. */
  ghost predicate KeepsOne(limits: Limits, conversation: seq<Pair>) {
    exists j :: 0 <= j < |conversation| && WithinLimits(limits, conversation[j])
  }

  lemma KeepsExactly(limits: Limits, conversation: seq<Pair>)
    ensures Turns(limits, conversation) != [] <==> KeepsOne(limits, conversation)
  {
    var at := TurnsArePicked(limits, conversation);
    if at != [] { assert at[0] in at; }
    if j :| 0 <= j < |conversation| && WithinLimits(limits, conversation[j]) { assert j in at; }
  }

  /** `kept` are the turns of exactly the conversations that keep one, in order; these stand at `at`. */
  ghost predicate KeptAt(limits: Limits, dataset: seq<seq<Pair>>, kept: seq<seq<Sample>>, at: seq<nat>) {
    && Upward(at) && |at| == |kept|
    && (forall j: nat :: j in at <==> j < |dataset| && KeepsOne(limits, dataset[j]))
    && forall i :: 0 <= i < |at| && at[i] < |dataset| ==> kept[i] == Turns(limits, dataset[at[i]])
  }

  lemma {:induction false} KeptArePicked(limits: Limits, dataset: seq<seq<Pair>>) returns (at: seq<nat>)
    ensures KeptAt(limits, dataset, Kept(limits, dataset), at)
  {
    at := [];
    if dataset != [] {
      var k := |dataset| - 1;
      var before := dataset[..k];
      at := KeptArePicked(limits, before);
      KeepsExactly(limits, dataset[k]);
      forall i | 0 <= i < |at| ensures at[i] < k { assert at[i] in at; }
      if KeepsOne(limits, dataset[k]) {
        var more := at + [k];
        forall j: nat ensures j in more <==> j < |dataset| && KeepsOne(limits, dataset[j]) {
          assert j in more <==> j in at || j == k;
        }
        at := more;
      } else {
        forall j: nat ensures j in at <==> j < |dataset| && KeepsOne(limits, dataset[j]) {
          assert j < k ==> before[j] == dataset[j];
        }
      }
    }
  }

  /** The body of the outer loop. */
  method OnePass(limits: Limits, dataset: seq<seq<Pair>>, before: seq<seq<Sample>>,
          n: nat) returns (taken: seq<seq<Sample>>)
    requires |before| <= n
    ensures taken == Pass(limits, dataset, before, n)
  {
    taken := before;
    var l := |before|;
    for i := 0 to |dataset|
      invariant l == |taken| <= n && taken == before + Kept(limits, dataset[..i])
    {
      if l == n {
        KeptPrefix(limits, dataset, i);
        Cut(Kept(limits, dataset), Kept(limits, dataset[..i]));
        return taken;
      }
      KeptStep(limits, dataset, i);
      var processed, at := FilterTurns(limits, dataset[i]);
      if |processed| != 0 {
        taken := taken + [processed];
        l := l + 1;
      }
    }
    assert dataset[..|dataset|] == dataset;
    Cut(Kept(limits, dataset), Kept(limits, dataset));
  }

  lemma Cut(kept: seq<seq<Sample>>, part: seq<seq<Sample>>)
    requires part <= kept
    ensures kept[..|part|] == part
  {
  }

  // ----- Round and round -----

  /** Entry `k` is kept conversation `k` modulo the number kept. */
  ghost predicate RoundRobin(taken: seq<seq<Sample>>, kept: seq<seq<Sample>>)
    requires kept != []
  {
    forall k :: 0 <= k < |taken| ==> taken[k] == kept[k % |kept|]
  }

  lemma Remainder(x: int, m: int, q: int, r: int)
    requires 0 <= r < m && x == q * m + r
    ensures x % m == r
  {
    var d := q - x / m;
    assert x == (x / m) * m + x % m;
    assert d * m == x % m - r;
    Multiple(d, m);
  }

  lemma Multiple(d: int, m: int)
    requires m >= 0
    ensures (d >= 1 ==> d * m >= m) && (d <= -1 ==> d * m <= -m)
  {
  }

  /** A pass that starts on a multiple of the number kept continues the cycle. */
  lemma PassCycles(taken: seq<seq<Sample>>, kept: seq<seq<Sample>>, q: nat, more: nat)
    requires kept != [] && RoundRobin(taken, kept) && |taken| == q * |kept| && more <= |kept|
    ensures RoundRobin(taken + kept[..more], kept)
  {
    var all := taken + kept[..more];
    forall k | 0 <= k < |all| ensures all[k] == kept[k % |kept|] {
      if k >= |taken| {
        Remainder(k, |kept|, q, k - |taken|);
      }
    }
  }

  /** `common_filter_chat`: exactly `numRequests` entries, entry `k` being kept conversation `k`
      modulo the number kept. */
  method CommonFilterChat(numRequests: int, limits: Limits,
          dataset: seq<seq<Pair>>) returns (filtered: seq<seq<Sample>>, ghost at: seq<nat>)
    requires numRequests <= 0 || Kept(limits, dataset) != []
    ensures KeptAt(limits, dataset, Kept(limits, dataset), at)
    ensures |filtered| == if numRequests > 0 then numRequests else 0
    ensures numRequests > 0 ==> RoundRobin(filtered, Kept(limits, dataset))
  {
    at := KeptArePicked(limits, dataset);
    filtered := [];
    var l := 0;
    ghost var kept, q := Kept(limits, dataset), 0;
    while l < numRequests
      invariant l == |filtered| && (numRequests > 0 ==> l <= numRequests)
      invariant numRequests <= 0 ==> l == 0
      invariant numRequests > 0 ==> RoundRobin(filtered, kept)
      invariant l < numRequests ==> |filtered| == q * |kept|
    {
      var taken := OnePass(limits, dataset, filtered, numRequests);
      PassCycles(filtered, kept, q, Min(|kept|, numRequests - |filtered|));
      filtered, l, q := taken, |taken|, q + 1;
    }
  }

  // ----- Without a kept turn -----

  function Passes(limits: Limits, dataset: seq<seq<Pair>>, n: nat, passes: nat): (taken: seq<seq<Sample>>)
    ensures |taken| <= n
  {
    if passes == 0 then [] else Pass(limits, dataset, Passes(limits, dataset, n, passes - 1), n)
  }

  /** The outer loop ends after some number of passes exactly if nothing is wanted or some
      conversation keeps a turn: otherwise no pass ever adds an entry. */
  lemma ProgressExactly(limits: Limits, dataset: seq<seq<Pair>>, n: nat)
    ensures (exists passes :: |Passes(limits, dataset, n, passes)| == n) <==> n == 0 || Kept(limits, dataset) != []
  {
    if Kept(limits, dataset) == [] {
      forall passes ensures Passes(limits, dataset, n, passes) == [] { NoProgress(limits, dataset, n, passes); }
    } else {
      Enough(limits, dataset, n, n);
    }
    assert |Passes(limits, dataset, 0, 0)| == 0;
  }

  lemma {:induction false} NoProgress(limits: Limits, dataset: seq<seq<Pair>>, n: nat, passes: nat)
    requires Kept(limits, dataset) == []
    ensures Passes(limits, dataset, n, passes) == []
  {
    if passes > 0 { NoProgress(limits, dataset, n, passes - 1); }
  }

  lemma {:induction false} Enough(limits: Limits, dataset: seq<seq<Pair>>, n: nat, passes: nat)
    requires Kept(limits, dataset) != []
    ensures |Passes(limits, dataset, n, passes)| >= Min(n, passes)
  {
    if passes > 0 { Enough(limits, dataset, n, passes - 1); }
  }
}
