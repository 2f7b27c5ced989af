# Verified models of SGLang's trace converter, workload generators and measurement tools

Dafny models of the parts of the repository that carry algorithmic state of their own, with proofs
of what they promise. `dafny verify dfyconfig.toml` checks everything.

**Trace converter** (`Lanes`, `Layout`, `LaneOptimality`, `LaneColouring`, `LaneTightness`, `LaneWaste`,
`LaneBound`, `LayoutRule`, `LayoutPass`, `TraceSteps`, `TraceLayout`, `SpanForest`, `SpanPasses`, `SpanPipeline`, `TraceOrder`,
`TraceLanes`, `TraceConvert`). Spans of a process are drawn on lanes. A lane is a sorted list; whether a
span fits is decided by bisection and two neighbours. The models cover the container, the lane search
with its in-place dictionaries, the layout of a whole trace, the span forest built from arbitrary parent
ids, the recursive passes, and all of it end to end. Times are those after the shift by 1000 ns, so an
end may lie before its start. A lane is in order if of any two spans on it one ends before the other
starts; a layout is without overlap if no two spans on a lane share an instant, which is less for spans
of zero length. Two plausible laws fail. Lanes stay in order exactly if no zero-length span was put,
unchecked, on a busy lane. The number of lanes is the fewest any layout without overlap can use for
positive spans in start order; both conditions are needed. For any spans it is the fewest after every
step exactly if every lane opened beside others met more spans at one instant than there were lanes.
Between several roots it is at most the sum of what each root needs.

**Workloads** (`ReadyQueue`, `Multiturn*`, `Conversation`, `Serving`, `ServingOrder`, `Mix`, `MixRun`,
`MixTheorems`, `MixCounter`, `MixOrder`, `MixStats`). Sender, event loop and handler are interleaved step by
step, with every read and write of the shared counters a step of its own where two threads touch them. Theorems are about
every state of every run: any interleaving, pop order, response and pattern of failures. Objects
whose methods change them (the ready queue, a conversation's request record, the user generator)
are classes proved against the same specification functions the state machines use.

**Cold experts** (`ColdSet`, `ColdTable`, `ColdShip`). A stable sort whose prefixes are optimal spill
sets, by an exchange argument, and what this means for the printed scores and the shipped table.

**Measurements** (`Totals`, `Grouping`, `CounterRate`, `HitRate`, `Sse`, `SseLines`, `SseCut`, `Generation`,
`Rollout`, `Windows`, `Recording`, `WarmCache`). Counter rates, hit percentages regrouped by worker,
the event reader, the streaming recorder, the conversation it serves, the analyser's windows and
inter-token latencies. Numbers are exact reals or integers.

**Data filter** (`CyclicFilter`). A nested loop that ends only under a condition.

Where the code differs from what its comments or neighbours suggest, the models follow the code:

- The lane search returns the request's lane unchecked for a zero-length span.
- Gateway spans never get a `child` list, so converting a non-empty gateway list fails at
  `scripts/convert_otel_2_perfetto.py:226`; `ConvertTrace` states this. The layout pass is modelled on
  its own inputs, with gateway spans as leaves.
- The mixed workload inserts a returning user at the index its scan stopped at, not at the computed
  one, and a failed response never gives its slot back.
- The event reader removes all leading spaces of a value, the standard one. It reports a cut stream
  only if a `data:` tag and nothing of the closing blank line has arrived.
- The completed counter of the mixed workload is written by two threads without a lock and loses
  completions as soon as two requests may be open.
- A counter reset is a gap only if the counter has not recovered by the next scrape.
- A time to first token of zero counts as not yet known in the warm-cache loop.

`Wrappers`, `Sums`, `Places` and `Ordering` hold shared definitions and lemmas.

## Model

| member | source | states |
|---|---|---|
| `Lanes.BisectSplits` | scripts/convert_otel_2_perfetto.py:59 | the bisection point of an ordered list separates exactly the intervals below the key from the rest |
| `Lanes.FastCheckExact` | scripts/convert_otel_2_perfetto.py:58-70 | on a lane of positive spans, looking at two neighbours answers yes for a positive query if and only if some stored span shares an instant with it |
| `Lanes.CheckMeans` | scripts/convert_otel_2_perfetto.py:58-70 | on any lane in order and for spans of any length: a span is rejected if and only if its start lies strictly inside a stored span or a stored span starts within it |
| `Lanes.NoOverlapApart` | scripts/convert_otel_2_perfetto.py:58-70 | a negative answer means the query is apart from every stored interval, also for zero and negative lengths |
| `Lanes.InsertKeepsLane` | scripts/convert_otel_2_perfetto.py:58-73 | a span that passed the check can be inserted with the lane staying sorted and each end at most every later start |
| `Lanes.LaneInsertExact` | scripts/convert_otel_2_perfetto.py:72-73 | an insertion keeps the lane invariant if and only if the lane was in order and the check passes; decides the unchecked zero-length insertions |
| `Lanes.ZeroLengthRejected` | scripts/convert_otel_2_perfetto.py:58-70 | a rejected zero-length query has a stored span it is not apart from |
| `Lanes.LaneCoversOnce` | scripts/convert_otel_2_perfetto.py:54-73 | a lane in order shows at most one span at any instant |
| `Lanes.SpanLayoutContainer.CheckOverlap` | scripts/convert_otel_2_perfetto.py:58-70 | the loop-free check of the container object computes the specified answer |
| `Lanes.SpanLayoutContainer.InsertSpan` | scripts/convert_otel_2_perfetto.py:72-73 | insertion in place: the new list is the specified one, and an accepted span keeps the lane invariant |
| `Layout.FirstFree` | scripts/convert_otel_2_perfetto.py:111-114 | first fit: the returned lane accepts the span and all earlier lanes reject it |
| `Layout.ChosenExactly` | scripts/convert_otel_2_perfetto.py:95-120 | the chosen line is the only one that follows the rule: the request's lane if it takes the span or the span has zero length, else the first lane that takes it, else a new one; a lane is opened if and only if all lanes reject the span and no unchecked lane is at hand; a lane that rejects the span is chosen for zero lengths only |
| `Layout.PutKeepsBoard` | scripts/convert_otel_2_perfetto.py:104-120 | lane numbers per process stay 1..n and each lane has exactly one slot record |
| `Layout.Run` | scripts/convert_otel_2_perfetto.py:278-309 | every reachable state keeps the numbering of lanes, the slot records and the request's lane table consistent; what the run computes is stated by LayoutRule.RunFollows |
| `LayoutRule.RunFollows` | scripts/convert_otel_2_perfetto.py:95-120 | the lines a run gives follow the rule, stated on the spans and lines alone: a request starts without a line, keeps its last line of a process where it may, and otherwise takes the first line whose spans so far accept the span |
| `LayoutRule.FollowsOnce` | scripts/convert_otel_2_perfetto.py:95-120 | the rule determines every line: two line sequences that follow it on the same requests are equal |
| `Layout.StepSafeExact` | scripts/convert_otel_2_perfetto.py:95-120 | one placement keeps all lanes of a process in order if and only if they were and the placement is not an unchecked zero-length clash |
| `Layout.LaneSafetyExact` | scripts/convert_otel_2_perfetto.py:278-309 | for every sequence of roots and spans, all lanes of a process are in order if and only if no unchecked zero-length span landed on a busy lane |
| `Layout.NoZeroLengthClashFree` | scripts/convert_otel_2_perfetto.py:98-99 | without spans whose shifted end equals their start no clash can happen, negative lengths included |
| `Layout.PictureExact` | scripts/convert_otel_2_perfetto.py:278-309 | of any two drawn spans of one process on one lane one ends before the other starts, if and only if the run had no clash |
| `Layout.ZeroLengthHidesBusyLane` | scripts/convert_otel_2_perfetto.py:98-99 | the counterexample family: a zero-length span inside a busy lane lets every later span onto that lane |
| `LaneOptimality.RunDepth` | scripts/convert_otel_2_perfetto.py:278-309 | at every instant the lanes together show exactly the placed spans |
| `LaneOptimality.OpeningIsTight` | scripts/convert_otel_2_perfetto.py:116-120 | with positive spans in start order a lane is opened only at an instant at which all lanes and the new span are busy |
| `LaneOptimality.LanesOptimal` | scripts/convert_otel_2_perfetto.py:95-120 | with positive spans in start order the number of lanes equals the maximum number of spans covering one instant, and no layout without overlap uses fewer |
| `LaneColouring.Colour` | scripts/convert_otel_2_perfetto.py:95-120 | the reference for the number of lanes: if at most d >= 1 spans share any instant, some layout without overlap stays within d lanes |
| `LaneColouring.NeedsExactly` | scripts/convert_otel_2_perfetto.py:95-120 | for spans of any lengths in any order, every layout without overlap needs at least n lanes if and only if n spans share an instant, or n is one and there is a span |
| `LaneTightness.FewestExactly` | scripts/convert_otel_2_perfetto.py:95-120 | for every run, clashes included: no layout without overlap uses fewer lanes if and only if there is at most one lane or as many spans share an instant |
| `LaneTightness.FewestClashFree` | scripts/convert_otel_2_perfetto.py:95-120 | in runs without clash: if and only if there is at most one lane or as many lanes as spans at the busiest instant |
| `LaneTightness.NeverTooManyExactly` | scripts/convert_otel_2_perfetto.py:95-120 | for every run, in any order, for any lengths and with clashes: the lanes are the fewest possible after every step, if and only if each step that opened a lane where the process already had one met more spans at one instant than there were lanes |
| `LaneTightness.CrowdedClashFree` | scripts/convert_otel_2_perfetto.py:95-120 | in runs without clash such a step is one whose span shares an instant with something on every lane |
| `LaneTightness.BusiestThroughoutExactly` | scripts/convert_otel_2_perfetto.py:95-120 | in runs without clash the lanes equal the spans at the busiest instant after every step, if and only if each opened lane, the first included, was for a span that shares an instant with something on every lane |
| `LaneTightness.LoneEmptySpan` | scripts/convert_otel_2_perfetto.py:95-120 | the difference between the two: one span of zero or negative length gets one lane, which is the fewest possible although no instant is busy |
| `LaneTightness.LeftRejectionsTight` | scripts/convert_otel_2_perfetto.py:61-64 | a positive span that every lane rejects at the check's first branch opens its lane in that way, whatever the order of arrival |
| `LaneWaste.OutOfOrderWastesLane` | scripts/convert_otel_2_perfetto.py:269-293 | start order is needed: three roots, sorted as the pass leaves them, get three lanes although a proper layout of the same spans uses two, for every such choice of times |
| `LaneWaste.ZeroLengthWastesLane` | scripts/convert_otel_2_perfetto.py:269-293 | positive lengths are needed: one root in start order with a zero-length span and a longer one from the same instant gets two lanes although one suffices |
| `LayoutPass.Pass.FindLine` | scripts/convert_otel_2_perfetto.py:95-120 | the object version of the lane search, with dictionaries updated in place, returns the specified line and changes nothing but the lane it opens and the request's table |
| `LayoutPass.Pass.ScanLanes` | scripts/convert_otel_2_perfetto.py:111-114 | the loop over a process's lanes finds the first one that accepts the span |
| `LayoutPass.Pass.OpenLane` | scripts/convert_otel_2_perfetto.py:104-109 | a new lane gets the next number, an empty container and one slot record |
| `LayoutPass.Pass.PlaceSpan` | scripts/convert_otel_2_perfetto.py:282-292 | find a line and insert: the heap of containers shows the specified board afterwards |
| `TraceLayout.LayoutRequest` | scripts/convert_otel_2_perfetto.py:279-293 | the loop over one request's spans gives out the specified lines |
| `TraceLayout.GenerateLayout` | scripts/convert_otel_2_perfetto.py:269-309 | the whole layout pass: fails if and only if some root has no spans; otherwise each span, in the order of the sorted roots and their sorted spans, stays on the line its request last used for the process if it has zero length or that line accepts it, else is on the first line that accepts it or a new one; exactly the lines that were opened are announced |
| `TraceLayout.RequestsSorted` | scripts/convert_otel_2_perfetto.py:270-277 | the roots are laid out by their first start, the gateway list last, each list sorted by start, and together they hold every span of the input exactly as often as the input does |
| `LaneBound.RequestOpens` | scripts/convert_otel_2_perfetto.py:278-293 | a request with positive spans of a process opens at most as many lanes as its own spans share an instant |
| `LaneBound.TraceLanesBetween` | scripts/convert_otel_2_perfetto.py:269-309 | any number of roots: the lanes opened are at least the busiest instant of the input trace and at most the busiest instants of the roots added up |
| `LaneBound.TraceLanesOptimal` | scripts/convert_otel_2_perfetto.py:269-309 | so for a process used by one root only (or the gateway) the lanes opened equal the busiest instant of the input trace, and no layout without overlap uses fewer |
| `TraceLayout.TracePicture` | scripts/convert_otel_2_perfetto.py:269-309 | for whole traces: any two spans drawn on one lane are in order, and all lanes are, if and only if there is no clash; in particular without zero-length spans |
| `SpanForest.BuildSpanTree` | scripts/convert_otel_2_perfetto.py:172-196 | for any parent ids: the roots are exactly the spans of the request module, and a span is in exactly the child list of the last span of the trace with the id it names as parent, request spans in none; every list is in input order |
| `SpanForest.ChildrenAreLinked` | scripts/convert_otel_2_perfetto.py:172-196 | the same of the specification functions the passes use |
| `SpanForest.DepthUnique` | scripts/convert_otel_2_perfetto.py:172-196 | a span hangs at one depth below one chain of parents only |
| `SpanForest.DepthBounded` | scripts/convert_otel_2_perfetto.py:199-227 | depth below a root is less than the number of spans, for cyclic, self-referring and dangling parents too: the recursive passes terminate |
| `SpanForest.SameDepthDisjoint` | scripts/convert_otel_2_perfetto.py:226-227 | two spans at one depth have no descendant in common |
| `SpanForest.VisitedMembers` | scripts/convert_otel_2_perfetto.py:226-227 | a recursive pass visits exactly the span and everything below it |
| `SpanForest.VisitedDistinct` | scripts/convert_otel_2_perfetto.py:226-227 | and visits nothing twice |
| `SpanPasses.ConvertSpan` | scripts/convert_otel_2_perfetto.py:199-227 | the recursive conversion stamps the process id on the visited spans and moves each end by 1000 ns per visit |
| `SpanPasses.SetSpanTid` | scripts/convert_otel_2_perfetto.py:262-266 | the recursive lane pass sets the lane of the visited spans and no other |
| `SpanPasses.GatherOneSpan` | scripts/convert_otel_2_perfetto.py:396-407 | the recursive gathering returns the visited spans in visiting order |
| `SpanPasses.EmittedExactlyOnce` | scripts/convert_otel_2_perfetto.py:410-424 | gathering from all spans of a level, in any order, emits each span at least that deep exactly once and nothing else |
| `SpanPipeline.BelongsOnce` | scripts/convert_otel_2_perfetto.py:251-253 | no span belongs to two top spans |
| `SpanPipeline.ConvertAll` | scripts/convert_otel_2_perfetto.py:230-253 | over all top spans: each deep span gets its thread's process id and its end moves exactly once; no other span changes |
| `SpanPipeline.SetAllTids` | scripts/convert_otel_2_perfetto.py:281-293 | over all top spans: each deep span gets its top ancestor's lane; no other span changes |
| `TraceOrder.MapSort` | scripts/convert_otel_2_perfetto.py:271-277 | sorting spans by start and sorting their positions by the start of the span agree, stability included |
| `TraceOrder.OrdersAreLevels` | scripts/convert_otel_2_perfetto.py:269-277 | the visiting order, the layout order and the gathering order each hold every top span once |
| `TraceLanes.DepthOfTops` | scripts/convert_otel_2_perfetto.py:230-258 | the depth the layout sees at an instant is the number of top spans of the process covering it in the trace |
| `TraceLanes.DepthUnderRoot` | scripts/convert_otel_2_perfetto.py:230-258 | and the depth it sees of one root is the number of top spans under that root covering the instant |
| `TraceLanes.LanesBounded` | scripts/convert_otel_2_perfetto.py:104-120 | for a process whose top spans are positive, under any number of roots: exactly the lanes 1..n are announced, n being at least the top spans at the busiest instant and at most the busiest instants of the roots, each taken alone, added up |
| `TraceLanes.LanesFewest` | scripts/convert_otel_2_perfetto.py:104-120 | and if they hang off one root, n is the number of top spans at the busiest instant, and no lane assignment of the trace that keeps its lanes in order uses fewer |
| `TraceConvert.ConvertTrace` | scripts/convert_otel_2_perfetto.py:172-424 | the converter end to end on any engine and gateway spans: fails if and only if there is a gateway span or some root has no span two links below it; otherwise each deep span is written once, its end moved once, on its top ancestor's lane and under the process its thread span names; the lanes follow the rule of the lane search; the lanes of a process are in order if and only if there was no clash; for positive spans the announced lanes lie between the busiest instant and the roots' busiest instants added up, and under one root they are the fewest possible |
| `TraceConvert.NoZeroLengthNoClash` | scripts/convert_otel_2_perfetto.py:98-99 | no clash if no top span of the process has a shifted end equal to its start |
| `Ordering.SortBySorts` | scripts/convert_otel_2_perfetto.py:271-277 | the sort returns a sorted permutation |
| `Ordering.SortByStable` | scripts/dsv41_cold_set_from_dumps.py:43 | and keeps elements with equal keys in input order |
| `ReadyQueue.ReadyQueue.Append` | benchmark/hicache/bench_multiturn.py:194-196 | appending keeps everything given equal to everything taken plus what is queued |
| `ReadyQueue.ReadyQueue.Pop` | benchmark/hicache/bench_multiturn.py:198-209 | none on an empty queue, an error for an unknown policy, else the drawn or first item; nothing is lost or doubled, and under fifo items leave in the order they came |
| `Multiturn.RequestsCountedTwice` | benchmark/hicache/bench_multiturn.py:264-268 | the sum of clients_per_round is total_requests |
| `MultiturnSafety.PlacedNext` | benchmark/hicache/bench_multiturn.py:404-542 | every step of every interleaving keeps each client's request in exactly one place |
| `MultiturnBarrier.FinishedAll` | benchmark/hicache/bench_multiturn.py:528-530 | the barrier's count reaches the expected number exactly when all participants of the round have finished it |
| `MultiturnTheorems.InvNext` | benchmark/hicache/bench_multiturn.py:404-542 | the whole invariant (places, records, counters, barrier) is kept by every step |
| `MultiturnTheorems.RunKeepsInv` | benchmark/hicache/bench_multiturn.py:404-542 | and holds in every state of every run, whatever the pop order, interleaving and failures |
| `MultiturnTheorems.SubQuestionsNeverRunOut` | benchmark/hicache/bench_multiturn.py:488-490 | popping a sub-question never meets an empty list if as many were sampled as the generator asks for |
| `MultiturnTheorems.ConcurrencyBound` | benchmark/hicache/bench_multiturn.py:404-417 | completed never exceeds sent, and sent minus completed never exceeds max_parallel, although test and increment are separate steps |
| `MultiturnTheorems.BarrierSafety` | benchmark/hicache/bench_multiturn.py:522-542 | with the barrier on: while a request of round r+1 is live all participants of round r have succeeded in it, and all live requests belong to one round |
| `MultiturnTheorems.FailurePinsRound` | benchmark/hicache/bench_multiturn.py:446-449 | with the barrier on: after a failed request every later live request belongs to that request's round |
| `MultiturnTheorems.HistoriesExtend` | benchmark/hicache/bench_multiturn.py:451-520 | one outstanding request per client; each dispatched history extends the previous one; the history of an open request is not touched |
| `MultiturnHistory.PayloadsAre` | benchmark/hicache/bench_multiturn.py:451-520 | over every run, read off its steps: a client's first payload is its prompt, and each later one is the payload before, then the answer to it, then the sub-question drawn for it, if any, from the end of the sampled pool |
| `MultiturnOrder.ResponsesInOrder` | benchmark/hicache/bench_multiturn.py:389-445 | over every run, responses are handled in the order the requests end, each as it came |
| `MultiturnOrder.ReleasedInOrder` | benchmark/hicache/bench_multiturn.py:517-540 | with the barrier on, parked clients are released in the order their next requests were made, none lost or doubled |
| `MultiturnOrder.PoppedInOrder` | benchmark/hicache/bench_multiturn.py:194-209 | under the fifo policy requests are dispatched in the order they became ready, over every run |
| `MultiturnOrder.TestExactly` | benchmark/hicache/bench_multiturn.py:407 | the sender's test passes if and only if fewer requests than max_parallel are running, answered or in the handler's hands |
| `MultiturnTheorems.WorkConserved` | benchmark/hicache/bench_multiturn.py:437-542 | a run without failures that has come to rest has dispatched exactly each client's total_rounds requests and completed all of total_requests, with or without the barrier |
| `MultiturnProgress.ChosenProgress` | benchmark/hicache/bench_multiturn.py:404-542 | in every state that is not at rest a fixed schedule has a step that takes work away or brings the sender nearer to one that does |
| `MultiturnProgress.CanFinish` | benchmark/hicache/bench_multiturn.py:404-542 | every run without failures and not stopped by its deadline can be continued without failures until it comes to rest with all requests of all clients sent and completed |
| `MultiturnProgress.FinishPossibleExactly` | benchmark/hicache/bench_multiturn.py:404-417 | some run finishes if and only if max_parallel is positive or there are no clients |
| `Conversation.RequestFuncInput.BeginTurn` | benchmark/hicache/bench_serving.py:99-116 | the first half of a turn in place: prompt length and the appended user message |
| `Conversation.RequestFuncInput.FinishTurn` | benchmark/hicache/bench_serving.py:172-190 | the second half in place: actual output length, assistant message, progress and whether to queue again |
| `Conversation.BeginAnswered` | benchmark/hicache/bench_serving.py:99-116 | turn k starts with 2k alternating messages and a prompt length that sums the inputs and the outputs actually produced |
| `Conversation.SucceedAnswered` | benchmark/hicache/bench_serving.py:172-190 | a success keeps the transcript in step, and the conversation is queued again exactly if turns are left |
| `Serving.FlattenKeepsRequests` | benchmark/hicache/bench_serving.py:414-420 | flattening for a shared prefix keeps num_actual_requests and leaves one-turn conversations |
| `Serving.InvNext` | benchmark/hicache/bench_serving.py:263-283 | every step of every interleaving keeps each conversation in one place and its record consistent |
| `Serving.QueueNeverBlocks` | benchmark/hicache/bench_serving.py:421 | in every run the bounded queue has room for every put, and a conversation is never queued and running at once |
| `Serving.TurnsInOrder` | benchmark/hicache/bench_serving.py:99-116 | whatever fails, turns are asked in order, each once, with the prompt length of the actual outputs, on an alternating history |
| `ServingOrder.FirstInFirstOut` | benchmark/hicache/bench_serving.py:186-277 | over every run, what was put into the queue (all conversations, then each whose turn ended with another to come) is what was taken out, in that order, and then what is queued |
| `ServingOrder.RepliesAre` | benchmark/hicache/bench_serving.py:99-190 | a conversation's messages and lengths are those of its turns with the replies its own requests got, in order |
| `Serving.AllTurnsRun` | benchmark/hicache/bench_serving.py:480-493 | without failures, once all tasks have run: num_actual_requests gets were made if and only if every conversation had each turn once; only empty conversations can be left over |
| `Serving.GetterNotStarved` | benchmark/hicache/bench_serving.py:263-277 | without failures there is a queued or running conversation until all gets have been made |
| `Mix.RoundsFor` | benchmark/hicache/bench_mix.py:199-207 | the number of rounds is one more than the index of the first ratio above the drawn value, or all rounds |
| `Mix.InsertionOrderExact` | benchmark/hicache/bench_mix.py:259-267 | the queue is not kept sorted: an insertion keeps it sorted if and only if it was empty or the new start is not after the last one |
| `MixOrder.SecondInFront` | benchmark/hicache/bench_mix.py:259-267 | a run from the start in which the second user to return, with a later start, is queued in front of the first |
| `MixOrder.DisorderPossibleExactly` | benchmark/hicache/bench_mix.py:259-267 | some run has its queue out of order if and only if num_clients is at least one and there are at least two rounds |
| `Mix.GenerateBalanced` | benchmark/hicache/bench_mix.py:195-227 | a new user keeps the round accounting |
| `Mix.PushBalanced` | benchmark/hicache/bench_mix.py:229-267 | a returning user keeps the round accounting |
| `MixStats.StatsAre` | benchmark/hicache/bench_mix.py:195-267 | over every run each round's token and request counts are the sums over the steps that entered or answered it, and user_stats[r] is the number of users with r + 1 rounds |
| `MixStats.UsersAre` | benchmark/hicache/bench_mix.py:195-267 | every user has the rounds drawn for it and is in the round it came back to |
| `MixStats.ResponsesInOrder` | benchmark/hicache/bench_mix.py:416-458 | responses are handled in the order the requests end, each as it came |
| `MixStats.TestExactly` | benchmark/hicache/bench_mix.py:431 | the sender's test passes if and only if open requests, failed responses and lost completions together are fewer than num_clients |
| `Mix.UserGenerator.GenUser` | benchmark/hicache/bench_mix.py:195-227 | the generator object creates the specified user and keeps its accounting |
| `Mix.UserGenerator.PopUser` | benchmark/hicache/bench_mix.py:269-276 | a queued user is handed out only after its start time; otherwise a new one is made |
| `Mix.UserGenerator.PushUser` | benchmark/hicache/bench_mix.py:229-267 | the specified statistics and the insertion at the index the scan stopped at |
| `MixRun.CountsNext` | benchmark/hicache/bench_mix.py:417-472 | every step keeps the slot accounting although two threads update the completed counter without a lock |
| `MixTheorems.UsersNext` | benchmark/hicache/bench_mix.py:195-276 | every step keeps each user in one place, its round below its total, and the accounting balanced |
| `MixTheorems.RunExtends` | benchmark/hicache/bench_mix.py:417-472 | in every reachable state every enabled step can be taken: no statistic is indexed outside the configured rounds |
| `MixTheorems.RoundsAccounted` | benchmark/hicache/bench_mix.py:195-276 | over every run and for every round, requests entered minus requests answered is the number of users queued, in flight, in hand or lost in that round |
| `MixTheorems.ReleasedOnTime` | benchmark/hicache/bench_mix.py:269-276 | no step of a run takes a user out of the queue before its start time |
| `MixTheorems.SlotsBounded` | benchmark/hicache/bench_mix.py:430-439 | open requests and failed responses together never exceed num_clients, despite the unlocked counter |
| `MixTheorems.LeakedSlots` | benchmark/hicache/bench_mix.py:462-463 | a failed response never gives its slot back: after num_clients of them the sender never passes its test again |
| `MixCounter.CounterExact` | benchmark/hicache/bench_mix.py:423-425 | for every prefix of every run: the completed counter equals the completions if and only if no write so far was stale; it never exceeds them |
| `MixCounter.SlotsReturned` | benchmark/hicache/bench_mix.py:417-472 | at rest the slots in use are the failed responses plus the lost completions: all are back if and only if there were neither, and the sender's test fails if and only if the leaked slots reach num_clients |
| `MixCounter.StuckForGood` | benchmark/hicache/bench_mix.py:430-439 | once the leaked slots reach num_clients with no request open, no later step sends a request |
| `MixCounter.CanGetStuck` | benchmark/hicache/bench_mix.py:462-463 | every configuration has a run that gets there by failed responses alone |
| `MixCounter.LostUpdate` | benchmark/hicache/bench_mix.py:423-425 | from any reachable state with a response in hand and a request open, a continuation of the run counts two completions as one |
| `MixCounter.LossPossibleExactly` | benchmark/hicache/bench_mix.py:423-425 | some run loses a completion if and only if num_clients is at least two |
| `ColdSet.ArgsortOrder` | scripts/dsv41_cold_set_from_dumps.py:43 | the cold order is a permutation of the ids, ascending in hits, ties in id order |
| `ColdSet.Exchange` | scripts/dsv41_cold_set_from_dumps.py:46-51 | the exchange identity behind the optimality |
| `ColdSet.ColdestPrefixOptimal` | scripts/dsv41_cold_set_from_dumps.py:36-51 | for every s, no set of s experts is hit less than the first s of the cold order |
| `ColdTable.ColdOrderExact` | scripts/dsv41_cold_set_from_dumps.py:36-43 | fails if and only if the expert count is not ep*local; otherwise every layer and rank gets a permutation of its experts, ascending in that rank's hits, ties in id order |
| `ColdTable.ColdOrderBest` | scripts/dsv41_cold_set_from_dumps.py:46-51 | over all layers and ranks, no table spills fewer hits than the cold order, for any number of spilled experts |
| `ColdTable.TotalMonotone` | scripts/dsv41_cold_set_from_dumps.py:46-51 | spilling more experts never spills fewer hits |
| `ColdTable.TotalBelowUniform` | scripts/dsv41_cold_set_from_dumps.py:46-51 | in sample the cold order spills at most its uniform share |
| `ColdShip.SliceKeeps` | scripts/dsv41_cold_set_from_dumps.py:49 | the slice keeps exactly the positions below the spill value, a negative one counting from the last position |
| `ColdShip.ScoreIs` | scripts/dsv41_cold_set_from_dumps.py:46-51 | the score times all hits (or one if there are none) is the hits of the spilled experts times topk and the number of layers |
| `ColdShip.FittedScoreBest` | scripts/dsv41_cold_set_from_dumps.py:79-86 | in sample no table scores better than the fitted one |
| `ColdShip.FittedBelowTail` | scripts/dsv41_cold_set_from_dumps.py:78-86 | in sample the fitted table is never above the tail placement |
| `ColdShip.FittedScoreMonotone` | scripts/dsv41_cold_set_from_dumps.py:79-80 | the in-sample score grows with the number spilled |
| `ColdShip.UniformExactly` | scripts/dsv41_cold_set_from_dumps.py:86 | the in-sample score is at most the printed uniform figure if and only if the spill argument is not negative (or the figure is trivially zero) |
| `ColdShip.ShippedBest` | scripts/dsv41_cold_set_from_dumps.py:74-90 | the shipped table is the best fixed table for all dumps together, with or without a held-out dump |
| `CounterRate.CounterRate` | benchmark/agentic-rollout/metrics.py:17-31 | there is a rate if and only if time passed and no series is missing, not finite or falling and there is one; times the duration it is the sum of the new values minus the sum of the old |
| `CounterRate.RatesCompose` | benchmark/agentic-rollout/metrics.py:17-31 | rates over adjacent intervals compose: the joined rate exists, is not negative, and rate times duration adds up |
| `CounterRate.ChainRate` | benchmark/agentic-rollout/metrics.py:17-31 | the same for every gap-free chain of scrapes |
| `CounterRate.PartsExactly` | benchmark/agentic-rollout/metrics.py:17-31 | for chains of any length: all parts have a rate if and only if the whole has one and every series of the name is in all scrapes, finite and never falling |
| `CounterRate.ResetHidden` | benchmark/agentic-rollout/metrics.py:21-30 | the converse of composing fails: any drop that is made up for by the end, from any value, hides inside the longer interval |
| `Grouping.GroupsAdd` | benchmark/agentic-rollout/metrics.py:84 | one setdefault-and-store keeps the dictionary of dictionaries equal to the cells seen |
| `Grouping.ColumnTotal` | benchmark/agentic-rollout/metrics.py:87 | summing one entry per worker sums exactly one column of cells |
| `HitRate.SplitInjective` | benchmark/agentic-rollout/metrics.py:77-84 | labels without the mode, together with the mode, determine the series |
| `HitRate.FullIsComplete` | benchmark/agentic-rollout/metrics.py:85-86 | all workers have all modes if and only if every series has its siblings |
| `HitRate.FillWorkers` | benchmark/agentic-rollout/metrics.py:75-84 | the loop, in any order, gives up exactly if some series is unusable, and otherwise holds every series once |
| `HitRate.HitPercentages` | benchmark/agentic-rollout/metrics.py:69-96 | the figures exist if and only if the series are usable and complete and some tokens were counted; then they are, against the growth of all tokens, the growth of the device tokens, of the host tokens and of all but the input tokens; regrouping loses and doubles nothing |
| `HitRate.FiguresBounded` | benchmark/agentic-rollout/metrics.py:51-96 | three Nones, or 0 <= L1, 0 <= L2 and L1 + L2 <= total <= 100 |
| `Sse.SseEvents` | benchmark/agentic-rollout/simulate.py:42-54 | the reader's events and its truncation error are those of the specified line automaton |
| `Sse.RoundTrip` | benchmark/agentic-rollout/simulate.py:42-54 | reading printed events, with any padding and either line end, gives the same list if and only if no payload line begins with a space or ends in a carriage return; always one event each and no error |
| `SseLines.ValueCarried` | benchmark/agentic-rollout/simulate.py:52 | the value of a line is what follows the tag without the spaces before it and the line ends behind it |
| `SseLines.StreamRead` | benchmark/agentic-rollout/simulate.py:42-54 | on any lines, cut into blocks at the blank ones: one event for each block with a data line, its values joined, and the values left over, which are the error, are those after the last blank line |
| `SseLines.HasBlocks` | benchmark/agentic-rollout/simulate.py:42-54 | and every sequence of lines can be cut so |
| `SseCut.CutFrame` | benchmark/agentic-rollout/simulate.py:42-54 | a cut after any character of any line of a frame: the events are the complete frames, and the cut one once a character of its blank line is there; an error is raised if and only if at least the tag of the first line and nothing of the blank line has arrived |
| `SseCut.Truncation` | benchmark/agentic-rollout/simulate.py:42-54 | the same for every proper prefix of the printed text, split into lines as the reader receives them |
| `SseCut.UnnoticedTag` | benchmark/agentic-rollout/simulate.py:51 | a cut inside the first tag of a frame raises no error, whatever came before |
| `SseCut.WholeText` | benchmark/agentic-rollout/simulate.py:42-46 | splitting the whole printed text gives back the printed lines, so the round trip is one of texts |
| `Sse.StandardExactly` | benchmark/agentic-rollout/simulate.py:52 | the value agrees with section 9.2.6 of the WHATWG HTML Standard exactly if it does not begin with two spaces |
| `Generation.Generate` | benchmark/agentic-rollout/simulate.py:69-127 | success if and only if the stream is complete by the stated conditions; the recorded arrivals are the rises in the count, on failure too; the ids are those of the last event that replaces them, or all appended ones in order |
| `Generation.RisesRise` | benchmark/agentic-rollout/simulate.py:84-91 | recorded counts start above zero, rise strictly and end at the last count seen |
| `Generation.RisesAre` | benchmark/agentic-rollout/simulate.py:86-91 | there is one arrival for each event whose count rises, with that event's time and count, in order, and no other |
| `Generation.IdsMean` | benchmark/agentic-rollout/simulate.py:92-96 | the ids: appended event by event if incremental, else those of the last event that has any, and none if none has |
| `Generation.RankTable` | benchmark/agentic-rollout/simulate.py:114-119 | any rank may answer if none was asked for, else the one asked for, and no rank at all only for rank 0 of a single one |
| `Generation.SuccessRecorded` | benchmark/agentic-rollout/simulate.py:99-111 | a success leaves strictly rising counts ending at max_new_tokens and as many ids |
| `Rollout.SyntheticTokens` | benchmark/agentic-rollout/simulate.py:30-39 | exactly the length asked for (none for negative lengths), cycling through the encoded text; an error for an empty encoding |
| `Rollout.Conversation` | benchmark/agentic-rollout/simulate.py:184-230 | up to the first turn whose encoding is empty or whose response is not complete: each turn's context and payload; the failed turn leaves a row unless its encoding is empty; after all turns the history's length is max_context_tokens if and only if no used length is negative; in session mode the chunks and answers add up to the full history |
| `Rollout.FinalLength` | benchmark/agentic-rollout/simulate.py:148-153 | the closed form of the final context against the sum over turns |
| `Windows.IndexFalls` | benchmark/agentic-rollout/plot.py:84 | an event's window index is i if and only if it arrived in the half-open window i |
| `Windows.Accumulate` | benchmark/agentic-rollout/plot.py:77-87 | each window holds exactly the tokens that arrived in its half-open time span, and all windows together the final counts of all rows |
| `Windows.ExportWindows` | benchmark/agentic-rollout/plot.py:89-99 | there is one export for each window that begins before the finish, in order: its time since the start, and a rate that times its duration, cut at the finish, is its tokens |
| `Windows.Analyze` | benchmark/agentic-rollout/plot.py:72-107 | both, and the exported rates times durations recover that total if and only if every arrival is in an exported window |
| `Windows.InRangeExported` | benchmark/agentic-rollout/plot.py:89-92 | an arrival from start on and before finish is in an exported window |
| `Recording.Record` | benchmark/agentic-rollout/plot.py:74-75 | the rows kept are those of the requests whose stream is complete, with the rises of their counts |
| `Recording.RowsAccount` | benchmark/agentic-rollout/simulate.py:84-111 | the kept rows rise strictly and their tokens are the max_new_tokens of the successful requests |
| `Recording.RecordAndAnalyze` | benchmark/agentic-rollout/plot.py:72-107 | recorder and analyser together: all windows hold exactly the tokens the successful requests asked for; the exported rates recover them if and only if every arrival is in an exported window, and so whenever all events arrive from start on and before finish |
| `WarmCache.Stream` | benchmark/hicache/bench_warm_cache.py:129-159 | time to first token and latencies of the loop, with chunks at the start time taken as not yet first; the latencies of the result obey the laws below |
| `WarmCache.LastCountedIs` | benchmark/hicache/bench_warm_cache.py:146-157 | the chunk latencies are measured from is the last whose count differed from the one before, or the base |
| `WarmCache.LengthExact` | benchmark/hicache/bench_warm_cache.py:146-155 | the number of latencies is last count minus first count if and only if counts never fall; otherwise there are more |
| `WarmCache.SumTelescopes` | benchmark/hicache/bench_warm_cache.py:146-157 | the latencies sum to the time from the first to the last counted chunk, repeated counts included |
| `WarmCache.LatencyAt` | benchmark/hicache/bench_warm_cache.py:146-155 | each latency is an equal share of the time since the chunk before, one share for each token the chunk brought |
| `WarmCache.SumOnlyThen` | benchmark/hicache/bench_warm_cache.py:146-157 | with a clock that moves forward, only if counts never fall |
| `WarmCache.FirstChunkExact` | benchmark/hicache/bench_warm_cache.py:118-159 | the laws against the first chunk with text, for counts that never fall: the length law holds if and only if the chunks at the start time brought no tokens, the sum law if and only if there are none |
| `WarmCache.StreamTelescopes` | benchmark/hicache/bench_warm_cache.py:118-159 | all laws for a whole response, whenever a time to first token is known: the length law from the base chunk if and only if counts never fall, and then the sum law and both laws against the first chunk, exactly |
| `CyclicFilter.FilterTurns` | benchmark/hicache/data_processing.py:56-84 | the kept turns are, in order, exactly those whose lengths are within the four limits, each with its prompt, its prompt length and the fixed output length or its own |
| `CyclicFilter.OnePass` | benchmark/hicache/data_processing.py:53-87 | one pass appends the kept conversations in order, as many as are still wanted |
| `CyclicFilter.KeptArePicked` | benchmark/hicache/data_processing.py:53-87 | the kept conversations are, in order, exactly those that keep a turn |
| `CyclicFilter.CommonFilterChat` | benchmark/hicache/data_processing.py:48-91 | exactly num_requests entries, entry k being kept conversation k modulo the number kept, if some conversation keeps a turn or none is wanted |
| `CyclicFilter.ProgressExactly` | benchmark/hicache/data_processing.py:52-87 | the outer loop can finish if and only if nothing is wanted or some conversation keeps a turn; otherwise no pass adds an entry |

## Left out

- HTTP, asyncio scheduling below the modelled steps, JSON, UTF-8 decoding, tokenizers: inputs of the models.
- Clocks and random draws (round counts, prompt and output lengths, start times, pop positions): parameters, so every value is covered.
- Floating-point rounding: times, rates and shares are exact.
- Trace converter: attributes, names, metadata of processes, events, links and their correlation ids, and missing attributes; they do not influence placement.
- Liveness under every schedule: MultiturnProgress shows that a run without failures can always finish, not that a scheduler makes it; with the barrier a failed request keeps a run from finishing its rounds, and the others stay parked.
- Multiturn workload: the OpenAI message form of a history, the heartbeat between rounds, performance metrics and the progress bar, whose effect is a nondeterministic stop.
- Serving workload: the warm-up request, the concurrency semaphore (tasks may start in any order in the model, with or without it) and the metrics.
- Mixed workload: cancelling the open tasks after the duration has passed; the model stops there.
- Mixed workload: an empty list of round ratios, on which the generator fails at its first user; MixCounter.CanGetStuck and MixCounter.LossPossibleExactly ask for a ratio.
- Mixed workload: prompt texts and the candidate inputs; only their lengths enter the statistics.
- ColdShip.FittedScoreBelowUniform: stated for non-negative spill values; ColdShip.UniformExactly says for which values it holds.
- Cold experts: loading dumps and writing the table; a rank count or width that does not divide is the modelled failure.
- Metrics: parsing of the exposition text, gauges and occupancy, which would only add easy members.
- Rollout: opening and closing sessions, delays, rank assignment and the written records.
- Analyser: per-window summaries, percentiles, cache-hit means and CSV export, which would only add easy members.
- Warm cache: building prompts, and the fields of the output record other than the latencies and the time to first token.
- CyclicFilter.CommonFilterChat: asks for a kept conversation when entries are wanted, because the loop does not end otherwise; CyclicFilter.ProgressExactly states this.
- Data filter: the printed token totals.
- GPU kernels, servers, accuracy benchmarks, plots, viewers, wheel and build scripts: no model.
