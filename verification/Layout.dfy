/** The layout pass of the trace converter: spans are placed on numbered lanes per process,
    preferring the lane the current request used last, then the first free lane, then a new one. */
module Layout {
  import opened Lanes

  /** Engine processes have numeric ids; all gateway spans share the id "smg". */
  datatype Pid = Process(id: int) | Smg

  datatype Span = Span(pid: Pid, start: int, end: int)

  /** One entry of `graph[pid]`, an insertion-ordered dictionary from line number to container. */
  datatype Slot = Slot(line: int, lane: seq<Interval>)

  /** A "thread_name" metadata record announcing a lane. */
  datatype Record = Record(pid: Pid, line: int)

  datatype Board = Board(graph: map<Pid, seq<Slot>>, meta: seq<Record>)

  /** `trans_graph_status`: the lane the current request last used in each process. */
  type Status = map<Pid, int>

  function At(span: Span): Interval {
    Interval(span.start, span.end)
  }

  function SlotsOf(b: Board, p: Pid): seq<Slot> {
    if p in b.graph then b.graph[p] else []
  }

  predicate Numbered(slots: seq<Slot>) {
    forall i :: 0 <= i < |slots| ==> slots[i].line == i + 1
  }

  /** Lanes of a process are numbered 1..n and each has exactly one metadata record. */
  ghost predicate BoardOk(b: Board) {
    && (forall p :: p in b.graph ==> |b.graph[p]| > 0 && Numbered(b.graph[p]))
    && (forall p, line :: multiset(b.meta)[Record(p, line)] == if 1 <= line <= |SlotsOf(b, p)| then 1 else 0)
  }

  predicate StatusOk(b: Board, status: Status) {
    forall p :: p in status ==> 1 <= status[p] <= |SlotsOf(b, p)|
  }

  ghost predicate LanesOk(slots: seq<Slot>) {
    forall i :: 0 <= i < |slots| ==> LaneOk(slots[i].lane)
  }

  /** Index of the first lane that does not reject the span, or the number of lanes. */
  function FirstFree(slots: seq<Slot>, start: int, end: int): (i: nat)
    ensures i <= |slots|
    ensures i < |slots| ==> !Overlaps(slots[i].lane, start, end)
    ensures forall j :: 0 <= j < i ==> Overlaps(slots[j].lane, start, end)
  {
    if slots == [] || !Overlaps(slots[0].lane, start, end) then 0
    else 1 + FirstFree(slots[1..], start, end)
  }

  /** The line `__find_line` returns; `|slots| + 1` stands for a lane opened by the call. */
  function ChooseLine(b: Board, status: Status, span: Span): (line: int)
    requires StatusOk(b, status)
    ensures 1 <= line <= |SlotsOf(b, span.pid)| + 1
  {
    var slots := SlotsOf(b, span.pid);
    if span.pid in status
       && (span.start == span.end || !Overlaps(slots[status[span.pid] - 1].lane, span.start, span.end))
    then status[span.pid]
    else FirstFree(slots, span.start, span.end) + 1
  }

  /** The request has a lane in the process and stays on it; a zero-length span is not checked. */
  predicate Stays(b: Board, status: Status, span: Span)
    requires StatusOk(b, status)
  {
    && span.pid in status
    && (span.start == span.end || !Overlaps(SlotsOf(b, span.pid)[status[span.pid] - 1].lane, span.start, span.end))
  }

  /** Every earlier lane rejects the span and this one, if it exists, takes it. */
  ghost predicate FirstFit(slots: seq<Slot>, span: Span, line: int) {
    && 1 <= line <= |slots| + 1
    && (line <= |slots| ==> !Overlaps(slots[line - 1].lane, span.start, span.end))
    && forall j :: 0 <= j < line - 1 ==> Overlaps(slots[j].lane, span.start, span.end)
  }

  /** The chosen line is the only one that fits the rule; a lane is opened exactly when all lanes
      reject the span and the request has no lane to leave it on unchecked; and a span shares a lane
      that rejects it only if it has zero length. */
  lemma ChosenExactly(b: Board, status: Status, span: Span, line: int)
    requires StatusOk(b, status)
    ensures (line == ChooseLine(b, status, span)) <==>
            (if Stays(b, status, span) then line == status[span.pid] else FirstFit(SlotsOf(b, span.pid), span, line))
    ensures (ChooseLine(b, status, span) == |SlotsOf(b, span.pid)| + 1) <==>
            (&& !(span.pid in status && span.start == span.end)
             && forall slot :: slot in SlotsOf(b, span.pid) ==> Overlaps(slot.lane, span.start, span.end))
    ensures var slots, chosen := SlotsOf(b, span.pid), ChooseLine(b, status, span);
            (chosen <= |slots| && Overlaps(slots[chosen - 1].lane, span.start, span.end)) ==>
            (span.start == span.end && span.pid in status && chosen == status[span.pid])
  {
    var slots := SlotsOf(b, span.pid);
    if span.pid in status { assert slots[status[span.pid] - 1] in slots; }
  }

  /** The lanes after the span was inserted on `line`, opening the lane if it is new. */
  function PutSlots(slots: seq<Slot>, start: int, end: int, line: int): seq<Slot>
    requires 1 <= line <= |slots| + 1
  {
    if line == |slots| + 1 then slots + [Slot(line, Inserted([], start, end))]
    else slots[line - 1 := Slot(line, Inserted(slots[line - 1].lane, start, end))]
  }

  /** The board after the span was inserted on `line`; a new lane is announced by a record. */
  function Put(b: Board, span: Span, line: int): Board
    requires 1 <= line <= |SlotsOf(b, span.pid)| + 1
  {
    var slots := SlotsOf(b, span.pid);
    Board(b.graph[span.pid := PutSlots(slots, span.start, span.end, line)],
          if line == |slots| + 1 then b.meta + [Record(span.pid, line)] else b.meta)
  }

  lemma PutKeepsBoard(b: Board, span: Span, line: int)
    requires BoardOk(b) && 1 <= line <= |SlotsOf(b, span.pid)| + 1
    ensures BoardOk(Put(b, span, line))
  {
    var b' := Put(b, span, line);
    assert Numbered(SlotsOf(b', span.pid));
    forall p, l
      ensures multiset(b'.meta)[Record(p, l)] == if 1 <= l <= |SlotsOf(b', p)| then 1 else 0
    {
      assert multiset(b.meta)[Record(p, l)] == if 1 <= l <= |SlotsOf(b, p)| then 1 else 0;
    }
  }

  /** A request starts with an empty status, or one span is placed. */
  datatype Step = NewRequest | Place(span: Span)

  datatype State = State(board: Board, status: Status, lines: seq<int>)

  ghost predicate StateOk(s: State) {
    BoardOk(s.board) && StatusOk(s.board, s.status)
  }

  function Initial(): State {
    State(Board(map[], []), map[], [])
  }

  function Next(s: State, step: Step): (s': State)
    requires StateOk(s)
    ensures StateOk(s')
  {
    match step
    case NewRequest => s.(status := map[])
    case Place(span) =>
      var line := ChooseLine(s.board, s.status, span);
      PutKeepsBoard(s.board, span, line);
      State(Put(s.board, span, line), s.status[span.pid := line], s.lines + [line])
  }

  /** The state after a whole run. */
  function Run(steps: seq<Step>): (s: State)
    ensures StateOk(s)
  {
    if steps == [] then Initial()
    else Next(Run(steps[..|steps| - 1]), steps[|steps| - 1])
  }

  /** The spans placed by a run, in order. */
  function Spans(steps: seq<Step>): seq<Span> {
    if steps == [] then []
    else
      var last := steps[|steps| - 1];
      if last.Place? then Spans(steps[..|steps| - 1]) + [last.span] else Spans(steps[..|steps| - 1])
  }

  lemma RunSnoc(steps: seq<Step>, step: Step)
    ensures Run(steps + [step]) == Next(Run(steps), step)
  {
    assert (steps + [step])[..|steps|] == steps;
  }

  lemma SpansSnoc(steps: seq<Step>, step: Step)
    ensures Spans(steps + [step]) == if step.Place? then Spans(steps) + [step.span] else Spans(steps)
  {
    assert (steps + [step])[..|steps|] == steps;
  }

  /** Some span of the run on this line has this extent. */
  ghost predicate HasSource(spans: seq<Span>, lines: seq<int>, p: Pid, line: int, iv: Interval)
    requires |lines| == |spans|
  {
    exists k :: 0 <= k < |spans| && spans[k].pid == p && lines[k] == line && At(spans[k]) == iv
  }

  predicate OnLane(slots: seq<Slot>, iv: Interval, line: int) {
    1 <= line <= |slots| && iv in slots[line - 1].lane
  }

  /** Every placed span of a process is on the lane the run reported, and the lanes hold nothing else. */
  ghost predicate Tracks(slots: seq<Slot>, spans: seq<Span>, lines: seq<int>, p: Pid) {
    && |lines| == |spans|
    && (forall k :: 0 <= k < |spans| && spans[k].pid == p ==> OnLane(slots, At(spans[k]), lines[k]))
    && (forall i, iv :: 0 <= i < |slots| && iv in slots[i].lane ==> HasSource(spans, lines, p, i + 1, iv))
  }

  lemma InsertedMembers(ivs: seq<Interval>, start: int, end: int)
    ensures forall iv :: iv in Inserted(ivs, start, end) <==> iv in ivs || iv == Interval(start, end)
  {
    var p := BisectLeft(ivs, Exact(start, end), 0, |ivs|);
    assert ivs == ivs[..p] + ivs[p..];
  }

  lemma SourceKept(spans: seq<Span>, lines: seq<int>, p: Pid, line: int, iv: Interval, span: Span, l: int)
    requires |lines| == |spans| && HasSource(spans, lines, p, line, iv)
    ensures HasSource(spans + [span], lines + [l], p, line, iv)
  {
    var k :| 0 <= k < |spans| && spans[k].pid == p && lines[k] == line && At(spans[k]) == iv;
    assert At((spans + [span])[k]) == iv;
  }

  lemma PutTracks(b: Board, span: Span, line: int, spans: seq<Span>, lines: seq<int>, p: Pid)
    requires 1 <= line <= |SlotsOf(b, span.pid)| + 1 && Tracks(SlotsOf(b, p), spans, lines, p)
    ensures Tracks(SlotsOf(Put(b, span, line), p), spans + [span], lines + [line], p)
  {
    var slots, slots' := SlotsOf(b, p), SlotsOf(Put(b, span, line), p);
    var spans', lines' := spans + [span], lines + [line];
    if span.pid == p {
      InsertedMembers(if line == |slots| + 1 then [] else slots[line - 1].lane, span.start, span.end);
    }
    forall k | 0 <= k < |spans'| && spans'[k].pid == p ensures OnLane(slots', At(spans'[k]), lines'[k]) {
      if k < |spans| { assert OnLane(slots, At(spans[k]), lines[k]); }
    }
    forall i, iv | 0 <= i < |slots'| && iv in slots'[i].lane ensures HasSource(spans', lines', p, i + 1, iv) {
      if span.pid == p && i == line - 1 && iv == At(span) {
        assert At(spans'[|spans|]) == iv;
      } else {
        assert HasSource(spans, lines, p, i + 1, iv);
        SourceKept(spans, lines, p, i + 1, iv, span, line);
      }
    }
  }

  lemma {:induction false} RunTracks(steps: seq<Step>, p: Pid)
    ensures Tracks(SlotsOf(Run(steps).board, p), Spans(steps), Run(steps).lines, p)
  {
    if steps != [] {
      var s, last := Run(steps[..|steps| - 1]), steps[|steps| - 1];
      RunTracks(steps[..|steps| - 1], p);
      if last.Place? {
        var line := ChooseLine(s.board, s.status, last.span);
        PutTracks(s.board, last.span, line, Spans(steps[..|steps| - 1]), s.lines, p);
      }
    }
  }

  // ----- Lane safety -----

  /** The shortcut of `__find_line` for `start == end` returns a lane it did not check; it clashes
      when that lane would have rejected the span. */
  predicate Clash(s: State, span: Span)
    requires StatusOk(s.board, s.status)
  {
    && span.pid in s.status
    && span.start == span.end
    && Overlaps(SlotsOf(s.board, span.pid)[s.status[span.pid] - 1].lane, span.start, span.end)
  }

  predicate ClashFree(steps: seq<Step>, p: Pid) {
    steps == [] ||
    var s, last := Run(steps[..|steps| - 1]), steps[|steps| - 1];
    && ClashFree(steps[..|steps| - 1], p)
    && !(last.Place? && last.span.pid == p && Clash(s, last.span))
  }

  /** The chosen lane rejects the span only in a clash. */
  lemma ChosenLane(s: State, span: Span)
    requires StateOk(s)
    ensures var line, slots := ChooseLine(s.board, s.status, span), SlotsOf(s.board, span.pid);
            && (line > |slots| ==> !Clash(s, span))
            && (line <= |slots| ==> (Clash(s, span) <==> Overlaps(slots[line - 1].lane, span.start, span.end)))
    ensures Clash(s, span) ==> span.start == span.end
  {
  }

  lemma LanesOkUpdate(slots: seq<Slot>, i: nat, slot: Slot)
    requires i < |slots|
    ensures LanesOk(slots[i := slot]) ==> LaneOk(slot.lane)
    ensures LanesOk(slots) ==> LaneOk(slots[i].lane)
    ensures LaneOk(slots[i].lane) && LaneOk(slot.lane) ==> (LanesOk(slots[i := slot]) <==> LanesOk(slots))
  {
    var slots' := slots[i := slot];
    assert slots'[i] == slot;
    assert forall j :: 0 <= j < |slots| && j != i ==> slots'[j] == slots[j];
  }

  lemma LanesOkAppend(slots: seq<Slot>, slot: Slot)
    ensures LanesOk(slots + [slot]) <==> LanesOk(slots) && LaneOk(slot.lane)
  {
    var slots' := slots + [slot];
    assert forall j :: 0 <= j < |slots| ==> slots'[j] == slots[j];
    assert slots'[|slots|] == slot;
  }

  lemma PutSlotsExact(slots: seq<Slot>, start: int, end: int, line: int)
    requires 1 <= line <= |slots| + 1
    requires line <= |slots| ==> start == end || !Overlaps(slots[line - 1].lane, start, end)
    ensures LanesOk(PutSlots(slots, start, end, line))
       <==> LanesOk(slots) && (line <= |slots| ==> !Overlaps(slots[line - 1].lane, start, end))
  {
    if line == |slots| + 1 {
      LanesOkAppend(slots, Slot(line, Inserted([], start, end)));
      assert LaneOk(Inserted([], start, end));
    } else {
      LaneInsertExact(slots[line - 1].lane, start, end);
      LanesOkUpdate(slots, line - 1, Slot(line, Inserted(slots[line - 1].lane, start, end)));
    }
  }

  /** A step changes the lanes of the placed span's process only. */
  lemma StepSlots(s: State, step: Step, p: Pid)
    requires StateOk(s)
    ensures var slots := SlotsOf(s.board, p);
      SlotsOf(Next(s, step).board, p) ==
        if step.Place? && step.span.pid == p
        then PutSlots(slots, step.span.start, step.span.end, ChooseLine(s.board, s.status, step.span)) else slots
  {
  }

  /** One step keeps the lanes of a process in order exactly when they were in order and the
      step is no clash in that process. */
  lemma StepSafeExact(s: State, step: Step, p: Pid)
    requires StateOk(s)
    ensures LanesOk(SlotsOf(Next(s, step).board, p))
       <==> LanesOk(SlotsOf(s.board, p)) && !(step.Place? && step.span.pid == p && Clash(s, step.span))
  {
    StepSlots(s, step, p);
    if step.Place? && step.span.pid == p {
      ChosenLane(s, step.span);
      var line := ChooseLine(s.board, s.status, step.span);
      PutSlotsExact(SlotsOf(s.board, p), step.span.start, step.span.end, line);
    }
  }

  /** Over whole runs: every lane of a process is sorted with each end at most every later start
      if and only if no zero-length span was put, unchecked, where the lane was busy. */
  lemma {:induction false} LaneSafetyExact(steps: seq<Step>, p: Pid)
    ensures LanesOk(SlotsOf(Run(steps).board, p)) <==> ClashFree(steps, p)
  {
    if steps != [] {
      LaneSafetyExact(steps[..|steps| - 1], p);
      StepSafeExact(Run(steps[..|steps| - 1]), steps[|steps| - 1], p);
    }
  }

  /** Without spans whose shifted end equals their start, lanes are always safe, negative lengths included. */
  lemma {:induction false} NoZeroLengthClashFree(steps: seq<Step>, p: Pid)
    requires forall k :: 0 <= k < |Spans(steps)| && Spans(steps)[k].pid == p ==>
      Spans(steps)[k].start != Spans(steps)[k].end
    ensures ClashFree(steps, p)
  {
    if steps != [] {
      var init, last := steps[..|steps| - 1], steps[|steps| - 1];
      assert forall k :: 0 <= k < |Spans(init)| ==> Spans(steps)[k] == Spans(init)[k];
      if last.Place? { assert Spans(steps)[|Spans(init)|] == last.span; }
      NoZeroLengthClashFree(init, p);
    }
  }

  /** Two spans of a process drawn on one lane keep the lane's order: one ends before the other
      starts.  Also a zero-length span strictly inside another breaks it, though it covers no instant. */
  ghost predicate PairsApart(spans: seq<Span>, lines: seq<int>, p: Pid)
    requires |spans| == |lines|
  {
    forall i, j :: 0 <= i < j < |spans| && spans[i].pid == p && spans[j].pid == p && lines[i] == lines[j]
      ==> Apart(At(spans[i]), At(spans[j]))
  }

  lemma PairsApartSnoc(spans: seq<Span>, lines: seq<int>, p: Pid, span: Span, line: int)
    requires |spans| == |lines|
    ensures PairsApart(spans + [span], lines + [line], p)
       <==> PairsApart(spans, lines, p) && (span.pid == p ==> ApartFromLine(spans, lines, span, line))
  {
    var spans', lines' := spans + [span], lines + [line];
    assert forall k :: 0 <= k < |spans| ==> spans'[k] == spans[k] && lines'[k] == lines[k];
    assert spans'[|spans|] == span && lines'[|spans|] == line;
  }

  ghost predicate ApartFromLine(spans: seq<Span>, lines: seq<int>, span: Span, line: int)
    requires |spans| == |lines|
  {
    forall k :: 0 <= k < |spans| && spans[k].pid == span.pid && lines[k] == line ==> Apart(At(spans[k]), At(span))
  }

  /** The drawn picture keeps every lane in order if and only if the run had no clash. */
  lemma {:induction false} PictureExact(steps: seq<Step>, p: Pid)
    ensures |Run(steps).lines| == |Spans(steps)|
    ensures PairsApart(Spans(steps), Run(steps).lines, p) <==> ClashFree(steps, p)
  {
    if steps != [] {
      var init, last := steps[..|steps| - 1], steps[|steps| - 1];
      PictureExact(init, p);
      if last.Place? {
        var s := Run(init);
        var line := ChooseLine(s.board, s.status, last.span);
        PairsApartSnoc(Spans(init), s.lines, p, last.span, line);
        if ClashFree(init, p) && last.span.pid == p {
          LaneSafetyExact(init, p);
          RunTracks(init, p);
          NewSpanApartExact(s, last.span, Spans(init));
        }
      }
    }
  }

  lemma NewSpanApartExact(s: State, span: Span, spans: seq<Span>)
    requires StateOk(s) && LanesOk(SlotsOf(s.board, span.pid))
    requires Tracks(SlotsOf(s.board, span.pid), spans, s.lines, span.pid)
    ensures Clash(s, span) <==> !ApartFromLine(spans, s.lines, span, ChooseLine(s.board, s.status, span))
  {
    var line, slots := ChooseLine(s.board, s.status, span), SlotsOf(s.board, span.pid);
    ChosenLane(s, span);
    forall k | 0 <= k < |spans| && spans[k].pid == span.pid && s.lines[k] == line
      ensures !Clash(s, span) ==> Apart(At(spans[k]), At(span))
    {
      assert OnLane(slots, At(spans[k]), s.lines[k]);
      if !Clash(s, span) { NoOverlapApart(slots[line - 1].lane, span.start, span.end); }
    }
    if Clash(s, span) {
      var iv := ZeroLengthRejected(slots[line - 1].lane, span.start);
      assert HasSource(spans, s.lines, span.pid, line, iv);
    }
  }

  /** The clash is real: a zero-length span inside a busy lane hides the busy span from the next
      check, so any later span is drawn on the same lane, whether or not it overlaps the first. */
  lemma ZeroLengthHidesBusyLane(s: State, a: Span, z: Span, c: Span) returns (s1: State, s2: State, s3: State)
    requires StateOk(s) && SlotsOf(s.board, a.pid) == [] && a.pid !in s.status
    requires a.pid == z.pid == c.pid && a.start < z.start == z.end < a.end && z.start < c.start
    ensures s1 == Next(s, Place(a)) && StateOk(s1) && s1.lines == s.lines + [1]
    ensures s2 == Next(s1, Place(z)) && StateOk(s2) && s2.lines == s1.lines + [1]
    ensures s3 == Next(s2, Place(c)) && s3.lines == s2.lines + [1]
    ensures Clash(s1, z)
  {
    BusyLane(At(a), At(z), At(c));
    s1 := FirstLaneStep(s, a);
    s2 := OneLaneStep(s1, [At(a)], z);
    s3 := OneLaneStep(s2, [At(a), At(z)], c);
  }

  lemma BusyLane(a: Interval, z: Interval, c: Interval)
    requires a.start < z.start == z.end < a.end && z.start < c.start
    ensures Overlaps([a], z.start, z.end)
    ensures Inserted([a], z.start, z.end) == [a, z]
    ensures !Overlaps([a, z], c.start, c.end)
  {
    assert BisectLeft([a, z], Opening(c.start), 2, 2) == 2;
    assert BisectLeft([a, z], Opening(c.start), 0, 2) == 2;
  }

  /** The process has one lane and it is the request's current one. */
  ghost predicate OneLane(s: State, p: Pid, lane: seq<Interval>) {
    SlotsOf(s.board, p) == [Slot(1, lane)] && p in s.status && s.status[p] == 1
  }

  lemma FirstLaneStep(s: State, span: Span) returns (s': State)
    requires StateOk(s) && SlotsOf(s.board, span.pid) == [] && span.pid !in s.status
    ensures StateOk(s') && s' == Next(s, Place(span))
    ensures OneLane(s', span.pid, [At(span)]) && s'.lines == s.lines + [1]
  {
    s' := Next(s, Place(span));
    assert Inserted([], span.start, span.end) == [At(span)];
  }

  /** Placing on the only lane when the check is skipped or passes. */
  lemma OneLaneStep(s: State, lane: seq<Interval>, span: Span) returns (s': State)
    requires StateOk(s) && OneLane(s, span.pid, lane)
    requires span.start == span.end || !Overlaps(lane, span.start, span.end)
    ensures StateOk(s') && s' == Next(s, Place(span))
    ensures OneLane(s', span.pid, Inserted(lane, span.start, span.end)) && s'.lines == s.lines + [1]
  {
    s' := Next(s, Place(span));
  }
}
