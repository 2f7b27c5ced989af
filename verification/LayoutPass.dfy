/** The layout pass as the converter runs it: containers, the lane dictionary and the request's
    status are updated in place.  Every method is proved against the functions of `Layout`. */
module LayoutPass {
  import opened Lanes
  import opened Layout

  datatype Entry = Entry(line: int, container: SpanLayoutContainer)

  class Pass {
    var graph: map<Pid, seq<Entry>>
    var slotMetaData: seq<Record>
    var reqThreadStatus: Status

    /** The abstract board, and the place each container belongs to. */
    ghost var board: Board
    ghost var owner: map<SpanLayoutContainer, (Pid, int)>

    ghost predicate EntryOk(p: Pid, i: int)
      requires p in graph && 0 <= i < |graph[p]|
      requires p in board.graph && |board.graph[p]| == |graph[p]|
      reads this, graph[p][i].container
    {
      && graph[p][i].container in owner
      && owner[graph[p][i].container] == (p, i)
      && board.graph[p][i] == Slot(graph[p][i].line, graph[p][i].container.intervals)
    }

    /** The fields represent the abstract board. */
    ghost predicate Linked()
      reads this, owner.Keys
    {
      && graph.Keys == board.graph.Keys
      && (forall p :: p in graph ==> |graph[p]| == |board.graph[p]|)
      && (forall p, i :: p in graph && 0 <= i < |graph[p]| ==> graph[p][i].container in owner && EntryOk(p, i))
      && slotMetaData == board.meta
    }

    ghost predicate Valid()
      reads this, owner.Keys
    {
      Linked() && BoardOk(board) && StatusOk(board, reqThreadStatus)
    }

    constructor ()
      ensures Valid() && board == Initial().board && reqThreadStatus == map[] && owner == map[]
    {
      graph := map[];
      slotMetaData := [];
      reqThreadStatus := map[];
      board := Layout.Board(map[], []);
      owner := map[];
    }

    method NewRequest()
      requires Valid()
      modifies this`reqThreadStatus
      ensures Valid() && reqThreadStatus == map[]
    {
      reqThreadStatus := map[];
    }

    /** The first-fit loop over `graph[pid]`. */
    method ScanLanes(span: Span) returns (i: nat)
      requires Valid() && span.pid in graph
      ensures i == FirstFree(SlotsOf(board, span.pid), span.start, span.end)
    {
      ghost var slots := SlotsOf(board, span.pid);
      i := 0;
      while i < |graph[span.pid]|
        invariant i <= |graph[span.pid]| == |slots|
        invariant FirstFree(slots, span.start, span.end) == i + FirstFree(slots[i..], span.start, span.end)
      {
        assert EntryOk(span.pid, i);
        var taken := graph[span.pid][i].container.CheckOverlap(span.start, span.end);
        if !taken { return; }
        assert slots[i..][1..] == slots[i + 1..];
        i := i + 1;
      }
    }

    /** `graph[pid][line] = SpanLayoutContainer()` with its metadata record. */
    method OpenLane(pid: Pid) returns (line: int)
      requires Linked()
      modifies this`graph, this`slotMetaData, this`board, this`owner
      ensures Linked() && fresh(owner.Keys - old(owner.Keys)) && old(owner.Keys) <= owner.Keys
      ensures line == |SlotsOf(old(board), pid)| + 1 && board == Opened(old(board), pid)
    {
      var c := new SpanLayoutContainer();
      var entries := if pid in graph then graph[pid] else [];
      line := |entries| + 1;
      graph := graph[pid := entries + [Entry(line, c)]];
      slotMetaData := slotMetaData + [Record(pid, line)];
      board := Opened(board, pid);
      owner := owner[c := (pid, line - 1)];
      forall p, i | p in graph && 0 <= i < |graph[p]|
        ensures graph[p][i].container in owner && EntryOk(p, i)
      {
        if p == pid && i == line - 1 {
        } else {
          assert p in old(graph) && graph[p][i] == old(graph[p][i]);
          assert old(EntryOk(p, i));
        }
      }
    }

    /** `__find_line`: the request's current lane if it may be kept, else a search. */
    method FindLine(span: Span) returns (line: int)
      requires Valid()
      modifies this
      ensures Linked() && fresh(owner.Keys - old(owner.Keys)) && old(owner.Keys) <= owner.Keys
      ensures line == ChooseLine(old(board), old(reqThreadStatus), span)
      ensures board == if line > |SlotsOf(old(board), span.pid)| then Opened(old(board), span.pid) else old(board)
      ensures reqThreadStatus == old(reqThreadStatus)[span.pid := line]
    {
      if span.pid in reqThreadStatus {
        line := reqThreadStatus[span.pid];
        if span.start == span.end { return; }
        assert EntryOk(span.pid, line - 1);
        var taken := graph[span.pid][line - 1].container.CheckOverlap(span.start, span.end);
        if !taken { return; }
      }
      line := SearchLine(span);
    }

    /** The rest of `__find_line`: open the first lane, or take the first free one, or open one more. */
    method SearchLine(span: Span) returns (line: int)
      requires Valid()
      modifies this
      ensures Linked() && fresh(owner.Keys - old(owner.Keys)) && old(owner.Keys) <= owner.Keys
      ensures line == FirstFree(SlotsOf(old(board), span.pid), span.start, span.end) + 1
      ensures board == if line > |SlotsOf(old(board), span.pid)| then Opened(old(board), span.pid) else old(board)
      ensures reqThreadStatus == old(reqThreadStatus)[span.pid := line]
    {
      if span.pid !in graph {
        line := OpenLane(span.pid);
      } else {
        var i := ScanLanes(span);
        if i < |graph[span.pid]| {
          assert EntryOk(span.pid, i) && Numbered(board.graph[span.pid]);
          line := graph[span.pid][i].line;
        } else {
          line := OpenLane(span.pid);
        }
      }
      reqThreadStatus := reqThreadStatus[span.pid := line];
    }

    /** The body of the layout loops: find a line and insert the span there. */
    method PlaceSpan(span: Span) returns (line: int)
      requires Valid()
      modifies this, owner.Keys
      ensures Valid() && fresh(owner.Keys - old(owner.Keys))
      ensures line == ChooseLine(old(board), old(reqThreadStatus), span)
      ensures board == Put(old(board), span, line)
      ensures reqThreadStatus == old(reqThreadStatus)[span.pid := line]
    {
      PutAsInsert(board, span, ChooseLine(board, reqThreadStatus, span));
      PlaceKeepsState(board, reqThreadStatus, span);
      line := FindLine(span);
      InsertAt(span, line);
    }

    /** `graph[pid][line].insert_span(start, end)`. */
    method InsertAt(span: Span, line: int)
      requires Linked() && span.pid in graph && 1 <= line <= |graph[span.pid]|
      modifies this`board, owner.Keys
      ensures Linked() && board == WithInsert(old(board), span, line)
    {
      assert EntryOk(span.pid, line - 1);
      var c := graph[span.pid][line - 1].container;
      c.InsertSpan(span.start, span.end);
      board := WithInsert(board, span, line);
      forall p, i | p in graph && 0 <= i < |graph[p]|
        ensures graph[p][i].container in owner && EntryOk(p, i)
      {
        assert old(EntryOk(p, i));
      }
    }
  }

  /** The board with the span inserted on an existing lane. */
  ghost function WithInsert(b: Board, span: Span, line: int): Board
    requires span.pid in b.graph && 1 <= line <= |b.graph[span.pid]|
  {
    var slots := b.graph[span.pid];
    b.(graph := b.graph[span.pid := slots[line - 1 :=
      Slot(slots[line - 1].line, Inserted(slots[line - 1].lane, span.start, span.end))]])
  }

  lemma PutAsInsert(b: Board, span: Span, line: int)
    requires BoardOk(b) && 1 <= line <= |SlotsOf(b, span.pid)| + 1
    ensures var target := if line > |SlotsOf(b, span.pid)| then Opened(b, span.pid) else b;
            Put(b, span, line) == WithInsert(target, span, line)
  {
    var slots := SlotsOf(b, span.pid);
    if line > |slots| {
      assert (slots + [Slot(line, [])])[line - 1 := Slot(line, Inserted([], span.start, span.end))]
          == slots + [Slot(line, Inserted([], span.start, span.end))];
    }
  }

  /** The board with one more, empty, lane for the process. */
  ghost function Opened(b: Board, pid: Pid): Board {
    var slots := SlotsOf(b, pid);
    Layout.Board(b.graph[pid := slots + [Slot(|slots| + 1, [])]], b.meta + [Record(pid, |slots| + 1)])
  }

  lemma PlaceKeepsState(b: Board, status: Status, span: Span)
    requires BoardOk(b) && StatusOk(b, status)
    ensures var line := ChooseLine(b, status, span);
            BoardOk(Put(b, span, line)) && StatusOk(Put(b, span, line), status[span.pid := line])
  {
    PutKeepsBoard(b, span, ChooseLine(b, status, span));
  }
}
