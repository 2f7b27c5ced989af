/** The lines a layout gives out, described by the spans, their lines and the bounds of the requests
    alone: the first span a request has of a process goes to the first lane that takes it, and each
    later one stays on the line of the one before if it can. */
module LayoutRule {
  import opened Lanes
  import opened Layout
  import opened LaneOptimality
  import opened TraceSteps

  // ----- Lanes read off spans and lines -----

  /** What is on line `l` of the process after these spans were put on these lines. */
  function LaneAt(spans: seq<Span>, lines: seq<int>, p: Pid, l: int): seq<Interval>
    requires |lines| == |spans|
  {
    if spans == [] then []
    else
      var n := |spans| - 1;
      var before := LaneAt(spans[..n], lines[..n], p, l);
      if spans[n].pid == p && lines[n] == l then Inserted(before, spans[n].start, spans[n].end) else before
  }

  /** The highest line of the process. */
  function Opened(spans: seq<Span>, lines: seq<int>, p: Pid): nat
    requires |lines| == |spans|
  {
    if spans == [] then 0
    else
      var n := |spans| - 1;
      var before := Opened(spans[..n], lines[..n], p);
      if spans[n].pid == p && lines[n] > before then lines[n] else before
  }

  predicate Taken(spans: seq<Span>, lines: seq<int>, span: Span, l: int)
    requires |lines| == |spans|
  {
    Overlaps(LaneAt(spans, lines, span.pid, l), span.start, span.end)
  }

  /** All lines below reject the span; the line itself is new or takes it. */
  ghost predicate FirstLine(spans: seq<Span>, lines: seq<int>, span: Span, line: int)
    requires |lines| == |spans|
  {
    && 1 <= line <= Opened(spans, lines, span.pid) + 1
    && (line <= Opened(spans, lines, span.pid) ==> !Taken(spans, lines, span, line))
    && forall l :: 1 <= l < line ==> Taken(spans, lines, span, l)
  }

  // ----- The rule -----

  /** Span `i` is the last before span `j` of the request that belongs to the same process. */
  predicate Previous(request: seq<Span>, j: nat, i: nat)
    requires j < |request|
  {
    i < j && request[i].pid == request[j].pid && forall m :: i < m < j ==> request[m].pid != request[j].pid
  }

  /** Span `j` of a request, after the spans `before` on the lines `done`. */
  ghost predicate LineFollows(before: seq<Span>, done: seq<int>, request: seq<Span>, lines: seq<int>, j: nat)
    requires |done| == |before| && |lines| == |request| && j < |request|
  {
    var spans, given, span := before + request[..j], done + lines[..j], request[j];
    && (forall i :: 0 <= i < j && Previous(request, j, i) && Stay(spans, given, span, lines[i]) ==>
          lines[j] == lines[i])
    && ((forall i :: 0 <= i < j && Previous(request, j, i) ==> !Stay(spans, given, span, lines[i])) ==>
          FirstLine(spans, given, span, lines[j]))
  }

  /** The span may stay on the line: it takes no time or the line takes it. */
  predicate Stay(spans: seq<Span>, lines: seq<int>, span: Span, l: int)
    requires |lines| == |spans|
  {
    span.start == span.end || !Taken(spans, lines, span, l)
  }

  ghost predicate RequestFollows(before: seq<Span>, done: seq<int>, request: seq<Span>, lines: seq<int>)
    requires |done| == |before|
  {
    |lines| == |request| && forall j :: 0 <= j < |request| ==> LineFollows(before, done, request, lines, j)
  }

  /** The lines of all requests, one after the other. */
  ghost predicate Follows(requests: seq<seq<Span>>, lines: seq<int>) {
    if requests == [] then lines == []
    else
      var init, last := requests[..|requests| - 1], requests[|requests| - 1];
      var n := |Flat(init)|;
      && n <= |lines| && Follows(init, lines[..n])
      && RequestFollows(Flat(init), lines[..n], last, lines[n..])
  }

  // ----- The board shows these lanes -----

  ghost predicate LanesAre(slots: seq<Slot>, spans: seq<Span>, lines: seq<int>, p: Pid) {
    && |lines| == |spans| && |slots| == Opened(spans, lines, p)
    && forall l :: 0 <= l < |slots| ==> slots[l].lane == LaneAt(spans, lines, p, l + 1)
  }

  ghost predicate BoardShows(s: State, spans: seq<Span>) {
    forall p :: LanesAre(SlotsOf(s.board, p), spans, s.lines, p)
  }

  lemma {:induction false} Unopened(spans: seq<Span>, lines: seq<int>, p: Pid, l: int)
    requires |lines| == |spans| && l > Opened(spans, lines, p)
    ensures LaneAt(spans, lines, p, l) == []
  {
    if spans != [] { Unopened(spans[..|spans| - 1], lines[..|spans| - 1], p, l); }
  }

  lemma Snoc(spans: seq<Span>, lines: seq<int>, span: Span, line: int, p: Pid, l: int)
    requires |lines| == |spans|
    ensures LaneAt(spans + [span], lines + [line], p, l) ==
      var before := LaneAt(spans, lines, p, l);
      if span.pid == p && line == l then Inserted(before, span.start, span.end) else before
    ensures Opened(spans + [span], lines + [line], p) ==
      var before := Opened(spans, lines, p);
      if span.pid == p && line > before then line else before
  {
    assert (spans + [span])[..|spans|] == spans && (lines + [line])[..|spans|] == lines;
  }

  lemma PutShows(slots: seq<Slot>, spans: seq<Span>, lines: seq<int>, span: Span, line: int)
    requires LanesAre(slots, spans, lines, span.pid) && 1 <= line <= |slots| + 1
    ensures LanesAre(PutSlots(slots, span.start, span.end, line), spans + [span], lines + [line], span.pid)
  {
    var p, after := span.pid, PutSlots(slots, span.start, span.end, line);
    Snoc(spans, lines, span, line, p, 0);
    forall l | 0 <= l < |after| ensures after[l].lane == LaneAt(spans + [span], lines + [line], p, l + 1) {
      Snoc(spans, lines, span, line, p, l + 1);
      if l == |slots| { Unopened(spans, lines, p, l + 1); }
    }
  }

  lemma OtherShows(slots: seq<Slot>, spans: seq<Span>, lines: seq<int>, span: Span, line: int, p: Pid)
    requires LanesAre(slots, spans, lines, p) && p != span.pid
    ensures LanesAre(slots, spans + [span], lines + [line], p)
  {
    Snoc(spans, lines, span, line, p, 0);
    forall l | 0 <= l < |slots| ensures slots[l].lane == LaneAt(spans + [span], lines + [line], p, l + 1) {
      Snoc(spans, lines, span, line, p, l + 1);
    }
  }

  lemma StepShows(s: State, spans: seq<Span>, span: Span)
    requires StateOk(s) && BoardShows(s, spans)
    ensures BoardShows(Next(s, Place(span)), spans + [span])
  {
    var s', line := Next(s, Place(span)), ChooseLine(s.board, s.status, span);
    forall p ensures LanesAre(SlotsOf(s'.board, p), spans + [span], s'.lines, p) {
      StepSlots(s, Place(span), p);
      if p == span.pid {
        PutShows(SlotsOf(s.board, p), spans, s.lines, span, line);
      } else {
        OtherShows(SlotsOf(s.board, p), spans, s.lines, span, line, p);
      }
    }
  }

  // ----- The request's table -----

  predicate LastOf(spans: seq<Span>, p: Pid, i: nat) {
    i < |spans| && spans[i].pid == p && forall m :: i < m < |spans| ==> spans[m].pid != p
  }

  /** The table holds the line of the last span of each process the request has had so far. */
  ghost predicate TableIs(status: Status, spans: seq<Span>, lines: seq<int>) {
    && |lines| == |spans|
    && (forall p :: p in status <==> Uses(spans, p))
    && forall p, i: nat :: LastOf(spans, p, i) && p in status ==> status[p] == lines[i]
  }

  lemma TableSnoc(status: Status, spans: seq<Span>, lines: seq<int>, span: Span, line: int)
    requires TableIs(status, spans, lines)
    ensures TableIs(status[span.pid := line], spans + [span], lines + [line])
  {
    var all, given, status' := spans + [span], lines + [line], status[span.pid := line];
    forall p ensures p in status' <==> Uses(all, p) {
      assert all[|spans|] == span;
      if Uses(spans, p) {
        var k :| 0 <= k < |spans| && spans[k].pid == p;
        assert all[k].pid == p;
      }
    }
    forall p, i: nat | LastOf(all, p, i) && p in status' ensures status'[p] == given[i] {
      if i < |spans| {
        assert all[|spans|].pid != p;
        assert forall m :: i < m < |spans| ==> all[m] == spans[m];
        assert LastOf(spans, p, i);
      }
    }
  }

  lemma {:induction false} HasLast(spans: seq<Span>, p: Pid) returns (i: nat)
    requires Uses(spans, p)
    ensures LastOf(spans, p, i)
  {
    var n := |spans| - 1;
    if spans[n].pid == p {
      i := n;
    } else {
      var k :| 0 <= k < |spans| && spans[k].pid == p;
      assert spans[..n][k].pid == p;
      i := HasLast(spans[..n], p);
      assert forall m :: i < m < n ==> spans[..n][m] == spans[m];
    }
  }

  // ----- The run follows the rule -----

  lemma FitIsFirst(slots: seq<Slot>, spans: seq<Span>, lines: seq<int>, span: Span, line: int)
    requires LanesAre(slots, spans, lines, span.pid) && FirstFit(slots, span, line)
    ensures FirstLine(spans, lines, span, line)
  {
    forall l | 1 <= l < line ensures Taken(spans, lines, span, l) {
      assert slots[l - 1].lane == LaneAt(spans, lines, span.pid, l - 1 + 1);
    }
  }

  /** The state after the first `j` spans of a request. */
  ghost predicate Midway(s: State, before: seq<Span>, done: seq<int>, request: seq<Span>, lines: seq<int>, j: nat) {
    && StateOk(s) && j <= |request| && |done| == |before| && |lines| == j && s.lines == done + lines
    && BoardShows(s, before + request[..j]) && TableIs(s.status, request[..j], lines)
  }

  lemma PreviousIsLast(request: seq<Span>, j: nat, i: nat)
    requires j < |request|
    ensures Previous(request, j, i) <==> LastOf(request[..j], request[j].pid, i)
  {
    var before := request[..j];
    assert forall m :: 0 <= m < j ==> before[m] == request[m];
    if LastOf(before, request[j].pid, i) {
      forall m | i < m < j ensures request[m].pid != request[j].pid { assert before[m].pid != request[j].pid; }
    }
  }

  /** The line chosen next is the one the rule gives. */
  lemma ChosenFollows(s: State, before: seq<Span>, done: seq<int>, request: seq<Span>, lines: seq<int>, j: nat)
    requires |lines| == |request| && j < |request| && Midway(s, before, done, request, lines[..j], j)
    requires lines[j] == ChooseLine(s.board, s.status, request[j])
    ensures LineFollows(before, done, request, lines, j)
  {
    var spans, given, span := before + request[..j], done + lines[..j], request[j];
    var slots := SlotsOf(s.board, span.pid);
    assert LanesAre(slots, spans, given, span.pid);
    ChosenExactly(s.board, s.status, span, lines[j]);
    forall i: nat | i < j && Previous(request, j, i)
      ensures span.pid in s.status && s.status[span.pid] == lines[i]
      ensures Stay(spans, given, span, lines[i]) <==> Stays(s.board, s.status, span)
    {
      PreviousIsLast(request, j, i);
      assert LastOf(request[..j], span.pid, i);
      assert request[..j][i].pid == span.pid;
      assert Uses(request[..j], span.pid);
      assert slots[lines[i] - 1].lane == LaneAt(spans, given, span.pid, lines[i] - 1 + 1);
    }
    if Stays(s.board, s.status, span) {
      var i := HasLast(request[..j], span.pid);
      PreviousIsLast(request, j, i);
    } else {
      FitIsFirst(slots, spans, given, span, lines[j]);
    }
  }

  lemma MidwayGrows(s: State, s': State, before: seq<Span>, done: seq<int>, request: seq<Span>, lines: seq<int>,
          line: int, j: nat)
    requires Midway(s, before, done, request, lines, j) && j < |request| && StateOk(s')
    requires s'.lines == s.lines + [line] && s'.status == s.status[request[j].pid := line]
    requires BoardShows(s', before + request[..j] + [request[j]])
    ensures Midway(s', before, done, request, lines + [line], j + 1)
  {
    TableSnoc(s.status, request[..j], lines, request[j], line);
    assert request[..j + 1] == request[..j] + [request[j]];
    assert before + request[..j + 1] == before + request[..j] + [request[j]];
    assert done + lines + [line] == done + (lines + [line]);
  }

  lemma MidwayStep(s: State, before: seq<Span>, done: seq<int>, request: seq<Span>, lines: seq<int>, j: nat)
    requires Midway(s, before, done, request, lines, j) && j < |request|
    ensures Midway(Next(s, Place(request[j])), before, done, request,
                   lines + [ChooseLine(s.board, s.status, request[j])], j + 1)
  {
    var span, line := request[j], ChooseLine(s.board, s.status, request[j]);
    StepShows(s, before + request[..j], span);
    MidwayGrows(s, Next(s, Place(span)), before, done, request, lines, line, j);
  }

  /** The first `j` lines follow the rule, whatever the later ones are. */
  ghost predicate PartFollows(before: seq<Span>, done: seq<int>, request: seq<Span>, lines: seq<int>, j: nat)
    requires |done| == |before| && j <= |request|
  {
    forall i, all: seq<int> :: 0 <= i < j && |all| == |request| && all[..j] == lines ==>
      LineFollows(before, done, request, all, i)
  }

  lemma PartGrows(s: State, before: seq<Span>, done: seq<int>, request: seq<Span>, lines: seq<int>, line: int, j: nat)
    requires j < |request| && Midway(s, before, done, request, lines, j)
    requires PartFollows(before, done, request, lines, j) && line == ChooseLine(s.board, s.status, request[j])
    ensures PartFollows(before, done, request, lines + [line], j + 1)
  {
    forall i, all: seq<int> | 0 <= i < j + 1 && |all| == |request| && all[..j + 1] == lines + [line]
      ensures LineFollows(before, done, request, all, i)
    {
      assert all[..j] == all[..j + 1][..j] == lines;
      if i == j {
        assert all[j] == all[..j + 1][j];
        ChosenFollows(s, before, done, request, all, j);
      }
    }
  }

  lemma PartStep(s: State, before: seq<Span>, done: seq<int>, request: seq<Span>, init: seq<int>, j: nat)
      returns (lines: seq<int>)
    requires j < |request| && Midway(s, before, done, request, init, j)
    requires PartFollows(before, done, request, init, j)
    ensures Midway(Next(s, Place(request[j])), before, done, request, lines, j + 1)
    ensures PartFollows(before, done, request, lines, j + 1)
  {
    var line := ChooseLine(s.board, s.status, request[j]);
    lines := init + [line];
    MidwayStep(s, before, done, request, init, j);
    PartGrows(s, before, done, request, init, line, j);
  }

  /** A request from a state with an empty table. */
  lemma {:induction false} RequestPart(s: State, before: seq<Span>, done: seq<int>, request: seq<Span>, j: nat)
      returns (lines: seq<int>)
    requires j <= |request| && Midway(s, before, done, request, [], 0)
    ensures Midway(PlaceAll(s, request[..j]), before, done, request, lines, j)
    ensures PartFollows(before, done, request, lines, j)
  {
    if j == 0 {
      lines := [];
      assert request[..0] == [];
    } else {
      var init := RequestPart(s, before, done, request, j - 1);
      lines := PartStep(PlaceAll(s, request[..j - 1]), before, done, request, init, j - 1);
      PlaceAllPrefix(s, request, j - 1);
    }
  }

  lemma NewTable(s: State, before: seq<Span>, request: seq<Span>)
    requires StateOk(s) && |s.lines| == |before| && BoardShows(s, before)
    ensures Midway(Next(s, NewRequest), before, s.lines, request, [], 0)
  {
    assert request[..0] == [] && before + [] == before && s.lines + [] == s.lines;
  }

  /** After these requests the board shows their spans and the lines follow the rule. */
  ghost predicate SoFar(s: State, requests: seq<seq<Span>>) {
    StateOk(s) && |s.lines| == |Flat(requests)| && BoardShows(s, Flat(requests)) && Follows(requests, s.lines)
  }

  lemma RequestJoins(s: State, init: seq<seq<Span>>, last: seq<Span>, done: seq<int>, lines: seq<int>)
    requires |done| == |Flat(init)| && Follows(init, done)
    requires Midway(s, Flat(init), done, last, lines, |last|)
    requires PartFollows(Flat(init), done, last, lines, |last|)
    ensures SoFar(s, init + [last])
  {
    var requests, n := init + [last], |Flat(init)|;
    assert requests[..|init|] == init;
    assert last[..|last|] == last && lines[..|last|] == lines;
    assert s.lines[..n] == done && s.lines[n..] == lines;
  }

  lemma RequestSoFar(s: State, init: seq<seq<Span>>, last: seq<Span>)
    requires SoFar(s, init)
    ensures SoFar(PlaceAll(Next(s, NewRequest), last), init + [last])
  {
    NewTable(s, Flat(init), last);
    var lines := RequestPart(Next(s, NewRequest), Flat(init), s.lines, last, |last|);
    assert last[..|last|] == last;
    RequestJoins(PlaceAll(Next(s, NewRequest), last), init, last, s.lines, lines);
  }

  /** The lines of a whole trace follow the rule. */
  lemma {:induction false} RunFollows(requests: seq<seq<Span>>)
    ensures SoFar(Run(StepsOf(requests)), requests)
  {
    if requests != [] {
      var n := |requests| - 1;
      RunFollows(requests[..n]);
      RequestSoFar(Run(StepsOf(requests[..n])), requests[..n], requests[n]);
      assert requests[..n + 1] == requests == requests[..n] + [requests[n]];
      StepsPrefix(requests, n);
    }
  }

  // ----- The rule leaves no choice -----

  lemma FirstLineOnce(spans: seq<Span>, lines: seq<int>, span: Span, a: int, b: int)
    requires |lines| == |spans| && FirstLine(spans, lines, span, a) && FirstLine(spans, lines, span, b)
    ensures a == b
  {
  }

  lemma LineOnce(before: seq<Span>, done: seq<int>, request: seq<Span>, a: seq<int>, b: seq<int>, j: nat)
    requires |done| == |before| && |a| == |b| == |request| && j < |request| && a[..j] == b[..j]
    requires LineFollows(before, done, request, a, j) && LineFollows(before, done, request, b, j)
    ensures a[j] == b[j]
  {
    var spans, given, span := before + request[..j], done + a[..j], request[j];
    forall i | 0 <= i < j ensures a[i] == b[i] { assert a[i] == a[..j][i] && b[i] == b[..j][i]; }
    if i :| 0 <= i < j && Previous(request, j, i) && Stay(spans, given, span, a[i]) {
      assert a[j] == a[i];
      assert b[j] == b[i];
    } else {
      FirstLineOnce(spans, given, span, a[j], b[j]);
    }
  }

  lemma {:induction false} RequestOnce(before: seq<Span>, done: seq<int>, request: seq<Span>, a: seq<int>, b: seq<int>,
          j: nat)
    requires |done| == |before| && j <= |request|
    requires RequestFollows(before, done, request, a) && RequestFollows(before, done, request, b)
    ensures a[..j] == b[..j]
  {
    if j > 0 {
      RequestOnce(before, done, request, a, b, j - 1);
      LineOnce(before, done, request, a, b, j - 1);
      assert a[..j] == a[..j - 1] + [a[j - 1]] && b[..j] == b[..j - 1] + [b[j - 1]];
    }
  }

  /** Only one list of lines follows the rule, so the rule says what the layout computes. */
  lemma {:induction false} FollowsOnce(requests: seq<seq<Span>>, a: seq<int>, b: seq<int>)
    requires Follows(requests, a) && Follows(requests, b)
    ensures a == b
  {
    if requests != [] {
      var init, last := requests[..|requests| - 1], requests[|requests| - 1];
      var n := |Flat(init)|;
      FollowsLength(init, a[..n]);
      FollowsOnce(init, a[..n], b[..n]);
      RequestOnce(Flat(init), a[..n], last, a[n..], b[n..], |last|);
      assert a[n..][..|last|] == a[n..] && b[n..][..|last|] == b[n..];
      assert a == a[..n] + a[n..] && b == b[..n] + b[n..];
    }
  }

  lemma FollowsLength(requests: seq<seq<Span>>, lines: seq<int>)
    requires Follows(requests, lines)
    ensures |lines| == |Flat(requests)|
  {
  }
}
