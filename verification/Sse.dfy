/** The server-sent-event reader: `data:` lines are collected and a blank line ends the event. */
module Sse {
  function IsEol(c: char): bool {
    c == '\r' || c == '\n'
  }

  /** `rstrip("\r\n")` */
  function RStrip(s: string): string {
    if s != [] && IsEol(s[|s| - 1]) then RStrip(s[..|s| - 1]) else s
  }

  /** `lstrip(" ")` */
  function LStrip(s: string): string {
    if s != [] && s[0] == ' ' then LStrip(s[1..]) else s
  }

  function Join(lines: seq<string>): string {
    if lines == [] then "" else if |lines| == 1 then lines[0] else lines[0] + "\n" + Join(lines[1..])
  }

  predicate IsData(line: string) {
    |line| >= 5 && line[..5] == "data:"
  }

  /** Events yielded so far, and the lines of the frame being read. */
  datatype Reader = Reader(events: seq<string>, data: seq<string>)

  function Step(r: Reader, raw: string): Reader {
    var line := RStrip(raw);
    if line == "" then (if r.data != [] then Reader(r.events + [Join(r.data)], []) else r)
    else if IsData(line) then r.(data := r.data + [LStrip(line[5..])])
    else r
  }

  function Read(r: Reader, raws: seq<string>): Reader
    decreases |raws|
  {
    if raws == [] then r else Read(Step(r, raws[0]), raws[1..])
  }

  /** `sse_events`: the events yielded, and whether the stream was cut inside a frame. */
  method SseEvents(raws: seq<string>) returns (events: seq<string>, truncated: bool)
    ensures var end := Read(Reader([], []), raws); events == end.events && truncated == (end.data != [])
  {
    events := [];
    var data := [];
    var i := 0;
    while i < |raws|
      invariant 0 <= i <= |raws| && Read(Reader(events, data), raws[i..]) == Read(Reader([], []), raws)
    {
      var line := RStrip(raws[i]);
      assert raws[i..][1..] == raws[i + 1..];
      if line == "" {
        if data != [] {
          events := events + [Join(data)];
          data := [];
        }
      } else if IsData(line) {
        data := data + [LStrip(line[5..])];
      }
      i := i + 1;
    }
    assert raws[i..] == [];
    truncated := data != [];
  }

  lemma {:induction false} ReadConcat(r: Reader, a: seq<string>, b: seq<string>)
    ensures Read(r, a + b) == Read(Read(r, a), b)
    decreases |a|
  {
    if a == [] {
      assert a + b == b;
    } else {
      assert (a + b)[0] == a[0] && (a + b)[1..] == a[1..] + b;
      ReadConcat(Step(r, a[0]), a[1..], b);
    }
  }

  // ----- Printing -----

  function Spaces(n: nat): string {
    if n == 0 then "" else " " + Spaces(n - 1)
  }

  predicate LineEnd(eol: string) {
    forall c :: c in eol ==> IsEol(c)
  }

  function Printed(line: string, pad: nat, eol: string): string {
    "data:" + Spaces(pad) + line + eol
  }

  /** The lines of one event and the blank line. */
  function PrintedLines(lines: seq<string>, pad: nat, eol: string): seq<string> {
    if lines == [] then [] else [Printed(lines[0], pad, eol)] + PrintedLines(lines[1..], pad, eol)
  }

  function Lines(s: string): (lines: seq<string>)
    ensures lines != []
  {
    if s == "" then [""]
    else if s[0] == '\n' then [""] + Lines(s[1..])
    else var rest := Lines(s[1..]); [[s[0]] + rest[0]] + rest[1..]
  }

  function Frame(event: string, pad: nat, eol: string): seq<string> {
    PrintedLines(Lines(event), pad, eol) + [eol]
  }

  function Print(events: seq<string>, pad: nat, eol: string): seq<string> {
    if events == [] then [] else Frame(events[0], pad, eol) + Print(events[1..], pad, eol)
  }

  lemma JoinCons(line: string, rest: seq<string>)
    requires rest != []
    ensures Join([line] + rest) == line + "\n" + Join(rest)
  {
    assert ([line] + rest)[1..] == rest;
  }

  /** A character put in front of the first line is in front of the whole. */
  lemma JoinGrow(c: char, rest: seq<string>)
    requires rest != []
    ensures Join([[c] + rest[0]] + rest[1..]) == [c] + Join(rest)
  {
    assert rest == [rest[0]] + rest[1..];
    if |rest| > 1 {
      JoinCons([c] + rest[0], rest[1..]);
      JoinCons(rest[0], rest[1..]);
    }
  }

  lemma {:induction false} JoinLines(s: string)
    ensures Join(Lines(s)) == s
  {
    if s != "" {
      JoinLines(s[1..]);
      if s[0] == '\n' {
        JoinCons("", Lines(s[1..]));
      } else {
        JoinGrow(s[0], Lines(s[1..]));
      }
      assert s == [s[0]] + s[1..];
    }
  }

  lemma {:induction false} LinesHaveNoBreak(s: string)
    ensures forall i :: 0 <= i < |Lines(s)| ==> '\n' !in Lines(s)[i]
  {
    if s != "" { LinesHaveNoBreak(s[1..]); }
  }

  // ----- One line -----

  lemma {:induction false} RStripEnd(s: string, eol: string)
    requires LineEnd(eol)
    ensures RStrip(s + eol) == RStrip(s)
    decreases |eol|
  {
    if eol == "" {
      assert s + eol == s;
    } else {
      var k := |eol| - 1;
      assert eol[k] in eol;
      assert (s + eol)[..|s + eol| - 1] == s + eol[..k];
      RStripEnd(s, eol[..k]);
    }
  }

  lemma {:induction false} RStripKeeps(a: string, s: string)
    requires a != "" && !IsEol(a[|a| - 1])
    ensures RStrip(a + s) == a + RStrip(s)
    decreases |s|
  {
    if s == "" {
      assert a + s == a;
    } else if IsEol(s[|s| - 1]) {
      assert (a + s)[..|a + s| - 1] == a + s[..|s| - 1];
      RStripKeeps(a, s[..|s| - 1]);
    }
  }

  lemma {:induction false} LStripPad(pad: nat, s: string)
    ensures LStrip(Spaces(pad) + s) == LStrip(s)
  {
    if pad == 0 {
      assert Spaces(0) + s == s;
    } else {
      assert (Spaces(pad) + s)[1..] == Spaces(pad - 1) + s;
      LStripPad(pad - 1, s);
    }
  }

  lemma {:induction false} SpacesEnd(pad: nat)
    requires pad > 0
    ensures Spaces(pad) != "" && Spaces(pad)[|Spaces(pad)| - 1] == ' '
  {
    if pad > 1 { SpacesEnd(pad - 1); }
  }

  /** What the reader makes of a printed line. */
  function Kept(line: string): string {
    LStrip(RStrip(line))
  }

  lemma LineRead(r: Reader, line: string, pad: nat, eol: string)
    requires LineEnd(eol)
    ensures Step(r, Printed(line, pad, eol)) == r.(data := r.data + [Kept(line)])
  {
    var head := "data:" + Spaces(pad);
    if pad > 0 { SpacesEnd(pad); }
    RStripEnd(head + line, eol);
    RStripKeeps(head, line);
    var stripped := RStrip(Printed(line, pad, eol));
    assert stripped == head + RStrip(line);
    assert stripped[..5] == "data:" && stripped[5..] == Spaces(pad) + RStrip(line);
    LStripPad(pad, RStrip(line));
  }

  /** A line that survives: it does not begin with a space or end in a carriage return. */
  predicate Clean(line: string) {
    line == "" || (line[0] != ' ' && !IsEol(line[|line| - 1]))
  }

  lemma {:induction false} RStripShrinks(s: string)
    ensures |RStrip(s)| <= |s| && (|RStrip(s)| == |s| <==> s == "" || !IsEol(s[|s| - 1]))
  {
    if s != "" && IsEol(s[|s| - 1]) { RStripShrinks(s[..|s| - 1]); }
  }

  lemma {:induction false} LStripShrinks(s: string)
    ensures |LStrip(s)| <= |s| && (|LStrip(s)| == |s| <==> s == "" || s[0] != ' ')
  {
    if s != "" && s[0] == ' ' { LStripShrinks(s[1..]); }
  }

  lemma KeptShrinks(line: string)
    ensures |Kept(line)| <= |line| && (|Kept(line)| == |line| <==> Clean(line)) && (Clean(line) ==> Kept(line) == line)
  {
    RStripShrinks(line);
    LStripShrinks(RStrip(line));
  }

  // ----- Events -----

  function KeptLines(lines: seq<string>): (kept: seq<string>)
    ensures |kept| == |lines|
  {
    if lines == [] then [] else [Kept(lines[0])] + KeptLines(lines[1..])
  }

  lemma LinesStep(r: Reader, line: string, rest: seq<string>, pad: nat, eol: string)
    requires LineEnd(eol)
    ensures Read(r, [Printed(line, pad, eol)] + rest) == Read(r.(data := r.data + [Kept(line)]), rest)
  {
    LineRead(r, line, pad, eol);
    assert ([Printed(line, pad, eol)] + rest)[1..] == rest;
  }

  lemma KeptCons(before: seq<string>, line: string, rest: seq<string>)
    ensures before + KeptLines([line] + rest) == before + [Kept(line)] + KeptLines(rest)
  {
    assert ([line] + rest)[1..] == rest;
  }

  lemma {:induction false} LinesRead(r: Reader, lines: seq<string>, pad: nat, eol: string)
    requires LineEnd(eol)
    ensures Read(r, PrintedLines(lines, pad, eol)) == r.(data := r.data + KeptLines(lines))
    decreases |lines|
  {
    if lines == [] {
      assert r.data + [] == r.data;
    } else {
      var line, rest := lines[0], lines[1..];
      LinesStep(r, line, PrintedLines(rest, pad, eol), pad, eol);
      LinesRead(r.(data := r.data + [Kept(line)]), rest, pad, eol);
      KeptCons(r.data, line, rest);
      assert lines == [line] + rest;
    }
  }

  /** The event a printed event is read as. */
  function KeptEvent(event: string): string {
    Join(KeptLines(Lines(event)))
  }

  lemma FrameRead(events: seq<string>, event: string, pad: nat, eol: string)
    requires LineEnd(eol)
    ensures Read(Reader(events, []), Frame(event, pad, eol)) == Reader(events + [KeptEvent(event)], [])
  {
    var r := Reader(events, []);
    var lines := PrintedLines(Lines(event), pad, eol);
    LinesRead(r, Lines(event), pad, eol);
    ReadConcat(r, lines, [eol]);
    RStripEnd("", eol);
    assert "" + eol == eol;
    assert [] + KeptLines(Lines(event)) == KeptLines(Lines(event));
    var mid := Reader(events, KeptLines(Lines(event)));
    assert Read(mid, [eol]) == Read(Step(mid, eol), []) == Step(mid, eol);
  }

  function KeptEvents(events: seq<string>): (kept: seq<string>)
    ensures |kept| == |events|
  {
    if events == [] then [] else [KeptEvent(events[0])] + KeptEvents(events[1..])
  }

  lemma PrintStep(before: seq<string>, event: string, rest: seq<string>, pad: nat, eol: string)
    requires LineEnd(eol)
    ensures Read(Reader(before, []), Frame(event, pad, eol) + rest) ==
      Read(Reader(before + [KeptEvent(event)], []), rest)
  {
    FrameRead(before, event, pad, eol);
    ReadConcat(Reader(before, []), Frame(event, pad, eol), rest);
  }

  lemma {:induction false} PrintRead(before: seq<string>, events: seq<string>, pad: nat, eol: string)
    requires LineEnd(eol)
    ensures Read(Reader(before, []), Print(events, pad, eol)) == Reader(before + KeptEvents(events), [])
    decreases |events|
  {
    if events == [] {
      assert before + [] == before;
    } else {
      var next, rest := before + [KeptEvent(events[0])], events[1..];
      PrintStep(before, events[0], Print(rest, pad, eol), pad, eol);
      PrintRead(next, rest, pad, eol);
      assert next + KeptEvents(rest) == before + KeptEvents(events);
    }
  }

  predicate CleanEvent(event: string) {
    forall i :: 0 <= i < |Lines(event)| ==> Clean(Lines(event)[i])
  }

  lemma {:induction false} JoinKept(lines: seq<string>)
    ensures |Join(KeptLines(lines))| <= |Join(lines)|
    ensures |Join(KeptLines(lines))| == |Join(lines)| <==> forall i :: 0 <= i < |lines| ==> Clean(lines[i])
    ensures (forall i :: 0 <= i < |lines| ==> Clean(lines[i])) ==> KeptLines(lines) == lines
  {
    if lines != [] {
      KeptShrinks(lines[0]);
      JoinKept(lines[1..]);
      assert KeptLines(lines)[1..] == KeptLines(lines[1..]);
      assert lines == [lines[0]] + lines[1..];
      var rest := lines[1..];
      assert (forall i :: 0 <= i < |lines| ==> Clean(lines[i]))
        <==> Clean(lines[0]) && forall i :: 0 <= i < |rest| ==> Clean(rest[i]);
    }
  }

  lemma KeptExactly(event: string)
    ensures KeptEvent(event) == event <==> CleanEvent(event)
  {
    JoinLines(event);
    JoinKept(Lines(event));
  }

  /** The round trip, for any padding and either line end: reading what was printed gives the same
      events exactly if no payload line begins with a space or ends in a carriage return; there is
      always one event per printed event and never a truncated frame. */
  lemma RoundTrip(events: seq<string>, pad: nat, eol: string)
    requires LineEnd(eol)
    ensures var end := Read(Reader([], []), Print(events, pad, eol));
      && end.data == [] && |end.events| == |events|
      && (end.events == events <==> forall i :: 0 <= i < |events| ==> CleanEvent(events[i]))
  {
    PrintRead([], events, pad, eol);
    assert [] + KeptEvents(events) == KeptEvents(events);
    KeptEventsExactly(events);
  }

  lemma {:induction false} KeptEventsExactly(events: seq<string>)
    ensures KeptEvents(events) == events <==> forall i :: 0 <= i < |events| ==> CleanEvent(events[i])
  {
    if events != [] {
      KeptExactly(events[0]);
      KeptEventsExactly(events[1..]);
      assert KeptEvents(events)[1..] == KeptEvents(events[1..]);
      assert events == [events[0]] + events[1..];
      var rest := events[1..];
      assert (forall i :: 0 <= i < |events| ==> CleanEvent(events[i]))
        <==> CleanEvent(events[0]) && forall i :: 0 <= i < |rest| ==> CleanEvent(rest[i]);
    }
  }

  /** The value of a `data` field in section 9.2.6 of the WHATWG HTML Standard: at most one leading
      space is removed. */
  function StandardValue(value: string): string {
    if value != "" && value[0] == ' ' then value[1..] else value
  }

  /** The reader agrees with the standard exactly on values that do not begin with two spaces. */
  lemma StandardExactly(value: string)
    ensures LStrip(value) == StandardValue(value) <==> !(|value| >= 2 && value[0] == value[1] == ' ')
  {
    if value != "" && value[0] == ' ' {
      LStripShrinks(value[1..]);
    }
  }
}
