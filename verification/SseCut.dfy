/** Event streams that end early, cut after any character. */
module SseCut {
  import opened Sse

  /** What a cut after `p` characters leaves of a line: the reader is never given an empty rest. */
  function Rest(line: string, p: nat): seq<string>
    requires p <= |line|
  {
    if p == 0 then [] else [line[..p]]
  }

  // ----- Cuts by frame, line and character -----

  lemma {:induction false} PrintedAt(lines: seq<string>, pad: nat, eol: string)
    ensures |PrintedLines(lines, pad, eol)| == |lines|
    ensures forall i :: 0 <= i < |lines| ==> PrintedLines(lines, pad, eol)[i] == Printed(lines[i], pad, eol)
  {
    if lines != [] { PrintedAt(lines[1..], pad, eol); }
  }

  lemma FrameAt(event: string, pad: nat, eol: string, i: nat)
    requires i <= |Lines(event)|
    ensures |Frame(event, pad, eol)| == |Lines(event)| + 1
    ensures Frame(event, pad, eol)[..i] == PrintedLines(Lines(event)[..i], pad, eol)
    ensures Frame(event, pad, eol)[i] == if i < |Lines(event)| then Printed(Lines(event)[i], pad, eol) else eol
  {
    PrintedAt(Lines(event), pad, eol);
    PrintedAt(Lines(event)[..i], pad, eol);
  }

  /** A data line cut short is kept once its tag is complete, and otherwise passed over. */
  lemma CutLineRead(r: Reader, line: string, pad: nat, eol: string, p: nat)
    requires LineEnd(eol) && 0 < p <= |Printed(line, pad, eol)|
    ensures var r' := Step(r, Printed(line, pad, eol)[..p]);
      if p < 5 then r' == r else r'.events == r.events && |r'.data| == |r.data| + 1
  {
    var raw := Printed(line, pad, eol)[..p];
    if p < 5 {
      assert raw == "data:"[..p];
      assert raw[p - 1] == "data:"[p - 1];
      assert RStrip(raw) == raw;
    } else {
      assert raw == "data:" + raw[5..];
      RStripKeeps("data:", raw[5..]);
      assert RStrip(raw)[..5] == "data:";
    }
  }

  lemma CutEolRead(r: Reader, eol: string, p: nat)
    requires LineEnd(eol) && 0 < p <= |eol| && r.data != []
    ensures Step(r, eol[..p]) == Reader(r.events + [Join(r.data)], [])
  {
    RStripEnd("", eol[..p]);
    assert "" + eol[..p] == eol[..p];
  }

  /** The stream of complete frames and one frame cut in line `i` after `p` characters. */
  function CutStream(events: seq<string>, event: string, pad: nat, eol: string, i: nat, p: nat): seq<string>
    requires i < |Frame(event, pad, eol)| && p <= |Frame(event, pad, eol)[i]|
  {
    Print(events, pad, eol) + Frame(event, pad, eol)[..i] + Rest(Frame(event, pad, eol)[i], p)
  }

  /** The reader raises: some data line of the frame is there at least with its tag, and nothing of the
      blank line. */
  predicate Noticed(lines: nat, i: nat, p: nat) {
    (i == 0 && p >= 5) || 0 < i < lines || (i == lines && p == 0)
  }

  lemma ReadOne(r: Reader, raw: string)
    ensures Read(r, [raw]) == Step(r, raw)
  {
    assert [raw][1..] == [];
  }

  /** A cut anywhere in a frame: the complete frames come out, and the cut one as well once a
      character of its blank line has arrived; the cut raises an error exactly if it is
      noticed. */
  lemma CutFrame(events: seq<string>, event: string, pad: nat, eol: string, i: nat, p: nat)
    requires LineEnd(eol) && eol != ""
    requires i < |Frame(event, pad, eol)| && p <= |Frame(event, pad, eol)[i]|
    ensures var end, n := Read(Reader([], []), CutStream(events, event, pad, eol, i, p)), |Lines(event)|;
      && (end.data != [] <==> Noticed(n, i, p))
      && end.events == if i == n && p > 0 then KeptEvents(events) + [KeptEvent(event)] else KeptEvents(events)
  {
    var start, kept, lines := Reader([], []), KeptEvents(events), Lines(event);
    PrintedAt(lines, pad, eol);
    FrameAt(event, pad, eol, i);
    var whole, cut := Print(events, pad, eol) + PrintedLines(lines[..i], pad, eol), Rest(Frame(event, pad, eol)[i], p);
    ReadConcat(start, whole, cut);
    ReadConcat(start, Print(events, pad, eol), PrintedLines(lines[..i], pad, eol));
    PrintRead([], events, pad, eol);
    assert [] + kept == kept;
    LinesRead(Reader(kept, []), lines[..i], pad, eol);
    var mid := Reader(kept, KeptLines(lines[..i]));
    assert [] + KeptLines(lines[..i]) == KeptLines(lines[..i]);
    assert Read(start, whole) == mid;
    if p > 0 {
      ReadOne(mid, Frame(event, pad, eol)[i][..p]);
      if i < |lines| {
        CutLineRead(mid, lines[i], pad, eol, p);
      } else {
        assert lines[..i] == lines;
        CutEolRead(mid, eol, p);
      }
    }
  }

  /** The promise that a cut raises fails inside the first tag of a frame: no error, whatever came
      before. */
  lemma UnnoticedTag(events: seq<string>, pad: nat, eol: string, k: nat)
    requires LineEnd(eol) && 0 < k < 5
    ensures Read(Reader([], []), Print(events, pad, eol) + ["data:"[..k]]) == Reader(KeptEvents(events), [])
  {
    PrintRead([], events, pad, eol);
    assert [] + KeptEvents(events) == KeptEvents(events);
    ReadConcat(Reader([], []), Print(events, pad, eol), ["data:"[..k]]);
    ReadOne(Reader(KeptEvents(events), []), "data:"[..k]);
    CutLineRead(Reader(KeptEvents(events), []), "", 0, eol, k);
    assert Printed("", 0, eol)[..k] == "data:"[..k];
  }

  // ----- Cuts of the text -----

  /** The lines of a byte stream, each with its line feed, and what follows the last line feed. */
  function RawLines(text: string): seq<string> {
    if text == "" then []
    else
      var rest := RawLines(text[1..]);
      if text[0] == '\n' then ["\n"] + rest
      else if rest == [] then [[text[0]]]
      else [[text[0]] + rest[0]] + rest[1..]
  }

  function Concat(raws: seq<string>): string {
    if raws == [] then "" else raws[0] + Concat(raws[1..])
  }

  /** A line feed at the end and nowhere else. */
  predicate IsLine(raw: string) {
    raw != "" && raw[|raw| - 1] == '\n' && '\n' !in raw[..|raw| - 1]
  }

  lemma {:induction false} RawRest(text: string)
    requires '\n' !in text
    ensures RawLines(text) == if text == "" then [] else [text]
  {
    if text != "" {
      RawRest(text[1..]);
      assert text[0] in text;
      assert text == [text[0]] + text[1..];
      if text[1..] != "" {
        assert RawLines(text) == [[text[0]] + text[1..]] + [text[1..]][1..];
      } else {
        assert text == [text[0]];
      }
    }
  }

  lemma {:induction false} RawFirst(raw: string, text: string)
    requires IsLine(raw)
    ensures RawLines(raw + text) == [raw] + RawLines(text)
  {
    assert (raw + text)[1..] == raw[1..] + text;
    if |raw| == 1 {
      assert raw == "\n" && raw[1..] + text == text;
    } else {
      assert raw[..|raw| - 1][0] == raw[0];
      assert raw[1..][..|raw| - 2] == raw[..|raw| - 1][1..];
      RawFirst(raw[1..], text);
      assert raw == [raw[0]] + raw[1..];
    }
  }

  lemma {:induction false} RawLinesOf(raws: seq<string>, rest: string)
    requires (forall i :: 0 <= i < |raws| ==> IsLine(raws[i])) && '\n' !in rest
    ensures RawLines(Concat(raws) + rest) == raws + if rest == "" then [] else [rest]
  {
    if raws == [] {
      assert Concat(raws) + rest == rest;
      RawRest(rest);
    } else {
      RawLinesOf(raws[1..], rest);
      RawFirst(raws[0], Concat(raws[1..]) + rest);
      assert Concat(raws) + rest == raws[0] + (Concat(raws[1..]) + rest);
      assert raws == [raws[0]] + raws[1..];
    }
  }

  /** Where a text position lies: in which line, after how many of its characters. */
  lemma {:induction false} Locate(raws: seq<string>, n: nat) returns (k: nat, p: nat)
    requires n < |Concat(raws)|
    ensures k < |raws| && p < |raws[k]| && Concat(raws)[..n] == Concat(raws[..k]) + raws[k][..p]
  {
    if n < |raws[0]| {
      k, p := 0, n;
    } else {
      var j, q := Locate(raws[1..], n - |raws[0]|);
      k, p := j + 1, q;
      assert raws[..k] == [raws[0]] + raws[1..][..j];
      assert Concat(raws[..k]) == raws[0] + Concat(raws[1..][..j]) by { assert raws[..k][1..] == raws[1..][..j]; }
      assert Concat(raws)[..n] == raws[0] + Concat(raws[1..])[..n - |raws[0]|];
    }
  }

  /** The frame a line of the printed stream belongs to. */
  lemma {:induction false} LocateFrame(events: seq<string>, pad: nat, eol: string, k: nat) returns (m: nat, i: nat)
    requires k < |Print(events, pad, eol)|
    ensures m < |events| && i < |Frame(events[m], pad, eol)|
    ensures Print(events, pad, eol)[k] == Frame(events[m], pad, eol)[i]
    ensures Print(events, pad, eol)[..k] == Print(events[..m], pad, eol) + Frame(events[m], pad, eol)[..i]
  {
    var frame := Frame(events[0], pad, eol);
    if k < |frame| {
      m, i := 0, k;
    } else {
      var j, q := LocateFrame(events[1..], pad, eol, k - |frame|);
      m, i := j + 1, q;
      assert events[..m] == [events[0]] + events[1..][..j];
      assert events[..m][1..] == events[1..][..j];
      assert Print(events, pad, eol)[..k] == frame + Print(events[1..], pad, eol)[..k - |frame|];
    }
  }

  lemma {:induction false} PrintIsLines(events: seq<string>, pad: nat, eol: string)
    requires IsLine(eol)
    ensures forall k :: 0 <= k < |Print(events, pad, eol)| ==> IsLine(Print(events, pad, eol)[k])
  {
    if events != [] {
      PrintIsLines(events[1..], pad, eol);
      FrameIsLines(events[0], pad, eol);
    }
  }

  lemma FrameIsLines(event: string, pad: nat, eol: string)
    requires IsLine(eol)
    ensures forall i :: 0 <= i < |Frame(event, pad, eol)| ==> IsLine(Frame(event, pad, eol)[i])
  {
    LinesHaveNoBreak(event);
    PrintedAt(Lines(event), pad, eol);
    forall i | 0 <= i < |Lines(event)| ensures IsLine(Printed(Lines(event)[i], pad, eol)) {
      PrintedIsLine(Lines(event)[i], pad, eol);
    }
  }

  lemma {:induction false} SpacesOnly(pad: nat)
    ensures forall c :: c in Spaces(pad) ==> c == ' '
  {
    if pad > 0 { SpacesOnly(pad - 1); }
  }

  lemma PrintedIsLine(line: string, pad: nat, eol: string)
    requires IsLine(eol) && '\n' !in line
    ensures IsLine(Printed(line, pad, eol))
  {
    SpacesOnly(pad);
    var raw := Printed(line, pad, eol);
    assert raw[..|raw| - 1] == "data:" + Spaces(pad) + line + eol[..|eol| - 1];
    assert raw[|raw| - 1] == eol[|eol| - 1];
  }

  /** Any proper prefix of the printed text, character by character: it ends in some frame `m`, line
      `i`, after `p` characters.  The reader yields the frames before, and frame `m` too once a
      character of its blank line is there; it raises exactly if the cut is noticed. */
  lemma Truncation(events: seq<string>, pad: nat, eol: string, n: nat) returns (m: nat, i: nat, p: nat)
    requires LineEnd(eol) && IsLine(eol) && n < |Concat(Print(events, pad, eol))|
    ensures m < |events| && i < |Frame(events[m], pad, eol)| && p < |Frame(events[m], pad, eol)[i]|
    ensures Concat(Print(events, pad, eol))[..n]
         == Concat(Print(events[..m], pad, eol) + Frame(events[m], pad, eol)[..i]) + Frame(events[m], pad, eol)[i][..p]
    ensures var lines := |Lines(events[m])|;
      var end := Read(Reader([], []), RawLines(Concat(Print(events, pad, eol))[..n]));
      && (end.data != [] <==> Noticed(lines, i, p))
      && end.events == KeptEvents(if i == lines && p > 0 then events[..m + 1] else events[..m])
  {
    var all := Print(events, pad, eol);
    var k;
    k, p := Locate(all, n);
    m, i := LocateFrame(events, pad, eol, k);
    PrintIsLines(events, pad, eol);
    assert all[k][..p] == all[k][..|all[k]| - 1][..p];
    RawLinesOf(all[..k], all[k][..p]);
    CutFrame(events[..m], events[m], pad, eol, i, p);
    KeptSnoc(events[..m], events[m]);
    assert events[..m + 1] == events[..m] + [events[m]];
  }

  lemma {:induction false} KeptSnoc(events: seq<string>, event: string)
    ensures KeptEvents(events + [event]) == KeptEvents(events) + [KeptEvent(event)]
  {
    if events != [] {
      KeptSnoc(events[1..], event);
      assert (events + [event])[1..] == events[1..] + [event];
    }
  }

  /** The whole text gives back the printed lines, so the round trip is one of texts. */
  lemma WholeText(events: seq<string>, pad: nat, eol: string)
    requires IsLine(eol)
    ensures RawLines(Concat(Print(events, pad, eol))) == Print(events, pad, eol)
  {
    PrintIsLines(events, pad, eol);
    RawLinesOf(Print(events, pad, eol), "");
    assert Concat(Print(events, pad, eol)) + "" == Concat(Print(events, pad, eol));
  }
}
