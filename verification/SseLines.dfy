/** The event reader on arbitrary lines: blank lines end frames, `data:` lines carry values, and all
    other lines are passed over. */
module SseLines {
  import opened Sse

  // ----- Lines -----

  predicate Blank(raw: string) {
    forall i :: 0 <= i < |raw| ==> IsEol(raw[i])
  }

  /** The line carries the value: after the tag come spaces, the value and the line's end. */
  ghost predicate Carries(raw: string, value: string) {
    && (value != "" ==> value[0] != ' ' && !IsEol(value[|value| - 1]))
    && exists pad: nat, eol: string :: LineEnd(eol) && raw == Printed(value, pad, eol)
  }

  lemma {:induction false} LStripIs(s: string) returns (pad: nat)
    ensures s == Spaces(pad) + LStrip(s) && (LStrip(s) == "" || LStrip(s)[0] != ' ')
  {
    pad := 0;
    if s != [] && s[0] == ' ' {
      pad := LStripIs(s[1..]);
      pad := pad + 1;
      assert s == " " + s[1..];
    }
  }

  lemma {:induction false} RStripIs(s: string) returns (eol: string)
    ensures s == RStrip(s) + eol && LineEnd(eol) && (RStrip(s) == "" || !IsEol(RStrip(s)[|RStrip(s)| - 1]))
  {
    eol := "";
    if s != [] && IsEol(s[|s| - 1]) {
      var n := |s| - 1;
      eol := RStripIs(s[..n]);
      assert s == s[..n] + [s[n]];
      eol := eol + [s[n]];
    }
  }

  lemma BlankExactly(raw: string)
    ensures RStrip(raw) == "" <==> Blank(raw)
  {
    var eol := RStripIs(raw);
    if RStrip(raw) != "" { assert raw[|RStrip(raw)| - 1] == RStrip(raw)[|RStrip(raw)| - 1]; }
  }

  lemma LStripEnd(s: string)
    requires s == "" || !IsEol(s[|s| - 1])
    ensures LStrip(s) == "" || !IsEol(LStrip(s)[|LStrip(s)| - 1])
  {
    var pad := LStripIs(s);
    if LStrip(s) != "" { assert s[|s| - 1] == LStrip(s)[|LStrip(s)| - 1]; }
  }

  /** What the reader takes from a line with the tag is the value it carries. */
  lemma ValueCarried(raw: string)
    requires Tagged(raw)
    ensures Carries(raw, ValueOf(raw))
  {
    TaggedExactly(raw);
    var line := RStrip(raw);
    var eol := RStripIs(raw);
    var pad := LStripIs(line[5..]);
    LStripEnd(line[5..]);
    assert line == "data:" + line[5..];
    assert raw == Printed(LStrip(line[5..]), pad, eol);
  }

  predicate Tagged(raw: string) {
    |raw| >= 5 && raw[..5] == "data:"
  }

  lemma TaggedExactly(raw: string)
    ensures IsData(RStrip(raw)) <==> Tagged(raw)
  {
    var eol := RStripIs(raw);
    if |RStrip(raw)| < 5 <= |raw| { assert raw[..5][4] == eol[4 - |RStrip(raw)|]; }
    if |RStrip(raw)| >= 5 { assert raw[..5] == RStrip(raw)[..5]; }
  }

  // ----- Frames -----

  /** The value of a line with the tag. */
  function ValueOf(raw: string): string
    requires Tagged(raw)
  {
    TaggedExactly(raw);
    LStrip(RStrip(raw)[5..])
  }

  /** The values of the lines with the tag. */
  function Values(raws: seq<string>): seq<string> {
    if raws == [] then [] else Own(raws[0]) + Values(raws[1..])
  }

  ghost predicate NoBlank(raws: seq<string>) {
    forall i :: 0 <= i < |raws| ==> !Blank(raws[i])
  }

  function Own(raw: string): seq<string> {
    if Tagged(raw) then [ValueOf(raw)] else []
  }

  lemma LineRead(r: Reader, raw: string)
    requires !Blank(raw)
    ensures Step(r, raw) == Reader(r.events, r.data + Own(raw))
  {
    BlankExactly(raw);
    TaggedExactly(raw);
    assert r.data + [] == r.data;
  }

  lemma ReadCons(r: Reader, raws: seq<string>, r': Reader)
    requires raws != [] && r' == Step(r, raws[0])
    ensures Read(r, raws) == Read(r', raws[1..])
  {
  }

  lemma NoBlankTail(raws: seq<string>)
    requires NoBlank(raws) && raws != []
    ensures !Blank(raws[0]) && NoBlank(raws[1..])
  {
  }

  /** Lines that are not blank add their values to the frame; those without the tag add nothing. */
  lemma {:induction false} BlockRead(r: Reader, raws: seq<string>)
    requires NoBlank(raws)
    ensures Read(r, raws) == Reader(r.events, r.data + Values(raws))
    decreases |raws|
  {
    if raws == [] {
      assert r.data + [] == r.data;
    } else {
      NoBlankTail(raws);
      var own, rest := Own(raws[0]), Values(raws[1..]);
      var r' := Reader(r.events, r.data + own);
      LineRead(r, raws[0]);
      ReadCons(r, raws, r');
      BlockRead(r', raws[1..]);
      assert r.data + own + rest == r.data + (own + rest);
    }
  }

  lemma BlankRead(r: Reader, raw: string)
    requires Blank(raw)
    ensures Read(r, [raw]) == if r.data == [] then r else Reader(r.events + [Join(r.data)], [])
  {
    BlankExactly(raw);
    assert [raw][1..] == [];
  }

  // ----- Streams -----

  /** Blocks of lines that are not blank, each ended by a blank line. */
  ghost predicate Blocks(blocks: seq<seq<string>>, blanks: seq<string>) {
    && |blanks| == |blocks|
    && (forall i :: 0 <= i < |blocks| ==> NoBlank(blocks[i]))
    && forall i :: 0 <= i < |blanks| ==> Blank(blanks[i])
  }

  function Laid(blocks: seq<seq<string>>, blanks: seq<string>): seq<string>
    requires |blanks| == |blocks|
  {
    if blocks == [] then []
    else Laid(blocks[..|blocks| - 1], blanks[..|blocks| - 1]) + blocks[|blocks| - 1] + [blanks[|blocks| - 1]]
  }

  /** One event for each block with a value, its values joined by line feeds. */
  function EventsOf(blocks: seq<seq<string>>): seq<string> {
    if blocks == [] then []
    else
      var last := Values(blocks[|blocks| - 1]);
      EventsOf(blocks[..|blocks| - 1]) + (if last == [] then [] else [Join(last)])
  }

  lemma {:induction false} BlocksRead(blocks: seq<seq<string>>, blanks: seq<string>)
    requires Blocks(blocks, blanks)
    ensures Read(Reader([], []), Laid(blocks, blanks)) == Reader(EventsOf(blocks), [])
  {
    if blocks != [] {
      var n := |blocks| - 1;
      var init, start := Laid(blocks[..n], blanks[..n]), Reader([], []);
      BlocksRead(blocks[..n], blanks[..n]);
      ReadConcat(start, init + blocks[n], [blanks[n]]);
      ReadConcat(start, init, blocks[n]);
      BlockRead(Reader(EventsOf(blocks[..n]), []), blocks[n]);
      assert [] + Values(blocks[n]) == Values(blocks[n]);
      BlankRead(Read(start, init + blocks[n]), blanks[n]);
    }
  }

  /** Any stream, as blocks and what follows the last blank line: one event for each block with a value,
      and an error exactly if what follows has one. */
  lemma StreamRead(blocks: seq<seq<string>>, blanks: seq<string>, rest: seq<string>)
    requires Blocks(blocks, blanks) && NoBlank(rest)
    ensures Read(Reader([], []), Laid(blocks, blanks) + rest) == Reader(EventsOf(blocks), Values(rest))
  {
    BlocksRead(blocks, blanks);
    ReadConcat(Reader([], []), Laid(blocks, blanks), rest);
    BlockRead(Reader(EventsOf(blocks), []), rest);
    assert [] + Values(rest) == Values(rest);
  }

  lemma EndBlock(blocks: seq<seq<string>>, blanks: seq<string>, rest: seq<string>, raw: string)
    requires Blocks(blocks, blanks) && NoBlank(rest) && Blank(raw)
    ensures Blocks(blocks + [rest], blanks + [raw])
    ensures Laid(blocks + [rest], blanks + [raw]) == Laid(blocks, blanks) + rest + [raw]
  {
    assert (blocks + [rest])[..|blocks|] == blocks && (blanks + [raw])[..|blocks|] == blanks;
  }

  /** Every stream has that form. */
  lemma {:induction false} HasBlocks(raws: seq<string>)
      returns (blocks: seq<seq<string>>, blanks: seq<string>, rest: seq<string>)
    ensures Blocks(blocks, blanks) && NoBlank(rest) && raws == Laid(blocks, blanks) + rest
  {
    blocks, blanks, rest := [], [], [];
    if raws != [] {
      var n := |raws| - 1;
      blocks, blanks, rest := HasBlocks(raws[..n]);
      assert raws == raws[..n] + [raws[n]];
      if Blank(raws[n]) {
        EndBlock(blocks, blanks, rest, raws[n]);
        blocks, blanks, rest := blocks + [rest], blanks + [raws[n]], [];
        assert Laid(blocks, blanks) + [] == Laid(blocks, blanks);
      } else {
        assert Laid(blocks, blanks) + (rest + [raws[n]]) == Laid(blocks, blanks) + rest + [raws[n]];
        rest := rest + [raws[n]];
      }
    }
  }
}
