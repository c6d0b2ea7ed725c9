/** Encoding a body in chunks and decoding it again, in any split. */
module ChunkedRoundTrip {
  import opened Bytes
  import opened Hex
  import opened Chunked
  import opened ChunkedSplit

  function ToHex(n: nat): (s: string)
    ensures |s| > 0 && AllHex(s) && HexValue(s) == n
    ensures '\r' !in s
  {
    if n < 16 then
      [HexChar(n)]
    else
      var high := ToHex(n / 16);
      assert (high + [HexChar(n % 16)])[..|high|] == high;
      high + [HexChar(n % 16)]
  }

  function SizeLine(n: nat): string {
    ToHex(n) + CRLF
  }

  function EncodeChunk(c: string): string {
    SizeLine(|c|) + (c + CRLF)
  }

  /** The chunked body of section 7.1 of RFC 9112, without extensions and trailers. */
  function Encode(chunks: seq<string>): (s: string)
    ensures |s| > 0
  {
    if |chunks| == 0 then SizeLine(0) + CRLF
    else EncodeChunk(chunks[0]) + Encode(chunks[1..])
  }

  /** The state a size line leaves. */
  function InData(d: Decoder, n: nat, rest: string): Decoder {
    Decoder(Data, rest, n, 0, d.total, d.output)
  }

  /** A line without a line break ends at the first one. */
  lemma LineEnds(line: string, rest: string)
    requires !Contains(line, CRLF)
    ensures var b := line + (CRLF + rest); Find(b, CRLF) == |line| && b[..|line|] == line && b[|line| + 2..] == rest
  {
    var b := line + (CRLF + rest);
    assert b[|line|..|line| + 2] == CRLF;
    forall i | 0 <= i < |line| ensures !At(b, CRLF, i) {
      if i + 2 <= |line| {
        AtExtend(line, CRLF + rest, CRLF, i);
      } else {
        assert b[i..i + 2][1] == '\r';
      }
    }
    FindIs(b, CRLF, |line|);
  }

  /** Any line that a size can be read from is taken, with whatever stands behind its digits. */
  lemma ReadLine(c: Config, d: Decoder, line: string, n: nat, rest: string)
    requires Valid(c, d) && d.phase == Size && d.buffer == line + (CRLF + rest) && !Contains(line, CRLF)
    requires ParseSize(line) == Some(n) && AddSize(d.total, n) <= c.maxBody && |rest| > 0
    ensures Valid(c, InData(d, n, rest))
    ensures Loop(c, d) == Loop(c, InData(d, n, rest))
  {
    LineEnds(line, rest);
    assert Step(c, d) == Outcome(InData(d, n, rest), NeedMore);
    LoopGoesOn(c, d);
  }

  lemma SizeOfHex(n: nat)
    requires n < SIZE_LIMIT
    ensures !Contains(ToHex(n), CRLF) && ParseSize(ToHex(n)) == Some(n)
  {
    var hex := ToHex(n);
    PlainNumber(hex);
    forall i ensures !At(hex, CRLF, i) {
      if 0 <= i && i + 2 <= |hex| {
        assert hex[i..i + 2][0] == hex[i];
      }
    }
  }

  lemma ReadSizeLine(c: Config, d: Decoder, n: nat, rest: string)
    requires Valid(c, d) && d.phase == Size && d.buffer == SizeLine(n) + rest
    requires n < SIZE_LIMIT && AddSize(d.total, n) <= c.maxBody && |rest| > 0
    ensures Valid(c, InData(d, n, rest))
    ensures Loop(c, d) == Loop(c, InData(d, n, rest))
  {
    SizeOfHex(n);
    Assoc(ToHex(n), CRLF, rest);
    ReadLine(c, d, ToHex(n), n, rest);
  }

  /** The state after a whole chunk. */
  function AfterChunk(c: Config, d: Decoder, data: string, rest: string): Decoder {
    Decoder(Size, rest, |data|, |data|, d.total + |data|,
            AfterWrite(c.outputFd, d.output, data))
  }

  /** The state after the data of a chunk, before its line end. */
  function AtEnd(c: Config, d: Decoder, data: string, rest: string): Decoder {
    Decoder(End, CRLF + rest, |data|, |data|, d.total + |data|, AfterWrite(c.outputFd, d.output, data))
  }

  lemma ReadData(c: Config, d: Decoder, data: string, rest: string)
    requires Valid(c, d) && d.phase == Data && d.buffer == data + (CRLF + rest)
    requires d.written == 0 && d.chunkSize == |data| && d.total + |data| <= c.maxBody
    ensures Valid(c, AtEnd(c, d, data, rest))
    ensures Loop(c, d) == Loop(c, AtEnd(c, d, data, rest))
  {
    assert d.buffer[..|data|] == data && d.buffer[|data|..] == CRLF + rest;
    assert Step(c, d) == Outcome(AtEnd(c, d, data, rest), NeedMore);
    LoopGoesOn(c, d);
  }

  lemma ReadEnd(c: Config, d: Decoder, rest: string)
    requires Valid(c, d) && d.phase == End && d.buffer == CRLF + rest
    requires d.chunkSize != 0 && |rest| > 0
    ensures Valid(c, d.(buffer := rest, phase := Size))
    ensures Loop(c, d) == Loop(c, d.(buffer := rest, phase := Size))
  {
    assert d.buffer[..2] == CRLF && d.buffer[2..] == rest;
  }

  lemma ReadLastEnd(c: Config, d: Decoder, rest: string)
    requires Valid(c, d) && d.phase == End && d.buffer == CRLF + rest && d.chunkSize == 0
    ensures Loop(c, d) == Outcome(d.(buffer := rest, phase := Done), Complete)
  {
    assert d.buffer[..2] == CRLF && d.buffer[2..] == rest;
  }

  lemma EncodeChunkPlus(data: string, rest: string)
    ensures EncodeChunk(data) + rest == SizeLine(|data|) + (data + (CRLF + rest))
  {
  }

  lemma ReadChunk(c: Config, d: Decoder, data: string, rest: string)
    requires Valid(c, d) && d.phase == Size && d.buffer == EncodeChunk(data) + rest
    requires |data| > 0 && |rest| > 0 && d.total + |data| <= c.maxBody
    ensures Valid(c, AfterChunk(c, d, data, rest))
    ensures Loop(c, d) == Loop(c, AfterChunk(c, d, data, rest))
  {
    hide Loop, Step, EncodeChunk, SizeLine;
    EncodeChunkPlus(data, rest);
    ReadFrom(c, d, data, rest, data + (CRLF + rest));
  }

  lemma ReadFrom(c: Config, d: Decoder, data: string, rest: string, more: string)
    requires Valid(c, d) && d.phase == Size && d.buffer == SizeLine(|data|) + more && more == data + (CRLF + rest)
    requires |data| > 0 && |rest| > 0 && d.total + |data| <= c.maxBody
    ensures Valid(c, AfterChunk(c, d, data, rest))
    ensures Loop(c, d) == Loop(c, AfterChunk(c, d, data, rest))
  {
    hide Loop, Step, SizeLine;
    ReadSizeLine(c, d, |data|, more);
    ReadBody(c, InData(d, |data|, more), data, rest);
  }

  lemma ReadBody(c: Config, e: Decoder, data: string, rest: string)
    requires Valid(c, e) && e.phase == Data && e.buffer == data + (CRLF + rest) && e.written == 0 && e.chunkSize == |data|
    requires |data| > 0 && |rest| > 0 && e.total + |data| <= c.maxBody
    ensures Valid(c, AfterChunk(c, e, data, rest))
    ensures Loop(c, e) == Loop(c, AfterChunk(c, e, data, rest))
  {
    hide Loop, Step;
    ReadData(c, e, data, rest);
    ReadEnd(c, AtEnd(c, e, data, rest), rest);
  }

  lemma ReadLastChunk(c: Config, d: Decoder, tail: string)
    requires Valid(c, d) && d.phase == Size && d.buffer == SizeLine(0) + CRLF + tail
    ensures Loop(c, d) == Outcome(Decoder(Done, tail, 0, 0, d.total, d.output), Complete)
  {
    assert d.buffer == SizeLine(0) + ("" + (CRLF + tail));
    ReadSizeLine(c, d, 0, "" + (CRLF + tail));
    var e := InData(d, 0, "" + (CRLF + tail));
    ReadData(c, e, "", tail);
    ReadLastEnd(c, AtEnd(c, e, "", tail), tail);
  }

  /** One run over an encoded body completes, writes the chunks in order and keeps the later bytes. */
  lemma {:induction false} DecodeEncoded(c: Config, d: Decoder, chunks: seq<string>, tail: string)
    requires Valid(c, d) && d.phase == Size && d.buffer == Encode(chunks) + tail
    requires forall i :: 0 <= i < |chunks| ==> |chunks[i]| > 0
    requires d.total + |Flatten(chunks)| <= c.maxBody
    ensures Loop(c, d) == Outcome(Decoder(Done, tail, 0, 0, d.total + |Flatten(chunks)|,
                                          AfterWrite(c.outputFd, d.output, Flatten(chunks))), Complete)
    decreases |chunks|
  {
    hide Loop, EncodeChunk;
    if |chunks| == 0 {
      ReadLastChunk(c, d, tail);
    } else {
      var data, rest := chunks[0], Encode(chunks[1..]) + tail;
      assert d.buffer == EncodeChunk(data) + rest;
      ReadChunk(c, d, data, rest);
      DecodeEncoded(c, AfterChunk(c, d, data, rest), chunks[1..], tail);
      AfterTwoWrites(c.outputFd, d.output, data, Flatten(chunks[1..]));
    }
  }

  /** Round trip in any split: decoding the encoding of `chunks` writes exactly their concatenation. */
  lemma RoundTrip(c: Config, chunks: seq<string>, tail: string, pieces: seq<string>)
    requires c.outputFd != -1 && c.maxBody < SIZE_LIMIT
    requires forall i :: 0 <= i < |chunks| ==> |chunks[i]| > 0
    requires |Flatten(chunks)| <= c.maxBody
    requires Flatten(pieces) == Encode(chunks) + tail
    ensures FeedAll(c, INIT, pieces)
            == Outcome(Decoder(Done, tail, 0, 0, |Flatten(chunks)|, Flatten(chunks)), Complete)
  {
    assert Quiet(c, INIT) by {
      assert Find("", CRLF) == -1;
    }
    hide Step, Loop, Encode;
    var d := Extend(INIT, Encode(chunks) + tail);
    assert d.buffer == Encode(chunks) + tail;
    DecodeEncoded(c, d, chunks, tail);
    SplitIndependence(c, INIT, pieces);
  }
}
