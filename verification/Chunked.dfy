/**
 * The streaming decoder for the chunked transfer coding (section 7.1 of RFC 9112),
 * webserv/sources/request/ChunkedParser.cpp.
 *
 * `Decoder` is the part of the parser's state that `feed` changes, as a value, and `Loop` is the
 * loop of `feed`. The class in ChunkedParser.dfy updates fields in place and is proved to do
 * exactly that.
 */
module Chunked {
  import opened Bytes
  import opened Hex

  /** One more than the largest `size_t`. */
  const SIZE_LIMIT: nat := 0x1_0000_0000_0000_0000

  datatype Option<T> = None | Some(value: T)

  datatype Phase = Size | Data | End | Done

  datatype Result = NeedMore | Complete | Error | MaxError {
    predicate Failing() { Error? || MaxError? }
  }

  /** What `init` fixes: the descriptor written to, -1 for none, and the body limit, a `size_t`. */
  datatype Config = Config(outputFd: int, maxBody: nat)

  /** `output` is everything passed to `write` so far. */
  datatype Decoder = Decoder(
    phase: Phase,
    buffer: string,
    chunkSize: nat,
    written: nat,
    total: nat,
    output: string)

  datatype Outcome = Outcome(d: Decoder, r: Result)

  /** Addition of two `size_t` values, which wraps around. */
  function AddSize(a: nat, b: nat): int {
    if a + b < SIZE_LIMIT then a + b else a + b - SIZE_LIMIT
  }

  /** Addition is modulo 2^64. */
  lemma AddSizeIs(a: nat, b: nat)
    requires a < 0x1_0000_0000_0000_0000 && b < 0x1_0000_0000_0000_0000
    ensures AddSize(a, b) == (a + b) % 0x1_0000_0000_0000_0000
  {
  }

  /** The byte counter agrees with the output, after a failure too. */
  predicate Counted(c: Config, d: Decoder) {
    && c.maxBody < SIZE_LIMIT
    && |d.output| == (if c.outputFd != -1 then d.total else 0)
  }

  /** What every call that does not fail keeps. */
  predicate Valid(c: Config, d: Decoder) {
    && Counted(c, d)
    && d.written <= d.chunkSize < SIZE_LIMIT
    && d.total <= c.maxBody
    && (d.phase == Data ==> AddSize(d.total, d.chunkSize - d.written) <= c.maxBody)
  }

  const INIT: Decoder := Decoder(Size, "", 0, 0, 0, "")

  // ---------------------------------------------------------------- chunk sizes

  /** Extraction of a `size_t`: an overflow fails, and a number with a minus sign wraps around. */
  function ParseSize(line: string): (r: Option<nat>)
    ensures r.Some? ==> r.value < SIZE_LIMIT
  {
    match Extract(line)
    case NoNumber => None
    case Number(negative, n) =>
      if n >= SIZE_LIMIT then None else Some(if negative && n > 0 then SIZE_LIMIT - n else n)
  }

  /** A size is the digits' value when that is below 2^64, and with a minus sign what it lacks to 2^64. */
  lemma ParseSizeIs(blanks: string, sign: string, prefix: string, digits: string, junk: string)
    requires forall k :: 0 <= k < |blanks| ==> IsSpace(blanks[k])
    requires IsSign(sign) && IsPrefix(prefix) && IsNumber(digits, junk)
    ensures var n := HexValue(digits);
            ParseSize(blanks + (sign + (prefix + (digits + junk)))) ==
            if n >= 0x1_0000_0000_0000_0000 then None
            else if sign == "-" then Some((0x1_0000_0000_0000_0000 - n) % 0x1_0000_0000_0000_0000)
            else Some(n)
  {
    hide Extract, HexValue;
    ExtractIs(blanks, sign, prefix, digits, junk);
  }

  // ---------------------------------------------------------------- one pass of the loop

  function StepSize(c: Config, d: Decoder): Outcome
  {
    var pos := Find(d.buffer, CRLF);
    if pos == -1 then Outcome(d, NeedMore)
    else
      var rest := d.buffer[pos + 2..];
      match ParseSize(d.buffer[..pos])
      case None => Outcome(d.(buffer := rest), Error)
      case Some(n) =>
        if AddSize(d.total, n) > c.maxBody then Outcome(d.(buffer := rest, chunkSize := n), MaxError)
        else Outcome(d.(buffer := rest, chunkSize := n, written := 0, phase := Data), NeedMore)
  }

  /** `write` takes every byte it is given; without a descriptor, or without bytes, it is not called. */
  function AfterWrite(fd: int, output: string, bytes: string): string {
    if fd != -1 && |bytes| > 0 then output + bytes else output
  }

  /** The counters and the output after `write` took `bytes`; `rest` is what is then in the buffer. */
  function Wrote(c: Config, d: Decoder, bytes: string, rest: string): Decoder {
    d.(buffer := rest, written := d.written + |bytes|, total := d.total + |bytes|,
       output := AfterWrite(c.outputFd, d.output, bytes))
  }

  function StepData(c: Config, d: Decoder): Outcome
    requires d.written <= d.chunkSize
  {
    if |d.buffer| == 0 then Outcome(d, NeedMore)
    else
      var n := Min(|d.buffer|, d.chunkSize - d.written);
      if d.total + n > c.maxBody then Outcome(Wrote(c, d, d.buffer[..n], d.buffer), MaxError)
      else
        var phase := if d.written + n >= d.chunkSize then End else d.phase;
        Outcome(Wrote(c, d, d.buffer[..n], d.buffer[n..]).(phase := phase), NeedMore)
  }

  function StepEnd(d: Decoder): Outcome
  {
    if |d.buffer| < 2 then Outcome(d, NeedMore)
    else if d.buffer[..2] != CRLF then Outcome(d, Error)
    else if d.chunkSize == 0 then Outcome(d.(buffer := d.buffer[2..], phase := Done), Complete)
    else Outcome(d.(buffer := d.buffer[2..], phase := Size), NeedMore)
  }

  function Step(c: Config, d: Decoder): (s: Outcome)
    requires Valid(c, d)
    ensures Counted(c, s.d)
    ensures !s.r.Failing() ==> Valid(c, s.d)
  {
    match d.phase
    case Size => StepSize(c, d)
    case Data => StepData(c, d)
    case End => StepEnd(d)
    case Done => Outcome(d, Complete)
  }

  /** The loop goes round again when the phase changed or bytes were consumed, and bytes remain. */
  predicate GoesOn(d: Decoder, s: Outcome) {
    && s.r == NeedMore
    && (s.d.phase != d.phase || |s.d.buffer| < |d.buffer|)
    && |s.d.buffer| > 0
  }

  function Rank(p: Phase): nat {
    if p == Data then 1 else 0
  }

  lemma StepDecreases(c: Config, d: Decoder)
    requires Valid(c, d) && GoesOn(d, Step(c, d))
    ensures var e := Step(c, d).d;
            |e.buffer| < |d.buffer| || (|e.buffer| == |d.buffer| && Rank(e.phase) < Rank(d.phase))
  {
  }

  /** The `for (;;)` of `feed`. */
  function Loop(c: Config, d: Decoder): (s: Outcome)
    requires Valid(c, d)
    ensures Counted(c, s.d)
    ensures !s.r.Failing() ==> Valid(c, s.d)
    decreases |d.buffer|, Rank(d.phase)
  {
    var s := Step(c, d);
    if GoesOn(d, s) then
      StepDecreases(c, d);
      Loop(c, s.d)
    else s
  }

  lemma LoopGoesOn(c: Config, d: Decoder)
    requires Valid(c, d) && GoesOn(d, Step(c, d))
    ensures Loop(c, d) == Loop(c, Step(c, d).d)
  {
  }

  lemma LoopEnds(c: Config, d: Decoder)
    requires Valid(c, d) && !GoesOn(d, Step(c, d))
    ensures Loop(c, d) == Step(c, d)
  {
  }

  function Extend(d: Decoder, t: string): Decoder {
    d.(buffer := d.buffer + t)
  }

  lemma ExtendTwice(d: Decoder, p: string, t: string)
    ensures Extend(Extend(d, p), t) == Extend(d, p + t)
  {
    Assoc(d.buffer, p, t);
  }

  /** One `feed` of a parser that is active and has not failed. */
  function Feed(c: Config, d: Decoder, data: string): (s: Outcome)
    requires Valid(c, d)
    ensures Counted(c, s.d)
    ensures !s.r.Failing() ==> Valid(c, s.d)
  {
    Loop(c, Extend(d, data))
  }

  /** Feeding pieces one after the other, up to the first failure. */
  function FeedAll(c: Config, d: Decoder, pieces: seq<string>): (s: Outcome)
    requires Valid(c, d)
    ensures Counted(c, s.d)
    decreases |pieces|
  {
    if |pieces| == 0 then Outcome(d, if d.phase == Done then Complete else NeedMore)
    else
      var s := Feed(c, d, pieces[0]);
      if s.r.Failing() then s else FeedAll(c, s.d, pieces[1..])
  }

  // ---------------------------------------------------------------- quiescence

  /** No further pass of the loop can change anything until bytes arrive. */
  predicate Quiet(c: Config, d: Decoder) {
    Valid(c, d) && Step(c, d) == Outcome(d, if d.phase == Done then Complete else NeedMore)
  }

  lemma StepStops(c: Config, d: Decoder)
    requires Valid(c, d) && !GoesOn(d, Step(c, d)) && !Step(c, d).r.Failing()
    ensures Quiet(c, Step(c, d).d)
    ensures Step(c, d).r == Complete <==> Step(c, d).d.phase == Done
  {
    if |Step(c, d).d.buffer| == 0 {
      assert Find("", CRLF) == -1;
    }
  }

  /** `feed` returns without a failure only when no step can progress, and with COMPLETE exactly in the last phase. */
  lemma {:induction false} LoopIsQuiet(c: Config, d: Decoder)
    requires Valid(c, d) && !Loop(c, d).r.Failing()
    ensures Quiet(c, Loop(c, d).d)
    ensures Loop(c, d).r == Complete <==> Loop(c, d).d.phase == Done
    decreases |d.buffer|, Rank(d.phase)
  {
    hide StepSize, StepData, StepEnd;
    if GoesOn(d, Step(c, d)) {
      StepDecreases(c, d);
      LoopIsQuiet(c, Step(c, d).d);
    } else {
      StepStops(c, d);
    }
  }

  lemma LoopOfQuiet(c: Config, d: Decoder)
    requires Quiet(c, d)
    ensures Loop(c, d) == Outcome(d, if d.phase == Done then Complete else NeedMore)
  {
  }
}
