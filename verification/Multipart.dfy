/**
 * The streaming splitter for multipart/form-data bodies (section 5.1.1 of RFC 2046),
 * webserv/sources/request/multipartParser.cpp.
 *
 * `Splitter` is the part of the parser's state that `feed` changes, as a value, and `Loop` is the
 * loop of `feed`. The class in MultipartParser.dfy updates fields in place and is proved to do
 * exactly that.
 */
module Multipart {
  import opened Bytes

  const DASHES := "--"

  datatype Phase = ExpectBoundary | PartHeaders | PartBody | Done

  datatype Result = NeedMore | Complete | Error

  /** What `init` fixes: the delimiter, which starts with two dashes, and the body limit. */
  datatype Config = Config(boundary: string, maxBody: nat)

  /** One uploaded part: its header block and the bytes written to its file. */
  datatype Part = Part(header: string, body: string)

  /**
   * `fileOpen` says that a file is open, `body` is what was written to it, and `closed` are the
   * parts whose files were closed. Opening a file and writing to it succeed.
   */
  datatype Splitter = Splitter(
    phase: Phase,
    buffer: string,
    header: string,
    fileOpen: bool,
    body: string,
    closed: seq<Part>,
    received: nat)

  datatype Outcome = Outcome(d: Splitter, r: Result)

  predicate ValidConfig(c: Config) {
    |c.boundary| >= 2 && c.boundary[..2] == DASHES
  }

  /** A file is open exactly when a part's headers were read and its end was not. */
  predicate Valid(c: Config, d: Splitter) {
    && ValidConfig(c)
    && (d.phase == PartBody ==> d.fileOpen)
    && (d.phase == PartHeaders || d.phase == Done ==> !d.fileOpen)
  }

  const INIT: Splitter := Splitter(ExpectBoundary, "", "", false, "", [], 0)

  /**
   * The search for the delimiter, and failing that for the closing delimiter. Since the latter
   * starts with the former, the second search never finds anything.
   */
  function BoundaryPos(c: Config, b: string): (r: int)
    ensures r == Find(b, c.boundary)
  {
    var pos := Find(b, c.boundary);
    if pos == -1 then
      ClosingHasBoundary(c, b);
      Find(b, c.boundary + DASHES)
    else pos
  }

  lemma ClosingHasBoundary(c: Config, b: string)
    requires Find(b, c.boundary) == -1
    ensures Find(b, c.boundary + DASHES) == -1
  {
    var closing := c.boundary + DASHES;
    forall i ensures !At(b, closing, i) {
      assert !At(b, c.boundary, i);
      if 0 <= i && i + |closing| <= |b| {
        assert b[i..i + |c.boundary|] == b[i..i + |closing|][..|c.boundary|];
        assert closing[..|c.boundary|] == c.boundary;
      }
    }
  }

  /** `closeCurrentFile`. */
  function Close(d: Splitter): Splitter {
    if d.fileOpen then d.(fileOpen := false, body := "", closed := d.closed + [Part(d.header, d.body)]) else d
  }

  predicate StartsWith(s: string, p: string) {
    |p| <= |s| && s[..|p|] == p
  }

  /** What follows the delimiter decides: two dashes end the message, a line break starts a part. */
  function AfterDelimiter(d: Splitter, rest: string): Outcome {
    if StartsWith(rest, DASHES) then Outcome(Close(d).(buffer := rest, phase := Done), Complete)
    else if !StartsWith(rest, CRLF) then Outcome(d.(buffer := rest), Error)
    else Outcome(Close(d).(buffer := rest[2..], header := "", phase := PartHeaders), NeedMore)
  }

  function StepBoundary(c: Config, d: Splitter): Outcome {
    var pos := BoundaryPos(c, d.buffer);
    if pos == -1 then Outcome(d, NeedMore)
    else AfterDelimiter(d, d.buffer[pos + |c.boundary|..])
  }

  function StepHeaders(d: Splitter): Outcome {
    var pos := Find(d.buffer, BLANK_LINE);
    if pos == -1 then Outcome(d, NeedMore)
    else
      Outcome(d.(buffer := d.buffer[pos + 4..], header := d.buffer[..pos], fileOpen := true, body := "",
                 phase := PartBody), NeedMore)
  }

  /** How many bytes of a body without a delimiter are written: all but as many as the delimiter has. */
  function Safe(c: Config, b: string): nat {
    if |b| > |c.boundary| then |b| - |c.boundary| else 0
  }

  /** `write` takes all of `bytes`; `rest` is what is then in the buffer. */
  function Write(d: Splitter, bytes: string, rest: string): Splitter {
    d.(buffer := rest, body := if d.fileOpen then d.body + bytes else d.body)
  }

  predicate BreakBefore(b: string, pos: nat) {
    2 <= pos <= |b| && b[pos - 2..pos] == CRLF
  }

  /** A delimiter at `pos` ends the body if a line break precedes it, which is not written. */
  function EndOfBody(d: Splitter, pos: nat): Outcome
    requires pos <= |d.buffer|
  {
    if BreakBefore(d.buffer, pos) then
      Outcome(Write(d, d.buffer[..pos - 2], d.buffer[pos..]).(phase := ExpectBoundary), NeedMore)
    else Outcome(d, Error)
  }

  function StepBody(c: Config, d: Splitter): Outcome {
    var pos := BoundaryPos(c, d.buffer);
    if pos == -1 then
      var n := Safe(c, d.buffer);
      Outcome(if n > 0 && d.fileOpen then Write(d, d.buffer[..n], d.buffer[n..]) else d, NeedMore)
    else EndOfBody(d, pos)
  }

  function Step(c: Config, d: Splitter): (s: Outcome)
    requires Valid(c, d)
    ensures s.r != Error ==> Valid(c, s.d)
    ensures s.d.received == d.received
  {
    match d.phase
    case ExpectBoundary => StepBoundary(c, d)
    case PartHeaders => StepHeaders(d)
    case PartBody => StepBody(c, d)
    case Done => Outcome(d, Complete)
  }

  /** The loop goes round again when the phase changed or bytes were consumed, and bytes remain. */
  predicate GoesOn(d: Splitter, s: Outcome) {
    && s.r == NeedMore
    && (s.d.phase != d.phase || |s.d.buffer| < |d.buffer|)
    && |s.d.buffer| > 0
  }

  /** Every step that goes on consumes bytes. */
  lemma StepConsumes(c: Config, d: Splitter)
    requires Valid(c, d) && GoesOn(d, Step(c, d))
    ensures |Step(c, d).d.buffer| < |d.buffer|
  {
  }

  /** The `for (;;)` of `feed`. */
  function Loop(c: Config, d: Splitter): (s: Outcome)
    requires Valid(c, d)
    ensures s.r != Error ==> Valid(c, s.d)
    ensures s.d.received == d.received
    decreases |d.buffer|
  {
    var s := Step(c, d);
    if GoesOn(d, s) then
      StepConsumes(c, d);
      Loop(c, s.d)
    else s
  }

  lemma LoopGoesOn(c: Config, d: Splitter)
    requires Valid(c, d) && GoesOn(d, Step(c, d))
    ensures Loop(c, d) == Loop(c, Step(c, d).d)
  {
  }

  lemma LoopEnds(c: Config, d: Splitter)
    requires Valid(c, d) && !GoesOn(d, Step(c, d))
    ensures Loop(c, d) == Step(c, d)
  {
  }

  /** More bytes arrive. */
  function Extend(d: Splitter, t: string): Splitter {
    d.(buffer := d.buffer + t, received := d.received + |t|)
  }

  /** One `feed` of a parser that is active and has not failed. */
  function Feed(c: Config, d: Splitter, data: string): (s: Outcome)
    requires Valid(c, d)
    ensures s.r != Error ==> Valid(c, s.d)
  {
    if d.received + |data| > c.maxBody then Outcome(Extend(d, data), Error)
    else Loop(c, Extend(d, data))
  }

  /** Feeding pieces one after the other, up to the first ERROR. */
  function FeedAll(c: Config, d: Splitter, pieces: seq<string>): (s: Outcome)
    requires Valid(c, d)
    ensures s.r != Error ==> Valid(c, s.d)
    decreases |pieces|
  {
    if |pieces| == 0 then Outcome(d, if d.phase == Done then Complete else NeedMore)
    else
      var s := Feed(c, d, pieces[0]);
      if s.r == Error then s else FeedAll(c, s.d, pieces[1..])
  }

  // ---------------------------------------------------------------- quiescence

  /** No further pass of the loop can change anything until bytes arrive. */
  predicate Quiet(c: Config, d: Splitter) {
    Valid(c, d) && Step(c, d) == Outcome(d, if d.phase == Done then Complete else NeedMore)
  }

  lemma StepStops(c: Config, d: Splitter)
    requires Valid(c, d) && !GoesOn(d, Step(c, d)) && Step(c, d).r != Error
    ensures Quiet(c, Step(c, d).d)
    ensures Step(c, d).r == Complete <==> Step(c, d).d.phase == Done
  {
    var e := Step(c, d).d;
    if |e.buffer| == 0 {
      assert Find("", c.boundary) == -1 && Find("", BLANK_LINE) == -1;
    }
  }

  /** `feed` returns without ERROR only when no step can progress, and with COMPLETE exactly in the last phase. */
  lemma {:induction false} LoopIsQuiet(c: Config, d: Splitter)
    requires Valid(c, d) && Loop(c, d).r != Error
    ensures Quiet(c, Loop(c, d).d)
    ensures Loop(c, d).r == Complete <==> Loop(c, d).d.phase == Done
    decreases |d.buffer|
  {
    hide StepBoundary, StepHeaders, StepBody;
    if GoesOn(d, Step(c, d)) {
      StepConsumes(c, d);
      LoopIsQuiet(c, Step(c, d).d);
    } else {
      StepStops(c, d);
    }
  }

  lemma LoopOfQuiet(c: Config, d: Splitter)
    requires Quiet(c, d)
    ensures Loop(c, d) == Outcome(d, if d.phase == Done then Complete else NeedMore)
  {
  }
}
