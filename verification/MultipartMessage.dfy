/** Messages with well-formed parts: the round trip, and exactly which cuts the splitter survives. */
module MultipartMessage {
  import opened Bytes
  import opened Multipart
  import opened MultipartSplit

  /** The blank line that ends the headers is the first one. */
  predicate HeaderOk(h: string) {
    Find(h + BLANK_LINE, BLANK_LINE) == |h|
  }

  /** The boundary has no CR, and the part can be told from what surrounds it. */
  predicate PartOk(c: Config, p: Part) {
    && ValidConfig(c) && '\r' !in c.boundary
    && HeaderOk(p.header) && !Contains(p.body, c.boundary)
  }

  predicate WellFormed(c: Config, parts: seq<Part>) {
    ValidConfig(c) && forall i :: 0 <= i < |parts| ==> PartOk(c, parts[i])
  }

  /** The body of a part, its line break, and what follows. */
  function BodyAnd(p: Part, rest: string): string {
    p.body + CRLF + rest
  }

  function PartAnd(p: Part, rest: string): string {
    p.header + BLANK_LINE + BodyAnd(p, rest)
  }

  /** The multipart body of section 5.1.1 of RFC 2046 without preamble, then `tail`. */
  function Encode(c: Config, parts: seq<Part>, tail: string): string {
    if |parts| == 0 then c.boundary + (DASHES + tail)
    else c.boundary + (CRLF + PartAnd(parts[0], Encode(c, parts[1..], tail)))
  }

  /** The bytes a part takes, from its delimiter up to the next one. */
  function PartSize(c: Config, p: Part): nat {
    |c.boundary| + 2 + |p.header| + 4 + |p.body| + 2
  }

  /** A cut after `x` bytes comes right after a delimiter, or one byte later. */
  predicate AfterDelimiterCut(c: Config, parts: seq<Part>, x: int) {
    || x == |c.boundary| || x == |c.boundary| + 1
    || (|parts| > 0 && AfterDelimiterCut(c, parts[1..], x - PartSize(c, parts[0])))
  }

  /** A cut after `x` bytes comes one byte before the end of a delimiter that ends a body. */
  predicate BeforeDelimiterEndCut(c: Config, parts: seq<Part>, x: int) {
    |parts| > 0 &&
    (x - PartSize(c, parts[0]) == |c.boundary| - 1 || BeforeDelimiterEndCut(c, parts[1..], x - PartSize(c, parts[0])))
  }

  lemma BodyBoundary(c: Config, p: Part, rest: string)
    requires PartOk(c, p)
    requires At(rest, c.boundary, 0)
    ensures Find(BodyAnd(p, rest), c.boundary) == |p.body| + 2
  {
    var w := BodyAnd(p, rest);
    var n := |p.body|;
    assert w[n + 2..n + 2 + |c.boundary|] == rest[0..0 + |c.boundary|];
    forall i | 0 <= i < n + 2 ensures !At(w, c.boundary, i) {
      if i + |c.boundary| <= n {
        assert w[i..i + |c.boundary|] == p.body[i..i + |c.boundary|];
        assert !At(p.body, c.boundary, i);
      } else if i <= n {
        assert w[n] == '\r';
        assert n - i < |c.boundary| && i + |c.boundary| <= |w| ==> w[i..i + |c.boundary|][n - i] == '\r';
      } else {
        assert w[i] == '\n' && c.boundary[0] == DASHES[0] by {
          assert c.boundary[..2][0] == DASHES[0];
        }
        assert i + |c.boundary| <= |w| ==> w[i..i + |c.boundary|][0] == '\n';
      }
    }
    FindIs(w, c.boundary, n + 2);
  }

  // ---------------------------------------------------------------- the stages of one part

  lemma LoopByStep(c: Config, d: Splitter)
    requires Valid(c, d) && Step(c, d).r == NeedMore
    requires Step(c, d).d.phase != d.phase
    ensures Loop(c, d) == Loop(c, Step(c, d).d)
  {
    if |Step(c, d).d.buffer| == 0 {
      LoopOfEmpty(c, Step(c, d).d);
    }
  }

  lemma ReadNoDelimiter(c: Config, d: Splitter)
    requires Valid(c, d) && d.phase == ExpectBoundary && |d.buffer| < |c.boundary|
    ensures Loop(c, d) == Outcome(d, NeedMore)
  {
  }

  lemma DelimiterFirst(c: Config, d: Splitter, w: string)
    requires ValidConfig(c) && d.buffer == c.boundary + w
    ensures StepBoundary(c, d) == AfterDelimiter(d, w)
  {
    assert d.buffer[..|c.boundary|] == c.boundary && d.buffer[|c.boundary|..] == w;
    FindIs(d.buffer, c.boundary, 0);
  }

  lemma ReadShortDelimiter(c: Config, d: Splitter, w: string)
    requires Valid(c, d) && d.phase == ExpectBoundary && d.buffer == c.boundary + w && |w| < 2
    ensures Loop(c, d).r == Error
  {
    DelimiterFirst(c, d, w);
  }

  lemma ReadClosing(c: Config, d: Splitter, w: string)
    requires Valid(c, d) && d.phase == ExpectBoundary && d.buffer == c.boundary + w && StartsWith(w, DASHES)
    ensures Loop(c, d) == Outcome(Close(d).(buffer := w, phase := Done), Complete)
  {
    DelimiterFirst(c, d, w);
  }

  /** The state a delimiter at the start of a part leaves. */
  function InHeaders(d: Splitter, buffer: string): Splitter {
    Close(d).(buffer := buffer, header := "", phase := PartHeaders)
  }

  lemma ReadDelimiter(c: Config, d: Splitter, w: string)
    requires Valid(c, d) && d.phase == ExpectBoundary && d.buffer == c.boundary + (CRLF + w)
    ensures Valid(c, InHeaders(d, w))
    ensures Loop(c, d) == Loop(c, InHeaders(d, w))
  {
    DelimiterFirst(c, d, CRLF + w);
    assert (CRLF + w)[2..] == w && (CRLF + w)[..2] == CRLF;
    LoopByStep(c, d);
  }

  lemma ReadNoHeaders(c: Config, d: Splitter)
    requires Valid(c, d) && d.phase == PartHeaders && Find(d.buffer, BLANK_LINE) == -1
    ensures Loop(c, d) == Outcome(d, NeedMore)
  {
  }

  function InBody(d: Splitter, p: Part, buffer: string): Splitter {
    d.(buffer := buffer, header := p.header, fileOpen := true, body := "", phase := PartBody)
  }

  lemma ReadHeaders(c: Config, d: Splitter, p: Part, w: string)
    requires Valid(c, d) && d.phase == PartHeaders && d.buffer == p.header + BLANK_LINE + w
    requires HeaderOk(p.header)
    ensures Valid(c, InBody(d, p, w))
    ensures Loop(c, d) == Loop(c, InBody(d, p, w))
  {
    FindExtend(p.header + BLANK_LINE, w, BLANK_LINE);
    var n := |p.header|;
    assert d.buffer[..n] == p.header && d.buffer[n + 4..] == w;
    LoopByStep(c, d);
  }

  function AfterBody(d: Splitter, p: Part, buffer: string): Splitter {
    d.(buffer := buffer, body := d.body + p.body, phase := ExpectBoundary)
  }

  lemma ReadBody(c: Config, d: Splitter, p: Part, w: string)
    requires Valid(c, d) && d.phase == PartBody && d.buffer == BodyAnd(p, w)
    requires Find(d.buffer, c.boundary) == |p.body| + 2
    ensures Valid(c, AfterBody(d, p, w))
    ensures Loop(c, d) == Loop(c, AfterBody(d, p, w))
  {
    var n := |p.body|;
    assert d.buffer[n..n + 2] == CRLF && d.buffer[..n] == p.body && d.buffer[n + 2..] == w;
    LoopByStep(c, d);
  }

  /** The state after a whole part, with the delimiter that ends it still in the buffer. */
  function AfterPart(d: Splitter, p: Part, buffer: string): Splitter {
    Splitter(ExpectBoundary, buffer, p.header, true, p.body, Close(d).closed, d.received)
  }

  lemma ReadPart(c: Config, d: Splitter, p: Part, rest: string)
    requires PartOk(c, p) && Valid(c, d) && d.phase == ExpectBoundary
    requires d.buffer == c.boundary + (CRLF + PartAnd(p, rest)) && At(rest, c.boundary, 0)
    ensures Valid(c, AfterPart(d, p, rest))
    ensures Loop(c, d) == Loop(c, AfterPart(d, p, rest))
  {
    ReadDelimiter(c, d, PartAnd(p, rest));
    var e := InHeaders(d, PartAnd(p, rest));
    ReadHeaders(c, e, p, BodyAnd(p, rest));
    var b := InBody(e, p, BodyAnd(p, rest));
    BodyBoundary(c, p, rest);
    ReadBody(c, b, p, rest);
    assert b.body + p.body == p.body;
  }

  lemma EncodeStarts(c: Config, parts: seq<Part>, tail: string)
    ensures |Encode(c, parts, tail)| >= |c.boundary| + 2
    ensures At(Encode(c, parts, tail), c.boundary, 0)
  {
  }

  /** The message is complete, its parts were closed in order after `before`, and later bytes are kept. */
  predicate Decoded(s: Outcome, before: seq<Part>, parts: seq<Part>, tail: string) {
    && s.r == Complete && s.d.phase == Done && !s.d.fileOpen
    && s.d.closed == before + parts && s.d.buffer == DASHES + tail
  }

  /** One run over an encoded message completes with exactly its parts, and keeps the later bytes. */
  lemma {:induction false} DecodeEncoded(c: Config, d: Splitter, parts: seq<Part>, tail: string)
    requires WellFormed(c, parts) && Valid(c, d) && d.phase == ExpectBoundary
    requires d.buffer == Encode(c, parts, tail)
    ensures Decoded(Loop(c, d), Close(d).closed, parts, tail)
    decreases |parts|
  {
    hide Loop, At, PartOk, PartAnd, Find;
    if |parts| == 0 {
      assert (DASHES + tail)[..2] == DASHES;
      ReadClosing(c, d, DASHES + tail);
      assert Close(d).closed + parts == Close(d).closed;
    } else {
      var p, rest := parts[0], Encode(c, parts[1..], tail);
      EncodeStarts(c, parts[1..], tail);
      ReadPart(c, d, p, rest);
      DecodeEncoded(c, AfterPart(d, p, rest), parts[1..], tail);
      assert Close(d).closed + [p] + parts[1..] == Close(d).closed + parts;
    }
  }

  // ---------------------------------------------------------------- cuts

  lemma {:induction false} NoCutBeforeDelimiter(c: Config, parts: seq<Part>, x: int)
    requires x < |c.boundary|
    ensures !AfterDelimiterCut(c, parts, x) && !BeforeDelimiterEndCut(c, parts, x)
    decreases |parts|
  {
    if |parts| > 0 {
      NoCutBeforeDelimiter(c, parts[1..], x - PartSize(c, parts[0]));
    }
  }

  /** The cut falls inside a part: its delimiter was read, the one that ends it was not. */
  predicate Inside(c: Config, p: Part, x: nat) {
    |c.boundary| + 2 <= x < PartSize(c, p) + |c.boundary|
  }

  /** How far into the body, negative inside the headers, a cut is. */
  function BodyOffset(c: Config, p: Part, x: nat): int {
    x - (|c.boundary| + 2 + |p.header| + 4)
  }

  lemma CutInHeaders(c: Config, d: Splitter, p: Part, rest: string, x: nat)
    requires PartOk(c, p) && Valid(c, d) && d.phase == ExpectBoundary && Inside(c, p, x)
    requires x <= |c.boundary + (CRLF + PartAnd(p, rest))|
    requires d.buffer == (c.boundary + (CRLF + PartAnd(p, rest)))[..x] && BodyOffset(c, p, x) < 0
    ensures Loop(c, d).r == NeedMore && Loop(c, d).d.phase == PartHeaders
  {
    var w := PartAnd(p, rest)[..x - |c.boundary| - 2];
    TakeConcat(c.boundary, CRLF + PartAnd(p, rest), x);
    TakeConcat(CRLF, PartAnd(p, rest), x - |c.boundary|);
    hide Loop;
    ReadDelimiter(c, d, w);
    NoHeaderEnd(p, rest, |w|);
    ReadNoHeaders(c, InHeaders(d, w));
  }

  lemma NoHeaderEnd(p: Part, rest: string, y: nat)
    requires HeaderOk(p.header) && y < |p.header| + 4 && y <= |PartAnd(p, rest)|
    ensures Find(PartAnd(p, rest)[..y], BLANK_LINE) == -1
  {
    FindExtend(p.header + BLANK_LINE, BodyAnd(p, rest), BLANK_LINE);
    FindPrefix(PartAnd(p, rest), BLANK_LINE, y);
  }

  lemma CutInBody(c: Config, d: Splitter, p: Part, rest: string, x: nat)
    requires PartOk(c, p) && Valid(c, d) && d.phase == ExpectBoundary && Inside(c, p, x)
    requires x <= |c.boundary + (CRLF + PartAnd(p, rest))| && At(rest, c.boundary, 0)
    requires d.buffer == (c.boundary + (CRLF + PartAnd(p, rest)))[..x] && BodyOffset(c, p, x) >= 0
    ensures var b := BodyAnd(p, rest)[..BodyOffset(c, p, x)];
            && Loop(c, d).r == NeedMore && Loop(c, d).d.phase == PartBody
            && Loop(c, d).d.buffer == b[Safe(c, b)..]
  {
    var b := BodyAnd(p, rest)[..BodyOffset(c, p, x)];
    var w := p.header + BLANK_LINE + b;
    hide Loop;
    TakeBody(c, p, rest, x);
    ReadDelimiter(c, d, w);
    ReadHeaders(c, InHeaders(d, w), p, b);
    BodyBoundary(c, p, rest);
    FindPrefix(BodyAnd(p, rest), c.boundary, |b|);
    hide BodyAnd, PartAnd, Inside;
    FlushLoop(c, InBody(InHeaders(d, w), p, b));
  }

  lemma TakeBody(c: Config, p: Part, rest: string, x: nat)
    requires x <= |c.boundary + (CRLF + PartAnd(p, rest))| && BodyOffset(c, p, x) >= 0
    ensures BodyOffset(c, p, x) <= |BodyAnd(p, rest)|
    ensures (c.boundary + (CRLF + PartAnd(p, rest)))[..x]
         == c.boundary + (CRLF + (p.header + BLANK_LINE + BodyAnd(p, rest)[..BodyOffset(c, p, x)]))
  {
    TakeConcat(c.boundary, CRLF + PartAnd(p, rest), x);
    TakeConcat(CRLF, PartAnd(p, rest), x - |c.boundary|);
    TakeConcat(p.header + BLANK_LINE, BodyAnd(p, rest), x - |c.boundary| - 2);
  }

  lemma PartLength(c: Config, p: Part, rest: string)
    ensures |c.boundary + (CRLF + PartAnd(p, rest))| == PartSize(c, p) + |rest|
  {
  }

  /** A run over the first `x` bytes of a message ends with ERROR exactly when the cut follows a delimiter too closely. */
  lemma {:induction false} CutFails(c: Config, d: Splitter, parts: seq<Part>, tail: string, x: nat)
    requires WellFormed(c, parts) && Valid(c, d) && d.phase == ExpectBoundary
    requires x <= |Encode(c, parts, tail)| && d.buffer == Encode(c, parts, tail)[..x]
    ensures Loop(c, d).r == Error <==> AfterDelimiterCut(c, parts, x)
    decreases |parts|
  {
    hide Loop, At, PartOk, PartAnd, Find;
    var n := |c.boundary|;
    if x < n {
      ReadNoDelimiter(c, d);
      NoCutBeforeDelimiter(c, parts, x);
    } else if x < n + 2 {
      var w := Encode(c, parts, tail)[n..x];
      assert d.buffer == c.boundary + w;
      ReadShortDelimiter(c, d, w);
    } else if |parts| == 0 {
      var w := (DASHES + tail)[..x - n];
      TakeConcat(c.boundary, DASHES + tail, x);
      assert w[..2] == DASHES;
      ReadClosing(c, d, w);
    } else {
      var p, rest := parts[0], Encode(c, parts[1..], tail);
      PartLength(c, p, rest);
      EncodeStarts(c, parts[1..], tail);
      var y := x - PartSize(c, p);
      if Inside(c, p, x) {
        NoCutBeforeDelimiter(c, parts[1..], y);
        if BodyOffset(c, p, x) < 0 {
          CutInHeaders(c, d, p, rest, x);
        } else {
          CutInBody(c, d, p, rest, x);
        }
      } else {
        CutAfterPart(c, d, p, rest, x);
        CutFails(c, AfterPart(d, p, rest[..y]), parts[1..], tail, y);
      }
    }
  }

  lemma CutAfterPart(c: Config, d: Splitter, p: Part, rest: string, x: nat)
    requires PartOk(c, p) && Valid(c, d) && d.phase == ExpectBoundary
    requires At(rest, c.boundary, 0)
    requires PartSize(c, p) + |c.boundary| <= x <= |c.boundary + (CRLF + PartAnd(p, rest))|
    requires d.buffer == (c.boundary + (CRLF + PartAnd(p, rest)))[..x]
    ensures var e := AfterPart(d, p, rest[..x - PartSize(c, p)]);
            Valid(c, e) && Loop(c, d) == Loop(c, e)
  {
    var w := rest[..x - PartSize(c, p)];
    assert d.buffer == c.boundary + (CRLF + PartAnd(p, w));
    assert w[0..|c.boundary|] == rest[0..|c.boundary|];
    ReadPart(c, d, p, w);
  }

  /** What a later piece finds: the line break is lost exactly when the cut came one byte before the delimiter's end. */
  lemma {:induction false} CutLoses(c: Config, d: Splitter, parts: seq<Part>, tail: string, x: nat, z: nat)
    requires WellFormed(c, parts) && Valid(c, d) && d.phase == ExpectBoundary
    requires x < z <= |Encode(c, parts, tail)| && d.buffer == Encode(c, parts, tail)[..x]
    requires !AfterDelimiterCut(c, parts, x)
    ensures BreakLost(c, Loop(c, d).d, Encode(c, parts, tail)[x..z]) <==> BeforeDelimiterEndCut(c, parts, x)
    decreases |parts|
  {
    hide Loop, At, PartOk, PartAnd, Find;
    var n := |c.boundary|;
    if x < n {
      ReadNoDelimiter(c, d);
      NoCutBeforeDelimiter(c, parts, x);
    } else if |parts| == 0 {
      var w := (DASHES + tail)[..x - n];
      TakeConcat(c.boundary, DASHES + tail, x);
      assert w[..2] == DASHES;
      ReadClosing(c, d, w);
    } else {
      var p, rest := parts[0], Encode(c, parts[1..], tail);
      PartLength(c, p, rest);
      EncodeStarts(c, parts[1..], tail);
      var y := x - PartSize(c, p);
      if Inside(c, p, x) {
        NoCutBeforeDelimiter(c, parts[1..], y);
        LossInside(c, d, p, rest, x, z);
      } else {
        CutAfterPart(c, d, p, rest, x);
        SliceAfterPart(c, p, rest, x, z);
        CutLoses(c, AfterPart(d, p, rest[..y]), parts[1..], tail, y, z - PartSize(c, p));
      }
    }
  }

  lemma SliceAfterPart(c: Config, p: Part, rest: string, x: nat, y: nat)
    requires PartSize(c, p) <= x <= y <= |c.boundary + (CRLF + PartAnd(p, rest))|
    ensures (c.boundary + (CRLF + PartAnd(p, rest)))[x..y] == rest[x - PartSize(c, p)..y - PartSize(c, p)]
  {
    var n := |c.boundary|;
    SliceConcat(c.boundary, CRLF + PartAnd(p, rest), x, y);
    SliceConcat(CRLF, PartAnd(p, rest), x - n, y - n);
    SliceConcat(p.header + BLANK_LINE, BodyAnd(p, rest), x - n - 2, y - n - 2);
    SliceConcat(p.body + CRLF, rest, x - n - 6 - |p.header|, y - n - 6 - |p.header|);
  }

  lemma LossInside(c: Config, d: Splitter, p: Part, rest: string, x: nat, z: nat)
    requires PartOk(c, p) && Valid(c, d) && d.phase == ExpectBoundary && Inside(c, p, x)
    requires At(rest, c.boundary, 0)
    requires x < z <= |c.boundary + (CRLF + PartAnd(p, rest))|
    requires d.buffer == (c.boundary + (CRLF + PartAnd(p, rest)))[..x]
    ensures BreakLost(c, Loop(c, d).d, (c.boundary + (CRLF + PartAnd(p, rest)))[x..z])
            <==> x - PartSize(c, p) == |c.boundary| - 1
  {
    hide Loop;
    var n := |c.boundary|;
    var i, j := BodyOffset(c, p, x), BodyOffset(c, p, z);
    if i < 0 {
      CutInHeaders(c, d, p, rest, x);
    } else {
      CutInBody(c, d, p, rest, x);
      SliceConcat(c.boundary, CRLF + PartAnd(p, rest), x, z);
      SliceConcat(CRLF, PartAnd(p, rest), x - n, z - n);
      SliceConcat(p.header + BLANK_LINE, BodyAnd(p, rest), x - n - 2, z - n - 2);
      LossInBody(c, Loop(c, d).d, p, rest, i, j);
    }
  }

  lemma LossInBody(c: Config, e: Splitter, p: Part, rest: string, i: nat, j: nat)
    requires PartOk(c, p) && At(rest, c.boundary, 0)
    requires i < |p.body| + 2 + |c.boundary| && i < j <= |BodyAnd(p, rest)|
    requires var b := BodyAnd(p, rest)[..i]; e.phase == PartBody && e.buffer == b[Safe(c, b)..]
    ensures BreakLost(c, e, BodyAnd(p, rest)[i..j]) <==> i == |p.body| + 1 + |c.boundary|
  {
    var w := BodyAnd(p, rest);
    var k := Safe(c, w[..i]);
    assert e.buffer + w[i..j] == w[..j][k..];
    BodyBoundary(c, p, rest);
    FindPrefix(w, c.boundary, j);
    FindDrop(w[..j], c.boundary, k);
  }

  // ---------------------------------------------------------------- runs over pieces

  /** The splitter that has the first `x` bytes of a message before it. */
  function Seen(m: string, x: nat): Splitter
    requires x <= |m|
  {
    INIT.(buffer := m[..x], received := x)
  }

  /** No piece ends too close after a delimiter, and none starts one byte before the end of one. */
  predicate CutsOk(c: Config, parts: seq<Part>, x: nat, pieces: seq<string>)
    decreases |pieces|
  {
    |pieces| == 0 ||
    var y := x + |pieces[0]|;
    && (|pieces[0]| > 0 ==> !BeforeDelimiterEndCut(c, parts, x))
    && !AfterDelimiterCut(c, parts, y)
    && CutsOk(c, parts, y, pieces[1..])
  }

  /** Feeding one piece from where the first `x` bytes left the splitter. */
  lemma SeenMore(m: string, x: nat, t: string)
    requires x + |t| <= |m| && t == m[x..x + |t|]
    ensures Extend(Seen(m, x), t) == Seen(m, x + |t|)
  {
    assert m[..x] + t == m[..x + |t|];
  }

  lemma SeenIs(c: Config, parts: seq<Part>, m: string, x: nat)
    requires WellFormed(c, parts) && x <= |m|
    ensures Valid(c, Seen(m, x))
  {
  }

  lemma FeedFrom(c: Config, parts: seq<Part>, tail: string, x: nat, t: string)
    requires WellFormed(c, parts) && !AfterDelimiterCut(c, parts, x)
    requires x + |t| <= |Encode(c, parts, tail)| <= c.maxBody
    requires t == Encode(c, parts, tail)[x..x + |t|]
    ensures var m := Encode(c, parts, tail);
            var s := Loop(c, Seen(m, x));
            && s.r != Error
            && var f := Feed(c, s.d, t);
            && (f.r == Error <==>
                  (|t| > 0 && BeforeDelimiterEndCut(c, parts, x)) || AfterDelimiterCut(c, parts, x + |t|))
            && (f.r != Error ==> f == Loop(c, Seen(m, x + |t|)))
  {
    hide Loop, Encode, AfterDelimiterCut, BeforeDelimiterEndCut, WellFormed, BreakLost, Find;
    var m := Encode(c, parts, tail);
    SeenIs(c, parts, m, x);
    SeenIs(c, parts, m, x + |t|);
    var s := Loop(c, Seen(m, x));
    CutFails(c, Seen(m, x), parts, tail, x);
    CutFails(c, Seen(m, x + |t|), parts, tail, x + |t|);
    SeenMore(m, x, t);
    if |t| == 0 {
      assert Extend(s.d, t) == s.d;
      LoopIsQuiet(c, Seen(m, x));
      LoopOfQuiet(c, s.d);
    } else {
      CutLoses(c, Seen(m, x), parts, tail, x, x + |t|);
      LoopExtend(c, Seen(m, x), t);
      if BreakLost(c, s.d, t) {
        BreakLostFails(c, s.d, t);
      }
    }
  }

  /** A run over pieces of a well-formed message ends with ERROR exactly when some cut is bad. */
  lemma {:induction false} CutsDecide(c: Config, parts: seq<Part>, tail: string, x: nat, pieces: seq<string>)
    requires WellFormed(c, parts) && !AfterDelimiterCut(c, parts, x)
    requires x + |Flatten(pieces)| == |Encode(c, parts, tail)| <= c.maxBody
    requires Flatten(pieces) == Encode(c, parts, tail)[x..]
    ensures var s := Loop(c, Seen(Encode(c, parts, tail), x));
            s.r != Error && (FeedAll(c, s.d, pieces).r == Error <==> !CutsOk(c, parts, x, pieces))
    decreases |pieces|
  {
    hide Loop;
    var m := Encode(c, parts, tail);
    if |pieces| == 0 {
      FeedFrom(c, parts, tail, x, "");
    } else {
      var t := pieces[0];
      assert m[x..] == t + Flatten(pieces[1..]);
      assert m[x..][..|t|] == t && m[x..][|t|..] == m[x + |t|..];
      FeedFrom(c, parts, tail, x, t);
      if !AfterDelimiterCut(c, parts, x + |t|) {
        CutsDecide(c, parts, tail, x + |t|, pieces[1..]);
      }
    }
  }

  /** Where a run that starts at `x` is cut: its start and the end of every piece. */
  function Cuts(x: nat, pieces: seq<string>): set<nat>
    decreases |pieces|
  {
    {x} + if |pieces| == 0 then {} else Cuts(x + |pieces[0]|, pieces[1..])
  }

  predicate BadCut(c: Config, parts: seq<Part>, x: nat) {
    AfterDelimiterCut(c, parts, x) || BeforeDelimiterEndCut(c, parts, x)
  }

  lemma {:induction false} EndIsNoBadCut(c: Config, parts: seq<Part>, tail: string)
    ensures !BadCut(c, parts, |Encode(c, parts, tail)|)
    decreases |parts|
  {
    if |parts| > 0 {
      EndIsNoBadCut(c, parts[1..], tail);
      EncodeStarts(c, parts[1..], tail);
    }
  }

  lemma {:induction false} CutsOkMeansNoBadCut(c: Config, parts: seq<Part>, tail: string, x: nat, pieces: seq<string>)
    requires x + |Flatten(pieces)| == |Encode(c, parts, tail)| && !AfterDelimiterCut(c, parts, x)
    ensures CutsOk(c, parts, x, pieces) <==> forall k :: k in Cuts(x, pieces) ==> !BadCut(c, parts, k)
    decreases |pieces|
  {
    if |pieces| == 0 {
      EndIsNoBadCut(c, parts, tail);
    } else {
      var y := x + |pieces[0]|;
      assert Cuts(x, pieces) == {x} + Cuts(y, pieces[1..]);
      assert x in Cuts(x, pieces) && y in Cuts(y, pieces[1..]) && y in Cuts(x, pieces);
      if !AfterDelimiterCut(c, parts, y) {
        CutsOkMeansNoBadCut(c, parts, tail, y, pieces[1..]);
      }
    }
  }

  /**
   * Whole runs. A run over any pieces of a well-formed message within the limit ends without
   * ERROR exactly when no cut lands at a delimiter's end or one byte after it, nor one byte
   * before the end of a delimiter that ends a body. It is then complete, and its parts are
   * exactly those of the message, in order.
   */
  lemma RunOverPieces(c: Config, parts: seq<Part>, tail: string, pieces: seq<string>)
    requires WellFormed(c, parts)
    requires Flatten(pieces) == Encode(c, parts, tail) && |Flatten(pieces)| <= c.maxBody
    ensures (FeedAll(c, INIT, pieces).r != Error)
            <==> forall k :: k in Cuts(0, pieces) ==> !BadCut(c, parts, k)
    ensures FeedAll(c, INIT, pieces).r != Error ==> Decoded(FeedAll(c, INIT, pieces), [], parts, tail)
  {
    var m := Encode(c, parts, tail);
    StartQuiet(c, m);
    hide Loop, Step;
    NoCutBeforeDelimiter(c, parts, 0);
    assert m[0..] == m;
    CutsDecide(c, parts, tail, 0, pieces);
    CutsOkMeansNoBadCut(c, parts, tail, 0, pieces);
    if FeedAll(c, INIT, pieces).r != Error {
      SplitRefinement(c, INIT, pieces);
      DecodeWhole(c, parts, tail);
    }
  }

  lemma StartQuiet(c: Config, m: string)
    requires ValidConfig(c)
    ensures Quiet(c, INIT) && Seen(m, 0) == INIT && Loop(c, INIT) == Outcome(INIT, NeedMore)
  {
    assert m[..0] == "" && Find("", c.boundary) == -1;
  }

  /** Round trip: one feed of an encoded message gives back its parts. */
  lemma DecodeWhole(c: Config, parts: seq<Part>, tail: string)
    requires WellFormed(c, parts) && |Encode(c, parts, tail)| <= c.maxBody
    ensures Decoded(Feed(c, INIT, Encode(c, parts, tail)), [], parts, tail)
  {
    var d := Extend(INIT, Encode(c, parts, tail));
    assert d.buffer == Encode(c, parts, tail);
    DecodeEncoded(c, d, parts, tail);
  }
}
