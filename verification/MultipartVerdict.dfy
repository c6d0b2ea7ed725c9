/** What becomes of any multipart body given at once: which bodies are complete, with which parts, and which fail. */
module MultipartVerdict {
  import opened Bytes
  import opened Multipart
  import opened MultipartSplit
  import opened MultipartMessage

  /** Parts one behind the other, and what follows them. */
  function PartsText(c: Config, parts: seq<Part>, rest: string): string {
    if |parts| == 0 then rest else c.boundary + (CRLF + PartAnd(parts[0], PartsText(c, parts[1..], rest)))
  }

  lemma {:induction false} EncodeIsPartsText(c: Config, parts: seq<Part>, tail: string)
    ensures Encode(c, parts, tail) == PartsText(c, parts, c.boundary + (DASHES + tail))
    decreases |parts|
  {
    if |parts| > 0 {
      EncodeIsPartsText(c, parts[1..], tail);
    }
  }

  /** What may stand behind the last whole part. */
  datatype Ending =
    | Waits
    | Last(tail: string)
    | BadDelimiter(behind: string)
    | BadBody(header: string, body: string, behind: string)

  /** A delimiter that is followed by neither two dashes nor a line break, or a body that no line break ends. */
  predicate Is(c: Config, rest: string, e: Ending) {
    match e
    case Waits => true
    case Last(tail) => rest == c.boundary + (DASHES + tail)
    case BadDelimiter(behind) =>
      rest == c.boundary + behind && !StartsWith(behind, DASHES) && !StartsWith(behind, CRLF)
    case BadBody(header, body, behind) =>
      && rest == c.boundary + (CRLF + (header + BLANK_LINE + (body + (c.boundary + behind))))
      && HeaderOk(header) && Find(body + (c.boundary + behind), c.boundary) == |body|
      && !(|body| >= 2 && body[|body| - 2..] == CRLF)
  }

  /** The text is well-formed parts and then `rest`, which begins with a delimiter. */
  predicate Begins(c: Config, text: string, parts: seq<Part>, rest: string) {
    WellFormed(c, parts) && text == PartsText(c, parts, rest) && At(rest, c.boundary, 0)
  }

  // ---------------------------------------------------------------- parts are read one after the other

  lemma PartsStart(c: Config, parts: seq<Part>, rest: string)
    requires At(rest, c.boundary, 0)
    ensures At(PartsText(c, parts, rest), c.boundary, 0)
  {
  }

  function Behind(d: Splitter, parts: seq<Part>, c: Config, rest: string): Splitter
    decreases |parts|
  {
    if |parts| == 0 then d.(buffer := rest)
    else Behind(AfterPart(d, parts[0], PartsText(c, parts[1..], rest)), parts[1..], c, rest)
  }

  lemma {:induction false} ReadParts(c: Config, d: Splitter, parts: seq<Part>, rest: string)
    requires Valid(c, d) && d.phase == ExpectBoundary && Begins(c, d.buffer, parts, rest)
    ensures var e := Behind(d, parts, c, rest);
            && Valid(c, e) && Loop(c, d) == Loop(c, e) && e.phase == ExpectBoundary && e.buffer == rest
            && Close(e).closed == Close(d).closed + parts && e.received == d.received
    decreases |parts|
  {
    hide Loop, PartAnd;
    if |parts| == 0 {
      Alone(Close(d).closed);
      assert parts == [];
    } else {
      var p, more := parts[0], PartsText(c, parts[1..], rest);
      PartsStart(c, parts[1..], rest);
      ReadPart(c, d, p, more);
      ReadParts(c, AfterPart(d, p, more), parts[1..], rest);
      Assoc(Close(d).closed, [p], parts[1..]);
      assert [p] + parts[1..] == parts;
    }
  }

  // ---------------------------------------------------------------- what ends a run

  lemma BadDelimiterFails(c: Config, d: Splitter, behind: string)
    requires Valid(c, d) && d.phase == ExpectBoundary && Is(c, d.buffer, BadDelimiter(behind))
    ensures Loop(c, d).r == Error
  {
    DelimiterFirst(c, d, behind);
  }

  lemma ReadToBody(c: Config, d: Splitter, header: string, w: string)
    requires Valid(c, d) && d.phase == ExpectBoundary && HeaderOk(header)
    requires d.buffer == c.boundary + (CRLF + (header + BLANK_LINE + w))
    ensures var e := InBody(InHeaders(d, header + BLANK_LINE + w), Part(header, ""), w);
            Valid(c, e) && Loop(c, d) == Loop(c, e) && e.phase == PartBody && e.buffer == w && e.body == ""
  {
    hide Loop;
    ReadDelimiter(c, d, header + BLANK_LINE + w);
    ReadHeaders(c, InHeaders(d, header + BLANK_LINE + w), Part(header, ""), w);
  }

  lemma BadBodyFails(c: Config, d: Splitter, header: string, body: string, behind: string)
    requires Valid(c, d) && d.phase == ExpectBoundary && Is(c, d.buffer, BadBody(header, body, behind))
    ensures Loop(c, d).r == Error
  {
    var w := body + (c.boundary + behind);
    ReadToBody(c, d, header, w);
    var e := InBody(InHeaders(d, header + BLANK_LINE + w), Part(header, ""), w);
    assert |body| >= 2 ==> w[|body| - 2..|body|] == body[|body| - 2..];
    assert Step(c, e).r == Error;
  }

  function ResultOf(e: Ending): Result {
    match e
    case Waits => NeedMore
    case Last(_) => Complete
    case BadDelimiter(_) => Error
    case BadBody(_, _, _) => Error
  }

  /** An ending other than waiting decides the result, and a complete message has exactly its parts. */
  lemma EndingDecides(c: Config, d: Splitter, parts: seq<Part>, rest: string, e: Ending)
    requires Valid(c, d) && d.phase == ExpectBoundary && Begins(c, d.buffer, parts, rest) && e != Waits && Is(c, rest, e)
    ensures Loop(c, d).r == ResultOf(e)
    ensures e.Last? ==> Decoded(Loop(c, d), Close(d).closed, parts, e.tail)
  {
    hide Loop, PartsText, WellFormed;
    ReadParts(c, d, parts, rest);
    var v := Behind(d, parts, c, rest);
    match e
    case Last(tail) =>
      assert (DASHES + tail)[..2] == DASHES;
      ReadClosing(c, v, DASHES + tail);
    case BadDelimiter(behind) => BadDelimiterFails(c, v, behind);
    case BadBody(header, body, behind) => BadBodyFails(c, v, header, body, behind);
  }

  // ---------------------------------------------------------------- and nothing else does

  ghost predicate Classified(c: Config, d: Splitter, parts: seq<Part>, rest: string, e: Ending)
    requires Valid(c, d)
  {
    Begins(c, d.buffer, parts, rest) && Is(c, rest, e) && (e == Waits ==> Loop(c, d).r == NeedMore)
  }

  lemma NoParts(c: Config, d: Splitter, e: Ending)
    requires Valid(c, d) && At(d.buffer, c.boundary, 0) && Is(c, d.buffer, e) && (e == Waits ==> Loop(c, d).r == NeedMore)
    ensures Classified(c, d, [], d.buffer, e)
  {
    hide Loop, Is, At;
  }

  /** Any text that begins with a delimiter is parts and one of the endings; without one the splitter waits. */
  lemma {:induction false} Classify(c: Config, d: Splitter) returns (parts: seq<Part>, rest: string, e: Ending)
    requires Valid(c, d) && d.phase == ExpectBoundary && At(d.buffer, c.boundary, 0) && '\r' !in c.boundary
    ensures Classified(c, d, parts, rest, e)
    decreases |d.buffer|, 2
  {
    parts, rest := [], d.buffer;
    var w := d.buffer[|c.boundary|..];
    assert d.buffer == c.boundary + w;
    hide Loop, At, Find;
    if StartsWith(w, DASHES) {
      e := Last(w[2..]);
      assert w == DASHES + w[2..];
      NoParts(c, d, e);
    } else if !StartsWith(w, CRLF) {
      e := BadDelimiter(w);
      NoParts(c, d, e);
    } else {
      var x := w[2..];
      assert w == CRLF + x;
      parts, rest, e := ClassifyPart(c, d, x);
    }
  }

  lemma HeadersWait(c: Config, d: Splitter, x: string)
    requires Valid(c, d) && d.phase == ExpectBoundary && d.buffer == c.boundary + (CRLF + x) && !Contains(x, BLANK_LINE)
    ensures Loop(c, d).r == NeedMore
  {
    ReadDelimiter(c, d, x);
    ReadNoHeaders(c, InHeaders(d, x));
  }

  lemma CutHeaders(x: string) returns (h: string, y: string)
    requires Contains(x, BLANK_LINE)
    ensures x == h + BLANK_LINE + y && HeaderOk(h)
  {
    var p := Find(x, BLANK_LINE);
    h, y := x[..p], x[p + 4..];
    FindPrefix(x, BLANK_LINE, p + 4);
    assert x[p..p + 4] == BLANK_LINE;
    assert x[..p + 4] == h + BLANK_LINE;
    assert x == x[..p + 4] + y;
  }

  lemma {:induction false} ClassifyPart(c: Config, d: Splitter, x: string)
    returns (parts: seq<Part>, rest: string, e: Ending)
    requires Valid(c, d) && d.phase == ExpectBoundary && d.buffer == c.boundary + (CRLF + x) && '\r' !in c.boundary
    requires At(d.buffer, c.boundary, 0)
    ensures Classified(c, d, parts, rest, e)
    decreases |d.buffer|, 1
  {
    hide Loop, At, HeaderOk, Find;
    parts, rest := [], d.buffer;
    if !Contains(x, BLANK_LINE) {
      e := Waits;
      HeadersWait(c, d, x);
      NoParts(c, d, e);
    } else {
      var h, y := CutHeaders(x);
      ReadToBody(c, d, h, y);
      if !Contains(y, c.boundary) {
        e := Waits;
        BodyWaits(c, InBody(InHeaders(d, h + BLANK_LINE + y), Part(h, ""), y));
        NoParts(c, d, e);
      } else {
        parts, rest, e := ClassifyBody(c, d, h, y);
      }
    }
  }

  lemma BodyWaits(c: Config, d: Splitter)
    requires Valid(c, d) && d.phase == PartBody && !Contains(d.buffer, c.boundary)
    ensures Loop(c, d).r == NeedMore
  {
    FlushLoop(c, d);
  }

  lemma CutBody(c: Config, y: string) returns (body: string, behind: string)
    requires Contains(y, c.boundary) && c.boundary != ""
    ensures y == body + (c.boundary + behind) && Find(y, c.boundary) == |body| && !Contains(body, c.boundary)
  {
    var q := Find(y, c.boundary);
    body, behind := y[..q], y[q + |c.boundary|..];
    FindPrefix(y, c.boundary, q);
    assert y[q..q + |c.boundary|] == c.boundary;
  }

  lemma {:induction false} ClassifyBody(c: Config, d: Splitter, h: string, y: string)
    returns (parts: seq<Part>, rest: string, e: Ending)
    requires Valid(c, d) && d.phase == ExpectBoundary && d.buffer == c.boundary + (CRLF + (h + BLANK_LINE + y))
    requires '\r' !in c.boundary && At(d.buffer, c.boundary, 0) && HeaderOk(h) && Contains(y, c.boundary)
    ensures Classified(c, d, parts, rest, e)
    decreases |d.buffer|, 0
  {
    hide Loop, HeaderOk;
    parts, rest := [], d.buffer;
    var body, behind := CutBody(c, y);
    if !(|body| >= 2 && body[|body| - 2..] == CRLF) {
      e := BadBody(h, body, behind);
      NoParts(c, d, e);
    } else {
      var p, more := Part(h, body[..|body| - 2]), c.boundary + behind;
      BodyIs(c, p, body, more);
      assert more[..|c.boundary|] == c.boundary;
      ReadPart(c, d, p, more);
      parts, rest, e := Classify(c, AfterPart(d, p, more));
      PartInFront(c, d, p, more, parts, rest, e);
      parts := [p] + parts;
    }
  }

  lemma BodyIs(c: Config, p: Part, body: string, more: string)
    requires ValidConfig(c) && '\r' !in c.boundary && HeaderOk(p.header)
    requires |body| >= 2 && body[|body| - 2..] == CRLF && p.body == body[..|body| - 2]
    requires !Contains(body, c.boundary)
    ensures PartOk(c, p) && p.header + BLANK_LINE + (body + more) == PartAnd(p, more)
  {
    assert body == p.body + CRLF;
    forall i ensures !At(p.body, c.boundary, i) {
      if 0 <= i && i + |c.boundary| <= |p.body| {
        AtExtend(p.body, CRLF, c.boundary, i);
      }
    }
  }

  lemma PartInFront(c: Config, d: Splitter, p: Part, text: string, parts: seq<Part>, rest: string, e: Ending)
    requires Valid(c, d) && PartOk(c, p) && d.buffer == c.boundary + (CRLF + PartAnd(p, text))
    requires var v := AfterPart(d, p, text); Valid(c, v) && Classified(c, v, parts, rest, e) && Loop(c, d) == Loop(c, v)
    ensures Classified(c, d, [p] + parts, rest, e)
  {
    hide PartOk, PartAnd, Is, Loop, At;
    assert ([p] + parts)[1..] == parts;
  }

  // ---------------------------------------------------------------- whole bodies

  /** What stands in front of the first delimiter is passed over. */
  lemma PreambleSkipped(c: Config, d: Splitter, pre: string, text: string)
    requires Valid(c, d) && d.phase == ExpectBoundary && d.buffer == pre + text && Find(d.buffer, c.boundary) == |pre|
    ensures At(text, c.boundary, 0) && Loop(c, d) == Loop(c, d.(buffer := text))
  {
    var e := d.(buffer := text);
    AtDrop(d.buffer, c.boundary, |pre|, |pre|);
    assert d.buffer[|pre|..] == text;
    FindIs(text, c.boundary, 0);
    assert d.buffer[|pre| + |c.boundary|..] == text[|c.boundary|..];
    assert StepBoundary(c, d) == StepBoundary(c, e);
    hide AfterDelimiter;
    if Step(c, d).r == NeedMore {
      DelimiterGoesOn(c, d);
      DelimiterGoesOn(c, e);
    }
  }

  /** After a delimiter that starts a part, what is behind it decides how the run goes on. */
  lemma DelimiterGoesOn(c: Config, d: Splitter)
    requires Valid(c, d) && d.phase == ExpectBoundary && Contains(d.buffer, c.boundary) && Step(c, d).r == NeedMore
    ensures Loop(c, d) == Loop(c, Step(c, d).d)
  {
    LoopByStep(c, d);
  }

  /** A preamble without the delimiter, well-formed parts, the closing delimiter, and anything behind it. */
  predicate IsMessage(c: Config, data: string, pre: string, parts: seq<Part>, tail: string) {
    data == pre + Encode(c, parts, tail) && Find(data, c.boundary) == |pre| && WellFormed(c, parts)
  }

  /** A preamble, well-formed parts, and then a delimiter or a body that is not ended as it must be. */
  predicate IsBroken(c: Config, data: string, pre: string, parts: seq<Part>, rest: string, e: Ending) {
    && data == pre + PartsText(c, parts, rest) && Find(data, c.boundary) == |pre| && WellFormed(c, parts)
    && At(rest, c.boundary, 0) && (e.BadDelimiter? || e.BadBody?) && Is(c, rest, e)
  }

  lemma MessageCompletes(c: Config, data: string, pre: string, parts: seq<Part>, tail: string)
    requires ValidConfig(c) && |data| <= c.maxBody && IsMessage(c, data, pre, parts, tail)
    ensures Decoded(Feed(c, INIT, data), [], parts, tail)
  {
    var text := Encode(c, parts, tail);
    var d := Extend(INIT, data);
    Alone(data);
    EncodeIsPartsText(c, parts, tail);
    EncodeStarts(c, parts, tail);
    var rest := c.boundary + (DASHES + tail);
    assert rest[..|c.boundary|] == c.boundary;
    PreambleSkipped(c, d, pre, text);
    hide Loop, Encode, WellFormed, PartsText, Find;
    EndingDecides(c, d.(buffer := text), parts, rest, Last(tail));
  }

  lemma BrokenFails(c: Config, data: string, pre: string, parts: seq<Part>, rest: string, e: Ending)
    requires ValidConfig(c) && |data| <= c.maxBody && IsBroken(c, data, pre, parts, rest, e)
    ensures Feed(c, INIT, data).r == Error
  {
    var text := PartsText(c, parts, rest);
    var d := Extend(INIT, data);
    Alone(data);
    PreambleSkipped(c, d, pre, text);
    hide Loop, WellFormed, PartsText, Find, Is;
    EndingDecides(c, d.(buffer := text), parts, rest, e);
  }

  /** A body within the limit is complete, broken, or waited for. */
  lemma OneOfThree(c: Config, data: string) returns (pre: string, parts: seq<Part>, rest: string, e: Ending)
    requires ValidConfig(c) && '\r' !in c.boundary && |data| <= c.maxBody
    ensures match e
            case Waits => Feed(c, INIT, data).r == NeedMore
            case Last(tail) => IsMessage(c, data, pre, parts, tail)
            case _ => IsBroken(c, data, pre, parts, rest, e)
  {
    var d := Extend(INIT, data);
    Alone(data);
    var pos := Find(data, c.boundary);
    if pos == -1 {
      pre, parts, rest, e := data, [], "", Waits;
    } else {
      pre := data[..pos];
      var text := data[pos..];
      assert data == pre + text;
      PreambleSkipped(c, d, pre, text);
      hide Loop, WellFormed, Is, At;
      parts, rest, e := Classify(c, d.(buffer := text));
      if e.Last? {
        LastIs(c, rest, e.tail);
        EncodeIsPartsText(c, parts, e.tail);
      }
    }
  }

  lemma LastIs(c: Config, rest: string, tail: string)
    requires Is(c, rest, Last(tail))
    ensures rest == c.boundary + (DASHES + tail)
  {
  }

  /** One feed of a body is complete exactly when the body is a message, and then has the parts of that message. */
  lemma CompleteIff(c: Config, data: string)
    requires ValidConfig(c) && '\r' !in c.boundary && |data| <= c.maxBody
    ensures Feed(c, INIT, data).r == Complete <==> exists pre, parts, tail :: IsMessage(c, data, pre, parts, tail)
    ensures forall pre, parts, tail :: IsMessage(c, data, pre, parts, tail) ==> Feed(c, INIT, data).d.closed == parts
  {
    hide Feed, IsMessage, IsBroken;
    var pre, parts, rest, e := OneOfThree(c, data);
    if e.BadDelimiter? || e.BadBody? {
      BrokenFails(c, data, pre, parts, rest, e);
    }
    forall p, ps, tail | IsMessage(c, data, p, ps, tail)
      ensures Feed(c, INIT, data).r == Complete && Feed(c, INIT, data).d.closed == ps
    {
      MessageCompletes(c, data, p, ps, tail);
    }
  }

  /** It is an error exactly when the body is broken, and a body over the limit is one whatever it says. */
  lemma ErrorIff(c: Config, data: string)
    requires ValidConfig(c) && '\r' !in c.boundary
    ensures Feed(c, INIT, data).r == Error
            <==> |data| > c.maxBody || exists pre, parts, rest, e :: IsBroken(c, data, pre, parts, rest, e)
  {
    hide IsMessage, IsBroken, Loop;
    if |data| <= c.maxBody {
      var pre, parts, rest, e := OneOfThree(c, data);
      if e.Last? {
        MessageCompletes(c, data, pre, parts, e.tail);
      }
      forall p, ps, more, f | IsBroken(c, data, p, ps, more, f) ensures Feed(c, INIT, data).r == Error {
        BrokenFails(c, data, p, ps, more, f);
      }
    }
  }

  /** Over pieces, too, no run that is not an error takes more than the limit. */
  lemma {:induction false} WithinLimit(c: Config, d: Splitter, pieces: seq<string>)
    requires Valid(c, d) && FeedAll(c, d, pieces).r != Error && d.received <= c.maxBody
    ensures d.received + |Flatten(pieces)| <= c.maxBody
    ensures FeedAll(c, d, pieces).d.received == d.received + |Flatten(pieces)|
    decreases |pieces|
  {
    if |pieces| > 0 {
      WithinLimit(c, Feed(c, d, pieces[0]).d, pieces[1..]);
    }
  }
}
