/** What becomes of any body: which bodies are complete, which are refused and how, and what is stored of them. */
module ChunkedVerdict {
  import opened Bytes
  import opened Chunked
  import opened ChunkedSplit
  import opened ChunkedRoundTrip
  import opened ChunkedOverrun

  /** The data of all the frames. */
  function Stored(fs: seq<Frame>): (data: string)
    ensures |data| == DataOf(fs)
  {
    if |fs| == 0 then "" else fs[0].data + Stored(fs[1..])
  }

  /** The text is complete frames that stay within the limit, and then `rest`. */
  predicate Begins(c: Config, total: nat, text: string, fs: seq<Frame>, rest: string) {
    (forall k :: 0 <= k < |fs| ==> IsFrame(fs[k])) && text == FramesText(fs, rest) && total + DataOf(fs) <= c.maxBody
  }

  predicate IsLine(text: string, line: string, behind: string) {
    text == line + (CRLF + behind) && !Contains(line, CRLF)
  }

  /** The last chunk: a size of zero and a line end. */
  predicate LastChunk(text: string, line: string, tail: string) {
    IsLine(text, line, CRLF + tail) && ParseSize(line) == Some(0)
  }

  /** A line that no size can be read from. */
  predicate NoSize(text: string, line: string, behind: string) {
    IsLine(text, line, behind) && ParseSize(line) == None
  }

  /** A size that does not wrap the sum around and passes the limit. */
  predicate TooLarge(c: Config, total: nat, text: string, line: string, behind: string) {
    && IsLine(text, line, behind) && ParseSize(line) != None
    && c.maxBody < total + ParseSize(line).value < SIZE_LIMIT
  }

  /** Data within the limit, the last chunk's included, that something other than a line end follows. */
  predicate NoLineEnd(c: Config, total: nat, text: string, line: string, data: string, behind: string) {
    && IsLine(text, line, data + behind) && ParseSize(line) == Some(|data|) && total + |data| <= c.maxBody
    && |behind| >= 2 && behind[..2] != CRLF
  }

  // ---------------------------------------------------------------- frames are read one after the other

  /** The state behind some frames. */
  function Behind(c: Config, d: Decoder, fs: seq<Frame>, rest: string): Decoder
    decreases |fs|
  {
    if |fs| == 0 then d.(buffer := rest)
    else Behind(c, AfterChunk(c, d, fs[0].data, FramesText(fs[1..], rest)), fs[1..], rest)
  }

  lemma {:induction false} BehindIs(c: Config, d: Decoder, fs: seq<Frame>, rest: string)
    requires d.phase == Size
    ensures var e := Behind(c, d, fs, rest);
            && e.phase == Size && e.buffer == rest && e.total == d.total + DataOf(fs)
            && e.output == AfterWrite(c.outputFd, d.output, Stored(fs))
    decreases |fs|
  {
    if |fs| > 0 {
      var e := AfterChunk(c, d, fs[0].data, FramesText(fs[1..], rest));
      BehindIs(c, e, fs[1..], rest);
      AfterTwoWrites(c.outputFd, d.output, fs[0].data, Stored(fs[1..]));
    }
  }

  lemma {:induction false} ReadFrames(c: Config, d: Decoder, fs: seq<Frame>, rest: string)
    requires Valid(c, d) && d.phase == Size && Begins(c, d.total, d.buffer, fs, rest) && |rest| > 0
    ensures Valid(c, Behind(c, d, fs, rest))
    ensures Loop(c, d) == Loop(c, Behind(c, d, fs, rest))
    decreases |fs|
  {
    hide Loop, IsFrame;
    if |fs| > 0 {
      var more := FramesText(fs[1..], rest);
      FramesNotEmpty(fs[1..], rest);
      assert IsFrame(fs[0]);
      ReadFrame(c, d, fs[0], more);
      ReadFrames(c, AfterChunk(c, d, fs[0].data, more), fs[1..], rest);
    }
  }

  // ---------------------------------------------------------------- what ends a run

  lemma LastChunkCompletes(c: Config, d: Decoder, line: string, tail: string)
    requires Valid(c, d) && d.phase == Size && LastChunk(d.buffer, line, tail)
    ensures Loop(c, d) == Outcome(Decoder(Done, tail, 0, 0, d.total, d.output), Complete)
  {
    hide Loop, Step, Contains, ParseSize;
    ReadLine(c, d, line, 0, CRLF + tail);
    var e := InData(d, 0, CRLF + tail);
    Alone(CRLF + tail);
    ReadData(c, e, "", tail);
    ReadLastEnd(c, AtEnd(c, e, "", tail), tail);
  }

  lemma NoSizeFails(c: Config, d: Decoder, line: string, behind: string)
    requires Valid(c, d) && d.phase == Size && NoSize(d.buffer, line, behind)
    ensures Loop(c, d) == Outcome(d.(buffer := behind), Error)
  {
    hide ParseSize;
    LineEnds(line, behind);
  }

  lemma TooLargeFails(c: Config, d: Decoder, line: string, behind: string)
    requires Valid(c, d) && d.phase == Size && TooLarge(c, d.total, d.buffer, line, behind)
    ensures Loop(c, d) == Outcome(d.(buffer := behind, chunkSize := ParseSize(line).value), MaxError)
  {
    hide ParseSize;
    LineEnds(line, behind);
  }

  lemma TakeData(c: Config, e: Decoder, data: string, behind: string)
    requires Valid(c, e) && e.phase == Data && e.buffer == data + behind && |behind| > 0
    requires e.written == 0 && e.chunkSize == |data| && e.total + |data| <= c.maxBody
    ensures var v := Wrote(c, e, data, behind).(phase := End); Valid(c, v) && Loop(c, e) == Loop(c, v)
  {
    assert e.buffer[..|data|] == data && e.buffer[|data|..] == behind;
    assert Step(c, e) == Outcome(Wrote(c, e, data, behind).(phase := End), NeedMore);
    LoopGoesOn(c, e);
  }

  lemma NoLineEndFails(c: Config, d: Decoder, line: string, data: string, behind: string)
    requires Valid(c, d) && d.phase == Size && NoLineEnd(c, d.total, d.buffer, line, data, behind)
    ensures Loop(c, d).r == Error
    ensures Loop(c, d).d.output == AfterWrite(c.outputFd, d.output, data)
  {
    hide ParseSize, Contains;
    ReadLine(c, d, line, |data|, data + behind);
    TakeData(c, InData(d, |data|, data + behind), data, behind);
  }

  // ---------------------------------------------------------------- and nothing else does

  /** What may stand behind the frames. */
  datatype Ending =
    | Waits
    | Last(line: string, tail: string)
    | Unsized(line: string, behind: string)
    | Over(line: string, behind: string)
    | Unended(line: string, data: string, behind: string)
    | Wrapping

  predicate Is(c: Config, total: nat, text: string, e: Ending) {
    match e
    case Waits => true
    case Last(line, tail) => LastChunk(text, line, tail)
    case Unsized(line, behind) => NoSize(text, line, behind)
    case Over(line, behind) => TooLarge(c, total, text, line, behind)
    case Unended(line, data, behind) => NoLineEnd(c, total, text, line, data, behind)
    case Wrapping => Wraps(c, total, text, 0)
  }

  function ResultOf(e: Ending): Result {
    match e
    case Waits => NeedMore
    case Last(_, _) => Complete
    case Unsized(_, _) => Error
    case Over(_, _) => MaxError
    case Unended(_, _, _) => Error
    case Wrapping => MaxError
  }

  /** An ending other than waiting decides the result. */
  lemma EndingDecides(c: Config, d: Decoder, fs: seq<Frame>, rest: string, e: Ending)
    requires Valid(c, d) && d.phase == Size && Begins(c, d.total, d.buffer, fs, rest)
    requires e != Waits && Is(c, d.total + DataOf(fs), rest, e)
    ensures Loop(c, d).r == ResultOf(e)
    ensures !e.Unended? && !e.Wrapping? ==> Loop(c, d).d.output == AfterWrite(c.outputFd, d.output, Stored(fs))
    ensures !e.Unended? && !e.Wrapping? ==> Loop(c, d).d.total == d.total + DataOf(fs)
    ensures e.Unended? ==> Loop(c, d).d.output == AfterWrite(c.outputFd, d.output, Stored(fs) + e.data)
    ensures e.Last? ==> Loop(c, d).d.buffer == e.tail
  {
    hide Loop, Step, Valid, ParseSize, Find, FindFrom, AfterWrite;
    assert |rest| > 0;
    ReadFrames(c, d, fs, rest);
    BehindIs(c, d, fs, rest);
    var v := Behind(c, d, fs, rest);
    match e
    case Last(line, tail) => LastChunkCompletes(c, v, line, tail);
    case Unsized(line, behind) => NoSizeFails(c, v, line, behind);
    case Over(line, behind) => TooLargeFails(c, v, line, behind);
    case Unended(line, data, behind) =>
      NoLineEndFails(c, v, line, data, behind);
      AfterTwoWrites(c.outputFd, d.output, Stored(fs), data);
    case Wrapping => WrapStops(c, v, 0);
  }

  /** Any text is frames and one of the endings; a decoder that finds none waits for more. */
  lemma {:induction false} Classify(c: Config, d: Decoder) returns (fs: seq<Frame>, rest: string, e: Ending)
    requires Valid(c, d) && d.phase == Size
    ensures Classified(c, d, fs, rest, e)
    decreases |d.buffer|, 2
  {
    if Contains(d.buffer, CRLF) {
      CutLine(d.buffer);
      var pos := Find(d.buffer, CRLF);
      fs, rest, e := ClassifyLine(c, d, d.buffer[..pos], d.buffer[pos + 2..]);
    } else {
      fs, rest, e := [], d.buffer, Waits;
      NoLineWaits(c, d);
      NoFrames(c, d, e);
    }
  }

  ghost predicate Classified(c: Config, d: Decoder, fs: seq<Frame>, rest: string, e: Ending)
    requires Valid(c, d)
  {
    && Begins(c, d.total, d.buffer, fs, rest) && Is(c, d.total + DataOf(fs), rest, e)
    && (e == Waits ==> Loop(c, d).r == NeedMore)
  }

  lemma {:induction false} ClassifyLine(c: Config, d: Decoder, line: string, behind: string)
    returns (fs: seq<Frame>, rest: string, e: Ending)
    requires Valid(c, d) && d.phase == Size && IsLine(d.buffer, line, behind)
    ensures Classified(c, d, fs, rest, e)
    decreases |d.buffer|, 1
  {
    hide Loop, Valid, ParseSize, IsFrame, Begins, IsLine, Wraps;
    fs, rest := [], d.buffer;
    if ParseSize(line) == None {
      e := Unsized(line, behind);
      NoFrames(c, d, e);
    } else {
      var n := ParseSize(line).value;
      if d.total + n >= SIZE_LIMIT {
        e := ClassifyWrap(c, d, line, n, behind);
        NoFrames(c, d, e);
      } else if d.total + n > c.maxBody {
        e := Over(line, behind);
        NoFrames(c, d, e);
      } else if |behind| < n + 2 {
        e := Waits;
        ShortWaits(c, d, line, n, behind);
        NoFrames(c, d, e);
      } else if behind[n..][..2] != CRLF {
        e := Unended(line, behind[..n], behind[n..]);
        CutAt(behind, n);
        NoFrames(c, d, e);
      } else if n == 0 {
        e := Last(line, behind[2..]);
        Whole(behind);
        CutAt(behind, 2);
        NoFrames(c, d, e);
      } else {
        fs, rest, e := ClassifyLater(c, d, line, n, behind);
      }
    }
  }

  lemma CutAt(s: string, n: nat)
    requires n <= |s|
    ensures s[..n] + s[n..] == s
  {
  }

  lemma NoFrames(c: Config, d: Decoder, e: Ending)
    requires Valid(c, d) && Is(c, d.total, d.buffer, e) && (e == Waits ==> Loop(c, d).r == NeedMore)
    ensures Classified(c, d, [], d.buffer, e)
  {
    hide Loop, Is;
  }

  lemma NoLineWaits(c: Config, d: Decoder)
    requires Valid(c, d) && d.phase == Size && !Contains(d.buffer, CRLF)
    ensures Loop(c, d).r == NeedMore
  {
  }

  lemma ClassifyWrap(c: Config, d: Decoder, line: string, n: nat, behind: string) returns (e: Ending)
    requires Valid(c, d) && d.phase == Size && IsLine(d.buffer, line, behind) && ParseSize(line) == Some(n)
    requires d.total + n >= SIZE_LIMIT
    ensures Is(c, d.total, d.buffer, e) && (e == Waits ==> Loop(c, d).r == NeedMore)
  {
    LineEnds(line, behind);
    if d.total + Min(|behind|, n) > c.maxBody {
      e := Wrapping;
    } else {
      e := Waits;
      hide ParseSize, Find, Contains;
      if |behind| > 0 {
        ReadLine(c, d, line, n, behind);
      }
    }
  }

  /** With too little behind a size line the decoder waits. */
  lemma ShortWaits(c: Config, d: Decoder, line: string, n: nat, behind: string)
    requires Valid(c, d) && d.phase == Size && IsLine(d.buffer, line, behind) && ParseSize(line) == Some(n)
    requires d.total + n <= c.maxBody && |behind| < n + 2
    ensures Loop(c, d).r == NeedMore
  {
    hide ParseSize, Contains, Find;
    LineEnds(line, behind);
    if |behind| > 0 {
      ReadLine(c, d, line, n, behind);
      ShortData(c, InData(d, n, behind));
    }
  }

  lemma ShortData(c: Config, e: Decoder)
    requires Valid(c, e) && e.phase == Data && e.written == 0 && 0 < |e.buffer| < e.chunkSize + 2
    requires e.total + e.chunkSize <= c.maxBody
    ensures Loop(c, e).r == NeedMore
  {
    if |e.buffer| > e.chunkSize {
      var data, behind := e.buffer[..e.chunkSize], e.buffer[e.chunkSize..];
      assert data + behind == e.buffer;
      TakeData(c, e, data, behind);
    }
  }

  lemma {:induction false} ClassifyLater(c: Config, d: Decoder, line: string, n: nat, behind: string)
    returns (fs: seq<Frame>, rest: string, e: Ending)
    requires Valid(c, d) && d.phase == Size && IsLine(d.buffer, line, behind) && ParseSize(line) == Some(n) && n > 0
    requires d.total + n <= c.maxBody && |behind| >= n + 2 && behind[n..][..2] == CRLF
    ensures Classified(c, d, fs, rest, e)
    decreases |d.buffer|, 0
  {
    var f, more := Frame(line, behind[..n]), behind[n..][2..];
    DataAndEnd(behind, n);
    assert d.buffer == FrameText(f, more);
    hide ParseSize, Contains, Loop, Step, Begins, Is;
    if |more| > 0 {
      ReadFrame(c, d, f, more);
      fs, rest, e := Classify(c, AfterChunk(c, d, f.data, more));
      FrameInFront(c, d, f, more, fs, rest, e);
      fs := [f] + fs;
    } else {
      fs, rest, e := [f], "", Waits;
      OneFrame(c, d.total, f);
      FrameAlone(c, d, f);
    }
  }

  lemma FrameInFront(c: Config, d: Decoder, f: Frame, text: string, fs: seq<Frame>, rest: string, e: Ending)
    requires Valid(c, d) && IsFrame(f) && d.buffer == FrameText(f, text)
    requires var v := AfterChunk(c, d, f.data, text);
             Valid(c, v) && Classified(c, v, fs, rest, e) && Loop(c, d) == Loop(c, v)
    ensures Classified(c, d, [f] + fs, rest, e)
  {
    hide IsFrame, FrameText, Is, Loop;
    assert ([f] + fs)[1..] == fs;
  }

  lemma OneFrame(c: Config, total: nat, f: Frame)
    requires IsFrame(f) && total + |f.data| <= c.maxBody
    ensures Begins(c, total, FrameText(f, ""), [f], "") && forall t: nat :: Is(c, t, "", Waits)
  {
    var fs := [f];
    assert fs[1..] == [] && fs[0] == f;
    assert FramesText([], "") == "" && DataOf([]) == 0;
    hide IsFrame, FrameText;
    assert FramesText(fs, "") == FrameText(f, FramesText(fs[1..], ""));
    assert DataOf(fs) == |f.data| + DataOf(fs[1..]);
  }

  /** Behind a frame without anything more the decoder waits. */
  lemma FrameAlone(c: Config, d: Decoder, f: Frame)
    requires Valid(c, d) && d.phase == Size && IsFrame(f) && d.buffer == FrameText(f, "") && d.total + |f.data| <= c.maxBody
    ensures Loop(c, d).r == NeedMore
  {
    hide ParseSize, Contains, Loop, Step;
    ReadLine(c, d, f.line, |f.data|, f.data + (CRLF + ""));
    ReadData(c, InData(d, |f.data|, f.data + (CRLF + "")), f.data, "");
    EndAlone(c, AtEnd(c, InData(d, |f.data|, f.data + (CRLF + "")), f.data, ""));
  }

  lemma EndAlone(c: Config, e: Decoder)
    requires Valid(c, e) && e.phase == End && e.buffer == CRLF + "" && e.chunkSize > 0
    ensures Loop(c, e).r == NeedMore
  {
    assert e.buffer[..2] == CRLF && e.buffer[2..] == "";
  }

  // ---------------------------------------------------------------- every split of every body

  lemma SplitResult(c: Config, data: string, pieces: seq<string>)
    requires c.maxBody < SIZE_LIMIT && Flatten(pieces) == data
    ensures FeedAll(c, INIT, pieces).r == Loop(c, Extend(INIT, data)).r
    ensures Loop(c, Extend(INIT, data)).d.total <= c.maxBody ==>
              FeedAll(c, INIT, pieces).d.output == Loop(c, Extend(INIT, data)).d.output
  {
    StartIsQuiet(c);
    hide Loop, FeedAll;
    SplitIndependence(c, INIT, pieces);
    if Loop(c, Extend(INIT, data)).d.total <= c.maxBody {
      SameOutput(c, FeedAll(c, INIT, pieces), Loop(c, Extend(INIT, data)));
    }
  }

  /** However a body is cut, its ending decides the result, and what is stored unless the sum wrapped around. */
  lemma EverySplit(c: Config, fs: seq<Frame>, rest: string, e: Ending, pieces: seq<string>)
    requires c.maxBody < SIZE_LIMIT && c.outputFd != -1
    requires Begins(c, 0, Flatten(pieces), fs, rest) && e != Waits && Is(c, DataOf(fs), rest, e)
    ensures FeedAll(c, INIT, pieces).r == ResultOf(e)
    ensures !e.Unended? && !e.Wrapping? ==> FeedAll(c, INIT, pieces).d.output == Stored(fs)
    ensures e.Unended? ==> FeedAll(c, INIT, pieces).d.output == Stored(fs) + e.data
  {
    hide Loop, FeedAll, Flatten, Is, Begins, Stored, DataOf, ResultOf, AfterWrite, Counted, Extend;
    var data := Flatten(pieces);
    var d := Extend(INIT, data);
    FromStart(c, data);
    EndingDecides(c, d, fs, rest, e);
    SplitResult(c, data, pieces);
    WrittenFirst(c, Stored(fs));
    if e.Unended? {
      WrittenFirst(c, Stored(fs) + e.data);
      StoredTotal(c, Loop(c, d), Stored(fs) + e.data);
      UnendedFits(c, fs, rest, e);
    } else {
      BeginsFits(c, Flatten(pieces), fs, rest);
    }
  }

  lemma FromStart(c: Config, data: string)
    requires c.maxBody < SIZE_LIMIT
    ensures var d := Extend(INIT, data);
            Valid(c, d) && d.buffer == data && d.phase == Size && d.total == 0 && d.output == ""
  {
    Alone(data);
  }

  lemma WrittenFirst(c: Config, data: string)
    requires c.outputFd != -1
    ensures AfterWrite(c.outputFd, "", data) == data
  {
    Alone(data);
  }

  lemma BeginsFits(c: Config, data: string, fs: seq<Frame>, rest: string)
    requires Begins(c, 0, data, fs, rest)
    ensures DataOf(fs) <= c.maxBody
  {
  }

  lemma StoredTotal(c: Config, o: Outcome, data: string)
    requires c.outputFd != -1 && Counted(c, o.d) && o.d.output == AfterWrite(c.outputFd, "", data)
    ensures o.d.total == |data|
  {
  }

  lemma UnendedFits(c: Config, fs: seq<Frame>, rest: string, e: Ending)
    requires e.Unended? && Is(c, DataOf(fs), rest, e)
    ensures |Stored(fs) + e.data| <= c.maxBody
  {
    hide ParseSize, Contains;
  }

  /** A body whose next size is too large is refused as such, cut in any way, with exactly the data before it stored. */
  lemma TooLargeIsMaxError(c: Config, fs: seq<Frame>, rest: string, line: string, behind: string, pieces: seq<string>)
    requires c.maxBody < SIZE_LIMIT && c.outputFd != -1
    requires Begins(c, 0, Flatten(pieces), fs, rest) && TooLarge(c, DataOf(fs), rest, line, behind)
    ensures FeedAll(c, INIT, pieces).r == MaxError && FeedAll(c, INIT, pieces).d.output == Stored(fs)
  {
    hide Begins, TooLarge, FeedAll;
    EverySplit(c, fs, rest, Over(line, behind), pieces);
  }

  /** A line without a size, or data without a line end behind it, is an error in every split. */
  lemma MalformedIsError(c: Config, fs: seq<Frame>, rest: string, line: string, data: string, behind: string, pieces: seq<string>)
    requires c.maxBody < SIZE_LIMIT && c.outputFd != -1 && Begins(c, 0, Flatten(pieces), fs, rest)
    requires NoSize(rest, line, behind) || NoLineEnd(c, DataOf(fs), rest, line, data, behind)
    ensures FeedAll(c, INIT, pieces).r == Error
    ensures FeedAll(c, INIT, pieces).d.output == Stored(fs) + if NoSize(rest, line, behind) then "" else data
  {
    Alone(Stored(fs));
    hide Begins, NoSize, NoLineEnd, FeedAll, Stored;
    if NoSize(rest, line, behind) {
      EverySplit(c, fs, rest, Unsized(line, behind), pieces);
    } else {
      EverySplit(c, fs, rest, Unended(line, data, behind), pieces);
    }
  }

  /** Some ending other than waiting gives the result. */
  ghost predicate Ends(c: Config, data: string, r: Result) {
    exists fs, rest, e :: EndsAs(c, data, r, fs, rest, e)
  }

  predicate EndsAs(c: Config, data: string, r: Result, fs: seq<Frame>, rest: string, e: Ending) {
    e != Waits && ResultOf(e) == r && Begins(c, 0, data, fs, rest) && Is(c, DataOf(fs), rest, e)
  }

  /** The result of any split of any body is that of its ending, and NEED_MORE when it has none. */
  lemma ResultIff(c: Config, pieces: seq<string>, r: Result)
    requires c.maxBody < SIZE_LIMIT && c.outputFd != -1 && r != NeedMore
    ensures FeedAll(c, INIT, pieces).r == r <==> Ends(c, Flatten(pieces), r)
  {
    var data := Flatten(pieces);
    Alone(data);
    hide Loop, FeedAll, Flatten, Is, Begins;
    SplitResult(c, data, pieces);
    var fs, rest, e := Classify(c, Extend(INIT, data));
    if e != Waits {
      EverySplit(c, fs, rest, e, pieces);
      assert EndsAs(c, data, ResultOf(e), fs, rest, e);
    }
    forall gs, more, f | EndsAs(c, data, r, gs, more, f) ensures FeedAll(c, INIT, pieces).r == r {
      EverySplit(c, gs, more, f, pieces);
    }
  }

  /** A body is complete, cut in any way, exactly when it is frames within the limit, a size of zero and a line end. */
  lemma CompleteIff(c: Config, pieces: seq<string>)
    requires c.maxBody < SIZE_LIMIT && c.outputFd != -1
    ensures FeedAll(c, INIT, pieces).r == Complete
            <==> exists fs, rest, line, tail :: Begins(c, 0, Flatten(pieces), fs, rest) && LastChunk(rest, line, tail)
  {
    hide FeedAll, Flatten, Begins, LastChunk;
    ResultIff(c, pieces, Complete);
    var data := Flatten(pieces);
    if Ends(c, data, Complete) {
      var fs, rest, e :| EndsAs(c, data, Complete, fs, rest, e);
      assert Begins(c, 0, data, fs, rest) && LastChunk(rest, e.line, e.tail);
    }
    forall fs, rest, line, tail | Begins(c, 0, data, fs, rest) && LastChunk(rest, line, tail) ensures Ends(c, data, Complete) {
      assert EndsAs(c, data, Complete, fs, rest, Last(line, tail));
    }
  }
}
