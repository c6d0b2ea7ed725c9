/** Which streams make the output of the chunked decoder depend on how they are split. */
module ChunkedOverrun {
  import opened Bytes
  import opened Chunked
  import opened ChunkedSplit
  import opened ChunkedRoundTrip

  /** A chunk as it may come in: a line that starts with its size in hexadecimal digits, and its data. */
  datatype Frame = Frame(line: string, data: string)

  predicate IsFrame(f: Frame) {
    !Contains(f.line, CRLF) && ParseSize(f.line) == Some(|f.data|) && |f.data| > 0
  }

  function FrameText(f: Frame, rest: string): string {
    f.line + (CRLF + (f.data + (CRLF + rest)))
  }

  /** Frames one behind the other, and what follows them. */
  function FramesText(fs: seq<Frame>, rest: string): string {
    if |fs| == 0 then rest else FrameText(fs[0], FramesText(fs[1..], rest))
  }

  /** The bytes of data in all the frames. */
  function DataOf(fs: seq<Frame>): nat {
    if |fs| == 0 then 0 else |fs[0].data| + DataOf(fs[1..])
  }

  /**
   * The text starts with a size line for a size that, added to `total`, does not fit into a
   * `size_t`, and there are enough bytes behind the line to pass the limit by more than `extra`.
   */
  predicate Wraps(c: Config, total: nat, text: string, extra: nat) {
    var pos := Find(text, CRLF);
    && pos != -1
    && match ParseSize(text[..pos])
       case None => false
       case Some(n) => total + n >= SIZE_LIMIT && total + Min(|text| - pos - 2, n) > c.maxBody + extra
  }

  /** Complete frames within the limit, then a size line that wraps. */
  ghost predicate OverrunsAfter(c: Config, total: nat, text: string, extra: nat, fs: seq<Frame>, rest: string) {
    && (forall k :: 0 <= k < |fs| ==> IsFrame(fs[k]))
    && text == FramesText(fs, rest)
    && total + DataOf(fs) <= c.maxBody
    && Wraps(c, total + DataOf(fs), rest, extra)
  }

  ghost predicate OverrunStream(c: Config, total: nat, text: string, extra: nat) {
    exists fs, rest :: OverrunsAfter(c, total, text, extra, fs, rest)
  }

  /** The decoder stopped more than `extra` bytes over the limit. */
  predicate StoppedOver(c: Config, s: Outcome, extra: nat) {
    s.r == MaxError && s.d.total > c.maxBody + extra
  }

  // ---------------------------------------------------------------- such a stream stops the decoder

  lemma ReadFrame(c: Config, d: Decoder, f: Frame, rest: string)
    requires Valid(c, d) && d.phase == Size && d.buffer == FrameText(f, rest)
    requires IsFrame(f) && |rest| > 0 && d.total + |f.data| <= c.maxBody
    ensures Valid(c, AfterChunk(c, d, f.data, rest))
    ensures Loop(c, d) == Loop(c, AfterChunk(c, d, f.data, rest))
  {
    var more := f.data + (CRLF + rest);
    hide Loop, Step, ParseSize, Contains;
    ReadLine(c, d, f.line, |f.data|, more);
    ReadBody(c, InData(d, |f.data|, more), f.data, rest);
  }

  lemma CutLine(text: string)
    requires Contains(text, CRLF)
    ensures var pos := Find(text, CRLF);
            text == text[..pos] + (CRLF + text[pos + 2..]) && !Contains(text[..pos], CRLF)
  {
    var pos := Find(text, CRLF);
    FindPrefix(text, CRLF, pos);
    assert text[pos..pos + 2] == CRLF;
  }

  /** At a size line that wraps, one write takes all that is there. */
  lemma WrapStops(c: Config, d: Decoder, extra: nat)
    requires Valid(c, d) && d.phase == Size && Wraps(c, d.total, d.buffer, extra)
    ensures StoppedOver(c, Loop(c, d), extra)
  {
    var pos := Find(d.buffer, CRLF);
    var n, rest := ParseSize(d.buffer[..pos]).value, d.buffer[pos + 2..];
    CutLine(d.buffer);
    ReadLine(c, d, d.buffer[..pos], n, rest);
    hide Find, ParseSize;
    DataStops(c, InData(d, n, rest));
  }

  lemma DataStops(c: Config, e: Decoder)
    requires Valid(c, e) && e.phase == Data && e.written == 0 && |e.buffer| > 0
    requires e.total + Min(|e.buffer|, e.chunkSize) > c.maxBody
    ensures Loop(c, e).r == MaxError && Loop(c, e).d.total == e.total + Min(|e.buffer|, e.chunkSize)
  {
  }

  lemma {:induction false} StreamStops(c: Config, d: Decoder, extra: nat, fs: seq<Frame>, rest: string)
    requires Valid(c, d) && d.phase == Size && OverrunsAfter(c, d.total, d.buffer, extra, fs, rest)
    ensures StoppedOver(c, Loop(c, d), extra)
    decreases |fs|
  {
    hide Loop, IsFrame, Wraps;
    if |fs| == 0 {
      WrapStops(c, d, extra);
    } else {
      var more := FramesText(fs[1..], rest);
      WrapsHasText(c, d.total + DataOf(fs), rest, extra);
      FramesNotEmpty(fs[1..], rest);
      ReadFrame(c, d, fs[0], more);
      StreamStops(c, AfterChunk(c, d, fs[0].data, more), extra, fs[1..], rest);
    }
  }

  lemma WrapsHasText(c: Config, total: nat, text: string, extra: nat)
    requires Wraps(c, total, text, extra)
    ensures |text| > 0
  {
  }

  lemma FramesNotEmpty(fs: seq<Frame>, rest: string)
    requires |rest| > 0
    ensures |FramesText(fs, rest)| > 0
  {
  }

  // ---------------------------------------------------------------- nothing else does

  /** Over the limit, a size line was read, and bytes behind it. */
  lemma LineWasRead(c: Config, d: Decoder) returns (line: string, n: nat, rest: string)
    requires Valid(c, d) && d.phase == Size && StoppedOver(c, Loop(c, d), 0)
    ensures d.buffer == line + (CRLF + rest) && Find(d.buffer, CRLF) == |line| && d.buffer[..|line|] == line
    ensures ParseSize(line) == Some(n) && AddSize(d.total, n) <= c.maxBody && |rest| > 0
    ensures Valid(c, InData(d, n, rest)) && Loop(c, d) == Loop(c, InData(d, n, rest))
    ensures !Contains(line, CRLF)
  {
    var pos := Find(d.buffer, CRLF);
    assert pos != -1;
    CutLine(d.buffer);
    line, rest := d.buffer[..pos], d.buffer[pos + 2..];
    n := ParseSize(line).value;
    assert Step(c, d) == Outcome(InData(d, n, rest), NeedMore);
  }

  /** Over the limit behind a size line: the data passed it, or all of it was taken. */
  lemma DataWasTaken(c: Config, e: Decoder)
    requires Valid(c, e) && e.phase == Data && e.written == 0 && |e.buffer| > 0
    requires StoppedOver(c, Loop(c, e), 0) && e.total + Min(|e.buffer|, e.chunkSize) <= c.maxBody
    ensures var n := e.chunkSize;
            && n < |e.buffer|
            && Valid(c, Wrote(c, e, e.buffer[..n], e.buffer[n..]).(phase := End))
            && Loop(c, e) == Loop(c, Wrote(c, e, e.buffer[..n], e.buffer[n..]).(phase := End))
  {
  }

  /** Over the limit behind the data: its line end was there, and more. */
  lemma EndWasRead(c: Config, e: Decoder)
    requires Valid(c, e) && e.phase == End && StoppedOver(c, Loop(c, e), 0)
    ensures e.chunkSize > 0 && |e.buffer| > 2 && e.buffer[..2] == CRLF
    ensures var next := e.(buffer := e.buffer[2..], phase := Size); Valid(c, next) && Loop(c, e) == Loop(c, next)
  {
  }

  /** With the data taken and its line end read, the decoder has read a frame. */
  lemma FrameWasRead(c: Config, d: Decoder, line: string, n: nat, rest: string) returns (f: Frame, more: string)
    requires Valid(c, d) && d.phase == Size && d.buffer == line + (CRLF + rest) && !Contains(line, CRLF)
    requires ParseSize(line) == Some(n) && |rest| > 0
    requires Valid(c, InData(d, n, rest)) && StoppedOver(c, Loop(c, InData(d, n, rest)), 0)
    requires d.total + Min(|rest|, n) <= c.maxBody
    ensures IsFrame(f) && d.buffer == FrameText(f, more) && d.total + |f.data| <= c.maxBody && |more| > 0
    ensures Valid(c, AfterChunk(c, d, f.data, more))
    ensures Loop(c, InData(d, n, rest)) == Loop(c, AfterChunk(c, d, f.data, more))
  {
    var e := InData(d, n, rest);
    DataWasTaken(c, e);
    var e2 := Wrote(c, e, rest[..n], rest[n..]).(phase := End);
    EndWasRead(c, e2);
    f, more := Frame(line, rest[..n]), rest[n..][2..];
    hide Loop, Find, ParseSize, Contains, Valid, AfterWrite;
    DataAndEnd(rest, n);
    assert e2.(buffer := more, phase := Size) == AfterChunk(c, d, f.data, more);
  }

  lemma DataAndEnd(s: string, n: nat)
    requires n + 2 <= |s| && s[n..][..2] == CRLF
    ensures s == s[..n] + (CRLF + s[n..][2..])
  {
  }

  /** A decoder that stopped over the limit was given frames and a size line that wraps. */
  lemma {:induction false} StoppedMeansStream(c: Config, d: Decoder, extra: nat) returns (fs: seq<Frame>, rest: string)
    requires Valid(c, d) && d.phase == Size && StoppedOver(c, Loop(c, d), extra)
    ensures OverrunsAfter(c, d.total, d.buffer, extra, fs, rest)
    decreases |d.buffer|
  {
    hide Loop, ParseSize, IsFrame, Contains, Valid, AfterWrite, Step;
    var line, n, behind := LineWasRead(c, d);
    var e := InData(d, n, behind);
    if d.total + Min(|behind|, n) > c.maxBody {
      DataStops(c, e);
      fs, rest := [], d.buffer;
    } else {
      var f, more := FrameWasRead(c, d, line, n, behind);
      var next := AfterChunk(c, d, f.data, more);
      fs, rest := StoppedMeansStream(c, next, extra);
      OneFrameMore(c, d.total, f, more, extra, fs, rest);
      fs := [f] + fs;
    }
  }

  lemma OneFrameMore(c: Config, total: nat, f: Frame, text: string, extra: nat, fs: seq<Frame>, rest: string)
    requires IsFrame(f) && OverrunsAfter(c, total + |f.data|, text, extra, fs, rest)
    ensures OverrunsAfter(c, total, FrameText(f, text), extra, [f] + fs, rest)
  {
    hide IsFrame, Wraps, FrameText;
    var all := [f] + fs;
    assert all[1..] == fs && all[0] == f;
  }

  // ---------------------------------------------------------------- the condition

  /** The limit is passed by more than `extra` bytes exactly on such streams. */
  lemma StopsOverIff(c: Config, d: Decoder, extra: nat)
    requires Valid(c, d) && d.phase == Size
    ensures StoppedOver(c, Loop(c, d), extra) <==> OverrunStream(c, d.total, d.buffer, extra)
  {
    if StoppedOver(c, Loop(c, d), extra) {
      var fs, rest := StoppedMeansStream(c, d, extra);
    }
    if OverrunStream(c, d.total, d.buffer, extra) {
      var fs, rest :| OverrunsAfter(c, d.total, d.buffer, extra, fs, rest);
      StreamStops(c, d, extra, fs, rest);
    }
  }

  lemma StartIsQuiet(c: Config)
    requires c.maxBody < SIZE_LIMIT
    ensures Quiet(c, INIT)
  {
    assert Find("", CRLF) == -1;
  }

  lemma FedFromStart(c: Config, data: string, extra: nat)
    requires c.maxBody < SIZE_LIMIT
    ensures StoppedOver(c, Feed(c, INIT, data), extra) <==> OverrunStream(c, 0, data, extra)
  {
    Alone(data);
    StopsOverIff(c, Extend(INIT, data), extra);
  }

  /**
   * The output of a body does not depend on how the body is split, exactly when the body is not
   * made of complete frames within the limit, a size line whose size wraps the check around, and
   * enough bytes behind it to pass the limit by two.
   */
  lemma OutputIndependentIff(c: Config, data: string)
    requires c.maxBody < SIZE_LIMIT && c.outputFd != -1
    ensures (forall pieces ::
               Flatten(pieces) == data ==> FeedAll(c, INIT, pieces).d.output == Feed(c, INIT, data).d.output)
            <==> !OverrunStream(c, 0, data, 1)
  {
    StartIsQuiet(c);
    FedFromStart(c, data, 1);
    OutputIndependence(c, INIT, data);
  }

  /** Up to one byte over the limit the outcomes of a split and of one feed do not differ. */
  lemma AgreesIsSame(c: Config, split: Outcome, whole: Outcome)
    requires SplitAgrees(c, split, whole) && Counted(c, split.d) && Counted(c, whole.d)
    requires !StoppedOver(c, whole, 1)
    ensures Same(split, whole)
  {
  }

  /**
   * The whole outcome of every split is that of one feed, up to the bytes left in the buffer after a
   * failure, exactly when the stream does not make one feed pass the limit by two bytes.
   */
  lemma SplitsAreSameIff(c: Config, data: string)
    requires c.maxBody < SIZE_LIMIT
    ensures (forall pieces :: Flatten(pieces) == data ==> Same(FeedAll(c, INIT, pieces), Feed(c, INIT, data)))
            <==> !OverrunStream(c, 0, data, 1)
  {
    hide Loop, Step, OverrunStream;
    StartIsQuiet(c);
    FedFromStart(c, data, 1);
    if OverrunStream(c, 0, data, 1) {
      BytewiseStopsAtOnce(c, INIT, Singles(data));
      assert !Same(FeedAll(c, INIT, Singles(data)), Feed(c, INIT, data));
    } else {
      forall pieces | Flatten(pieces) == data ensures Same(FeedAll(c, INIT, pieces), Feed(c, INIT, data)) {
        SplitIndependence(c, INIT, pieces);
        AgreesIsSame(c, FeedAll(c, INIT, pieces), Feed(c, INIT, data));
      }
    }
  }

  // ---------------------------------------------------------------- streams without large sizes

  /** Some text before a line break in `data` is read as a size of `bound` or more. */
  ghost predicate Announces(data: string, bound: nat) {
    exists i: nat, j: nat :: AnnouncesAt(data, bound, i, j)
  }

  predicate AnnouncesAt(data: string, bound: nat, i: nat, j: nat) {
    i <= j && At(data, CRLF, j) && match ParseSize(data[i..j]) case None => false case Some(n) => n >= bound
  }

  lemma AnnouncesBehind(front: string, data: string, bound: nat)
    requires Announces(data, bound)
    ensures Announces(front + data, bound)
  {
    hide ParseSize;
    var i: nat, j: nat :| AnnouncesAt(data, bound, i, j);
    var all := front + data;
    assert all[|front|..] == data;
    AtDrop(all, CRLF, |front|, |front| + j);
    SliceConcat(front, data, |front| + i, |front| + j);
    assert AnnouncesAt(all, bound, |front| + i, |front| + j);
  }

  lemma WrapsAnnounces(c: Config, total: nat, text: string, extra: nat)
    requires Wraps(c, total, text, extra) && total <= c.maxBody < SIZE_LIMIT
    ensures Announces(text, SIZE_LIMIT - c.maxBody)
  {
    var pos := Find(text, CRLF);
    assert text[0..pos] == text[..pos];
    assert AnnouncesAt(text, SIZE_LIMIT - c.maxBody, 0, pos);
  }

  lemma FrameTextIs(f: Frame, rest: string)
    ensures FrameText(f, rest) == (f.line + (CRLF + (f.data + CRLF))) + rest
  {
  }

  lemma {:induction false} FramesAnnounce(fs: seq<Frame>, rest: string, bound: nat)
    requires Announces(rest, bound)
    ensures Announces(FramesText(fs, rest), bound)
    decreases |fs|
  {
    hide Announces;
    if |fs| > 0 {
      FramesAnnounce(fs[1..], rest, bound);
      FrameTextIs(fs[0], FramesText(fs[1..], rest));
      AnnouncesBehind(fs[0].line + (CRLF + (fs[0].data + CRLF)), FramesText(fs[1..], rest), bound);
    }
  }

  /** A stream in which no line announces so large a size has the same outcome in every split. */
  lemma SmallSizesSplit(c: Config, data: string, pieces: seq<string>)
    requires c.maxBody < SIZE_LIMIT && !Announces(data, SIZE_LIMIT - c.maxBody) && Flatten(pieces) == data
    ensures Same(FeedAll(c, INIT, pieces), Feed(c, INIT, data))
  {
    hide Announces, Wraps, FeedAll, Feed, FramesText;
    if OverrunStream(c, 0, data, 1) {
      var fs, rest :| OverrunsAfter(c, 0, data, 1, fs, rest);
      WrapsAnnounces(c, DataOf(fs), rest, 1);
      FramesAnnounce(fs, rest, SIZE_LIMIT - c.maxBody);
    }
    SplitsAreSameIff(c, data);
  }

  // ---------------------------------------------------------------- one such stream

  /** Two feeds of one body that write different bytes: the second size wraps the limit check around. */
  lemma OverrunExample()
    ensures var c, data := Config(3, 1), EncodeChunk("A") + (SizeLine(SIZE_LIMIT - 1) + "BC");
            && Feed(c, INIT, data).d.total == 3
            && FeedAll(c, INIT, Singles(data)).d.total <= 2
            && |Feed(c, INIT, data).d.output| == 3
            && FeedAll(c, INIT, Singles(data)).d.output != Feed(c, INIT, data).d.output
  {
    var c, rest := Config(3, 1), SizeLine(SIZE_LIMIT - 1) + "BC";
    var data := EncodeChunk("A") + rest;
    var d := Extend(INIT, data);
    Alone(data);
    hide Loop, Step, EncodeChunk;
    ReadChunk(c, d, "A", rest);
    var e := AfterChunk(c, d, "A", rest);
    ReadSizeLine(c, e, SIZE_LIMIT - 1, "BC");
    DataStops(c, InData(e, SIZE_LIMIT - 1, "BC"));
    StartIsQuiet(c);
    BytewiseStopsAtOnce(c, INIT, Singles(data));
  }
}
