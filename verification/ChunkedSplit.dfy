/** How a run of the chunked decoder over pieces compares with one feed of all the bytes. */
module ChunkedSplit {
  import opened Bytes
  import opened Chunked

  /** A step that stops asking for more bytes does the same with more bytes at hand. */
  predicate Extends(s: Outcome, x: Outcome, t: string) {
    x == Outcome(Extend(s.d, t), s.r)
  }

  lemma StepSizeExtend(c: Config, d: Decoder, t: string)
    requires Find(d.buffer, CRLF) != -1
    ensures Extends(StepSize(c, d), StepSize(c, Extend(d, t)), t)
  {
    var b := d.buffer;
    FindExtend(b, t, CRLF);
    var pos := Find(b, CRLF);
    assert (b + t)[..pos] == b[..pos];
    assert (b + t)[pos + 2..] == b[pos + 2..] + t;
  }

  lemma StepDataExtend(c: Config, d: Decoder, t: string)
    requires |d.buffer| > 0 && d.written <= d.chunkSize
    requires |d.buffer| >= d.chunkSize - d.written
    ensures Extends(StepData(c, d), StepData(c, Extend(d, t)), t)
  {
    var b := d.buffer;
    var n := d.chunkSize - d.written;
    assert (b + t)[..n] == b[..n];
    assert (b + t)[n..] == b[n..] + t;
  }

  lemma StepEndExtend(d: Decoder, t: string)
    requires |d.buffer| >= 2
    ensures Extends(StepEnd(d), StepEnd(Extend(d, t)), t)
  {
    var b := d.buffer;
    assert (b + t)[..2] == b[..2];
    assert (b + t)[2..] == b[2..] + t;
  }

  /** The data step takes every byte in the buffer and still wants more. */
  predicate Starved(d: Decoder) {
    d.phase == Data && |d.buffer| > 0 && |d.buffer| < d.chunkSize - d.written
  }

  /** More bytes do not disturb a step that does something, unless it is a starved data step. */
  lemma StepExtend(c: Config, d: Decoder, t: string)
    requires Valid(c, d) && !Starved(d)
    requires Step(c, d) != Outcome(d, NeedMore)
    ensures Extends(Step(c, d), Step(c, Extend(d, t)), t)
  {
    match d.phase
    case Size => StepSizeExtend(c, d, t);
    case Data => StepDataExtend(c, d, t);
    case End => StepEndExtend(d, t);
    case Done =>
  }

  lemma AfterTwoWrites(fd: int, output: string, a: string, b: string)
    ensures AfterWrite(fd, AfterWrite(fd, output, a), b) == AfterWrite(fd, output, a + b)
  {
    assert output + a + b == output + (a + b);
    if a == "" { assert a + b == b; }
    if b == "" { assert a + b == a; }
  }

  lemma WroteTwice(c: Config, d: Decoder, a: string, b: string, mid: string, rest: string)
    ensures Wrote(c, Wrote(c, d, a, mid), b, rest) == Wrote(c, d, a + b, rest)
  {
    AfterTwoWrites(c.outputFd, d.output, a, b);
  }

  /** Equal outcomes; after a failure the bytes left in the buffer do not matter. */
  predicate Same(x: Outcome, y: Outcome) {
    && x.r == y.r
    && (x.d == y.d || (x.r.Failing() && x.d.(buffer := "") == y.d.(buffer := "")))
  }

  /** A starved data step followed by more bytes is one data step on all of them. */
  lemma StarvedStep(c: Config, d: Decoder, t: string)
    requires Starved(d) && |t| > 0 && d.total + |d.buffer| <= c.maxBody
    ensures StepData(c, d) == Outcome(Wrote(c, d, d.buffer, ""), NeedMore)
    ensures Same(StepData(c, Extend(d, t)), StepData(c, Wrote(c, d, d.buffer, t)))
    ensures var s := StepData(c, Extend(d, t));
            s.r == NeedMore ==> |s.d.buffer| < |t|
  {
    var k := |d.buffer|;
    assert d.buffer[..k] == d.buffer && d.buffer[k..] == "";
    var e := Wrote(c, d, d.buffer, t);
    var m := Min(|t|, e.chunkSize - e.written);
    assert (d.buffer + t)[..k + m] == d.buffer + t[..m];
    assert (d.buffer + t)[k + m..] == t[m..];
    WroteTwice(c, d, d.buffer, t[..m], t, t[m..]);
    WroteTwice(c, d, d.buffer, t[..m], t, d.buffer + t);
  }

  /** Two states stopped over the limit inside the same chunk, the second after taking at least as many bytes. */
  predicate OverLimitInside(c: Config, d: Decoder) {
    d.phase == Data && d.total > c.maxBody
  }

  predicate SameButLonger(d: Decoder, e: Decoder) {
    && e.phase == d.phase && d.total <= e.total && d.output <= e.output
    && e.chunkSize == d.chunkSize && e.written - d.written == e.total - d.total
  }

  lemma StarvedOverLimit(c: Config, d: Decoder, t: string)
    requires Valid(c, d) && Starved(d) && d.total + |d.buffer| > c.maxBody
    ensures StepData(c, d).r == StepData(c, Extend(d, t)).r == MaxError
    ensures OverLimitInside(c, StepData(c, d).d)
    ensures SameButLonger(StepData(c, d).d, StepData(c, Extend(d, t)).d)
  {
    var k := |d.buffer|;
    var m := Min(|d.buffer + t|, d.chunkSize - d.written);
    assert d.buffer[..k] <= (d.buffer + t)[..m];
  }

  /** How the outcome of a run over pieces and that of one feed of everything are related. */
  predicate SplitAgrees(c: Config, split: Outcome, whole: Outcome) {
    || Same(split, whole)
    || (split.r == whole.r == MaxError && OverLimitInside(c, split.d) && SameButLonger(split.d, whole.d))
  }

  /** Stopping after the bytes at hand and going on with `t`, against having `t` from the start. */
  lemma {:induction false} LoopExtend(c: Config, d: Decoder, t: string)
    requires Valid(c, d) && |t| > 0
    ensures var s := Loop(c, d);
            if s.r.Failing() then SplitAgrees(c, s, Loop(c, Extend(d, t)))
            else Same(Loop(c, Extend(s.d, t)), Loop(c, Extend(d, t)))
    decreases |d.buffer|, Rank(d.phase)
  {
    if Starved(d) {
      if d.total + |d.buffer| <= c.maxBody {
        StarvedLoop(c, d, t);
      } else {
        StarvedOverLimit(c, d, t);
      }
    } else if Step(c, d) != Outcome(d, NeedMore) {
      StepExtend(c, d, t);
      hide StepSize, StepData, StepEnd;
      LoopExtendByStep(c, d, t);
      if GoesOn(d, Step(c, d)) {
        StepDecreases(c, d);
        LoopExtend(c, Step(c, d).d, t);
      }
    }
  }

  lemma LoopExtendByStep(c: Config, d: Decoder, t: string)
    requires Valid(c, d) && |t| > 0
    requires Step(c, d) != Outcome(d, NeedMore)
    requires Extends(Step(c, d), Step(c, Extend(d, t)), t)
    ensures var s := Step(c, d);
            match s.r
            case NeedMore => Loop(c, Extend(d, t)) == Loop(c, Extend(s.d, t))
            case Complete => Loop(c, Extend(d, t)) == Outcome(Extend(s.d, t), Complete) == Loop(c, Extend(s.d, t))
            case _ => Loop(c, Extend(d, t)) == Outcome(Extend(s.d, t), s.r)
  {
    StepMoves(c, d);
  }

  lemma StepMoves(c: Config, d: Decoder)
    requires Valid(c, d) && Step(c, d) != Outcome(d, NeedMore)
    ensures Step(c, d).r == NeedMore ==> Step(c, d).d.phase != d.phase || |Step(c, d).d.buffer| < |d.buffer|
    ensures Step(c, d).r == Complete ==> Step(c, d).d.phase == Done
  {
  }

  lemma StarvedLoop(c: Config, d: Decoder, t: string)
    requires Valid(c, d) && Starved(d) && |t| > 0 && d.total + |d.buffer| <= c.maxBody
    ensures !Loop(c, d).r.Failing()
    ensures Same(Loop(c, Extend(Loop(c, d).d, t)), Loop(c, Extend(d, t)))
  {
    StarvedStep(c, d, t);
    var e := Step(c, d).d;
    assert Extend(e, t) == Wrote(c, d, d.buffer, t) by {
      assert "" + t == t;
    }
    hide StepData;
  }

  lemma SameThenAgrees(c: Config, split: Outcome, mid: Outcome, whole: Outcome)
    requires SplitAgrees(c, split, mid) && Same(mid, whole)
    ensures SplitAgrees(c, split, whole)
  {
  }

  /**
   * Independence of the split: for every split of every byte stream the result is that of one
   * feed of the whole; without a failure the whole state is too, and after a failure the
   * counters and the output are, except when a data step passed the limit.
   */
  lemma {:induction false} SplitIndependence(c: Config, d: Decoder, pieces: seq<string>)
    requires Quiet(c, d)
    ensures SplitAgrees(c, FeedAll(c, d, pieces), Feed(c, d, Flatten(pieces)))
    decreases |pieces|
  {
    hide Step, Loop;
    if |pieces| == 0 {
      assert Extend(d, "") == d;
      LoopOfQuiet(c, d);
    } else {
      var p, t := pieces[0], Flatten(pieces[1..]);
      var s := Feed(c, d, p);
      ExtendTwice(d, p, t);
      FeedExtend(c, d, p, t);
      if !s.r.Failing() {
        LoopIsQuiet(c, Extend(d, p));
        SplitIndependence(c, s.d, pieces[1..]);
        SameThenAgrees(c, FeedAll(c, d, pieces), Feed(c, s.d, t), Feed(c, d, p + t));
      }
    }
  }

  lemma FeedExtend(c: Config, d: Decoder, p: string, t: string)
    requires Valid(c, d)
    ensures var s := Feed(c, d, p);
            if s.r.Failing() then SplitAgrees(c, s, Loop(c, Extend(Extend(d, p), t)))
            else Same(Feed(c, s.d, t), Loop(c, Extend(Extend(d, p), t)))
  {
    if |t| == 0 {
      assert Extend(Extend(d, p), t) == Extend(d, p);
      var s := Feed(c, d, p);
      assert Extend(s.d, t) == s.d;
      if !s.r.Failing() {
        LoopIsQuiet(c, Extend(d, p));
        LoopOfQuiet(c, s.d);
      }
    } else {
      LoopExtend(c, Extend(d, p), t);
    }
  }

  // ---------------------------------------------------------------- the output after a failure

  /** One write took at least two bytes past the limit. */
  predicate Overran(c: Config, s: Outcome) {
    c.outputFd != -1 && s.r == MaxError && s.d.total > c.maxBody + 1
  }

  function Singles(data: string): (pieces: seq<string>)
    ensures Flatten(pieces) == data
    ensures forall i :: 0 <= i < |pieces| ==> |pieces[i]| == 1
  {
    if |data| == 0 then [] else [data[..1]] + Singles(data[1..])
  }

  /** Fed one byte, a waiting decoder writes at most one byte. */
  lemma FeedByte(c: Config, d: Decoder, b: string)
    requires Quiet(c, d) && |b| == 1
    ensures Feed(c, d, b).d.total <= d.total + 1
  {
    var x := Extend(d, b);
    match d.phase
    case Size =>
      if 0 <= Find(x.buffer, CRLF) && Find(x.buffer, CRLF) + 2 <= |d.buffer| {
        AtExtend(d.buffer, b, CRLF, Find(x.buffer, CRLF));
      }
    case Data =>
      FeedDataByte(c, d, b);
    case End =>
    case Done =>
  }

  lemma QuietData(c: Config, d: Decoder)
    requires Quiet(c, d) && d.phase == Data
    ensures d.buffer == ""
  {
    if |d.buffer| > 0 {
      StepMoves(c, d);
    }
  }

  /** A data step on one byte takes it, or finds the chunk complete and leaves it. */
  lemma StepDataByte(c: Config, x: Decoder)
    requires Valid(c, x) && x.phase == Data && |x.buffer| == 1
    ensures Step(c, x).d.total <= x.total + 1
    ensures GoesOn(x, Step(c, x)) ==>
              var e := Step(c, x).d; e.phase == End && |e.buffer| == 1 && e.total == x.total
  {
  }

  lemma FeedDataByte(c: Config, d: Decoder, b: string)
    requires Quiet(c, d) && d.phase == Data && |b| == 1
    ensures Feed(c, d, b).d.total <= d.total + 1
  {
    var x := Extend(d, b);
    QuietData(c, d);
    StepDataByte(c, x);
    if GoesOn(x, Step(c, x)) {
      LoopGoesOn(c, x);
      OneByteAtEnd(c, Step(c, x).d);
    } else {
      LoopEnds(c, x);
    }
    hide Step, Loop;
  }

  lemma OneByteAtEnd(c: Config, e: Decoder)
    requires Valid(c, e) && e.phase == End && |e.buffer| == 1
    ensures Loop(c, e).d.total == e.total
  {
    LoopOfQuiet(c, e);
  }

  lemma {:induction false} BytewiseStopsAtOnce(c: Config, d: Decoder, pieces: seq<string>)
    requires Quiet(c, d)
    requires forall i :: 0 <= i < |pieces| ==> |pieces[i]| == 1
    ensures FeedAll(c, d, pieces).d.total <= c.maxBody + 1
    decreases |pieces|
  {
    if |pieces| > 0 {
      FeedByte(c, d, pieces[0]);
      hide Step, Loop;
      if !Feed(c, d, pieces[0]).r.Failing() {
        LoopIsQuiet(c, Extend(d, pieces[0]));
        BytewiseStopsAtOnce(c, Feed(c, d, pieces[0]).d, pieces[1..]);
      }
    }
  }

  lemma SameOutput(c: Config, split: Outcome, whole: Outcome)
    requires Counted(c, split.d) && Counted(c, whole.d)
    requires SplitAgrees(c, split, whole) && !Overran(c, whole)
    ensures split.d.output == whole.d.output
  {
  }

  /**
   * The output is independent of the split exactly when a single feed does not write two or
   * more bytes past the limit.
   */
  lemma OutputIndependence(c: Config, d: Decoder, data: string)
    requires Quiet(c, d)
    ensures (forall pieces ::
               Flatten(pieces) == data ==> FeedAll(c, d, pieces).d.output == Feed(c, d, data).d.output)
            <==> !Overran(c, Feed(c, d, data))
  {
    hide Step, Loop;
    var whole := Feed(c, d, data);
    if Overran(c, whole) {
      BytewiseStopsAtOnce(c, d, Singles(data));
      assert |FeedAll(c, d, Singles(data)).d.output| < |whole.d.output|;
    } else {
      forall pieces | Flatten(pieces) == data
        ensures FeedAll(c, d, pieces).d.output == whole.d.output
      {
        SplitIndependence(c, d, pieces);
        SameOutput(c, FeedAll(c, d, pieces), whole);
      }
    }
  }

  /** The limit is passed only inside a chunk whose size line made the addition wrap around. */
  lemma {:induction false} OverLimitMeansWrap(c: Config, d: Decoder)
    requires Valid(c, d)
    requires Loop(c, d).r == MaxError && Loop(c, d).d.total > c.maxBody
    ensures var e := Loop(c, d).d;
            OverLimitInside(c, e) && (e.total - e.written) + e.chunkSize >= SIZE_LIMIT
    decreases |d.buffer|, Rank(d.phase)
  {
    if GoesOn(d, Step(c, d)) {
      StepDecreases(c, d);
      OverLimitMeansWrap(c, Step(c, d).d);
    }
  }
}
