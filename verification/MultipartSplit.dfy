/** How a run of the multipart splitter over pieces compares with one feed of all the bytes. */
module MultipartSplit {
  import opened Bytes
  import opened Multipart

  /** A step that does not wait for bytes does the same with more bytes at hand. */
  predicate Extends(s: Outcome, x: Outcome, t: string) {
    x == Outcome(Extend(s.d, t), s.r)
  }

  lemma StartsWithExtend(s: string, t: string, p: string)
    requires |p| <= |s|
    ensures StartsWith(s + t, p) == StartsWith(s, p)
  {
    assert (s + t)[..|p|] == s[..|p|];
  }

  lemma AfterDelimiterExtend(d: Splitter, rest: string, t: string)
    requires AfterDelimiter(d, rest).r != Error
    ensures Extends(AfterDelimiter(d, rest), AfterDelimiter(Extend(d, t), rest + t), t)
  {
    StartsWithExtend(rest, t, DASHES);
    StartsWithExtend(rest, t, CRLF);
    assert (rest + t)[2..] == rest[2..] + t;
  }

  lemma DropExtend(b: string, t: string, n: nat)
    requires n <= |b|
    ensures (b + t)[n..] == b[n..] + t
  {
  }

  lemma StepBoundaryExtend(c: Config, d: Splitter, t: string)
    requires Find(d.buffer, c.boundary) != -1 && StepBoundary(c, d).r != Error
    ensures Extends(StepBoundary(c, d), StepBoundary(c, Extend(d, t)), t)
  {
    hide AfterDelimiter;
    var after := Find(d.buffer, c.boundary) + |c.boundary|;
    BoundaryFound(c, Extend(d, t), d.buffer, t);
    AfterDelimiterExtend(d, d.buffer[after..], t);
  }

  lemma BoundaryFound(c: Config, e: Splitter, b: string, t: string)
    requires Find(b, c.boundary) != -1 && e.buffer == b + t
    ensures StepBoundary(c, e) == AfterDelimiter(e, b[Find(b, c.boundary) + |c.boundary|..] + t)
  {
    FindExtend(b, t, c.boundary);
    DropExtend(b, t, Find(b, c.boundary) + |c.boundary|);
  }

  lemma StepHeadersExtend(d: Splitter, t: string)
    requires Find(d.buffer, BLANK_LINE) != -1
    ensures Extends(StepHeaders(d), StepHeaders(Extend(d, t)), t)
  {
    var b := d.buffer;
    FindExtend(b, t, BLANK_LINE);
    var pos := Find(b, BLANK_LINE);
    assert (b + t)[..pos] == b[..pos] && (b + t)[pos + 4..] == b[pos + 4..] + t;
  }

  lemma StepBodyExtend(c: Config, d: Splitter, t: string)
    requires Find(d.buffer, c.boundary) != -1
    ensures Extends(StepBody(c, d), StepBody(c, Extend(d, t)), t)
  {
    var b := d.buffer;
    FindExtend(b, t, c.boundary);
    var pos := Find(b, c.boundary);
    assert (b + t)[pos..] == b[pos..] + t;
    if pos >= 2 {
      assert (b + t)[pos - 2..pos] == b[pos - 2..pos] && (b + t)[..pos - 2] == b[..pos - 2];
    }
  }

  /** A body without a delimiter: the step can only write what is safe. */
  predicate Flushing(c: Config, d: Splitter) {
    d.phase == PartBody && Find(d.buffer, c.boundary) == -1
  }

  lemma StepExtend(c: Config, d: Splitter, t: string)
    requires Valid(c, d) && !Flushing(c, d)
    requires Step(c, d) != Outcome(d, NeedMore) && Step(c, d).r != Error
    ensures Extends(Step(c, d), Step(c, Extend(d, t)), t)
  {
    match d.phase
    case ExpectBoundary => StepBoundaryExtend(c, d, t);
    case PartHeaders => StepHeadersExtend(d, t);
    case PartBody => StepBodyExtend(c, d, t);
    case Done =>
  }

  /** Equal outcomes; after ERROR the rest of the state does not matter. */
  predicate Same(x: Outcome, y: Outcome) {
    x.r == y.r && (x.r == Error || x.d == y.d)
  }

  /** The bytes kept back after a flush, and the body as written. */
  function Flushed(c: Config, d: Splitter): Splitter {
    var n := Safe(c, d.buffer);
    d.(buffer := d.buffer[n..], body := d.body + d.buffer[..n])
  }

  /**
   * The line break before the delimiter was lost: all but one byte of it was written to the
   * file before the delimiter was complete.
   */
  predicate BreakLost(c: Config, d: Splitter, t: string) {
    d.phase == PartBody && |d.buffer| == |c.boundary| && Find(d.buffer + t, c.boundary) == 1
  }

  lemma BreakLostFails(c: Config, d: Splitter, t: string)
    requires Valid(c, d) && BreakLost(c, d, t)
    ensures Loop(c, Extend(d, t)).r == Error
  {
  }

  lemma FlushLoop(c: Config, d: Splitter)
    requires Valid(c, d) && Flushing(c, d)
    ensures Valid(c, Flushed(c, d)) && Flushing(c, Flushed(c, d))
    ensures Loop(c, d) == Outcome(Flushed(c, d), NeedMore)
  {
    var k := Safe(c, d.buffer);
    FindDrop(d.buffer, c.boundary, k);
    var e := Flushed(c, d);
    assert Step(c, d) == Outcome(e, NeedMore);
    assert e.buffer[..0] == "" && e.body + "" == e.body && e.buffer[0..] == e.buffer;
    assert Step(c, e) == Outcome(e, NeedMore);
    if k == 0 {
      assert e.buffer == d.buffer;
    }
    LoopOfQuiet(c, e);
  }

  /** A delimiter that completes later cannot start before the bytes kept back. */
  lemma LaterBoundary(c: Config, d: Splitter, t: string)
    requires ValidConfig(c) && Flushing(c, d)
    requires Find(d.buffer + t, c.boundary) != -1
    ensures Find(d.buffer + t, c.boundary) > |d.buffer| - |c.boundary|
  {
    var pos := Find(d.buffer + t, c.boundary);
    if pos + |c.boundary| <= |d.buffer| {
      AtExtend(d.buffer, t, c.boundary, pos);
    }
  }

  lemma FlushThenExtend(c: Config, d: Splitter, t: string)
    requires Valid(c, d) && Flushing(c, d) && !BreakLost(c, Flushed(c, d), t)
    ensures Same(Loop(c, Extend(Flushed(c, d), t)), Loop(c, Extend(d, t)))
  {
    var k := Safe(c, d.buffer);
    var e := Flushed(c, d);
    var whole := d.buffer + t;
    assert e.buffer + t == whole[k..];
    if k == 0 {
      assert d.buffer[k..] == d.buffer && d.body + "" == d.body && e == d;
    } else {
      var pos := Find(whole, c.boundary);
      if pos != -1 {
        LaterBoundary(c, d, t);
      }
      FindDrop(whole, c.boundary, k);
      if pos == -1 {
        FlushTwice(c, d, t);
      } else {
        FoundAfterFlush(c, d, t, pos);
        BodyStepLoop(c, Extend(Flushed(c, d), t), Extend(d, t));
      }
    }
  }

  /** Taking `m` bytes at once, or `k` first and the others after. */
  lemma TakeInTwo(a: string, s: string, k: nat, m: nat)
    requires k <= m <= |s|
    ensures a + s[..k] + s[k..][..m - k] == a + s[..m]
    ensures s[k..][m - k..] == s[m..]
  {
    assert s[..m] == s[..k] + s[k..][..m - k];
  }

  lemma FlushTwice(c: Config, d: Splitter, t: string)
    requires Valid(c, d) && Flushing(c, d) && Flushing(c, Extend(d, t))
    requires Flushing(c, Extend(Flushed(c, d), t))
    ensures Loop(c, Extend(Flushed(c, d), t)) == Loop(c, Extend(d, t))
  {
    FlushLoop(c, Extend(d, t));
    FlushLoop(c, Extend(Flushed(c, d), t));
    FlushedTwice(c, d, t);
  }

  lemma FlushedTwice(c: Config, d: Splitter, t: string)
    ensures Flushed(c, Extend(Flushed(c, d), t)) == Flushed(c, Extend(d, t))
  {
    var k := Safe(c, d.buffer);
    var whole := d.buffer + t;
    assert d.buffer[k..] + t == whole[k..] && d.buffer[..k] == whole[..k];
    TakeInTwo(d.body, whole, k, Safe(c, whole));
  }

  lemma FoundAfterFlush(c: Config, d: Splitter, t: string, pos: int)
    requires Valid(c, d) && Flushing(c, d)
    requires Safe(c, d.buffer) + 2 <= pos <= |d.buffer + t|
    ensures Same(EndOfBody(Extend(Flushed(c, d), t), pos - Safe(c, d.buffer)), EndOfBody(Extend(d, t), pos))
  {
    var k := Safe(c, d.buffer);
    var whole := d.buffer + t;
    var e := Extend(Flushed(c, d), t);
    assert e.buffer == whole[k..] && e.body == d.body + whole[..k];
    BreakBeforeDrop(whole, k, pos);
    if BreakBefore(whole, pos) {
      TakeInTwo("", whole, k, pos);
      TakeInTwo(d.body, whole, k, pos - 2);
      assert Write(e, whole[k..][..pos - 2 - k], whole[pos..]) == Write(Extend(d, t), whole[..pos - 2], whole[pos..]);
    }
  }

  lemma BreakBeforeDrop(b: string, k: nat, pos: nat)
    requires k + 2 <= pos <= |b|
    ensures BreakBefore(b[k..], pos - k) == BreakBefore(b, pos)
  {
    assert b[k..][pos - k - 2..pos - k] == b[pos - 2..pos];
  }

  lemma BodyStepLoop(c: Config, d: Splitter, e: Splitter)
    requires Valid(c, d) && Valid(c, e) && d.phase == e.phase == PartBody
    requires Find(d.buffer, c.boundary) != -1 && Find(e.buffer, c.boundary) != -1
    requires Same(StepBody(c, d), StepBody(c, e))
    ensures Same(Loop(c, d), Loop(c, e))
  {
    BodyStepGoesOn(c, d);
    BodyStepGoesOn(c, e);
    hide StepBody;
  }

  lemma BodyStepGoesOn(c: Config, d: Splitter)
    requires Valid(c, d) && d.phase == PartBody && Find(d.buffer, c.boundary) != -1
    ensures StepBody(c, d).r == Error || GoesOn(d, StepBody(c, d))
  {
  }

  /**
   * Stopping after the bytes at hand and going on with `t` is the same as having `t` from the
   * start, unless a line break was lost, which is then an ERROR.
   */
  lemma {:induction false} LoopExtend(c: Config, d: Splitter, t: string)
    requires Valid(c, d) && Loop(c, d).r != Error
    ensures var s := Loop(c, d);
            || Same(Loop(c, Extend(s.d, t)), Loop(c, Extend(d, t)))
            || (BreakLost(c, s.d, t) && Loop(c, Extend(s.d, t)).r == Error)
    decreases |d.buffer|
  {
    if Flushing(c, d) {
      FlushLoop(c, d);
      if BreakLost(c, Flushed(c, d), t) {
        BreakLostFails(c, Flushed(c, d), t);
      } else {
        FlushThenExtend(c, d, t);
      }
    } else if Step(c, d) != Outcome(d, NeedMore) {
      StepExtend(c, d, t);
      hide StepBoundary, StepHeaders, StepBody;
      LoopExtendByStep(c, d, t);
      if GoesOn(d, Step(c, d)) {
        StepConsumes(c, d);
        LoopExtend(c, Step(c, d).d, t);
      }
    }
  }

  lemma LoopExtendByStep(c: Config, d: Splitter, t: string)
    requires Valid(c, d) && Step(c, d) != Outcome(d, NeedMore) && Step(c, d).r != Error
    requires Extends(Step(c, d), Step(c, Extend(d, t)), t)
    ensures Loop(c, Extend(d, t)) == Loop(c, Extend(Step(c, d).d, t))
  {
    StepMoves(c, d);
    if |Step(c, d).d.buffer + t| == 0 {
      LoopOfEmpty(c, Extend(Step(c, d).d, t));
    }
  }

  lemma StepMoves(c: Config, d: Splitter)
    requires Valid(c, d) && Step(c, d) != Outcome(d, NeedMore) && Step(c, d).r != Error
    ensures Step(c, d).r == NeedMore ==> Step(c, d).d.phase != d.phase || |Step(c, d).d.buffer| < |d.buffer|
    ensures Step(c, d).r == Complete ==> Step(c, d).d.phase == Done
  {
  }

  lemma LoopOfEmpty(c: Config, d: Splitter)
    requires Valid(c, d) && |d.buffer| == 0
    ensures Loop(c, d) == Outcome(d, if d.phase == Done then Complete else NeedMore)
  {
    assert Find(d.buffer, c.boundary) == -1 && Find(d.buffer, BLANK_LINE) == -1;
  }

  /**
   * Refinement of the split: for every byte stream, a run over pieces that ends without ERROR
   * ends in the state, with the bytes held back and with the parts of one feed of the whole.
   */
  lemma {:induction false} SplitRefinement(c: Config, d: Splitter, pieces: seq<string>)
    requires Quiet(c, d) && FeedAll(c, d, pieces).r != Error
    requires |pieces| > 0 || d.received <= c.maxBody
    ensures FeedAll(c, d, pieces) == Feed(c, d, Flatten(pieces))
    decreases |pieces|
  {
    hide Step, Loop;
    if |pieces| == 0 {
      assert Extend(d, "") == d;
      LoopOfQuiet(c, d);
    } else {
      var p, t := pieces[0], Flatten(pieces[1..]);
      var s := Feed(c, d, p);
      LoopIsQuiet(c, Extend(d, p));
      SplitRefinement(c, s.d, pieces[1..]);
      LoopExtend(c, Extend(d, p), t);
      ExtendTwice(d, p, t);
    }
  }

  lemma ExtendTwice(d: Splitter, p: string, t: string)
    ensures Extend(Extend(d, p), t) == Extend(d, p + t)
  {
    assert d.buffer + p + t == d.buffer + (p + t);
  }
}
