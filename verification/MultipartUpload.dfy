/**
 * From the socket to the multipart splitter: the first accepted multipart upload on a connection
 * (webserv/sources/request/request.cpp:206-272, 333-356). Unlike a chunked one it depends on how
 * the received blocks fall.
 */
module MultipartUpload {
  import opened Bytes
  import opened Multipart
  import opened MultipartSplit
  import opened MultipartMessage
  import opened Handoff

  /** Waiting for the end of the headers, feeding the splitter, or done with the request. */
  datatype Progress = Waiting(leftover: string) | Feeding(d: Splitter) | Finished(o: Outcome)

  function After(o: Outcome): Progress {
    if o.r == NeedMore then Feeding(o.d) else Finished(o)
  }

  /** One call of `requestHandler`; without bytes it does nothing, and blocks behind the end are another request's. */
  function Handle(c: Config, u: Progress, block: string): Progress
    requires ValidConfig(c) && (u.Feeding? ==> Valid(c, u.d))
  {
    if block == "" then u
    else
      match u
      case Waiting(leftover) =>
        var all := leftover + block;
        if Contains(all, BLANK_LINE) then After(Feed(c, INIT, Body(all))) else Waiting(all)
      case Feeding(d) => After(Feed(c, d, block))
      case Finished(_) => u
  }

  function HandleAll(c: Config, u: Progress, blocks: seq<string>): Progress
    requires ValidConfig(c) && (u.Feeding? ==> Valid(c, u.d))
    decreases |blocks|
  {
    if |blocks| == 0 then u else HandleAll(c, Handle(c, u, blocks[0]), blocks[1..])
  }

  // ---------------------------------------------------------------- behind the headers

  /** A splitter that is done stays so, and keeps its parts, as long as the size is not passed. */
  lemma {:induction false} DoneStays(c: Config, d: Splitter, pieces: seq<string>)
    requires Valid(c, d) && d.phase == Done && d.received + |Flatten(pieces)| <= c.maxBody
    ensures var o := FeedAll(c, d, pieces); o.r == Complete && o.d.closed == d.closed && o.d.fileOpen == d.fileOpen
    decreases |pieces|
  {
    if |pieces| > 0 {
      assert Feed(c, d, pieces[0]) == Outcome(Extend(d, pieces[0]), Complete);
      hide Feed;
      DoneStays(c, Extend(d, pieces[0]), pieces[1..]);
    }
  }

  lemma FeedNothing(c: Config, d: Splitter)
    requires Quiet(c, d) && d.received <= c.maxBody
    ensures Feed(c, d, "") == Outcome(d, if d.phase == Done then Complete else NeedMore)
  {
    Alone(d.buffer);
    assert Extend(d, "") == d;
    LoopOfQuiet(c, d);
  }

  /** What the handling of pieces of a body comes to, against feeding them all. */
  predicate ComesTo(u: Progress, o: Outcome) {
    match u
    case Waiting(_) => false
    case Feeding(d) => o == Outcome(d, NeedMore)
    case Finished(p) =>
      p.r == o.r && p.r != NeedMore && (p.r == Complete ==> p.d.closed == o.d.closed && p.d.fileOpen == o.d.fileOpen)
  }

  lemma {:induction false} FinishedStays(c: Config, u: Progress, blocks: seq<string>)
    requires ValidConfig(c) && u.Finished?
    ensures HandleAll(c, u, blocks) == u
    decreases |blocks|
  {
    if |blocks| > 0 {
      FinishedStays(c, u, blocks[1..]);
    }
  }

  lemma {:induction false} FeedingComesTo(c: Config, d: Splitter, blocks: seq<string>)
    requires Quiet(c, d) && d.phase != Done && d.received + |Flatten(blocks)| <= c.maxBody
    ensures ComesTo(HandleAll(c, Feeding(d), blocks), FeedAll(c, d, blocks))
    decreases |blocks|, 0
  {
    if |blocks| > 0 {
      FeedNothing(c, d);
      AfterFeedComesTo(c, d, blocks[0], blocks[1..]);
      assert [blocks[0]] + blocks[1..] == blocks;
    }
  }

  lemma {:induction false} AfterFeedComesTo(c: Config, d: Splitter, t: string, blocks: seq<string>)
    requires Quiet(c, d) && d.phase != Done && d.received + |t| + |Flatten(blocks)| <= c.maxBody
    ensures ComesTo(HandleAll(c, After(Feed(c, d, t)), blocks), FeedAll(c, d, [t] + blocks))
    decreases |blocks|, 1
  {
    hide Step, Loop;
    var s := Feed(c, d, t);
    assert ([t] + blocks)[1..] == blocks;
    if s.r != Error {
      LoopIsQuiet(c, Extend(d, t));
    }
    hide Feed, Quiet;
    if s.r == NeedMore {
      FeedingComesTo(c, s.d, blocks);
    } else {
      FinishedStays(c, Finished(s), blocks);
      if s.r == Complete {
        DoneStays(c, s.d, blocks);
      }
    }
  }

  // ---------------------------------------------------------------- in front of the body

  /** How many bytes the first `j` blocks have. */
  function End(blocks: seq<string>, j: nat): nat
    requires j <= |blocks|
  {
    |Flatten(blocks[..j])|
  }

  lemma EndStep(blocks: seq<string>, j: nat)
    requires 0 < j <= |blocks|
    ensures End(blocks, j) == |blocks[0]| + End(blocks[1..], j - 1)
  {
    assert blocks[..j][1..] == blocks[1..][..j - 1];
  }

  /** What the splitter is fed when the headers end in block `i`. */
  function BodyPieces(first: string, blocks: seq<string>, i: nat): seq<string>
    requires i < |blocks|
  {
    [first] + blocks[i + 1..]
  }

  /** The headers end in block `i`, and the bytes behind them and the later blocks are the pieces of the body. */
  predicate HeadersEnd(c: Config, l: string, blocks: seq<string>, first: string, i: nat)
    requires ValidConfig(c)
  {
    var stream := l + Flatten(blocks);
    && i < |blocks| && Contains(stream, BLANK_LINE)
    && Flatten(BodyPieces(first, blocks, i)) == Body(stream)
    && HandleAll(c, Waiting(l), blocks) == HandleAll(c, After(Feed(c, INIT, first)), blocks[i + 1..])
    && (forall j :: 0 <= j <= i ==> |l| + End(blocks, j) < BodyStart(stream))
    && (forall j :: i < j <= |blocks| ==> |l| + End(blocks, j) == BodyStart(stream) + |first| + End(blocks[i + 1..], j - i - 1))
  }

  lemma {:induction false} FindHeaders(c: Config, l: string, blocks: seq<string>) returns (first: string, i: nat)
    requires ValidConfig(c) && !Contains(l, BLANK_LINE) && Contains(l + Flatten(blocks), BLANK_LINE)
    ensures HeadersEnd(c, l, blocks, first, i)
    decreases |blocks|
  {
    if |blocks| == 0 {
      Alone(l);
      assert false;
    } else {
      var all, rest := l + blocks[0], blocks[1..];
      Assoc(l, blocks[0], Flatten(rest));
      Alone(l);
      if Contains(all, BLANK_LINE) {
        first, i := Body(all), 0;
        EndsHere(c, l, blocks);
      } else {
        first, i := FindHeaders(c, all, rest);
        EndsLater(c, l, blocks, first, i);
        i := i + 1;
      }
    }
  }

  lemma EndsHere(c: Config, l: string, blocks: seq<string>)
    requires ValidConfig(c) && !Contains(l, BLANK_LINE) && |blocks| > 0 && Contains(l + blocks[0], BLANK_LINE)
    ensures HeadersEnd(c, l, blocks, Body(l + blocks[0]), 0)
  {
    var all, rest := l + blocks[0], blocks[1..];
    Assoc(l, blocks[0], Flatten(rest));
    Alone(l);
    BodyGrows(all, Flatten(rest));
    BeforeBody(l, blocks[0]);
    assert BodyPieces(Body(all), blocks, 0)[1..] == rest;
    assert blocks[..0] == [];
    hide Contains, Body, BodyStart, Feed, HandleAll;
    forall j | 0 < j <= |blocks|
      ensures |l| + End(blocks, j) == BodyStart(all) + |Body(all)| + End(rest, j - 1)
    {
      EndStep(blocks, j);
    }
    assert HandleAll(c, Waiting(l), blocks) == HandleAll(c, Handle(c, Waiting(l), blocks[0]), rest) by {
      HandleStep(c, l, blocks);
    }
  }

  lemma HandleStep(c: Config, l: string, blocks: seq<string>)
    requires ValidConfig(c) && |blocks| > 0
    ensures HandleAll(c, Waiting(l), blocks) == HandleAll(c, Handle(c, Waiting(l), blocks[0]), blocks[1..])
  {
  }

  lemma EndsLater(c: Config, l: string, blocks: seq<string>, first: string, i: nat)
    requires ValidConfig(c) && |blocks| > 0 && !Contains(l, BLANK_LINE) && !Contains(l + blocks[0], BLANK_LINE)
    requires HeadersEnd(c, l + blocks[0], blocks[1..], first, i)
    ensures HeadersEnd(c, l, blocks, first, i + 1)
  {
    var all, rest := l + blocks[0], blocks[1..];
    Assoc(l, blocks[0], Flatten(rest));
    Alone(l);
    var stream := all + Flatten(rest);
    assert rest[i + 1..] == blocks[i + 2..];
    assert Handle(c, Waiting(l), blocks[0]) == Waiting(all);
    HandleStep(c, l, blocks);
    hide Contains, Body, BodyStart, Feed, HandleAll, Handle, Flatten;
    forall j | 0 < j <= |blocks| ensures |l| + End(blocks, j) == |all| + End(rest, j - 1) {
      EndStep(blocks, j);
    }
    NoBlocks(blocks);
    NoBlocks(rest);
  }

  lemma NoBlocks(blocks: seq<string>)
    ensures End(blocks, 0) == 0
  {
    assert blocks[..0] == [];
  }

  // ---------------------------------------------------------------- whole uploads

  /** The cuts of a run are its start and the ends of its pieces. */
  lemma {:induction false} CutsAreEnds(x: nat, pieces: seq<string>, k: nat)
    ensures k in Cuts(x, pieces) <==> exists j :: 0 <= j <= |pieces| && k == x + End(pieces, j)
    decreases |pieces|
  {
    NoBlocks(pieces);
    if |pieces| > 0 {
      var y, rest := x + |pieces[0]|, pieces[1..];
      CutsAreEnds(y, rest, k);
      forall j | 0 < j <= |pieces| ensures x + End(pieces, j) == y + End(rest, j - 1) {
        EndStep(pieces, j);
      }
      hide End;
      if j :| 0 <= j <= |rest| && k == y + End(rest, j) {
        assert k == x + End(pieces, j + 1);
      }
    }
  }

  /** Block `j` ends at a place of the body where the splitter does not survive a cut. */
  predicate EndsBadly(c: Config, parts: seq<Part>, blocks: seq<string>, start: nat, j: nat)
    requires j <= |blocks|
  {
    End(blocks, j) >= start && BadCut(c, parts, End(blocks, j) - start)
  }

  ghost predicate AnyEndsBadly(c: Config, parts: seq<Part>, blocks: seq<string>, start: nat) {
    exists j :: 0 <= j <= |blocks| && EndsBadly(c, parts, blocks, start, j)
  }

  /**
   * An upload of well-formed parts that is received in blocks, headers included, is over when the last
   * block is there. It fails exactly when some block ends badly, and otherwise gives exactly the parts.
   */
  lemma UploadInBlocks(c: Config, parts: seq<Part>, tail: string, blocks: seq<string>)
    requires WellFormed(c, parts) && Contains(Flatten(blocks), BLANK_LINE)
    requires Body(Flatten(blocks)) == Encode(c, parts, tail) && |Body(Flatten(blocks))| <= c.maxBody
    ensures var u := HandleAll(c, Waiting(""), blocks);
            && u.Finished? && (u.o.r == Error || u.o.r == Complete)
            && (u.o.r == Error <==> AnyEndsBadly(c, parts, blocks, BodyStart(Flatten(blocks))))
            && (u.o.r == Complete ==> u.o.d.closed == parts && !u.o.d.fileOpen)
  {
    var stream := Flatten(blocks);
    Alone(stream);
    assert !Contains("", BLANK_LINE);
    var first, i := FindHeaders(c, "", blocks);
    var pieces := BodyPieces(first, blocks, i);
    StartQuiet(c, "");
    assert pieces[0] == first && pieces[1..] == blocks[i + 1..];
    AfterFeedComesTo(c, INIT, first, blocks[i + 1..]);
    RunOverPieces(c, parts, tail, pieces);
    hide Contains, Body, BodyStart, Feed, FeedAll, HandleAll, Encode, WellFormed;
    BadEnds(c, parts, blocks, BodyStart(stream), first, i);
  }

  /** The bad cuts of the pieces are the bad ends of the blocks. */
  lemma BadEnds(c: Config, parts: seq<Part>, blocks: seq<string>, start: nat, first: string, i: nat)
    requires i < |blocks| && ValidConfig(c)
    requires forall j :: 0 <= j <= i ==> End(blocks, j) < start
    requires forall j :: i < j <= |blocks| ==> End(blocks, j) == start + |first| + End(blocks[i + 1..], j - i - 1)
    ensures (exists k :: k in Cuts(0, BodyPieces(first, blocks, i)) && BadCut(c, parts, k))
            <==> AnyEndsBadly(c, parts, blocks, start)
  {
    var pieces := BodyPieces(first, blocks, i);
    NoCutBeforeDelimiter(c, parts, 0);
    NoBlocks(pieces);
    assert pieces[1..] == blocks[i + 1..];
    forall j | 0 < j <= |pieces| ensures End(pieces, j) == |first| + End(blocks[i + 1..], j - 1) {
      EndStep(pieces, j);
    }
    hide BadCut, End, Cuts;
    if k :| k in Cuts(0, pieces) && BadCut(c, parts, k) {
      CutsAreEnds(0, pieces, k);
      var j :| 0 <= j <= |pieces| && k == 0 + End(pieces, j);
      assert EndsBadly(c, parts, blocks, start, i + j);
    }
    if j :| 0 <= j <= |blocks| && EndsBadly(c, parts, blocks, start, j) {
      var k := End(blocks, j) - start;
      CutsAreEnds(0, pieces, k);
      assert k == 0 + End(pieces, j - i);
    }
  }
}
