/**
 * From the socket to the decoder: the first accepted chunked upload on a connection
 * (webserv/sources/request/request.cpp:206-272, 357-388). However the received blocks fall, the
 * decoder gets exactly the bytes behind the headers.
 */
module Upload {
  import opened Bytes
  import opened Chunked
  import opened ChunkedSplit
  import opened ChunkedRoundTrip
  import opened ChunkedOverrun
  import opened ChunkedVerdict
  import opened Handoff

  /** Waiting for the end of the headers, feeding the decoder, or done with the request. */
  datatype Progress = Waiting(leftover: string) | Feeding(d: Decoder) | Finished(o: Outcome)

  function After(o: Outcome): Progress {
    if o.r == NeedMore then Feeding(o.d) else Finished(o)
  }

  /** One call of `requestHandler` with one received block; blocks behind the end are another request's. */
  function Handle(c: Config, u: Progress, block: string): Progress
    requires c.maxBody < SIZE_LIMIT && (u.Feeding? ==> Valid(c, u.d))
  {
    match u
    case Waiting(leftover) =>
      var all := leftover + block;
      var p := Find(all, BLANK_LINE);
      if p == -1 then Waiting(all) else After(Feed(c, INIT, all[p + 4..]))
    case Feeding(d) => After(Feed(c, d, block))
    case Finished(_) => u
  }

  function HandleAll(c: Config, blocks: seq<string>): (u: Progress)
    requires c.maxBody < SIZE_LIMIT
    ensures u.Feeding? ==> Valid(c, u.d)
    ensures u.Finished? ==> Counted(c, u.o.d)
  {
    if |blocks| == 0 then Waiting("") else Handle(c, HandleAll(c, blocks[..|blocks| - 1]), blocks[|blocks| - 1])
  }

  // ---------------------------------------------------------------- the blocks do not matter

  /** Progress after a stream that came in blocks, against one feed of its body. */
  ghost predicate Agrees(c: Config, u: Progress, stream: string)
    requires c.maxBody < SIZE_LIMIT
  {
    if !Contains(stream, BLANK_LINE) then u == Waiting(stream)
    else
      var whole := Feed(c, INIT, Body(stream));
      match u
      case Waiting(_) => false
      case Feeding(d) => whole == Outcome(d, NeedMore)
      case Finished(o) =>
        if o.r == Complete then DoneBy(o.d, whole)
        else o.r.Failing() && SplitAgrees(c, o, whole)
  }

  /** What was complete stays so; bytes that came later are in the buffer. */
  ghost predicate DoneBy(d: Decoder, whole: Outcome) {
    d.phase == Done && whole.r == Complete && exists rest :: whole.d == Extend(d, rest)
  }

  lemma DoneFeed(c: Config, d: Decoder, t: string)
    requires Valid(c, d) && d.phase == Done
    ensures Feed(c, d, t) == Outcome(Extend(d, t), Complete)
  {
  }

  lemma AgreementExtends(c: Config, split: Outcome, whole: Outcome, longer: Outcome)
    requires SplitAgrees(c, split, whole) && SplitAgrees(c, whole, longer) && whole.r.Failing()
    ensures SplitAgrees(c, split, longer)
  {
  }

  /** One more block keeps the agreement. */
  lemma HandleAgrees(c: Config, u: Progress, stream: string, block: string)
    requires c.maxBody < SIZE_LIMIT && (u.Feeding? ==> Valid(c, u.d)) && Agrees(c, u, stream)
    ensures Agrees(c, Handle(c, u, block), stream + block)
  {
    if Contains(stream, BLANK_LINE) {
      BodyGrows(stream, block);
      var body := Body(stream);
      var whole := Feed(c, INIT, body);
      ExtendTwice(INIT, body, block);
      StartIsQuiet(c);
      FeedExtend(c, INIT, body, block);
      var longer := Feed(c, INIT, body + block);
      hide Loop, Body, Contains;
      match u
      case Feeding(d) =>
        FeedingAgrees(c, d, block, longer, stream + block);
      case Finished(o) =>
        if o.r == Complete {
          var rest :| whole.d == Extend(o.d, rest);
          DoneFeed(c, whole.d, block);
          ExtendTwice(o.d, rest, block);
        } else {
          AgreementExtends(c, o, whole, longer);
        }
    } else {
      FreshBody(c, stream, block);
    }
  }

  lemma FeedingAgrees(c: Config, d: Decoder, block: string, longer: Outcome, stream: string)
    requires c.maxBody < SIZE_LIMIT && Valid(c, d) && Contains(stream, BLANK_LINE)
    requires longer == Feed(c, INIT, Body(stream)) && Same(Feed(c, d, block), longer)
    ensures Agrees(c, After(Feed(c, d, block)), stream)
  {
    OutcomeAgrees(c, Feed(c, d, block), longer, stream);
    var o := Feed(c, d, block);
    if o.r == Complete {
      LoopIsDone(c, Extend(d, block));
    }
  }

  lemma LoopIsDone(c: Config, d: Decoder)
    requires Valid(c, d) && Loop(c, d).r == Complete
    ensures Loop(c, d).d.phase == Done
  {
    LoopIsQuiet(c, d);
  }

  lemma OutcomeAgrees(c: Config, o: Outcome, longer: Outcome, stream: string)
    requires Same(o, longer)
    ensures o.r == Complete ==> longer.d == Extend(o.d, "")
    ensures o.r == NeedMore ==> longer == o
    ensures o.r.Failing() ==> SplitAgrees(c, o, longer)
  {
    assert o.d.buffer + "" == o.d.buffer;
  }

  /** The block that brings the end of the headers brings the first bytes of the body too. */
  lemma FreshBody(c: Config, stream: string, block: string)
    requires c.maxBody < SIZE_LIMIT && !Contains(stream, BLANK_LINE)
    ensures Agrees(c, Handle(c, Waiting(stream), block), stream + block)
  {
    var all := stream + block;
    if Contains(all, BLANK_LINE) {
      StartIsQuiet(c);
      var o := Feed(c, INIT, Body(all));
      if o.r == Complete {
        LoopIsDone(c, Extend(INIT, Body(all)));
      }
      hide Loop;
      OutcomeAgrees(c, o, o, all);
    }
  }

  /** For every way the stream is received. */
  lemma {:induction false} ReceivedInBlocks(c: Config, blocks: seq<string>)
    requires c.maxBody < SIZE_LIMIT
    ensures Agrees(c, HandleAll(c, blocks), Flatten(blocks))
    decreases |blocks|
  {
    if |blocks| > 0 {
      FlattenLast(blocks);
      ReceivedInBlocks(c, blocks[..|blocks| - 1]);
      hide Handle, Agrees;
      HandleAgrees(c, HandleAll(c, blocks[..|blocks| - 1]), Flatten(blocks[..|blocks| - 1]), blocks[|blocks| - 1]);
    } else {
      assert !Contains("", BLANK_LINE);
    }
  }

  /**
   * Two connections that receive the same stream, in different blocks, come to the same result; the
   * stored file is the same, unless the body is complete chunks, a size line that wraps around, and
   * enough bytes behind it.
   */
  lemma BlocksDoNotMatter(c: Config, a: seq<string>, b: seq<string>)
    requires c.maxBody < SIZE_LIMIT && Flatten(a) == Flatten(b)
    ensures var u, v := HandleAll(c, a), HandleAll(c, b);
            && (u.Waiting? ==> u == v)
            && (u.Feeding? ==> u == v)
            && (u.Finished? ==> v.Finished? && v.o.r == u.o.r)
            && (u.Finished? && Contains(Flatten(a), BLANK_LINE) && !OverrunStream(c, 0, Body(Flatten(a)), 1) ==>
                  v.o.d.output == u.o.d.output)
  {
    ReceivedInBlocks(c, a);
    ReceivedInBlocks(c, b);
    hide HandleAll, Flatten, OverrunStream;
    if Contains(Flatten(a), BLANK_LINE) {
      FedFromStart(c, Body(Flatten(a)), 1);
    }
    AgreeAlike(c, HandleAll(c, a), HandleAll(c, b), Flatten(a));
  }

  lemma AgreeAlike(c: Config, u: Progress, v: Progress, stream: string)
    requires c.maxBody < SIZE_LIMIT && Agrees(c, u, stream) && Agrees(c, v, stream)
    requires (u.Finished? ==> Counted(c, u.o.d)) && (v.Finished? ==> Counted(c, v.o.d))
    ensures (u.Waiting? ==> u == v) && (u.Feeding? ==> u == v) && (u.Finished? ==> v.Finished? && v.o.r == u.o.r)
    ensures u.Finished? && Contains(stream, BLANK_LINE) && !Overran(c, Feed(c, INIT, Body(stream))) ==>
              v.o.d.output == u.o.d.output
  {
    hide Loop, Body, Contains;
    if Contains(stream, BLANK_LINE) {
      var whole := Feed(c, INIT, Body(stream));
      hide Feed, Overran;
      if u.Finished? && v.Finished? && !Overran(c, whole) {
        FinishedOutput(c, u.o, whole);
        FinishedOutput(c, v.o, whole);
      }
    }
  }

  lemma FinishedOutput(c: Config, o: Outcome, whole: Outcome)
    requires if o.r == Complete then DoneBy(o.d, whole) else o.r.Failing() && SplitAgrees(c, o, whole)
    requires !Overran(c, whole) && Counted(c, o.d) && Counted(c, whole.d)
    ensures o.d.output == whole.d.output
  {
    if o.r != Complete {
      SameOutput(c, o, whole);
    }
  }

  // ---------------------------------------------------------------- whole uploads

  /** A chunked upload in blocks, headers included, ends as its body does when it is taken as one piece. */
  lemma UploadResult(c: Config, head: string, body: string, blocks: seq<string>, r: Result)
    requires c.maxBody < SIZE_LIMIT && c.outputFd != -1 && r != NeedMore
    requires Find(head + "\r\n\r\n", "\r\n\r\n") == |head| && Flatten(blocks) == head + "\r\n\r\n" + body
    ensures HandleAll(c, blocks).Finished? && HandleAll(c, blocks).o.r == r <==> Ends(c, body, r)
  {
    BodyBehind(head, body);
    ReceivedInBlocks(c, blocks);
    OnePiece(body);
    ResultIff(c, [body], r);
    FedOnce(c, body);
    hide HandleAll, Feed, FeedAll, Ends, Contains, Body;
  }

  lemma OnePiece(body: string)
    ensures Flatten([body]) == body
  {
    Alone(body);
    assert [body][1..] == [] && Flatten([]) == "";
  }

  lemma FedOnce(c: Config, body: string)
    requires c.maxBody < SIZE_LIMIT
    ensures FeedAll(c, INIT, [body]).r == Feed(c, INIT, body).r
  {
    StartIsQuiet(c);
    var s := Feed(c, INIT, body);
    assert [body][1..] == [];
    if !s.r.Failing() {
      LoopIsQuiet(c, Extend(INIT, body));
    }
    hide Loop, Step;
  }

  /** The encoding of chunks within the limit is complete behind its headers, and the file is their concatenation. */
  lemma UploadChunks(c: Config, head: string, chunks: seq<string>, tail: string, blocks: seq<string>)
    requires c.maxBody < SIZE_LIMIT && c.outputFd != -1
    requires forall i :: 0 <= i < |chunks| ==> |chunks[i]| > 0
    requires |Flatten(chunks)| <= c.maxBody && Find(head + "\r\n\r\n", "\r\n\r\n") == |head|
    requires Flatten(blocks) == head + "\r\n\r\n" + (Encode(chunks) + tail)
    ensures var u := HandleAll(c, blocks); u.Finished? && u.o.r == Complete && u.o.d.output == Flatten(chunks)
  {
    var body := Encode(chunks) + tail;
    BodyBehind(head, body);
    ReceivedInBlocks(c, blocks);
    StartIsQuiet(c);
    Alone(body);
    DecodeEncoded(c, Extend(INIT, body), chunks, tail);
    Alone(Flatten(chunks));
    hide HandleAll, Loop, Encode, Contains, Body, Flatten;
    var o := Feed(c, INIT, body);
    assert o == Outcome(Decoder(Done, tail, 0, 0, |Flatten(chunks)|, AfterWrite(c.outputFd, "", Flatten(chunks))), Complete);
  }
}
