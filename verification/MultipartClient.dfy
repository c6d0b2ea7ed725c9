/** `requestHandler` for a multipart upload, on the fields of the client and the parser object it owns. */
module MultipartHandling {
  import opened Bytes
  import opened Multipart
  import opened MultipartMessage
  import opened Handoff
  import opened MultipartUpload
  import opened MultipartStream

  class MultipartClient {
    var leftover: string
    var state: RequestState
    const parser: MultipartParser
    const contentType: string
    const expectedLength: nat   // Content-Length
    ghost var progress: Progress
    ghost var received: string  // every block so far

    predicate HasBoundary() {
      Find(contentType, "boundary=") != -1
    }

    function Cfg(): Config
      requires HasBoundary()
    {
      Config(DelimiterOf(contentType), expectedLength)
    }

    ghost predicate Valid()
      reads this, parser
    {
      && parser.Valid()
      && match state
         case ParsingHeaders =>
           && progress == Waiting(leftover) && leftover == received && !Contains(received, BLANK_LINE)
           && !parser.active && !parser.error
         case ParsingBody =>
           && HasBoundary() && parser.active && !parser.error && parser.Cfg() == Cfg()
           && progress == Feeding(parser.State()) && leftover == "" && Contains(received, BLANK_LINE)
         case RequestComplete =>
           && Contains(received, BLANK_LINE)
           && if HasBoundary()
              then progress.Finished? && progress.o.d == parser.State() && (progress.o.r == Error <==> parser.error)
              else parser.error
    }

    constructor (contentType: string, expectedLength: nat)
      ensures Valid() && state == ParsingHeaders && received == "" && progress == Waiting("")
      ensures this.contentType == contentType && this.expectedLength == expectedLength && fresh(parser)
    {
      leftover, state, progress, received := "", ParsingHeaders, Waiting(""), "";
      this.contentType, this.expectedLength := contentType, expectedLength;
      parser := new MultipartParser();
      new;
      assert Find("", BLANK_LINE) == -1;
    }

    /** One received block. Without a boundary the request is refused as soon as its headers are there. */
    method RequestHandler(block: string)
      requires Valid() && state != RequestComplete
      modifies this, parser
      ensures Valid() && received == old(received) + block
      ensures HasBoundary() ==> ValidConfig(Cfg()) && progress == Handle(Cfg(), old(progress), block)
      ensures !HasBoundary() ==> (state == RequestComplete <==> Contains(received, BLANK_LINE))
    {
      hide Multipart.Feed, Quiet, Find, Body;
      BoundaryIsOne(contentType, expectedLength);
      Alone(received);
      if block == "" {
        return;
      }
      leftover := leftover + block;
      if state == ParsingHeaders {
        received := received + block;
        var headersEndPos := Find(leftover, BLANK_LINE);
        if headersEndPos == -1 {
          progress := Waiting(leftover);
          return;
        }
        BodyIs(leftover);
        leftover := leftover[headersEndPos + 4..];
        state := ParsingBody;
      } else {
        BodyGrows(received, block);
        Alone(block);
        received := received + block;
      }
      if !parser.active {
        parser.Init(contentType, expectedLength);
        if parser.error {
          state := RequestComplete;
          return;
        }
      }
      var res := FeedLeftover();
    }

    /** The parser takes what is left over. */
    method FeedLeftover() returns (res: Result)
      requires state == ParsingBody && HasBoundary() && parser.Valid() && parser.active && !parser.error
      requires parser.Cfg() == Cfg() && Contains(received, BLANK_LINE)
      modifies `leftover, `state, `progress, parser
      ensures Valid() && state == if res == NeedMore then ParsingBody else RequestComplete
      ensures Multipart.Valid(Cfg(), old(parser.State()))
      ensures Outcome(parser.State(), res) == Multipart.Feed(Cfg(), old(parser.State()), old(leftover))
      ensures progress == After(Outcome(parser.State(), res))
    {
      res := parser.Feed(leftover);
      progress := After(Outcome(parser.State(), res));
      leftover := "";
      if res != NeedMore {
        state := RequestComplete;
      }
    }
  }

  lemma BodyIs(stream: string)
    requires Find(stream, BLANK_LINE) != -1
    ensures Contains(stream, BLANK_LINE) && Body(stream) == stream[Find(stream, BLANK_LINE) + 4..]
  {
  }

  lemma BoundaryIsOne(contentType: string, expectedLength: nat)
    ensures Find(contentType, "boundary=") != -1 ==> ValidConfig(Config(DelimiterOf(contentType), expectedLength))
  {
    if Find(contentType, "boundary=") != -1 {
      assert DelimiterOf(contentType)[..2] == DASHES;
    }
  }

  /** Any blocks, one after the other: the client ends in the progress of the blocks, and its parser in that state. */
  method Receive(contentType: string, expectedLength: nat, blocks: seq<string>) returns (client: MultipartClient)
    requires Find(contentType, "boundary=") != -1
    ensures client.Valid() && client.HasBoundary() && ValidConfig(client.Cfg())
    ensures client.Cfg() == Config(DelimiterOf(contentType), expectedLength)
    ensures client.progress == HandleAll(client.Cfg(), Waiting(""), blocks)
    ensures client.progress.Finished? ==> client.state == RequestComplete && client.parser.State() == client.progress.o.d
  {
    client := new MultipartClient(contentType, expectedLength);
    BoundaryIsOne(contentType, expectedLength);
    hide Handle;
    assert blocks[0..] == blocks;
    for i := 0 to |blocks|
      invariant fresh(client) && fresh(client.parser) && client.Valid()
      invariant client.contentType == contentType && client.expectedLength == expectedLength
      invariant HandleAll(client.Cfg(), client.progress, blocks[i..]) == HandleAll(client.Cfg(), Waiting(""), blocks)
    {
      assert blocks[i..][1..] == blocks[i + 1..] && blocks[i..][0] == blocks[i];
      if client.state == RequestComplete {
        FinishedStays(client.Cfg(), client.progress, blocks[i..]);
        FinishedStays(client.Cfg(), client.progress, blocks[i + 1..]);
      } else {
        client.RequestHandler(blocks[i]);
      }
    }
  }

  /**
   * A form from the socket to its parts: with the boundary of its Content-Type, the headers and the
   * encoded parts in any blocks, the request is over with the last block. It fails exactly when
   * some block ends badly, and otherwise the parser has exactly the parts.
   */
  method ReceiveForm(front: string, boundary: string, expectedLength: nat, blocks: seq<string>,
                     ghost head: string, ghost parts: seq<Part>, ghost tail: string) returns (client: MultipartClient)
    requires Find(front + "boundary=" + boundary, "boundary=") == |front|
    requires Find(head + "\r\n\r\n", "\r\n\r\n") == |head|
    requires var c := Config("--" + boundary, expectedLength);
             && WellFormed(c, parts) && Flatten(blocks) == head + "\r\n\r\n" + Encode(c, parts, tail)
             && |Encode(c, parts, tail)| <= expectedLength
    ensures client.Valid() && client.state == RequestComplete
    ensures client.parser.error <==> AnyEndsBadly(Config("--" + boundary, expectedLength), parts, blocks, |head| + 4)
    ensures !client.parser.error ==> client.parser.closed == parts && client.parser.curFd == -1
  {
    var contentType := front + "boundary=" + boundary;
    DelimiterIs(front, boundary);
    ghost var c := Config("--" + boundary, expectedLength);
    BodyBehind(head, Encode(c, parts, tail));
    UploadInBlocks(c, parts, tail, blocks);
    hide HandleAll, Encode, WellFormed, AnyEndsBadly, Contains, Body, BodyStart, Find, DelimiterOf;
    client := Receive(contentType, expectedLength, blocks);
  }
}
