/** `requestHandler` for a chunked upload, on the fields of the client and the parser object it owns. */
module UploadHandling {
  import opened Bytes
  import opened Chunked
  import opened Handoff
  import opened Upload
  import ChunkedStream
  import ChunkedRoundTrip

  class UploadClient {
    var leftover: string
    var state: RequestState
    const parser: ChunkedStream.ChunkedParser
    const outputFd: int       // the opened upload file
    const maxBodySize: nat
    ghost var progress: Progress
    ghost var received: string  // every block so far
    ghost var fed: string       // every byte given to the parser

    ghost predicate Valid()
      reads this, parser
    {
      && maxBodySize < SIZE_LIMIT && parser.Valid()
      && match state
         case ParsingHeaders =>
           && progress == Waiting(leftover) && leftover == received && !Contains(received, BLANK_LINE)
           && !parser.active && !parser.error && fed == ""
         case ParsingBody =>
           && parser.active && !parser.error && parser.Cfg() == Config(outputFd, maxBodySize)
           && progress == Feeding(parser.State()) && leftover == ""
           && Contains(received, BLANK_LINE) && fed == Body(received)
         case RequestComplete =>
           && progress.Finished? && Contains(received, BLANK_LINE) && fed == Body(received)
           && progress.o.d == parser.State() && (progress.o.r.Failing() <==> parser.error)
    }

    constructor (outputFd: int, maxBodySize: nat)
      requires maxBodySize < SIZE_LIMIT
      ensures Valid() && state == ParsingHeaders && received == "" && progress == Waiting("")
      ensures this.outputFd == outputFd && this.maxBodySize == maxBodySize && fresh(parser)
    {
      leftover, state, progress, received, fed := "", ParsingHeaders, Waiting(""), "", "";
      this.outputFd, this.maxBodySize := outputFd, maxBodySize;
      parser := new ChunkedStream.ChunkedParser();
      new;
      assert Find("", BLANK_LINE) == -1;
    }

    /** One received block: up to the result, the parser is fed exactly what follows the headers. */
    method RequestHandler(block: string)
      requires Valid() && state != RequestComplete
      modifies this, parser
      ensures Valid() && received == old(received) + block
      ensures progress == Handle(Config(outputFd, maxBodySize), old(progress), block)
    {
      hide Chunked.Feed, Quiet, Find, Body;
      leftover := leftover + block;
      if state == ParsingHeaders {
        received := received + block;
        var headersEndPos := Find(leftover, BLANK_LINE);
        if headersEndPos == -1 {
          progress := Waiting(leftover);
          return;
        }
        BodyIs(leftover);
        leftover := leftover[headersEndPos + 4..];
        parser.Init(outputFd, maxBodySize);
        state := ParsingBody;
      } else {
        BodyGrows(received, block);
        NothingBefore(leftover, block);
        received := received + block;
      }
      var res := FeedLeftover();
    }

    /** The state of `PARSING_BODY`: the parser takes what is left over. */
    method FeedLeftover() returns (res: Result)
      requires state == ParsingBody && maxBodySize < SIZE_LIMIT && parser.Valid() && parser.active && !parser.error
      requires parser.Cfg() == Config(outputFd, maxBodySize)
      requires Contains(received, BLANK_LINE) && fed + leftover == Body(received)
      modifies `leftover, `state, `progress, `fed, parser
      ensures Valid() && progress == After(Chunked.Feed(Config(outputFd, maxBodySize), old(parser.State()), old(leftover)))
      ensures Outcome(parser.State(), res) == Chunked.Feed(Config(outputFd, maxBodySize), old(parser.State()), old(leftover))
      ensures state == if res == NeedMore then ParsingBody else RequestComplete
    {
      ghost var d := parser.State();
      res := parser.Feed(leftover);
      progress := After(Chunked.Feed(Config(outputFd, maxBodySize), d, leftover));
      fed := fed + leftover;
      leftover := "";
      if res != NeedMore {
        state := RequestComplete;
      }
    }
  }

  lemma BodyIs(stream: string)
    requires Find(stream, BLANK_LINE) != -1
    ensures Contains(stream, BLANK_LINE) && Body(stream) == stream[Find(stream, BLANK_LINE) + 4..]
    ensures "" + Body(stream) == Body(stream)
  {
  }

  lemma NothingBefore(leftover: string, block: string)
    ensures leftover == block ==> "" + block == leftover
    ensures "" + block == block
  {
  }

  /** Any blocks, one after the other: the parser got the body of the stream, and the progress is that of the blocks. */
  method Receive(outputFd: int, maxBodySize: nat, blocks: seq<string>) returns (client: UploadClient)
    requires maxBodySize < SIZE_LIMIT
    ensures client.Valid() && client.progress == HandleAll(Config(outputFd, maxBodySize), blocks)
    ensures client.progress.Finished? ==> client.state == RequestComplete && client.parser.State() == client.progress.o.d
  {
    client := new UploadClient(outputFd, maxBodySize);
    hide Handle;
    for i := 0 to |blocks|
      invariant fresh(client) && fresh(client.parser) && client.Valid()
      invariant client.outputFd == outputFd && client.maxBodySize == maxBodySize
      invariant client.progress == HandleAll(Config(outputFd, maxBodySize), blocks[..i])
    {
      assert blocks[..i + 1][..i] == blocks[..i];
      if client.state == RequestComplete {
        FinishedStays(Config(outputFd, maxBodySize), client.progress, blocks[i]);
      } else {
        client.RequestHandler(blocks[i]);
      }
    }
    assert blocks[..|blocks|] == blocks;
  }

  /** A chunked upload from the socket to its file: any blocks of the headers and the encoded chunks give the chunks. */
  method ReceiveChunks(outputFd: int, maxBodySize: nat, blocks: seq<string>,
                       ghost head: string, ghost chunks: seq<string>, ghost tail: string) returns (client: UploadClient)
    requires maxBodySize < SIZE_LIMIT && outputFd != -1
    requires forall i :: 0 <= i < |chunks| ==> |chunks[i]| > 0
    requires |Flatten(chunks)| <= maxBodySize && Find(head + "\r\n\r\n", "\r\n\r\n") == |head|
    requires Flatten(blocks) == head + "\r\n\r\n" + (ChunkedRoundTrip.Encode(chunks) + tail)
    ensures client.Valid() && client.state == RequestComplete && !client.parser.error
    ensures client.parser.output == Flatten(chunks)
  {
    UploadChunks(Config(outputFd, maxBodySize), head, chunks, tail, blocks);
    hide HandleAll, Flatten, Find;
    client := Receive(outputFd, maxBodySize, blocks);
  }

  lemma FinishedStays(c: Config, u: Progress, block: string)
    requires c.maxBody < SIZE_LIMIT && u.Finished?
    ensures Handle(c, u, block) == u
  {
  }
}
