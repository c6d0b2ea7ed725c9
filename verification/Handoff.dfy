/** Where the headers of a received request end and its body begins (webserv/sources/request/request.cpp:206-252). */
module Handoff {
  import opened Bytes

  datatype RequestState = ParsingHeaders | ParsingBody | RequestComplete

  /** Everything behind the headers. */
  function Body(stream: string): string
    requires Contains(stream, BLANK_LINE)
  {
    stream[Find(stream, BLANK_LINE) + 4..]
  }

  /** How many bytes stand in front of the body. */
  function BodyStart(stream: string): (n: nat)
    requires Contains(stream, BLANK_LINE)
    ensures n + |Body(stream)| == |stream|
  {
    Find(stream, BLANK_LINE) + 4
  }

  /** The headers end with the first blank line, and what follows it is the body. */
  lemma BodyBehind(head: string, body: string)
    requires Find(head + "\r\n\r\n", "\r\n\r\n") == |head|
    ensures var stream := head + "\r\n\r\n" + body;
            Contains(stream, BLANK_LINE) && Body(stream) == body && BodyStart(stream) == |head| + 4
  {
    FindExtend(head + BLANK_LINE, body, BLANK_LINE);
  }

  /** Later bytes go to the body. */
  lemma BodyGrows(stream: string, block: string)
    requires Contains(stream, BLANK_LINE)
    ensures Contains(stream + block, BLANK_LINE) && Body(stream + block) == Body(stream) + block
    ensures BodyStart(stream + block) == BodyStart(stream)
  {
    FindExtend(stream, block, BLANK_LINE);
    var p := Find(stream, BLANK_LINE);
    assert (stream + block)[p + 4..] == stream[p + 4..] + block;
  }

  /** A prefix without a whole blank line ends before the body begins. */
  lemma BeforeBody(stream: string, block: string)
    requires !Contains(stream, BLANK_LINE) && Contains(stream + block, BLANK_LINE)
    ensures |stream| < BodyStart(stream + block)
  {
    var p := Find(stream + block, BLANK_LINE);
    if p + 4 <= |stream| {
      AtExtend(stream, block, BLANK_LINE, p);
    }
  }
}
