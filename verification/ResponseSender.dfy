/** `sendResponse` and the partial sends of the main loop, on the fields they change. */
module ResponseSender {
  import opened Ranges
  import opened Streaming
  import Bytes
  import Os

  class Sender {
    const response: Response
    var status: Status
    var buff: string
    var offset: nat
    var bytesSent: nat
    var stream: bool
    var closing: bool

    constructor (response: Response, closing: bool)
      ensures this.response == response && State() == Initial(response, closing)
    {
      this.response := response;
      status, buff, offset, bytesSent, stream := StartSend, "", 0, 0, response.stream;
      this.closing := closing;
    }

    function State(): Sending
      reads this
    {
      Sending(status, buff, offset, bytesSent, stream, closing)
    }

    /** Prepares the buffer; the next `read` gives `n` bytes, or as many as there are. */
    method SendResponse(n: Positive)
      modifies this
      ensures State() == Prepare(response, old(State()), n)
    {
      hide RangeOf;
      if status == StartSend {
        buff := response.text;
        status := Writing;
        if response.media && response.range == NoRange {
          status := WritingDone;
          closing := true;
          return;
        }
      }
      if stream {
        if bytesSent == 0 && response.range != NoRange {
          var r := ParseRangeHeader(response.range.header, |response.file|);
          if r.valid {
            buff := response.rangeText;
            offset := if r.start < 0 then 0 else r.start;
          } else {
            stream := false;
            buff := response.errorText;
            status := WritingDone;
            return;
          }
        }
        ReadChunk(n);
        return;
      }
      if response.hasBody && |buff| == 0 {
        buff := response.text;
        status := WritingDone;
      }
      if |buff| == 0 {
        status := WritingDone;
      }
    }

    method ReadChunk(n: Positive)
      modifies this
      ensures State() == Fill(response, old(State()), n)
    {
      if |buff| >= CHUNK_SIZE {
        return;
      }
      var toRead := CHUNK_SIZE;
      if |response.file| - offset < CHUNK_SIZE {
        toRead := if |response.file| < offset then 0 else |response.file| - offset;
      }
      var bytesRead := Bytes.Min(n, toRead);
      if bytesRead == 0 {
        status := WritingDone;
        return;
      }
      buff := buff + response.file[offset..offset + bytesRead];
      offset := offset + bytesRead;
      bytesSent := bytesSent + bytesRead;
    }

    /** One turn of the main loop for this client: what it puts on the wire, and whether the response is over. */
    method OneTurn(n: Positive, k: Positive) returns (sent: string, over: bool)
      modifies this
      ensures After(State(), sent, over) == Turn(response, old(State()), n, k)
    {
      SendResponse(n);
      var byte := Bytes.Min(k, |buff|);
      sent := buff[..byte];
      over := status == WritingDone || |buff| == 0;
      buff := buff[byte..];
    }

    /** Turns until the response is over: all of it went out, or all but what was left in the buffer. */
    method Run(turns: nat) returns (wire: string, over: bool)
      requires Sane(response) && State() == Initial(response, closing)
      modifies this
      ensures wire <= Outgoing(response)
      ensures over ==> wire + buff == Outgoing(response)
      ensures turns > |Outgoing(response)| ==> over
    {
      wire, over := "", false;
      hide Prepare, Outgoing, MaxBuffer;
      Begins(response, closing);
      for i := 0 to turns
        invariant Between(response, State(), wire) && i <= |wire|
      {
        var n := Os.AnyInt();
        var k := Os.AnyInt();
        var read, send := (if n <= 0 then 1 else n), (if k <= 0 then 1 else k);
        TurnKeeps(response, State(), read, send, wire);
        var sent, done := OneTurn(read, send);
        hide Turn;
        wire := wire + sent;
        if done {
          return wire, true;
        }
      }
      NothingSent(response, State(), wire);
    }
  }

  lemma Begins(r: Response, closing: bool)
    ensures Between(r, Initial(r, closing), "")
  {
  }
}
