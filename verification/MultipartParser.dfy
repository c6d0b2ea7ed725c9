/**
 * The parser object of webserv/sources/request/multipartParser.cpp: its fields, its methods and
 * its loop, proved to compute the functions of module `Multipart`.
 */
module MultipartStream {
  import opened Bytes
  import opened Multipart

  /** The delimiter a Content-Type announces. */
  function DelimiterOf(contentTypeHeader: string): string
    requires Find(contentTypeHeader, "boundary=") != -1
  {
    DASHES + contentTypeHeader[Find(contentTypeHeader, "boundary=") + 9..]
  }

  /** It is two dashes and what follows the first `boundary=`. */
  lemma DelimiterIs(front: string, boundary: string)
    requires Find(front + "boundary=" + boundary, "boundary=") == |front|
    ensures DelimiterOf(front + "boundary=" + boundary) == "--" + boundary
  {
    var header := front + "boundary=" + boundary;
    assert header[|front| + 9..] == boundary;
  }

  lemma EmptyIsQuiet(c: Config, d: Splitter, contentTypeHeader: string)
    requires Find(contentTypeHeader, "boundary=") != -1
    requires c.boundary == DelimiterOf(contentTypeHeader) && d.phase == ExpectBoundary && d.buffer == ""
    ensures Quiet(c, d)
  {
    assert Find("", c.boundary) == -1;
  }

  class MultipartParser {
    var active: bool
    var error: bool
    var state: Phase
    var buffer: string
    var boundary: string
    var closingBoundary: string
    var maxBodySize: nat
    var bytesReceived: nat
    var curFd: int
    var headerBuffer: string
    ghost var body: string        // everything written to the open file
    ghost var closed: seq<Part>   // the parts whose files were closed

    ghost function Cfg(): Config
      reads this
    {
      Config(boundary, maxBodySize)
    }

    ghost function State(): Splitter
      reads this
    {
      Splitter(state, buffer, headerBuffer, curFd != -1, body, closed, bytesReceived)
    }

    /** Between calls an active parser that has not failed is consistent and has nothing left to do. */
    ghost predicate Valid()
      reads this
    {
      && (active && !error ==> Quiet(Cfg(), State()))
      && (active ==> closingBoundary == boundary + DASHES)
      && (!active ==> curFd == -1)
    }

    constructor ()
      ensures Valid() && !active && !error
    {
      active, error, state, bytesReceived, curFd := false, false, ExpectBoundary, 0, -1;
      buffer, boundary, closingBoundary, maxBodySize, headerBuffer := "", "", "", 0, "";
    }

    /**
     * A Content-Type without a boundary parameter is an error; the parser is otherwise left as it was.
     * A file that is still open stays open.
     */
    method Init(contentTypeHeader: string, maxBodySize: nat)
      requires Valid()
      modifies this
      ensures Valid()
      ensures Find(contentTypeHeader, "boundary=") == -1 ==>
                error && active == old(active) && State() == old(State()) && Cfg() == old(Cfg())
      ensures Find(contentTypeHeader, "boundary=") != -1 ==>
                && active && !error && Cfg() == Config(DelimiterOf(contentTypeHeader), maxBodySize)
                && State() == if old(curFd) == -1 then Multipart.INIT
                              else Multipart.INIT.(fileOpen := true, body := old(body), closed := old(closed))
    {
      if Find(contentTypeHeader, "boundary=") == -1 {
        error := true;
        return;
      }
      boundary := DelimiterOf(contentTypeHeader);
      closingBoundary := boundary + DASHES;
      this.maxBodySize := maxBodySize;
      bytesReceived := 0;
      active := true;
      state := ExpectBoundary;
      buffer := "";
      headerBuffer := "";
      error := false;
      if curFd == -1 {
        body, closed := "", [];
      }
      EmptyIsQuiet(Cfg(), State(), contentTypeHeader);
    }

    method Feed(data: string) returns (r: Result)
      requires Valid()
      modifies this
      ensures Valid() && Cfg() == old(Cfg()) && active == old(active)
      ensures old(!active || error) ==> r == Error && error == old(error) && State() == old(State())
      ensures old(active && !error) ==>
                && Outcome(State(), r) == Multipart.Feed(Cfg(), old(State()), data)
                && error == (r == Error)
    {
      if !active || error {
        return Error;
      }
      buffer := buffer + data;
      bytesReceived := bytesReceived + |data|;
      if bytesReceived > maxBodySize {
        error := true;
        return Error;
      }
      hide Step, Loop;
      ghost var target := Loop(Cfg(), State());
      if target.r != Error {
        LoopIsQuiet(Cfg(), State());
      }
      r := Drain(target);
    }

    /** The loop of `feed`. */
    method Drain(ghost target: Outcome) returns (r: Result)
      requires active && !error && closingBoundary == boundary + DASHES && Multipart.Valid(Cfg(), State())
      requires target == Loop(Cfg(), State())
      modifies this
      ensures Cfg() == old(Cfg()) && active && closingBoundary == old(closingBoundary)
      ensures Outcome(State(), r) == target && error == (r == Error)
    {
      hide Step, Loop;
      while true
        invariant active && !error && Cfg() == old(Cfg()) && closingBoundary == old(closingBoundary)
        invariant Multipart.Valid(Cfg(), State()) && Loop(Cfg(), State()) == target
        decreases |buffer|
      {
        var stateBefore, bufferSizeBefore := state, |buffer|;
        ghost var before := State();
        r := Process();
        if GoesOn(before, Outcome(State(), r)) {
          StepConsumes(Cfg(), before);
          LoopGoesOn(Cfg(), before);
        } else {
          LoopEnds(Cfg(), before);
        }
        if r == Error {
          error := true;
          return Error;
        }
        if r == Complete {
          return Complete;
        }
        var stateChanged := state != stateBefore;
        var dataConsumed := |buffer| < bufferSizeBefore;
        if !stateChanged && !dataConsumed {
          break;
        }
        if |buffer| == 0 {
          break;
        }
      }
      return NeedMore;
    }

    /** The dispatch on the state in the body of the loop. */
    method Process() returns (r: Result)
      requires Multipart.Valid(Cfg(), State()) && !error && closingBoundary == boundary + DASHES
      modifies this
      ensures Cfg() == old(Cfg()) && active == old(active) && closingBoundary == old(closingBoundary)
      ensures Outcome(State(), r) == Step(Cfg(), old(State()))
      ensures r != Error ==> !error
    {
      if state == ExpectBoundary {
        r := ProcessBoundary();
      } else if state == PartHeaders {
        r := ProcessPartHeaders();
      } else if state == PartBody {
        r := ProcessPartBody(|buffer|);
      } else {
        r := Complete;
      }
    }

    method ProcessBoundary() returns (r: Result)
      requires Multipart.Valid(Cfg(), State()) && state == ExpectBoundary && !error
      requires closingBoundary == boundary + DASHES
      modifies this
      ensures Cfg() == old(Cfg()) && active == old(active) && closingBoundary == old(closingBoundary)
      ensures Outcome(State(), r) == StepBoundary(Cfg(), old(State()))
      ensures error == (r == Error)
    {
      var pos := Find(buffer, boundary);
      if pos == -1 {
        pos := Find(buffer, closingBoundary);
        ClosingHasBoundary(Cfg(), buffer);
        if pos == -1 {
          return NeedMore;
        }
      }
      buffer := buffer[pos + |boundary|..];
      r := ProcessAfterDelimiter();
    }

    /** The rest of `processBoundary`, once the delimiter is erased. */
    method ProcessAfterDelimiter() returns (r: Result)
      requires state == ExpectBoundary && !error
      modifies this
      ensures Cfg() == old(Cfg()) && active == old(active) && closingBoundary == old(closingBoundary)
      ensures Outcome(State(), r) == AfterDelimiter(old(State()), old(buffer))
      ensures error == (r == Error)
    {
      if StartsWith(buffer, DASHES) {
        CloseCurrentFile();
        state := Done;
        return Complete;
      }
      if |buffer| < 2 || buffer[..2] != CRLF {
        error := true;
        return Error;
      }
      buffer := buffer[2..];
      CloseCurrentFile();
      headerBuffer := "";
      state := PartHeaders;
      return NeedMore;
    }

    method ProcessPartHeaders() returns (r: Result)
      requires Multipart.Valid(Cfg(), State()) && state == PartHeaders && !error
      modifies this
      ensures Cfg() == old(Cfg()) && active == old(active) && closingBoundary == old(closingBoundary) && !error
      ensures Outcome(State(), r) == StepHeaders(old(State()))
    {
      var pos := Find(buffer, BLANK_LINE);
      if pos == -1 {
        return NeedMore;
      }
      headerBuffer := buffer[..pos];
      buffer := buffer[pos + 4..];
      OpenNewFile();
      state := PartBody;
      return NeedMore;
    }

    method ProcessPartBody(available: nat) returns (r: Result)
      requires Multipart.Valid(Cfg(), State()) && state == PartBody && !error && available == |buffer|
      requires closingBoundary == boundary + DASHES
      modifies this
      ensures Cfg() == old(Cfg()) && active == old(active) && closingBoundary == old(closingBoundary)
      ensures Outcome(State(), r) == StepBody(Cfg(), old(State()))
      ensures error == (r == Error)
    {
      var boundPos := Find(buffer, boundary);
      if boundPos == -1 {
        boundPos := Find(buffer, closingBoundary);
        ClosingHasBoundary(Cfg(), buffer);
      }
      if boundPos == -1 {
        var safe := if available > |boundary| then available - |boundary| else 0;
        if safe > 0 && curFd != -1 {
          body := body + buffer[..safe];
          buffer := buffer[safe..];
        }
        return NeedMore;
      }
      if boundPos >= 2 && buffer[boundPos - 2..boundPos] == CRLF {
        if curFd != -1 {
          body := body + buffer[..boundPos - 2];
        }
        buffer := buffer[boundPos..];
        state := ExpectBoundary;
        return NeedMore;
      }
      error := true;
      return Error;
    }

    method CloseCurrentFile()
      modifies `curFd, `body, `closed
      ensures State() == Close(old(State()))
    {
      if curFd != -1 {
        closed := closed + [Part(headerBuffer, body)];
        body := "";
        curFd := -1;
      }
    }

    /** Opening a file succeeds with some descriptor and an empty file. */
    method OpenNewFile()
      modifies `curFd, `body
      ensures curFd != -1 && body == ""
    {
      var fd: int :| fd >= 0;
      curFd := fd;
      body := "";
    }
  }
}
