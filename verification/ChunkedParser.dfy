/**
 * The parser object of webserv/sources/request/ChunkedParser.cpp: its fields, its methods and
 * its loop, proved to compute the functions of module `Chunked`.
 */
module ChunkedStream {
  import opened Bytes
  import opened Chunked

  class ChunkedParser {
    var active: bool
    var error: bool
    var state: Phase
    var buffer: string
    var currentChunkSize: nat
    var bytesWritten: nat
    var outputFd: int
    var totalBytesWritten: nat
    var maxBodySize: nat
    ghost var output: string  // everything passed to write since init

    ghost function Cfg(): Config
      reads this
    {
      Config(outputFd, maxBodySize)
    }

    ghost function State(): Decoder
      reads this
    {
      Decoder(state, buffer, currentChunkSize, bytesWritten, totalBytesWritten, output)
    }

    /** Between calls an active parser that has not failed is consistent and has nothing left to do. */
    ghost predicate Valid()
      reads this
    {
      active && !error ==> Quiet(Cfg(), State())
    }

    constructor ()
      ensures Valid() && !active && !error
    {
      active, error := false, false;
      state, buffer := Size, "";
      currentChunkSize, bytesWritten, totalBytesWritten, maxBodySize := 0, 0, 0, 0;
      outputFd := -1;
    }

    method Init(outputFd: int, maxBodySize: nat)
      requires maxBodySize < SIZE_LIMIT
      modifies this
      ensures Valid() && active && !error
      ensures Cfg() == Config(outputFd, maxBodySize) && State() == Chunked.INIT
    {
      active, error := true, false;
      state, buffer := Size, "";
      currentChunkSize, bytesWritten, totalBytesWritten := 0, 0, 0;
      this.outputFd, this.maxBodySize := outputFd, maxBodySize;
      output := "";
      assert Find("", CRLF) == -1;
    }

    method Feed(data: string) returns (r: Result)
      requires Valid()
      modifies this
      ensures Valid() && Cfg() == old(Cfg()) && active == old(active)
      ensures old(!active || error) ==> r == Error && error == old(error) && State() == old(State())
      ensures old(active && !error) ==>
                && Outcome(State(), r) == Chunked.Feed(Cfg(), old(State()), data)
                && error == r.Failing()
    {
      if !active || error {
        return Error;
      }
      buffer := buffer + data;
      ghost var target := Loop(Cfg(), State());
      if !target.r.Failing() {
        LoopIsQuiet(Cfg(), State());
      }
      while true
        invariant active && !error && Cfg() == old(Cfg())
        invariant Chunked.Valid(Cfg(), State()) && Loop(Cfg(), State()) == target
        decreases |buffer|, Rank(state)
      {
        var stateBefore, bufferSizeBefore := state, |buffer|;
        ghost var before := State();
        r := Process();
        hide Step, Loop;

        if r == Error {
          error := true;
          return Error;
        } else if r == MaxError {
          error := true;
          return MaxError;
        }
        if r == Complete {
          return Complete;
        }
        var stateChanged := state != stateBefore;
        var dataConsumed := |buffer| < bufferSizeBefore;
        if !stateChanged && !dataConsumed {
          break;
        }
        if |buffer| == 0 {
          break;
        }
        StepDecreases(Cfg(), before);
        LoopGoesOn(Cfg(), before);
      }
      return NeedMore;
    }

    /** The dispatch on the state in the body of the loop. */
    method Process() returns (r: Result)
      requires Chunked.Valid(Cfg(), State()) && !error
      modifies this
      ensures Cfg() == old(Cfg()) && active == old(active)
      ensures Outcome(State(), r) == Step(Cfg(), old(State()))
      ensures !r.Failing() ==> !error
    {
      if state == Size {
        r := ProcessChunkSize();
      } else if state == Data {
        r := ProcessChunkData();
      } else if state == End {
        r := ProcessChunkEnd();
      } else {
        r := Complete;
      }
    }

    method ProcessChunkSize() returns (r: Result)
      requires Chunked.Valid(Cfg(), State()) && state == Size && !error
      modifies this
      ensures Cfg() == old(Cfg()) && active == old(active)
      ensures Outcome(State(), r) == StepSize(Cfg(), old(State()))
      ensures error == (r == MaxError)
    {
      hide ParseSize;
      var pos := Find(buffer, CRLF);
      if pos == -1 {
        return NeedMore;
      }
      var hex := buffer[..pos];
      buffer := buffer[pos + 2..];
      var size := ParseSize(hex);
      if size.None? {
        return Error;
      }
      currentChunkSize := size.value;
      if AddSize(totalBytesWritten, currentChunkSize) > maxBodySize {
        error := true;
        return MaxError;
      }
      state := Data;
      bytesWritten := 0;
      return NeedMore;
    }

    method ProcessChunkData() returns (r: Result)
      requires Chunked.Valid(Cfg(), State()) && state == Data && !error
      modifies this
      ensures Cfg() == old(Cfg()) && active == old(active)
      ensures Outcome(State(), r) == StepData(Cfg(), old(State()))
      ensures error == (r == MaxError)
    {
      var remainingInChunk := currentChunkSize - bytesWritten;
      if |buffer| == 0 {
        return NeedMore;
      }
      var toWrite := Min(|buffer|, remainingInChunk);
      if outputFd != -1 && toWrite > 0 {
        output := output + buffer[..toWrite];
        bytesWritten := bytesWritten + toWrite;
        totalBytesWritten := totalBytesWritten + toWrite;
        if totalBytesWritten > maxBodySize {
          error := true;
          return MaxError;
        }
      } else {
        bytesWritten := bytesWritten + toWrite;
        totalBytesWritten := totalBytesWritten + toWrite;
        if totalBytesWritten > maxBodySize {
          error := true;
          return MaxError;
        }
      }
      buffer := buffer[toWrite..];
      if bytesWritten >= currentChunkSize {
        state := End;
      }
      return NeedMore;
    }

    method ProcessChunkEnd() returns (r: Result)
      requires Chunked.Valid(Cfg(), State()) && state == End && !error
      modifies this
      ensures Cfg() == old(Cfg()) && active == old(active) && !error
      ensures Outcome(State(), r) == StepEnd(old(State()))
    {
      if |buffer| < 2 {
        return NeedMore;
      }
      if buffer[..2] != CRLF {
        return Error;
      }
      buffer := buffer[2..];
      if currentChunkSize == 0 {
        state := Done;
        return Complete;
      } else {
        state := Size;
        return NeedMore;
      }
    }
  }
}
