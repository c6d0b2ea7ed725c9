/**
 * How a response goes out (webserv/sources/response/response.cpp:204-316, webserv/sources/server/SocketManager.cpp:307-345):
 * a bounded buffer over a file, filled a chunk at a time and sent in parts, without I/O failures.
 */
module Streaming {
  import opened Ranges
  import Bytes

  const CHUNK_SIZE := 4096

  datatype Status = StartSend | Writing | WritingDone

  datatype MaybeRange = NoRange | Asked(header: string)

  /**
   * What is answered: `text` is what the response generates first, `rangeText` with the headers of a
   * range, `errorText` for a range that cannot be had. `media` is the flag of media files.
   */
  datatype Response = Response(
    text: string,
    rangeText: string,
    errorText: string,
    file: string,
    stream: bool,
    hasBody: bool,
    media: bool,
    range: MaybeRange)

  datatype Sending = Sending(status: Status, buff: string, offset: nat, bytesSent: nat, stream: bool, closing: bool)

  function Initial(r: Response, closing: bool): Sending {
    Sending(StartSend, "", 0, 0, r.stream, closing)
  }

  /** A `read` or a `send` of some bytes takes at least one. */
  type Positive = n: int | 0 < n witness 1

  /** How many bytes the next `read` may give. */
  function ToRead(r: Response, s: Sending): (n: nat) {
    if s.offset >= |r.file| then 0 else Bytes.Min(CHUNK_SIZE, |r.file| - s.offset)
  }

  /** One `read` into the buffer, of some of the bytes asked for; none is the end of the file. */
  function Fill(r: Response, s: Sending, n: Positive): (t: Sending)
    ensures t.offset >= s.offset
  {
    if |s.buff| >= CHUNK_SIZE then s
    else
      var k := Bytes.Min(n, ToRead(r, s));
      if k == 0 then s.(status := WritingDone)
      else s.(buff := s.buff + r.file[s.offset..s.offset + k], offset := s.offset + k, bytesSent := s.bytesSent + k)
  }

  /** A read that gives all it can takes the next 4096 bytes of the file, or all that is left; a buffer with as many takes none. */
  lemma FullRead(r: Response, s: Sending, n: Positive)
    requires n >= 4096 && s.offset <= |r.file|
    ensures var t := Fill(r, s, n);
            && (|s.buff| < 4096 ==> t.buff == s.buff + r.file[s.offset..Bytes.Min(s.offset + 4096, |r.file|)])
            && (|s.buff| >= 4096 ==> t == s)
            && (t.status == WritingDone <==> s.status == WritingDone || (|s.buff| < 4096 && s.offset == |r.file|))
  {
  }

  /** The branch for files; a range is looked at until the first byte was read. */
  function Stream(r: Response, s: Sending, n: Positive): Sending {
    if s.bytesSent == 0 && r.range != NoRange then
      var range := RangeOf(r.range.header, |r.file|);
      if range.valid then Fill(r, s.(buff := r.rangeText, offset := if range.start < 0 then 0 else range.start), n)
      else s.(stream := false, buff := r.errorText, status := WritingDone)
    else Fill(r, s, n)
  }

  /** The branch for responses in memory. */
  function Whole(r: Response, s: Sending): Sending {
    if s.buff != "" then s
    else if r.hasBody then s.(buff := r.text, status := WritingDone)
    else s.(status := WritingDone)
  }

  /** `sendResponse`; the next `read` gives `n` bytes, or as many as there are. */
  function Prepare(r: Response, s: Sending, n: Positive): Sending {
    var t := if s.status == StartSend then s.(buff := r.text, status := Writing) else s;
    if s.status == StartSend && r.media && r.range == NoRange then t.(status := WritingDone, closing := true)
    else if t.stream then Stream(r, t, n)
    else Whole(r, t)
  }

  /** After a turn: more to do, or the end of the response, with or without the connection. */
  datatype After = After(s: Sending, sent: string, over: bool)

  /** One turn: the buffer is prepared, some of it is sent, and after the last part what is left is dropped. */
  function Turn(r: Response, s: Sending, n: Positive, k: Positive): After {
    var t := Prepare(r, s, n);
    var sent := t.buff[..Bytes.Min(k, |t.buff|)];
    After(t.(buff := t.buff[|sent|..]), sent, t.status == WritingDone || |t.buff| == 0)
  }

  /** How many bytes are read and sent in each turn. */
  datatype Move = Move(read: Positive, send: Positive)

  /** The bytes on the wire after some turns; turns behind the end add nothing. */
  function Wire(r: Response, s: Sending, moves: seq<Move>): string
    decreases |moves|
  {
    if |moves| == 0 then ""
    else
      var a := Turn(r, s, moves[0].read, moves[0].send);
      a.sent + if a.over then "" else Wire(r, a.s, moves[1..])
  }

  /** The largest buffer that any of the turns sends from. */
  function Peak(r: Response, s: Sending, moves: seq<Move>): nat
    decreases |moves|
  {
    if |moves| == 0 then 0
    else
      var a := Turn(r, s, moves[0].read, moves[0].send);
      var here := |Prepare(r, s, moves[0].read).buff|;
      var later := if a.over then 0 else Peak(r, a.s, moves[1..]);
      if here < later then later else here
  }

  // ---------------------------------------------------------------- what goes out

  function RangeStart(r: Response): nat
    requires r.range != NoRange
  {
    var a := RangeOf(r.range.header, |r.file|).start;
    if a < 0 then 0 else a
  }

  /** The part of the file from `start` on. */
  function FromStart(r: Response, start: nat): string {
    if start <= |r.file| then r.file[start..] else ""
  }

  /** The answer: headers alone for media without a range, the file from the range's start on, or the text. */
  function Answer(r: Response): string {
    if r.media && r.range == NoRange then r.text
    else if r.stream then
      if r.range == NoRange then r.text + FromStart(r, 0)
      else if RangeOf(r.range.header, |r.file|).valid then r.rangeText + FromStart(r, RangeStart(r))
      else r.errorText
    else r.text
  }

  /** A response in memory that has a body is put into the buffer a second time when the first is sent. */
  predicate Repeated(r: Response) {
    !r.stream && r.hasBody && !(r.media && r.range == NoRange)
  }

  /** All that goes out, in order, when everything is sent. */
  function Outgoing(r: Response): string {
    if Repeated(r) then Answer(r) + Answer(r) else Answer(r)
  }

  /** Every text has headers. */
  predicate HasHeaders(r: Response) {
    |r.text| > 0 && |r.rangeText| > 0 && |r.errorText| > 0
  }

  /** The headers of a range fit into a chunk, too. */
  predicate Sane(r: Response) {
    HasHeaders(r) && |r.rangeText| < CHUNK_SIZE
  }

  predicate Ranged(r: Response) {
    r.range != NoRange && RangeOf(r.range.header, |r.file|).valid
  }

  /** Between two turns: what is sent, what is in the buffer and what is to be read make up the whole. */
  predicate Between(r: Response, s: Sending, wire: string) {
    && s.stream == r.stream && s.status != WritingDone
    && (s.status == StartSend ==> s == Initial(r, s.closing) && wire == "")
    && (s.status == Writing ==>
          && !(r.media && r.range == NoRange)
          && (if r.stream
              then && s.offset <= |r.file| && |s.buff| <= MaxBuffer(r)
                   && (r.range != NoRange ==> Ranged(r) && s.bytesSent > 0)
                   && wire + s.buff + r.file[s.offset..] == Outgoing(r)
              else |s.buff| <= |r.text| && wire + s.buff == r.text))
  }

  function MaxBuffer(r: Response): nat {
    var head := if |r.text| < |r.errorText| then |r.errorText| else |r.text|;
    if head < 2 * CHUNK_SIZE - 1 then 2 * CHUNK_SIZE - 1 else head
  }

  /** What a prepared buffer is, before some of it is sent. */
  predicate Prepared(r: Response, t: Sending, wire: string) {
    && |t.buff| <= MaxBuffer(r)
    && wire + t.buff <= Outgoing(r)
    && (t.status == WritingDone ==> wire + t.buff == Outgoing(r))
    && (t.status != WritingDone ==> |t.buff| > 0 && Between(r, t, wire))
  }

  lemma Slices(file: string, offset: nat, k: nat)
    requires offset + k <= |file|
    ensures file[offset..] == file[offset..offset + k] + file[offset + k..]
  {
  }

  lemma Regroup(a: string, b: string, c: string, d: string)
    ensures a + b + (c + d) == a + (b + c) + d
  {
  }

  lemma PrefixOf(a: string, b: string, c: string)
    ensures a + b <= a + b + c
  {
  }

  /** Reading moves bytes from the file to the buffer. */
  lemma FillKeeps(r: Response, s: Sending, n: Positive, wire: string)
    requires Sane(r) && r.stream && s.stream && s.status == Writing && !(r.media && r.range == NoRange)
    requires s.offset <= |r.file| && |s.buff| <= MaxBuffer(r)
    requires wire + s.buff + r.file[s.offset..] == Outgoing(r)
    requires r.range != NoRange ==> Ranged(r) && (s.bytesSent > 0 || |s.buff| < CHUNK_SIZE)
    ensures Prepared(r, Fill(r, s, n), wire)
  {
    hide Ranged, Outgoing, MaxBuffer;
    var t := Fill(r, s, n);
    RoomForChunk(r);
    if |s.buff| >= CHUNK_SIZE {
      PrefixOf(wire, s.buff, r.file[s.offset..]);
    } else {
      var k := Bytes.Min(n, ToRead(r, s));
      if k == 0 {
        assert r.file[s.offset..] == "";
        assert wire + s.buff + "" == wire + s.buff;
      } else {
        ReadMoves(r.file, s.offset, k, wire, s.buff);
        PrefixOf(wire, t.buff, r.file[t.offset..]);
      }
    }
  }

  lemma RoomForChunk(r: Response)
    ensures 2 * CHUNK_SIZE - 1 <= MaxBuffer(r)
  {
  }

  lemma ReadMoves(file: string, offset: nat, k: nat, wire: string, buff: string)
    requires offset + k <= |file|
    ensures wire + buff + file[offset..] == wire + (buff + file[offset..offset + k]) + file[offset + k..]
  {
    Slices(file, offset, k);
    Regroup(wire, buff, file[offset..offset + k], file[offset + k..]);
  }

  lemma StartStream(r: Response, s: Sending, n: Positive)
    requires Sane(r) && r.stream && s == Initial(r, s.closing) && !(r.media && r.range == NoRange)
    ensures Prepared(r, Prepare(r, s, n), "")
  {
    hide MaxBuffer;
    var t := s.(buff := r.text, status := Writing);
    BufferFits(r);
    if r.range == NoRange {
      Bytes.Alone(r.text);
      assert r.file[0..] == FromStart(r, 0);
      hide FromStart, Ranged;
      FillKeeps(r, t, n, "");
    } else if Ranged(r) {
      var u := t.(buff := r.rangeText, offset := RangeStart(r));
      RangeInFile(r);
      Bytes.Alone(r.rangeText);
      assert r.file[u.offset..] == FromStart(r, u.offset);
      hide FromStart;
      FillKeeps(r, u, n, "");
    } else {
      Bytes.Alone(r.errorText);
    }
  }

  lemma BufferFits(r: Response)
    requires Sane(r)
    ensures |r.text| <= MaxBuffer(r) && |r.rangeText| <= MaxBuffer(r) && |r.errorText| <= MaxBuffer(r)
  {
  }

  lemma RangeInFile(r: Response)
    requires Ranged(r)
    ensures RangeStart(r) <= |r.file|
  {
    if |r.file| > 0 {
      ValidIsInFile(r.range.header, |r.file|);
    } else {
      EmptyFileRange(r.range.header);
    }
  }

  lemma PrepareKeeps(r: Response, s: Sending, n: Positive, wire: string)
    requires Sane(r) && Between(r, s, wire)
    ensures Prepared(r, Prepare(r, s, n), wire)
  {
    if s.status == StartSend {
      assert "" + r.text == r.text;
      if r.stream && !(r.media && r.range == NoRange) {
        StartStream(r, s, n);
      } else {
        assert r.text <= r.text + r.text;
      }
    } else if r.stream {
      hide Outgoing, Ranged, MaxBuffer;
      FillKeeps(r, s, n, wire);
    } else if s.buff == "" {
      assert wire + "" == wire;
    } else {
      assert r.text <= r.text + r.text;
    }
  }

  lemma SendPart(wire: string, buff: string, k: nat)
    requires k <= |buff|
    ensures (wire + buff[..k]) + buff[k..] == wire + buff && wire + buff[..k] <= wire + buff
    ensures k > 0 ==> |wire + buff[..k]| > |wire|
  {
  }

  lemma TurnKeeps(r: Response, s: Sending, n: Positive, k: Positive, wire: string)
    requires Sane(r) && Between(r, s, wire)
    ensures var a := Turn(r, s, n, k);
            && wire + a.sent <= Outgoing(r)
            && |Prepare(r, s, n).buff| <= MaxBuffer(r)
            && (!a.over ==> Between(r, a.s, wire + a.sent) && |a.sent| > 0)
            && (a.over ==> wire + a.sent + a.s.buff == Outgoing(r))
  {
    var t := Prepare(r, s, n);
    PrepareKeeps(r, s, n, wire);
    SendPart(wire, t.buff, Bytes.Min(k, |t.buff|));
    hide Prepare, Outgoing, Ranged, MaxBuffer;
  }

  /** However the file is read and the buffer sent, the bytes on the wire are a prefix of what is meant to go out. */
  lemma {:induction false} WireIsPrefix(r: Response, s: Sending, moves: seq<Move>, wire: string)
    requires Sane(r) && Between(r, s, wire)
    ensures wire + Wire(r, s, moves) <= Outgoing(r)
    ensures Peak(r, s, moves) <= MaxBuffer(r)
    decreases |moves|
  {
    if |moves| == 0 {
      NothingSent(r, s, wire);
    } else {
      var a := Turn(r, s, moves[0].read, moves[0].send);
      TurnKeeps(r, s, moves[0].read, moves[0].send, wire);
      hide Between, Turn, Prepare, Outgoing, MaxBuffer, Sane;
      if a.over {
        Bytes.Alone(a.sent);
      } else {
        WireIsPrefix(r, a.s, moves[1..], wire + a.sent);
        Bytes.Assoc(wire, a.sent, Wire(r, a.s, moves[1..]));
      }
    }
  }

  lemma NothingSent(r: Response, s: Sending, wire: string)
    requires Sane(r) && Between(r, s, wire)
    ensures wire <= Outgoing(r) && wire + "" <= Outgoing(r)
  {
    assert wire + "" == wire;
    PrepareKeeps(r, s, 1, wire);
    hide Between, Prepare, Outgoing;
  }

  /** From the start: the wire carries a prefix, and the buffer stays bounded. */
  lemma StreamingIsSafe(r: Response, closing: bool, moves: seq<Move>)
    requires Sane(r)
    ensures Wire(r, Initial(r, closing), moves) <= Outgoing(r)
    ensures Peak(r, Initial(r, closing), moves) <= MaxBuffer(r)
  {
    WireIsPrefix(r, Initial(r, closing), moves, "");
    assert "" + Wire(r, Initial(r, closing), moves) == Wire(r, Initial(r, closing), moves);
  }

  // ---------------------------------------------------------------- the end

  /** Where a run ends, or stands after its moves. */
  function Final(r: Response, s: Sending, moves: seq<Move>): After
    decreases |moves|
  {
    if |moves| == 0 then After(s, "", false)
    else
      var a := Turn(r, s, moves[0].read, moves[0].send);
      if a.over then a else Final(r, a.s, moves[1..])
  }

  /** A run that ends has sent everything but what is dropped from the buffer at the end. */
  lemma {:induction false} DroppedAtTheEnd(r: Response, s: Sending, moves: seq<Move>, wire: string)
    requires Sane(r) && Between(r, s, wire) && Final(r, s, moves).over
    ensures wire + Wire(r, s, moves) + Final(r, s, moves).s.buff == Outgoing(r)
    decreases |moves|
  {
    var a := Turn(r, s, moves[0].read, moves[0].send);
    TurnKeeps(r, s, moves[0].read, moves[0].send, wire);
    hide Between, Turn, Prepare, Outgoing, MaxBuffer, Sane;
    if a.over {
      Bytes.Alone(a.sent);
    } else {
      DroppedAtTheEnd(r, a.s, moves[1..], wire + a.sent);
      Bytes.Assoc(wire, a.sent, Wire(r, a.s, moves[1..]));
    }
  }

  /** The state after the first `m` turns. */
  function StateAfter(r: Response, s: Sending, moves: seq<Move>, m: nat): Sending
    requires m <= |moves|
    decreases m
  {
    if m == 0 then s else StateAfter(r, Turn(r, s, moves[0].read, moves[0].send).s, moves[1..], m - 1)
  }

  /** Turn `m` is the one that ends the response. */
  predicate EndsIn(r: Response, s: Sending, moves: seq<Move>, m: nat)
    requires m < |moves|
    decreases m
  {
    var a := Turn(r, s, moves[0].read, moves[0].send);
    if m == 0 then a.over else !a.over && EndsIn(r, a.s, moves[1..], m - 1)
  }

  /** A run that is over has a turn that ended it. */
  lemma {:induction false} OverEnds(r: Response, s: Sending, moves: seq<Move>) returns (m: nat)
    requires Final(r, s, moves).over
    ensures m < |moves| && EndsIn(r, s, moves, m)
    decreases |moves|
  {
    var a := Turn(r, s, moves[0].read, moves[0].send);
    hide Turn;
    if a.over {
      m := 0;
    } else {
      var k := OverEnds(r, a.s, moves[1..]);
      m := k + 1;
    }
  }

  /** What the turn that ends the response leaves in the buffer. */
  lemma {:induction false} LeftAtTheEnd(r: Response, s: Sending, moves: seq<Move>, m: nat)
    requires m < |moves| && EndsIn(r, s, moves, m)
    ensures var t := Prepare(r, StateAfter(r, s, moves, m), moves[m].read);
            && Final(r, s, moves).over
            && Final(r, s, moves).s.buff == t.buff[Bytes.Min(moves[m].send, |t.buff|)..]
    decreases m
  {
    var a := Turn(r, s, moves[0].read, moves[0].send);
    if m > 0 {
      hide Prepare;
      LeftAtTheEnd(r, a.s, moves[1..], m - 1);
    }
  }

  /**
   * What is left in the buffer at the end is dropped: the whole goes out if and only if the `send`
   * of the turn that ends the response takes all that this turn prepared.
   */
  lemma CompleteIff(r: Response, closing: bool, moves: seq<Move>, m: nat)
    requires Sane(r) && m < |moves| && EndsIn(r, Initial(r, closing), moves, m)
    ensures Wire(r, Initial(r, closing), moves) == Outgoing(r)
            <==> moves[m].send >= |Prepare(r, StateAfter(r, Initial(r, closing), moves, m), moves[m].read).buff|
  {
    var s := Initial(r, closing);
    LeftAtTheEnd(r, s, moves, m);
    DroppedAtTheEnd(r, s, moves, "");
    hide Wire, Final, Outgoing, Sane, Initial, Prepare;
    NothingLeft(Wire(r, s, moves), Final(r, s, moves).s.buff, Outgoing(r));
  }

  /** A `send` of a whole buffer in each turn is enough: then a run that is over has put out the whole. */
  lemma FullSendsComplete(r: Response, closing: bool, moves: seq<Move>)
    requires Sane(r) && Final(r, Initial(r, closing), moves).over
    requires forall i :: 0 <= i < |moves| ==> moves[i].send >= MaxBuffer(r)
    ensures Wire(r, Initial(r, closing), moves) == Outgoing(r)
  {
    var s := Initial(r, closing);
    var m := OverEnds(r, s, moves);
    BufferBounded(r, s, moves, m, "");
    CompleteIff(r, closing, moves, m);
  }

  /** Up to the end no turn prepares more than the bound. */
  lemma {:induction false} BufferBounded(r: Response, s: Sending, moves: seq<Move>, m: nat, wire: string)
    requires Sane(r) && Between(r, s, wire) && m < |moves| && EndsIn(r, s, moves, m)
    ensures |Prepare(r, StateAfter(r, s, moves, m), moves[m].read).buff| <= MaxBuffer(r)
    decreases m
  {
    var a := Turn(r, s, moves[0].read, moves[0].send);
    TurnKeeps(r, s, moves[0].read, moves[0].send, wire);
    hide Between, Turn, Prepare, Outgoing, MaxBuffer, Sane;
    if m > 0 {
      BufferBounded(r, a.s, moves[1..], m - 1, wire + a.sent);
    }
  }

  /** A file of two bytes whose last byte is lost: the last `send` takes one of the two bytes left. */
  lemma LostTail()
    ensures var r := Response("H", "R", "E", "ab", true, false, false, NoRange);
            && Sane(r) && Outgoing(r) == "Hab"
            && Final(r, Initial(r, false), [Move(2, 1), Move(1, 1)]).over
            && Wire(r, Initial(r, false), [Move(2, 1), Move(1, 1)]) == "Ha"
  {
    var r := Response("H", "R", "E", "ab", true, false, false, NoRange);
    var moves := [Move(2, 1), Move(1, 1)];
    var s := Initial(r, false);
    assert "ab"[0..2] == "ab" && "ab"[0..] == "ab";
    var a := Turn(r, s, 2, 1);
    assert a == After(Sending(Writing, "ab", 2, 2, true, false), "H", false);
    var b := Turn(r, a.s, 1, 1);
    assert b.over && b.sent == "a";
    assert moves[1..] == [Move(1, 1)];
    assert Wire(r, a.s, moves[1..]) == "a" + "";
  }

  lemma NothingLeft(w: string, b: string, all: string)
    requires "" + w + b == all
    ensures w == all <==> b == ""
  {
    Bytes.Alone(w);
    Bytes.Alone(b);
    assert |w + b| == |w| + |b|;
  }

  /** Every turn sends something, so that a run of as many turns as there are bytes, and one more, ends. */
  lemma {:induction false} RunsEnd(r: Response, s: Sending, moves: seq<Move>, wire: string)
    requires Sane(r) && Between(r, s, wire) && |moves| > |Outgoing(r)| - |wire|
    ensures Final(r, s, moves).over
    decreases |moves|
  {
    if |moves| == 0 {
      NothingSent(r, s, wire);
    } else {
      var a := Turn(r, s, moves[0].read, moves[0].send);
      TurnKeeps(r, s, moves[0].read, moves[0].send, wire);
      hide Between, Turn, Prepare, Outgoing, MaxBuffer, Sane;
      if !a.over {
        RunsEnd(r, a.s, moves[1..], wire + a.sent);
      }
    }
  }

  // ---------------------------------------------------------------- long range headers

  /** Headers of a range that fill a chunk are put into the buffer again in every turn: the file is never read. */
  lemma {:induction false} LongRangeNeverReads(r: Response, s: Sending, moves: seq<Move>)
    requires r.stream && s.stream && Ranged(r) && |r.rangeText| >= CHUNK_SIZE
    requires s.status != WritingDone && s.bytesSent == 0
    ensures !Final(r, s, moves).over && Final(r, s, moves).s.bytesSent == 0
    decreases |moves|
  {
    if |moves| > 0 {
      LongRangeNeverReads(r, Turn(r, s, moves[0].read, moves[0].send).s, moves[1..]);
    }
  }

  /** A run can end exactly when the headers of the range are shorter than a chunk. */
  lemma RangeEndsIff(r: Response, closing: bool)
    requires HasHeaders(r) && r.stream && Ranged(r)
    ensures (exists moves :: Final(r, Initial(r, closing), moves).over) <==> |r.rangeText| < CHUNK_SIZE
  {
    var s := Initial(r, closing);
    if |r.rangeText| < CHUNK_SIZE {
      var moves := seq(|Outgoing(r)| + 1, _ => Move(1, 1));
      RunsEnd(r, s, moves, "");
      assert Final(r, s, moves).over;
    } else {
      forall moves ensures !Final(r, s, moves).over {
        LongRangeNeverReads(r, s, moves);
      }
    }
  }

  /** A response in memory with a body goes out twice when the socket takes all of it each time. */
  lemma InMemoryTwice(r: Response, closing: bool)
    requires |r.text| > 0 && Repeated(r)
    ensures var all := Move(1, |r.text|);
            Wire(r, Initial(r, closing), [all, all]) == r.text + r.text
  {
    var all := Move(1, |r.text|);
    var s := Initial(r, closing);
    var a := Turn(r, s, 1, |r.text|);
    assert r.text[..|r.text|] == r.text && r.text[|r.text|..] == "";
    assert a == After(s.(status := Writing, buff := ""), r.text, false);
    var b := Turn(r, a.s, 1, |r.text|);
    assert b == After(s.(status := WritingDone, buff := ""), r.text, true);
    assert [all, all][1..] == [all] && [all][0] == all;
    assert Wire(r, a.s, [all]) == r.text + "";
    Bytes.Alone(r.text);
  }

  /** The connection is closed behind media without a range, and otherwise only if it was to be. */
  lemma {:induction false} ClosesIff(r: Response, s: Sending, moves: seq<Move>)
    requires s.status == StartSend && Final(r, s, moves).over
    ensures Final(r, s, moves).s.closing <==> s.closing || (r.media && r.range == NoRange)
  {
    var a := Turn(r, s, moves[0].read, moves[0].send);
    if !a.over {
      ClosingStays(r, a.s, moves[1..]);
    }
  }

  lemma {:induction false} ClosingStays(r: Response, s: Sending, moves: seq<Move>)
    requires s.status != StartSend
    ensures Final(r, s, moves).s.closing == s.closing
    decreases |moves|
  {
    if |moves| > 0 {
      var a := Turn(r, s, moves[0].read, moves[0].send);
      if !a.over {
        ClosingStays(r, a.s, moves[1..]);
      }
    }
  }

  /** No run puts out more than the answer, exactly when the response is not in memory with a body. */
  lemma OnceIff(r: Response, closing: bool)
    requires Sane(r)
    ensures (forall moves :: Wire(r, Initial(r, closing), moves) <= Answer(r)) <==> !Repeated(r)
  {
    if Repeated(r) {
      InMemoryTwice(r, closing);
      var all := Move(1, |r.text|);
      assert !(Wire(r, Initial(r, closing), [all, all]) <= Answer(r));
    } else {
      forall moves ensures Wire(r, Initial(r, closing), moves) <= Answer(r) {
        StreamingIsSafe(r, closing, moves);
      }
    }
  }
}
