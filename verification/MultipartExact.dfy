/** The well-formedness of parts is exactly what the round trip needs. */
module MultipartExact {
  import opened Bytes
  import opened Multipart
  import opened MultipartSplit
  import opened MultipartMessage

  /** A header block is told from its blank line when it has none and does not end a line. */
  lemma HeaderOkMeans(h: string)
    ensures HeaderOk(h) <==> !Contains(h, BLANK_LINE) && !(|h| >= 2 && h[|h| - 2..] == CRLF)
  {
    var w, n := h + BLANK_LINE, |h|;
    assert w[n..n + 4] == BLANK_LINE;
    if n >= 2 && h[n - 2..] == CRLF {
      assert w[n - 2..n + 2] == h[n - 2..] + CRLF;
      assert At(w, BLANK_LINE, n - 2);
    } else {
      forall i | 0 <= i < n ensures At(w, BLANK_LINE, i) == At(h, BLANK_LINE, i) {
        if i + 4 <= n {
          AtExtend(h, BLANK_LINE, BLANK_LINE, i);
        } else if i == n - 3 {
          assert w[i..i + 4][3] == w[n] == '\r';
          assert BLANK_LINE[3] == '\n';
        } else if i == n - 1 {
          assert w[i..i + 4][1] == w[n] == '\r';
          assert BLANK_LINE[1] == '\n';
        } else {
          assert w[i..i + 4][..2] == h[n - 2..];
          assert BLANK_LINE[..2] == CRLF;
        }
      }
      if Contains(h, BLANK_LINE) {
        assert At(w, BLANK_LINE, Find(h, BLANK_LINE));
      } else {
        FindIs(w, BLANK_LINE, n);
      }
    }
  }

  /** What a run that completes from `d` has closed: first what was closed, then the part that was open. */
  predicate ClosedFirst(d: Splitter, closed: seq<Part>) {
    && d.closed <= closed
    && (d.fileOpen ==>
          && |d.closed| < |closed|
          && closed[|d.closed|].header == d.header
          && (d.phase == ExpectBoundary ==> closed[|d.closed|].body == d.body))
  }

  lemma {:induction false} RunClosesFirst(c: Config, d: Splitter)
    requires Valid(c, d) && Loop(c, d).r == Complete
    ensures ClosedFirst(d, Loop(c, d).d.closed)
    decreases |d.buffer|
  {
    if GoesOn(d, Step(c, d)) {
      StepConsumes(c, d);
      RunClosesFirst(c, Step(c, d).d);
    }
  }

  /** A part that is not well-formed is not what a completed run reports in its place. */
  lemma BadPartIsLost(c: Config, d: Splitter, p: Part, rest: string)
    requires Valid(c, d) && d.phase == ExpectBoundary && !PartOk(c, p) && '\r' !in c.boundary
    requires d.buffer == c.boundary + (CRLF + PartAnd(p, rest))
    requires Loop(c, d).r == Complete
    ensures var n := |Close(d).closed|;
            n < |Loop(c, d).d.closed| ==> Loop(c, d).d.closed[n] != p
  {
    ReadDelimiter(c, d, PartAnd(p, rest));
    var e := InHeaders(d, PartAnd(p, rest));
    if HeaderOk(p.header) {
      ReadHeaders(c, e, p, BodyAnd(p, rest));
      BadBodyIsLost(c, InBody(e, p, BodyAnd(p, rest)), p, rest);
    } else {
      BadHeaderIsLost(c, e, p, rest);
    }
  }

  lemma BadHeaderIsLost(c: Config, d: Splitter, p: Part, rest: string)
    requires Valid(c, d) && d.phase == PartHeaders && !HeaderOk(p.header)
    requires d.buffer == PartAnd(p, rest) && Loop(c, d).r == Complete
    ensures var n := |d.closed|;
            n < |Loop(c, d).d.closed| ==> Loop(c, d).d.closed[n] != p
  {
    var w := p.header + BLANK_LINE;
    assert w[|p.header|..|p.header| + 4] == BLANK_LINE;
    assert At(w, BLANK_LINE, |p.header|);
    FindExtend(w, BodyAnd(p, rest), BLANK_LINE);
    assert |Step(c, d).d.header| < |p.header|;
    hide StepHeaders;
    LoopByStep(c, d);
    RunClosesFirst(c, Step(c, d).d);
  }

  lemma BadBodyIsLost(c: Config, d: Splitter, p: Part, rest: string)
    requires Valid(c, d) && d.phase == PartBody && d.body == "" && Contains(p.body, c.boundary)
    requires d.buffer == BodyAnd(p, rest) && Loop(c, d).r == Complete
    ensures var n := |d.closed|;
            n < |Loop(c, d).d.closed| ==> Loop(c, d).d.closed[n] != p
  {
    DelimiterInBody(c, p, rest);
    ShortBody(c, d, |p.body|);
    hide StepBody, BodyAnd, Contains;
    if GoesOn(d, Step(c, d)) {
      RunClosesFirst(c, Step(c, d).d);
    }
  }

  lemma DelimiterInBody(c: Config, p: Part, rest: string)
    requires Contains(p.body, c.boundary) && |c.boundary| > 0
    ensures 0 <= Find(BodyAnd(p, rest), c.boundary) < |p.body|
  {
    FindExtend(p.body, CRLF + rest, c.boundary);
    assert p.body + (CRLF + rest) == BodyAnd(p, rest);
  }

  lemma ShortBody(c: Config, d: Splitter, n: nat)
    requires Valid(c, d) && d.phase == PartBody && d.body == ""
    requires 0 <= Find(d.buffer, c.boundary) < n
    ensures StepBody(c, d).r == Error || GoesOn(d, StepBody(c, d))
    ensures GoesOn(d, StepBody(c, d)) ==> StepBody(c, d).d.phase == ExpectBoundary && |StepBody(c, d).d.body| < n
    ensures StepBody(c, d).d.closed == d.closed && StepBody(c, d).d.fileOpen
  {
    BodyStepGoesOn(c, d);
  }

  lemma CloseAfterPart(d: Splitter, p: Part, rest: string)
    ensures Close(AfterPart(d, p, rest)).closed == Close(d).closed + [p]
  {
  }

  /** One feed of an encoded message gives back its parts exactly when they are well-formed. */
  lemma {:induction false} RoundTripExactly(c: Config, d: Splitter, parts: seq<Part>, tail: string)
    requires Valid(c, d) && d.phase == ExpectBoundary && '\r' !in c.boundary
    requires d.buffer == Encode(c, parts, tail)
    ensures Decoded(Loop(c, d), Close(d).closed, parts, tail) <==> WellFormed(c, parts)
    decreases |parts|
  {
    hide Loop, Close;
    if WellFormed(c, parts) {
      DecodeEncoded(c, d, parts, tail);
    } else {
      var p, rest := parts[0], Encode(c, parts[1..], tail);
      if PartOk(c, p) {
        EncodeStarts(c, parts[1..], tail);
        ReadPart(c, d, p, rest);
        RoundTripExactly(c, AfterPart(d, p, rest), parts[1..], tail);
        CloseAfterPart(d, p, rest);
        assert Close(d).closed + [p] + parts[1..] == Close(d).closed + parts;
      } else if Loop(c, d).r == Complete {
        BadPartIsLost(c, d, p, rest);
        assert (Close(d).closed + parts)[|Close(d).closed|] == p;
      }
    }
  }

  // ---------------------------------------------------------------- one message

  lemma SmallMessage(c: Config, parts: seq<Part>)
    requires c == Config("--b", 100) && parts == [Part("h", "x")]
    ensures WellFormed(c, parts) && |Encode(c, parts, "")| == 18
  {
    HeaderOkMeans("h");
    assert !Contains("h", BLANK_LINE) && !Contains("x", "--b");
    assert parts[1..] == [];
    assert "--b"[..2] == DASHES;
  }

  /**
   * A message of one part that is decoded in one feed and refused in two: the first piece ends with
   * its first delimiter.
   */
  lemma CutExample()
    ensures var c, parts := Config("--b", 100), [Part("h", "x")];
            var m := Encode(c, parts, "");
            && |m| == 18 && Flatten([m[..3], m[3..]]) == m
            && Decoded(Feed(c, INIT, m), [], parts, "")
            && FeedAll(c, INIT, [m[..3], m[3..]]).r == Error
  {
    var c, parts := Config("--b", 100), [Part("h", "x")];
    SmallMessage(c, parts);
    hide WellFormed, Encode, Feed, FeedAll, Decoded;
    var m := Encode(c, parts, "");
    var pieces := [m[..3], m[3..]];
    TwoPieces(m[..3], m[3..]);
    assert m[..3] + m[3..] == m;
    DecodeWhole(c, parts, "");
    RunOverPieces(c, parts, "", pieces);
    assert 3 in Cuts(0, pieces) by {
      assert 3 in Cuts(3, pieces[1..]);
    }
    assert BadCut(c, parts, 3);
  }

  lemma TwoPieces(a: string, b: string)
    ensures Flatten([a, b]) == a + b
  {
    assert [b][1..] == [] && Flatten([]) == "";
    assert Flatten([b]) == b + "" == b;
    assert [a, b][1..] == [b];
  }
}
