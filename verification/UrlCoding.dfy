/** Percent escapes (`urlDecode` in webserv/sources/request/utils.cpp:98-125). */
module UrlCoding {
  import opened Bytes
  import opened Hex

  /** A byte as it is written in a URL: as itself, a blank as a plus sign, or any byte as an escape. */
  datatype Written = Plain(c: char) | Blank | Escape(high: char, low: char)

  function Text(w: Written): string {
    match w
    case Plain(c) => [c]
    case Blank => "+"
    case Escape(high, low) => ['%', high, low]
  }

  /** What is written stands for. */
  function Byte(w: Written): char
    requires IsWritten(w)
  {
    match w
    case Plain(c) => c
    case Blank => ' '
    case Escape(high, low) => (HexDigit(high) * 16 + HexDigit(low)) as char
  }

  predicate IsWritten(w: Written) {
    match w
    case Plain(c) => c != '%' && c != '+'
    case Blank => true
    case Escape(high, low) => HexDigit(high) != -1 && HexDigit(low) != -1
  }

  /** One character of the result, and how many of the text it takes. */
  datatype Piece = Piece(c: char, n: nat)

  /** The byte that an extraction gives, or none. */
  function ByteOf(x: Extracted): (value: int)
    ensures -1 <= value <= 255
  {
    if x == NoNumber || x.magnitude > 255 || (x.negative && x.magnitude > 0) then -1 else x.magnitude
  }

  /** At a percent sign with two characters behind it, a number extracted from these gives a byte and takes both. */
  function DecodeStep(s: string): (r: Piece)
    requires |s| > 0
    ensures 0 < r.n <= |s|
  {
    if s[0] == '%' then
      if |s| > 2 && ByteOf(Extract(s[1..3])) != -1 then Piece(ByteOf(Extract(s[1..3])) as char, 3)
      else Piece('%', 1)
    else if s[0] == '+' then Piece(' ', 1)
    else Piece(s[0], 1)
  }

  function Decode(s: string): string {
    if |s| == 0 then "" else [DecodeStep(s).c] + Decode(s[DecodeStep(s).n..])
  }

  function Encoded(ws: seq<Written>): string {
    if |ws| == 0 then "" else Text(ws[0]) + Encoded(ws[1..])
  }

  function Meant(ws: seq<Written>): string
    requires forall k :: 0 <= k < |ws| ==> IsWritten(ws[k])
  {
    if |ws| == 0 then "" else [Byte(ws[0])] + Meant(ws[1..])
  }

  lemma FirstWritten(w: Written, rest: string)
    requires IsWritten(w)
    ensures DecodeStep(Text(w) + rest) == Piece(Byte(w), |Text(w)|)
    ensures (Text(w) + rest)[|Text(w)|..] == rest
  {
    if w.Escape? {
      TwoDigits(w.high, w.low);
      assert (Text(w) + rest)[1..3] == [w.high, w.low];
    }
  }

  /** However a text is written, it is decoded to what is meant. */
  lemma {:induction false} DecodeEncoded(ws: seq<Written>)
    requires forall k :: 0 <= k < |ws| ==> IsWritten(ws[k])
    ensures Decode(Encoded(ws)) == Meant(ws)
    decreases |ws|
  {
    if |ws| > 0 {
      FirstWritten(ws[0], Encoded(ws[1..]));
      DecodeEncoded(ws[1..]);
      hide DecodeStep, Byte, Text;
    }
  }

  /** Every byte can be written as an escape. */
  function EscapeAll(s: string): (ws: seq<Written>)
    requires forall k :: 0 <= k < |s| ==> s[k] as int < 256
    ensures |ws| == |s| && forall k :: 0 <= k < |ws| ==> IsWritten(ws[k]) && Byte(ws[k]) == s[k]
  {
    seq(|s|, k requires 0 <= k < |s| => Escape(HexChar(s[k] as int / 16), HexChar(s[k] as int % 16)))
  }

  lemma {:induction false} MeantIs(ws: seq<Written>, s: string)
    requires |ws| == |s| && forall k :: 0 <= k < |ws| ==> IsWritten(ws[k]) && Byte(ws[k]) == s[k]
    ensures Meant(ws) == s
    decreases |ws|
  {
    if |ws| > 0 {
      MeantIs(ws[1..], s[1..]);
    }
  }

  /** Every byte string survives escaping. */
  lemma EscapedRoundTrip(s: string)
    requires forall k :: 0 <= k < |s| ==> s[k] as int < 256
    ensures Decode(Encoded(EscapeAll(s))) == s
  {
    DecodeEncoded(EscapeAll(s));
    MeantIs(EscapeAll(s), s);
  }

  lemma Digits(x: char, y: char)
    ensures "" + ("" + ("" + ([x] + [y]))) == [x, y]
  {
  }

  lemma Behind(x: char, y: char, rest: string)
    ensures var s := ['%', x, y] + rest; s[1..3] == [x, y] && s[1..] == [x, y] + rest && s[3..] == rest
  {
  }

  lemma NothingInFront(s: string)
    ensures "" + ("" + ("" + s)) == s
  {
  }

  lemma DecodeStepIs(s: string)
    requires |s| > 0
    ensures Decode(s) == [DecodeStep(s).c] + Decode(s[DecodeStep(s).n..])
  {
  }

  /** What two characters behind a percent sign say: a byte, or nothing (-1). */
  function Said(x: char, y: char): int {
    if HexDigit(x) != -1 then
      if HexDigit(y) != -1 then HexDigit(x) * 16 + HexDigit(y) else if x == '0' && (y == 'x' || y == 'X') then -1 else HexDigit(x)
    else if HexDigit(y) == -1 then -1
    else if x == '+' || IsSpace(x) then HexDigit(y)
    else if x == '-' && y == '0' then 0
    else -1
  }

  lemma SaidIs(x: char, y: char)
    ensures ByteOf(Extract([x, y])) == Said(x, y)
  {
    hide Extract, IsSpace, HexValue, AllHex;
    SpacesAre(x);
    SpacesAre(y);
    NothingInFront([x, y]);
    Digits(x, y);
    NoneBehind(x, y);
    if HexDigit(x) != -1 && HexDigit(y) != -1 {
      TwoDigits(x, y);
    } else if x == '0' && (y == 'x' || y == 'X') {
      NothingToExtract("", "", [x, y], "");
    } else if HexDigit(x) != -1 {
      OneDigit(x);
      assert [x] == "0" ==> x == '0';
      ExtractIs("", "", "", [x], [y]);
    } else if HexDigit(y) != -1 {
      OneDigit(y);
      assert IsNumber([y], "");
      assert [x] == "+" <==> x == '+';
      assert [x] == "-" <==> x == '-';
      if IsSpace(x) {
        ExtractIs([x], "", "", [y], "");
      } else if x == '+' || x == '-' {
        ExtractIs("", [x], "", [y], "");
        HexOfZero(y);
      } else {
        NothingToExtract("", "", "", [x, y]);
      }
    } else {
      NothingSaid(x, y);
    }
  }

  lemma HexOfZero(y: char)
    ensures HexDigit(y) == 0 <==> y == '0'
  {
  }

  lemma NoneBehind(x: char, y: char)
    ensures "" + ("" + ("" + ([x, y] + ""))) == [x, y] && "" + ("" + ([x, y] + "")) == [x, y]
    ensures [x] + ("" + ("" + ([y] + ""))) == [x, y] && "" + ([x] + ("" + ([y] + ""))) == [x, y]
    ensures [x] + ("" + ("" + [y])) == [x, y] && "" + ([x] + ("" + [y])) == [x, y] && [x] + ([y] + ("" + "")) == [x, y]
    ensures [x, y] + ("" + ("" + "")) == [x, y]
  {
  }

  /** Neither of the two is a digit. */
  lemma NothingSaid(x: char, y: char)
    requires HexDigit(x) == -1 && HexDigit(y) == -1
    ensures Extract([x, y]) == NoNumber
  {
    hide Extract, IsSpace, HexDigit;
    SpacesAre(x);
    SpacesAre(y);
    NothingInFront([x, y]);
    NoneBehind(x, y);
    assert [x] == "+" <==> x == '+';
    assert [x] == "-" <==> x == '-';
    assert [y] == "+" <==> y == '+';
    assert [y] == "-" <==> y == '-';
    if IsSpace(x) && IsSpace(y) {
      NothingToExtract([x, y], "", "", "");
    } else if IsSpace(x) && (y == '+' || y == '-') {
      NothingToExtract([x], [y], "", "");
    } else if IsSpace(x) {
      NothingToExtract([x], "", "", [y]);
    } else if x == '+' || x == '-' {
      NothingToExtract("", [x], "", [y]);
    } else {
      NothingToExtract("", "", "", [x, y]);
    }
  }

  /** An escape stands for the byte that its two characters say, and a percent sign that none follows for itself. */
  lemma PercentIs(x: char, y: char, rest: string)
    ensures Decode(['%', x, y] + rest)
         == if Said(x, y) != -1 then [Said(x, y) as char] + Decode(rest) else "%" + Decode([x, y] + rest)
  {
    hide Extract, Decode, IsSpace, HexDigit, Said;
    Behind(x, y, rest);
    SaidIs(x, y);
    DecodeStepIs(['%', x, y] + rest);
  }

  /** So does one with fewer than two characters behind it. */
  lemma LastPercent(s: string)
    requires |s| <= 1
    ensures Decode("%" + s) == "%" + Decode(s)
  {
    assert ("%" + s)[1..] == s;
  }

  /** `urlDecode`. */
  method UrlDecode(path: string) returns (result: string)
    ensures result == Decode(path)
  {
    result := "";
    var i := 0;
    Whole(path);
    Alone(Decode(path));
    hide Decode;
    while i < |path|
      invariant i <= |path| && result + Decode(path[i..]) == Decode(path)
      decreases |path| - i
    {
      StepAt(path, i, result);
      var c := path[i];
      if c == '%' {
        if i + 2 < |path| {
          var value := ByteOf(Extract(path[i + 1..i + 3]));
          if value != -1 {
            result := result + [value as char];
            i := i + 3;
          } else {
            result := result + ['%'];
            i := i + 1;
          }
        } else {
          result := result + ['%'];
          i := i + 1;
        }
      } else if c == '+' {
        result := result + [' '];
        i := i + 1;
      } else {
        result := result + [c];
        i := i + 1;
      }
    }
    Nothing(result, path[i..]);
  }

  lemma Nothing(result: string, rest: string)
    requires |rest| == 0
    ensures result + Decode(rest) == result
  {
  }

  lemma StepAt(path: string, i: nat, result: string)
    requires i < |path|
    ensures var r := DecodeStep(path[i..]);
            result + Decode(path[i..]) == (result + [r.c]) + Decode(path[i + r.n..])
    ensures path[i..][0] == path[i] && |path[i..]| == |path| - i
    ensures i + 2 < |path| ==> path[i..][1..3] == path[i + 1..i + 3]
  {
    var r := DecodeStep(path[i..]);
    assert path[i..][r.n..] == path[i + r.n..];
    assert result + ([r.c] + Decode(path[i + r.n..])) == (result + [r.c]) + Decode(path[i + r.n..]);
  }
}
