/** Hexadecimal digits, as the stream extraction in base 16 reads them. */
module Hex {
  import opened Bytes

  /** The value of a digit, or -1. */
  function HexDigit(c: char): (v: int)
    ensures -1 <= v < 16
  {
    if '0' <= c <= '9' then c as int - '0' as int
    else if 'a' <= c <= 'f' then c as int - 'a' as int + 10
    else if 'A' <= c <= 'F' then c as int - 'A' as int + 10
    else -1
  }

  function HexChar(v: nat): (c: char)
    requires v < 16
    ensures HexDigit(c) == v && c != '\r'
  {
    (if v < 10 then '0' as int + v else 'a' as int + v - 10) as char
  }

  predicate AllHex(s: string) {
    forall i :: 0 <= i < |s| ==> HexDigit(s[i]) != -1
  }

  /** The length of the longest prefix of hexadecimal digits. */
  function HexRun(s: string): (n: nat)
    ensures n <= |s| && AllHex(Take(s, n))
    ensures n < |s| ==> HexDigit(s[n]) == -1
  {
    if |s| == 0 || HexDigit(s[0]) == -1 then 0
    else
      var n := HexRun(s[1..]);
      assert s[..1 + n] == [s[0]] + s[1..][..n];
      1 + n
  }

  function HexValue(s: string): nat
    requires AllHex(s)
  {
    if |s| == 0 then 0
    else HexValue(s[..|s| - 1]) * 16 + HexDigit(s[|s| - 1])
  }

  /** What `operator>>` takes from a text in base 16. */
  datatype Extracted = NoNumber | Number(negative: bool, magnitude: nat)

  /** A text without a sign, and without the prefix of hexadecimal numbers. */
  function Unsigned(s: string): string {
    if |s| > 0 && (s[0] == '-' || s[0] == '+') then s[1..] else s
  }

  function Unprefixed(s: string): string {
    if |s| >= 2 && s[0] == '0' && (s[1] == 'x' || s[1] == 'X') then s[2..] else s
  }

  /** Blanks, a sign, a prefix, and at least one digit; what follows the digits is ignored. */
  function Extract(s: string): Extracted {
    var t := s[BlanksLen(s)..];
    var digits := Unprefixed(Unsigned(t));
    var n := HexRun(digits);
    if n == 0 then NoNumber else Number(t[0] == '-', HexValue(digits[..n]))
  }

  lemma {:induction false} HexRunOfAll(s: string)
    requires AllHex(s)
    ensures HexRun(s) == |s|
    decreases |s|
  {
    if |s| > 0 {
      HexRunOfAll(s[1..]);
    }
  }

  /** Digits alone are taken as they are. */
  lemma PlainNumber(s: string)
    requires |s| > 0 && AllHex(s)
    ensures Extract(s) == Number(false, HexValue(s))
  {
    hide HexRun, HexValue;
    HexRunOfAll(s);
    Whole(s);
    NothingInFront(s);
  }

  lemma NothingInFront(s: string)
    requires |s| > 0 && AllHex(s)
    ensures BlanksLen(s) == 0 && Unprefixed(Unsigned(s)) == s && s[0] != '-'
  {
    assert HexDigit(s[0]) != -1 && (|s| > 1 ==> HexDigit(s[1]) != -1);
  }

  lemma TwoDigits(high: char, low: char)
    requires HexDigit(high) != -1 && HexDigit(low) != -1
    ensures Extract([high, low]) == Number(false, HexDigit(high) * 16 + HexDigit(low))
  {
    var s := [high, low];
    PlainNumber(s);
    assert s[..1] == [high] && s[..1][..0] == "" && HexValue(s[..1]) == HexDigit(high);
  }

  // ---------------------------------------------------------------- what is taken, in the characters' own terms

  /** The digits are the sixteen, in either case, and nothing else. */
  lemma DigitsAre(c: char)
    ensures forall v: nat :: v < 16 ==> HexDigit("0123456789abcdef"[v]) == v && HexDigit("0123456789ABCDEF"[v]) == v
    ensures HexDigit(c) != -1 <==> c in "0123456789abcdefABCDEF"
  {
    if HexDigit(c) != -1 {
      assert c == "0123456789abcdef"[HexDigit(c)] || c == "0123456789ABCDEF"[HexDigit(c)];
    }
  }

  /** A number grows by one digit at its end. */
  lemma ValueGrows(s: string, c: char)
    requires AllHex(s) && HexDigit(c) != -1
    ensures AllHex(s + [c]) && HexValue(s + [c]) == HexValue(s) * 16 + HexDigit(c) && HexValue("") == 0
  {
    assert (s + [c])[..|s|] == s;
  }

  lemma OneDigit(c: char)
    requires HexDigit(c) != -1
    ensures AllHex([c]) && HexValue([c]) == HexDigit(c)
  {
    ValueGrows("", c);
    assert "" + [c] == [c];
  }

  lemma {:induction false} HexRunIs(digits: string, junk: string)
    requires AllHex(digits) && (|junk| > 0 ==> HexDigit(junk[0]) == -1)
    ensures HexRun(digits + junk) == |digits|
  {
    if |digits| > 0 {
      assert (digits + junk)[1..] == digits[1..] + junk;
      HexRunIs(digits[1..], junk);
    } else {
      assert digits + junk == junk;
    }
  }

  predicate IsSign(sign: string) {
    sign == "" || sign == "+" || sign == "-"
  }

  predicate IsPrefix(prefix: string) {
    prefix == "" || prefix == "0x" || prefix == "0X"
  }

  /** Digits and what follows them, neither of which can be taken for a sign or a prefix. */
  predicate IsNumber(digits: string, junk: string) {
    && |digits| > 0 && AllHex(digits) && (|junk| > 0 ==> HexDigit(junk[0]) == -1)
    && !(digits == "0" && |junk| > 0 && (junk[0] == 'x' || junk[0] == 'X'))
  }

  lemma NumberFirst(sign: string, prefix: string, digits: string, junk: string)
    requires IsSign(sign) && IsPrefix(prefix) && IsNumber(digits, junk)
    ensures var t := sign + (prefix + (digits + junk));
            |t| > 0 && !IsSpace(t[0]) && (t[0] == '-' <==> sign == "-") && Unprefixed(Unsigned(t)) == digits + junk
  {
    var body := digits + junk;
    assert HexDigit(body[0]) != -1 && body[0] == digits[0];
    assert |body| > 1 && body[0] == '0' ==> body[1] != 'x' && body[1] != 'X' by {
      if |digits| > 1 {
        assert HexDigit(digits[1]) != -1 && body[1] == digits[1];
      }
    }
    var u := prefix + body;
    assert prefix == "" ==> u == body;
    assert prefix != "" ==> u[2..] == body;
    assert sign == "" ==> sign + u == u;
    assert sign != "" ==> (sign + u)[1..] == u;
  }

  /** Blanks, a sign and a prefix in front of the digits, and anything behind them, change nothing but the sign. */
  lemma ExtractIs(blanks: string, sign: string, prefix: string, digits: string, junk: string)
    requires forall k :: 0 <= k < |blanks| ==> IsSpace(blanks[k])
    requires IsSign(sign) && IsPrefix(prefix) && IsNumber(digits, junk)
    ensures Extract(blanks + (sign + (prefix + (digits + junk)))) == Number(sign == "-", HexValue(digits))
  {
    var t := sign + (prefix + (digits + junk));
    NumberFirst(sign, prefix, digits, junk);
    hide Unsigned, Unprefixed, HexValue, HexRun, BlanksLen, IsSpace;
    BlanksLenIs(blanks, t);
    assert (blanks + t)[|blanks|..] == t;
    HexRunIs(digits, junk);
    assert (digits + junk)[..|digits|] == digits;
  }

  /** Nothing is taken from a text that does not begin with a digit behind its blanks, its sign and its prefix. */
  lemma NothingToExtract(blanks: string, sign: string, prefix: string, junk: string)
    requires forall k :: 0 <= k < |blanks| ==> IsSpace(blanks[k])
    requires IsSign(sign) && IsPrefix(prefix)
    requires |junk| > 0 ==> HexDigit(junk[0]) == -1
    requires sign == "" && prefix == "" && |junk| > 0 ==> !IsSpace(junk[0]) && junk[0] != '+' && junk[0] != '-'
    ensures Extract(blanks + (sign + (prefix + junk))) == NoNumber
  {
    var u := prefix + junk;
    var t := sign + u;
    assert |t| > 0 ==> !IsSpace(t[0]);
    BlanksLenIs(blanks, t);
    assert (blanks + t)[|blanks|..] == t;
    assert sign == "" ==> t == u;
    assert sign != "" ==> t[1..] == u;
    assert prefix == "" ==> u == junk;
    assert prefix != "" ==> u[2..] == junk;
    assert Unprefixed(Unsigned(t)) == junk;
  }
}
