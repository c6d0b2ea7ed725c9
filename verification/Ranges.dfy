/** The Range header (webserv/sources/response/response.cpp:128-202, section 14.1.2 of RFC 9110). */
module Ranges {
  import opened Lexing
  import opened ConfigValues
  import B = Bytes

  datatype RangeError =
    | NoError | NotBytes | NoDash | InvalidStart | InvalidEnd | StartAfterEnd | InvalidSuffix | BeyondEof

  datatype Range = Range(start: int, end: int, valid: bool, error: RangeError)

  // ---------------------------------------------------------------- numbers

  datatype Long = NotLong | Long(value: int)

  /** Digits alone, with a limit that `strtoll` does not pass. */
  function Magnitude(s: string, limit: nat): Long {
    if |s| > 0 && AllDigits(s) then Long(B.Min(Value(s), limit)) else NotLong
  }

  /** What a C string holds: all before the first NUL. */
  function CString(s: string): string {
    s[..B.CharAt(s, '\0')]
  }

  /** The number the whole C string is, for `strtoll`: blanks, a sign, digits; an empty one is taken as 0. */
  function ParseLong(text: string): Long {
    var s := CString(text);
    var t := s[B.BlanksLen(s)..];
    if s == "" then Long(0)
    else if |t| > 0 && t[0] == '-' then
      match Magnitude(t[1..], LONG_MAX + 1) {
        case NotLong => NotLong
        case Long(v) => Long(-v)
      }
    else if |t| > 0 && t[0] == '+' then Magnitude(t[1..], LONG_MAX)
    else Magnitude(t, LONG_MAX)
  }

  const UNSET := -1

  function Failed(r: Range, error: RangeError): Range {
    r.(valid := false, error := error)
  }

  predicate IsBytes(header: string) {
    |header| >= 7 && header[..6] == "bytes="
  }

  function Max(a: int, b: int): int { if a < b then b else a }

  /** A start and an end, either of which may be unset, on a file. */
  function Fit(start: int, end: int, size: nat): Range {
    if start != UNSET && end != UNSET && start > end then Range(start, end, false, StartAfterEnd)
    else if start == UNSET && end != UNSET && (end <= 0 || end > size) then Range(start, end, false, InvalidSuffix)
    else
      var suffix := start == UNSET && end != UNSET;
      var a := if suffix then size - end else start;
      var b := if suffix then size - 1 else end;
      if a != UNSET && a >= size then Range(a, b, false, BeyondEof)
      else
        var first := if a == UNSET then 0 else a;
        var last := if b == UNSET then size - 1 else b;
        Range(Max(0, B.Min(first, size - 1)), B.Min(last, size - 1), true, NoError)
  }

  /** The texts before and after the dash. */
  function RangeOfParts(first: string, second: string, size: nat): Range {
    var a := if first == "" then Long(UNSET) else ParseLong(first);
    if a == NotLong || (first != "" && a.value < 0) then Range(UNSET, UNSET, false, InvalidStart)
    else
      var b := if second == "" then Long(UNSET) else ParseLong(second);
      if b == NotLong then Range(a.value, UNSET, false, InvalidEnd)
      else Fit(a.value, b.value, size)
  }

  /** What a header asks for. */
  function RangeOf(header: string, size: nat): Range {
    if !IsBytes(header) then Range(UNSET, UNSET, false, NotBytes)
    else
      var spec := header[6..];
      var dash := B.CharAt(spec, '-');
      if dash == |spec| then Range(UNSET, UNSET, false, NoDash)
      else RangeOfParts(spec[..dash], spec[dash + 1..], size)
  }

  /** A valid range on a file that is not empty lies in the file. */
  lemma ValidIsInFile(header: string, size: nat)
    requires size > 0 && RangeOf(header, size).valid
    ensures var r := RangeOf(header, size); 0 <= r.start <= r.end < size
  {
    hide ParseLong, B.CharAt, IsBytes;
  }

  /** On an empty file every valid range is upside down. */
  lemma EmptyFileRange(header: string)
    requires RangeOf(header, 0).valid
    ensures RangeOf(header, 0).start == 0 && RangeOf(header, 0).end == -1
  {
    hide ParseLong, B.CharAt, IsBytes;
  }

  lemma EmptyFileHasRange()
    ensures RangeOf("bytes=-", 0).valid
  {
    assert "bytes=-"[..6] == "bytes=" && "bytes=-"[6..] == "-";
    assert "-"[..0] == "" && "-"[1..] == "";
  }

  // ---------------------------------------------------------------- the three forms

  lemma NoBlanks(s: string)
    requires |s| > 0 && AllDigits(s)
    ensures ParseLong(s) == Long(Atol(s))
  {
    B.CharAtNone(s, '\0');
    B.Whole(s);
    assert s[B.BlanksLen(s)..] == s;
  }

  lemma LongOfDecimal(n: nat)
    ensures ParseLong(Decimal(n)) == Long(if n < LONG_MAX then n else LONG_MAX)
  {
    NoBlanks(Decimal(n));
    ValueOfDecimal(n);
  }

  function Header(first: string, second: string): string {
    "bytes=" + (first + ("-" + second))
  }

  lemma HeaderParts(a: string, b: string, size: nat)
    requires '-' !in a
    ensures RangeOf(Header(a, b), size) == RangeOfParts(a, b, size)
  {
    hide RangeOfParts, B.CharAt;
    var spec := a + (['-'] + b);
    B.CharAtIs(a, '-', b);
    B.AroundChar(a, '-', b);
    BehindBytes(spec);
    assert Header(a, b) == "bytes=" + spec;
  }

  lemma BehindBytes(spec: string)
    ensures var h := "bytes=" + spec; h[..6] == "bytes=" && h[6..] == spec
  {
  }

  /** `bytes=a-b`: from `a` to `b`, or to the end of the file. */
  lemma ClosedRange(a: nat, b: nat, size: nat)
    requires a <= b < LONG_MAX && a < size
    ensures RangeOf(Header(Decimal(a), Decimal(b)), size) == Range(a, B.Min(b, size - 1), true, NoError)
  {
    hide ParseLong, Decimal, RangeOf, Header, RangeOfParts, Fit;
    HeaderParts(Decimal(a), Decimal(b), size);
    LongOfDecimal(a);
    LongOfDecimal(b);
    ClosedParts(Decimal(a), Decimal(b), a, b, size);
    FitClosed(a, b, size);
  }

  lemma ClosedParts(first: string, second: string, a: nat, b: nat, size: nat)
    requires |first| > 0 && |second| > 0 && ParseLong(first) == Long(a) && ParseLong(second) == Long(b)
    ensures RangeOfParts(first, second, size) == Fit(a, b, size)
  {
    hide ParseLong, Fit;
  }

  lemma FitClosed(a: nat, b: nat, size: nat)
    requires a <= b && a < size
    ensures Fit(a, b, size) == Range(a, B.Min(b, size - 1), true, NoError)
  {
  }

  /** `bytes=a-`: from `a` on. */
  lemma OpenRange(a: nat, size: nat)
    requires a < size && a < LONG_MAX
    ensures RangeOf(Header(Decimal(a), ""), size) == Range(a, size - 1, true, NoError)
  {
    HeaderParts(Decimal(a), "", size);
    LongOfDecimal(a);
    hide ParseLong, Decimal, RangeOf, Header;
  }

  lemma SuffixParts(second: string, n: nat, size: nat)
    requires |second| > 0 && ParseLong(second) == Long(n)
    ensures RangeOfParts("", second, size) == Fit(UNSET, n, size)
  {
    hide ParseLong, Fit;
  }

  lemma FitSuffix(n: nat, size: nat)
    requires 0 < n <= size
    ensures Fit(UNSET, n, size) == Range(size - n, size - 1, true, NoError)
  {
  }

  /** `bytes=-n`: the last `n` bytes. */
  lemma SuffixRange(n: nat, size: nat)
    requires 0 < n <= size && n < LONG_MAX
    ensures RangeOf(Header("", Decimal(n)), size) == Range(size - n, size - 1, true, NoError)
  {
    hide ParseLong, Decimal, RangeOf, Header, RangeOfParts, Fit;
    HeaderParts("", Decimal(n), size);
    LongOfDecimal(n);
    SuffixParts(Decimal(n), n, size);
    FitSuffix(n, size);
  }

  // ---------------------------------------------------------------- what is refused

  lemma FitIff(a: nat, b: nat, size: nat)
    ensures Fit(a, b, size).valid <==> a <= b && a < size
    ensures a > b ==> Fit(a, b, size).error == StartAfterEnd
    ensures a <= b && a >= size ==> Fit(a, b, size).error == BeyondEof
  {
  }

  /** `bytes=a-b` is a range exactly when it is not upside down and begins inside the file. */
  lemma ClosedIff(a: nat, b: nat, size: nat)
    requires a < LONG_MAX && b < LONG_MAX
    ensures var r := RangeOf(Header(Decimal(a), Decimal(b)), size);
            && (r.valid <==> a <= b && a < size)
            && (a > b ==> r.error == StartAfterEnd) && (a <= b && a >= size ==> r.error == BeyondEof)
  {
    hide ParseLong, Decimal, RangeOf, Header, RangeOfParts, Fit;
    HeaderParts(Decimal(a), Decimal(b), size);
    LongOfDecimal(a);
    LongOfDecimal(b);
    ClosedParts(Decimal(a), Decimal(b), a, b, size);
    FitIff(a, b, size);
  }

  lemma OpenParts(first: string, a: nat, size: nat)
    requires |first| > 0 && ParseLong(first) == Long(a)
    ensures RangeOfParts(first, "", size) == Fit(a, UNSET, size)
  {
    hide ParseLong, Fit;
  }

  /** `bytes=a-` is a range exactly when it begins inside the file. */
  lemma OpenIff(a: nat, size: nat)
    requires a < LONG_MAX
    ensures var r := RangeOf(Header(Decimal(a), ""), size);
            (r.valid <==> a < size) && (a >= size ==> r.error == BeyondEof)
  {
    hide ParseLong, Decimal, RangeOf, Header, RangeOfParts, Fit;
    HeaderParts(Decimal(a), "", size);
    LongOfDecimal(a);
    OpenParts(Decimal(a), a, size);
    FitOpenIff(a, size);
  }

  lemma FitOpenIff(a: nat, size: nat)
    ensures (Fit(a, UNSET, size).valid <==> a < size) && (a >= size ==> Fit(a, UNSET, size).error == BeyondEof)
  {
  }

  /** `bytes=-n` is a range exactly when the file has as many bytes, and some are asked for. */
  lemma SuffixIff(n: nat, size: nat)
    requires n < LONG_MAX
    ensures var r := RangeOf(Header("", Decimal(n)), size);
            (r.valid <==> 0 < n <= size) && (!(0 < n <= size) ==> r.error == InvalidSuffix)
  {
    hide ParseLong, Decimal, RangeOf, Header, RangeOfParts, Fit;
    HeaderParts("", Decimal(n), size);
    LongOfDecimal(n);
    SuffixParts(Decimal(n), n, size);
    FitSuffixIff(n, size);
  }

  lemma FitSuffixIff(n: nat, size: nat)
    ensures (Fit(UNSET, n, size).valid <==> 0 < n <= size) && (!(0 < n <= size) ==> Fit(UNSET, n, size).error == InvalidSuffix)
  {
  }

  /** `bytes=-` is the whole file. */
  lemma WholeFile(size: nat)
    requires size > 0
    ensures RangeOf("bytes=-", size) == Range(0, size - 1, true, NoError)
  {
    assert "" + ("-" + "") == "-" && "bytes=" + "-" == "bytes=-";
    HeaderParts("", "", size);
    hide RangeOf;
  }

  /** A header is no range without `bytes=` and something behind it, or without a dash. */
  lemma NoRangeAtAll(header: string, spec: string, size: nat)
    ensures !("bytes=" < header) ==> RangeOf(header, size).error == NotBytes && !RangeOf(header, size).valid
    ensures spec != "" && '-' !in spec ==>
              RangeOf("bytes=" + spec, size).error == NoDash && !RangeOf("bytes=" + spec, size).valid
  {
    if IsBytes(header) {
      assert header[..6] == "bytes=";
    }
    BehindBytes(spec);
    if '-' !in spec {
      B.CharAtNone(spec, '-');
    }
    hide RangeOfParts, B.CharAt;
  }

  predicate IsSign(sign: string) {
    sign == "" || sign == "+" || sign == "-"
  }

  lemma NoNul(blanks: string, sign: string, digits: string)
    requires (forall k :: 0 <= k < |blanks| ==> B.IsSpace(blanks[k])) && AllDigits(digits) && IsSign(sign)
    ensures CString(blanks + (sign + digits)) == blanks + (sign + digits)
  {
    var s := blanks + (sign + digits);
    assert '\0' !in blanks && '\0' !in sign && '\0' !in digits;
    assert '\0' !in s;
    B.CharAtNone(s, '\0');
    B.Whole(s);
    hide B.CharAt;
  }

  lemma SignFirst(sign: string, digits: string)
    requires |digits| > 0 && AllDigits(digits) && IsSign(sign)
    ensures var t := sign + digits;
            && !B.IsSpace(t[0]) && (t[0] == '-' <==> sign == "-") && (t[0] == '+' <==> sign == "+")
            && (sign == "" ==> t == digits) && (sign != "" ==> t[1..] == digits)
  {
    assert IsDigit(digits[0]);
  }

  lemma BehindBlanks(blanks: string, t: string)
    requires (forall k :: 0 <= k < |blanks| ==> B.IsSpace(blanks[k])) && |t| > 0 && !B.IsSpace(t[0])
    ensures (blanks + t)[B.BlanksLen(blanks + t)..] == t
  {
    B.BlanksLenIs(blanks, t);
  }

  /** Blanks and a sign may stand in front of a number, and nothing behind it. */
  lemma SignedNumber(blanks: string, sign: string, digits: string)
    requires (forall k :: 0 <= k < |blanks| ==> B.IsSpace(blanks[k])) && |digits| > 0 && AllDigits(digits) && IsSign(sign)
    ensures ParseLong(blanks + (sign + digits)) ==
            if sign == "-" then Long(-B.Min(Value(digits), 0x8000_0000_0000_0000))
            else Long(B.Min(Value(digits), 0x7FFF_FFFF_FFFF_FFFF))
  {
    hide Value, AllDigits, CString, B.BlanksLen, B.IsSpace;
    NoNul(blanks, sign, digits);
    SignFirst(sign, digits);
    BehindBlanks(blanks, sign + digits);
  }

  /** A number ends at a NUL, and an empty one is taken as 0. */
  lemma BehindNul(s: string, rest: string)
    requires '\0' !in s
    ensures ParseLong(s + "\0" + rest) == ParseLong(s) && ParseLong("") == Long(0)
  {
    B.CharAtIs(s, '\0', rest);
    B.CharAtNone(s, '\0');
    B.Whole(s);
    assert s + "\0" + rest == s + (['\0'] + rest) && (s + "\0" + rest)[..|s|] == s;
  }

  lemma NotANumber(s: string)
    requires s != "" && '\0' !in s && !B.IsSpace(s[0]) && s[0] != '+' && s[0] != '-' && !AllDigits(s)
    ensures ParseLong(s) == NotLong
  {
    B.CharAtNone(s, '\0');
    B.Whole(s);
    assert s[B.BlanksLen(s)..] == s;
  }

  // ---------------------------------------------------------------- the code

  /** `parseRangeHeader`, field by field. */
  method ParseRangeHeader(header: string, fileSize: nat) returns (r: Range)
    ensures r == RangeOf(header, fileSize)
  {
    hide ParseLong;
    r := Range(UNSET, UNSET, false, NoError);
    if |header| < 7 || header[..6] != "bytes=" {
      return r.(error := NotBytes);
    }
    var spec := header[6..];
    var dash := B.CharAt(spec, '-');
    if dash == |spec| {
      return r.(error := NoDash);
    }
    var first, second := spec[..dash], spec[dash + 1..];
    if first == "" {
      r := r.(start := UNSET);
    } else {
      var val := ParseLong(first);
      if val == NotLong || val.value < 0 {
        return r.(error := InvalidStart);
      }
      r := r.(start := val.value);
    }
    if second == "" {
      r := r.(end := UNSET);
    } else {
      var val := ParseLong(second);
      if val == NotLong {
        return r.(error := InvalidEnd);
      }
      r := r.(end := val.value);
    }
    if r.start != UNSET && r.end != UNSET && r.start > r.end {
      return r.(error := StartAfterEnd);
    }
    if r.start == UNSET && r.end != UNSET {
      if r.end <= 0 || r.end > fileSize {
        return r.(error := InvalidSuffix);
      }
      r := r.(start := fileSize - r.end, end := fileSize - 1);
    }
    if r.start != UNSET && r.start >= fileSize {
      return r.(error := BeyondEof);
    }
    if r.end == UNSET {
      r := r.(end := fileSize - 1);
    }
    if r.start == UNSET {
      r := r.(start := 0);
    }
    r := r.(start := Max(0, B.Min(r.start, fileSize - 1)));
    r := r.(end := B.Min(r.end, fileSize - 1));
    r := r.(valid := true);
  }
}
