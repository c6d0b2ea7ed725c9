/** The values of directives: numbers, sizes, hosts and ports (webserv/sources/parser/Config.cpp, ParserUtils.cpp). */
module ConfigValues {
  import opened Lexing
  import B = Bytes

  // ---------------------------------------------------------------- numbers

  function Digit(c: char): (d: nat)
    requires IsDigit(c)
    ensures d <= 9
  {
    c as int - '0' as int
  }

  /** The number that decimal digits stand for. */
  function Value(s: string): nat
    requires AllDigits(s)
  {
    if |s| == 0 then 0 else Value(s[..|s| - 1]) * 10 + Digit(s[|s| - 1])
  }

  const LONG_MAX := 0x7FFF_FFFF_FFFF_FFFF
  const SIZE_MAX := 0xFFFF_FFFF_FFFF_FFFF

  /** `strtol` and `atol` on digits: too large a number gives the largest one. */
  function Atol(s: string): nat
    requires AllDigits(s)
  {
    if Value(s) < LONG_MAX then Value(s) else LONG_MAX
  }

  /** `atoi` on digits: the low 32 bits of `strtol`, with their sign. */
  function Atoi(s: string): int
    requires AllDigits(s)
  {
    (Atol(s) + 0x8000_0000) % 0x1_0000_0000 - 0x8000_0000
  }

  function Decimal(n: nat): (s: string)
    ensures |s| > 0 && AllDigits(s)
  {
    (if n < 10 then "" else Decimal(n / 10)) + [('0' as int + n % 10) as char]
  }

  lemma {:induction false} ValueOfDecimal(n: nat)
    ensures Value(Decimal(n)) == n
  {
    var s := Decimal(n);
    if n < 10 {
      assert s[..0] == "";
    } else {
      ValueOfDecimal(n / 10);
      assert s[..|s| - 1] == Decimal(n / 10);
    }
  }

  // ---------------------------------------------------------------- sizes

  datatype SizeValue = NoSize | Bytes(n: nat)

  /** The factor of a unit, or 0. */
  function Unit(c: char): nat {
    if c == 'k' || c == 'K' then 0x400
    else if c == 'm' || c == 'M' then 0x10_0000
    else if c == 'g' || c == 'G' then 0x4000_0000
    else 0
  }

  function DigitsLen(s: string): (n: nat)
    ensures n <= |s| && AllDigits(B.Take(s, n)) && (n < |s| ==> !IsDigit(s[n]))
  {
    if |s| == 0 || !IsDigit(s[0]) then 0
    else
      var n := DigitsLen(s[1..]);
      assert s[..n + 1] == [s[0]] + s[1..][..n];
      n + 1
  }

  /** Digits, then one unit. */
  predicate SizeShape(s: string) {
    |s| >= 2 && AllDigits(s[..|s| - 1]) && Unit(s[|s| - 1]) > 0
  }

  /** The size a text stands for: the exact product, if it is one and fits into 64 bits. */
  function SizeOf(s: string): SizeValue {
    if SizeShape(s) && Value(s[..|s| - 1]) * Unit(s[|s| - 1]) <= SIZE_MAX
    then Bytes(Value(s[..|s| - 1]) * Unit(s[|s| - 1]))
    else NoSize
  }

  /** The exact product with 1024, its square or its cube, if that is below 2^64. */
  function Scaled(n: nat, factor: nat): SizeValue {
    if n * factor < 0x1_0000_0000_0000_0000 then Bytes(n * factor) else NoSize
  }

  /** Digits and one of k, m and g, small or capital, stand for that many times 1024, 1024^2 and 1024^3. */
  lemma SizeIs(digits: string, c: char)
    requires |digits| > 0 && AllDigits(digits)
    ensures c == 'k' || c == 'K' ==> SizeOf(digits + [c]) == Scaled(Value(digits), 1024)
    ensures c == 'm' || c == 'M' ==> SizeOf(digits + [c]) == Scaled(Value(digits), 1024 * 1024)
    ensures c == 'g' || c == 'G' ==> SizeOf(digits + [c]) == Scaled(Value(digits), 1024 * 1024 * 1024)
    ensures c !in "kKmMgG" ==> SizeOf(digits + [c]) == NoSize
  {
    var s := digits + [c];
    assert s[..|s| - 1] == digits && s[|s| - 1] == c;
    hide Value, AllDigits;
  }

  /** Nothing else is a size. */
  lemma OnlySizes(s: string)
    ensures SizeOf(s).Bytes? ==> |s| >= 2 && AllDigits(s[..|s| - 1]) && s[|s| - 1] in "kKmMgG"
  {
  }

  /** In particular every number in decimal is scaled so. */
  lemma SizeOfDecimal(n: nat)
    ensures SizeOf(Decimal(n) + "k") == SizeOf(Decimal(n) + "K") == Scaled(n, 1024)
    ensures SizeOf(Decimal(n) + "m") == SizeOf(Decimal(n) + "M") == Scaled(n, 1024 * 1024)
    ensures SizeOf(Decimal(n) + "g") == SizeOf(Decimal(n) + "G") == Scaled(n, 1024 * 1024 * 1024)
    ensures SizeOf(Decimal(n)) == NoSize
  {
    hide Decimal, SizeOf, Value;
    ValueOfDecimal(n);
    SizeIs(Decimal(n), 'k');
    SizeIs(Decimal(n), 'K');
    SizeIs(Decimal(n), 'm');
    SizeIs(Decimal(n), 'M');
    SizeIs(Decimal(n), 'g');
    SizeIs(Decimal(n), 'G');
    OnlySizes(Decimal(n));
    assert IsDigit(Decimal(n)[|Decimal(n)| - 1]);
  }

  lemma DivisionGuard(num: nat, mult: nat, limit: nat)
    requires mult > 0
    ensures num > limit / mult <==> num * mult > limit
  {
    if num > limit / mult {
      assert limit / mult * mult > limit - mult;
      assert num * mult >= (limit / mult + 1) * mult;
    } else {
      assert num * mult <= limit / mult * mult <= limit;
    }
  }

  /** Saturation does not matter: what it changes is far too large in any unit. */
  lemma SaturatedGuard(value: nat, mult: nat)
    requires mult >= 0x400
    ensures (if value < LONG_MAX then value else LONG_MAX) > SIZE_MAX / mult <==> value * mult > SIZE_MAX
  {
    DivisionGuard(value, mult, SIZE_MAX);
    if value >= LONG_MAX {
      assert value * mult >= LONG_MAX * 0x400;
      DivisionGuard(LONG_MAX, mult, SIZE_MAX);
      assert LONG_MAX * mult >= LONG_MAX * 0x400;
    }
  }

  lemma {:induction false} DigitsLenIs(s: string, n: nat)
    requires n <= |s| && AllDigits(s[..n]) && (n < |s| ==> !IsDigit(s[n]))
    ensures DigitsLen(s) == n
  {
    if n > 0 {
      assert IsDigit(s[..n][0]) && s[..n][1..] == s[1..][..n - 1];
      DigitsLenIs(s[1..], n - 1);
    }
  }

  lemma DigitsLenShape(s: string)
    requires |s| > 0
    ensures SizeShape(s) <==> DigitsLen(s) > 0 && DigitsLen(s) == |s| - 1 && Unit(s[|s| - 1]) > 0
  {
    assert Unit(s[|s| - 1]) > 0 ==> !IsDigit(s[|s| - 1]);
    hide AllDigits, DigitsLen, Unit, IsDigit;
    if SizeShape(s) {
      DigitsLenIs(s, |s| - 1);
    }
  }

  /** `fetchBodySize`: accepts exactly the sizes there are. */
  method FetchBodySize(size: string) returns (r: SizeValue)
    ensures r == SizeOf(size)
  {
    var i := 0;
    while i < |size| && IsDigit(size[i])
      invariant i <= |size| && AllDigits(size[..i])
    {
      assert size[..i + 1] == size[..i] + [size[i]];
      AllDigitsNext(size[..i], size[i]);
      i := i + 1;
    }
    DigitsLenIs(size, i);
    if i == 0 {
      assert !SizeShape(size) by {
        if |size| > 0 {
          DigitsLenShape(size);
        }
      }
      return NoSize;
    }
    DigitsLenShape(size);
    var nums, unit := size[..i], size[i..];
    var num := Atol(nums);
    if |unit| != 1 {
      return NoSize;
    }
    assert unit[0] == size[|size| - 1];
    var mult := Unit(unit[0]);
    if mult == 0 {
      return NoSize;
    }
    SaturatedGuard(Value(nums), mult);
    if num > SIZE_MAX / mult {
      return NoSize;
    }
    NotSaturated(Value(nums), mult);
    return Bytes(num * mult);
  }

  lemma Product(a: nat, b: nat, c: nat, d: nat)
    requires a <= c && b <= d
    ensures a * b <= c * d
  {
    assert a * b <= c * b <= c * d;
  }

  lemma NotSaturated(value: nat, mult: nat)
    requires mult >= 0x400 && value * mult <= SIZE_MAX
    ensures value < LONG_MAX
  {
    if value >= LONG_MAX {
      Product(LONG_MAX, 0x400, value, mult);
    }
  }

  // ---------------------------------------------------------------- hosts and ports

  predicate IsOctet(s: string) {
    1 <= |s| <= 3 && AllDigits(s) && Value(s) <= 255
  }

  /** `n` numbers up to 255, with dots between them. */
  predicate IsDotted(s: string, n: nat)
    decreases n
  {
    var k := DigitsLen(s);
    && n > 0 && IsOctet(s[..k])
    && if n == 1 then k == |s| else k < |s| && s[k] == '.' && IsDotted(s[k + 1..], n - 1)
  }

  predicate IsHost(s: string) {
    s == "0.0.0.0" || s == "localhost" || IsDotted(s, 4)
  }

  lemma DottedFirst(a: string, rest: string, n: nat)
    requires IsOctet(a) && n > 1 && IsDotted(rest, n - 1)
    ensures IsDotted(a + "." + rest, n)
  {
    var s := a + "." + rest;
    assert s[..|a|] == a && s[|a|] == '.' && s[|a| + 1..] == rest;
    DigitsLenIs(s, |a|);
  }

  /** Dotted means four octets. */
  lemma DottedQuad(a: string, b: string, c: string, d: string)
    requires IsOctet(a) && IsOctet(b) && IsOctet(c) && IsOctet(d)
    ensures IsDotted(a + "." + (b + "." + (c + "." + d)), 4)
  {
    assert d[..|d|] == d;
    DigitsLenIs(d, |d|);
    hide IsOctet;
    DottedFirst(c, d, 2);
    DottedFirst(b, c + "." + d, 3);
    DottedFirst(a, b + "." + (c + "." + d), 4);
  }

  lemma DottedParts(s: string, n: nat) returns (a: string, rest: string)
    requires IsDotted(s, n) && n > 1
    ensures IsOctet(a) && IsDotted(rest, n - 1) && s == a + "." + rest
  {
    var k := DigitsLen(s);
    a, rest := s[..k], s[k + 1..];
  }

  lemma QuadParts(s: string) returns (a: string, b: string, c: string, d: string)
    requires IsDotted(s, 4)
    ensures IsQuad(s, a, b, c, d)
  {
    var r, t: string;
    a, r := DottedParts(s, 4);
    b, t := DottedParts(r, 3);
    c, d := DottedParts(t, 2);
    assert d[..|d|] == d;
  }

  /** Four octets with dots between them. */
  predicate IsQuad(s: string, a: string, b: string, c: string, d: string) {
    IsOctet(a) && IsOctet(b) && IsOctet(c) && IsOctet(d) && s == a + "." + (b + "." + (c + "." + d))
  }

  /** The hosts are the two names and the quads. */
  lemma HostMeans(s: string)
    ensures IsHost(s) <==> s == "0.0.0.0" || s == "localhost" || exists a, b, c, d :: IsQuad(s, a, b, c, d)
  {
    if IsDotted(s, 4) {
      var a, b, c, d := QuadParts(s);
      assert IsQuad(s, a, b, c, d);
    }
    forall a, b, c, d | IsQuad(s, a, b, c, d) ensures IsHost(s) {
      DottedQuad(a, b, c, d);
    }
  }

  lemma {:induction false} DigitsLenAtLeast(s: string, n: nat)
    requires n <= |s| && AllDigits(s[..n])
    ensures n <= DigitsLen(s)
  {
    if n > 0 {
      assert IsDigit(s[..n][0]) && s[..n][1..] == s[1..][..n - 1];
      DigitsLenAtLeast(s[1..], n - 1);
    }
  }

  /** The octet at `from`, which ends at `i`, decides with what follows it. */
  lemma DottedStep(s: string, from: nat, i: nat, n: nat)
    requires from <= i <= |s| && n > 0 && AllDigits(s[from..i]) && (i < |s| ==> !IsDigit(s[i]))
    ensures IsDotted(s[from..], n) <==>
              && IsOctet(s[from..i])
              && if n == 1 then i == |s| else i < |s| && s[i] == '.' && IsDotted(s[i + 1..], n - 1)
  {
    assert s[from..][..i - from] == s[from..i];
    DigitsLenIs(s[from..], i - from);
    assert i < |s| ==> s[from..][i - from + 1..] == s[i + 1..];
  }

  lemma TooLong(s: string, from: nat, n: nat)
    requires from + 4 <= |s| && AllDigits(s[from..from + 4])
    ensures !IsDotted(s[from..], n)
  {
    assert s[from..][..4] == s[from..from + 4];
    DigitsLenAtLeast(s[from..], 4);
  }

  lemma ValueNext(s: string, from: nat, i: nat)
    requires from <= i < |s| && AllDigits(s[from..i]) && IsDigit(s[i])
    ensures AllDigits(s[from..i + 1]) && Value(s[from..i + 1]) == Value(s[from..i]) * 10 + Digit(s[i])
  {
    NextSlice(s, from, i);
    AllDigitsNext(s[from..i], s[i]);
    var t := s[from..i + 1];
    assert t[..|t| - 1] == s[from..i];
  }

  /** At most three digits from `from` to `i`, and their value. */
  predicate IsRun(s: string, from: nat, i: nat, val: nat) {
    from <= i <= |s| && AllDigits(s[from..i]) && i - from <= 3 && val == Value(s[from..i])
  }

  /** The digits from `from` on, and their value; more than three are too many. */
  method ReadOctet(host: string, from: nat) returns (i: nat, val: nat, ok: bool)
    requires from < |host|
    ensures from <= i <= |host|
    ensures ok ==> IsRun(host, from, i, val) && (i < |host| ==> !IsDigit(host[i]))
    ensures !ok ==> forall n :: !IsDotted(host[from..], n)
  {
    i, val := from, 0;
    var digits := 0;
    while i < |host| && IsDigit(host[i])
      invariant from <= i <= |host| && digits == i - from <= 3
      invariant AllDigits(host[from..i]) && val == Value(host[from..i])
    {
      ValueNext(host, from, i);
      val := val * 10 + Digit(host[i]);
      digits := digits + 1;
      if digits > 3 {
        forall n: nat ensures !IsDotted(host[from..], n) {
          TooLong(host, from, n);
        }
        return i, val, false;
      }
      i := i + 1;
    }
    ok := true;
  }

  /** The loop of `validHost`. */
  method DottedHost(host: string) returns (r: bool)
    ensures r == IsDotted(host, 4)
  {
    hide IsDotted, AllDigits, Value, DigitsLen;
    var i, octet := 0, 0;
    B.Whole(host);
    while i < |host|
      invariant i <= |host| && octet < 4 && IsDotted(host, 4) == IsDotted(host[i..], 4 - octet)
      decreases |host| - i
    {
      var from := i;
      var val, ok;
      i, val, ok := ReadOctet(host, from);
      if !ok {
        return false;
      }
      DottedStep(host, from, i, 4 - octet);
      if i == from || val > 255 {
        return false;
      }
      octet := octet + 1;
      if octet == 4 {
        return i == |host|;
      }
      if i >= |host| || host[i] != '.' {
        return false;
      }
      i := i + 1;
    }
    NotDotted(host[i..], 4 - octet);
    return false;
  }

  /** `validHost`: accepts exactly the hosts. */
  method ValidHost(host: string) returns (r: bool)
    ensures r == IsHost(host)
  {
    if host == "" {
      NotDotted(host, 4);
      return false;
    }
    if host == "0.0.0.0" || host == "localhost" {
      return true;
    }
    r := DottedHost(host);
  }

  lemma NotDotted(s: string, n: nat)
    requires |s| == 0
    ensures !IsDotted(s, n)
  {
  }

  const PORT_MIN := 1024
  const PORT_MAX := 65535

  /** Digits, whose `atoi` is in range. */
  predicate IsPort(s: string) {
    AllDigits(s) && PORT_MIN <= Atoi(s) <= PORT_MAX
  }

  datatype PortCheck = PortOk | PortNotNumber | PortOutOfRange

  /** `validatePort`: accepts exactly the ports. */
  method ValidatePort(port: string) returns (r: PortCheck)
    ensures r == PortOk <==> IsPort(port)
    ensures r == PortNotNumber <==> !AllDigits(port)
  {
    for i := 0 to |port|
      invariant AllDigits(port[..i])
    {
      assert port[..i + 1] == port[..i] + [port[i]];
      AllDigitsNext(port[..i], port[i]);
      if !IsDigit(port[i]) {
        return PortNotNumber;
      }
    }
    assert port[..|port|] == port;
    var n := Atoi(port);
    r := if n < PORT_MIN || n > PORT_MAX then PortOutOfRange else PortOk;
  }

  // ---------------------------------------------------------------- what `atoi` lets through

  const TWO_32 := 0x1_0000_0000

  /** The low 32 bits with their sign: the remainder, or less than nothing. */
  lemma LowBits(v: nat)
    ensures var low := (v + 0x8000_0000) % TWO_32 - 0x8000_0000;
            if v % TWO_32 < 0x8000_0000 then low == v % TWO_32 else low < 0
  {
    var q, r := v / TWO_32, v % TWO_32;
    if r < 0x8000_0000 {
      Remainder(v + 0x8000_0000, q, r + 0x8000_0000);
    } else {
      Remainder(v + 0x8000_0000, q + 1, r - 0x8000_0000);
    }
  }

  lemma Remainder(v: nat, q: nat, r: nat)
    requires v == q * TWO_32 + r && r < TWO_32
    ensures v % TWO_32 == r
  {
  }

  /** A number that is not negative for `atoi` and at most `limit`: the low 32 bits of one that `strtol` can hold. */
  lemma AtoiWithin(s: string, limit: nat)
    requires AllDigits(s) && limit < 0x8000_0000
    ensures 0 <= Atoi(s) <= limit <==> Value(s) < LONG_MAX && Value(s) % TWO_32 <= limit
    ensures 0 <= Atoi(s) <= limit ==> Atoi(s) == Value(s) % TWO_32
  {
    LowBits(Atol(s));
    assert LONG_MAX == 0x7FFF_FFFF * TWO_32 + 0xFFFF_FFFF;
    Remainder(LONG_MAX, 0x7FFF_FFFF, 0xFFFF_FFFF);
  }

  /** Exactly the digits whose low 32 bits are in the range of the ports are accepted, below the largest `long`. */
  lemma AcceptedPorts(s: string)
    requires AllDigits(s)
    ensures IsPort(s) <==> Value(s) < LONG_MAX && PORT_MIN <= Value(s) % TWO_32 <= PORT_MAX
  {
    AtoiWithin(s, PORT_MAX);
  }

  /** An accepted port is a number in range exactly when it fits into 32 bits. */
  lemma PortInRangeIff(s: string)
    requires IsPort(s)
    ensures PORT_MIN <= Value(s) <= PORT_MAX <==> Value(s) < TWO_32
  {
    AcceptedPorts(s);
  }

  /** A port beyond 32 bits is accepted as 8080. */
  lemma WrappedPort()
    ensures var port := Decimal(TWO_32 + 8080); IsPort(port) && Value(port) == 4294975376 && Atoi(port) == 8080
  {
    ValueOfDecimal(TWO_32 + 8080);
  }
}
