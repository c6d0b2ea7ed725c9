/** Substring search over byte strings, as `std::string::find` performs it. */
module Bytes {
  const CRLF := "\r\n"
  const BLANK_LINE := "\r\n\r\n"

  function Min(a: int, b: int): int {
    if a < b then a else b
  }

  /** `std::isspace` in the C locale. */
  predicate IsSpace(c: char) {
    c == ' ' || 9 <= c as int <= 13
  }

  /** How many of the first characters are blanks. */
  function BlanksLen(s: string): (n: nat)
    ensures n <= |s|
  {
    if |s| == 0 || !IsSpace(s[0]) then 0 else 1 + BlanksLen(s[1..])
  }

  lemma {:induction false} BlanksLenIs(blanks: string, rest: string)
    requires forall k :: 0 <= k < |blanks| ==> IsSpace(blanks[k])
    requires |rest| > 0 ==> !IsSpace(rest[0])
    ensures BlanksLen(blanks + rest) == |blanks|
  {
    if |blanks| > 0 {
      assert (blanks + rest)[1..] == blanks[1..] + rest;
      BlanksLenIs(blanks[1..], rest);
    } else {
      assert blanks + rest == rest;
    }
  }

  /** The blanks are the six, in ASCII. */
  lemma SpacesAre(c: char)
    ensures IsSpace(c) <==> c == ' ' || c == '\t' || c == '\n' || c == 11 as char || c == 12 as char || c == '\r'
  {
  }

  /** The first `n` elements. */
  function Take<T>(s: seq<T>, n: nat): seq<T>
    requires n <= |s|
  {
    s[..n]
  }

  /** The pattern occurs in `s` at index `i`. */
  predicate At(s: string, p: string, i: int) {
    0 <= i && i + |p| <= |s| && s[i..i + |p|] == p
  }

  /** The least index not below `from` at which `p` occurs, or -1 (npos). */
  function FindFrom(s: string, p: string, from: nat): (r: int)
    ensures r == -1 ==> forall i :: from <= i ==> !At(s, p, i)
    ensures r != -1 ==> from <= r && At(s, p, r) && forall i :: from <= i < r ==> !At(s, p, i)
    decreases |s| - from
  {
    if from + |p| > |s| then -1
    else if At(s, p, from) then from
    else FindFrom(s, p, from + 1)
  }

  function Find(s: string, p: string): (r: int)
    ensures r == -1 ==> forall i :: !At(s, p, i)
    ensures r != -1 ==> At(s, p, r) && forall i :: 0 <= i < r ==> !At(s, p, i)
  {
    FindFrom(s, p, 0)
  }

  predicate Contains(s: string, p: string) {
    Find(s, p) != -1
  }

  /** An occurrence inside `s` is one of `s + t`, and those of `s + t` that end inside `s` are in `s`. */
  lemma AtExtend(s: string, t: string, p: string, i: int)
    requires i + |p| <= |s|
    ensures At(s + t, p, i) == At(s, p, i)
  {
    if 0 <= i {
      assert (s + t)[i..i + |p|] == s[i..i + |p|];
    }
  }

  /** Dropping `k` leading bytes shifts the occurrences that start at or after `k`. */
  lemma AtDrop(s: string, p: string, k: nat, i: int)
    requires k <= |s| && k <= i
    ensures At(s, p, i) == At(s[k..], p, i - k)
  {
    if i + |p| <= |s| {
      assert s[k..][i - k..i - k + |p|] == s[i..i + |p|];
    }
  }

  /** Appending bytes never moves the first occurrence. */
  lemma FindExtend(s: string, t: string, p: string)
    requires Find(s, p) != -1
    ensures Find(s + t, p) == Find(s, p)
  {
    var r := Find(s, p);
    AtExtend(s, t, p, r);
    forall i | 0 <= i < r ensures !At(s + t, p, i) {
      AtExtend(s, t, p, i);
    }
  }

  /** The first occurrence is the index with an occurrence and none before it. */
  lemma FindIs(s: string, p: string, r: nat)
    requires At(s, p, r)
    requires forall i :: 0 <= i < r ==> !At(s, p, i)
    ensures Find(s, p) == r
  {
  }

  /** If the first occurrence starts at or after `k`, dropping `k` bytes shifts it by `k`. */
  lemma FindDrop(s: string, p: string, k: nat)
    requires k <= |s|
    requires Find(s, p) == -1 || k <= Find(s, p)
    ensures Find(s[k..], p) == if Find(s, p) == -1 then -1 else Find(s, p) - k
  {
    var r := Find(s, p);
    forall i | 0 <= i ensures At(s[k..], p, i) == At(s, p, i + k) {
      AtDrop(s, p, k, i + k);
    }
    if r != -1 {
      assert At(s[k..], p, r - k);
      forall i | 0 <= i < r - k ensures !At(s[k..], p, i) {
        assert !At(s, p, i + k);
      }
      FindIs(s[k..], p, r - k);
    }
  }

  /** A prefix has the first occurrence if it is long enough, and none otherwise. */
  lemma FindPrefix(s: string, p: string, x: nat)
    requires x <= |s| && Find(s, p) != -1
    ensures Find(s[..x], p) == if Find(s, p) + |p| <= x then Find(s, p) else -1
  {
    var r := Find(s, p);
    assert s == s[..x] + s[x..];
    forall i | 0 <= i && i + |p| <= x ensures At(s[..x], p, i) == At(s, p, i) {
      AtExtend(s[..x], s[x..], p, i);
    }
  }

  /** The place of the first `c`, or the length. */
  function CharAt(s: string, c: char): (n: nat)
    ensures n <= |s| && c !in Take(s, n) && (n < |s| ==> s[n] == c)
  {
    if |s| == 0 || s[0] == c then 0 else 1 + CharAt(s[1..], c)
  }

  lemma {:induction false} CharAtIs(a: string, c: char, b: string)
    requires c !in a
    ensures CharAt(a + ([c] + b), c) == |a|
  {
    if |a| > 0 {
      assert (a + ([c] + b))[1..] == a[1..] + ([c] + b);
      CharAtIs(a[1..], c, b);
    } else {
      assert a + ([c] + b) == [c] + b;
    }
  }

  lemma {:induction false} CharAtNone(a: string, c: char)
    requires c !in a
    ensures CharAt(a, c) == |a|
  {
    if |a| > 0 {
      CharAtNone(a[1..], c);
    }
  }

  lemma AroundChar(a: string, c: char, b: string)
    ensures var s := a + ([c] + b); s[..|a|] == a && s[|a| + 1..] == b && |s| == |a| + 1 + |b|
  {
  }

  /** The pieces of a stream one behind the other. */
  function Flatten(pieces: seq<string>): string {
    if |pieces| == 0 then "" else pieces[0] + Flatten(pieces[1..])
  }

  lemma {:induction false} FlattenLast(pieces: seq<string>)
    requires |pieces| > 0
    ensures Flatten(pieces) == Flatten(pieces[..|pieces| - 1]) + pieces[|pieces| - 1]
  {
    var n := |pieces| - 1;
    if n > 0 {
      FlattenLast(pieces[1..]);
      assert pieces[1..][..n - 1] == pieces[..n][1..];
      Assoc(pieces[0], Flatten(pieces[..n][1..]), pieces[n]);
    } else {
      Alone(pieces[0]);
      assert Flatten(pieces[1..]) == "" && Flatten(pieces[..n]) == "";
    }
  }

  lemma Assoc<T>(a: seq<T>, b: seq<T>, c: seq<T>)
    ensures (a + b) + c == a + (b + c)
  {
  }

  lemma Alone<T>(s: seq<T>)
    ensures [] + s == s && s + [] == s
  {
  }

  lemma Whole<T>(s: seq<T>)
    ensures s[0..] == s && s[..|s|] == s
  {
  }

  lemma TakeConcat(a: string, b: string, x: nat)
    requires |a| <= x <= |a + b|
    ensures (a + b)[..x] == a + b[..x - |a|]
  {
  }

  lemma SliceConcat(a: string, b: string, x: nat, y: nat)
    requires |a| <= x <= y <= |a + b|
    ensures (a + b)[x..y] == b[x - |a|..y - |a|]
  {
  }
}
