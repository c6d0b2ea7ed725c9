/**
 * Path arithmetic (webserv/sources/request/utils.cpp, webserv/sources/response/location.cpp): segments,
 * dot-segment removal on a stack, and the replacement of a location by its root.
 */
module Paths {
  import Bytes

  // ---------------------------------------------------------------- segments

  /** The place of the first slash, or the length. */
  function SlashAt(s: string): (n: nat)
    ensures n <= |s| && '/' !in Bytes.Take(s, n) && (n < |s| ==> s[n] == '/')
  {
    Bytes.CharAt(s, '/')
  }

  function NonEmpty(segment: string): seq<string> {
    if segment == "" then [] else [segment]
  }

  /** The parts between slashes that are not empty. */
  function Segments(s: string): (segments: seq<string>)
    decreases |s|
  {
    var n := SlashAt(s);
    if n == |s| then NonEmpty(s) else NonEmpty(s[..n]) + Segments(s[n + 1..])
  }

  predicate IsSegment(s: string) {
    s != "" && '/' !in s
  }

  predicate AllSegments(segments: seq<string>) {
    forall k :: 0 <= k < |segments| ==> IsSegment(segments[k])
  }

  /** `b` under `a`. */
  function Under(a: string, b: string): string {
    a + "/" + b
  }

  lemma UnderAssoc(a: string, b: string, c: string)
    ensures Under(Under(a, b), c) == Under(a, Under(b, c))
  {
  }

  lemma SlashAtIs(a: string, b: string)
    requires '/' !in a
    ensures SlashAt(Under(a, b)) == |a|
  {
    Bytes.CharAtIs(a, '/', b);
    Bytes.Assoc(a, "/", b);
  }

  lemma NoSlash(a: string)
    requires '/' !in a
    ensures SlashAt(a) == |a| && Segments(a) == NonEmpty(a)
  {
    Bytes.CharAtNone(a, '/');
  }

  lemma UnderCut(a: string, b: string)
    ensures Under(a, b)[..|a|] == a && Under(a, b)[|a| + 1..] == b && |Under(a, b)| == |a| + 1 + |b|
  {
  }

  lemma CutAt(a: string, n: nat)
    requires n < |a| && a[n] == '/'
    ensures a == Under(a[..n], a[n + 1..])
  {
  }

  lemma FirstSegment(a: string, b: string)
    requires '/' !in a
    ensures Segments(Under(a, b)) == NonEmpty(a) + Segments(b)
  {
    SlashAtIs(a, b);
    UnderCut(a, b);
  }

  /** A slash separates. */
  lemma {:induction false} SegmentsOfJoined(a: string, b: string)
    ensures Segments(Under(a, b)) == Segments(a) + Segments(b)
    decreases |a|
  {
    var n := SlashAt(a);
    if n == |a| {
      assert a[..n] == a;
      NoSlash(a);
      FirstSegment(a, b);
    } else {
      var a1, a2 := a[..n], a[n + 1..];
      CutAt(a, n);
      hide Segments, Under, NonEmpty;
      FirstSegment(a1, Under(a2, b));
      FirstSegment(a1, a2);
      UnderAssoc(a1, a2, b);
      SegmentsOfJoined(a2, b);
      Bytes.Assoc(NonEmpty(a1), Segments(a2), Segments(b));
    }
  }

  lemma {:induction false} SegmentsAreSegments(s: string)
    ensures AllSegments(Segments(s))
    decreases |s|
  {
    var n := SlashAt(s);
    if n == |s| {
      assert s[..n] == s;
    } else {
      SegmentsAreSegments(s[n + 1..]);
    }
  }

  // ---------------------------------------------------------------- repeated slashes

  /** `normalizePath`: one slash for every run of slashes; `after` says that one came just before. */
  function Collapse(s: string, after: bool): string
    decreases |s|
  {
    if |s| == 0 then ""
    else if s[0] == '/' then (if after then "" else "/") + Collapse(s[1..], true)
    else [s[0]] + Collapse(s[1..], false)
  }

  /** No two slashes in a row. */
  predicate Single(s: string) {
    forall k :: 0 <= k < |s| - 1 ==> !(s[k] == '/' && s[k + 1] == '/')
  }

  lemma {:induction false} CollapseIsSingle(s: string, after: bool)
    ensures Single(Collapse(s, after))
    ensures after && |Collapse(s, after)| > 0 ==> Collapse(s, after)[0] != '/'
    decreases |s|
  {
    if |s| > 0 {
      CollapseIsSingle(s[1..], s[0] == '/');
    }
  }

  /** What is single already stays, so that a second pass changes nothing. */
  lemma {:induction false} SingleStays(s: string, after: bool)
    requires Single(s) && (after && |s| > 0 ==> s[0] != '/')
    ensures Collapse(s, after) == s
    decreases |s|
  {
    if |s| > 0 {
      assert Single(s[1..]) by {
        forall k | 0 <= k < |s[1..]| - 1 ensures !(s[1..][k] == '/' && s[1..][k + 1] == '/') {
          assert s[1..][k] == s[k + 1] && s[1..][k + 1] == s[k + 2];
        }
      }
      SingleStays(s[1..], s[0] == '/');
    }
  }

  lemma UnderTail(word: string, s: string)
    requires |s| > 0 && s[0] == '/'
    ensures word + s == Under(word, s[1..]) && word + ("/" + s[1..]) == Under(word, s[1..])
  {
  }

  lemma WordTail(word: string, s: string)
    requires |s| > 0
    ensures word + s == (word + [s[0]]) + s[1..]
  {
  }

  lemma WordHead(word: string, c: char, s: string)
    ensures word + ([c] + s) == (word + [c]) + s
  {
  }

  /** A path has the same segments without its repeated slashes; `word` is the part of a segment before it. */
  lemma {:induction false} CollapseKeepsSegments(word: string, s: string, after: bool)
    requires '/' !in word && (after ==> word == "")
    ensures Segments(word + Collapse(s, after)) == Segments(word + s)
    decreases |s|
  {
    hide Segments, Under;
    if |s| == 0 {
    } else if s[0] == '/' {
      var rest := Collapse(s[1..], true);
      CollapseKeepsSegments("", s[1..], true);
      Bytes.Alone(s[1..]);
      Bytes.Alone(rest);
      UnderTail(word, s);
      SegmentsOfJoined(word, s[1..]);
      if after {
        NoSlash("");
        assert word + Collapse(s, after) == rest;
      } else {
        UnderWord(word, rest);
        SegmentsOfJoined(word, rest);
      }
    } else {
      CollapseKeepsSegments(word + [s[0]], s[1..], false);
      WordTail(word, s);
      WordHead(word, s[0], Collapse(s[1..], false));
    }
  }

  lemma UnderWord(word: string, rest: string)
    ensures word + ("/" + rest) == Under(word, rest)
  {
  }

  // ---------------------------------------------------------------- dot segments

  /** The stack after one segment. */
  function Push(stack: seq<string>, segment: string): seq<string> {
    if segment == ".." then (if |stack| > 0 then stack[..|stack| - 1] else stack)
    else if segment != "." && segment != "" then stack + [segment]
    else stack
  }

  function Fold(stack: seq<string>, segments: seq<string>): seq<string>
    decreases |segments|
  {
    if |segments| == 0 then stack else Fold(Push(stack, segments[0]), segments[1..])
  }

  /** A segment that stays on the stack. */
  predicate IsName(s: string) {
    IsSegment(s) && s != "." && s != ".."
  }

  predicate AllNames(stack: seq<string>) {
    forall k :: 0 <= k < |stack| ==> IsName(stack[k])
  }

  lemma {:induction false} FoldIsNames(stack: seq<string>, segments: seq<string>)
    requires AllNames(stack) && AllSegments(segments)
    ensures AllNames(Fold(stack, segments))
    decreases |segments|
  {
    if |segments| > 0 {
      assert IsSegment(segments[0]);
      FoldIsNames(Push(stack, segments[0]), segments[1..]);
    }
  }

  lemma {:induction false} FoldThen(stack: seq<string>, a: seq<string>, b: seq<string>)
    ensures Fold(stack, a + b) == Fold(Fold(stack, a), b)
    decreases |a|
  {
    if |a| == 0 {
      assert a + b == b;
    } else {
      assert (a + b)[1..] == a[1..] + b;
      FoldThen(Push(stack, a[0]), a[1..], b);
    }
  }

  /** Names are pushed as they are. */
  lemma {:induction false} FoldNames(stack: seq<string>, names: seq<string>)
    requires AllNames(names)
    ensures Fold(stack, names) == stack + names
    decreases |names|
  {
    if |names| == 0 {
      assert stack + names == stack;
    } else {
      assert IsName(names[0]);
      FoldNames(stack + [names[0]], names[1..]);
      assert stack + [names[0]] + names[1..] == stack + names;
    }
  }

  // ---------------------------------------------------------------- the resolved path

  /** Every name with a slash in front. */
  function Join(stack: seq<string>): string {
    if |stack| == 0 then "" else Under(Join(stack[..|stack| - 1]), stack[|stack| - 1])
  }

  /** The split-and-stack phase of `getSource`. */
  function Resolve(path: string): string {
    var segments := Segments(path);
    if |segments| == 0 then "/" else "." + Join(Fold([], segments))
  }

  lemma PrefixUnder(prefix: string, a: string, b: string)
    ensures prefix + Under(a, b) == Under(prefix + a, b)
  {
  }

  lemma {:induction false} SegmentsOfJoin(prefix: string, stack: seq<string>)
    requires AllSegments(stack)
    ensures Segments(prefix + Join(stack)) == Segments(prefix) + stack
    decreases |stack|
  {
    hide Segments, Under;
    if |stack| == 0 {
      assert prefix + Join(stack) == prefix && Segments(prefix) + stack == Segments(prefix);
    } else {
      var init, last := stack[..|stack| - 1], stack[|stack| - 1];
      SegmentsOfJoin(prefix, init);
      PrefixUnder(prefix, Join(init), last);
      SegmentsOfJoined(prefix + Join(init), last);
      assert IsSegment(last);
      NoSlash(last);
      Bytes.Assoc(Segments(prefix), init, [last]);
      assert init + [last] == stack;
    }
  }

  lemma {:induction false} JoinConcat(a: seq<string>, b: seq<string>)
    ensures Join(a + b) == Join(a) + Join(b)
    decreases |b|
  {
    if |b| == 0 {
      assert a + b == a;
    } else {
      var init, last := b[..|b| - 1], b[|b| - 1];
      JoinConcat(a, init);
      assert (a + b)[..|a + b| - 1] == a + init;
      PrefixUnder(Join(a), Join(init), last);
    }
  }

  lemma JoinOne(segment: string)
    ensures Join([segment]) == "/" + segment
  {
    assert [segment][..0] == [];
  }

  /** The slash at the end of a path, if there is one. */
  function LastSlash(p: string): string {
    if |p| > 0 && p[|p| - 1] == '/' then "/" else ""
  }

  /** A path without repeated slashes is its segments, each behind a slash, and perhaps one more slash. */
  lemma {:induction false} SingleShape(p: string)
    requires |p| > 0 && p[0] == '/' && Single(p)
    ensures p == Join(Segments(p)) + LastSlash(p)
    decreases |p|
  {
    hide Segments, Join, SlashAt, Single, LastSlash;
    var q := p[1..];
    var n := SlashAt(q);
    SegmentsBehindSlash(p);
    if n == |q| {
      LastWord(p, q);
    } else {
      NoSecondSlash(p);
      SingleTail(p, n + 1);
      CutPath(p, n);
      var rest := p[n + 1..];
      SingleShape(rest);
      SegmentsFromSlash(q, n);
      ShapeStep(q[..n], rest, Segments(rest));
    }
  }

  lemma NoSecondSlash(p: string)
    requires |p| > 1 && p[0] == '/' && Single(p)
    ensures SlashAt(p[1..]) > 0
  {
    assert p[1] == p[1..][0];
  }

  lemma CutPath(p: string, n: nat)
    requires 0 < n && n + 1 < |p| && p[0] == '/'
    ensures p[1..][n..] == p[n + 1..] && p == ("/" + p[1..][..n]) + p[n + 1..]
    ensures LastSlash(p) == LastSlash(p[n + 1..])
  {
  }

  lemma SegmentsBehindSlash(p: string)
    requires |p| > 0 && p[0] == '/'
    ensures Segments(p) == Segments(p[1..])
  {
    assert p == Under("", p[1..]);
    NoSlash("");
    SegmentsOfJoined("", p[1..]);
  }

  lemma SegmentsFromSlash(q: string, n: nat)
    requires n == SlashAt(q) && 0 < n < |q|
    ensures Segments(q) == [q[..n]] + Segments(q[n..])
  {
    SegmentsBehindSlash(q[n..]);
    assert q[n..][1..] == q[n + 1..];
  }

  lemma SingleTail(p: string, n: nat)
    requires Single(p) && n <= |p|
    ensures Single(p[n..])
  {
    forall k | 0 <= k < |p[n..]| - 1 ensures !(p[n..][k] == '/' && p[n..][k + 1] == '/') {
      assert p[n..][k] == p[n + k] && p[n..][k + 1] == p[n + k + 1];
    }
  }

  lemma LastWord(p: string, q: string)
    requires p == "/" + q && SlashAt(q) == |q| && Segments(p) == Segments(q)
    ensures p == Join(Segments(p)) + LastSlash(p)
  {
    assert q[..|q|] == q;
    NoSlash(q);
    if |q| > 0 {
      JoinOne(q);
      assert q[|q| - 1] != '/' && p[|p| - 1] == q[|q| - 1];
    }
  }

  lemma ShapeStep(first: string, rest: string, segments: seq<string>)
    requires rest == Join(segments) + LastSlash(rest)
    ensures ("/" + first) + rest == Join([first] + segments) + LastSlash(rest)
  {
    JoinConcat([first], segments);
    JoinOne(first);
    Bytes.Assoc("/" + first, Join(segments), LastSlash(rest));
    hide Join, LastSlash;
  }

  /** The names a path comes to. */
  function Names(path: string): seq<string> {
    Fold([], Segments(path))
  }

  /** The result is canonical: behind its dot there are only names, and they are those of the path. */
  lemma ResolveIsCanonical(path: string)
    ensures AllNames(Names(path))
    ensures |Segments(path)| == 0 ==> Resolve(path) == "/"
    ensures |Segments(path)| > 0 ==> Segments(Resolve(path)) == ["."] + Names(path)
    ensures |Segments(path)| > 0 ==> Resolve(path)[0] == '.' && Segments(Resolve(path)[1..]) == Names(path)
  {
    SegmentsAreSegments(path);
    FoldIsNames([], Segments(path));
    var names := Names(path);
    assert AllSegments(names) by {
      forall k | 0 <= k < |names| ensures IsSegment(names[k]) {
        assert IsName(names[k]);
      }
    }
    SegmentsOfJoin(".", names);
    SegmentsOfJoin("", names);
    NoSlash(".");
    assert Segments(".") == ["."];
    assert "" + Join(names) == Join(names) && [] + names == names;
    assert ("." + Join(names))[1..] == Join(names);
  }

  lemma FoldDot(names: seq<string>, segments: seq<string>)
    requires AllNames(names)
    ensures Fold([], ["."] + names + segments) == Fold(names, segments)
  {
    FoldThen([], ["."] + names, segments);
    FoldThen([], ["."], names);
    assert Fold([], ["."]) == [] by {
      assert ["."][1..] == [];
    }
    FoldNames([], names);
    assert [] + names == names;
  }

  /** Resolving what precedes first makes no difference. */
  lemma ResolvePrefix(p: string, q: string)
    ensures Resolve(Under(Resolve(p), q)) == Resolve(Under(p, q))
  {
    SegmentsOfJoined(p, q);
    SegmentsOfJoined(Resolve(p), q);
    ResolveIsCanonical(p);
    if |Segments(p)| == 0 {
      assert Segments("/") == [] by {
        assert "/"[..0] == "" && "/"[1..] == "";
      }
    } else {
      FoldDot(Names(p), Segments(q));
      FoldThen([], Segments(p), Segments(q));
    }
  }

  /** Resolving twice is resolving once. */
  lemma ResolveTwice(p: string)
    ensures Resolve(Resolve(p)) == Resolve(p)
  {
    ResolveIsCanonical(p);
    if |Segments(p)| == 0 {
      assert Segments("/") == [] by {
        assert "/"[..0] == "" && "/"[1..] == "";
      }
    } else {
      FoldDot(Names(p), []);
      assert ["."] + Names(p) + [] == ["."] + Names(p);
    }
  }

  /** Repeated slashes make no difference. */
  lemma ResolveCollapsed(p: string)
    ensures Resolve(Collapse(p, false)) == Resolve(p)
  {
    CollapseKeepsSegments("", p, false);
    assert "" + p == p && "" + Collapse(p, false) == Collapse(p, false);
  }

  // ---------------------------------------------------------------- staying under a root

  /** How a segment moves: one up, one down, or not at all. */
  function Delta(segment: string): int {
    if segment == ".." then -1 else if segment == "." || segment == "" then 0 else 1
  }

  /** The names among the segments, less the double dots. */
  function Depth(segments: seq<string>): int {
    if |segments| == 0 then 0 else Delta(segments[0]) + Depth(segments[1..])
  }

  /** From `depth` names on, no prefix of the segments has more double dots than there are names. */
  predicate Stays(depth: nat, segments: seq<string>) {
    forall k :: 0 <= k <= |segments| ==> depth + Depth(segments[..k]) >= 0
  }

  lemma StaysStep(depth: nat, segments: seq<string>)
    requires |segments| > 0
    ensures Stays(depth, segments) <==>
              depth + Delta(segments[0]) >= 0 && Stays(depth + Delta(segments[0]), segments[1..])
  {
    var rest := segments[1..];
    forall k | 0 <= k <= |rest| ensures Depth(segments[..k + 1]) == Delta(segments[0]) + Depth(rest[..k]) {
      assert segments[..k + 1][1..] == rest[..k];
    }
    assert rest[..0] == [] && segments[..0] == [];
    if Stays(depth, segments) {
      assert depth + Depth(segments[..0 + 1]) >= 0;
      forall k | 0 <= k <= |rest| ensures depth + Delta(segments[0]) + Depth(rest[..k]) >= 0 {
        assert depth + Depth(segments[..k + 1]) >= 0;
      }
    }
    if depth + Delta(segments[0]) >= 0 && Stays(depth + Delta(segments[0]), rest) {
      forall k | 0 <= k <= |segments| ensures depth + Depth(segments[..k]) >= 0 {
        if k > 0 {
          assert Depth(segments[..k - 1 + 1]) == Delta(segments[0]) + Depth(rest[..k - 1]);
        }
      }
    }
  }

  lemma StaysPrefix(depth: nat, segments: seq<string>, k: nat)
    requires Stays(depth, segments) && k <= |segments|
    ensures Stays(depth, segments[..k])
  {
    forall j | 0 <= j <= k ensures depth + Depth(segments[..k][..j]) >= 0 {
      assert segments[..k][..j] == segments[..j];
    }
  }

  lemma PushAbove(stack: seq<string>, top: seq<string>, segment: string)
    requires |top| + Delta(segment) >= 0
    ensures Push(stack + top, segment) == stack + Push(top, segment)
    ensures |Push(top, segment)| == |top| + Delta(segment)
  {
  }

  /** Without more double dots than names, what is below is not touched. */
  lemma {:induction false} FoldAbove(stack: seq<string>, top: seq<string>, segments: seq<string>)
    requires Stays(|top|, segments)
    ensures Fold(stack + top, segments) == stack + Fold(top, segments)
    decreases |segments|
  {
    hide Stays, Push, Delta;
    if |segments| > 0 {
      StaysStep(|top|, segments);
      PushAbove(stack, top, segments[0]);
      FoldAbove(stack, Push(top, segments[0]), segments[1..]);
    }
  }

  /** With more, some prefix takes a name away from below. */
  lemma {:induction false} Falls(names: seq<string>, top: seq<string>, segments: seq<string>) returns (k: nat)
    requires |names| > 0 && !Stays(|top|, segments)
    ensures k <= |segments| && |Fold(names + top, segments[..k])| < |names|
    decreases |segments|
  {
    if |segments| == 0 {
      assert Depth(segments[..0]) == 0;
      assert false;
    } else if |top| + Delta(segments[0]) < 0 {
      k := 1;
      assert segments[..1][1..] == [];
    } else {
      hide Stays, Push, Delta;
      StaysStep(|top|, segments);
      PushAbove(names, top, segments[0]);
      var j := Falls(names, Push(top, segments[0]), segments[1..]);
      k := j + 1;
      assert segments[..k][1..] == segments[1..][..j];
    }
  }

  /** Along all of the segments the names stay below, exactly when no prefix has more double dots than names. */
  lemma StaysIff(names: seq<string>, segments: seq<string>)
    requires |names| > 0
    ensures Stays(0, segments) <==> forall k :: 0 <= k <= |segments| ==> names <= Fold(names, segments[..k])
  {
    assert names + [] == names;
    if Stays(0, segments) {
      forall k | 0 <= k <= |segments| ensures names <= Fold(names, segments[..k]) {
        StaysPrefix(0, segments, k);
        FoldAbove(names, [], segments[..k]);
      }
    } else {
      var k := Falls(names, [], segments);
      assert !(names <= Fold(names, segments[..k]));
    }
  }

  /** A name that is taken away and is not among the segments does not come back. */
  lemma {:induction false} NeverBack(stack: seq<string>, n: nat, name: string, segments: seq<string>)
    requires |stack| <= n || stack[n] != name
    requires name !in segments
    ensures var r := Fold(stack, segments); |r| <= n || r[n] != name
    decreases |segments|
  {
    if |segments| > 0 {
      NeverBack(Push(stack, segments[0]), n, name, segments[1..]);
    }
  }

  /** A path under names whose last is not among its segments stays there exactly under the same condition. */
  lemma InsideIff(names: seq<string>, segments: seq<string>)
    requires |names| > 0 && names[|names| - 1] !in segments
    ensures names <= Fold(names, segments) <==> Stays(0, segments)
  {
    assert names + [] == names;
    hide Fold, Stays;
    if Stays(0, segments) {
      FoldAbove(names, [], segments);
    } else {
      var k := Falls(names, [], segments);
      NotBackAfter(names, segments, k);
    }
  }

  lemma NotBackAfter(names: seq<string>, segments: seq<string>, k: nat)
    requires |names| > 0 && names[|names| - 1] !in segments
    requires k <= |segments| && |Fold(names, segments[..k])| < |names|
    ensures !(names <= Fold(names, segments))
  {
    var n := |names| - 1;
    hide Fold;
    FoldThen(names, segments[..k], segments[k..]);
    assert segments[..k] + segments[k..] == segments;
    NeverBack(Fold(names, segments[..k]), n, names[n], segments[k..]);
  }

  // ---------------------------------------------------------------- coming back

  /** How many names are left after a segment, and after several; a double dot on none leaves none. */
  function After(n: nat, segment: string): nat {
    if n + Delta(segment) < 0 then 0 else n + Delta(segment)
  }

  function Height(n: nat, segments: seq<string>): nat
    decreases |segments|
  {
    if |segments| == 0 then n else Height(After(n, segments[0]), segments[1..])
  }

  /** The last place where the fewest names are left, when there are `n` to begin with. */
  function LowestAt(n: nat, segments: seq<string>): (k: nat)
    ensures k <= |segments|
    decreases |segments|
  {
    if |segments| == 0 then 0
    else
      var m := After(n, segments[0]);
      var k := LowestAt(m, segments[1..]);
      if Height(m, Bytes.Take(segments[1..], k)) <= n then k + 1 else 0
  }

  /** How many names are left there. */
  function Lowest(n: nat, segments: seq<string>): nat {
    Height(n, Bytes.Take(segments, LowestAt(n, segments)))
  }

  lemma HeightStep(n: nat, segments: seq<string>, j: nat)
    requires 0 < j <= |segments|
    ensures Height(n, Bytes.Take(segments, j)) == Height(After(n, segments[0]), Bytes.Take(segments[1..], j - 1))
  {
    assert segments[..j][1..] == segments[1..][..j - 1];
  }

  lemma {:induction false} FoldHeight(stack: seq<string>, segments: seq<string>)
    ensures |Fold(stack, segments)| == Height(|stack|, segments)
    decreases |segments|
  {
    if |segments| > 0 {
      FoldHeight(Push(stack, segments[0]), segments[1..]);
    }
  }

  lemma LowestStep(n: nat, segments: seq<string>)
    requires |segments| > 0
    ensures var m, k := After(n, segments[0]), LowestAt(n, segments);
            var low := Lowest(m, segments[1..]);
            if low <= n then k == LowestAt(m, segments[1..]) + 1 && Lowest(n, segments) == low
            else k == 0 && Lowest(n, segments) == n
  {
    var m := After(n, segments[0]);
    var k := LowestAt(m, segments[1..]);
    HeightStep(n, segments, k + 1);
  }

  /** There are never fewer. */
  lemma {:induction false} LowestIsLeast(n: nat, segments: seq<string>, j: nat)
    requires j <= |segments|
    ensures Lowest(n, segments) <= n && Lowest(n, segments) <= Height(n, Bytes.Take(segments, j))
    decreases |segments|
  {
    if |segments| > 0 {
      var m := After(n, segments[0]);
      LowestStep(n, segments);
      hide Lowest, LowestAt;
      if j > 0 {
        HeightStep(n, segments, j);
        LowestIsLeast(m, segments[1..], j - 1);
      }
    }
  }

  /** When some names are always left, no prefix has more double dots than the names above those. */
  lemma {:induction false} HighStays(n: nat, segments: seq<string>, b: nat)
    requires 0 < b <= n && forall j :: 0 <= j <= |segments| ==> Height(n, Bytes.Take(segments, j)) >= b
    ensures Stays(n - b, segments)
    decreases |segments|
  {
    if |segments| > 0 {
      var m, rest := After(n, segments[0]), segments[1..];
      forall j | 0 <= j <= |rest| ensures Height(m, Bytes.Take(rest, j)) >= b {
        HeightStep(n, segments, j + 1);
      }
      assert Bytes.Take(rest, 0) == [];
      assert m >= b;
      HighStays(m, rest, b);
      StaysStep(n - b, segments);
    } else {
      assert forall j :: 0 <= j <= |segments| ==> Depth(segments[..j]) == 0;
    }
  }

  lemma StaysMore(depth: nat, more: nat, segments: seq<string>)
    requires Stays(depth, segments)
    ensures Stays(depth + more, segments)
  {
  }

  lemma PushBelow(stack: seq<string>, segment: string, h: nat)
    requires h <= |stack| && h <= |Push(stack, segment)|
    ensures Push(stack, segment)[..h] == stack[..h] && |Push(stack, segment)| == After(|stack|, segment)
  {
  }

  /** What is below the last lowest point is untouched, and above it is what the segments behind it come to. */
  lemma {:induction false} FoldSplit(stack: seq<string>, segments: seq<string>)
    ensures var k, h := LowestAt(|stack|, segments), Lowest(|stack|, segments);
            h <= |stack| && Fold(stack, segments) == stack[..h] + Fold([], segments[k..])
    decreases |segments|
  {
    var n := |stack|;
    if |segments| == 0 {
      assert stack[..n] + [] == stack;
    } else {
      var top, rest := Push(stack, segments[0]), segments[1..];
      PushBelow(stack, segments[0], 0);
      LowestStep(n, segments);
      LowestIsLeast(|top|, rest, 0);
      var k, low := LowestAt(|top|, rest), Lowest(|top|, rest);
      if low <= n {
        FoldSplit(top, rest);
        PushBelow(stack, segments[0], low);
        assert rest[k..] == segments[k + 1..];
      } else {
        forall j | 0 <= j <= |rest| ensures Height(|top|, Bytes.Take(rest, j)) >= n + 1 {
          LowestIsLeast(|top|, rest, j);
        }
        HighStays(|top|, rest, n + 1);
        StaysMore(0, 1, rest);
        StaysStep(0, segments);
        assert stack + [] == stack && segments[0..] == segments && stack[..n] == stack;
        FoldAbove(stack, [], segments);
      }
    }
  }

  /**
   * The names are there at the end exactly when the path comes down again, behind its last lowest
   * point, through those it took away.
   */
  lemma InsideExactly(names: seq<string>, segments: seq<string>)
    ensures var k, h := LowestAt(|names|, segments), Lowest(|names|, segments);
            h <= |names| && (names <= Fold(names, segments) <==> names[h..] <= Fold([], segments[k..]))
  {
    FoldSplit(names, segments);
    var k, h := LowestAt(|names|, segments), Lowest(|names|, segments);
    PrefixBehind(names[..h], names[h..], Fold([], segments[k..]));
    assert names == names[..h] + names[h..];
  }

  lemma PrefixBehind<T>(a: seq<T>, b: seq<T>, c: seq<T>)
    ensures a + b <= a + c <==> b <= c
  {
    assert (a + b)[|a|..] == b && (a + c)[|a|..] == c;
    if b <= c {
      assert a + c == (a + b) + c[|b|..];
    }
    if a + b <= a + c {
      assert b == (a + c)[..|a + b|][|a|..] == c[..|b|];
    }
  }
}
