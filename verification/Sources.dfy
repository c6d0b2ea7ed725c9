/**
 * `getSource` and the loops under it (webserv/sources/request/utils.cpp, webserv/sources/response/location.cpp),
 * against `Paths`.
 */
module Sources {
  import opened Bytes
  import opened Paths

  // ---------------------------------------------------------------- replacement

  /** `s` cut at every occurrence of `p`, from the left and without overlaps. */
  function Pieces(s: string, p: string): (pieces: seq<string>)
    requires |p| > 0
    ensures |pieces| > 0
    decreases |s|
  {
    var n := Find(s, p);
    if n == -1 then [s] else [s[..n]] + Pieces(s[n + |p|..], p)
  }

  function Glue(pieces: seq<string>, sep: string): string
    requires |pieces| > 0
  {
    if |pieces| == 1 then pieces[0] else pieces[0] + (sep + Glue(pieces[1..], sep))
  }

  /** `s` with `root` for every occurrence of `p`. */
  function Replaced(s: string, p: string, root: string): string
    requires |p| > 0
  {
    Glue(Pieces(s, p), root)
  }

  /** The cut is exact: no piece has an occurrence, and glued with `p` they are the text again. */
  lemma {:induction false} PiecesAreExact(s: string, p: string)
    requires |p| > 0
    ensures Replaced(s, p, p) == s
    ensures forall k :: 0 <= k < |Pieces(s, p)| ==> !Contains(Pieces(s, p)[k], p)
    decreases |s|
  {
    var n := Find(s, p);
    if n != -1 {
      var rest := s[n + |p|..];
      PiecesAreExact(rest, p);
      BeforeIsFree(s, p);
      assert Pieces(s, p)[1..] == Pieces(rest, p);
      assert s == s[..n] + (p + rest);
    }
  }

  lemma BeforeIsFree(s: string, p: string)
    requires |p| > 0 && Find(s, p) != -1
    ensures !Contains(s[..Find(s, p)], p)
  {
    FindPrefix(s, p, Find(s, p));
  }

  /** One occurrence replaced, and the rest. */
  lemma ReplacedStep(s: string, p: string, root: string)
    requires |p| > 0
    ensures var n := Find(s, p);
            Replaced(s, p, root) == if n == -1 then s else s[..n] + (root + Replaced(s[n + |p|..], p, root))
  {
    var n := Find(s, p);
    if n != -1 {
      assert Pieces(s, p)[1..] == Pieces(s[n + |p|..], p);
    }
  }

  /** A path that begins with its location: the location there is replaced, and any further one as well. */
  lemma PrefixReplaced(p: string, rest: string, root: string)
    requires |p| > 0
    ensures Replaced(p + rest, p, root) == root + Replaced(rest, p, root)
    ensures !Contains(rest, p) ==> Replaced(p + rest, p, root) == root + rest
  {
    var s := p + rest;
    assert s[0..|p|] == p && At(s, p, 0);
    ReplacedStep(s, p, root);
    ReplacedStep(rest, p, root);
    assert s[0 + |p|..] == rest && s[..0] == "";
    Alone(root + Replaced(rest, p, root));
  }

  /** Each replacement changes the length by the same amount. */
  lemma {:induction false} ReplacedLength(s: string, p: string, root: string)
    requires |p| > 0
    ensures |root| > |p| ==> |Replaced(s, p, root)| >= |s| + (if Contains(s, p) then 1 else 0)
    ensures |root| < |p| ==> |Replaced(s, p, root)| <= |s| - (if Contains(s, p) then 1 else 0)
    decreases |s|
  {
    ReplacedStep(s, p, root);
    if Contains(s, p) {
      ReplacedLength(s[Find(s, p) + |p|..], p, root);
    }
  }

  /** A text with an occurrence is changed. */
  lemma ReplacedChanges(s: string, p: string, root: string)
    requires |p| > 0 && root != p
    ensures Replaced(s, p, root) == s <==> !Contains(s, p)
  {
    ReplacedStep(s, p, root);
    ReplacedLength(s, p, root);
    if Contains(s, p) && |root| == |p| {
      var n := Find(s, p);
      var r := Replaced(s, p, root);
      assert r[n..n + |p|] == root && s[n..n + |p|] == p;
    }
  }

  /** The location is replaced at the front alone exactly when the rest of the path does not contain it. */
  lemma FrontAloneIff(p: string, rest: string, root: string)
    requires |p| > 0 && root != p
    ensures Replaced(p + rest, p, root) == root + rest <==> !Contains(rest, p)
  {
    PrefixReplaced(p, rest, root);
    ReplacedChanges(rest, p, root);
    hide Replaced, Contains;
    var r := Replaced(rest, p, root);
    assert (root + r)[|root|..] == r && (root + rest)[|root|..] == rest;
  }

  /** The loop: it stops because the part that was not searched gets shorter. */
  method ReplaceAll(text: string, location: string, root: string) returns (path: string)
    requires |location| > 0
    ensures path == Replaced(text, location, root)
  {
    path := text;
    var start := 0;
    ghost var done, rest := "", text;
    Alone(text);
    Alone(Replaced(text, location, root));
    hide Replaced, Find, FindFrom, At;
    while true
      invariant path == done + rest && start == |done|
      invariant Replaced(text, location, root) == done + Replaced(rest, location, root)
      decreases |rest|
    {
      var pos := FindFrom(path, location, start);
      ghost var front, back := ReplaceStep(path, done, rest, location, root, pos);
      if pos == -1 {
        return;
      }
      path := path[..pos] + root + path[pos + |location|..];
      start := pos + |root|;
      done, rest := front, back;
    }
  }

  /** One pass of the loop: nothing is left to replace, or an occurrence moves to the part that is done. */
  lemma ReplaceStep(s: string, done: string, rest: string, p: string, root: string, pos: int)
    returns (front: string, back: string)
    requires |p| > 0 && s == done + rest && pos == FindFrom(s, p, |done|)
    ensures pos == -1 ==> Replaced(rest, p, root) == rest
    ensures pos != -1 ==>
              && |done| <= pos && pos + |p| <= |s|
              && s[..pos] + root + s[pos + |p|..] == front + back && |front| == pos + |root| && |back| < |rest|
              && done + Replaced(rest, p, root) == front + Replaced(back, p, root)
  {
    hide Replaced, FindFrom, Find, At;
    FoundInRest(done, rest, p, pos);
    ReplacedStep(rest, p, root);
    if pos != -1 {
      FoundWithin(s, p, |done|, pos);
    }
    front, back := done, rest;
    if pos != -1 {
      var n := pos - |done|;
      front, back := done + (rest[..n] + root), rest[n + |p|..];
      Replacement(done, rest, n, |p|, root, Replaced(back, p, root));
    }
  }

  lemma FoundWithin(s: string, p: string, from: nat, pos: int)
    requires pos == FindFrom(s, p, from) && pos != -1
    ensures from <= pos && pos + |p| <= |s|
  {
  }

  lemma FoundInRest(done: string, rest: string, p: string, pos: int)
    requires |p| > 0 && pos == FindFrom(done + rest, p, |done|)
    ensures Find(rest, p) == if pos == -1 then -1 else pos - |done|
  {
    Cut(done, rest);
    forall i | 0 <= i ensures At(rest, p, i) == At(done + rest, p, |done| + i) {
      AtDrop(done + rest, p, |done|, |done| + i);
    }
    hide At;
    if pos != -1 {
      FindIs(rest, p, pos - |done|);
    }
  }

  lemma Cut(a: string, b: string)
    ensures (a + b)[|a|..] == b
  {
  }

  lemma Replacement(done: string, rest: string, n: nat, k: nat, root: string, more: string)
    requires n + k <= |rest|
    ensures (done + rest)[..|done| + n] + root + (done + rest)[|done| + n + k..] == (done + (rest[..n] + root)) + rest[n + k..]
    ensures done + (rest[..n] + (root + more)) == (done + (rest[..n] + root)) + more
  {
    var s := done + rest;
    assert s[..|done| + n] == done + rest[..n] && s[|done| + n + k..] == rest[n + k..];
  }

  // ---------------------------------------------------------------- loops over characters and segments

  /** `normalizePath`. */
  method NormalizePath(path: string) returns (r: string)
    ensures r == Collapse(path, false)
  {
    r := "";
    var lastSlash := false;
    Alone(Collapse(path, false));
    assert path[0..] == path;
    for i := 0 to |path|
      invariant r + Collapse(path[i..], lastSlash) == Collapse(path, false)
    {
      CollapseStep(path, i, lastSlash);
      if path[i] == '/' {
        if !lastSlash {
          WordHead(r, '/', Collapse(path[i + 1..], true));
          r := r + [path[i]];
          lastSlash := true;
        }
      } else {
        WordHead(r, path[i], Collapse(path[i + 1..], false));
        r := r + [path[i]];
        lastSlash := false;
      }
    }
  }

  lemma CollapseStep(s: string, i: nat, after: bool)
    requires i < |s|
    ensures s[i] == '/' && after ==> Collapse(s[i..], after) == Collapse(s[i + 1..], true)
    ensures s[i] == '/' && !after ==> Collapse(s[i..], after) == ['/'] + Collapse(s[i + 1..], true)
    ensures s[i] != '/' ==> Collapse(s[i..], after) == [s[i]] + Collapse(s[i + 1..], false)
  {
    assert s[i..][0] == s[i] && s[i..][1..] == s[i + 1..];
  }

  /** `path.find('/', pos)`. */
  method FindSlash(path: string, pos: nat) returns (next: int)
    requires pos <= |path|
    ensures next == if SlashAt(path[pos..]) == |path| - pos then -1 else pos + SlashAt(path[pos..])
  {
    next := pos;
    while next < |path|
      invariant pos <= next <= |path| && SlashAt(path[pos..]) == next - pos + SlashAt(path[next..])
    {
      assert path[next..][0] == path[next] && path[next..][1..] == path[next + 1..];
      if path[next] == '/' {
        return;
      }
      next := next + 1;
    }
    return -1;
  }

  /** `splitPath`. */
  method SplitPath(path: string) returns (segments: seq<string>)
    ensures segments == Segments(path)
  {
    segments := [];
    var pos := 0;
    Whole(path);
    Alone(Segments(path));
    hide Segments;
    var next := FindSlash(path, pos);
    while next != -1
      invariant pos <= |path| && segments + Segments(path[pos..]) == Segments(path)
      invariant next == if SlashAt(path[pos..]) == |path| - pos then -1 else pos + SlashAt(path[pos..])
      decreases |path| - pos
    {
      SegmentsAt(path, pos, next, segments);
      if next > pos {
        segments := segments + [path[pos..next]];
      }
      pos := next + 1;
      next := FindSlash(path, pos);
    }
    LastSegment(path[pos..]);
    if pos < |path| {
      segments := segments + [path[pos..]];
    }
  }

  lemma LastSegment(s: string)
    requires SlashAt(s) == |s|
    ensures Segments(s) == if |s| == 0 then [] else [s]
  {
  }

  lemma SegmentsAt(path: string, pos: nat, next: nat, before: seq<string>)
    requires pos <= next < |path| && next == pos + SlashAt(path[pos..])
    ensures before + Segments(path[pos..])
         == (if next > pos then before + [path[pos..next]] else before) + Segments(path[next + 1..])
  {
    var s, n := path[pos..], next - pos;
    assert s[..n] == path[pos..next] && s[n + 1..] == path[next + 1..];
    assert before + (NonEmpty(s[..n]) + Segments(s[n + 1..])) == (before + NonEmpty(s[..n])) + Segments(s[n + 1..]);
    assert n == 0 ==> before + NonEmpty(s[..n]) == before;
  }

  /** The split-and-stack phase of `getSource`. */
  method ResolvePath(path: string) returns (source: string)
    ensures source == Resolve(path)
  {
    var segments := SplitPath(path);
    if |segments| == 0 {
      return "/";
    }
    var ss: seq<string> := [];
    assert segments[0..] == segments;
    for i := 0 to |segments|
      invariant Fold(ss, segments[i..]) == Fold([], segments)
    {
      assert segments[i..][0] == segments[i] && segments[i..][1..] == segments[i + 1..];
      if segments[i] == ".." {
        if |ss| > 0 {
          ss := ss[..|ss| - 1];
        }
      } else if segments[i] != "." && segments[i] != "" {
        ss := ss + [segments[i]];
      }
    }
    source := JoinStack(ss);
    source := "." + source;
  }

  /** The segments from the front of the stack, each with a slash before it. */
  method JoinStack(stack: seq<string>) returns (source: string)
    ensures source == Join(stack)
  {
    source := "";
    for i := 0 to |stack|
      invariant source == Join(stack[..i])
    {
      assert stack[..i + 1][..i] == stack[..i];
      source := Under(source, stack[i]);
    }
    assert stack[..|stack|] == stack;
  }

  // ---------------------------------------------------------------- getSource

  /** The root a location is replaced by; it ends with a slash. */
  function SourceRoot(uploadStore: string, lctRoot: string, servRoot: string): string {
    var root := if |uploadStore| > 0 then uploadStore else if |lctRoot| > 0 then lctRoot else servRoot;
    if |root| > 0 && root[|root| - 1] == '/' then root else root + "/"
  }

  /** The upload store comes before the location's root, and that before the server's; a slash is added only where none is. */
  lemma SourceRootIs(uploadStore: string, lctRoot: string, servRoot: string)
    ensures var r := SourceRoot(uploadStore, lctRoot, servRoot);
            && |r| > 0 && r[|r| - 1] == '/'
            && (uploadStore != "" ==> r == uploadStore || r == uploadStore + "/")
            && (uploadStore == "" && lctRoot != "" ==> r == lctRoot || r == lctRoot + "/")
            && (uploadStore == "" && lctRoot == "" ==> r == servRoot || r == servRoot + "/")
    ensures SourceRoot("/up", "/loc", "/srv") == "/up/" && SourceRoot("", "/loc/", "/srv") == "/loc/"
    ensures SourceRoot("", "", "/srv") == "/srv/" && SourceRoot("", "", "") == "/"
  {
    assert "/up" + "/" == "/up/" && "/srv" + "/" == "/srv/" && "" + "/" == "/";
  }

  /** The path behind the replacement. */
  function Mapped(path: string, location: string, root: string): string {
    if location == "" then ""
    else if location == "/" then root + (if |path| > 0 then path[1..] else "")
    else Replaced(path, location, root)
  }

  method GetSource(path: string, location: string, uploadStore: string, lctRoot: string, servRoot: string)
    returns (source: string)
    ensures location == "" ==> source == ""
    ensures location != "" ==> source == Resolve(Mapped(path, location, SourceRoot(uploadStore, lctRoot, servRoot)))
  {
    hide Resolve, Replaced;
    var root: string;
    if |uploadStore| > 0 {
      root := uploadStore;
    } else {
      root := lctRoot;
    }
    if |root| == 0 {
      root := servRoot;
    }
    if |root| == 0 || root[|root| - 1] != '/' {
      root := root + "/";
    }
    if |location| == 0 {
      return "";
    }
    var mapped: string;
    if location != "/" {
      mapped := ReplaceAll(path, location, root);
    } else {
      mapped := root + (if |path| > 0 then path[1..] else "");
    }
    source := ResolvePath(mapped);
  }
}
