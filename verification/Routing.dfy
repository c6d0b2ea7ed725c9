/** The choice of a location for a path (webserv/sources/response/location.cpp:21-58). */
module Routing {
  import opened ConfigGrammar
  import opened ConfigRoundTrip
  import P = Paths
  import Bytes

  /** `std::string::operator<`. */
  predicate Less(a: string, b: string) {
    |b| > 0 && (|a| == 0 || a[0] < b[0] || (a[0] == b[0] && Less(a[1..], b[1..])))
  }

  /** A location's path without a slash at its end. */
  function Strip(loc: string): string {
    if |loc| > 1 && loc[|loc| - 1] == '/' then loc[..|loc| - 1] else loc
  }

  /** `loc` is the root, or made of the first segments of the path. */
  predicate Matches(path: string, loc: string) {
    || loc == "/"
    || path == loc
    || (|path| > |loc| && path[..|loc|] == loc && path[|loc|] == '/')
  }

  /** The location at `k` is chosen by its length: the longest that matches, and the first of those. */
  predicate IsChoice(locs: seq<string>, path: string, k: nat) {
    && k < |locs| && Matches(path, Strip(locs[k]))
    && (forall j :: 0 <= j < |locs| && Matches(path, Strip(locs[j])) ==> |Strip(locs[j])| <= |Strip(locs[k])|)
    && (forall j :: 0 <= j < k ==> Strip(locs[j]) != Strip(locs[k]))
  }

  // ---------------------------------------------------------------- order among prefixes

  lemma {:induction false} LessPrefix(a: string, b: string)
    requires a <= b
    ensures Less(a, b) <==> |a| < |b|
    ensures !Less(b, a)
    decreases |a|
  {
    if |a| > 0 {
      assert a[1..] <= b[1..];
      LessPrefix(a[1..], b[1..]);
    }
  }

  lemma MatchIsPrefix(path: string, loc: string)
    requires Matches(path, loc) && loc != "/"
    ensures loc <= path
  {
  }

  /** Of two locations that match a path, the one that comes later in the alphabet is the longer one. */
  lemma LaterIsLonger(path: string, a: string, b: string)
    requires Matches(path, a) && Matches(path, b) && IsPath(a) && IsPath(b)
    ensures Less(a, b) <==> |a| < |b|
    ensures |a| == |b| ==> a == b
  {
    if |a| <= |b| {
      CommonPrefix(path, a, b);
      LessPrefix(a, b);
    } else {
      CommonPrefix(path, b, a);
      LessPrefix(b, a);
    }
  }

  lemma CommonPrefix(path: string, a: string, b: string)
    requires Matches(path, a) && Matches(path, b) && IsPath(a) && IsPath(b) && |a| <= |b|
    ensures a <= b
  {
    if b == "/" {
      assert a[0] == '/';
    } else if a != "/" {
      MatchIsPrefix(path, a);
      MatchIsPrefix(path, b);
      assert b == path[..|b|] && a == path[..|a|] && b[..|a|] == path[..|a|];
    }
  }

  lemma StripIsPath(loc: string)
    requires IsPath(loc)
    ensures IsPath(Strip(loc))
  {
  }

  // ---------------------------------------------------------------- segments

  /** A path that begins with a slash and has no repeated slashes. */
  predicate Ordinary(p: string) {
    IsPath(p) && P.Single(p)
  }

  /** Without its slash at the end, an ordinary path is its segments, or the root. */
  lemma StripIsJoin(loc: string)
    requires Ordinary(loc)
    ensures Strip(loc) == if P.Segments(loc) == [] then "/" else P.Join(P.Segments(loc))
  {
    P.SingleShape(loc);
    var segments := P.Segments(loc);
    JoinLength(segments);
    Bytes.Alone(P.Join(segments));
    hide P.Segments, P.Single, P.Join;
    if segments != [] && loc[|loc| - 1] == '/' {
      assert (P.Join(segments) + "/")[..|P.Join(segments)|] == P.Join(segments);
    } else if segments != [] {
      assert loc == P.Join(segments);
    }
  }

  /** A segment takes two characters or more, its slash included. */
  lemma {:induction false} JoinLength(segments: seq<string>)
    ensures segments == [] <==> P.Join(segments) == ""
    decreases |segments|
  {
  }

  lemma SegmentsOfMatch(path: string, segments: seq<string>)
    requires P.AllSegments(segments) && segments != [] && Matches(path, P.Join(segments)) && P.Join(segments) != "/"
    ensures segments <= P.Segments(path)
  {
    hide P.Segments, P.Join, P.AllSegments;
    var loc := P.Join(segments);
    SegmentsBack(segments);
    if path != loc {
      MatchIsUnder(path, loc);
      P.SegmentsOfJoined(loc, path[|loc| + 1..]);
    }
  }

  lemma SegmentsBack(segments: seq<string>)
    requires P.AllSegments(segments)
    ensures P.Segments(P.Join(segments)) == segments
  {
    P.SegmentsOfJoin("", segments);
    P.NoSlash("");
    Bytes.Alone(P.Join(segments));
    Bytes.Alone(segments);
    hide P.Segments, P.Join;
  }

  lemma MatchIsUnder(path: string, loc: string)
    requires Matches(path, loc) && loc != "/" && path != loc
    ensures |loc| < |path| && path == P.Under(loc, path[|loc| + 1..])
  {
  }

  lemma MatchOfSegments(path: string, segments: seq<string>)
    requires Ordinary(path) && segments <= P.Segments(path) && segments != []
    ensures Matches(path, P.Join(segments))
  {
    var all := P.Segments(path);
    var more := all[|segments|..];
    assert all == segments + more;
    P.SingleShape(path);
    P.JoinConcat(segments, more);
    JoinStarts(more);
    hide P.Segments, P.Join;
    Bytes.Assoc(P.Join(segments), P.Join(more), P.LastSlash(path));
    PrefixMatches(path, P.Join(segments), P.Join(more) + P.LastSlash(path));
  }

  lemma PrefixMatches(path: string, loc: string, rest: string)
    requires path == loc + rest && (rest == "" || rest[0] == '/')
    ensures Matches(path, loc)
  {
  }

  lemma {:induction false} JoinStarts(segments: seq<string>)
    ensures var j := P.Join(segments); if segments == [] then j == "" else |j| > 0 && j[0] == '/'
    decreases |segments|
  {
    if |segments| > 1 {
      JoinStarts(segments[..|segments| - 1]);
    }
  }

  lemma NotTheRoot(segments: seq<string>)
    requires P.AllSegments(segments) && segments != []
    ensures P.Join(segments) != "/"
  {
    assert P.IsSegment(segments[|segments| - 1]);
  }

  /** A location matches exactly the paths that begin with its segments. */
  lemma MatchesIff(path: string, loc: string)
    requires Ordinary(path) && Ordinary(loc)
    ensures Matches(path, Strip(loc)) <==> P.Segments(loc) <= P.Segments(path)
  {
    var segments := P.Segments(loc);
    StripIsJoin(loc);
    P.SegmentsAreSegments(loc);
    hide P.Segments, P.Join, Matches, Strip, P.Single;
    if segments == [] {
      RootMatches(path);
    } else {
      NotTheRoot(segments);
      if Matches(path, P.Join(segments)) {
        SegmentsOfMatch(path, segments);
      }
      if segments <= P.Segments(path) {
        MatchOfSegments(path, segments);
      }
    }
  }

  lemma RootMatches(path: string)
    ensures Matches(path, "/")
  {
  }

  predicate AllOrdinary(locs: seq<string>) {
    forall j :: 0 <= j < |locs| ==> Ordinary(locs[j])
  }

  /** The segments of the location at `k` begin those of the path, and no other location has more that do. */
  predicate HasMostSegments(locs: seq<string>, path: string, k: nat) {
    && k < |locs| && P.Segments(locs[k]) <= P.Segments(path)
    && forall j :: 0 <= j < |locs| && P.Segments(locs[j]) <= P.Segments(path) ==>
                     |P.Segments(locs[j])| <= |P.Segments(locs[k])|
  }

  /** Of two locations whose segments begin a path, the one with more segments is the longer text. */
  lemma LongerIff(path: string, a: string, b: string)
    requires Ordinary(a) && Ordinary(b) && P.Segments(a) <= P.Segments(path) && P.Segments(b) <= P.Segments(path)
    ensures |Strip(a)| <= |Strip(b)| <==> |P.Segments(a)| <= |P.Segments(b)|
  {
    StripIsJoin(a);
    StripIsJoin(b);
    P.SegmentsAreSegments(a);
    P.SegmentsAreSegments(b);
    var s, t := P.Segments(a), P.Segments(b);
    hide P.Segments, P.Join, Strip, P.Single;
    if |s| <= |t| {
      LongerJoin(s, t);
    } else {
      LongerJoin(t, s);
    }
  }

  lemma LongerJoin(s: seq<string>, t: seq<string>)
    requires s <= t && P.AllSegments(t)
    ensures |P.Join(s)| <= |P.Join(t)|
    ensures |s| < |t| ==> |P.Join(s)| + 1 < |P.Join(t)|
  {
    hide P.Join;
    var more := t[|s|..];
    assert t == s + more;
    P.JoinConcat(s, more);
    if |s| < |t| {
      JoinIsLong(more);
    }
  }

  lemma JoinIsLong(segments: seq<string>)
    requires segments != [] && P.IsSegment(segments[|segments| - 1])
    ensures |P.Join(segments)| > 1
  {
  }

  /** The choice by length is the choice by segments. */
  lemma ChoiceHasMostSegments(locs: seq<string>, path: string, k: nat)
    requires Ordinary(path) && AllOrdinary(locs) && IsChoice(locs, path, k)
    ensures HasMostSegments(locs, path, k)
  {
    MatchesIff(path, locs[k]);
    hide P.Segments, P.Single, Strip, Matches;
    forall j | 0 <= j < |locs| && P.Segments(locs[j]) <= P.Segments(path)
      ensures |P.Segments(locs[j])| <= |P.Segments(locs[k])|
    {
      MatchesIff(path, locs[j]);
      LongerIff(path, locs[j], locs[k]);
    }
  }

  // ---------------------------------------------------------------- the choice

  /** The locations that match, stripped, in order. */
  function Candidates(locs: seq<string>, path: string): seq<string> {
    if |locs| == 0 then []
    else
      var last := Strip(locs[|locs| - 1]);
      Candidates(locs[..|locs| - 1], path) + if Matches(path, last) then [last] else []
  }

  /** `c` is a location of the list that matches. */
  ghost predicate IsCandidate(locs: seq<string>, path: string, c: string) {
    Matches(path, c) && exists k :: 0 <= k < |locs| && Strip(locs[k]) == c
  }

  lemma {:induction false} CandidatesAre(locs: seq<string>, path: string)
    ensures forall c :: c in Candidates(locs, path) ==> IsCandidate(locs, path, c)
    ensures forall k :: 0 <= k < |locs| && Matches(path, Strip(locs[k])) ==> Strip(locs[k]) in Candidates(locs, path)
  {
    if |locs| > 0 {
      var init := locs[..|locs| - 1];
      CandidatesAre(init, path);
      forall c | c in Candidates(locs, path) ensures IsCandidate(locs, path, c) {
        if c in Candidates(init, path) {
          var k :| 0 <= k < |init| && Strip(init[k]) == c;
          assert Strip(locs[k]) == c;
        } else {
          assert Strip(locs[|init|]) == c;
        }
      }
      forall k | 0 <= k < |locs| && Matches(path, Strip(locs[k])) ensures Strip(locs[k]) in Candidates(locs, path) {
        assert k < |init| ==> locs[k] == init[k];
      }
    }
  }

  /** `std::max_element`: no element is greater. */
  method MaxElement(s: seq<string>) returns (largest: nat)
    requires |s| > 0
    ensures largest < |s| && Greatest(s, |s|, largest)
  {
    largest := 0;
    LessSelf(s[0]);
    for i := 1 to |s|
      invariant largest < i && Greatest(s, i, largest)
    {
      if Less(s[largest], s[i]) {
        GreatestMoves(s, i, largest);
        largest := i;
      }
    }
  }

  /** No element of the first `n` is greater than the one at `k`. */
  predicate Greatest(s: seq<string>, n: nat, k: nat) {
    n <= |s| && k < |s| && forall j :: 0 <= j < n ==> !Less(s[k], s[j])
  }

  lemma {:induction false} LessSelf(a: string)
    ensures !Less(a, a)
  {
    if |a| > 0 {
      LessSelf(a[1..]);
    }
  }

  lemma {:induction false} LessTrans(a: string, b: string, c: string)
    requires Less(a, b) && Less(b, c)
    ensures Less(a, c)
  {
    if |a| > 0 && a[0] == b[0] == c[0] {
      LessTrans(a[1..], b[1..], c[1..]);
    }
  }

  lemma GreatestMoves(s: seq<string>, i: nat, k: nat)
    requires Greatest(s, i, k) && i < |s| && Less(s[k], s[i])
    ensures Greatest(s, i + 1, i)
  {
    LessSelf(s[i]);
    forall j | 0 <= j < i ensures !Less(s[i], s[j]) {
      if Less(s[i], s[j]) {
        LessTrans(s[k], s[i], s[j]);
      }
    }
  }

  /** Among locations that match, the greatest is the longest. */
  lemma GreatestIsLongest(locs: seq<string>, path: string, k: nat, lct: string)
    requires forall j :: 0 <= j < |locs| ==> IsPath(locs[j])
    requires k < |Candidates(locs, path)| && Greatest(Candidates(locs, path), |Candidates(locs, path)|, k)
    requires lct == Candidates(locs, path)[k]
    ensures forall j :: 0 <= j < |locs| && Matches(path, Strip(locs[j])) ==> |Strip(locs[j])| <= |lct|
    ensures exists j :: 0 <= j < |locs| && Strip(locs[j]) == lct && Matches(path, lct)
  {
    var cs := Candidates(locs, path);
    CandidatesAre(locs, path);
    assert lct in cs && IsCandidate(locs, path, lct);
    forall j | 0 <= j < |locs| && Matches(path, Strip(locs[j])) ensures |Strip(locs[j])| <= |lct| {
      var c := Strip(locs[j]);
      assert c in cs;
      var i :| 0 <= i < |cs| && cs[i] == c;
      assert !Less(lct, c);
      StripIsPath(locs[j]);
      assert IsCandidate(locs, path, lct);
      var m :| 0 <= m < |locs| && Strip(locs[m]) == lct;
      StripIsPath(locs[m]);
      LaterIsLonger(path, lct, c);
    }
  }

  /** The first loop: the locations that match. */
  method Collect(locs: seq<string>, path: string) returns (lcts: seq<string>)
    ensures lcts == Candidates(locs, path)
  {
    lcts := [];
    for i := 0 to |locs|
      invariant lcts == Candidates(locs[..i], path)
    {
      assert locs[..i + 1][..i] == locs[..i];
      var loc := locs[i];
      if |loc| > 1 && loc[|loc| - 1] == '/' {
        loc := loc[..|loc| - 1];
      }
      if loc == "/" {
        lcts := lcts + [loc];
        continue;
      }
      if path == loc {
        lcts := lcts + [loc];
        continue;
      }
      if |path| > |loc| && path[..|loc|] == loc && path[|loc|] == '/' {
        lcts := lcts + [loc];
      }
    }
    assert locs[..|locs|] == locs;
  }

  /** `getLocation`: the longest location that matches, or none when none does. */
  method GetLocation(locs: seq<string>, path: string) returns (found: bool, lct: string, k: nat)
    requires forall j :: 0 <= j < |locs| ==> IsPath(locs[j])
    ensures found ==> IsChoice(locs, path, k) && lct == Strip(locs[k])
    ensures !found ==> forall j :: 0 <= j < |locs| ==> !Matches(path, Strip(locs[j]))
    ensures Ordinary(path) && AllOrdinary(locs) ==>
              if found then HasMostSegments(locs, path, k)
              else forall j :: 0 <= j < |locs| ==> !(P.Segments(locs[j]) <= P.Segments(path))
  {
    var lcts := Collect(locs, path);
    if |lcts| == 0 {
      NoCandidates(locs, path);
      NoSegments(locs, path);
      return false, "", 0;
    }
    var largest := MaxElement(lcts);
    lct := lcts[largest];
    GreatestIsLongest(locs, path, largest, lct);
    hide Matches, Candidates;
    k := FirstOf(locs, lct);
    found := true;
    if Ordinary(path) && AllOrdinary(locs) {
      ChoiceHasMostSegments(locs, path, k);
    }
  }

  lemma NoSegments(locs: seq<string>, path: string)
    requires forall j :: 0 <= j < |locs| ==> !Matches(path, Strip(locs[j]))
    ensures Ordinary(path) && AllOrdinary(locs) ==>
              forall j :: 0 <= j < |locs| ==> !(P.Segments(locs[j]) <= P.Segments(path))
  {
    hide Matches, Strip, P.Segments, P.Single;
    if Ordinary(path) && AllOrdinary(locs) {
      forall j | 0 <= j < |locs| ensures !(P.Segments(locs[j]) <= P.Segments(path)) {
        MatchesIff(path, locs[j]);
      }
    }
  }

  lemma NoCandidates(locs: seq<string>, path: string)
    requires Candidates(locs, path) == []
    ensures forall j :: 0 <= j < |locs| ==> !Matches(path, Strip(locs[j]))
  {
    CandidatesAre(locs, path);
    forall j | 0 <= j < |locs| ensures !Matches(path, Strip(locs[j])) {
      assert Strip(locs[j]) !in Candidates(locs, path);
    }
  }

  /** The second loop: the first location with the path that was found. */
  method FirstOf(locs: seq<string>, lct: string) returns (k: nat)
    requires exists j :: 0 <= j < |locs| && Strip(locs[j]) == lct
    ensures k < |locs| && Strip(locs[k]) == lct && forall j :: 0 <= j < k ==> Strip(locs[j]) != lct
  {
    k := 0;
    while Strip(locs[k]) != lct
      invariant k < |locs| && forall j :: 0 <= j < k ==> Strip(locs[j]) != lct
      decreases |locs| - k
    {
      k := k + 1;
    }
  }

  // ---------------------------------------------------------------- the choice is unique

  lemma {:induction false} TrimEndStrip(s: string)
    requires |s| > 0 && s[|s| - 1] == '/'
    ensures TrimEnd(s) == TrimEnd(s[..|s| - 1])
  {
  }

  lemma {:induction false} SlashesStrip(s: string)
    requires |s| > 1 && s[|s| - 1] == '/'
    ensures Slashes(s) == |s| || Slashes(s) == Slashes(s[..|s| - 1]) < |s| - 1
    ensures Slashes(s) == |s| ==> Slashes(s[..|s| - 1]) == |s| - 1
  {
    var t := s[..|s| - 1];
    if s[0] == '/' {
      assert t[1..] == s[1..][..|s| - 2];
      if |s| > 2 {
        SlashesStrip(s[1..]);
      }
    }
  }

  /** A slash at the end does not change the path a location is compared by. */
  lemma NormOfStrip(loc: string)
    ensures NormPath(Strip(loc)) == NormPath(loc)
  {
    if |loc| > 1 && loc[|loc| - 1] == '/' {
      SlashesStrip(loc);
      var n, t := Slashes(loc), Strip(loc);
      if n < |loc| {
        assert loc[n..][..|loc[n..]| - 1] == t[n..];
        TrimEndStrip(loc[n..]);
      }
    }
  }

  /** In an accepted server at most one location is chosen. */
  lemma ChoiceIsUnique(serv: ServerEntry, locs: seq<string>, path: string, j: nat, k: nat)
    requires LocationsOk(serv) && PathsOf(serv, locs)
    requires j < |locs| && k < |locs| && Matches(path, Strip(locs[j])) && Matches(path, Strip(locs[k]))
    requires |Strip(locs[j])| == |Strip(locs[k])|
    ensures j == k
  {
    StripIsPath(locs[j]);
    StripIsPath(locs[k]);
    LaterIsLonger(path, Strip(locs[j]), Strip(locs[k]));
    NormOfStrip(locs[j]);
    NormOfStrip(locs[k]);
  }

  predicate PathsOf(serv: ServerEntry, locs: seq<string>) {
    |locs| == |serv.locations| && forall k :: 0 <= k < |locs| ==> locs[k] == serv.locations[k].path
  }

  /** Two servers with the same locations, in any order, choose the same one. */
  lemma OrderDoesNotMatter(a: ServerEntry, b: ServerEntry, la: seq<string>, lb: seq<string>, path: string, j: nat, k: nat)
    requires LocationsOk(a) && LocationsOk(b) && PathsOf(a, la) && PathsOf(b, lb)
    requires forall x :: x in a.locations <==> x in b.locations
    requires IsChoice(la, path, j) && IsChoice(lb, path, k)
    ensures a.locations[j] == b.locations[k]
  {
    assert a.locations[j] in b.locations && b.locations[k] in a.locations;
    var k2 :| 0 <= k2 < |b.locations| && b.locations[k2] == a.locations[j];
    var j2 :| 0 <= j2 < |a.locations| && a.locations[j2] == b.locations[k];
    assert lb[k2] == la[j] && la[j2] == lb[k];
    ChoiceIsUnique(b, lb, path, k, k2);
  }
}
