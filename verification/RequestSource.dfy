/**
 * From the path of a request to the file it names: the choice of a location and `getSource` together
 * (webserv/sources/request/utils.cpp:33-80, webserv/sources/response/location.cpp:21-58).
 */
module RequestSource {
  import opened Bytes
  import opened Paths
  import opened Sources
  import opened ConfigGrammar
  import opened Routing

  function RootOf(serv: ServerEntry, k: nat): (root: string)
    requires k < |serv.locations|
  {
    SourceRoot(serv.locations[k].uploadStore, serv.locations[k].root, serv.root)
  }

  /** The part of a path behind its location. */
  function Behind(path: string, loc: string): string
    requires Matches(path, loc)
  {
    if loc == "/" then (if |path| > 0 then path[1..] else "") else path[|loc|..]
  }

  /** What `getSource` says for a request whose location is `locs[k]`. */
  function SourceAt(serv: ServerEntry, path: string, k: nat): string
    requires k < |serv.locations|
  {
    Resolve(Mapped(path, Strip(serv.locations[k].path), RootOf(serv, k)))
  }

  /** `getSource` of a fresh request: the source under the chosen location, or none without a location. */
  method SourceOf(serv: ServerEntry, locs: seq<string>, path: string) returns (found: bool, k: nat, source: string)
    requires PathsOf(serv, locs) && forall j :: 0 <= j < |locs| ==> IsPath(locs[j])
    ensures found ==> IsChoice(locs, path, k) && source == SourceAt(serv, path, k)
    ensures !found ==> source == "" && forall j :: 0 <= j < |locs| ==> !Matches(path, Strip(locs[j]))
  {
    var lct;
    found, lct, k := GetLocation(locs, path);
    hide IsChoice, Matches, Resolve, Mapped;
    if found {
      StripIsPath(locs[k]);
      var l := serv.locations[k];
      source := GetSource(path, lct, l.uploadStore, l.root, serv.root);
    } else {
      source := GetSource(path, "", "", "", serv.root);
    }
  }

  /** The location is replaced once exactly when it is the root, stands for itself, or is not behind itself again. */
  lemma MappedIff(path: string, loc: string, root: string)
    requires IsPath(loc) && Matches(path, loc)
    ensures Mapped(path, loc, root) == root + Behind(path, loc)
            <==> loc == "/" || root == loc || !Contains(Behind(path, loc), loc)
  {
    if loc != "/" {
      MatchIsPrefix(path, loc);
      assert path == loc + Behind(path, loc);
      if root == loc {
        PiecesAreExact(path, loc);
      } else {
        FrontAloneIff(loc, Behind(path, loc), root);
      }
    }
  }

  /** A root ends with a slash, so that what is put behind it starts a new segment. */
  lemma NamesBehindRoot(root: string, rest: string)
    requires |root| > 0 && root[|root| - 1] == '/'
    ensures Names(root + rest) == Fold(Names(root), Segments(rest))
  {
    var dir := root[..|root| - 1];
    assert root == Under(dir, "") && root + rest == Under(dir, rest);
    hide Under, Segments;
    SegmentsOfJoined(dir, "");
    SegmentsOfJoined(dir, rest);
    NoSlash("");
    assert Segments(dir) + [] == Segments(dir);
    FoldThen([], Segments(dir), Segments(rest));
  }

  /**
   * The source lies under the location's root as long as the path behind the location goes down:
   * when no prefix of its segments has more double dots than names, the names are the root's and
   * then those of the rest. Unless the rest names the root's last directory itself, that is exactly
   * when the source stays under the root. In any case it does exactly when the rest comes down again,
   * behind its last lowest point, through the directories of the root it left.
   */
  lemma SourceStaysIff(path: string, loc: string, root: string)
    requires IsPath(loc) && Matches(path, loc) && |root| > 0 && root[|root| - 1] == '/'
    requires loc == "/" || root == loc || !Contains(Behind(path, loc), loc)
    ensures var rest, names := Segments(Behind(path, loc)), Names(root);
            && (Stays(0, rest) ==> Names(Mapped(path, loc, root)) == names + Names(Behind(path, loc)))
            && (|names| > 0 && names[|names| - 1] !in rest ==>
                  (names <= Names(Mapped(path, loc, root)) <==> Stays(0, rest)))
            && var k, h := LowestAt(|names|, rest), Lowest(|names|, rest);
               h <= |names| && (names <= Names(Mapped(path, loc, root)) <==> names[h..] <= Fold([], rest[k..]))
  {
    var rest, names := Segments(Behind(path, loc)), Names(root);
    MappedIff(path, loc, root);
    NamesBehindRoot(root, Behind(path, loc));
    InsideExactly(names, rest);
    hide Mapped, Stays, Segments, Matches, Lowest, LowestAt;
    assert names + [] == names;
    if Stays(0, rest) {
      FoldAbove(names, [], rest);
    }
    if |names| > 0 && names[|names| - 1] !in rest {
      InsideIff(names, rest);
    }
  }

  /** The file at the end of `rest`, taken from the directory `dir`. */
  predicate Leads(source: string, dir: string, rest: string) {
    source == if Segments(dir) == [] && Segments(rest) == [] then "/" else "." + Join(Fold(Names(dir), Segments(rest)))
  }

  lemma BehindSlash(dir: string, rest: string)
    ensures Leads(Resolve(dir + "/" + rest), dir, rest)
  {
    hide Segments;
    assert dir + "/" + rest == Under(dir, rest);
    SegmentsOfJoined(dir, rest);
    FoldThen([], Segments(dir), Segments(rest));
  }

  lemma LeadsFrom(dir: string, root: string, rest: string)
    requires root == dir + "/" || (root == dir && |root| > 0 && root[|root| - 1] == '/')
    ensures Leads(Resolve(root + rest), dir, rest)
  {
    hide Segments, Resolve;
    if root == dir + "/" {
      BehindSlash(dir, rest);
    } else {
      var short := dir[..|dir| - 1];
      assert dir == short + "/" == Under(short, "");
      SegmentsOfJoined(short, "");
      NoSlash("");
      assert Segments(short) + [] == Segments(short);
      BehindSlash(short, rest);
    }
  }

  /**
   * The source of a request whose location does not come again behind itself: from the upload store, or
   * else the location's root, or else the server's, along what stands behind the location.
   */
  lemma SourceLeads(serv: ServerEntry, path: string, k: nat)
    requires k < |serv.locations| && IsPath(serv.locations[k].path)
    requires var loc := Strip(serv.locations[k].path);
             Matches(path, loc) && (loc == "/" || !Contains(Behind(path, loc), loc))
    ensures var l, rest, source := serv.locations[k], Behind(path, Strip(serv.locations[k].path)), SourceAt(serv, path, k);
            && (l.uploadStore != "" ==> Leads(source, l.uploadStore, rest))
            && (l.uploadStore == "" && l.root != "" ==> Leads(source, l.root, rest))
            && (l.uploadStore == "" && l.root == "" ==> Leads(source, serv.root, rest))
  {
    var l := serv.locations[k];
    var rest := Behind(path, Strip(l.path));
    StripIsPath(l.path);
    hide Matches, Strip, Resolve, Leads, Mapped, Contains, SourceRoot;
    MappedIff(path, Strip(l.path), RootOf(serv, k));
    SourceRootIs(l.uploadStore, l.root, serv.root);
    LeadsFrom(if l.uploadStore != "" then l.uploadStore else if l.root != "" then l.root else serv.root, RootOf(serv, k), rest);
  }

  /** A path in which the location comes again: the second one is replaced, too. */
  lemma ComesAgain()
    ensures Matches("/a/b/a/c", "/a") && Behind("/a/b/a/c", "/a") == "/b/a/c"
    ensures Mapped("/a/b/a/c", "/a", "/r/") == "/r//b/r//c" != "/r/" + "/b/a/c"
  {
    var rest := "/b/a/c";
    AgainText();
    AgainFound();
    hide Find, Contains, Replaced, Matches;
    PrefixReplaced("/a", rest, "/r/");
    ReplacedStep(rest, "/a", "/r/");
    ReplacedStep("/c", "/a", "/r/");
  }

  lemma AgainText()
    ensures "/a" + "/b/a/c" == "/a/b/a/c" && "/a/b/a/c"[..2] == "/a" && "/a/b/a/c"[2..] == "/b/a/c"
    ensures "/b/a/c"[..2] == "/b" && "/b/a/c"[4..] == "/c" && Matches("/a/b/a/c", "/a")
    ensures "/r/" + ("/b" + ("/r/" + "/c")) == "/r//b/r//c" != "/r/" + "/b/a/c"
  {
    assert ("/r/" + "/b/a/c")[4] == 'b' && ("/r/" + "/b/a/c")[5] == '/' && ("/r/" + "/b/a/c")[6] == 'a';
  }

  lemma AgainFound()
    ensures Find("/b/a/c", "/a") == 2 && Find("/c", "/a") == -1
  {
    var rest := "/b/a/c";
    assert rest[2..4] == "/a" && rest[0..2][1] == 'b' && rest[1..3][0] == 'b';
    FindIs(rest, "/a", 2);
  }

  lemma ClimbingText()
    ensures "/html/" + "../x" == Under("", Under("html", Under("..", "x"))) && "/../x"[1..] == "../x"
  {
  }

  lemma ClimbingSegments(s: string)
    requires s == Under("", Under("html", Under("..", "x")))
    ensures Segments(s) == ["html", "..", "x"]
  {
    hide Under, Segments;
    FirstSegment("", Under("html", Under("..", "x")));
    FirstSegment("html", Under("..", "x"));
    FirstSegment("..", "x");
    NoSlash("x");
  }

  lemma ClimbingFold(segments: seq<string>)
    requires segments == ["html", "..", "x"]
    ensures Fold([], segments) == ["x"]
  {
    assert segments[1..] == ["..", "x"] && segments[1..][1..] == ["x"] && ["x"][1..] == [];
    assert Fold(["html"], ["..", "x"]) == Fold([], ["x"]);
  }

  lemma ClimbingJoin()
    ensures "." + Join(["x"]) == "./x"
  {
    assert ["x"][..0] == [];
    assert Under("", "x") == "/x";
  }

  /** With the whole server as location, a path that climbs names a file beside the root. */
  lemma ClimbsOut()
    ensures Matches("/../x", "/") && Resolve(Mapped("/../x", "/", "/html/")) == "./x"
  {
    var mapped := Mapped("/../x", "/", "/html/");
    ClimbingText();
    assert mapped == "/html/" + "../x";
    hide Under, Segments, Join, Fold, Mapped;
    ClimbingSegments(mapped);
    ClimbingFold(["html", "..", "x"]);
    ClimbingJoin();
  }
}
