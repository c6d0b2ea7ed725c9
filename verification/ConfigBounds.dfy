/** When the parser reads past the end of its tokens. */
module ConfigBounds {
  import B = Bytes
  import opened Lexing
  import opened ConfigValues
  import opened ConfigGrammar
  import opened ConfigReader
  import opened ConfigRoundTrip

  // ---------------------------------------------------------------- one directive

  /** Every `index` has a semicolon somewhere behind it. */
  predicate IndexesEnd(ws: seq<Word>) {
    forall k :: 0 <= k < |ws| && ws[k] == Name("index") ==> exists j :: k < j < |ws| && ws[j] == Semicolon
  }

  lemma {:induction false} NoSemicolon(ws: seq<Word>)
    ensures SemicolonAt(ws) == |ws| <==> ListArg(ws)
  {
    if SemicolonAt(ws) == |ws| {
      assert ws[..|ws|] == ws;
    }
  }

  /** A directive reads past the end exactly when it is an `index` without a semicolon behind it. */
  lemma ListPastEnd(loc: Location, ws: seq<Word>)
    requires |ws| > 0 && ws[0].Name?
    ensures ReadLocationDirective(loc, ws).LocationPastEnd? <==> ws[0].text == "index" && ListArg(ws[1..])
  {
    NoSemicolon(ws[1..]);
    hide ListArg, SemicolonAt, IsPath, SizeOf, MethodsLen, HasMethods, IsOn, IsOff, LocationAccepts, ApplyLocation;
  }

  lemma ServerListPastEnd(serv: ServerEntry, ws: seq<Word>)
    requires |ws| > 0 && ws[0].Name? && ws[0].text != "location"
    ensures ReadItem(serv, ws).ServerPastEnd? <==> ws[0].text == "index" && ListArg(ws[1..])
  {
    NoSemicolon(ws[1..]);
    hide ListArg, SemicolonAt, IsPath, SizeOf, IsHost, IsPort, B.CharAt, AllDigits, ServerAccepts, ApplyServer;
  }

  // ---------------------------------------------------------------- behind what was written

  lemma {:induction false} ReadBehindDirectives(loc: Location, dirs: seq<Directive>, more: seq<Word>)
    requires DirectivesOk(loc, dirs)
    ensures ReadDirectives(loc, WriteDirectives(dirs, more)) == ReadDirectives(ApplyDirectives(loc, dirs), more)
    decreases |dirs|
  {
    hide LocationKindOf, LocationAccepts, ApplyLocation, ReadLocationDirective;
    if |dirs| > 0 {
      var rest := WriteDirectives(dirs[1..], more);
      ReadWrittenDirective(loc, dirs[0], rest);
      ReadBehindDirectives(ApplyLocation(loc, LocationKindOf(dirs[0].name), dirs[0].args), dirs[1..], more);
      Tail(Name(dirs[0].name), dirs[0].args + ([Semicolon] + rest));
    }
  }

  lemma {:induction false} ReadBehindItems(serv: ServerEntry, items: seq<BlockItem>, more: seq<Word>)
    requires ItemsOk(serv, items)
    ensures ReadItems(serv, WriteItems(items, more)) == ReadItems(ApplyItems(serv, items), more)
    decreases |items|
  {
    hide ItemOk, ApplyItem, WriteItem, ReadItem;
    if |items| > 0 {
      ReadWrittenItem(serv, items[0], WriteItems(items[1..], more));
      ReadBehindItems(ApplyItem(serv, items[0]), items[1..], more);
    }
  }

  /** Server blocks, and what is written behind them. */
  function WriteServers(file: seq<seq<BlockItem>>, more: seq<Word>): seq<Word>
    decreases |file|
  {
    if |file| == 0 then more
    else [Name("server"), Open] + WriteItems(file[0], [Close] + WriteServers(file[1..], more))
  }

  lemma {:induction false} ReadBehindServers(file: seq<seq<BlockItem>>, more: seq<Word>)
    requires FileOk(file) && ReadFile(more).FilePastEnd?
    ensures ReadFile(WriteServers(file, more)).FilePastEnd?
    decreases |file|
  {
    hide ItemsOk, ApplyItems, NewServer, ReadItems, WriteItems, MapRoots;
    if |file| > 0 {
      var rest := WriteServers(file[1..], more);
      assert ItemsOk(NewServer(), file[0]);
      ReadBehindServers(file[1..], more);
      ReadWrittenItems(NewServer(), file[0], rest);
      Two(Name("server"), Open, WriteItems(file[0], [Close] + rest));
    }
  }

  // ---------------------------------------------------------------- the tokens that are read past

  /** An `index` without a semicolon behind it. */
  function OpenIndex(args: seq<Word>): seq<Word> {
    [Name("index")] + args
  }

  /** An open index among the items of a server, or in a location behind correct directives. */
  ghost predicate OpenList(ws: seq<Word>, args: seq<Word>) {
    && ListArg(args)
    && (ws == OpenIndex(args) || exists path, dirs :: OpenLocation(path, dirs, ws, args))
  }

  predicate OpenLocation(path: string, dirs: seq<Directive>, ws: seq<Word>, args: seq<Word>) {
    && IsPath(path) && DirectivesOk(NewLocation(path), dirs)
    && ws == [Name("location"), Name(path), Open] + WriteDirectives(dirs, OpenIndex(args))
  }

  /** Correct items of a server that is not closed, and an open index. */
  ghost predicate OpenServer(ws: seq<Word>, args: seq<Word>) {
    exists items, more :: OpenServerAs(items, more, ws, args)
  }

  ghost predicate OpenServerAs(items: seq<BlockItem>, more: seq<Word>, ws: seq<Word>, args: seq<Word>) {
    ItemsOk(NewServer(), items) && OpenList(more, args) && ws == [Name("server"), Open] + WriteItems(items, more)
  }

  /** Correct servers, and then an open one. */
  ghost predicate RunsOut(ws: seq<Word>) {
    exists file, more, args :: RunsOutAs(file, more, args, ws)
  }

  ghost predicate RunsOutAs(file: seq<seq<BlockItem>>, more: seq<Word>, args: seq<Word>, ws: seq<Word>) {
    FileOk(file) && ws == WriteServers(file, more) && OpenServer(more, args)
  }

  /** Tokens as the lexer gives them, with one end of file at the end. */
  predicate Ended(ws: seq<Word>) {
    |ws| > 0 && forall k :: 0 <= k < |ws| ==> (ws[k] == End <==> k == |ws| - 1)
  }

  /** What is left behind a server is ended, too. */
  lemma EndedBehind(items: seq<BlockItem>, ws: seq<Word>, rest: seq<Word>)
    requires Ended(ws) && ws == [Name("server"), Open] + WriteItems(items, [Close] + rest)
    ensures Ended(rest)
  {
    ItemsEnd(items, [Close] + rest, [Close] + rest);
    PutInFront([Name("server"), Open], WriteItems(items, [Close] + rest), [Close] + rest);
    var n := |ws| - |rest|;
    assert ws[n - 1..] == [Close] + rest;
    assert ws[n - 1..][1..] == ws[n..] == rest && ws[n - 1..][0] == Close;
    assert ws[n - 1] == Close;
    forall k | 0 <= k < |rest| ensures rest[k] == End <==> k == |rest| - 1 {
      assert rest[k] == ws[n + k];
    }
  }

  lemma IndexIsRead(loc: Location, args: seq<Word>)
    requires ListArg(args)
    ensures ReadDirectives(loc, OpenIndex(args)).LocationPastEnd?
  {
    Tail(Name("index"), args);
    ListPastEnd(loc, OpenIndex(args));
    hide ReadLocationDirective, ListArg;
  }

  lemma OpenListIsRead(serv: ServerEntry, ws: seq<Word>, args: seq<Word>)
    requires OpenList(ws, args)
    ensures ReadItems(serv, ws).ServerPastEnd?
  {
    if ws == OpenIndex(args) {
      Tail(Name("index"), args);
      ServerListPastEnd(serv, ws);
      hide ReadItem, ListArg;
    } else {
      var path, dirs :| OpenLocation(path, dirs, ws, args);
      Heads(Name("location"), Name(path), Open, WriteDirectives(dirs, OpenIndex(args)));
      ReadBehindDirectives(NewLocation(path), dirs, OpenIndex(args));
      IndexIsRead(ApplyDirectives(NewLocation(path), dirs), args);
      hide ReadDirectives, DirectivesOk, ApplyDirectives, NewLocation, WriteDirectives, ListArg;
    }
  }

  lemma OpenServerIsRead(ws: seq<Word>, args: seq<Word>)
    requires OpenServer(ws, args)
    ensures ReadFile(ws).FilePastEnd?
  {
    var items, more :| OpenServerAs(items, more, ws, args);
    Two(Name("server"), Open, WriteItems(items, more));
    hide ReadItems, ItemsOk, ApplyItems, NewServer, WriteItems, OpenList;
    ReadBehindItems(NewServer(), items, more);
    OpenListIsRead(ApplyItems(NewServer(), items), more, args);
  }

  lemma DirectivesRanOut(loc: Location, ws: seq<Word>) returns (dirs: seq<Directive>, args: seq<Word>)
    requires ReadDirectives(loc, ws).LocationPastEnd?
    ensures DirectivesOk(loc, dirs) && ListArg(args) && ws == WriteDirectives(dirs, OpenIndex(args))
    decreases |ws|
  {
    ListPastEnd(loc, ws);
    hide LocationKindOf, LocationAccepts, ApplyLocation, ReadLocationDirective, WriteDirective, ListArg;
    var r := ReadLocationDirective(loc, ws);
    if r.LocationPastEnd? {
      dirs, args := [], ws[1..];
      HeadAndTail(ws);
    } else {
      var d := DirectiveWasWritten(loc, ws);
      var others;
      others, args := DirectivesRanOut(r.loc, r.rest);
      dirs := [d] + others;
      assert dirs[1..] == others;
    }
  }

  lemma ItemRanOut(serv: ServerEntry, ws: seq<Word>) returns (args: seq<Word>)
    requires |ws| > 0 && ws[0].Name? && ReadItem(serv, ws).ServerPastEnd?
    ensures OpenList(ws, args)
  {
    if ws[0].text == "location" {
      hide ReadDirectives, DirectivesOk, NewLocation, WriteDirectives, ListArg, IsDuplicate;
      var path := ws[1].text;
      var dirs;
      dirs, args := DirectivesRanOut(NewLocation(path), ws[3..]);
      Three(ws);
      assert OpenLocation(path, dirs, ws, args);
    } else {
      ServerListPastEnd(serv, ws);
      hide ReadItem, ListArg;
      args := ws[1..];
      HeadAndTail(ws);
    }
  }

  lemma {:induction false} ItemsRanOut(serv: ServerEntry, ws: seq<Word>)
    returns (items: seq<BlockItem>, more: seq<Word>, args: seq<Word>)
    requires ReadItems(serv, ws).ServerPastEnd?
    ensures ItemsOk(serv, items) && OpenList(more, args) && ws == WriteItems(items, more)
    decreases |ws|
  {
    hide ItemOk, ApplyItem, WriteItem, ReadItem, OpenList;
    var r := ReadItem(serv, ws);
    if r.ServerPastEnd? {
      args := ItemRanOut(serv, ws);
      items, more := [], ws;
    } else {
      var item := ItemWasWritten(serv, ws);
      var others;
      others, more, args := ItemsRanOut(r.serv, r.rest);
      items := [item] + others;
      assert items[1..] == others;
    }
  }

  lemma {:induction false} FileRanOut(ws: seq<Word>) returns (file: seq<seq<BlockItem>>, more: seq<Word>, args: seq<Word>)
    requires Ended(ws) && ReadFile(ws).FilePastEnd?
    ensures RunsOutAs(file, more, args, ws)
    decreases |ws|
  {
    hide ItemsOk, ApplyItems, NewServer, ReadItems, WriteItems, MapRoots, OpenList;
    if ReadServer(ws).ServerPastEnd? {
      var items, open;
      items, open, args := ItemsRanOut(NewServer(), ws[2..]);
      FirstTwo(ws);
      assert OpenServerAs(items, open, ws, args);
      file, more := [], ws;
    } else {
      var items := ServerWasWritten(ws);
      EndedBehind(items, ws, ReadServer(ws).rest);
      var others;
      others, more, args := FileRanOut(ReadServer(ws).rest);
      file := [items] + others;
      assert file[1..] == others;
    }
  }

  /** The parser reads past the end exactly when the tokens are correct up to an `index` that no semicolon ends. */
  lemma PastEndIff(ws: seq<Word>)
    requires Ended(ws)
    ensures ReadFile(ws).FilePastEnd? <==> RunsOut(ws)
  {
    if ReadFile(ws).FilePastEnd? {
      var file, more, args := FileRanOut(ws);
    }
    if RunsOut(ws) {
      var file, more, args :| RunsOutAs(file, more, args, ws);
      OpenServerIsRead(more, args);
      ReadBehindServers(file, more);
    }
  }

  // ---------------------------------------------------------------- a condition on the tokens alone

  /** Tokens as the lexer gives them, with one end of file at the end, and an end for every index directive. */
  predicate Sound(ws: seq<Word>) {
    Ended(ws) && IndexesEnd(ws)
  }

  /** `ws` ends with `more`. */
  ghost predicate EndsWith(ws: seq<Word>, more: seq<Word>) {
    |more| <= |ws| && ws[|ws| - |more|..] == more
  }

  lemma PutInFront(front: seq<Word>, ws: seq<Word>, more: seq<Word>)
    requires EndsWith(ws, more)
    ensures EndsWith(front + ws, more)
  {
    var n := |ws| - |more|;
    assert (front + ws)[|front| + n..] == ws[n..];
  }

  lemma DirectiveEnds(d: Directive, more: seq<Word>, last: seq<Word>)
    requires EndsWith(more, last)
    ensures EndsWith(WriteDirective(d, more), last)
  {
    hide EndsWith;
    PutInFront([Semicolon], more, last);
    PutInFront(d.args, [Semicolon] + more, last);
    PutInFront([Name(d.name)], d.args + ([Semicolon] + more), last);
  }

  lemma {:induction false} DirectivesEnd(dirs: seq<Directive>, more: seq<Word>, last: seq<Word>)
    requires EndsWith(more, last)
    ensures EndsWith(WriteDirectives(dirs, more), last)
    decreases |dirs|
  {
    hide EndsWith, WriteDirective;
    if |dirs| > 0 {
      DirectivesEnd(dirs[1..], more, last);
      DirectiveEnds(dirs[0], WriteDirectives(dirs[1..], more), last);
    }
  }

  lemma {:induction false} ItemsEnd(items: seq<BlockItem>, more: seq<Word>, last: seq<Word>)
    requires EndsWith(more, last)
    ensures EndsWith(WriteItems(items, more), last)
    decreases |items|
  {
    hide EndsWith, WriteDirective, WriteDirectives;
    if |items| > 0 {
      ItemsEnd(items[1..], more, last);
      var rest := WriteItems(items[1..], more);
      match items[0]
      case Plain(d) => DirectiveEnds(d, rest, last);
      case Block(path, dirs) =>
        PutInFront([Close], rest, last);
        DirectivesEnd(dirs, [Close] + rest, last);
        PutInFront([Name("location"), Name(path), Open], WriteDirectives(dirs, [Close] + rest), last);
    }
  }

  lemma {:induction false} ServersEnd(file: seq<seq<BlockItem>>, more: seq<Word>, last: seq<Word>)
    requires EndsWith(more, last)
    ensures EndsWith(WriteServers(file, more), last)
    decreases |file|
  {
    hide EndsWith, WriteItems;
    if |file| > 0 {
      var rest := WriteServers(file[1..], more);
      ServersEnd(file[1..], more, last);
      PutInFront([Close], rest, last);
      ItemsEnd(file[0], [Close] + rest, last);
      PutInFront([Name("server"), Open], WriteItems(file[0], [Close] + rest), last);
    }
  }

  lemma OpenListEnds(ws: seq<Word>, args: seq<Word>)
    requires OpenList(ws, args)
    ensures EndsWith(ws, OpenIndex(args))
  {
    if ws != OpenIndex(args) {
      var path, dirs :| OpenLocation(path, dirs, ws, args);
      DirectivesEnd(dirs, OpenIndex(args), OpenIndex(args));
      PutInFront([Name("location"), Name(path), Open], WriteDirectives(dirs, OpenIndex(args)), OpenIndex(args));
    }
  }

  /** What runs out ends with an open index. */
  lemma HowItEnds(file: seq<seq<BlockItem>>, more: seq<Word>, args: seq<Word>, ws: seq<Word>)
    requires RunsOutAs(file, more, args, ws)
    ensures EndsWith(ws, OpenIndex(args)) && ListArg(args)
  {
    hide EndsWith, WriteItems, ItemsOk, NewServer;
    var items, open :| OpenServerAs(items, open, more, args);
    OpenListEnds(open, args);
    ItemsEnd(items, open, OpenIndex(args));
    PutInFront([Name("server"), Open], WriteItems(items, open), OpenIndex(args));
    ServersEnd(file, more, OpenIndex(args));
  }

  lemma OpenAtTheEnd(ws: seq<Word>, args: seq<Word>)
    requires EndsWith(ws, OpenIndex(args)) && ListArg(args)
    ensures !IndexesEnd(ws)
  {
    var k := |ws| - |args| - 1;
    assert ws[k..][0] == Name("index") && ws[k..][1..] == args;
    forall j | k < j < |ws| ensures ws[j] != Semicolon {
      assert args[j - k - 1] == ws[j];
    }
  }

  /** When every `index` has a semicolon behind it, the parser stays within its tokens. */
  lemma StaysInBounds(ws: seq<Word>)
    requires Sound(ws)
    ensures !ReadFile(ws).FilePastEnd?
  {
    PastEndIff(ws);
    hide ReadFile;
    if RunsOut(ws) {
      var file, more, args :| RunsOutAs(file, more, args, ws);
      HowItEnds(file, more, args, ws);
      hide RunsOutAs, EndsWith, IndexesEnd;
      OpenAtTheEnd(ws, args);
    }
  }

  /** It does not always: `server { index a` reads past its end. */
  lemma IndexRunsPastEnd()
    ensures ReadFile([Name("server"), Open, Name("index"), Name("a"), End]).FilePastEnd?
  {
    var ws := [Name("server"), Open, Name("index"), Name("a"), End];
    var list := [Name("index"), Name("a"), End];
    assert ws[2..] == list && list[1..] == [Name("a"), End];
    ServerListPastEnd(NewServer(), list);
  }
}
