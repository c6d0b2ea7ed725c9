/**
 * Reading is the inverse of writing: the recursive descent accepts exactly the written
 * configurations, and gives their meaning.
 */
module ConfigRoundTrip {
  import B = Bytes
  import opened Lexing
  import opened ConfigValues
  import opened ConfigGrammar
  import opened ConfigReader

  // ---------------------------------------------------------------- what was written is read back

  lemma {:induction false} SemicolonAtIs(args: seq<Word>, more: seq<Word>)
    requires ListArg(args)
    ensures SemicolonAt(args + ([Semicolon] + more)) == |args|
  {
    var ws := args + ([Semicolon] + more);
    if |args| > 0 {
      assert ws[1..] == args[1..] + ([Semicolon] + more);
      SemicolonAtIs(args[1..], more);
    }
  }

  lemma {:induction false} MethodsLenIs(args: seq<Word>, more: seq<Word>)
    requires MethodArgs(args)
    ensures MethodsLen(args + ([Semicolon] + more)) == |args|
  {
    var ws := args + ([Semicolon] + more);
    if |args| > 0 {
      assert ws[1..] == args[1..] + ([Semicolon] + more);
      MethodsLenIs(args[1..], more);
    }
  }

  lemma Behind(args: seq<Word>, more: seq<Word>)
    ensures var ws := args + ([Semicolon] + more);
            && ws[|args|] == Semicolon && ws[|args|..][0] == Semicolon && ws[..|args|] == args && ws[|args| + 1..] == more
            && (|args| > 0 ==> ws[0] == args[0]) && (|args| > 1 ==> ws[1..][0] == args[1])
  {
  }

  lemma FetchLocationWritten(loc: Location, kind: LocationKind, args: seq<Word>, more: seq<Word>)
    requires LocationAccepts(loc, kind, args)
    ensures FetchLocation(loc, kind, args + ([Semicolon] + more)) == Taken(|args|)
  {
    Behind(args, more);
    if kind.Index? {
      SemicolonAtIs(args, more);
    } else if kind.Methods? {
      MethodsLenIs(args, more);
    }
  }

  lemma FetchServerWritten(kind: ServerKind, args: seq<Word>, more: seq<Word>)
    requires ServerAccepts(kind, args)
    ensures FetchServer(kind, args + ([Semicolon] + more)) == Taken(|args|)
  {
    Behind(args, more);
    if kind.ServerIndex? {
      SemicolonAtIs(args, more);
    }
  }

  lemma Tail(w: Word, ws: seq<Word>)
    ensures ([w] + ws)[0] == w && ([w] + ws)[1..] == ws
  {
  }

  lemma ReadWrittenDirective(loc: Location, d: Directive, more: seq<Word>)
    requires LocationAccepts(loc, LocationKindOf(d.name), d.args)
    ensures ReadLocationDirective(loc, WriteDirective(d, more))
         == GotLocation(ApplyLocation(loc, LocationKindOf(d.name), d.args), more)
  {
    hide FetchLocation, LocationKindOf, ApplyLocation, LocationAccepts;
    Tail(Name(d.name), d.args + ([Semicolon] + more));
    Behind(d.args, more);
    FetchLocationWritten(loc, LocationKindOf(d.name), d.args, more);
  }

  lemma {:induction false} ReadWrittenDirectives(loc: Location, dirs: seq<Directive>, more: seq<Word>)
    requires DirectivesOk(loc, dirs)
    ensures ReadDirectives(loc, WriteDirectives(dirs, [Close] + more)) == GotLocation(ApplyDirectives(loc, dirs), more)
    decreases |dirs|
  {
    hide LocationKindOf, LocationAccepts, ApplyLocation, ReadLocationDirective;
    if |dirs| == 0 {
      Tail(Close, more);
    } else {
      var rest := WriteDirectives(dirs[1..], [Close] + more);
      ReadWrittenDirective(loc, dirs[0], rest);
      ReadWrittenDirectives(ApplyLocation(loc, LocationKindOf(dirs[0].name), dirs[0].args), dirs[1..], more);
      Tail(Name(dirs[0].name), dirs[0].args + ([Semicolon] + rest));
    }
  }

  lemma Heads(a: Word, b: Word, c: Word, ws: seq<Word>)
    ensures var s := [a, b, c] + ws; s[0] == a && s[1..][0] == b && s[2..][0] == c && s[3..] == ws
  {
  }

  lemma ReadWrittenItem(serv: ServerEntry, item: BlockItem, more: seq<Word>)
    requires ItemOk(serv, item)
    ensures |WriteItem(item, more)| > 0 && WriteItem(item, more)[0].Name?
    ensures ReadItem(serv, WriteItem(item, more)) == GotServer(ApplyItem(serv, item), more)
  {
    match item
    case Plain(d) =>
      Tail(Name(d.name), d.args + ([Semicolon] + more));
      Behind(d.args, more);
      FetchServerWritten(ServerKindOf(d.name), d.args, more);
      assert d.name != "location";
      hide FetchServer, ServerKindOf, ApplyServer, ServerAccepts;
    case Block(path, dirs) =>
      Heads(Name("location"), Name(path), Open, WriteDirectives(dirs, [Close] + more));
      ReadWrittenDirectives(NewLocation(path), dirs, more);
      hide ReadDirectives, DirectivesOk, ApplyDirectives, NewLocation, WriteDirectives;
  }

  lemma {:induction false} ReadWrittenItems(serv: ServerEntry, items: seq<BlockItem>, more: seq<Word>)
    requires ItemsOk(serv, items)
    ensures ReadItems(serv, WriteItems(items, [Close] + more)) == GotServer(ApplyItems(serv, items), more)
    decreases |items|
  {
    hide ItemOk, ApplyItem, WriteItem, ReadItem;
    if |items| == 0 {
      Tail(Close, more);
    } else {
      ReadWrittenItem(serv, items[0], WriteItems(items[1..], [Close] + more));
      ReadWrittenItems(ApplyItem(serv, items[0]), items[1..], more);
    }
  }

  lemma FileOkRest(file: seq<seq<BlockItem>>)
    requires FileOk(file) && |file| > 0
    ensures ItemsOk(NewServer(), file[0]) && FileOk(file[1..])
    ensures Meaning(file) == [MapRoots(ApplyItems(NewServer(), file[0]))] + Meaning(file[1..])
  {
    hide ItemsOk, ApplyItems, MapRoots, NewServer;
  }

  /** A written configuration is accepted and means what it was written for; what is behind its end does not matter. */
  lemma {:induction false} ReadWritten(file: seq<seq<BlockItem>>, more: seq<Word>)
    requires FileOk(file)
    ensures ReadFile(Write(file, more)) == GotFile(Meaning(file))
    decreases |file|
  {
    hide ItemsOk, ApplyItems, MapRoots, NewServer, FileOk, Meaning, ReadItems, WriteItems;
    if |file| == 0 {
      assert Meaning(file) == [];
    } else {
      FileOkRest(file);
      ReadWrittenItems(NewServer(), file[0], Write(file[1..], more));
      Two(Name("server"), Open, WriteItems(file[0], [Close] + Write(file[1..], more)));
      ReadWritten(file[1..], more);
    }
  }

  lemma Two(a: Word, b: Word, ws: seq<Word>)
    ensures var s := [a, b] + ws; s[0] == a && s[1..][0] == b && s[2..] == ws
  {
  }

  // ---------------------------------------------------------------- what is read was written

  lemma Rewrite(name: string, ws: seq<Word>, n: nat)
    requires n < |ws| && ws[n] == Semicolon
    ensures [Name(name)] + ws == WriteDirective(Directive(name, ws[..n]), ws[n + 1..])
  {
    assert ws == ws[..n] + ([ws[n]] + ws[n + 1..]);
  }

  lemma HeadAndTail(ws: seq<Word>)
    requires |ws| > 0
    ensures ws == [ws[0]] + ws[1..]
  {
  }

  lemma DirectiveWasWritten(loc: Location, ws: seq<Word>) returns (d: Directive)
    requires |ws| > 0 && ws[0].Name? && ReadLocationDirective(loc, ws).GotLocation?
    ensures LocationAccepts(loc, LocationKindOf(d.name), d.args)
    ensures ReadLocationDirective(loc, ws).loc == ApplyLocation(loc, LocationKindOf(d.name), d.args)
    ensures ws == WriteDirective(d, ReadLocationDirective(loc, ws).rest)
  {
    var n := FetchLocation(loc, LocationKindOf(ws[0].text), ws[1..]).n;
    d := Directive(ws[0].text, ws[1..][..n]);
    hide LocationKindOf, ApplyLocation, LocationAccepts, FetchLocation;
    HeadAndTail(ws);
    Rewrite(ws[0].text, ws[1..], n);
  }

  lemma {:induction false} DirectivesWereWritten(loc: Location, ws: seq<Word>) returns (dirs: seq<Directive>)
    requires ReadDirectives(loc, ws).GotLocation?
    ensures DirectivesOk(loc, dirs) && ReadDirectives(loc, ws).loc == ApplyDirectives(loc, dirs)
    ensures ws == WriteDirectives(dirs, [Close] + ReadDirectives(loc, ws).rest)
    decreases |ws|
  {
    hide LocationKindOf, LocationAccepts, ApplyLocation, ReadLocationDirective, WriteDirective;
    if First(ws) == Close {
      dirs := [];
      HeadAndTail(ws);
    } else {
      var d := DirectiveWasWritten(loc, ws);
      var r := ReadLocationDirective(loc, ws);
      var others := DirectivesWereWritten(r.loc, r.rest);
      dirs := [d] + others;
      assert dirs[1..] == others;
    }
  }

  lemma LocationWasWritten(ws: seq<Word>) returns (path: string, dirs: seq<Directive>)
    requires |ws| > 0 && ws[0] == Name("location") && ReadLocation(ws).GotLocation?
    ensures IsPath(path) && DirectivesOk(NewLocation(path), dirs)
    ensures ReadLocation(ws).loc == ApplyDirectives(NewLocation(path), dirs)
    ensures ws == WriteItem(Block(path, dirs), ReadLocation(ws).rest)
  {
    path := ws[1].text;
    dirs := DirectivesWereWritten(NewLocation(path), ws[3..]);
    hide ReadDirectives, DirectivesOk, ApplyDirectives, NewLocation, WriteDirectives;
    Three(ws);
  }

  lemma Three(ws: seq<Word>)
    requires |ws| >= 3
    ensures ws == [ws[0], ws[1], ws[2]] + ws[3..] && ws[1..][0] == ws[1] && ws[2..][0] == ws[2]
  {
  }

  lemma ItemWasWritten(serv: ServerEntry, ws: seq<Word>) returns (item: BlockItem)
    requires |ws| > 0 && ws[0].Name? && ReadItem(serv, ws).GotServer?
    ensures ItemOk(serv, item) && ReadItem(serv, ws).serv == ApplyItem(serv, item)
    ensures ws == WriteItem(item, ReadItem(serv, ws).rest)
  {
    if ws[0].text == "location" {
      hide ReadLocation, DirectivesOk, ApplyDirectives, WriteItem;
      var path, dirs := LocationWasWritten(ws);
      item := Block(path, dirs);
      hide NormPath, IsPath;
      assert ReadLocation(ws).loc.path == NewLocation(path).path;
    } else {
      var n := FetchServer(ServerKindOf(ws[0].text), ws[1..]).n;
      item := Plain(Directive(ws[0].text, ws[1..][..n]));
      hide ServerKindOf, ApplyServer, ServerAccepts, FetchServer;
      HeadAndTail(ws);
      Rewrite(ws[0].text, ws[1..], n);
    }
  }

  lemma {:induction false} ItemsWereWritten(serv: ServerEntry, ws: seq<Word>) returns (items: seq<BlockItem>)
    requires ReadItems(serv, ws).GotServer?
    ensures ItemsOk(serv, items) && ReadItems(serv, ws).serv == ApplyItems(serv, items)
    ensures ws == WriteItems(items, [Close] + ReadItems(serv, ws).rest)
    decreases |ws|
  {
    hide ItemOk, ApplyItem, WriteItem, ReadItem;
    if First(ws) == Close {
      items := [];
      HeadAndTail(ws);
    } else {
      var item := ItemWasWritten(serv, ws);
      var r := ReadItem(serv, ws);
      var others := ItemsWereWritten(r.serv, r.rest);
      items := [item] + others;
      assert items[1..] == others;
    }
  }

  lemma ServerWasWritten(ws: seq<Word>) returns (items: seq<BlockItem>)
    requires ReadServer(ws).GotServer?
    ensures ItemsOk(NewServer(), items) && ReadServer(ws).serv == ApplyItems(NewServer(), items)
    ensures ws == [Name("server"), Open] + WriteItems(items, [Close] + ReadServer(ws).rest)
  {
    hide NewServer, ReadItems, ItemsOk, ApplyItems, WriteItems;
    items := ItemsWereWritten(NewServer(), ws[2..]);
    FirstTwo(ws);
  }

  lemma FirstTwo(ws: seq<Word>)
    requires |ws| >= 2
    ensures ws == [ws[0], ws[1]] + ws[2..] && ws[1..][0] == ws[1]
  {
  }

  lemma FileOkMore(items: seq<BlockItem>, file: seq<seq<BlockItem>>)
    requires ItemsOk(NewServer(), items) && FileOk(file)
    ensures FileOk([items] + file)
    ensures Meaning([items] + file) == [MapRoots(ApplyItems(NewServer(), items))] + Meaning(file)
  {
    hide ItemsOk, ApplyItems, MapRoots, NewServer;
  }

  /** What is accepted was written, and means what was read. */
  lemma {:induction false} FileWasWritten(ws: seq<Word>) returns (file: seq<seq<BlockItem>>, more: seq<Word>)
    requires ReadFile(ws).GotFile?
    ensures FileOk(file) && ReadFile(ws).servers == Meaning(file) && ws == Write(file, more)
    decreases |ws|
  {
    hide ItemsOk, ApplyItems, MapRoots, NewServer, FileOk, Meaning, ReadServer, WriteItems;
    if ws[0] == End {
      file, more := [], ws[1..];
      HeadAndTail(ws);
      NoServers();
    } else {
      var items := ServerWasWritten(ws);
      var others;
      others, more := FileWasWritten(ReadServer(ws).rest);
      file := [items] + others;
      FileOkMore(items, others);
      assert file[1..] == others;
    }
  }

  lemma NoServers()
    ensures FileOk([]) && Meaning([]) == []
  {
  }

  // ---------------------------------------------------------------- what an accepted server is like

  /** The locations begin with a slash, and no two are the same but for slashes around them. */
  predicate LocationsOk(serv: ServerEntry) {
    && (forall k :: 0 <= k < |serv.locations| ==> IsPath(serv.locations[k].path))
    && (forall j, k :: 0 <= j < k < |serv.locations| ==>
          NormPath(serv.locations[j].path) != NormPath(serv.locations[k].path))
  }

  lemma ItemKeepsLocations(serv: ServerEntry, item: BlockItem)
    requires ItemOk(serv, item) && LocationsOk(serv)
    ensures LocationsOk(ApplyItem(serv, item))
  {
    hide NormPath, IsPath, ServerAccepts, ApplyServer;
  }

  lemma {:induction false} ItemsKeepLocations(serv: ServerEntry, items: seq<BlockItem>)
    requires ItemsOk(serv, items) && LocationsOk(serv)
    ensures LocationsOk(ApplyItems(serv, items))
    decreases |items|
  {
    if |items| > 0 {
      ItemKeepsLocations(serv, items[0]);
      ItemsKeepLocations(ApplyItem(serv, items[0]), items[1..]);
    }
  }

  /** Every server of an accepted configuration is such a server. */
  lemma AcceptedLocations(ws: seq<Word>, k: nat)
    requires ReadFile(ws).GotFile? && k < |ReadFile(ws).servers|
    ensures LocationsOk(ReadFile(ws).servers[k])
  {
    var file, more := FileWasWritten(ws);
    ItemsKeepLocations(NewServer(), file[k]);
    assert Meaning(file)[k] == MapRoots(ApplyItems(NewServer(), file[k]));
  }
}
