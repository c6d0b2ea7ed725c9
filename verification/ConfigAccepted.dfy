/** Whatever the parser accepts is a configuration that can be written again. */
module ConfigAccepted {
  import opened Lexing
  import opened ConfigValues
  import opened ConfigGrammar
  import opened ConfigReader
  import opened ConfigRoundTrip
  import opened ConfigPrint
  import opened ConfigPrintFile
  import Sockets = ListenSockets

  // ---------------------------------------------------------------- values

  const UNIT := 'k'

  lemma {:induction false} ThreeDigitCode(digits: Digits)
    requires |digits| == 3
    ensures 0 <= Atoi(digits) < 1000
    ensures digits[0] == '3' ==> 300 <= Atoi(digits) < 400
  {
    var a, b, c := digits[0], digits[1], digits[2];
    assert Value("") == 0;
    hide Value;
    ValueNextDigit("", a);
    ValueNextDigit([a], b);
    ValueNextDigit([a, b], c);
    assert [] + [a] == [a] && [a] + [b] == [a, b] && [a, b] + [c] == digits;
  }

  lemma InUnits(n: nat, c: char)
    ensures n * Unit(c) % 0x400 == 0
  {
    if Unit(c) == 0x400 {
      assert n * Unit(c) == n * 0x400;
    } else if Unit(c) == 0x10_0000 {
      assert n * Unit(c) == n * 0x10_0000;
    } else if Unit(c) == 0x4000_0000 {
      assert n * Unit(c) == n * 0x4000_0000;
    } else {
      assert n * Unit(c) == 0;
    }
  }

  /** Every size is one in the smallest unit. */
  lemma SizeIsSized(s: string)
    requires SizeOf(s).Bytes?
    ensures Sized(SizeOf(s).n, UNIT)
  {
    InUnits(Value(s[..|s| - 1]), s[|s| - 1]);
  }

  // ---------------------------------------------------------------- what every directive keeps

  predicate PagesGood(pages: map<int, string>) {
    forall c :: c in pages ==> 0 <= c < 1000
  }

  predicate MethodsGood(loc: Location) {
    if loc.methodSet then loc.methods != {} && forall m :: m in loc.methods ==> IsMethodName(m) else loc.methods == {"GET"}
  }

  /** A location as directives can make it; its root may be missing. */
  predicate LocationGood(loc: Location) {
    && IsPath(loc.path) && (loc.root == "" || IsPath(loc.root)) && (loc.uploadStore == "" || IsPath(loc.uploadStore))
    && PagesGood(loc.errorPages)
    && (loc.maxBody == Unset || Sized(loc.maxBody.n, UNIT))
    && MethodsGood(loc)
    && (loc.autoIndex ==> loc.autoIndexSet)
    && (loc.redirect == NoRedirect || 300 <= loc.redirect.code < 400)
    && (loc.isCgi <==> |loc.cgi| > 0)
  }

  lemma MethodsStayGood(loc: Location, args: seq<Word>)
    requires MethodsGood(loc) && LocationAccepts(loc, Methods, args)
    ensures MethodsGood(ApplyLocation(loc, Methods, args))
  {
    var texts := TextSet(args);
    forall m | m in texts ensures IsMethodName(m) {
      var k :| 0 <= k < |args| && Texts(args)[k] == m;
      assert IsMethod(args[k]);
    }
    if |args| > 0 {
      assert Text(args[0]) in texts;
    }
  }

  lemma DirectiveStaysGood(loc: Location, kind: LocationKind, args: seq<Word>)
    requires LocationGood(loc) && LocationAccepts(loc, kind, args)
    ensures LocationGood(ApplyLocation(loc, kind, args))
  {
    hide Sized, SizeOf, IsOn, IsOff, Atoi;
    match kind
    case ErrorPage => ThreeDigitCode(args[0].digits);
    case BodySize => SizeIsSized(args[0].text);
    case Methods => MethodsStayGood(loc, args);
    case Redirects => ThreeDigitCode(args[0].digits);
    case _ =>
  }

  lemma {:induction false} DirectivesStayGood(loc: Location, dirs: seq<Directive>)
    requires LocationGood(loc) && DirectivesOk(loc, dirs)
    ensures LocationGood(ApplyDirectives(loc, dirs))
    decreases |dirs|
  {
    hide LocationGood, LocationAccepts, ApplyLocation, LocationKindOf;
    if |dirs| > 0 {
      var kind := LocationKindOf(dirs[0].name);
      DirectiveStaysGood(loc, kind, dirs[0].args);
      DirectivesStayGood(ApplyLocation(loc, kind, dirs[0].args), dirs[1..]);
    }
  }

  predicate ListenGood(serv: ServerEntry) {
    if serv.listenSet then serv.listen != {} && forall a :: a in serv.listen ==> IsHost(a.ip) && IsPort(a.port)
    else serv.listen == {DEFAULT_ADDRESS}
  }

  predicate SettingsGood(serv: ServerEntry) {
    && IsPath(serv.root) && PagesGood(serv.errorPages) && Sized(serv.maxBody, UNIT)
    && serv.headerTimeout <= MAX_TIMEOUT && serv.cgiTimeout <= MAX_TIMEOUT
  }

  predicate LocationsGood(locs: seq<Location>) {
    forall k :: 0 <= k < |locs| ==> LocationGood(locs[k])
  }

  /** A server as its items can make it. */
  predicate ServerGood(serv: ServerEntry) {
    ListenGood(serv) && SettingsGood(serv) && LocationsGood(serv.locations)
  }

  lemma ListenStaysGood(serv: ServerEntry, args: seq<Word>)
    requires ListenGood(serv) && ListenArg(args)
    ensures ListenGood(ApplyServer(serv, Listen, args))
  {
    hide IsHost, IsPort;
    assert AddressOf(args[0].text) in ApplyServer(serv, Listen, args).listen;
  }

  lemma SettingStaysGood(serv: ServerEntry, kind: ServerKind, args: seq<Word>)
    requires ServerGood(serv) && ServerAccepts(kind, args)
    ensures ServerGood(ApplyServer(serv, kind, args))
  {
    hide Sized, SizeOf, Atoi, IsAddress, IsHost, IsPort, LocationsGood;
    match kind
    case Listen => ListenStaysGood(serv, args);
    case ServerBodySize => SizeIsSized(args[0].text);
    case ServerErrorPage => ThreeDigitCode(args[0].digits);
    case _ =>
  }

  lemma ItemStaysGood(serv: ServerEntry, item: BlockItem)
    requires ServerGood(serv) && ItemOk(serv, item)
    ensures ServerGood(ApplyItem(serv, item))
  {
    match item
    case Plain(d) =>
      SettingStaysGood(serv, ServerKindOf(d.name), d.args);
    case Block(path, dirs) =>
      NewIsGood(path);
      DirectivesStayGood(NewLocation(path), dirs);
      hide LocationGood, ListenGood, SettingsGood, DirectivesOk, ApplyDirectives;
  }

  lemma NewIsGood(path: string)
    requires IsPath(path)
    ensures LocationGood(NewLocation(path)) && ServerGood(NewServer())
  {
  }

  lemma {:induction false} ItemsStayGood(serv: ServerEntry, items: seq<BlockItem>)
    requires ServerGood(serv) && ItemsOk(serv, items)
    ensures ServerGood(ApplyItems(serv, items))
    decreases |items|
  {
    hide ServerGood, ItemOk, ApplyItem;
    if |items| > 0 {
      ItemStaysGood(serv, items[0]);
      ItemsStayGood(ApplyItem(serv, items[0]), items[1..]);
    }
  }

  lemma MappedStaysGood(serv: ServerEntry)
    requires ServerGood(serv) && LocationsOk(serv)
    ensures ServerGood(MapRoots(serv)) && LocationsOk(MapRoots(serv))
    ensures forall k :: 0 <= k < |serv.locations| ==> IsPath(MapRoots(serv).locations[k].root)
  {
    hide Sized, PagesGood, NormPath, IsMethodName, IsHost, IsPort;
  }

  // ---------------------------------------------------------------- a way to write it

  /** The elements of a set, in some order. */
  lemma InOrder<T>(s: set<T>) returns (order: seq<T>)
    ensures forall x :: x in order <==> x in s
  {
    if s == {} {
      order := [];
    } else {
      var x :| x in s;
      var others := InOrder(s - {x});
      order := [x] + others;
    }
  }

  lemma CodeOrder(pages: map<int, string>) returns (codes: seq<int>)
    requires PagesGood(pages)
    ensures Codes(pages, codes)
  {
    codes := InOrder(pages.Keys);
    forall k | 0 <= k < |codes| ensures codes[k] in pages {
      assert codes[k] in codes;
    }
  }

  lemma LocationStyle(loc: Location) returns (st: Style)
    requires LocationGood(loc) && IsPath(loc.root)
    ensures LocationFits(loc, st)
  {
    var codes := CodeOrder(loc.errorPages);
    var methods := InOrder(loc.methods);
    st := Style(UNIT, codes, methods, []);
    if loc.methodSet {
      forall k | 0 <= k < |methods| ensures IsMethodName(methods[k]) {
        assert methods[k] in methods;
      }
      assert methods != [];
    }
  }

  lemma {:induction false} LocationStyles(locs: seq<Location>) returns (sts: seq<Style>)
    requires LocationsGood(locs) && forall k :: 0 <= k < |locs| ==> IsPath(locs[k].root)
    ensures |sts| == |locs| && forall k :: 0 <= k < |sts| ==> LocationFits(locs[k], sts[k])
    decreases |locs|
  {
    hide LocationGood, LocationFits, IsPath;
    if |locs| == 0 {
      sts := [];
    } else {
      var st := LocationStyle(locs[0]);
      var others := LocationStyles(locs[1..]);
      sts := [st] + others;
    }
  }

  lemma AddressOrder(serv: ServerEntry) returns (order: seq<Sockets.Address>)
    requires ListenGood(serv)
    ensures serv.listenSet ==> AddressesFit(serv.listen, order)
  {
    hide IsHost, IsPort;
    order := InOrder(serv.listen);
    if serv.listenSet {
      forall k | 0 <= k < |order| ensures IsHost(order[k].ip) && IsPort(order[k].port) {
        assert order[k] in order;
      }
      assert order != [];
    }
  }

  lemma ServerStyle(serv: ServerEntry) returns (how: FileStyle)
    requires ServerGood(serv) && LocationsOk(serv)
    requires forall k :: 0 <= k < |serv.locations| ==> IsPath(serv.locations[k].root)
    ensures ServerFits(serv, how.st, how.sts)
  {
    hide LocationGood, LocationFits, AddressesFit, LocationsOk, Sized;
    var order := AddressOrder(serv);
    var codes := CodeOrder(serv.errorPages);
    var sts := LocationStyles(serv.locations);
    how := FileStyle(Style(UNIT, codes, [], order), sts);
  }

  lemma {:induction false} Styles(servers: seq<ServerEntry>) returns (how: seq<FileStyle>)
    requires forall j :: 0 <= j < |servers| ==>
               && ServerGood(servers[j]) && LocationsOk(servers[j])
               && forall k :: 0 <= k < |servers[j].locations| ==> IsPath(servers[j].locations[k].root)
    ensures Fits(servers, how)
    decreases |servers|
  {
    hide ServerGood, LocationsOk, ServerFits, IsPath;
    if |servers| == 0 {
      how := [];
    } else {
      var h := ServerStyle(servers[0]);
      var others := Styles(servers[1..]);
      how := [h] + others;
    }
  }

  /** Every accepted configuration fits some style, so that the round trip is about all that are accepted. */
  lemma AcceptedFits(ws: seq<Word>) returns (how: seq<FileStyle>)
    requires ReadFile(ws).GotFile?
    ensures Fits(ReadFile(ws).servers, how)
  {
    var file, more := FileWasWritten(ws);
    hide ReadFile, Write, ServerGood, LocationsOk, ItemsOk, ApplyItems, NewServer, IsPath, ServerFits;
    forall j | 0 <= j < |file|
      ensures ServerGood(Meaning(file)[j]) && LocationsOk(Meaning(file)[j])
      ensures forall k :: 0 <= k < |Meaning(file)[j].locations| ==> IsPath(Meaning(file)[j].locations[k].root)
    {
      assert ItemsOk(NewServer(), file[j]);
      FreshIsGood();
      ItemsStayGood(NewServer(), file[j]);
      ItemsKeepLocations(NewServer(), file[j]);
      MappedStaysGood(ApplyItems(NewServer(), file[j]));
    }
    how := Styles(Meaning(file));
  }

  lemma FreshIsGood()
    ensures ServerGood(NewServer()) && LocationsOk(NewServer())
  {
  }
}
