/** From the text of a configuration to the configuration, to a text again, and back. */
module ConfigReprint {
  import opened Lexing
  import opened ConfigValues
  import opened ConfigGrammar
  import opened ConfigReader
  import opened ConfigPrint
  import opened ConfigPrintFile
  import opened ConfigText
  import R = ConfigRoundTrip
  import Sockets = ListenSockets

  // ---------------------------------------------------------------- configurations made of words

  /** A text that can be an entry of an index: any token but a semicolon. */
  predicate IndexText(s: string) {
    s == "{" || s == "}" || IsWord(s)
  }

  predicate AllIndexText(texts: seq<string>) {
    forall k :: 0 <= k < |texts| ==> IndexText(texts[k])
  }

  predicate PagesText(pages: map<int, string>) {
    forall c :: c in pages ==> NameText(pages[c])
  }

  predicate AllNameText(texts: seq<string>) {
    forall k :: 0 <= k < |texts| ==> NameText(texts[k])
  }

  predicate MaybeName(s: string) {
    s == "" || NameText(s)
  }

  /** Every text in a location is one the lexer makes a token of. */
  predicate LocationWords(loc: Location) {
    && NameText(loc.path) && MaybeName(loc.root) && MaybeName(loc.uploadStore)
    && AllIndexText(loc.index) && PagesText(loc.errorPages) && AllNameText(loc.cgi)
    && (loc.redirect != NoRedirect ==> NameText(loc.redirect.target))
  }

  predicate LocationsWords(locs: seq<Location>) {
    forall k :: 0 <= k < |locs| ==> LocationWords(locs[k])
  }

  predicate ServerWords(serv: ServerEntry) {
    && MaybeName(serv.name) && MaybeName(serv.root) && AllIndexText(serv.index) && PagesText(serv.errorPages)
    && LocationsWords(serv.locations)
  }

  predicate ConfigWords(servers: seq<ServerEntry>) {
    forall k :: 0 <= k < |servers| ==> ServerWords(servers[k])
  }

  // ---------------------------------------------------------------- what is read from a text is made of words

  lemma PrintableText(w: Word)
    requires Printable(w) && w != Semicolon
    ensures IndexText(Text(w))
  {
  }

  lemma IndexStays(index: seq<string>, args: seq<Word>)
    requires AllIndexText(index) && AllPrintable(args) && ListArg(args)
    ensures AllIndexText(index + Texts(args))
  {
    var all := index + Texts(args);
    hide Printable, IndexText, Text;
    forall k | 0 <= k < |all| ensures IndexText(all[k]) {
      if k >= |index| {
        PrintableText(args[k - |index|]);
      }
    }
  }

  lemma DirectiveKeepsWords(loc: Location, kind: LocationKind, args: seq<Word>)
    requires LocationWords(loc) && LocationAccepts(loc, kind, args) && AllPrintable(args)
    ensures LocationWords(ApplyLocation(loc, kind, args))
  {
    hide NameText, IndexText, IsMethodName, IsPath, Atoi, SizeOf, IsOn, IsOff;
    match kind
    case Index => IndexStays(loc.index, args);
    case ErrorPage => assert NameText(args[1].text);
    case Redirects => assert NameText(args[1].text);
    case Root => assert NameText(args[0].text);
    case UploadStore => assert NameText(args[0].text);
    case Cgi => assert NameText(args[0].text);
    case _ =>
  }

  lemma {:induction false} DirectivesKeepWords(loc: Location, dirs: seq<Directive>)
    requires LocationWords(loc) && DirectivesOk(loc, dirs) && DirectivesPrintable(dirs)
    ensures LocationWords(ApplyDirectives(loc, dirs))
    decreases |dirs|
  {
    hide LocationWords, LocationAccepts, ApplyLocation, LocationKindOf, NameText, AllPrintable;
    if |dirs| > 0 {
      var kind := LocationKindOf(dirs[0].name);
      assert DirectivePrintable(dirs[0]);
      DirectiveKeepsWords(loc, kind, dirs[0].args);
      DirectivesKeepWords(ApplyLocation(loc, kind, dirs[0].args), dirs[1..]);
    }
  }

  lemma SettingKeepsWords(serv: ServerEntry, kind: ServerKind, args: seq<Word>)
    requires ServerWords(serv) && ServerAccepts(kind, args) && AllPrintable(args)
    ensures ServerWords(ApplyServer(serv, kind, args))
  {
    hide NameText, IndexText, IsAddress, IsPath, Atoi, SizeOf, LocationsWords;
    match kind
    case ServerIndex => IndexStays(serv.index, args);
    case ServerErrorPage => assert NameText(args[1].text);
    case ServerName => assert NameText(args[0].text);
    case ServerRoot => assert NameText(args[0].text);
    case _ =>
  }

  lemma NewHasWords(path: string)
    requires NameText(path)
    ensures LocationWords(NewLocation(path))
  {
    hide NameText;
  }

  lemma ItemKeepsWords(serv: ServerEntry, item: BlockItem)
    requires ServerWords(serv) && ItemOk(serv, item) && ItemPrintable(item)
    ensures ServerWords(ApplyItem(serv, item))
  {
    match item
    case Plain(d) =>
      SettingKeepsWords(serv, ServerKindOf(d.name), d.args);
    case Block(path, dirs) =>
      NewHasWords(path);
      DirectivesKeepWords(NewLocation(path), dirs);
      hide LocationWords, MaybeName, AllIndexText, PagesText, DirectivesOk, ApplyDirectives;
  }

  lemma {:induction false} ItemsKeepWords(serv: ServerEntry, items: seq<BlockItem>)
    requires ServerWords(serv) && ItemsOk(serv, items) && ItemsPrintable(items)
    ensures ServerWords(ApplyItems(serv, items))
    decreases |items|
  {
    hide ServerWords, ItemOk, ApplyItem, ItemPrintable;
    if |items| > 0 {
      ItemKeepsWords(serv, items[0]);
      ItemsKeepWords(ApplyItem(serv, items[0]), items[1..]);
    }
  }

  lemma NewServerHasWords()
    ensures ServerWords(NewServer())
  {
    assert !IsDigit("/html"[0]);
  }

  lemma MappedKeepsWords(serv: ServerEntry)
    requires ServerWords(serv)
    ensures ServerWords(MapRoots(serv))
  {
    hide NameText, AllIndexText, PagesText, AllNameText;
  }

  /** Items that have a text make a configuration of words. */
  lemma MeaningHasWords(file: seq<seq<BlockItem>>)
    requires FileOk(file) && FilePrintable(file)
    ensures ConfigWords(Meaning(file))
  {
    NewServerHasWords();
    hide ItemsPrintable, ItemsOk, ApplyItems, NewServer, ServerWords;
    forall k | 0 <= k < |file| ensures ServerWords(Meaning(file)[k]) {
      ItemsKeepWords(NewServer(), file[k]);
      MappedKeepsWords(ApplyItems(NewServer(), file[k]));
    }
  }

  // ---------------------------------------------------------------- what is made of words is printed with a text

  lemma {:induction false} IndexPrintable(index: seq<string>)
    requires AllIndexText(index)
    ensures AllPrintable(IndexWords(index))
  {
    forall k | 0 <= k < |index| ensures Printable(IndexWord(index[k])) {
      assert IndexText(index[k]);
    }
  }

  lemma DirectiveNames()
    ensures NameText("root") && NameText("index") && NameText("error_page") && NameText("client_max_body_size")
  {
    assert !IsDigit("root"[0]) && !IsDigit("index"[0]) && !IsDigit("error_page"[0]);
    assert !IsDigit("client_max_body_size"[0]);
  }

  lemma LocationDirectiveNames()
    ensures NameText("upload_store") && NameText("allowed_methods") && NameText("autoindex") && NameText("redirect")
    ensures NameText("cgi") && NameText("on") && NameText("off")
  {
    assert !IsDigit("upload_store"[0]) && !IsDigit("allowed_methods"[0]) && !IsDigit("autoindex"[0]);
    assert !IsDigit("redirect"[0]) && !IsDigit("cgi"[0]) && !IsDigit("on"[0]) && !IsDigit("off"[0]);
  }

  lemma ServerDirectiveNames()
    ensures NameText("listen") && NameText("server_name") && NameText("header_timeout") && NameText("cgi_timeout")
  {
    assert !IsDigit("listen"[0]) && !IsDigit("server_name"[0]);
    assert !IsDigit("header_timeout"[0]) && !IsDigit("cgi_timeout"[0]);
  }

  lemma MethodsPrintable(methods: seq<string>)
    requires forall k :: 0 <= k < |methods| ==> IsMethodName(methods[k])
    ensures AllPrintable(Names(methods))
  {
    assert !IsDigit("GET"[0]) && !IsDigit("POST"[0]) && !IsDigit("DELETE"[0]);
    assert NameText("GET") && NameText("POST") && NameText("DELETE");
    hide NameText;
  }

  lemma SizePrintable(n: nat, unit: char)
    requires Unit(unit) > 0
    ensures NameText(SizeText(n, unit))
  {
    var s := SizeText(n, unit);
    assert !IsDigit(s[|s| - 1]);
    var digits := Decimal(n / Unit(unit));
    forall k | 0 <= k < |s| ensures !IsBreak(s[k]) {
      assert k < |digits| ==> s[k] == digits[k] && IsDigit(digits[k]);
    }
  }

  lemma OneWord(name: string, w: Word)
    requires NameText(name) && Printable(w)
    ensures DirectivePrintable(Directive(name, [w]))
  {
  }

  lemma PagePrintable(c: int, page: string)
    requires 0 <= c < 1000 && NameText(page)
    ensures DirectivePrintable(Directive("error_page", [Number(ThreeDigits(c)), Name(page)]))
  {
    DirectiveNames();
    hide NameText;
  }

  lemma {:induction false} ErrorsPrintable(pages: map<int, string>, codes: seq<int>)
    requires PagesText(pages) && forall k :: 0 <= k < |codes| ==> codes[k] in pages && 0 <= codes[k] < 1000
    ensures DirectivesPrintable(ErrorDirectives(pages, codes)) && ItemsPrintable(ErrorEntries(pages, codes))
    decreases |codes|
  {
    if |codes| > 0 {
      PagePrintable(codes[0], pages[codes[0]]);
      ErrorsPrintable(pages, codes[1..]);
      hide DirectivePrintable, ThreeDigits;
    }
  }

  lemma {:induction false} CgiPrintable(cgi: seq<string>)
    requires AllNameText(cgi)
    ensures DirectivesPrintable(CgiDirectives(cgi))
    decreases |cgi|
  {
    if |cgi| > 0 {
      LocationDirectiveNames();
      OneWord("cgi", Name(cgi[0]));
      hide NameText, DirectivePrintable;
      CgiPrintable(cgi[1..]);
    }
  }

  lemma BothPrintable(a: seq<Directive>, b: seq<Directive>)
    requires DirectivesPrintable(a) && DirectivesPrintable(b)
    ensures DirectivesPrintable(a + b)
  {
  }

  lemma RootPrintable(root: string, index: seq<string>)
    requires NameText(root) && AllIndexText(index)
    ensures DirectivesPrintable([Directive("root", [Name(root)]), Directive("index", IndexWords(index))])
    ensures ItemsPrintable([Plain(Directive("root", [Name(root)])), Plain(Directive("index", IndexWords(index)))])
  {
    DirectiveNames();
    OneWord("root", Name(root));
    IndexPrintable(index);
    hide NameText, AllPrintable, IndexWords;
    assert DirectivePrintable(Directive("index", IndexWords(index)));
  }

  lemma LimitPrintable(limit: Limit, unit: char)
    requires limit == Unset || Sized(limit.n, unit)
    ensures DirectivesPrintable(One(limit != Unset, SizeDirective(limit, unit)))
  {
    if limit != Unset {
      DirectiveNames();
      SizePrintable(limit.n, unit);
      OneWord("client_max_body_size", Name(SizeText(limit.n, unit)));
    }
    hide NameText, DirectivePrintable, SizeText;
  }

  lemma StorePrintable(store: string)
    requires MaybeName(store)
    ensures DirectivesPrintable(One(store != "", Directive("upload_store", [Name(store)])))
  {
    LocationDirectiveNames();
    if store != "" {
      OneWord("upload_store", Name(store));
    }
    hide NameText, DirectivePrintable;
  }

  lemma AllowedPrintable(methodSet: bool, methods: seq<string>)
    requires methodSet ==> forall k :: 0 <= k < |methods| ==> IsMethodName(methods[k])
    ensures DirectivesPrintable(One(methodSet, Directive("allowed_methods", Names(methods))))
  {
    LocationDirectiveNames();
    hide NameText;
    if methodSet {
      MethodsPrintable(methods);
    }
    hide AllPrintable, Names;
  }

  lemma FlagPrintable(flagSet: bool, flag: bool)
    ensures DirectivesPrintable(One(flagSet, Directive("autoindex", [Name(if flag then "on" else "off")])))
  {
    LocationDirectiveNames();
    hide NameText;
    OneWord("autoindex", Name(if flag then "on" else "off"));
    hide DirectivePrintable;
  }

  lemma RedirectPrintable(r: Redirect)
    requires r == NoRedirect || (300 <= r.code < 400 && NameText(r.target))
    ensures DirectivesPrintable(One(r != NoRedirect, RedirectDirective(r)))
  {
    LocationDirectiveNames();
    hide NameText;
  }

  lemma LocationPrintable(loc: Location, st: Style)
    requires LocationFits(loc, st) && LocationWords(loc)
    ensures ItemPrintable(Block(loc.path, PrintLocation(loc, st)))
  {
    RootPrintable(loc.root, loc.index);
    ErrorsPrintable(loc.errorPages, st.codes);
    LimitPrintable(loc.maxBody, st.unit);
    StorePrintable(loc.uploadStore);
    AllowedPrintable(loc.methodSet, st.methods);
    FlagPrintable(loc.autoIndexSet, loc.autoIndex);
    RedirectPrintable(loc.redirect);
    CgiPrintable(loc.cgi);
    hide DirectivesPrintable, NameText, LocationWords, LocationFits, One, ErrorDirectives, CgiDirectives, IndexWords, Names,
         SizeDirective, RedirectDirective;
    var h := CgiDirectives(loc.cgi);
    var g := One(loc.redirect != NoRedirect, RedirectDirective(loc.redirect)) + h;
    BothPrintable(One(loc.redirect != NoRedirect, RedirectDirective(loc.redirect)), h);
    var flag := One(loc.autoIndexSet, Directive("autoindex", [Name(if loc.autoIndex then "on" else "off")]));
    var f := flag + g;
    BothPrintable(flag, g);
    var methods := One(loc.methodSet, Directive("allowed_methods", Names(st.methods)));
    var e := methods + f;
    BothPrintable(methods, f);
    var store := One(loc.uploadStore != "", Directive("upload_store", [Name(loc.uploadStore)]));
    var d := store + e;
    BothPrintable(store, e);
    var c := One(loc.maxBody != Unset, SizeDirective(loc.maxBody, st.unit)) + d;
    BothPrintable(One(loc.maxBody != Unset, SizeDirective(loc.maxBody, st.unit)), d);
    var b := ErrorDirectives(loc.errorPages, st.codes) + c;
    BothPrintable(ErrorDirectives(loc.errorPages, st.codes), c);
    BothPrintable([Directive("root", [Name(loc.root)]), Directive("index", IndexWords(loc.index))], b);
  }

  lemma {:induction false} LocationsPrintable(locs: seq<Location>, sts: seq<Style>)
    requires |locs| == |sts| && forall k :: 0 <= k < |sts| ==> LocationFits(locs[k], sts[k])
    requires LocationsWords(locs)
    ensures ItemsPrintable(LocationEntries(locs, sts))
    decreases |locs|
  {
    if |locs| > 0 {
      LocationPrintable(locs[0], sts[0]);
      hide LocationFits, LocationWords, PrintLocation, ItemPrintable;
      LocationsPrintable(locs[1..], sts[1..]);
    }
  }

  lemma HostHasNoBreak(host: string)
    requires IsHost(host)
    ensures forall k :: 0 <= k < |host| ==> !IsBreak(host[k])
  {
    hide IsDotted;
    if IsDotted(host, 4) {
      DottedHasNoBreak(host, 4);
    }
  }

  lemma {:induction false} DottedHasNoBreak(s: string, n: nat)
    requires IsDotted(s, n)
    ensures forall k :: 0 <= k < |s| ==> !IsBreak(s[k])
    decreases n
  {
    var i := DigitsLen(s);
    if n > 1 {
      DottedHasNoBreak(s[i + 1..], n - 1);
    }
    forall k | 0 <= k < |s| ensures !IsBreak(s[k]) {
      if k < i {
        assert IsDigit(s[..i][k]);
      } else if k > i {
        assert s[k] == s[i + 1..][k - i - 1];
      }
    }
  }

  lemma AddressPrintable(a: Sockets.Address)
    requires IsHost(a.ip) && IsPort(a.port)
    ensures NameText(a.ip + ":" + a.port)
  {
    HostHasNoBreak(a.ip);
    var s := a.ip + ":" + a.port;
    assert !IsDigit(s[|a.ip|]);
    hide IsHost, Atoi;
    forall k | 0 <= k < |s| ensures !IsBreak(s[k]) {
      if k > |a.ip| {
        assert s[k] == a.port[k - |a.ip| - 1];
      }
    }
  }

  lemma {:induction false} ListensPrintable(order: seq<Sockets.Address>)
    requires forall k :: 0 <= k < |order| ==> IsHost(order[k].ip) && IsPort(order[k].port)
    ensures ItemsPrintable(ListenEntries(order))
    decreases |order|
  {
    hide IsHost, IsPort;
    if |order| > 0 {
      AddressPrintable(order[0]);
      ServerDirectiveNames();
      hide NameText;
      OneWord("listen", Name(order[0].ip + ":" + order[0].port));
      hide DirectivePrintable;
      ListensPrintable(order[1..]);
    }
  }

  lemma BothItemsPrintable(a: seq<BlockItem>, b: seq<BlockItem>)
    requires ItemsPrintable(a) && ItemsPrintable(b)
    ensures ItemsPrintable(a + b)
  {
  }

  lemma SettingsPrintable(serv: ServerEntry, unit: char)
    requires Unit(unit) > 0 && MaybeName(serv.name) && NameText(serv.root) && AllIndexText(serv.index)
    ensures ItemsPrintable(Settings(serv, unit))
  {
    DirectiveNames();
    ServerDirectiveNames();
    SizePrintable(serv.maxBody, unit);
    RootPrintable(serv.root, serv.index);
    hide NameText, SizeText, Decimal, IndexWords;
    if serv.name != "" {
      OneWord("server_name", Name(serv.name));
    }
    OneWord("client_max_body_size", Name(SizeText(serv.maxBody, unit)));
    OneWord("header_timeout", Number(Decimal(serv.headerTimeout)));
    OneWord("cgi_timeout", Number(Decimal(serv.cgiTimeout)));
    hide DirectivePrintable;
    var a := [Plain(Directive("root", [Name(serv.root)])), Plain(Directive("index", IndexWords(serv.index)))];
    var b := [Plain(Directive("client_max_body_size", [Name(SizeText(serv.maxBody, unit))])),
              Plain(Directive("header_timeout", [Number(Decimal(serv.headerTimeout))])),
              Plain(Directive("cgi_timeout", [Number(Decimal(serv.cgiTimeout))]))];
    BothItemsPrintable(a, b);
    BothItemsPrintable(NameEntry(serv.name), a + b);
    hide ItemsPrintable;
    assert Settings(serv, unit) == NameEntry(serv.name) + (a + b);
  }

  lemma ServerPrintable(serv: ServerEntry, st: Style, sts: seq<Style>)
    requires ServerFits(serv, st, sts) && ServerWords(serv)
    ensures ItemsPrintable(PrintServer(serv, st, sts))
  {
    var order := if serv.listenSet then st.addresses else [];
    ListensPrintable(order);
    SettingsPrintable(serv, st.unit);
    ErrorsPrintable(serv.errorPages, st.codes);
    LocationsPrintable(serv.locations, sts);
    hide ItemsPrintable, ServerWords, Settings, ListenEntries, ErrorEntries, LocationEntries;
    var c, d := ErrorEntries(serv.errorPages, st.codes), LocationEntries(serv.locations, sts);
    BothItemsPrintable(c, d);
    BothItemsPrintable(Settings(serv, st.unit), c + d);
    BothItemsPrintable(ListenEntries(order), Settings(serv, st.unit) + (c + d));
  }

  // ---------------------------------------------------------------- the texts of a configuration

  /** A configuration is printed with a text exactly when it is made of words. */
  lemma PrintableIff(servers: seq<ServerEntry>, how: seq<FileStyle>)
    requires Fits(servers, how)
    ensures OneEnd(Write(Print(servers, how), [])) <==> ConfigWords(servers)
  {
    var file := Print(servers, how);
    WrittenFile(file, []);
    PrintedFile(servers, how);
    hide OneEnd, Write, Print, ServerFits, ServerWords, ItemsPrintable;
    if FilePrintable(file) {
      MeaningHasWords(file);
    }
    if ConfigWords(servers) {
      forall k | 0 <= k < |file| ensures ItemsPrintable(file[k]) {
        ServerPrintable(servers[k], how[k].st, how[k].sts);
      }
    }
  }
}
