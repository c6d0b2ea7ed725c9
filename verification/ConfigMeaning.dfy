/**
 * What a server or location block means when its directives come more than once and in any order:
 * field by field, from the directives that have the field's name.
 */
module ConfigMeaning {
  import opened Lexing
  import opened ConfigValues
  import opened ConfigGrammar
  import Sockets = ListenSockets

  /** The arguments of the directives with a name, in order. */
  function Args(dirs: seq<Directive>, name: string): seq<seq<Word>> {
    if |dirs| == 0 then []
    else (if dirs[0].name == name then [dirs[0].args] else []) + Args(dirs[1..], name)
  }

  /** The directives of a server block that are not locations, and the locations. */
  function Settings(items: seq<BlockItem>): seq<Directive> {
    if |items| == 0 then [] else (if items[0].Plain? then [items[0].d] else []) + Settings(items[1..])
  }

  function Blocks(items: seq<BlockItem>): seq<BlockItem> {
    if |items| == 0 then [] else (if items[0].Block? then [items[0]] else []) + Blocks(items[1..])
  }

  function FirstText(args: seq<Word>): string {
    if |args| == 0 then "" else Text(args[0])
  }

  /** The last one counts. */
  function LastText(all: seq<seq<Word>>, before: string): string {
    if |all| == 0 then before else LastText(all[1..], FirstText(all[0]))
  }

  /** The first that is not empty counts. */
  function FirstName(all: seq<seq<Word>>, before: string): string {
    if before != "" || |all| == 0 then before else FirstName(all[1..], FirstText(all[0]))
  }

  /** All of them count. */
  function AllTexts(all: seq<seq<Word>>): seq<string> {
    if |all| == 0 then [] else Texts(all[0]) + AllTexts(all[1..])
  }

  function SizeIn(args: seq<Word>): nat {
    var size := SizeOf(FirstText(args));
    if size.Bytes? then size.n else 0
  }

  function LastSize(all: seq<seq<Word>>, before: Limit): Limit {
    if |all| == 0 then before else LastSize(all[1..], Limit(SizeIn(all[0])))
  }

  function NumberIn(args: seq<Word>): int {
    if |args| > 0 && args[0].Number? then Atoi(args[0].digits) else 0
  }

  function LastNumber(all: seq<seq<Word>>, before: int): int {
    if |all| == 0 then before else LastNumber(all[1..], NumberIn(all[0]))
  }

  /** For each code the last page counts. */
  function Pages(all: seq<seq<Word>>, before: map<int, string>): map<int, string> {
    if |all| == 0 then before
    else Pages(all[1..], before[NumberIn(all[0]) := if |all[0]| > 1 then Text(all[0][1]) else ""])
  }

  function Addresses(all: seq<seq<Word>>): set<Sockets.Address> {
    if |all| == 0 then {}
    else (if IsAddress(FirstText(all[0])) then {AddressOf(FirstText(all[0]))} else {}) + Addresses(all[1..])
  }

  function Locations(blocks: seq<BlockItem>): seq<Location> {
    if |blocks| == 0 then []
    else
      (if blocks[0].Block? && DirectivesOk(NewLocation(blocks[0].path), blocks[0].dirs)
       then [ApplyDirectives(NewLocation(blocks[0].path), blocks[0].dirs)] else [])
      + Locations(blocks[1..])
  }

  function LimitOf(l: Limit): nat {
    if l == Unset then 0 else l.n
  }

  function Natural(n: int): nat {
    if n < 0 then 0 else n
  }

  /** The arguments of a server's directives, by name. */
  datatype Given = Given(
    listens: seq<seq<Word>>,
    names: seq<seq<Word>>,
    roots: seq<seq<Word>>,
    indexes: seq<seq<Word>>,
    pages: seq<seq<Word>>,
    sizes: seq<seq<Word>>,
    headerTimes: seq<seq<Word>>,
    cgiTimes: seq<seq<Word>>)

  function GivenIn(dirs: seq<Directive>): Given {
    Given(Args(dirs, "listen"), Args(dirs, "server_name"), Args(dirs, "root"), Args(dirs, "index"),
          Args(dirs, "error_page"), Args(dirs, "client_max_body_size"), Args(dirs, "header_timeout"),
          Args(dirs, "cgi_timeout"))
  }

  /** The server that the arguments make of `serv`, field by field. */
  function Filled(serv: ServerEntry, g: Given): ServerEntry {
    ServerEntry(
      (if serv.listenSet || g.listens == [] then serv.listen else {}) + Addresses(g.listens),
      serv.listenSet || g.listens != [],
      FirstName(g.names, serv.name),
      LastText(g.roots, serv.root),
      serv.index + AllTexts(g.indexes),
      Pages(g.pages, serv.errorPages),
      LimitOf(LastSize(g.sizes, Limit(serv.maxBody))),
      Natural(LastNumber(g.headerTimes, serv.headerTimeout)),
      Natural(LastNumber(g.cgiTimes, serv.cgiTimeout)),
      serv.locations)
  }

  function Extended(serv: ServerEntry, items: seq<BlockItem>): ServerEntry {
    Filled(serv, GivenIn(Settings(items))).(locations := serv.locations + Locations(Blocks(items)))
  }

  // ---------------------------------------------------------------- one directive more

  lemma ArgsStep(d: Directive, dirs: seq<Directive>, name: string)
    ensures Args([d] + dirs, name) == if d.name == name then [d.args] + Args(dirs, name) else Args(dirs, name)
  {
    assert ([d] + dirs)[1..] == dirs;
    assert [] + Args(dirs, name) == Args(dirs, name);
  }

  /** A list with one more in front. */
  lemma Front(a: seq<Word>, all: seq<seq<Word>>)
    ensures ([a] + all)[0] == a && ([a] + all)[1..] == all && [] + all == all
  {
  }

  lemma ListenStep(serv: ServerEntry, args: seq<Word>, all: seq<seq<Word>>)
    requires ListenArg(args)
    ensures ({} + Addresses([args] + all)) == {AddressOf(args[0].text)} + Addresses(all)
    ensures [args] + all != []
  {
    Front(args, all);
    hide IsHost, IsPort, AddressOf;
  }

  lemma TextsStep(before: seq<string>, args: seq<Word>, all: seq<seq<Word>>)
    ensures (before + Texts(args)) + AllTexts(all) == before + AllTexts([args] + all)
  {
    Front(args, all);
    hide Texts;
  }

  /** One directive more in front. */
  function With(g: Given, kind: ServerKind, args: seq<Word>): Given {
    match kind
    case Listen => g.(listens := [args] + g.listens)
    case ServerName => g.(names := [args] + g.names)
    case ServerRoot => g.(roots := [args] + g.roots)
    case ServerIndex => g.(indexes := [args] + g.indexes)
    case ServerErrorPage => g.(pages := [args] + g.pages)
    case ServerBodySize => g.(sizes := [args] + g.sizes)
    case HeaderTimeout => g.(headerTimes := [args] + g.headerTimes)
    case CgiTimeout => g.(cgiTimes := [args] + g.cgiTimes)
    case UnknownServerDirective => g
  }

  lemma GivenStep(d: Directive, dirs: seq<Directive>)
    ensures GivenIn([d] + dirs) == With(GivenIn(dirs), ServerKindOf(d.name), d.args)
  {
    ArgsStep(d, dirs, "listen");
    ArgsStep(d, dirs, "server_name");
    ArgsStep(d, dirs, "root");
    ArgsStep(d, dirs, "index");
    ArgsStep(d, dirs, "error_page");
    ArgsStep(d, dirs, "client_max_body_size");
    ArgsStep(d, dirs, "header_timeout");
    ArgsStep(d, dirs, "cgi_timeout");
    hide Args;
  }

  lemma FilledStep(serv: ServerEntry, kind: ServerKind, args: seq<Word>, g: Given)
    requires ServerAccepts(kind, args)
    ensures Filled(ApplyServer(serv, kind, args), g) == Filled(serv, With(g, kind, args))
  {
    hide IsAddress, AddressOf, Atoi, SizeOf, Texts, IsPath;
    match kind
    case Listen => ListenStep(serv, args, g.listens);
    case ServerIndex => TextsStep(serv.index, args, g.indexes);
    case ServerName => NameStep(serv, args, g.names);
    case ServerRoot => Front(args, g.roots);
    case ServerErrorPage => Front(args, g.pages);
    case ServerBodySize => Front(args, g.sizes);
    case HeaderTimeout => Front(args, g.headerTimes);
    case CgiTimeout => Front(args, g.cgiTimes);
    case _ =>
  }

  /** A setting in front of other items counts for the fields as one directive more. */
  lemma SettingMeans(serv: ServerEntry, d: Directive, items: seq<BlockItem>)
    requires ServerAccepts(ServerKindOf(d.name), d.args)
    ensures Extended(ApplyServer(serv, ServerKindOf(d.name), d.args), items) == Extended(serv, [Plain(d)] + items)
  {
    assert ([Plain(d)] + items)[1..] == items && Settings([Plain(d)] + items) == [d] + Settings(items);
    assert Blocks([Plain(d)] + items) == [] + Blocks(items) == Blocks(items);
    GivenStep(d, Settings(items));
    FilledStep(serv, ServerKindOf(d.name), d.args, GivenIn(Settings(items)));
    hide Filled, GivenIn, With, ServerKindOf, Settings, Blocks, Locations, ServerAccepts;
  }

  lemma NameStep(serv: ServerEntry, args: seq<Word>, all: seq<seq<Word>>)
    requires OneName(args)
    ensures FirstName(all, ApplyServer(serv, ServerName, args).name) == FirstName([args] + all, serv.name)
  {
    Front(args, all);
  }

  lemma FilledLocations(serv: ServerEntry, g: Given, locs: seq<Location>)
    ensures Filled(serv.(locations := locs), g) == Filled(serv, g).(locations := locs)
  {
  }

  lemma BlockMeans(serv: ServerEntry, path: string, dirs: seq<Directive>, items: seq<BlockItem>)
    requires ItemOk(serv, Block(path, dirs))
    ensures Extended(ApplyItem(serv, Block(path, dirs)), items) == Extended(serv, [Block(path, dirs)] + items)
  {
    var b := Block(path, dirs);
    assert ([b] + items)[1..] == items && Settings([b] + items) == [] + Settings(items) == Settings(items);
    assert Blocks([b] + items) == [b] + Blocks(items) && ([b] + Blocks(items))[1..] == Blocks(items);
    FilledLocations(serv, GivenIn(Settings(items)), serv.locations + [ApplyDirectives(NewLocation(path), dirs)]);
    hide Settings, Blocks, DirectivesOk, ApplyDirectives, GivenIn, Filled, IsDuplicate, NewLocation;
    var loc := ApplyDirectives(NewLocation(path), dirs);
    assert (serv.locations + [loc]) + Locations(Blocks(items)) == serv.locations + ([loc] + Locations(Blocks(items)));
  }

  /**
   * Every accepted list of items means, field by field: the first name, the last root, sizes and
   * time-outs, all entries of the index, the last page of each code, all addresses in place of the
   * default one, and all locations in order.
   */
  lemma {:induction false} ServerMeans(serv: ServerEntry, items: seq<BlockItem>)
    requires ItemsOk(serv, items)
    ensures ApplyItems(serv, items) == Extended(serv, items)
    decreases |items|
  {
    if |items| == 0 {
      NothingMore(serv);
    } else {
      assert items == [items[0]] + items[1..];
      ServerMeans(ApplyItem(serv, items[0]), items[1..]);
      hide Extended, ItemsOk, ServerAccepts, ServerKindOf, ApplyServer, DirectivesOk, ApplyDirectives, IsDuplicate;
      match items[0]
      case Plain(d) => SettingMeans(serv, d, items[1..]);
      case Block(path, dirs) => BlockMeans(serv, path, dirs, items[1..]);
    }
  }

  lemma NothingMore(serv: ServerEntry)
    ensures Extended(serv, []) == serv
  {
    assert serv.index + [] == serv.index && serv.locations + [] == serv.locations;
  }

  /** What a block stands for without any directive. */
  lemma Defaults(path: string)
    ensures NewServer() == ServerEntry({Sockets.Address("0.0.0.0", "8080")}, false, "", "/html", [], map[], 0, 10, 10, [])
    ensures NewLocation(path) == Location(path, "", [], map[], Unset, "", false, {"GET"}, false, false, NoRedirect, false, [])
  {
  }

  // ---------------------------------------------------------------- locations

  function AllMethods(all: seq<seq<Word>>): set<string> {
    if |all| == 0 then {} else TextSet(all[0]) + AllMethods(all[1..])
  }

  /** `on` and `true` switch on, anything else switches off. */
  function LastFlag(all: seq<seq<Word>>, before: bool): bool {
    if |all| == 0 then before
    else LastFlag(all[1..], FirstText(all[0]) == "on" || FirstText(all[0]) == "true")
  }

  function LastRedirect(all: seq<seq<Word>>, before: Redirect): Redirect {
    if |all| == 0 then before
    else LastRedirect(all[1..], Redirect(NumberIn(all[0]), if |all[0]| > 1 then Text(all[0][1]) else ""))
  }

  function FirstTexts(all: seq<seq<Word>>): seq<string> {
    if |all| == 0 then [] else [FirstText(all[0])] + FirstTexts(all[1..])
  }

  /** The location that `dirs` make of `loc`, field by field. */
  function ExtendedLocation(loc: Location, dirs: seq<Directive>): Location {
    var methods := Args(dirs, "allowed_methods");
    Location(
      loc.path,
      LastText(Args(dirs, "root"), loc.root),
      loc.index + AllTexts(Args(dirs, "index")),
      Pages(Args(dirs, "error_page"), loc.errorPages),
      LastSize(Args(dirs, "client_max_body_size"), loc.maxBody),
      LastText(Args(dirs, "upload_store"), loc.uploadStore),
      loc.methodSet || methods != [],
      (if loc.methodSet || methods == [] then loc.methods else {}) + AllMethods(methods),
      loc.autoIndexSet || Args(dirs, "autoindex") != [],
      LastFlag(Args(dirs, "autoindex"), loc.autoIndex),
      LastRedirect(Args(dirs, "redirect"), loc.redirect),
      loc.isCgi || Args(dirs, "cgi") != [],
      loc.cgi + FirstTexts(Args(dirs, "cgi")))
  }

  lemma MethodsStep(loc: Location, args: seq<Word>, all: seq<seq<Word>>)
    ensures (if true || all == [] then SetMethods(loc) + TextSet(args) else {}) + AllMethods(all)
         == (if loc.methodSet || [args] + all == [] then loc.methods else {}) + AllMethods([args] + all)
  {
    Front(args, all);
    hide TextSet;
  }

  lemma CgiStep(before: seq<string>, args: seq<Word>, all: seq<seq<Word>>)
    ensures (before + [FirstText(args)]) + FirstTexts(all) == before + FirstTexts([args] + all)
  {
    Front(args, all);
  }

  lemma DirectiveMeans(loc: Location, d: Directive, dirs: seq<Directive>)
    requires LocationAccepts(loc, LocationKindOf(d.name), d.args)
    ensures ExtendedLocation(ApplyLocation(loc, LocationKindOf(d.name), d.args), dirs) == ExtendedLocation(loc, [d] + dirs)
  {
    ArgsStep(d, dirs, "root");
    ArgsStep(d, dirs, "index");
    ArgsStep(d, dirs, "error_page");
    ArgsStep(d, dirs, "client_max_body_size");
    ArgsStep(d, dirs, "upload_store");
    ArgsStep(d, dirs, "allowed_methods");
    ArgsStep(d, dirs, "autoindex");
    ArgsStep(d, dirs, "redirect");
    ArgsStep(d, dirs, "cgi");
    hide Args, Atoi, SizeOf, Texts, TextSet, IsPath, MethodArgs;
    var kind, all := LocationKindOf(d.name), Args(dirs, d.name);
    Front(d.args, all);
    match kind
    case Index => TextsStep(loc.index, d.args, all);
    case Methods => MethodsStep(loc, d.args, all);
    case Cgi =>
      CgiStep(loc.cgi, d.args, all);
      assert FirstText(d.args) == d.args[0].text;
    case _ =>
  }

  /** Every accepted list of directives means, field by field, what its directives of each name say. */
  lemma {:induction false} LocationMeans(loc: Location, dirs: seq<Directive>)
    requires DirectivesOk(loc, dirs)
    ensures ApplyDirectives(loc, dirs) == ExtendedLocation(loc, dirs)
    decreases |dirs|
  {
    if |dirs| == 0 {
      assert loc.index + [] == loc.index && loc.cgi + [] == loc.cgi;
    } else {
      var kind := LocationKindOf(dirs[0].name);
      assert dirs == [dirs[0]] + dirs[1..];
      LocationMeans(ApplyLocation(loc, kind, dirs[0].args), dirs[1..]);
      hide ExtendedLocation, LocationAccepts, LocationKindOf, ApplyLocation;
      DirectiveMeans(loc, dirs[0], dirs[1..]);
    }
  }
}
