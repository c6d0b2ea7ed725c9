/**
 * The configuration language (webserv/sources/parser/Config.cpp): its directives, what they mean,
 * how they are written as tokens, and the recursive descent that reads them back.
 */
module ConfigGrammar {
  import B = Bytes
  import opened Lexing
  import opened ConfigValues
  import Sockets = ListenSockets

  type Digits = s: string | AllDigits(s) witness ""

  /** A token without its place. */
  datatype Word = Name(text: string) | Number(digits: Digits) | Open | Close | Semicolon | End

  function Text(w: Word): string {
    match w
    case Name(text) => text
    case Number(digits) => digits
    case Open => "{"
    case Close => "}"
    case Semicolon => ";"
    case End => ""
  }

  // ---------------------------------------------------------------- the configuration

  datatype Limit = Unset | Limit(n: nat)

  datatype Redirect = NoRedirect | Redirect(code: int, target: string)

  datatype Location = Location(
    path: string,
    root: string,
    index: seq<string>,
    errorPages: map<int, string>,
    maxBody: Limit,
    uploadStore: string,
    methodSet: bool,
    methods: set<string>,
    autoIndexSet: bool,
    autoIndex: bool,
    redirect: Redirect,
    isCgi: bool,
    cgi: seq<string>)

  datatype ServerEntry = ServerEntry(
    listen: set<Sockets.Address>,
    listenSet: bool,
    name: string,
    root: string,
    index: seq<string>,
    errorPages: map<int, string>,
    maxBody: nat,
    headerTimeout: nat,
    cgiTimeout: nat,
    locations: seq<Location>)

  const DEFAULT_ADDRESS := Sockets.Address("0.0.0.0", "8080")
  const HEADER_TIME_OUT := 10
  const CGI_TIME_OUT := 10
  const MAX_TIMEOUT := 86400

  function NewServer(): ServerEntry {
    ServerEntry({DEFAULT_ADDRESS}, false, "", "/html", [], map[], 0, HEADER_TIME_OUT, CGI_TIME_OUT, [])
  }

  function NewLocation(path: string): Location {
    Location(path, "", [], map[], Unset, "", false, {"GET"}, false, false, NoRedirect, false, [])
  }

  // ---------------------------------------------------------------- directives and their arguments

  datatype Directive = Directive(name: string, args: seq<Word>)

  /** What a server block holds: plain directives and location blocks. */
  datatype BlockItem = Plain(d: Directive) | Block(path: string, dirs: seq<Directive>)

  predicate IsPath(s: string) {
    |s| > 0 && s[0] == '/'
  }

  predicate OneName(args: seq<Word>) {
    |args| == 1 && args[0].Name?
  }

  predicate PathArg(args: seq<Word>) {
    OneName(args) && IsPath(args[0].text)
  }

  predicate ListArg(args: seq<Word>) {
    forall k :: 0 <= k < |args| ==> args[k] != Semicolon
  }

  predicate SizeArg(args: seq<Word>) {
    OneName(args) && SizeOf(args[0].text).Bytes?
  }

  predicate ErrorArgs(args: seq<Word>) {
    |args| == 2 && args[0].Number? && |args[0].digits| == 3 && args[1].Name?
  }

  predicate TimeoutArg(args: seq<Word>) {
    |args| == 1 && args[0].Number? && 0 <= Atoi(args[0].digits) <= MAX_TIMEOUT
  }

  /** Exactly the numbers whose low 32 bits are at most a day are accepted, below the largest `long`. */
  lemma AcceptedTimeouts(w: Word)
    requires w.Number?
    ensures TimeoutArg([w]) <==> Value(w.digits) < LONG_MAX && Value(w.digits) % TWO_32 <= MAX_TIMEOUT
    ensures TimeoutArg([w]) ==> (Value(w.digits) <= MAX_TIMEOUT <==> Value(w.digits) < TWO_32)
  {
    AtoiWithin(w.digits, MAX_TIMEOUT);
  }

  /** A timeout beyond 32 bits is accepted as one second. */
  lemma WrappedTimeout()
    ensures var digits := Decimal(TWO_32 + 1); TimeoutArg([Number(digits)]) && Atoi(digits) == 1
  {
    ValueOfDecimal(TWO_32 + 1);
  }

  predicate IsAddress(s: string) {
    var c := B.CharAt(s, ':');
    c < |s| && IsHost(s[..c]) && IsPort(s[c + 1..])
  }

  predicate ListenArg(args: seq<Word>) {
    OneName(args) && IsAddress(args[0].text)
  }

  predicate IsOn(s: string) {
    s == "on" || s == "true"
  }

  predicate IsOff(s: string) {
    s == "off" || s == "false"
  }

  predicate FlagArg(args: seq<Word>) {
    OneName(args) && (IsOn(args[0].text) || IsOff(args[0].text))
  }

  predicate IsMethodName(s: string) {
    s == "GET" || s == "POST" || s == "DELETE"
  }

  predicate IsMethod(w: Word) {
    w.Name? && IsMethodName(w.text)
  }

  predicate MethodArgs(args: seq<Word>) {
    forall k :: 0 <= k < |args| ==> IsMethod(args[k])
  }

  predicate RedirectArgs(args: seq<Word>) {
    |args| == 2 && args[0].Number? && |args[0].digits| == 3 && args[0].digits[0] == '3' && args[1].Name?
  }

  function Texts(args: seq<Word>): (texts: seq<string>)
    ensures |texts| == |args| && forall k :: 0 <= k < |args| ==> texts[k] == Text(args[k])
  {
    seq(|args|, k requires 0 <= k < |args| => Text(args[k]))
  }

  function TextSet(args: seq<Word>): (texts: set<string>)
    ensures forall k :: 0 <= k < |args| ==> Text(args[k]) in texts
  {
    set text | text in Texts(args)
  }

  function AddressOf(s: string): Sockets.Address
    requires IsAddress(s)
  {
    Sockets.Address(s[..B.CharAt(s, ':')], s[B.CharAt(s, ':') + 1..])
  }

  // ---------------------------------------------------------------- location directives

  datatype LocationKind =
    | Root | Index | ErrorPage | BodySize | UploadStore | Methods | AutoIndex | Redirects | Cgi | UnknownDirective

  function LocationKindOf(name: string): LocationKind {
    if name == "root" then Root
    else if name == "index" then Index
    else if name == "error_page" then ErrorPage
    else if name == "client_max_body_size" then BodySize
    else if name == "upload_store" then UploadStore
    else if name == "allowed_methods" then Methods
    else if name == "autoindex" then AutoIndex
    else if name == "redirect" then Redirects
    else if name == "cgi" then Cgi
    else UnknownDirective
  }

  /** The methods set before; the default is not. */
  function SetMethods(loc: Location): set<string> {
    if loc.methodSet then loc.methods else {}
  }

  /** An empty list of methods is accepted only behind one that was not. */
  predicate HasMethods(loc: Location) {
    loc.methodSet && loc.methods != {}
  }

  /** The arguments a directive may have. */
  predicate LocationAccepts(loc: Location, kind: LocationKind, args: seq<Word>) {
    match kind
    case Root => PathArg(args)
    case Index => ListArg(args)
    case ErrorPage => ErrorArgs(args)
    case BodySize => SizeArg(args)
    case UploadStore => PathArg(args)
    case Methods => MethodArgs(args) && (|args| > 0 || HasMethods(loc))
    case AutoIndex => FlagArg(args)
    case Redirects => RedirectArgs(args)
    case Cgi => OneName(args)
    case UnknownDirective => false
  }

  function ApplyLocation(loc: Location, kind: LocationKind, args: seq<Word>): (r: Location)
    requires LocationAccepts(loc, kind, args)
    ensures r.path == loc.path
  {
    match kind
    case Root => loc.(root := args[0].text)
    case Index => loc.(index := loc.index + Texts(args))
    case ErrorPage => loc.(errorPages := loc.errorPages[Atoi(args[0].digits) := args[1].text])
    case BodySize => loc.(maxBody := Limit(SizeOf(args[0].text).n))
    case UploadStore => loc.(uploadStore := args[0].text)
    case Methods =>
      loc.(methodSet := true, methods := SetMethods(loc) + TextSet(args))
    case AutoIndex => loc.(autoIndexSet := true, autoIndex := IsOn(args[0].text))
    case Redirects => loc.(redirect := Redirect(Atoi(args[0].digits), args[1].text))
    case Cgi => loc.(isCgi := true, cgi := loc.cgi + [args[0].text])
  }

  predicate DirectivesOk(loc: Location, dirs: seq<Directive>)
    decreases |dirs|
  {
    |dirs| == 0
    || (var k := LocationKindOf(dirs[0].name);
        LocationAccepts(loc, k, dirs[0].args) && DirectivesOk(ApplyLocation(loc, k, dirs[0].args), dirs[1..]))
  }

  /** What a location block means. */
  function ApplyDirectives(loc: Location, dirs: seq<Directive>): (r: Location)
    requires DirectivesOk(loc, dirs)
    ensures r.path == loc.path
    decreases |dirs|
  {
    if |dirs| == 0 then loc
    else ApplyDirectives(ApplyLocation(loc, LocationKindOf(dirs[0].name), dirs[0].args), dirs[1..])
  }

  // ---------------------------------------------------------------- server directives

  datatype ServerKind =
    | Listen | ServerName | ServerRoot | ServerIndex | ServerBodySize | ServerErrorPage
    | HeaderTimeout | CgiTimeout | UnknownServerDirective

  function ServerKindOf(name: string): ServerKind {
    if name == "listen" then Listen
    else if name == "server_name" then ServerName
    else if name == "root" then ServerRoot
    else if name == "index" then ServerIndex
    else if name == "client_max_body_size" then ServerBodySize
    else if name == "error_page" then ServerErrorPage
    else if name == "header_timeout" then HeaderTimeout
    else if name == "cgi_timeout" then CgiTimeout
    else UnknownServerDirective
  }

  predicate ServerAccepts(kind: ServerKind, args: seq<Word>) {
    match kind
    case Listen => ListenArg(args)
    case ServerName => OneName(args)
    case ServerRoot => PathArg(args)
    case ServerIndex => ListArg(args)
    case ServerBodySize => SizeArg(args)
    case ServerErrorPage => ErrorArgs(args)
    case HeaderTimeout => TimeoutArg(args)
    case CgiTimeout => TimeoutArg(args)
    case UnknownServerDirective => false
  }

  function ApplyServer(serv: ServerEntry, kind: ServerKind, args: seq<Word>): (r: ServerEntry)
    requires ServerAccepts(kind, args)
    ensures r.locations == serv.locations
  {
    match kind
    case Listen =>
      var before := if serv.listenSet then serv.listen else {};
      serv.(listenSet := true, listen := before + {AddressOf(args[0].text)})
    case ServerName => if serv.name == "" then serv.(name := args[0].text) else serv
    case ServerRoot => serv.(root := args[0].text)
    case ServerIndex => serv.(index := serv.index + Texts(args))
    case ServerBodySize => serv.(maxBody := SizeOf(args[0].text).n)
    case ServerErrorPage => serv.(errorPages := serv.errorPages[Atoi(args[0].digits) := args[1].text])
    case HeaderTimeout => serv.(headerTimeout := Atoi(args[0].digits))
    case CgiTimeout => serv.(cgiTimeout := Atoi(args[0].digits))
  }

  /** How many of the leading characters are slashes. */
  function Slashes(s: string): (n: nat)
    ensures n <= |s| && (n < |s| ==> s[n] != '/')
  {
    if |s| > 0 && s[0] == '/' then 1 + Slashes(s[1..]) else 0
  }

  /** `s` without the slashes at its end. */
  function TrimEnd(s: string): (r: string)
    ensures r <= s && (|r| > 0 ==> r[|r| - 1] != '/')
  {
    if |s| > 0 && s[|s| - 1] == '/' then TrimEnd(s[..|s| - 1]) else s
  }

  /** A location's path without the slashes around it, `normPath`. */
  function NormPath(path: string): string {
    var t := TrimEnd(path[Slashes(path)..]);
    if |t| == 0 then "/" else t
  }

  predicate AllSlashes(s: string) {
    forall k :: 0 <= k < |s| ==> s[k] == '/'
  }

  lemma {:induction false} SlashesAre(a: string, rest: string)
    requires AllSlashes(a) && (|rest| > 0 ==> rest[0] != '/')
    ensures Slashes(a + rest) == |a|
  {
    if |a| > 0 {
      assert (a + rest)[1..] == a[1..] + rest;
      SlashesAre(a[1..], rest);
    } else {
      assert a + rest == rest;
    }
  }

  lemma {:induction false} TrimEndIs(core: string, b: string)
    requires AllSlashes(b) && (|core| > 0 ==> core[|core| - 1] != '/')
    ensures TrimEnd(core + b) == core
    decreases |b|
  {
    if |b| == 0 {
      assert core + b == core;
    } else {
      assert (core + b)[..|core + b| - 1] == core + b[..|b| - 1];
      TrimEndIs(core, b[..|b| - 1]);
    }
  }

  /** Slashes around a path do not count when locations are compared, and slashes alone are the root. */
  lemma NormPathIs(a: string, core: string, b: string)
    requires AllSlashes(a) && AllSlashes(b)
    requires |core| > 0 ==> core[0] != '/' && core[|core| - 1] != '/'
    ensures core != "" ==> NormPath(a + (core + b)) == core
    ensures core == "" ==> NormPath(a + (core + b)) == "/"
  {
    var s := a + (core + b);
    if core != "" {
      SlashesAre(a, core + b);
      assert s[|a|..] == core + b;
      TrimEndIs(core, b);
    } else {
      SlashesAre(s, "");
      assert s + "" == s && s[|s|..] == "";
    }
  }

  predicate IsDuplicate(serv: ServerEntry, loc: Location) {
    exists k :: 0 <= k < |serv.locations| && NormPath(serv.locations[k].path) == NormPath(loc.path)
  }

  predicate ItemOk(serv: ServerEntry, item: BlockItem) {
    match item
    case Plain(d) => ServerAccepts(ServerKindOf(d.name), d.args)
    case Block(path, dirs) =>
      && IsPath(path) && DirectivesOk(NewLocation(path), dirs)
      && !IsDuplicate(serv, NewLocation(path))
  }

  function ApplyItem(serv: ServerEntry, item: BlockItem): ServerEntry
    requires ItemOk(serv, item)
  {
    match item
    case Plain(d) => ApplyServer(serv, ServerKindOf(d.name), d.args)
    case Block(path, dirs) => serv.(locations := serv.locations + [ApplyDirectives(NewLocation(path), dirs)])
  }

  predicate ItemsOk(serv: ServerEntry, items: seq<BlockItem>)
    decreases |items|
  {
    |items| == 0 || (ItemOk(serv, items[0]) && ItemsOk(ApplyItem(serv, items[0]), items[1..]))
  }

  function ApplyItems(serv: ServerEntry, items: seq<BlockItem>): ServerEntry
    requires ItemsOk(serv, items)
    decreases |items|
  {
    if |items| == 0 then serv else ApplyItems(ApplyItem(serv, items[0]), items[1..])
  }

  /** Locations without a root get the server's. */
  function MapRoot(loc: Location, root: string): Location {
    if loc.root == "" then loc.(root := root) else loc
  }

  function MapRoots(serv: ServerEntry): (r: ServerEntry)
    ensures |r.locations| == |serv.locations|
    ensures forall k :: 0 <= k < |r.locations| ==> r.locations[k] == MapRoot(serv.locations[k], serv.root)
  {
    serv.(locations := seq(|serv.locations|, k requires 0 <= k < |serv.locations| => MapRoot(serv.locations[k], serv.root)))
  }

  /** A configuration file as its author sees it: the items of each server block. */
  predicate FileOk(file: seq<seq<BlockItem>>) {
    forall k :: 0 <= k < |file| ==> ItemsOk(NewServer(), file[k])
  }

  function Meaning(file: seq<seq<BlockItem>>): (servers: seq<ServerEntry>)
    requires FileOk(file)
    ensures |servers| == |file|
    ensures forall k :: 0 <= k < |file| ==> servers[k] == MapRoots(ApplyItems(NewServer(), file[k]))
  {
    seq(|file|, k requires 0 <= k < |file| => MapRoots(ApplyItems(NewServer(), file[k])))
  }

  // ---------------------------------------------------------------- writing

  /** A directive, and what is written behind it. */
  function WriteDirective(d: Directive, more: seq<Word>): seq<Word> {
    [Name(d.name)] + (d.args + ([Semicolon] + more))
  }

  function WriteDirectives(dirs: seq<Directive>, more: seq<Word>): seq<Word>
    decreases |dirs|
  {
    if |dirs| == 0 then more else WriteDirective(dirs[0], WriteDirectives(dirs[1..], more))
  }

  function WriteItem(item: BlockItem, more: seq<Word>): seq<Word> {
    match item
    case Plain(d) => WriteDirective(d, more)
    case Block(path, dirs) => [Name("location"), Name(path), Open] + WriteDirectives(dirs, [Close] + more)
  }

  function WriteItems(items: seq<BlockItem>, more: seq<Word>): seq<Word>
    decreases |items|
  {
    if |items| == 0 then more else WriteItem(items[0], WriteItems(items[1..], more))
  }

  /** A file, its end, and anything behind that. */
  function Write(file: seq<seq<BlockItem>>, more: seq<Word>): seq<Word>
    decreases |file|
  {
    if |file| == 0 then [End] + more
    else [Name("server"), Open] + WriteItems(file[0], [Close] + Write(file[1..], more))
  }
}
