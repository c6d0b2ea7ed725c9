/**
 * The recursive descent of webserv/sources/parser/Config.cpp as functions on the tokens that are
 * left, and the proof that it accepts exactly the written configurations and gives their meaning.
 */
module ConfigReader {
  import B = Bytes
  import opened Lexing
  import opened ConfigValues
  import opened ConfigGrammar

  /** What a ParsingError complains about. */
  datatype Reason =
    | ExpectSemicolon | ExpectServer | ServerHasNoBrace | UnknownItem | DuplicateLocation
    | PathPrefix | ExpectBrace | ExpectLocationDirective | UnknownServer | UnknownLocation
    | InvalidTimeout | TimeoutTooLong | ExpectListen | InvalidListen | InvalidPort | PortRange
    | InvalidName | ExpectPath | PathStart | InvalidFlag | InvalidSize
    | ExpectErrorCode | InvalidErrorCode | ExpectErrorPath | ExpectExtension
    | UnknownMethod | NoMethods | ExpectRedirectCode | InvalidRedirectCode | ExpectTarget

  /** `Taken(n)`: the arguments are the first `n` tokens. `Bad`: `left` tokens, the offending one first, are left. */
  datatype Fetched = Taken(n: nat) | Bad(reason: Reason, left: nat) | PastEnd

  function First(ws: seq<Word>): Word {
    if |ws| > 0 then ws[0] else End
  }

  // ---------------------------------------------------------------- arguments

  function FetchName(ws: seq<Word>, reason: Reason): (r: Fetched)
    ensures r.Taken? ==> r.n <= |ws| && OneName(B.Take(ws, r.n))
  {
    if First(ws).Name? then Taken(1) else Bad(reason, |ws|)
  }

  function FetchPath(ws: seq<Word>): (r: Fetched)
    ensures r.Taken? ==> r.n <= |ws| && PathArg(B.Take(ws, r.n))
  {
    if !First(ws).Name? then Bad(ExpectPath, |ws|)
    else if !IsPath(First(ws).text) then Bad(PathStart, |ws|)
    else Taken(1)
  }

  /** The place of the first semicolon, or the length. */
  function SemicolonAt(ws: seq<Word>): (n: nat)
    ensures n <= |ws| && ListArg(B.Take(ws, n)) && (n < |ws| ==> ws[n] == Semicolon)
  {
    if |ws| == 0 || ws[0] == Semicolon then 0 else 1 + SemicolonAt(ws[1..])
  }

  /** The loop up to the semicolon has no other end. */
  function FetchList(ws: seq<Word>): (r: Fetched)
    ensures r.Taken? ==> r.n <= |ws| && ListArg(B.Take(ws, r.n))
  {
    if SemicolonAt(ws) < |ws| then Taken(SemicolonAt(ws)) else PastEnd
  }

  function FetchSize(ws: seq<Word>): (r: Fetched)
    ensures r.Taken? ==> r.n <= |ws| && SizeArg(B.Take(ws, r.n))
  {
    if First(ws).Name? && SizeOf(First(ws).text).Bytes? then Taken(1) else Bad(InvalidSize, |ws|)
  }

  function FetchError(ws: seq<Word>): (r: Fetched)
    ensures r.Taken? ==> r.n <= |ws| && ErrorArgs(B.Take(ws, r.n))
  {
    if !First(ws).Number? then Bad(ExpectErrorCode, |ws|)
    else if |First(ws).digits| != 3 then Bad(InvalidErrorCode, |ws|)
    else if !First(ws[1..]).Name? then Bad(ExpectErrorPath, |ws| - 1)
    else Taken(2)
  }

  function FetchTimeout(ws: seq<Word>): (r: Fetched)
    ensures r.Taken? ==> r.n <= |ws| && TimeoutArg(B.Take(ws, r.n))
  {
    if !First(ws).Number? then Bad(InvalidTimeout, |ws|)
    else if 0 <= Atoi(First(ws).digits) <= MAX_TIMEOUT then Taken(1)
    else Bad(TimeoutTooLong, |ws|)
  }

  function FetchListen(ws: seq<Word>): (r: Fetched)
    ensures r.Taken? ==> r.n <= |ws| && ListenArg(B.Take(ws, r.n))
  {
    if !First(ws).Name? then Bad(ExpectListen, |ws|)
    else
      var s := First(ws).text;
      var c := B.CharAt(s, ':');
      if c == |s| || !IsHost(s[..c]) then Bad(InvalidListen, |ws|)
      else if !AllDigits(s[c + 1..]) then Bad(InvalidPort, |ws|)
      else if !IsPort(s[c + 1..]) then Bad(PortRange, |ws|)
      else Taken(1)
  }

  function FetchFlag(ws: seq<Word>): (r: Fetched)
    ensures r.Taken? ==> r.n <= |ws| && FlagArg(B.Take(ws, r.n))
  {
    if First(ws).Name? && (IsOn(First(ws).text) || IsOff(First(ws).text)) then Taken(1) else Bad(InvalidFlag, |ws|)
  }

  /** How many of the first tokens are methods. */
  function MethodsLen(ws: seq<Word>): (n: nat)
    ensures n <= |ws| && MethodArgs(B.Take(ws, n)) && (n < |ws| ==> !IsMethod(ws[n]))
  {
    if |ws| == 0 || !IsMethod(ws[0]) then 0
    else
      assert ws[..1 + MethodsLen(ws[1..])][1..] == ws[1..][..MethodsLen(ws[1..])];
      1 + MethodsLen(ws[1..])
  }

  function FetchMethods(loc: Location, ws: seq<Word>): (r: Fetched)
    ensures r.Taken? ==> r.n <= |ws| && MethodArgs(B.Take(ws, r.n)) && (r.n > 0 || HasMethods(loc))
  {
    var n := MethodsLen(ws);
    if First(ws[n..]).Name? then Bad(UnknownMethod, |ws| - n)
    else if n == 0 && !HasMethods(loc) then Bad(NoMethods, |ws|)
    else Taken(n)
  }

  function FetchRedirect(ws: seq<Word>): (r: Fetched)
    ensures r.Taken? ==> r.n <= |ws| && RedirectArgs(B.Take(ws, r.n))
  {
    if !First(ws).Number? then Bad(ExpectRedirectCode, |ws|)
    else if |First(ws).digits| != 3 || First(ws).digits[0] != '3' then Bad(InvalidRedirectCode, |ws|)
    else if !First(ws[1..]).Name? then Bad(ExpectTarget, |ws| - 1)
    else Taken(2)
  }

  // ---------------------------------------------------------------- directives

  function EndDirective(ws: seq<Word>, f: Fetched): (r: Fetched) {
    if !f.Taken? then f
    else if f.n < |ws| && ws[f.n] == Semicolon then f
    else Bad(ExpectSemicolon, if f.n <= |ws| then |ws| - f.n else 0)
  }

  /** The arguments of a location directive; `ws` is what follows its name. */
  function FetchLocation(loc: Location, kind: LocationKind, ws: seq<Word>): (r: Fetched)
    ensures r.Taken? ==> r.n <= |ws| && LocationAccepts(loc, kind, B.Take(ws, r.n))
  {
    match kind
    case Root => FetchPath(ws)
    case Index => FetchList(ws)
    case ErrorPage => FetchError(ws)
    case BodySize => FetchSize(ws)
    case UploadStore => FetchPath(ws)
    case Methods => FetchMethods(loc, ws)
    case AutoIndex => FetchFlag(ws)
    case Redirects => FetchRedirect(ws)
    case Cgi => FetchName(ws, ExpectExtension)
    case UnknownDirective => Bad(UnknownLocation, |ws| + 1)
  }

  function FetchServer(kind: ServerKind, ws: seq<Word>): (r: Fetched)
    ensures r.Taken? ==> r.n <= |ws| && ServerAccepts(kind, B.Take(ws, r.n))
  {
    match kind
    case Listen => FetchListen(ws)
    case ServerName => FetchName(ws, InvalidName)
    case ServerRoot => FetchPath(ws)
    case ServerIndex => FetchList(ws)
    case ServerBodySize => FetchSize(ws)
    case ServerErrorPage => FetchError(ws)
    case HeaderTimeout => FetchTimeout(ws)
    case CgiTimeout => FetchTimeout(ws)
    case UnknownServerDirective => Bad(UnknownServer, |ws| + 1)
  }

  /** A location after some tokens, and the tokens that are left. */
  datatype LocationRead = GotLocation(loc: Location, rest: seq<Word>) | LocationBad(reason: Reason, left: nat) | LocationPastEnd

  datatype ServerRead = GotServer(serv: ServerEntry, rest: seq<Word>) | ServerBad(reason: Reason, left: nat) | ServerPastEnd

  datatype FileRead = GotFile(servers: seq<ServerEntry>) | FileBad(reason: Reason, left: nat) | FilePastEnd

  /** One directive; `ws` begins with its name. */
  function ReadLocationDirective(loc: Location, ws: seq<Word>): (r: LocationRead)
    requires |ws| > 0 && ws[0].Name?
    ensures r.GotLocation? ==> |r.rest| < |ws|
  {
    var kind := LocationKindOf(ws[0].text);
    match EndDirective(ws[1..], FetchLocation(loc, kind, ws[1..]))
    case Taken(n) => GotLocation(ApplyLocation(loc, kind, ws[1..][..n]), ws[1..][n + 1..])
    case Bad(reason, left) => LocationBad(reason, left)
    case PastEnd => LocationPastEnd
  }

  /** Directives up to the closing brace. */
  function ReadDirectives(loc: Location, ws: seq<Word>): (r: LocationRead)
    ensures r.GotLocation? ==> |r.rest| < |ws|
    decreases |ws|
  {
    if First(ws) == Close then GotLocation(loc, ws[1..])
    else if !First(ws).Name? then LocationBad(ExpectLocationDirective, |ws|)
    else
      var r := ReadLocationDirective(loc, ws);
      if r.GotLocation? then ReadDirectives(r.loc, r.rest) else r
  }

  /** A location block; `ws` begins with the word `location`. */
  function ReadLocation(ws: seq<Word>): (r: LocationRead)
    requires |ws| > 0
    ensures r.GotLocation? ==> |r.rest| < |ws|
  {
    var path := First(ws[1..]);
    if !(path.Name? && IsPath(path.text)) then LocationBad(PathPrefix, |ws| - 1)
    else if First(ws[2..]) != Open then LocationBad(ExpectBrace, |ws| - 2)
    else ReadDirectives(NewLocation(path.text), ws[3..])
  }

  /** One item of a server block; `ws` begins with its name. */
  function ReadItem(serv: ServerEntry, ws: seq<Word>): (r: ServerRead)
    requires |ws| > 0 && ws[0].Name?
    ensures r.GotServer? ==> |r.rest| < |ws|
  {
    if ws[0].text == "location" then
      match ReadLocation(ws)
      case GotLocation(loc, rest) =>
        if IsDuplicate(serv, loc) then ServerBad(DuplicateLocation, |ws|)
        else GotServer(serv.(locations := serv.locations + [loc]), rest)
      case LocationBad(reason, left) => ServerBad(reason, left)
      case LocationPastEnd => ServerPastEnd
    else
      var kind := ServerKindOf(ws[0].text);
      match EndDirective(ws[1..], FetchServer(kind, ws[1..]))
      case Taken(n) => GotServer(ApplyServer(serv, kind, ws[1..][..n]), ws[1..][n + 1..])
      case Bad(reason, left) => ServerBad(reason, left)
      case PastEnd => ServerPastEnd
  }

  function ReadItems(serv: ServerEntry, ws: seq<Word>): (r: ServerRead)
    ensures r.GotServer? ==> |r.rest| < |ws|
    decreases |ws|
  {
    if First(ws) == Close then GotServer(serv, ws[1..])
    else if !First(ws).Name? then ServerBad(UnknownItem, |ws|)
    else
      var r := ReadItem(serv, ws);
      if r.GotServer? then ReadItems(r.serv, r.rest) else r
  }

  function ReadServer(ws: seq<Word>): (r: ServerRead)
    ensures r.GotServer? ==> |r.rest| < |ws|
  {
    if First(ws) != Name("server") then ServerBad(ExpectServer, |ws|)
    else if First(ws[1..]) != Open then ServerBad(ServerHasNoBrace, |ws| - 1)
    else ReadItems(NewServer(), ws[2..])
  }

  function ReadFile(ws: seq<Word>): FileRead
    decreases |ws|
  {
    if |ws| == 0 then FilePastEnd
    else if ws[0] == End then GotFile([])
    else
      match ReadServer(ws)
      case GotServer(serv, rest) =>
        (match ReadFile(rest)
         case GotFile(servers) => GotFile([MapRoots(serv)] + servers)
         case FileBad(reason, left) => FileBad(reason, left)
         case FilePastEnd => FilePastEnd)
      case ServerBad(reason, left) => FileBad(reason, left)
      case ServerPastEnd => FilePastEnd
  }
}
