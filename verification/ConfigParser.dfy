/**
 * The parser of webserv/sources/parser/Config.cpp as it is: an index that advances over the tokens.
 * Every method is proved against the function of `ConfigReader` it implements, errors included.
 */
module ConfigTokens {
  import B = Bytes
  import opened Lexing
  import opened ConfigValues
  import opened ConfigGrammar
  import R = ConfigReader
  import Sockets = ListenSockets

  /** A ParsingError, or a read past the last token, which the source does not notice. */
  datatype ParseStatus = Fine | Error(reason: R.Reason, at: Token) | OutOfBounds

  function WordOf(t: Token): Word {
    match t.kind
    case EndOfFile => End
    case LBrace => Open
    case RBrace => Close
    case Semi => Semicolon
    case Str => Name(t.text)
    case Num => if AllDigits(t.text) then Number(t.text) else Name(t.text)
  }

  function Words(tokens: seq<Token>): (ws: seq<Word>)
    ensures |ws| == |tokens| && forall k :: 0 <= k < |ws| ==> ws[k] == WordOf(tokens[k])
  {
    seq(|tokens|, k requires 0 <= k < |tokens| => WordOf(tokens[k]))
  }

  /** Tokens as the lexer gives them: one end of file, at the end, and numbers of digits. */
  predicate Lexed(tokens: seq<Token>) {
    && |tokens| > 0
    && (forall k :: 0 <= k < |tokens| ==> (tokens[k].kind == EndOfFile <==> k == |tokens| - 1))
    && (forall k :: 0 <= k < |tokens| ==> GoodToken(tokens[k]))
  }

  /** The lexer's tokens are such tokens. */
  lemma LexerIsLexed(src: string)
    ensures Lexed(Lex(src, 0))
  {
    var tokens := Lex(src, 0);
    forall k | 0 <= k < |tokens|
      ensures (tokens[k].kind == EndOfFile <==> k == |tokens| - 1) && GoodToken(tokens[k])
    {
      var p := TokenPlace(src, 0, k);
    }
  }

  class ConfigParser {
    const tokens: seq<Token>
    var index: nat

    constructor (tokens: seq<Token>)
      requires Lexed(tokens)
      ensures this.tokens == tokens && Valid() && index == 0
    {
      this.tokens := tokens;
      index := 0;
    }

    /** The index is within the tokens. */
    predicate Valid()
      reads this
    {
      Lexed(tokens) && index < |tokens|
    }

    /** The tokens that are left. */
    ghost function Rest(): (ws: seq<Word>)
      requires index <= |tokens|
      reads this
      ensures |ws| == |tokens| - index
    {
      Words(tokens[index..])
    }

    ghost function Rest0(i: nat): (ws: seq<Word>)
      requires i <= |tokens|
      ensures |ws| == |tokens| - i
    {
      Words(tokens[i..])
    }

    function Current(): Token
      requires Valid()
      reads this
    {
      tokens[index]
    }

    /** The next token's kind, and the tokens behind it. */
    lemma RestIs()
      requires Valid()
      ensures Rest()[0] == WordOf(tokens[index]) && Rest()[1..] == Words(tokens[index + 1..])
      ensures GoodToken(tokens[index]) && (tokens[index].kind != EndOfFile ==> index + 1 < |tokens|)
      ensures WordOf(tokens[index]).Number? <==> tokens[index].kind == Num
      ensures WordOf(tokens[index]).Name? <==> tokens[index].kind == Str
      ensures WordOf(tokens[index]).Name? || WordOf(tokens[index]).Number? ==> Text(WordOf(tokens[index])) == tokens[index].text
    {
      assert tokens[index].kind == Num ==> AllDigits(tokens[index].text);
    }

    /** What `f` says happened: the index moved on, or the error names the right token. */
    ghost predicate Agrees(f: R.Fetched, st: ParseStatus, from: nat)
      reads this
    {
      match f
      case Taken(n) => st == Fine && index == from + n && Valid()
      case Bad(reason, left) => 0 < left <= |tokens| && st == Error(reason, tokens[|tokens| - left])
      case PastEnd => st == OutOfBounds
    }

    method Accept(kind: TokenType) returns (ok: bool)
      requires Valid() && kind != EndOfFile
      modifies this
      ensures ok <==> tokens[old(index)].kind == kind
      ensures index == (if ok then old(index) + 1 else old(index)) && Valid()
    {
      if tokens[index].kind == kind {
        index := index + 1;
        return true;
      }
      return false;
    }

    // -------------------------------------------------------------- arguments

    method FetchPath() returns (st: ParseStatus, path: string)
      requires Valid()
      modifies this
      ensures Agrees(R.FetchPath(old(Rest())), st, old(index))
      ensures st == Fine ==> Name(path) == old(Rest())[0]
    {
      RestIs();
      var cur := Current();
      path := cur.text;
      var ok := Accept(Str);
      if !ok {
        return Error(R.ExpectPath, cur), path;
      }
      if !IsPath(cur.text) {
        return Error(R.PathStart, cur), path;
      }
      return Fine, path;
    }

    /** The loop that looks for a semicolon only: it runs out of the tokens when there is none. */
    method FetchPathList(list: seq<string>) returns (st: ParseStatus, r: seq<string>)
      requires Valid()
      modifies this
      ensures Agrees(R.FetchList(old(Rest())), st, old(index))
      ensures st == Fine ==> r == list + Texts(old(Rest())[..R.SemicolonAt(old(Rest()))])
    {
      hide Lexed, GoodToken, Words, WordOf, R.SemicolonAt, Texts;
      r := list;
      ghost var ws, from := Rest(), index;
      TextsNone(list, ws);
      while tokens[index].kind != Semi
        invariant from <= index < |tokens| && ws == Words(tokens[from..])
        invariant R.SemicolonAt(ws) == index - from + R.SemicolonAt(Words(tokens[index..]))
        invariant r == list + Texts(ws[..index - from])
        decreases |tokens| - index
      {
        RestIs();
        SemicolonStep(tokens, index);
        TextsNext(tokens, from, index);
        r := r + [tokens[index].text];
        index := index + 1;
        if index == |tokens| {
          return OutOfBounds, r;
        }
      }
      RestIs();
      SemicolonStep(tokens, index);
      return Fine, r;
    }

    method FetchName(reason: R.Reason) returns (st: ParseStatus, name: string)
      requires Valid()
      modifies this
      ensures Agrees(R.FetchName(old(Rest()), reason), st, old(index))
      ensures st == Fine ==> Name(name) == old(Rest())[0]
    {
      RestIs();
      var cur := Current();
      name := cur.text;
      var ok := Accept(Str);
      st := if ok then Fine else Error(reason, cur);
    }

    method FetchSize() returns (st: ParseStatus, size: nat)
      requires Valid()
      modifies this
      ensures Agrees(R.FetchSize(old(Rest())), st, old(index))
      ensures st == Fine ==> old(Rest())[0].Name? && SizeOf(old(Rest())[0].text) == Bytes(size)
    {
      RestIs();
      var cur := Current();
      size := 0;
      var ok := Accept(Str);
      if !ok {
        return Error(R.InvalidSize, cur), size;
      }
      var parsed := FetchBodySize(cur.text);
      if parsed == NoSize {
        return Error(R.InvalidSize, cur), size;
      }
      return Fine, parsed.n;
    }

    method FetchErrorPages(errors: map<int, string>) returns (st: ParseStatus, r: map<int, string>)
      requires Valid()
      modifies this
      ensures Agrees(R.FetchError(old(Rest())), st, old(index))
      ensures st == Fine ==> ErrorArgs(old(Rest())[..2])
      ensures st == Fine ==> r == errors[Atoi(old(Rest())[0].digits) := old(Rest())[1].text]
    {
      RestIs();
      r := errors;
      var cur := Current();
      var ok := Accept(Num);
      if !ok {
        return Error(R.ExpectErrorCode, cur), r;
      }
      if |cur.text| != 3 {
        return Error(R.InvalidErrorCode, cur), r;
      }
      var code := cur;
      RestIs();
      cur := Current();
      ok := Accept(Str);
      if !ok {
        return Error(R.ExpectErrorPath, cur), r;
      }
      return Fine, errors[Atoi(code.text) := cur.text];
    }

    method FetchTimeout() returns (st: ParseStatus, timeOut: nat)
      requires Valid()
      modifies this
      ensures Agrees(R.FetchTimeout(old(Rest())), st, old(index))
      ensures st == Fine ==> TimeoutArg(old(Rest())[..1]) && timeOut == Atoi(old(Rest())[0].digits)
    {
      RestIs();
      var cur := Current();
      timeOut := 0;
      var ok := Accept(Num);
      if !ok {
        return Error(R.InvalidTimeout, cur), timeOut;
      }
      timeOut := Atoi(cur.text) % 0x1_0000_0000_0000_0000;  // int to size_t
      if timeOut > MAX_TIMEOUT {
        return Error(R.TimeoutTooLong, cur), timeOut;
      }
      return Fine, timeOut;
    }

    method FetchListen(serv: ServerEntry) returns (st: ParseStatus, r: ServerEntry)
      requires Valid()
      modifies this
      ensures Agrees(R.FetchListen(old(Rest())), st, old(index))
      ensures st == Fine ==> ListenArg(old(Rest())[..1]) && r == ApplyServer(serv, Listen, old(Rest())[..1])
    {
      hide Lexed, GoodToken, Words, IsHost, IsPort, AllDigits;
      RestIs();
      r := serv;
      var cur := Current();
      var ok := Accept(Str);
      if !ok {
        return Error(R.ExpectListen, cur), r;
      }
      var col := B.CharAt(cur.text, ':');
      if col == |cur.text| {
        return Error(R.InvalidListen, cur), r;
      }
      var host, port := cur.text[..col], cur.text[col + 1..];
      ok := ValidHost(host);
      if !ok {
        return Error(R.InvalidListen, cur), r;
      }
      var check := ValidatePort(port);
      if check != PortOk {
        return Error(if check == PortNotNumber then R.InvalidPort else R.PortRange, cur), r;
      }
      if !r.listenSet {
        r := r.(listen := {}, listenSet := true);
      }
      r := r.(listen := r.listen + {Sockets.Address(host, port)});
      return Fine, r;
    }

    /** A second name is ignored. */
    method FetchServerName(serv: ServerEntry) returns (st: ParseStatus, r: ServerEntry)
      requires Valid()
      modifies this
      ensures Agrees(R.FetchName(old(Rest()), R.InvalidName), st, old(index))
      ensures st == Fine ==> OneName(old(Rest())[..1]) && r == ApplyServer(serv, ServerName, old(Rest())[..1])
    {
      var name;
      st, name := FetchName(R.InvalidName);
      r := if serv.name == "" then serv.(name := name) else serv;
    }

    method FetchAutoIndex() returns (st: ParseStatus, value: bool)
      requires Valid()
      modifies this
      ensures Agrees(R.FetchFlag(old(Rest())), st, old(index))
      ensures st == Fine ==> FlagArg(old(Rest())[..1]) && value == IsOn(old(Rest())[0].text)
    {
      RestIs();
      var cur := Current();
      value := false;
      var ok := Accept(Str);
      if !ok {
        return Error(R.InvalidFlag, cur), value;
      }
      if cur.text == "on" || cur.text == "true" {
        return Fine, true;
      } else if cur.text == "off" || cur.text == "false" {
        return Fine, false;
      }
      return Error(R.InvalidFlag, cur), value;
    }

    method FetchRedirect() returns (st: ParseStatus, redirect: Redirect)
      requires Valid()
      modifies this
      ensures Agrees(R.FetchRedirect(old(Rest())), st, old(index))
      ensures st == Fine ==> RedirectArgs(old(Rest())[..2])
      ensures st == Fine ==> redirect == Redirect(Atoi(old(Rest())[0].digits), old(Rest())[1].text)
    {
      RestIs();
      redirect := NoRedirect;
      var cur := Current();
      var ok := Accept(Num);
      if !ok {
        return Error(R.ExpectRedirectCode, cur), redirect;
      }
      if |cur.text| != 3 || cur.text[0] != '3' {
        return Error(R.InvalidRedirectCode, cur), redirect;
      }
      var code := cur;
      RestIs();
      cur := Current();
      ok := Accept(Str);
      if !ok {
        return Error(R.ExpectTarget, cur), redirect;
      }
      return Fine, Redirect(Atoi(code.text), cur.text);
    }

    /** The methods up to the first token that is not a word. */
    method ReadMethods(loc: Location) returns (st: ParseStatus, r: Location)
      requires Valid()
      modifies this
      ensures Valid() && old(index) <= index
      ensures var n := index - old(index);
              && R.MethodsLen(old(Rest())) == n && R.First(old(Rest())[n..]) == WordOf(tokens[index])
              && MethodsRead(loc, old(Rest()), n, r)
      ensures if WordOf(tokens[index]).Name? then st == Error(R.UnknownMethod, tokens[index]) else st == Fine
    {
      hide Lexed, MethodsRead, IsMethod, IsMethodName, R.MethodsLen, Words, WordOf, GoodToken, KindOf;
      ghost var ws, from := Rest(), index;
      r := loc;
      if !r.methodSet {
        r := r.(methods := {});
      }
      r := r.(methodSet := true);
      MethodsNone(loc, ws);
      while tokens[index].kind == Str
        invariant from <= index && Valid() && ws == Words(tokens[from..])
        invariant R.MethodsLen(ws) == index - from + R.MethodsLen(Words(tokens[index..]))
        invariant MethodsRead(loc, ws, index - from, r)
        decreases |tokens| - index
      {
        var cur := Current();
        RestIs();
        MethodIs(cur);
        if !IsMethodName(cur.text) {
          MethodsStop(ws, tokens, from, index);
          return Error(R.UnknownMethod, cur), r;
        }
        MethodsNext(loc, tokens, from, index, r);
        r := r.(methods := r.methods + {cur.text});
        index := index + 1;
      }
      RestIs();
      MethodIs(Current());
      MethodsStop(ws, tokens, from, index);
      st := Fine;
    }

    method FetchMethods(loc: Location) returns (st: ParseStatus, r: Location)
      requires Valid()
      modifies this
      ensures Agrees(R.FetchMethods(loc, old(Rest())), st, old(index))
      ensures st == Fine ==>
                var args := old(Rest())[..R.MethodsLen(old(Rest()))];
                LocationAccepts(loc, Methods, args) && r == ApplyLocation(loc, Methods, args)
    {
      hide Lexed, MethodsRead, IsMethod, R.MethodsLen, Words, WordOf, GoodToken, KindOf, LocationAccepts, ApplyLocation;
      ghost var ws, from := Rest(), index;
      st, r := ReadMethods(loc);
      if st == Fine {
        MethodsDone(loc, ws, index - from, r);
        if r.methods == {} {
          st := Error(R.NoMethods, Current());
        }
      }
    }

    // -------------------------------------------------------------- directives

    method ExpectSemi() returns (st: ParseStatus)
      requires Valid()
      modifies this
      ensures Rest0(old(index))[0] == Semicolon ==> st == Fine && index == old(index) + 1 && Valid()
      ensures Rest0(old(index))[0] != Semicolon ==> st == Error(R.ExpectSemicolon, tokens[old(index)])
    {
      RestIs();
      var cur := Current();
      var ok := Accept(Semi);
      st := if ok then Fine else Error(R.ExpectSemicolon, cur);
    }

    /** The arguments of a location directive, and what they do to the location. */
    method FetchLocation(loc: Location, kind: LocationKind) returns (st: ParseStatus, r: Location)
      requires Valid() && 0 < index
      modifies this
      ensures Agrees(R.FetchLocation(loc, kind, old(Rest())), st, old(index))
      ensures st == Fine ==>
                var args := old(Rest())[..index - old(index)];
                LocationAccepts(loc, kind, args) && r == ApplyLocation(loc, kind, args)
    {
      hide Lexed, GoodToken, Words, SizeOf, Texts, IsPath;
      r := loc;
      match kind
      case Root =>
        var path;
        st, path := FetchPath();
        r := loc.(root := path);
      case Index =>
        var list;
        st, list := FetchPathList(loc.index);
        r := loc.(index := list);
      case ErrorPage =>
        var pages;
        st, pages := FetchErrorPages(loc.errorPages);
        r := loc.(errorPages := pages);
      case BodySize =>
        var size;
        st, size := FetchSize();
        r := loc.(maxBody := Limit(size));
      case UploadStore =>
        var path;
        st, path := FetchPath();
        r := loc.(uploadStore := path);
      case Methods =>
        st, r := FetchMethods(loc);
      case AutoIndex =>
        var flag;
        st, flag := FetchAutoIndex();
        r := loc.(autoIndex := flag, autoIndexSet := true);
      case Redirects =>
        var redirect;
        st, redirect := FetchRedirect();
        r := loc.(redirect := redirect);
      case Cgi =>
        var ext;
        st, ext := FetchName(R.ExpectExtension);
        r := loc.(isCgi := true, cgi := loc.cgi + [ext]);
      case UnknownDirective =>
        st := Error(R.UnknownLocation, tokens[index - 1]);
    }

    /** What a location's directives came to. */
    ghost predicate AgreesLocation(x: R.LocationRead, st: ParseStatus, r: Location)
      reads this
    {
      match x
      case GotLocation(loc, rest) => st == Fine && Valid() && r == loc && Rest() == rest
      case LocationBad(reason, left) => 0 < left <= |tokens| && st == Error(reason, tokens[|tokens| - left])
      case LocationPastEnd => st == OutOfBounds
    }

    method ParseLocationDir(loc: Location) returns (st: ParseStatus, r: Location)
      requires Valid() && Current().kind == Str
      modifies this
      ensures AgreesLocation(R.ReadLocationDirective(loc, old(Rest())), st, r)
    {
      hide Lexed, GoodToken, Words, LocationKindOf, LocationAccepts, ApplyLocation, R.FetchLocation, R.ReadLocationDirective;
      RestIs();
      DirectiveIs(loc, Rest());
      var kind := LocationKindOf(Current().text);
      index := index + 1;
      ghost var ws, from := Rest(), index;
      st, r := FetchLocation(loc, kind);
      if st != Fine {
        return;
      }
      RestFrom(tokens, from, index);
      ghost var n := index - from;
      st := ExpectSemi();
    }

    /** A location block; the next token is the word `location`. */
    method ParseLocationBlock() returns (st: ParseStatus, loc: Location)
      requires Valid() && Current().kind == Str
      modifies this
      ensures AgreesLocation(R.ReadLocation(old(Rest())), st, loc)
    {
      hide Lexed, GoodToken, Words, IsPath, R.ReadDirectives, NewLocation;
      ghost var ws, from := Rest(), index;
      loc := NewLocation("");
      RestIs();
      index := index + 1;
      RestIs();
      var tPath := Current();
      if !(tPath.kind == Str && IsPath(tPath.text)) {
        return Error(R.PathPrefix, tPath), loc;
      }
      loc := NewLocation(tPath.text);
      index := index + 1;
      RestIs();
      var cur := Current();
      var ok := Accept(LBrace);
      if !ok {
        return Error(R.ExpectBrace, cur), loc;
      }
      RestFrom(tokens, from, index);
      st, loc := ParseDirectives(loc);
    }

    /** The directives of a location block, up to its brace. */
    method ParseDirectives(start: Location) returns (st: ParseStatus, loc: Location)
      requires Valid()
      modifies this
      ensures AgreesLocation(R.ReadDirectives(start, old(Rest())), st, loc)
    {
      hide Lexed, GoodToken, Words, R.ReadLocationDirective;
      loc := start;
      ghost var goal := R.ReadDirectives(start, Rest());
      RestIs();
      while tokens[index].kind != RBrace
        invariant Valid() && goal == R.ReadDirectives(loc, Rest())
        decreases |tokens| - index
      {
        RestIs();
        if Current().kind != Str {
          return Error(R.ExpectLocationDirective, Current()), loc;
        }
        st, loc := ParseLocationDir(loc);
        if st != Fine {
          return;
        }
      }
      RestIs();
      index := index + 1;
      return Fine, loc;
    }

    method FetchServer(serv: ServerEntry, kind: ServerKind) returns (st: ParseStatus, r: ServerEntry)
      requires Valid() && 0 < index
      modifies this
      ensures Agrees(R.FetchServer(kind, old(Rest())), st, old(index))
      ensures st == Fine ==>
                var args := old(Rest())[..index - old(index)];
                ServerAccepts(kind, args) && r == ApplyServer(serv, kind, args)
    {
      hide Lexed, GoodToken, Words, SizeOf, Texts, IsPath;
      r := serv;
      match kind
      case Listen =>
        st, r := FetchListen(serv);
      case ServerName =>
        st, r := FetchServerName(serv);
      case ServerRoot =>
        var path;
        st, path := FetchPath();
        r := serv.(root := path);
      case ServerIndex =>
        var list;
        st, list := FetchPathList(serv.index);
        r := serv.(index := list);
      case ServerBodySize =>
        var size;
        st, size := FetchSize();
        r := serv.(maxBody := size);
      case ServerErrorPage =>
        var pages;
        st, pages := FetchErrorPages(serv.errorPages);
        r := serv.(errorPages := pages);
      case HeaderTimeout =>
        var timeOut;
        st, timeOut := FetchTimeout();
        r := serv.(headerTimeout := timeOut);
      case CgiTimeout =>
        var timeOut;
        st, timeOut := FetchTimeout();
        r := serv.(cgiTimeout := timeOut);
      case UnknownServerDirective =>
        st := Error(R.UnknownServer, tokens[index - 1]);
    }

    ghost predicate AgreesServer(x: R.ServerRead, st: ParseStatus, r: ServerEntry)
      reads this
    {
      match x
      case GotServer(serv, rest) => st == Fine && Valid() && r == serv && Rest() == rest
      case ServerBad(reason, left) => 0 < left <= |tokens| && st == Error(reason, tokens[|tokens| - left])
      case ServerPastEnd => st == OutOfBounds
    }

    /** A directive of a server block that is not a location. */
    method ParseServerDir(serv: ServerEntry) returns (st: ParseStatus, r: ServerEntry)
      requires Valid() && Current().kind == Str && Current().text != "location"
      modifies this
      ensures AgreesServer(R.ReadItem(serv, old(Rest())), st, r)
    {
      hide Lexed, GoodToken, Words, ServerKindOf, ServerAccepts, ApplyServer, R.FetchServer;
      RestIs();
      var kind := ServerKindOf(Current().text);
      index := index + 1;
      ghost var ws, from := Rest(), index;
      st, r := FetchServer(serv, kind);
      if st != Fine {
        return;
      }
      RestFrom(tokens, from, index);
      st := ExpectSemi();
    }

    /** A location of a server block, unless there is one like it. */
    method AddLocation(serv: ServerEntry) returns (st: ParseStatus, r: ServerEntry)
      requires Valid() && Current().kind == Str && Current().text == "location"
      modifies this
      ensures AgreesServer(R.ReadItem(serv, old(Rest())), st, r)
    {
      hide Lexed, GoodToken, Words, NormPath, R.ReadLocation;
      RestIs();
      var cur := Current();
      r := serv;
      var loc;
      st, loc := ParseLocationBlock();
      if st != Fine {
        return;
      }
      for i := 0 to |serv.locations|
        invariant forall k :: 0 <= k < i ==> NormPath(serv.locations[k].path) != NormPath(loc.path)
      {
        if NormPath(serv.locations[i].path) == NormPath(loc.path) {
          return Error(R.DuplicateLocation, cur), r;
        }
      }
      return Fine, serv.(locations := serv.locations + [loc]);
    }

    method ParseServerBlock() returns (st: ParseStatus, serv: ServerEntry)
      requires Valid()
      modifies this
      ensures AgreesServer(R.ReadServer(old(Rest())), st, serv)
    {
      hide Lexed, GoodToken, Words, R.ReadItems, NewServer;
      ghost var ws, from := Rest(), index;
      serv := NewServer();
      RestIs();
      var cur := Current();
      if !(cur.kind == Str && cur.text == "server") {
        return Error(R.ExpectServer, cur), serv;
      }
      index := index + 1;
      RestIs();
      cur := Current();
      var ok := Accept(LBrace);
      if !ok {
        return Error(R.ServerHasNoBrace, cur), serv;
      }
      RestFrom(tokens, from, index);
      st, serv := ParseItems(serv);
    }

    /** The items of a server block, up to its brace. */
    method ParseItems(start: ServerEntry) returns (st: ParseStatus, serv: ServerEntry)
      requires Valid()
      modifies this
      ensures AgreesServer(R.ReadItems(start, old(Rest())), st, serv)
    {
      hide Lexed, GoodToken, Words, R.ReadItem;
      serv := start;
      ghost var goal := R.ReadItems(start, Rest());
      while tokens[index].kind != RBrace
        invariant Valid() && goal == R.ReadItems(serv, Rest())
        decreases |tokens| - index
      {
        RestIs();
        var cur := Current();
        if cur.kind == Str && cur.text == "location" {
          st, serv := AddLocation(serv);
        } else if cur.kind == Str {
          st, serv := ParseServerDir(serv);
        } else {
          return Error(R.UnknownItem, cur), serv;
        }
        if st != Fine {
          return;
        }
      }
      RestIs();
      index := index + 1;
      return Fine, serv;
    }

    method MapLocationsRoot(serv: ServerEntry) returns (r: ServerEntry)
      ensures r == MapRoots(serv)
    {
      r := serv;
      for i := 0 to |serv.locations|
        invariant r == serv.(locations := r.locations) && |r.locations| == |serv.locations|
        invariant forall k :: 0 <= k < i ==> r.locations[k] == MapRoot(serv.locations[k], serv.root)
        invariant forall k :: i <= k < |serv.locations| ==> r.locations[k] == serv.locations[k]
      {
        if r.locations[i].root == "" {
          r := r.(locations := r.locations[i := r.locations[i].(root := serv.root)]);
        }
      }
      assert r.locations == MapRoots(serv).locations;
    }

    /** The whole configuration: the servers, or the first error, or a read past the tokens. */
    method ParseTokens() returns (st: ParseStatus, servers: seq<ServerEntry>)
      requires Valid() && index == 0
      modifies this
      ensures match R.ReadFile(Words(tokens))
              case GotFile(all) => st == Fine && servers == all
              case FileBad(reason, left) => 0 < left <= |tokens| && st == Error(reason, tokens[|tokens| - left])
              case FilePastEnd => st == OutOfBounds
    {
      hide Lexed, GoodToken, Words, R.ReadServer, MapRoots;
      servers := [];
      assert tokens[0..] == tokens;
      ghost var goal := R.ReadFile(Rest());
      while tokens[index].kind != EndOfFile
        invariant Valid() && goal == Onto(servers, R.ReadFile(Rest()))
        decreases |tokens| - index
      {
        RestIs();
        ghost var rest := Rest();
        var serv;
        st, serv := ParseServerBlock();
        if st != Fine {
          return;
        }
        serv := MapLocationsRoot(serv);
        servers := servers + [serv];
      }
      RestIs();
      return Fine, servers;
    }
  }

  /** The servers so far, and what the rest gives. */
  function Onto(servers: seq<ServerEntry>, x: R.FileRead): R.FileRead {
    if x.GotFile? then R.GotFile(servers + x.servers) else x
  }

  // ---------------------------------------------------------------- slices of the tokens

  /** A directive is its arguments and a semicolon. */
  lemma DirectiveIs(loc: Location, ws: seq<Word>)
    requires |ws| > 0 && ws[0].Name?
    ensures var kind, args := LocationKindOf(ws[0].text), ws[1..];
            R.ReadLocationDirective(loc, ws) ==
            match R.FetchLocation(loc, kind, args)
            case Taken(n) =>
              if n < |args| && args[n] == Semicolon then R.GotLocation(ApplyLocation(loc, kind, args[..n]), args[n + 1..])
              else R.LocationBad(R.ExpectSemicolon, |args| - n)
            case Bad(reason, left) => R.LocationBad(reason, left)
            case PastEnd => R.LocationPastEnd
  {
    hide LocationKindOf, LocationAccepts, ApplyLocation, R.FetchLocation;
  }

  lemma RestFrom(tokens: seq<Token>, from: nat, i: nat)
    requires from <= i <= |tokens|
    ensures Words(tokens[from..])[i - from..] == Words(tokens[i..])
  {
  }

  lemma TextsNone(list: seq<string>, ws: seq<Word>)
    ensures list + Texts(ws[..0]) == list
  {
  }

  lemma TextsNext(tokens: seq<Token>, from: nat, i: nat)
    requires Lexed(tokens) && from <= i < |tokens|
    ensures var ws := Words(tokens[from..]); Texts(ws[..i - from]) + [tokens[i].text] == Texts(ws[..i + 1 - from])
  {
    TextIs(tokens[i]);
  }

  lemma SemicolonStep(tokens: seq<Token>, i: nat)
    requires i < |tokens|
    ensures R.SemicolonAt(Words(tokens[i..]))
         == if tokens[i].kind == Semi then 0 else 1 + R.SemicolonAt(Words(tokens[i + 1..]))
    ensures R.SemicolonAt(Words(tokens[|tokens|..])) == 0
  {
    assert Words(tokens[i..])[1..] == Words(tokens[i + 1..]);
  }

  lemma TextIs(t: Token)
    requires GoodToken(t)
    ensures Text(WordOf(t)) == t.text
  {
  }

  lemma MethodIs(t: Token)
    requires GoodToken(t)
    ensures IsMethod(WordOf(t)) ==> t.kind == Str
    ensures t.kind == Str ==> (IsMethod(WordOf(t)) <==> IsMethodName(t.text))
  {
  }

  /** After the first `n` tokens, all of them methods. */
  predicate MethodsRead(loc: Location, ws: seq<Word>, n: nat, r: Location) {
    n <= |ws| && MethodArgs(ws[..n]) && r == loc.(methodSet := true, methods := SetMethods(loc) + TextSet(ws[..n]))
  }

  lemma MethodsNone(loc: Location, ws: seq<Word>)
    ensures MethodsRead(loc, ws, 0, loc.(methodSet := true, methods := SetMethods(loc)))
  {
  }

  lemma TextSetNext(args: seq<Word>, w: Word)
    ensures TextSet(args + [w]) == TextSet(args) + {Text(w)}
  {
    var t, u := Texts(args), Texts(args + [w]);
    assert u == t + [Text(w)];
  }

  lemma WordsNext(tokens: seq<Token>, from: nat, i: nat)
    requires from <= i < |tokens|
    ensures Words(tokens[from..])[..i + 1 - from] == Words(tokens[from..])[..i - from] + [WordOf(tokens[i])]
    ensures |tokens[i..]| > 0 && Words(tokens[i..])[0] == WordOf(tokens[i])
    ensures Words(tokens[i..])[1..] == Words(tokens[i + 1..])
  {
  }

  /** One more method. */
  lemma MethodsNext(loc: Location, tokens: seq<Token>, from: nat, i: nat, r: Location)
    requires from <= i < |tokens| && IsMethod(WordOf(tokens[i])) && tokens[i].kind == Str
    requires MethodsRead(loc, Words(tokens[from..]), i - from, r)
    ensures MethodsRead(loc, Words(tokens[from..]), i + 1 - from, r.(methods := r.methods + {tokens[i].text}))
    ensures R.MethodsLen(Words(tokens[i..])) == 1 + R.MethodsLen(Words(tokens[i + 1..]))
  {
    WordsNext(tokens, from, i);
    TextSetNext(Words(tokens[from..])[..i - from], WordOf(tokens[i]));
    hide TextSet, IsMethod, Words;
  }

  lemma MethodsStop(ws: seq<Word>, tokens: seq<Token>, from: nat, i: nat)
    requires from <= i < |tokens| && ws == Words(tokens[from..]) && !IsMethod(WordOf(tokens[i]))
    requires R.MethodsLen(ws) == i - from + R.MethodsLen(Words(tokens[i..]))
    ensures R.MethodsLen(ws) == i - from && R.First(ws[i - from..]) == WordOf(tokens[i])
  {
  }

  /** None are left exactly when there were none, before or now. */
  lemma MethodsDone(loc: Location, ws: seq<Word>, n: nat, r: Location)
    requires MethodsRead(loc, ws, n, r)
    ensures r.methods == {} <==> n == 0 && !HasMethods(loc)
    ensures MethodArgs(ws[..n])
    ensures r.methods != {} ==> LocationAccepts(loc, Methods, ws[..n]) && r == ApplyLocation(loc, Methods, ws[..n])
  {
    if n > 0 {
      assert Text(ws[..n][0]) in TextSet(ws[..n]);
    }
  }
}
