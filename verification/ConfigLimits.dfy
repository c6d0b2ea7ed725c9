/** Where the lines are drawn: the last value a directive takes and the first it refuses, and the words it knows. */
module ConfigLimits {
  import opened Lexing
  import opened ConfigValues
  import opened ConfigGrammar
  import opened ConfigReader
  import opened ConfigPrint
  import B = Bytes

  /** A day is the longest time-out, and ports lie between 1024 and 65535. */
  lemma NumberLimits(n: nat)
    requires n < 0x8000_0000
    ensures TimeoutArg([Number(Decimal(n))]) <==> n <= 86400
    ensures IsPort(Decimal(n)) <==> 1024 <= n && n <= 65535
  {
    ValueOfDecimal(n);
    AcceptedPorts(Decimal(n));
    AcceptedTimeouts(Number(Decimal(n)));
    Remainder(n, 0, n);
    hide IsPort, TimeoutArg, Decimal, Value;
  }

  /** An octet has at most three digits and is at most 255. */
  lemma OctetLimits(s: string)
    ensures IsOctet(s) <==> AllDigits(s) && 1 <= |s| && |s| <= 3 && Value(s) < 256
  {
  }

  lemma CodeTexts(code: Digits, page: Word)
    requires page.Name?
    ensures ErrorArgs([Number(code), page]) <==> |code| == 3
    ensures RedirectArgs([Number(code), page]) <==> |code| == 3 && code[0] == '3'
  {
  }

  /** The words of flags and methods, and no others. */
  lemma KnownWords(s: string)
    ensures FlagArg([Name(s)]) <==> s == "on" || s == "true" || s == "off" || s == "false"
    ensures MethodArgs([Name(s)]) <==> s == "GET" || s == "POST" || s == "DELETE"
    ensures PathArg([Name(s)]) <==> |s| > 0 && s[0] == '/'
  {
    assert [Name(s)][0] == Name(s);
  }

  /** The directives, each with its name; a block knows no others. */
  lemma KnownDirectives(name: string)
    ensures LocationKindOf(name) != UnknownDirective <==>
              name == "root" || name == "index" || name == "error_page" || name == "client_max_body_size"
              || name == "upload_store" || name == "allowed_methods" || name == "autoindex" || name == "redirect" || name == "cgi"
    ensures ServerKindOf(name) != UnknownServerDirective <==>
              name == "listen" || name == "server_name" || name == "root" || name == "index" || name == "error_page"
              || name == "client_max_body_size" || name == "header_timeout" || name == "cgi_timeout"
  {
  }

  /** A list of methods may be empty only behind one that was not. */
  lemma EmptyMethods(loc: Location)
    ensures LocationAccepts(loc, Methods, []) <==> loc.methodSet && loc.methods != {}
    ensures !LocationAccepts(NewLocation(loc.path), Methods, [])
  {
  }

  // ---------------------------------------------------------------- what is complained about, and at which token

  /** `left` tokens are left when an argument is refused, and the first of them is the one that is complained about. */
  lemma BadArguments(ws: seq<Word>, name: string, digits: Digits)
    ensures FetchName([Semicolon] + ws, InvalidName) == Bad(InvalidName, 1 + |ws|)
    ensures FetchPath([Semicolon] + ws) == Bad(ExpectPath, 1 + |ws|)
    ensures !IsPath(name) ==> FetchPath([Name(name)] + ws) == Bad(PathStart, 1 + |ws|)
    ensures FetchSize([Number(digits)] + ws) == Bad(InvalidSize, 1 + |ws|)
    ensures FetchTimeout([Name(name)] + ws) == Bad(InvalidTimeout, 1 + |ws|)
    ensures Atoi(digits) > MAX_TIMEOUT ==> FetchTimeout([Number(digits)] + ws) == Bad(TimeoutTooLong, 1 + |ws|)
    ensures FetchListen([Number(digits)] + ws) == Bad(ExpectListen, 1 + |ws|)
    ensures ':' !in name ==> FetchListen([Name(name)] + ws) == Bad(InvalidListen, 1 + |ws|)
    ensures FetchFlag([Number(digits)] + ws) == Bad(InvalidFlag, 1 + |ws|)
  {
    assert forall w: Word :: First([w] + ws) == w;
    hide IsHost, Atoi, SizeOf;
  }

  /** An address is complained about by its port when its host is one. */
  lemma BadAddresses(host: string, port: string, ws: seq<Word>)
    requires IsHost(host)
    ensures var w := Name(host + ([':'] + port));
            && (!AllDigits(port) ==> FetchListen([w] + ws) == Bad(InvalidPort, 1 + |ws|))
            && (AllDigits(port) && !IsPort(port) ==> FetchListen([w] + ws) == Bad(PortRange, 1 + |ws|))
  {
    HostHasNoColon(host);
    B.CharAtIs(host, ':', port);
    B.AroundChar(host, ':', port);
    hide IsHost, IsPort, B.CharAt, AllDigits;
    assert First([Name(host + ([':'] + port))] + ws) == Name(host + ([':'] + port));
  }

  /** Methods end at the first word that is none, and a word that is no method is complained about. */
  lemma BadMethods(loc: Location, methods: seq<Word>, name: string, ws: seq<Word>)
    requires MethodArgs(methods)
    ensures !IsMethodName(name) ==> FetchMethods(loc, methods + ([Name(name)] + ws)) == Bad(UnknownMethod, 1 + |ws|)
    ensures !HasMethods(loc) ==> FetchMethods(loc, [Semicolon] + ws) == Bad(NoMethods, 1 + |ws|)
  {
    if !IsMethodName(name) {
      MethodsEnd(methods, Name(name), ws);
      assert (methods + ([Name(name)] + ws))[|methods|..] == [Name(name)] + ws;
    }
    MethodsEnd([], Semicolon, ws);
    assert [] + ([Semicolon] + ws) == [Semicolon] + ws && ([Semicolon] + ws)[0..] == [Semicolon] + ws;
    hide MethodsLen;
  }

  lemma {:induction false} MethodsEnd(methods: seq<Word>, w: Word, ws: seq<Word>)
    requires MethodArgs(methods) && !IsMethod(w)
    ensures MethodsLen(methods + ([w] + ws)) == |methods|
    decreases |methods|
  {
    var all := methods + ([w] + ws);
    if |methods| > 0 {
      assert all[1..] == methods[1..] + ([w] + ws);
      MethodsEnd(methods[1..], w, ws);
    }
  }

  /** A location like an earlier one is complained about at its first word. */
  lemma BadLocation(serv: ServerEntry, ws: seq<Word>)
    requires |ws| > 0 && ws[0] == Name("location") && ReadLocation(ws).GotLocation?
    requires IsDuplicate(serv, ReadLocation(ws).loc)
    ensures ReadItem(serv, ws) == ServerBad(DuplicateLocation, |ws|)
  {
    hide ReadLocation, IsDuplicate;
  }

  /** Of two arguments the second is complained about where it stands. */
  lemma BadSecondArguments(ws: seq<Word>, name: string, code: Digits)
    ensures FetchError([Name(name)] + ws) == Bad(ExpectErrorCode, 1 + |ws|)
    ensures |code| != 3 ==> FetchError([Number(code)] + ws) == Bad(InvalidErrorCode, 1 + |ws|)
    ensures |code| == 3 ==> FetchError([Number(code), Semicolon] + ws) == Bad(ExpectErrorPath, 1 + |ws|)
    ensures FetchRedirect([Name(name)] + ws) == Bad(ExpectRedirectCode, 1 + |ws|)
    ensures |code| != 3 || code[0] != '3' ==> FetchRedirect([Number(code)] + ws) == Bad(InvalidRedirectCode, 1 + |ws|)
    ensures |code| == 3 && code[0] == '3' ==> FetchRedirect([Number(code), Semicolon] + ws) == Bad(ExpectTarget, 1 + |ws|)
  {
    assert ([Number(code), Semicolon] + ws)[1..] == [Semicolon] + ws;
    assert forall w: Word :: First([w] + ws) == w;
  }

  /** Without its semicolon a directive is complained about behind its arguments. */
  lemma NoSemicolonBehind(args: seq<Word>, w: Word, ws: seq<Word>)
    requires w != Semicolon
    ensures EndDirective(args + ([w] + ws), Taken(|args|)) == Bad(ExpectSemicolon, 1 + |ws|)
  {
    assert (args + ([w] + ws))[|args|] == w;
  }

  /** Blocks are complained about where their word, path or brace is missing. */
  lemma BadBlocks(serv: ServerEntry, loc: Location, w: Word, path: string, ws: seq<Word>)
    ensures w != Name("server") && w != End ==> ReadFile([w] + ws) == FileBad(ExpectServer, 1 + |ws|)
    ensures w != Open ==> ReadFile([Name("server"), w] + ws) == FileBad(ServerHasNoBrace, 1 + |ws|)
    ensures !w.Name? && w != Close ==> ReadItems(serv, [w] + ws) == ServerBad(UnknownItem, 1 + |ws|)
    ensures !w.Name? && w != Close ==> ReadDirectives(loc, [w] + ws) == LocationBad(ExpectLocationDirective, 1 + |ws|)
    ensures !w.Name? ==> ReadLocation([Name("location"), w] + ws) == LocationBad(PathPrefix, 1 + |ws|)
    ensures IsPath(path) && w != Open ==>
              ReadLocation([Name("location"), Name(path), w] + ws) == LocationBad(ExpectBrace, 1 + |ws|)
  {
    assert ([Name("server"), w] + ws)[1..] == [w] + ws;
    assert ([Name("location"), w] + ws)[1..] == [w] + ws;
    assert ([Name("location"), Name(path), w] + ws)[1..] == [Name(path), w] + ws;
    assert ([Name("location"), Name(path), w] + ws)[2..] == [w] + ws;
    assert forall v: Word :: First([v] + ws) == v;
  }

  /** An unknown directive is complained about at its name. */
  lemma BadNames(serv: ServerEntry, loc: Location, name: string, ws: seq<Word>)
    ensures LocationKindOf(name) == UnknownDirective ==>
              ReadLocationDirective(loc, [Name(name)] + ws) == LocationBad(UnknownLocation, 1 + |ws|)
    ensures ServerKindOf(name) == UnknownServerDirective && name != "location" ==>
              ReadItem(serv, [Name(name)] + ws) == ServerBad(UnknownServer, 1 + |ws|)
  {
    assert ([Name(name)] + ws)[1..] == ws;
    hide LocationKindOf, ServerKindOf;
  }
}
