/** From the text of a configuration file to the servers (`getConfig` in webserv/sources/parser/ParserUtils.cpp). */
module GetConfigs {
  import opened Lexing
  import Bytes
  import opened ConfigGrammar
  import opened ConfigReader
  import opened ConfigRoundTrip
  import opened ConfigTokens
  import P = ConfigPrintFile
  import A = ConfigAccepted
  import T = ConfigText
  import opened ConfigReprint
  import L = ConfigLexer

  /** The tokens of a text, without their places. */
  function Read(text: string): FileRead {
    ReadFile(Words(Lex(text, 0)))
  }

  method GetConfig(text: string) returns (st: ParseStatus, servers: seq<ServerEntry>)
    ensures st == Fine <==> Read(text).GotFile?
    ensures st == Fine ==> Read(text) == GotFile(servers)
    ensures st == OutOfBounds <==> Read(text).FilePastEnd?
    ensures forall k :: st == Fine && 0 <= k < |servers| ==> LocationsOk(servers[k]) && servers[k].listen != {}
  {
    var lex := new L.Lexer(text);
    var tokens := lex.Tokenize();
    LexerIsLexed(text);
    hide ReadFile, Words, Lexed, LocationsOk;
    var conf := new ConfigParser(tokens);
    st, servers := conf.ParseTokens();
    if st == Fine {
      forall k | 0 <= k < |servers| ensures LocationsOk(servers[k]) && servers[k].listen != {} {
        AcceptedLocations(Words(tokens), k);
        AcceptedListens(Words(tokens), k);
      }
    }
  }

  /** Every server of an accepted configuration listens on some address. */
  lemma AcceptedListens(ws: seq<Word>, k: nat)
    requires ReadFile(ws).GotFile? && k < |ReadFile(ws).servers|
    ensures ReadFile(ws).servers[k].listen != {}
  {
    var file, more := FileWasWritten(ws);
    ItemsKeepListens(NewServer(), file[k]);
    assert Meaning(file)[k] == MapRoots(ApplyItems(NewServer(), file[k]));
  }

  lemma ItemKeepsListens(serv: ServerEntry, item: BlockItem)
    requires ItemOk(serv, item) && serv.listen != {}
    ensures ApplyItem(serv, item).listen != {}
  {
    hide ServerAccepts, ServerKindOf, DirectivesOk, ApplyDirectives, IsDuplicate;
  }

  lemma {:induction false} ItemsKeepListens(serv: ServerEntry, items: seq<BlockItem>)
    requires ItemsOk(serv, items) && serv.listen != {}
    ensures ApplyItems(serv, items).listen != {}
    decreases |items|
  {
    if |items| > 0 {
      hide ItemOk, ApplyItem;
      ItemKeepsListens(serv, items[0]);
      ItemsKeepListens(ApplyItem(serv, items[0]), items[1..]);
    }
  }

  /**
   * From a configuration to text and back: whatever whitespace and comments stand between the
   * tokens of a printed configuration, the text is accepted and gives the configuration.
   */
  lemma TextRoundTrip(servers: seq<ServerEntry>, how: seq<P.FileStyle>, items: seq<Item>, last: string)
    requires P.Fits(servers, how) && WellSpaced(items, last, false)
    requires Words(Expected(items, last, "")) == Write(P.Print(servers, how), [])
    ensures Read(Render(items, last)) == GotFile(servers)
  {
    hide ReadFile, Words, Write, P.Print, P.Fits, WellSpaced;
    Bytes.Alone(Render(items, last));
    LexRendered(Render(items, last), "", items, last, false);
    P.RoundTrip(servers, how, []);
  }

  /** A configuration has such texts exactly when its words are ones the lexer makes tokens of. */
  lemma TextsIff(servers: seq<ServerEntry>, how: seq<P.FileStyle>)
    requires P.Fits(servers, how)
    ensures (exists items, last ::
               WellSpaced(items, last, false) && Words(Expected(items, last, "")) == Write(P.Print(servers, how), []))
            <==> ConfigWords(servers)
  {
    T.TextIff(Write(P.Print(servers, how), []));
    PrintableIff(servers, how);
  }

  /** One of the texts: the printed tokens with blanks between them. */
  function PlainText(servers: seq<ServerEntry>, how: seq<P.FileStyle>): string
    requires P.Fits(servers, how)
  {
    Render(T.Spaced(Write(P.Print(servers, how), [])), "")
  }

  /** Every configuration made of words is read back from its text. */
  lemma PlainRoundTrip(servers: seq<ServerEntry>, how: seq<P.FileStyle>)
    requires P.Fits(servers, how) && ConfigWords(servers)
    ensures Read(PlainText(servers, how)) == GotFile(servers)
  {
    var ws := Write(P.Print(servers, how), []);
    PrintableIff(servers, how);
    T.SpacedLexes(ws, "", false);
    TextRoundTrip(servers, how, T.Spaced(ws), "");
  }

  /** Whatever text is accepted, its configuration can be printed to a text that gives the same configuration. */
  lemma Reprinted(text: string) returns (how: seq<P.FileStyle>)
    requires Read(text).GotFile?
    ensures P.Fits(Read(text).servers, how) && ConfigWords(Read(text).servers)
    ensures Read(PlainText(Read(text).servers, how)) == Read(text)
  {
    var ws := Words(Lex(text, 0));
    T.TokensOneEnd(text);
    how := A.AcceptedFits(ws);
    var file, more := FileWasWritten(ws);
    hide ReadFile, Write, Words, Lex, P.Fits, ConfigWords, PlainText, T.OneEnd, T.FilePrintable, FileOk;
    T.WrittenFile(file, more);
    MeaningHasWords(file);
    PlainRoundTrip(Read(text).servers, how);
  }
}
