/** Whole server blocks and files, written and read back. */
module ConfigPrintFile {
  import opened Lexing
  import opened ConfigValues
  import opened ConfigGrammar
  import opened ConfigReader
  import opened ConfigRoundTrip
  import opened ConfigPrint
  import Sockets = ListenSockets

  // ---------------------------------------------------------------- server blocks

  /** A server block some configuration file stands for; `sts` says how its locations are written. */
  ghost predicate ServerFits(serv: ServerEntry, st: Style, sts: seq<Style>) {
    && (if serv.listenSet then AddressesFit(serv.listen, st.addresses) else serv.listen == {DEFAULT_ADDRESS})
    && IsPath(serv.root) && Codes(serv.errorPages, st.codes) && Sized(serv.maxBody, st.unit)
    && serv.headerTimeout <= MAX_TIMEOUT && serv.cgiTimeout <= MAX_TIMEOUT
    && |sts| == |serv.locations|
    && (forall k :: 0 <= k < |sts| ==> LocationFits(serv.locations[k], sts[k]))
    && LocationsOk(serv)
  }

  ghost predicate AddressesFit(listen: set<Sockets.Address>, order: seq<Sockets.Address>) {
    && |order| > 0 && (forall a :: a in order <==> a in listen)
    && (forall k :: 0 <= k < |order| ==> IsHost(order[k].ip) && IsPort(order[k].port))
  }

  function ListenEntry(a: Sockets.Address): BlockItem {
    Plain(Directive("listen", [Name(a.ip + ":" + a.port)]))
  }

  function ListenEntries(order: seq<Sockets.Address>): seq<BlockItem> {
    if |order| == 0 then []
    else [ListenEntry(order[0])] + ListenEntries(order[1..])
  }

  function ErrorEntries(pages: map<int, string>, codes: seq<int>): seq<BlockItem>
    requires forall k :: 0 <= k < |codes| ==> codes[k] in pages && 0 <= codes[k] < 1000
  {
    if |codes| == 0 then []
    else [PageEntry(codes[0], pages[codes[0]])] + ErrorEntries(pages, codes[1..])
  }

  function LocationEntries(locs: seq<Location>, sts: seq<Style>): seq<BlockItem>
    requires |locs| == |sts| && forall k :: 0 <= k < |sts| ==> LocationFits(locs[k], sts[k])
  {
    if |locs| == 0 then []
    else [Block(locs[0].path, PrintLocation(locs[0], sts[0]))] + LocationEntries(locs[1..], sts[1..])
  }

  /** A server without a name has no directive for it. */
  function NameEntry(name: string): seq<BlockItem> {
    if name == "" then [] else [Plain(Directive("server_name", [Name(name)]))]
  }

  /** The directives with one value. */
  function Settings(serv: ServerEntry, unit: char): seq<BlockItem>
    requires Unit(unit) > 0
  {
    NameEntry(serv.name)
    + [Plain(Directive("root", [Name(serv.root)])),
       Plain(Directive("index", IndexWords(serv.index))),
       Plain(Directive("client_max_body_size", [Name(SizeText(serv.maxBody, unit))])),
       Plain(Directive("header_timeout", [Number(Decimal(serv.headerTimeout))])),
       Plain(Directive("cgi_timeout", [Number(Decimal(serv.cgiTimeout))]))]
  }

  function PrintServer(serv: ServerEntry, st: Style, sts: seq<Style>): seq<BlockItem>
    requires ServerFits(serv, st, sts)
  {
    ListenEntries(if serv.listenSet then st.addresses else [])
    + (Settings(serv, st.unit) + (ErrorEntries(serv.errorPages, st.codes) + LocationEntries(serv.locations, sts)))
  }

  /** `items` make `after` of `before`. */
  predicate Builds(before: ServerEntry, items: seq<BlockItem>, after: ServerEntry) {
    ItemsOk(before, items) && ApplyItems(before, items) == after
  }

  lemma {:induction false} BuildsThen(a: ServerEntry, items: seq<BlockItem>, b: ServerEntry, more: seq<BlockItem>, c: ServerEntry)
    requires Builds(a, items, b) && Builds(b, more, c)
    ensures Builds(a, items + more, c)
    decreases |items|
  {
    hide ItemOk, ApplyItem;
    if |items| == 0 {
      assert items + more == more;
    } else {
      assert (items + more)[1..] == items[1..] + more;
      BuildsThen(ApplyItem(a, items[0]), items[1..], b, more, c);
    }
  }

  lemma BuildsNothing(a: ServerEntry)
    ensures Builds(a, [], a)
  {
  }

  lemma BuildsOne(a: ServerEntry, item: BlockItem)
    requires ItemOk(a, item)
    ensures Builds(a, [item], ApplyItem(a, item))
  {
    hide ItemOk, ApplyItem;
    assert [item][1..] == [];
    BuildsNothing(ApplyItem(a, item));
  }

  function AddressesOf(order: seq<Sockets.Address>): (r: set<Sockets.Address>)
    ensures forall a :: a in r <==> a in order
  {
    set a | a in order
  }

  /** An address replaces the default one, or is added to those before. */
  lemma BuildsListen(serv: ServerEntry, a: Sockets.Address)
    requires IsHost(a.ip) && IsPort(a.port)
    ensures Builds(serv, [ListenEntry(a)],
                   serv.(listenSet := true, listen := (if serv.listenSet then serv.listen else {}) + {a}))
  {
    hide IsHost, IsPort, Builds, IsAddress, AddressOf;
    AddressText(a);
    BuildsOne(serv, ListenEntry(a));
  }

  lemma AddressesNext(before: set<Sockets.Address>, order: seq<Sockets.Address>)
    ensures |order| > 0 ==> before + {order[0]} + AddressesOf(order[1..]) == before + AddressesOf(order)
    ensures |order| == 0 ==> before + AddressesOf(order) == before
  {
    assert |order| > 0 ==> order == [order[0]] + order[1..];
  }

  lemma {:induction false} BuildsListens(serv: ServerEntry, order: seq<Sockets.Address>)
    requires forall k :: 0 <= k < |order| ==> IsHost(order[k].ip) && IsPort(order[k].port)
    requires serv.listenSet
    ensures Builds(serv, ListenEntries(order), serv.(listen := serv.listen + AddressesOf(order)))
    decreases |order|
  {
    hide IsHost, IsPort, Builds, ListenEntry, AddressesOf;
    AddressesNext(serv.listen, order);
    if |order| > 0 {
      var next := serv.(listen := serv.listen + {order[0]});
      BuildsListen(serv, order[0]);
      BuildsListens(next, order[1..]);
      BuildsThen(serv, [ListenEntry(order[0])], next, ListenEntries(order[1..]),
                 serv.(listen := serv.listen + AddressesOf(order)));
    } else {
      BuildsNothing(serv);
    }
  }

  /** The first address replaces the default one. */
  lemma BuildsAddresses(serv: ServerEntry, order: seq<Sockets.Address>, listen: set<Sockets.Address>)
    requires AddressesFit(listen, order) && !serv.listenSet
    ensures Builds(serv, ListenEntries(order), serv.(listenSet := true, listen := listen))
  {
    AddressesNext({}, order);
    assert {} + AddressesOf(order) == listen;
    hide IsHost, IsPort, Builds, ListenEntry, AddressesOf;
    var next := serv.(listenSet := true, listen := {} + {order[0]});
    BuildsListen(serv, order[0]);
    BuildsListens(next, order[1..]);
    BuildsThen(serv, [ListenEntry(order[0])], next, ListenEntries(order[1..]),
               serv.(listenSet := true, listen := listen));
  }

  function PageEntry(c: int, page: string): BlockItem
    requires 0 <= c < 1000
  {
    Plain(Directive("error_page", [Number(ThreeDigits(c)), Name(page)]))
  }

  lemma BuildsPage(serv: ServerEntry, c: int, page: string)
    requires 0 <= c < 1000
    ensures Builds(serv, [PageEntry(c, page)], serv.(errorPages := serv.errorPages[c := page]))
  {
    ThreeDigitsValue(c);
    hide ThreeDigits, Atoi, Builds;
    BuildsOne(serv, PageEntry(c, page));
  }

  lemma {:induction false} BuildsPages(serv: ServerEntry, pages: map<int, string>, codes: seq<int>)
    requires forall k :: 0 <= k < |codes| ==> codes[k] in pages && 0 <= codes[k] < 1000
    ensures Builds(serv, ErrorEntries(pages, codes), serv.(errorPages := AddPages(serv.errorPages, pages, codes)))
    decreases |codes|
  {
    if |codes| > 0 {
      var c := codes[0];
      var next := serv.(errorPages := serv.errorPages[c := pages[c]]);
      hide Builds, PageEntry;
      BuildsPage(serv, c, pages[c]);
      BuildsPages(next, pages, codes[1..]);
      BuildsThen(serv, [PageEntry(c, pages[c])], next, ErrorEntries(pages, codes[1..]),
                 serv.(errorPages := AddPages(serv.errorPages, pages, codes)));
    } else {
      BuildsNothing(serv);
    }
  }

  lemma BuildsName(serv: ServerEntry, name: string)
    requires serv.name == ""
    ensures Builds(serv, NameEntry(name), serv.(name := name))
  {
    if name == "" {
      BuildsNothing(serv);
    } else {
      BuildsOne(serv, Plain(Directive("server_name", [Name(name)])));
    }
  }

  lemma BuildsRoot(serv: ServerEntry, root: string, index: seq<string>)
    requires IsPath(root) && serv.index == []
    ensures Builds(serv, [Plain(Directive("root", [Name(root)])), Plain(Directive("index", IndexWords(index)))],
                   serv.(root := root, index := index))
  {
    var b, c := Plain(Directive("root", [Name(root)])), Plain(Directive("index", IndexWords(index)));
    TextsOfIndex(index);
    BuildsOne(serv, b);
    BuildsOne(serv.(root := root), c);
    hide Builds;
    BuildsThen(serv, [b], serv.(root := root), [c], serv.(root := root, index := index));
    assert [b] + [c] == [b, c];
  }

  lemma BuildsSizeText(serv: ServerEntry, text: string, n: nat)
    requires SizeOf(text) == Bytes(n)
    ensures Builds(serv, [Plain(Directive("client_max_body_size", [Name(text)]))], serv.(maxBody := n))
  {
    hide SizeOf, Builds;
    BuildsOne(serv, Plain(Directive("client_max_body_size", [Name(text)])));
  }

  lemma BuildsSize(serv: ServerEntry, n: nat, unit: char)
    requires Sized(n, unit)
    ensures Builds(serv, [Plain(Directive("client_max_body_size", [Name(SizeText(n, unit))]))], serv.(maxBody := n))
  {
    hide SizeOf, SizeText, Builds;
    SizeTextValue(n, unit);
    BuildsSizeText(serv, SizeText(n, unit), n);
  }

  lemma BuildsTimeout(serv: ServerEntry, digits: Digits, n: nat)
    requires Atoi(digits) == n <= MAX_TIMEOUT
    ensures Builds(serv, [Plain(Directive("header_timeout", [Number(digits)]))], serv.(headerTimeout := n))
    ensures Builds(serv, [Plain(Directive("cgi_timeout", [Number(digits)]))], serv.(cgiTimeout := n))
  {
    hide Atoi, Builds;
    BuildsOne(serv, Plain(Directive("header_timeout", [Number(digits)])));
    BuildsOne(serv, Plain(Directive("cgi_timeout", [Number(digits)])));
  }

  lemma BuildsTimeouts(serv: ServerEntry, header: nat, cgi: nat)
    requires header <= MAX_TIMEOUT && cgi <= MAX_TIMEOUT
    ensures Builds(serv, [Plain(Directive("header_timeout", [Number(Decimal(header))])),
                          Plain(Directive("cgi_timeout", [Number(Decimal(cgi))]))],
                   serv.(headerTimeout := header, cgiTimeout := cgi))
  {
    hide Atoi, Decimal, Builds, AllDigits;
    var a, b := Plain(Directive("header_timeout", [Number(Decimal(header))])),
                Plain(Directive("cgi_timeout", [Number(Decimal(cgi))]));
    var s := serv.(headerTimeout := header);
    DecimalTimeout(header);
    DecimalTimeout(cgi);
    BuildsTimeout(serv, Decimal(header), header);
    BuildsTimeout(s, Decimal(cgi), cgi);
    BuildsThen(serv, [a], s, [b], serv.(headerTimeout := header, cgiTimeout := cgi));
    assert [a] + [b] == [a, b];
  }

  lemma BuildsSettings(from: ServerEntry, serv: ServerEntry, unit: char)
    requires from.name == "" && from.index == [] && IsPath(serv.root) && Sized(serv.maxBody, unit)
    requires serv.headerTimeout <= MAX_TIMEOUT && serv.cgiTimeout <= MAX_TIMEOUT
    ensures Builds(from, Settings(serv, unit),
                   from.(name := serv.name, root := serv.root, index := serv.index, maxBody := serv.maxBody,
                         headerTimeout := serv.headerTimeout, cgiTimeout := serv.cgiTimeout))
  {
    var n := NameEntry(serv.name);
    var a := [Plain(Directive("root", [Name(serv.root)])), Plain(Directive("index", IndexWords(serv.index)))];
    var b := [Plain(Directive("client_max_body_size", [Name(SizeText(serv.maxBody, unit))]))];
    var c := [Plain(Directive("header_timeout", [Number(Decimal(serv.headerTimeout))])),
              Plain(Directive("cgi_timeout", [Number(Decimal(serv.cgiTimeout))]))];
    var r := from.(name := serv.name);
    var s := r.(root := serv.root, index := serv.index);
    var t := s.(maxBody := serv.maxBody);
    var u := t.(headerTimeout := serv.headerTimeout, cgiTimeout := serv.cgiTimeout);
    assert n + (a + b + c) == Settings(serv, unit);
    BuildsName(from, serv.name);
    BuildsRoot(r, serv.root, serv.index);
    BuildsSize(s, serv.maxBody, unit);
    BuildsTimeouts(t, serv.headerTimeout, serv.cgiTimeout);
    hide Builds, SizeText, Decimal, IndexWords, Settings, NameEntry;
    BuildsThen(r, a, s, b, t);
    BuildsThen(r, a + b, t, c, u);
    BuildsThen(from, n, r, a + b + c, u);
  }

  predicate NoneLike(serv: ServerEntry, locs: seq<Location>) {
    forall j, k :: 0 <= j < |serv.locations| && 0 <= k < |locs| ==>
      NormPath(serv.locations[j].path) != NormPath(locs[k].path)
  }

  predicate AllDifferent(locs: seq<Location>) {
    && (forall k :: 0 <= k < |locs| ==> IsPath(locs[k].path))
    && (forall j, k :: 0 <= j < k < |locs| ==> NormPath(locs[j].path) != NormPath(locs[k].path))
  }

  lemma BuildsLocation(serv: ServerEntry, loc: Location, st: Style)
    requires LocationFits(loc, st) && NoneLike(serv, [loc]) && IsPath(loc.path)
    ensures Builds(serv, [Block(loc.path, PrintLocation(loc, st))], serv.(locations := serv.locations + [loc]))
  {
    PrintedLocation(loc, st);
    hide PrintLocation, LocationFits, NormPath, IsPath, DirectivesOk, ApplyDirectives;
    var item := Block(loc.path, PrintLocation(loc, st));
    assert [loc][0] == loc;
    assert !IsDuplicate(serv, NewLocation(loc.path));
    BuildsOne(serv, item);
  }

  lemma {:induction false} BuildsLocations(serv: ServerEntry, locs: seq<Location>, sts: seq<Style>)
    requires |locs| == |sts| && (forall k :: 0 <= k < |sts| ==> LocationFits(locs[k], sts[k]))
    requires AllDifferent(locs) && NoneLike(serv, locs)
    ensures Builds(serv, LocationEntries(locs, sts), serv.(locations := serv.locations + locs))
    decreases |locs|
  {
    hide LocationFits, PrintLocation, NormPath, IsPath, Builds;
    if |locs| > 0 {
      var next := serv.(locations := serv.locations + [locs[0]]);
      BuildsLocation(serv, locs[0], sts[0]);
      BuildsLocations(next, locs[1..], sts[1..]);
      assert serv.locations + [locs[0]] + locs[1..] == serv.locations + locs;
      BuildsThen(serv, [Block(locs[0].path, PrintLocation(locs[0], sts[0]))], next, LocationEntries(locs[1..], sts[1..]),
                 serv.(locations := serv.locations + locs));
    } else {
      BuildsNothing(serv);
      assert serv.locations + locs == serv.locations;
    }
  }

  /** A printed server block is that server block. */
  lemma PrintedServer(serv: ServerEntry, st: Style, sts: seq<Style>)
    requires ServerFits(serv, st, sts)
    ensures Builds(NewServer(), PrintServer(serv, st, sts), serv)
  {
    var a := NewServer();
    var b := a.(listenSet := serv.listenSet, listen := serv.listen);
    var c := b.(name := serv.name, root := serv.root, index := serv.index, maxBody := serv.maxBody,
                headerTimeout := serv.headerTimeout, cgiTimeout := serv.cgiTimeout);
    var d := c.(errorPages := serv.errorPages);
    var order := if serv.listenSet then st.addresses else [];
    if serv.listenSet {
      BuildsAddresses(a, order, serv.listen);
    } else {
      BuildsNothing(a);
    }
    BuildsSettings(b, serv, st.unit);
    AllPages(serv.errorPages, st.codes);
    BuildsPages(c, serv.errorPages, st.codes);
    BuildsLocations(d, serv.locations, sts);
    assert d.locations + serv.locations == serv.locations;
    hide Builds, ListenEntries, Settings, ErrorEntries, LocationEntries, AddPages;
    var p3 := ErrorEntries(serv.errorPages, st.codes) + LocationEntries(serv.locations, sts);
    BuildsThen(c, ErrorEntries(serv.errorPages, st.codes), d, LocationEntries(serv.locations, sts), serv);
    BuildsThen(b, Settings(serv, st.unit), c, p3, serv);
    BuildsThen(a, ListenEntries(order), b, Settings(serv, st.unit) + p3, serv);
  }

  /** Roots that are explicit stay as they are. */
  lemma RootsStay(serv: ServerEntry, st: Style, sts: seq<Style>)
    requires ServerFits(serv, st, sts)
    ensures MapRoots(serv) == serv
  {
    forall k | 0 <= k < |serv.locations| ensures MapRoot(serv.locations[k], serv.root) == serv.locations[k] {
      assert LocationFits(serv.locations[k], sts[k]);
    }
    assert MapRoots(serv).locations == serv.locations;
  }

  // ---------------------------------------------------------------- files

  /** How a whole file is written. */
  datatype FileStyle = FileStyle(st: Style, sts: seq<Style>)

  ghost predicate Fits(servers: seq<ServerEntry>, how: seq<FileStyle>) {
    |how| == |servers| && forall k :: 0 <= k < |how| ==> ServerFits(servers[k], how[k].st, how[k].sts)
  }

  function Print(servers: seq<ServerEntry>, how: seq<FileStyle>): (file: seq<seq<BlockItem>>)
    requires Fits(servers, how)
    ensures |file| == |servers|
    ensures forall k :: 0 <= k < |file| ==> file[k] == PrintServer(servers[k], how[k].st, how[k].sts)
  {
    seq(|servers|, k requires 0 <= k < |servers| => PrintServer(servers[k], how[k].st, how[k].sts))
  }

  /** A printed configuration is correct and means that configuration. */
  lemma PrintedFile(servers: seq<ServerEntry>, how: seq<FileStyle>)
    requires Fits(servers, how)
    ensures FileOk(Print(servers, how)) && Meaning(Print(servers, how)) == servers
  {
    var file := Print(servers, how);
    forall k | 0 <= k < |file|
      ensures ItemsOk(NewServer(), file[k]) && MapRoots(ApplyItems(NewServer(), file[k])) == servers[k]
    {
      PrintedServer(servers[k], how[k].st, how[k].sts);
      RootsStay(servers[k], how[k].st, how[k].sts);
    }
    hide ItemsOk, ApplyItems, MapRoots, NewServer;
  }

  /** The round trip: a valid configuration, printed in any way that fits and parsed, is that configuration. */
  lemma RoundTrip(servers: seq<ServerEntry>, how: seq<FileStyle>, more: seq<Word>)
    requires Fits(servers, how)
    ensures ReadFile(Write(Print(servers, how), more)) == GotFile(servers)
  {
    PrintedFile(servers, how);
    ReadWritten(Print(servers, how), more);
  }
}
