/**
 * Every valid configuration can be written, in any order of its sets and with any unit that fits,
 * and is read back as it was.
 */
module ConfigPrint {
  import B = Bytes
  import opened Lexing
  import opened ConfigValues
  import opened ConfigGrammar
  import opened ConfigReader
  import opened ConfigRoundTrip
  import Sockets = ListenSockets

  // ---------------------------------------------------------------- values

  /** A code as three digits. */
  function ThreeDigits(n: nat): (s: Digits)
    requires n < 1000
  {
    [DigitChar(n / 100), DigitChar(n / 10 % 10), DigitChar(n % 10)]
  }

  function DigitChar(d: nat): (c: char)
    requires d <= 9
    ensures IsDigit(c) && Digit(c) == d
  {
    ('0' as int + d) as char
  }

  lemma DigitsSum(n: nat)
    requires n < 1000
    ensures (n / 100 * 10 + n / 10 % 10) * 10 + n % 10 == n
  {
  }

  lemma ThreeDigitsValue(n: nat)
    requires n < 1000
    ensures |ThreeDigits(n)| == 3 && Atoi(ThreeDigits(n)) == n
    ensures 300 <= n < 400 ==> ThreeDigits(n)[0] == '3'
  {
    var a, b, c := DigitChar(n / 100), DigitChar(n / 10 % 10), DigitChar(n % 10);
    assert Value("") == 0;
    hide Value, AllDigits;
    ValueNextDigit("", a);
    ValueNextDigit([a], b);
    ValueNextDigit([a, b], c);
    assert [] + [a] == [a] && [a] + [b] == [a, b] && [a, b] + [c] == ThreeDigits(n);
    DigitsSum(n);
  }

  lemma ValueNextDigit(s: string, c: char)
    requires AllDigits(s) && IsDigit(c)
    ensures AllDigits(s + [c]) && Value(s + [c]) == Value(s) * 10 + Digit(c)
  {
    AllDigitsNext(s, c);
    assert (s + [c])[..|s|] == s;
  }

  /** A size in a unit that divides it. */
  function SizeText(n: nat, unit: char): string
    requires Unit(unit) > 0
  {
    Decimal(n / Unit(unit)) + [unit]
  }

  lemma SizeTextValue(n: nat, unit: char)
    requires Unit(unit) > 0 && n % Unit(unit) == 0 && n <= SIZE_MAX
    ensures SizeOf(SizeText(n, unit)) == Bytes(n)
  {
    hide Decimal, AllDigits, Value, Unit;
    Snoc(Decimal(n / Unit(unit)), unit);
    ValueOfDecimal(n / Unit(unit));
    Exact(n, Unit(unit));
  }

  lemma Snoc(s: string, c: char)
    ensures (s + [c])[..|s + [c]| - 1] == s && (s + [c])[|s + [c]| - 1] == c
  {
  }

  lemma Exact(n: nat, u: nat)
    requires u > 0 && n % u == 0
    ensures n / u * u == n
  {
  }

  lemma DecimalTimeout(n: nat)
    requires n <= MAX_TIMEOUT
    ensures Atoi(Decimal(n)) == n
  {
    ValueOfDecimal(n);
  }

  lemma AddressText(a: Sockets.Address)
    requires IsHost(a.ip) && IsPort(a.port)
    ensures IsAddress(a.ip + ":" + a.port) && AddressOf(a.ip + ":" + a.port) == a
  {
    HostHasNoColon(a.ip);
    B.CharAtIs(a.ip, ':', a.port);
    B.AroundChar(a.ip, ':', a.port);
    B.Assoc(a.ip, ":", a.port);
    hide IsHost, IsPort, B.CharAt;
  }

  lemma HostHasNoColon(host: string)
    requires IsHost(host)
    ensures ':' !in host
  {
    if IsDotted(host, 4) {
      DottedHasNoColon(host, 4);
    }
  }

  lemma {:induction false} DottedHasNoColon(s: string, n: nat)
    requires IsDotted(s, n)
    ensures ':' !in s
    decreases n
  {
    var k := DigitsLen(s);
    assert ':' !in s[..k];
    if n > 1 {
      DottedHasNoColon(s[k + 1..], n - 1);
      assert s == s[..k] + [s[k]] + s[k + 1..];
    } else {
      assert s == s[..k];
    }
  }

  // ---------------------------------------------------------------- locations

  /** How a block is written: the unit of its sizes and the order of its sets. */
  datatype Style = Style(unit: char, codes: seq<int>, methods: seq<string>, addresses: seq<Sockets.Address>)

  ghost predicate Codes(pages: map<int, string>, codes: seq<int>) {
    && (forall c :: c in pages ==> c in codes)
    && (forall k :: 0 <= k < |codes| ==> codes[k] in pages && 0 <= codes[k] < 1000)
  }

  predicate Sized(n: nat, unit: char) {
    Unit(unit) > 0 && n % Unit(unit) == 0 && n <= SIZE_MAX
  }

  /** A location some configuration file stands for; its root is explicit. */
  ghost predicate LocationFits(loc: Location, st: Style) {
    && IsPath(loc.path) && IsPath(loc.root) && (loc.uploadStore == "" || IsPath(loc.uploadStore))
    && Codes(loc.errorPages, st.codes)
    && (loc.maxBody == Unset || Sized(loc.maxBody.n, st.unit))
    && (if loc.methodSet then MethodsFit(loc.methods, st.methods) else loc.methods == {"GET"})
    && (loc.autoIndex ==> loc.autoIndexSet)
    && (loc.redirect == NoRedirect || 300 <= loc.redirect.code < 400)
    && (loc.isCgi <==> |loc.cgi| > 0)
  }

  ghost predicate MethodsFit(methods: set<string>, order: seq<string>) {
    && |order| > 0 && (forall m :: m in order <==> m in methods)
    && (forall k :: 0 <= k < |order| ==> IsMethodName(order[k]))
  }

  function Names(texts: seq<string>): (args: seq<Word>)
    ensures |args| == |texts| && forall k :: 0 <= k < |args| ==> args[k] == Name(texts[k])
  {
    seq(|texts|, k requires 0 <= k < |texts| => Name(texts[k]))
  }

  /** The token a text comes from, as an entry of an index. */
  function IndexWord(text: string): (w: Word)
    ensures Text(w) == text && w != Semicolon
  {
    if text == "{" then Open
    else if text == "}" then Close
    else if text != "" && AllDigits(text) then Number(text)
    else Name(text)
  }

  function IndexWords(texts: seq<string>): (args: seq<Word>)
    ensures |args| == |texts| && forall k :: 0 <= k < |args| ==> args[k] == IndexWord(texts[k])
  {
    seq(|texts|, k requires 0 <= k < |texts| => IndexWord(texts[k]))
  }

  function ErrorDirectives(pages: map<int, string>, codes: seq<int>): seq<Directive>
    requires forall k :: 0 <= k < |codes| ==> codes[k] in pages && 0 <= codes[k] < 1000
  {
    if |codes| == 0 then []
    else [Directive("error_page", [Number(ThreeDigits(codes[0])), Name(pages[codes[0]])])]
         + ErrorDirectives(pages, codes[1..])
  }

  function CgiDirectives(cgi: seq<string>): seq<Directive> {
    if |cgi| == 0 then [] else [Directive("cgi", [Name(cgi[0])])] + CgiDirectives(cgi[1..])
  }

  function One(condition: bool, d: Directive): seq<Directive> {
    if condition then [d] else []
  }

  /** The directives of a location. */
  function PrintLocation(loc: Location, st: Style): seq<Directive>
    requires LocationFits(loc, st)
  {
    [Directive("root", [Name(loc.root)]), Directive("index", IndexWords(loc.index))]
    + (ErrorDirectives(loc.errorPages, st.codes)
       + (One(loc.maxBody != Unset, SizeDirective(loc.maxBody, st.unit))
          + (One(loc.uploadStore != "", Directive("upload_store", [Name(loc.uploadStore)]))
             + (One(loc.methodSet, Directive("allowed_methods", Names(st.methods)))
                + (One(loc.autoIndexSet, Directive("autoindex", [Name(if loc.autoIndex then "on" else "off")]))
                   + (One(loc.redirect != NoRedirect, RedirectDirective(loc.redirect))
                      + CgiDirectives(loc.cgi)))))))
  }

  function SizeDirective(limit: Limit, unit: char): Directive {
    Directive("client_max_body_size", if limit == Unset || Unit(unit) == 0 then [] else [Name(SizeText(limit.n, unit))])
  }

  function RedirectDirective(r: Redirect): Directive {
    Directive("redirect", if r == NoRedirect || !(0 <= r.code < 1000) then [] else [Number(ThreeDigits(r.code)), Name(r.target)])
  }

  /** `dirs` make `after` of `before`. */
  predicate Makes(before: Location, dirs: seq<Directive>, after: Location) {
    DirectivesOk(before, dirs) && ApplyDirectives(before, dirs) == after
  }

  lemma {:induction false} MakesThen(a: Location, dirs: seq<Directive>, b: Location, more: seq<Directive>, c: Location)
    requires Makes(a, dirs, b) && Makes(b, more, c)
    ensures Makes(a, dirs + more, c)
    decreases |dirs|
  {
    hide LocationKindOf, LocationAccepts, ApplyLocation;
    if |dirs| == 0 {
      assert dirs + more == more;
    } else {
      var next := ApplyLocation(a, LocationKindOf(dirs[0].name), dirs[0].args);
      assert (dirs + more)[1..] == dirs[1..] + more;
      MakesThen(next, dirs[1..], b, more, c);
    }
  }

  lemma MakesOne(a: Location, d: Directive)
    requires LocationAccepts(a, LocationKindOf(d.name), d.args)
    ensures Makes(a, [d], ApplyLocation(a, LocationKindOf(d.name), d.args))
  {
    hide LocationKindOf, LocationAccepts, ApplyLocation;
    assert [d][1..] == [];
    MakesNothing(ApplyLocation(a, LocationKindOf(d.name), d.args));
  }

  lemma MakesNothing(a: Location)
    ensures Makes(a, [], a)
  {
  }

  lemma TextsOfNames(texts: seq<string>)
    ensures Texts(Names(texts)) == texts
  {
  }

  lemma TextsOfIndex(texts: seq<string>)
    ensures Texts(IndexWords(texts)) == texts && ListArg(IndexWords(texts))
  {
  }

  lemma MakesRoot(loc: Location, root: string, index: seq<string>)
    requires IsPath(root) && loc.index == []
    ensures Makes(loc, [Directive("root", [Name(root)]), Directive("index", IndexWords(index))], loc.(root := root, index := index))
  {
    TextsOfIndex(index);
    var a, b := Directive("root", [Name(root)]), Directive("index", IndexWords(index));
    MakesOne(loc, a);
    MakesOne(loc.(root := root), b);
    MakesThen(loc, [a], loc.(root := root), [b], loc.(root := root, index := index));
    assert [a] + [b] == [a, b];
  }

  /** The pages of `codes` on top of `base`. */
  function AddPages(base: map<int, string>, pages: map<int, string>, codes: seq<int>): (r: map<int, string>)
    requires forall k :: 0 <= k < |codes| ==> codes[k] in pages
    ensures forall c :: c in r <==> c in base || c in codes
    ensures forall c :: c in r ==> r[c] == if c in codes then pages[c] else base[c]
    decreases |codes|
  {
    if |codes| == 0 then base else AddPages(base[codes[0] := pages[codes[0]]], pages, codes[1..])
  }

  lemma AllPages(pages: map<int, string>, codes: seq<int>)
    requires Codes(pages, codes)
    ensures forall k :: 0 <= k < |codes| ==> codes[k] in pages
    ensures AddPages(map[], pages, codes) == pages
  {
    forall c | c in codes ensures c in pages {
      var k :| 0 <= k < |codes| && codes[k] == c;
    }
    var r := AddPages(map[], pages, codes);
    forall c ensures c in r <==> c in pages {
      assert c in r <==> c in codes;
    }
  }

  lemma {:induction false} MakesPages(loc: Location, pages: map<int, string>, codes: seq<int>)
    requires forall k :: 0 <= k < |codes| ==> codes[k] in pages && 0 <= codes[k] < 1000
    ensures Makes(loc, ErrorDirectives(pages, codes), loc.(errorPages := AddPages(loc.errorPages, pages, codes)))
    decreases |codes|
  {
    if |codes| > 0 {
      var c := codes[0];
      var d := Directive("error_page", [Number(ThreeDigits(c)), Name(pages[c])]);
      var next := loc.(errorPages := loc.errorPages[c := pages[c]]);
      ThreeDigitsValue(c);
      MakesOne(loc, d);
      MakesPages(next, pages, codes[1..]);
      hide Makes;
      MakesThen(loc, [d], next, ErrorDirectives(pages, codes[1..]),
                loc.(errorPages := AddPages(loc.errorPages, pages, codes)));
    } else {
      MakesNothing(loc);
    }
  }

  lemma MakesSizeText(loc: Location, text: string, n: nat)
    requires SizeOf(text) == Bytes(n)
    ensures Makes(loc, [Directive("client_max_body_size", [Name(text)])], loc.(maxBody := Limit(n)))
  {
    hide SizeOf;
    MakesOne(loc, Directive("client_max_body_size", [Name(text)]));
  }

  lemma MakesSize(loc: Location, limit: Limit, unit: char)
    requires loc.maxBody == Unset && (limit == Unset || Sized(limit.n, unit))
    ensures Makes(loc, One(limit != Unset, SizeDirective(limit, unit)), loc.(maxBody := limit))
  {
    if limit != Unset {
      SizeTextValue(limit.n, unit);
      hide SizeOf, SizeText, Makes, Unit;
      MakesSizeText(loc, SizeText(limit.n, unit), limit.n);
    } else {
      MakesNothing(loc);
    }
  }

  lemma MakesStore(loc: Location, store: string)
    requires loc.uploadStore == "" && (store == "" || IsPath(store))
    ensures Makes(loc, One(store != "", Directive("upload_store", [Name(store)])), loc.(uploadStore := store))
  {
    if store != "" {
      MakesOne(loc, Directive("upload_store", [Name(store)]));
    } else {
      MakesNothing(loc);
    }
  }

  lemma MakesMethods(loc: Location, methodSet: bool, methods: set<string>, order: seq<string>)
    requires !loc.methodSet && loc.methods == {"GET"}
    requires if methodSet then MethodsFit(methods, order) else methods == {"GET"}
    ensures Makes(loc, One(methodSet, Directive("allowed_methods", Names(order))),
                  loc.(methodSet := methodSet, methods := methods))
  {
    if methodSet {
      TextsOfNames(order);
      assert TextSet(Names(order)) == methods;
      assert SetMethods(loc) + methods == methods;
      MakesOne(loc, Directive("allowed_methods", Names(order)));
    } else {
      MakesNothing(loc);
    }
  }

  lemma MakesFlag(loc: Location, flagSet: bool, flag: bool)
    requires !loc.autoIndexSet && !loc.autoIndex && (flag ==> flagSet)
    ensures Makes(loc, One(flagSet, Directive("autoindex", [Name(if flag then "on" else "off")])),
                  loc.(autoIndexSet := flagSet, autoIndex := flag))
  {
    if flagSet {
      MakesOne(loc, Directive("autoindex", [Name(if flag then "on" else "off")]));
    } else {
      MakesNothing(loc);
    }
  }

  lemma MakesRedirect(loc: Location, r: Redirect)
    requires loc.redirect == NoRedirect && (r == NoRedirect || 300 <= r.code < 400)
    ensures Makes(loc, One(r != NoRedirect, RedirectDirective(r)), loc.(redirect := r))
  {
    if r != NoRedirect {
      ThreeDigitsValue(r.code);
      hide ThreeDigits, Atoi;
      MakesOne(loc, RedirectDirective(r));
    } else {
      MakesNothing(loc);
    }
  }

  lemma {:induction false} MakesCgi(loc: Location, cgi: seq<string>)
    ensures Makes(loc, CgiDirectives(cgi), loc.(cgi := loc.cgi + cgi, isCgi := loc.isCgi || |cgi| > 0))
    decreases |cgi|
  {
    if |cgi| > 0 {
      var d := Directive("cgi", [Name(cgi[0])]);
      var next := loc.(cgi := loc.cgi + [cgi[0]], isCgi := true);
      MakesOne(loc, d);
      MakesCgi(next, cgi[1..]);
      assert loc.cgi + [cgi[0]] + cgi[1..] == loc.cgi + cgi;
      hide Makes;
      MakesThen(loc, [d], next, CgiDirectives(cgi[1..]), loc.(cgi := loc.cgi + cgi, isCgi := true));
    } else {
      MakesNothing(loc);
      assert loc.cgi + cgi == loc.cgi;
    }
  }

  /** A printed location is that location. */
  lemma PrintedLocation(loc: Location, st: Style)
    requires LocationFits(loc, st)
    ensures Makes(NewLocation(loc.path), PrintLocation(loc, st), loc)
  {
    var a := NewLocation(loc.path);
    var b := a.(root := loc.root, index := loc.index);
    var c := b.(errorPages := loc.errorPages);
    var d := c.(maxBody := loc.maxBody);
    var e := d.(uploadStore := loc.uploadStore);
    var f := e.(methodSet := loc.methodSet, methods := loc.methods);
    var g := f.(autoIndexSet := loc.autoIndexSet, autoIndex := loc.autoIndex);
    var h := g.(redirect := loc.redirect);
    MakesRoot(a, loc.root, loc.index);
    AllPages(loc.errorPages, st.codes);
    MakesPages(b, loc.errorPages, st.codes);
    MakesSize(c, loc.maxBody, st.unit);
    MakesStore(d, loc.uploadStore);
    MakesMethods(e, loc.methodSet, loc.methods, st.methods);
    MakesFlag(f, loc.autoIndexSet, loc.autoIndex);
    MakesRedirect(g, loc.redirect);
    MakesCgi(h, loc.cgi);
    assert h.cgi + loc.cgi == loc.cgi;
    hide Makes, ErrorDirectives, SizeDirective, Names, IndexWords, RedirectDirective, CgiDirectives, One, AddPages;
    PrintChain(loc, st, a, b, c, d, e, f, g, h);
  }

  lemma PrintChain(loc: Location, st: Style, a: Location, b: Location, c: Location, d: Location, e: Location, f: Location,
                   g: Location, h: Location)
    requires LocationFits(loc, st)
    requires Makes(a, [Directive("root", [Name(loc.root)]), Directive("index", IndexWords(loc.index))], b)
    requires Makes(b, ErrorDirectives(loc.errorPages, st.codes), c)
    requires Makes(c, One(loc.maxBody != Unset, SizeDirective(loc.maxBody, st.unit)), d)
    requires Makes(d, One(loc.uploadStore != "", Directive("upload_store", [Name(loc.uploadStore)])), e)
    requires Makes(e, One(loc.methodSet, Directive("allowed_methods", Names(st.methods))), f)
    requires Makes(f, One(loc.autoIndexSet, Directive("autoindex", [Name(if loc.autoIndex then "on" else "off")])), g)
    requires Makes(g, One(loc.redirect != NoRedirect, RedirectDirective(loc.redirect)), h)
    requires Makes(h, CgiDirectives(loc.cgi), loc)
    ensures Makes(a, PrintLocation(loc, st), loc)
  {
    hide Makes, ErrorDirectives, Names, IndexWords, CgiDirectives, One, SizeDirective, RedirectDirective;
    var p7 := CgiDirectives(loc.cgi);
    var p6 := One(loc.redirect != NoRedirect, RedirectDirective(loc.redirect)) + p7;
    MakesThen(g, One(loc.redirect != NoRedirect, RedirectDirective(loc.redirect)), h, p7, loc);
    var flag := Directive("autoindex", [Name(if loc.autoIndex then "on" else "off")]);
    MakesThen(f, One(loc.autoIndexSet, flag), g, p6, loc);
    var p5 := One(loc.autoIndexSet, flag) + p6;
    var methods := Directive("allowed_methods", Names(st.methods));
    MakesThen(e, One(loc.methodSet, methods), f, p5, loc);
    var p4 := One(loc.methodSet, methods) + p5;
    var store := Directive("upload_store", [Name(loc.uploadStore)]);
    MakesThen(d, One(loc.uploadStore != "", store), e, p4, loc);
    var p3 := One(loc.uploadStore != "", store) + p4;
    MakesThen(c, One(loc.maxBody != Unset, SizeDirective(loc.maxBody, st.unit)), d, p3, loc);
    var p2 := One(loc.maxBody != Unset, SizeDirective(loc.maxBody, st.unit)) + p3;
    MakesThen(b, ErrorDirectives(loc.errorPages, st.codes), c, p2, loc);
    var p1 := ErrorDirectives(loc.errorPages, st.codes) + p2;
    MakesThen(a, [Directive("root", [Name(loc.root)]), Directive("index", IndexWords(loc.index))], b, p1, loc);
  }
}
