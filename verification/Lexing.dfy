/** What the configuration lexer computes (webserv/sources/parser/Lexer.cpp), and its inverse: writing tokens out. */
module Lexing {
  import opened Bytes

  datatype TokenType = EndOfFile | LBrace | RBrace | Semi | Str | Num

  datatype Token = Token(kind: TokenType, text: string, line: nat, col: nat)

  predicate IsDigit(c: char) {
    '0' <= c <= '9'
  }

  predicate IsMark(c: char) {
    c == '{' || c == '}' || c == ';'
  }

  /** What ends a word. */
  predicate IsBreak(c: char) {
    IsSpace(c) || IsMark(c) || c == '#'
  }

  // ---------------------------------------------------------------- positions

  /** The line of the character behind `s`. */
  function Line(s: string): (n: nat)
    ensures n >= 1
  {
    if |s| == 0 then 1
    else Line(s[..|s| - 1]) + if s[|s| - 1] == '\n' then 1 else 0
  }

  /** The column of the character behind `s`. */
  function Col(s: string): (n: nat)
    ensures n >= 1
  {
    if |s| == 0 || s[|s| - 1] == '\n' then 1 else Col(s[..|s| - 1]) + 1
  }

  // ---------------------------------------------------------------- the lexer

  /** How far a comment reaches: up to its newline, or to the end. */
  function CommentLen(s: string): (n: nat)
    ensures n <= |s| && '\n' !in Bytes.Take(s, n) && (n < |s| ==> s[n] == '\n')
  {
    Bytes.CharAt(s, '\n')
  }

  /** How many characters are whitespace and comments. */
  function SkipLen(s: string): (n: nat)
    ensures n <= |s| && (n < |s| ==> !IsSpace(s[n]) && s[n] != '#')
    decreases |s|
  {
    if |s| == 0 then 0
    else if IsSpace(s[0]) then 1 + SkipLen(s[1..])
    else if s[0] == '#' then CommentLen(s) + SkipLen(s[CommentLen(s)..])
    else 0
  }

  function WordLen(s: string): (n: nat)
    ensures n <= |s| && (forall k :: 0 <= k < n ==> !IsBreak(s[k])) && (n < |s| ==> IsBreak(s[n]))
  {
    if |s| == 0 || IsBreak(s[0]) then 0 else 1 + WordLen(s[1..])
  }

  function TextLen(s: string): (n: nat)
    requires |s| > 0 && !IsSpace(s[0]) && s[0] != '#'
    ensures 0 < n <= |s|
  {
    if IsMark(s[0]) then 1 else WordLen(s)
  }

  predicate AllDigits(s: string) {
    forall k :: 0 <= k < |s| ==> IsDigit(s[k])
  }

  function KindOf(text: string): TokenType {
    if text == "{" then LBrace
    else if text == "}" then RBrace
    else if text == ";" then Semi
    else if text != "" && AllDigits(text) then Num
    else Str
  }

  /** A token's kind is that of its text; only the end of file has none. */
  predicate GoodToken(t: Token) {
    if t.kind == EndOfFile then t.text == "" else t.kind == KindOf(t.text)
  }

  lemma EndIsGood(line: nat, col: nat)
    ensures GoodToken(Token(EndOfFile, "", line, col))
  {
  }

  /** The token at `p`, where the lexer is behind a gap. */
  function TokenAt(src: string, p: nat): (t: Token)
    requires p < |src| && !IsSpace(src[p]) && src[p] != '#'
    ensures 0 < |t.text| && p + |t.text| <= |src| && |t.text| == TextLen(src[p..])
  {
    var text := src[p..p + TextLen(src[p..])];
    Token(KindOf(text), text, Line(src[..p]), Col(src[..p]))
  }

  /** Where the next token is, or the end. */
  function Start(src: string, pos: nat): (p: nat)
    requires pos <= |src|
    ensures pos <= p <= |src| && (p < |src| ==> !IsSpace(src[p]) && src[p] != '#')
  {
    var n := SkipLen(src[pos..]);
    assert n < |src[pos..]| ==> src[pos..][n] == src[pos + n];
    pos + n
  }

  /** The tokens of `src` from `pos` on. */
  function Lex(src: string, pos: nat): (tokens: seq<Token>)
    requires pos <= |src|
    ensures |tokens| > 0
    decreases |src| - pos
  {
    var p := Start(src, pos);
    if p == |src| then [Token(EndOfFile, "", Line(src), Col(src))]
    else [TokenAt(src, p)] + Lex(src, p + |TokenAt(src, p).text|)
  }

  // ---------------------------------------------------------------- renderings

  /** A token's text, and the whitespace and comments in front of it. */
  datatype Item = Item(gap: string, text: string)

  function Render(items: seq<Item>, last: string): string {
    if |items| == 0 then last else items[0].gap + (items[0].text + Render(items[1..], last))
  }

  /** The tokens a rendering stands for; `before` is the text in front of it. */
  function Expected(items: seq<Item>, last: string, before: string): seq<Token>
    decreases |items|
  {
    if |items| == 0 then [Token(EndOfFile, "", Line(before + last), Col(before + last))]
    else
      [ItemAt(before, items[0])] + Expected(items[1..], last, Behind(before, items[0]))
  }

  function ItemAt(before: string, item: Item): Token {
    Token(KindOf(item.text), item.text, Line(before + item.gap), Col(before + item.gap))
  }

  function Behind(before: string, item: Item): string {
    (before + item.gap) + item.text
  }

  predicate IsWord(text: string) {
    |text| > 0 && forall k :: 0 <= k < |text| ==> !IsBreak(text[k])
  }

  predicate IsText(text: string) {
    (|text| == 1 && IsMark(text[0])) || IsWord(text)
  }

  /** Whitespace and comments; a comment ends with a newline, or, if `last`, with the text. */
  predicate IsGap(s: string, last: bool)
    decreases |s|
  {
    |s| == 0
    || (IsSpace(s[0]) && IsGap(s[1..], last))
    || (s[0] == '#' && (last || CommentLen(s) < |s|) && IsGap(s[CommentLen(s)..], last))
  }

  /** Every gap is one, and two words do not touch; `word` says that a word comes just before. */
  predicate WellSpaced(items: seq<Item>, last: string, word: bool)
    decreases |items|
  {
    if |items| == 0 then IsGap(last, true)
    else
      && IsGap(items[0].gap, false) && IsText(items[0].text)
      && (word && IsWord(items[0].text) ==> |items[0].gap| > 0)
      && WellSpaced(items[1..], last, IsWord(items[0].text))
  }

  lemma {:induction false} CommentLenOf(s: string, rest: string)
    requires CommentLen(s) < |s|
    ensures CommentLen(s + rest) == CommentLen(s)
  {
    if s[0] != '\n' {
      assert (s + rest)[1..] == s[1..] + rest;
      CommentLenOf(s[1..], rest);
    }
  }

  /** The lexer passes over a gap, whatever follows. */
  lemma {:induction false} SkipLenOf(gap: string, rest: string)
    requires IsGap(gap, false)
    ensures SkipLen(gap + rest) == |gap| + SkipLen(rest)
    decreases |gap|
  {
    var s := gap + rest;
    if |gap| == 0 {
      assert s == rest;
    } else if IsSpace(gap[0]) {
      assert s[1..] == gap[1..] + rest;
      SkipLenOf(gap[1..], rest);
    } else {
      var n := CommentLen(gap);
      CommentLenOf(gap, rest);
      assert s[n..] == gap[n..] + rest;
      SkipLenOf(gap[n..], rest);
    }
  }

  lemma {:induction false} SkipLenLast(s: string)
    requires IsGap(s, true)
    ensures SkipLen(s) == |s|
    decreases |s|
  {
    if |s| == 0 {
    } else if IsSpace(s[0]) {
      SkipLenLast(s[1..]);
    } else {
      SkipLenLast(s[CommentLen(s)..]);
    }
  }

  lemma {:induction false} WordLenOf(word: string, rest: string)
    requires IsWord(word) || word == ""
    requires |rest| > 0 ==> IsBreak(rest[0])
    ensures WordLen(word + rest) == |word|
    decreases |word|
  {
    if |word| == 0 {
      assert word + rest == rest;
    } else {
      assert (word + rest)[1..] == word[1..] + rest;
      WordLenOf(word[1..], rest);
    }
  }

  /** What can follow a word. */
  lemma AfterWord(items: seq<Item>, last: string)
    requires WellSpaced(items, last, true)
    ensures var r := Render(items, last); |r| > 0 ==> IsBreak(r[0])
  {
  }

  lemma TextLenOf(text: string, items: seq<Item>, last: string)
    requires IsText(text) && WellSpaced(items, last, IsWord(text))
    ensures var s := text + Render(items, last); SkipLen(s) == 0 && |s| > 0 && TextLen(s) == |text|
  {
    if IsWord(text) {
      AfterWord(items, last);
      WordLenOf(text, Render(items, last));
    }
  }

  /** Where the parts of a source are. */
  lemma Places(src: string, before: string, gap: string, text: string, rest: string)
    requires src == before + (gap + (text + rest))
    ensures |src| == |before| + |gap| + |text| + |rest|
    ensures src[|before|..] == gap + (text + rest)
    ensures src[..|before| + |gap|] == before + gap
    ensures src[|before| + |gap|..] == text + rest
    ensures src[|before| + |gap|..|before| + |gap| + |text|] == text
  {
  }

  lemma Reassociate(before: string, gap: string, text: string, rest: string)
    ensures before + (gap + (text + rest)) == ((before + gap) + text) + rest
  {
    Bytes.Assoc(before, gap, text + rest);
    Bytes.Assoc(before + gap, text, rest);
  }

  /** The token of an item, in a source that has the item behind `before`. */
  lemma ItemToken(src: string, before: string, item: Item, rest: string)
    requires src == before + (item.gap + (item.text + rest)) && IsGap(item.gap, false) && IsText(item.text)
    requires SkipLen(item.text + rest) == 0 && TextLen(item.text + rest) == |item.text|
    ensures var p := Start(src, |before|);
            p < |src| && TokenAt(src, p) == ItemAt(before, item) && p + |TokenAt(src, p).text| == |Behind(before, item)|
  {
    hide KindOf, Line, Col, IsGap, TextLen, IsText, SkipLen, IsSpace;
    Places(src, before, item.gap, item.text, rest);
    SkipLenOf(item.gap, item.text + rest);
  }

  lemma LexLast(src: string, before: string, last: string)
    requires src == before + last && IsGap(last, true)
    ensures Lex(src, |before|) == [Token(EndOfFile, "", Line(src), Col(src))]
  {
    SkipLenLast(last);
    assert src[|before|..] == last;
    hide SkipLen, Line, Col;
    LexStep(src, |before|);
  }

  /** Lexing a rendering gives its tokens, each at its place, and one end of file. */
  lemma {:induction false} LexRendered(src: string, before: string, items: seq<Item>, last: string, word: bool)
    requires src == before + Render(items, last) && WellSpaced(items, last, word)
    ensures Lex(src, |before|) == Expected(items, last, before)
    decreases |items|
  {
    hide Line, Col, Lex, Start, Behind, ItemAt, TokenAt, IsGap, IsText;
    if |items| == 0 {
      LexLast(src, before, last);
    } else {
      var item, rest := items[0], Render(items[1..], last);
      TextLenOf(item.text, items[1..], last);
      ItemToken(src, before, item, rest);
      BehindItem(src, before, item, rest);
      LexRendered(src, Behind(before, item), items[1..], last, IsWord(item.text));
      LexStep(src, |before|);
      Prepend(Lex(src, |before|), ItemAt(before, item), Expected(items[1..], last, Behind(before, item)));
    }
  }

  lemma BehindItem(src: string, before: string, item: Item, rest: string)
    requires src == before + (item.gap + (item.text + rest))
    ensures src == Behind(before, item) + rest
  {
    Reassociate(before, item.gap, item.text, rest);
  }

  // ---------------------------------------------------------------- every text is a rendering

  lemma {:induction false} SkippedIsGap(s: string)
    ensures IsGap(s[..SkipLen(s)], SkipLen(s) == |s|)
    decreases |s|
  {
    var n := SkipLen(s);
    if |s| == 0 {
    } else if IsSpace(s[0]) {
      SkippedIsGap(s[1..]);
      assert s[..n][1..] == s[1..][..n - 1];
    } else if s[0] == '#' {
      var k := CommentLen(s);
      SkippedIsGap(s[k..]);
      assert s[..n][k..] == s[k..][..n - k];
      if n < |s| {
        CommentLenWithin(s, n);
      } else {
        assert s[..n] == s;
      }
    }
  }

  lemma {:induction false} CommentLenWithin(s: string, n: nat)
    requires CommentLen(s) <= n <= |s| && (CommentLen(s) == |s| || CommentLen(s) < n)
    ensures CommentLen(s[..n]) == CommentLen(s)
  {
    if |s| > 0 && s[0] != '\n' {
      assert s[..n][1..] == s[1..][..n - 1];
      CommentLenWithin(s[1..], n - 1);
    }
  }

  /** The gaps and texts the lexer finds. */
  function Items(s: string): seq<Item>
    decreases |s|
  {
    var n := SkipLen(s);
    var t := s[n..];
    if |t| == 0 then []
    else var k := TextLen(t); [Item(s[..n], t[..k])] + Items(t[k..])
  }

  function LastGap(s: string): string
    decreases |s|
  {
    var n := SkipLen(s);
    var t := s[n..];
    if |t| == 0 then s else LastGap(t[TextLen(t)..])
  }

  lemma TextIs(t: string)
    requires |t| > 0 && !IsSpace(t[0]) && t[0] != '#'
    ensures IsText(t[..TextLen(t)])
    ensures IsWord(t[..TextLen(t)]) && TextLen(t) < |t| ==> IsBreak(t[TextLen(t)])
  {
  }

  lemma CutApart(s: string, n: nat, k: nat)
    requires n + k <= |s|
    ensures s[..n] + (s[n..][..k] + s[n..][k..]) == s
  {
  }

  /** Every source is a rendering of the tokens the lexer finds in it. */
  lemma {:induction false} Renders(s: string, word: bool)
    requires word && |s| > 0 ==> IsBreak(s[0])
    ensures Render(Items(s), LastGap(s)) == s && WellSpaced(Items(s), LastGap(s), word)
    decreases |s|
  {
    var n := SkipLen(s);
    var t := s[n..];
    SkippedIsGap(s);
    if |t| == 0 {
      assert s[..n] == s;
    } else {
      var k := TextLen(t);
      TextIs(t);
      assert n == 0 ==> t[0] == s[0];
      assert n == 0 && word ==> !IsWord(t[..k]) by {
        assert k > 0 && t[..k][0] == t[0];
      }
      hide IsBreak, SkipLen, TextLen, IsText, IsWord, IsGap, IsSpace;
      Renders(t[k..], IsWord(t[..k]));
      CutApart(s, n, k);
    }
  }

  /** The first token, and the others. */
  lemma LexStep(src: string, pos: nat)
    requires pos <= |src|
    ensures var p := Start(src, pos);
            if p == |src| then Lex(src, pos) == [Token(EndOfFile, "", Line(src), Col(src))]
            else |Lex(src, pos)| == 1 + |Lex(src, p + |TokenAt(src, p).text|)|
                 && Lex(src, pos)[0] == TokenAt(src, p)
                 && Lex(src, pos)[1..] == Lex(src, p + |TokenAt(src, p).text|)
  {
    hide Start, TokenAt, Line, Col;
  }

  lemma Prepend(tokens: seq<Token>, t: Token, rest: seq<Token>)
    requires |tokens| == 1 + |rest| && tokens[0] == t && tokens[1..] == rest
    ensures tokens == [t] + rest
  {
  }

  lemma Shift(tokens: seq<Token>, t: Token, rest: seq<Token>, all: seq<Token>)
    requires |all| == 1 + |rest| && all[0] == t && all[1..] == rest
    ensures tokens + all == (tokens + [t]) + rest
  {
  }

  /** The token's text is the source at `p`, and its line and column are those of `p`. */
  predicate IsFrom(t: Token, src: string, p: nat) {
    p + |t.text| <= |src| && t.text == src[p..p + |t.text|] && t.line == Line(src[..p]) && t.col == Col(src[..p])
  }

  /** A token's text is the source at its place; its line and column are counted from the source; the end of file comes last and once. */
  lemma {:induction false} TokenPlace(src: string, pos: nat, k: nat) returns (p: nat)
    requires pos <= |src| && k < |Lex(src, pos)|
    ensures pos <= p && IsFrom(Lex(src, pos)[k], src, p)
    ensures Lex(src, pos)[k].kind == EndOfFile <==> k == |Lex(src, pos)| - 1
    ensures GoodToken(Lex(src, pos)[k])
    decreases |src| - pos
  {
    EndIsGood(Line(src), Col(src));
    hide GoodToken, TokenAt, Start, Line, Col, Lex;
    LexStep(src, pos);
    p := Start(src, pos);
    if p == |src| {
      assert src[..p] == src;
    } else {
      TokenAtIs(src, p);
      if k > 0 {
        var next := p + |TokenAt(src, p).text|;
        assert Lex(src, pos)[k] == Lex(src, pos)[1..][k - 1];
        p := TokenPlace(src, next, k - 1);
      }
    }
  }

  lemma TokenAtIs(src: string, p: nat)
    requires p < |src| && !IsSpace(src[p]) && src[p] != '#'
    ensures IsFrom(TokenAt(src, p), src, p) && TokenAt(src, p).kind != EndOfFile
    ensures GoodToken(TokenAt(src, p))
  {
    KindOfText(TokenAt(src, p).text);
  }

  lemma KindOfText(text: string)
    ensures KindOf(text) != EndOfFile
  {
  }

  // ---------------------------------------------------------------- one character at a time

  lemma NextChar(src: string, pos: nat)
    requires pos < |src|
    ensures src[pos..][0] == src[pos] && src[pos..][1..] == src[pos + 1..]
    ensures src[..pos + 1] == src[..pos] + [src[pos]]
  {
  }

  lemma NextSlice(src: string, from: nat, pos: nat)
    requires from <= pos < |src|
    ensures src[from..pos] + [src[pos]] == src[from..pos + 1]
  {
  }

  lemma AllDigitsNext(s: string, c: char)
    ensures AllDigits(s + [c]) == (AllDigits(s) && IsDigit(c))
  {
    if AllDigits(s + [c]) {
      forall k | 0 <= k < |s| ensures IsDigit(s[k]) {
        assert (s + [c])[k] == s[k];
      }
      assert (s + [c])[|s|] == c;
    }
  }

  lemma AllDigitsNone()
    ensures AllDigits("")
  {
  }

  lemma KindOfWord(s: string)
    requires |s| > 0 && !IsMark(s[0])
    ensures KindOf(s) == if AllDigits(s) then Num else Str
  {
  }

  lemma WordLenStep(src: string, pos: nat)
    requires pos <= |src|
    ensures WordLen(src[pos..]) == if pos == |src| || IsBreak(src[pos]) then 0 else 1 + WordLen(src[pos + 1..])
  {
    if pos < |src| {
      NextChar(src, pos);
    }
  }

  // ---------------------------------------------------------------- positions and kinds, counted

  /** A line break ends a line, and the next line begins at column 1. */
  lemma {:induction false} LinesAdd(a: string, b: string)
    ensures Line(a + "\n" + b) == Line(a) + Line(b)
    ensures Col(a + "\n" + b) == Col(b)
    ensures '\n' !in b ==> Line(b) == 1 && Col(b) == |b| + 1
    decreases |b|
  {
    var s := a + "\n" + b;
    if |b| == 0 {
      assert s[..|s| - 1] == a;
    } else {
      var init := b[..|b| - 1];
      assert s[..|s| - 1] == a + "\n" + init && s[|s| - 1] == b[|b| - 1];
      LinesAdd(a, init);
    }
  }

  /** Braces and semicolons are tokens by themselves, digits are a number, and any other word is a name. */
  lemma KindsAre(text: string)
    ensures KindOf("{") == LBrace && KindOf("}") == RBrace && KindOf(";") == Semi
    ensures IsWord(text) ==> KindOf(text) == if (forall k :: 0 <= k < |text| ==> '0' <= text[k] <= '9') then Num else Str
    ensures forall c :: IsBreak(c) <==> IsSpace(c) || c in "{};#"
  {
    if IsWord(text) && |text| == 1 {
      assert !IsBreak(text[0]);
    }
  }
}
