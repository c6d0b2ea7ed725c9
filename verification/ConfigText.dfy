/** Which configurations have a text: the tokens of a file, and the words they can be written with. */
module ConfigText {
  import opened Lexing
  import opened ConfigValues
  import opened ConfigGrammar
  import opened ConfigTokens
  import Bytes

  // ---------------------------------------------------------------- tokens that have a text

  /** A text that is lexed as a name. */
  predicate NameText(s: string) {
    IsWord(s) && !AllDigits(s)
  }

  predicate Printable(w: Word) {
    match w
    case Name(text) => NameText(text)
    case Number(digits) => |digits| > 0
    case End => false
    case _ => true
  }

  predicate AllPrintable(ws: seq<Word>) {
    forall k :: 0 <= k < |ws| ==> Printable(ws[k])
  }

  /** Tokens with a text, and one end behind them. */
  predicate OneEnd(ws: seq<Word>) {
    |ws| > 0 && ws[|ws| - 1] == End && forall k :: 0 <= k < |ws| - 1 ==> Printable(ws[k])
  }

  lemma OneEndMore(a: seq<Word>, b: seq<Word>)
    requires |b| > 0
    ensures OneEnd(a + b) <==> AllPrintable(a) && OneEnd(b)
  {
    var ws := a + b;
    if OneEnd(ws) {
      forall k | 0 <= k < |a| ensures Printable(a[k]) {
        assert ws[k] == a[k];
      }
      forall k | 0 <= k < |b| - 1 ensures Printable(b[k]) {
        assert ws[|a| + k] == b[k];
      }
    }
  }

  /** Words, each with a blank in front, up to the end. */
  function Spaced(ws: seq<Word>): seq<Item>
    decreases |ws|
  {
    if |ws| <= 1 then [] else [Item(" ", Text(ws[0]))] + Spaced(ws[1..])
  }

  lemma ItemOfWord(before: string, w: Word)
    requires Printable(w)
    ensures IsText(Text(w)) && WordOf(ItemAt(before, Item(" ", Text(w)))) == w
  {
    hide Line, Col;
    if w.Number? {
      assert forall k :: 0 <= k < |w.digits| ==> IsDigit(w.digits[k]);
    }
  }

  lemma WordOfItem(before: string, item: Item)
    requires IsText(item.text)
    ensures Printable(WordOf(ItemAt(before, item)))
  {
    hide Line, Col;
  }

  lemma WordsStep(t: Token, rest: seq<Token>)
    ensures Words([t] + rest) == [WordOf(t)] + Words(rest)
  {
  }

  lemma SpacedIs(w: Word, rest: seq<Word>)
    requires |rest| > 0
    ensures Spaced([w] + rest) == [Item(" ", Text(w))] + Spaced(rest)
  {
    assert ([w] + rest)[1..] == rest;
  }

  lemma ExpectedIs(item: Item, items: seq<Item>, last: string, before: string)
    ensures Expected([item] + items, last, before) == [ItemAt(before, item)] + Expected(items, last, Behind(before, item))
  {
    assert ([item] + items)[1..] == items;
  }

  lemma WellSpacedIs(text: string, items: seq<Item>, last: string, word: bool)
    requires IsText(text) && WellSpaced(items, last, IsWord(text))
    ensures WellSpaced([Item(" ", text)] + items, last, word)
  {
    assert ([Item(" ", text)] + items)[1..] == items;
    hide IsText, IsWord;
  }

  /** Tokens with a text are lexed from it. */
  lemma {:induction false} SpacedLexes(ws: seq<Word>, before: string, word: bool)
    requires OneEnd(ws)
    ensures WellSpaced(Spaced(ws), "", word) && Words(Expected(Spaced(ws), "", before)) == ws
    decreases |ws|
  {
    if |ws| == 1 {
      LastWord(before);
      assert ws == [End];
    } else {
      var w, rest := ws[0], ws[1..];
      assert ws == [w] + rest;
      var item := Item(" ", Text(w));
      hide Text, Behind, ItemAt, Words, WordOf, Spaced, Expected, WellSpaced;
      ItemOfWord(before, w);
      SpacedLexes(rest, Behind(before, item), IsWord(item.text));
      hide OneEnd, Printable, IsText, IsWord;
      SpacedIs(w, rest);
      WellSpacedIs(item.text, Spaced(rest), "", word);
      ExpectedIs(item, Spaced(rest), "", before);
      WordsStep(ItemAt(before, item), Expected(Spaced(rest), "", Behind(before, item)));
    }
  }

  lemma LastWord(before: string)
    ensures Words(Expected([], "", before)) == [End] && WellSpaced([], "", false) && WellSpaced([], "", true)
  {
  }

  /** All tokens of a text have one. */
  lemma {:induction false} ExpectedOneEnd(items: seq<Item>, last: string, before: string, word: bool)
    requires WellSpaced(items, last, word)
    ensures OneEnd(Words(Expected(items, last, before)))
    decreases |items|
  {
    hide Line, Col, WordOf, ItemAt, IsText, Printable, IsGap, IsWord;
    if |items| == 0 {
      assert Words(Expected(items, last, before)) == [End] by {
        EndWord(last, before);
      }
    } else {
      var rest := Expected(items[1..], last, Behind(before, items[0]));
      WordOfItem(before, items[0]);
      ExpectedOneEnd(items[1..], last, Behind(before, items[0]), IsWord(items[0].text));
      WordsStep(ItemAt(before, items[0]), rest);
      OneEndMore([WordOf(ItemAt(before, items[0]))], Words(rest));
    }
  }

  lemma EndWord(last: string, before: string)
    ensures Words(Expected([], last, before)) == [End]
  {
  }

  lemma TokensOneEnd(text: string)
    ensures OneEnd(Words(Lex(text, 0)))
  {
    Renders(text, false);
    Bytes.Alone(text);
    LexRendered(text, "", Items(text), LastGap(text), false);
    ExpectedOneEnd(Items(text), LastGap(text), "", false);
  }

  /** Tokens are those of some text exactly when each has one and the end comes once. */
  lemma TextIff(ws: seq<Word>)
    ensures (exists items, last :: WellSpaced(items, last, false) && Words(Expected(items, last, "")) == ws) <==> OneEnd(ws)
  {
    hide WellSpaced, Expected, Words;
    forall items, last | WellSpaced(items, last, false) && Words(Expected(items, last, "")) == ws ensures OneEnd(ws) {
      ExpectedOneEnd(items, last, "", false);
    }
    if OneEnd(ws) {
      SpacedLexes(ws, "", false);
    }
  }

  // ---------------------------------------------------------------- items that have a text

  predicate DirectivePrintable(d: Directive) {
    NameText(d.name) && AllPrintable(d.args)
  }

  predicate DirectivesPrintable(dirs: seq<Directive>) {
    forall k :: 0 <= k < |dirs| ==> DirectivePrintable(dirs[k])
  }

  predicate ItemPrintable(item: BlockItem) {
    match item
    case Plain(d) => DirectivePrintable(d)
    case Block(path, dirs) => NameText(path) && DirectivesPrintable(dirs)
  }

  predicate ItemsPrintable(items: seq<BlockItem>) {
    forall k :: 0 <= k < |items| ==> ItemPrintable(items[k])
  }

  predicate FilePrintable(file: seq<seq<BlockItem>>) {
    forall k :: 0 <= k < |file| ==> ItemsPrintable(file[k])
  }

  lemma WrittenDirective(d: Directive, more: seq<Word>)
    requires |more| > 0
    ensures OneEnd(WriteDirective(d, more)) <==> DirectivePrintable(d) && OneEnd(more)
  {
    hide NameText;
    OneEndMore([Name(d.name)], d.args + ([Semicolon] + more));
    OneEndMore(d.args, [Semicolon] + more);
    OneEndMore([Semicolon], more);
    assert AllPrintable([Name(d.name)]) <==> NameText(d.name) by {
      assert [Name(d.name)][0] == Name(d.name);
    }
    hide AllPrintable, OneEnd;
  }

  lemma {:induction false} WrittenDirectives(dirs: seq<Directive>, more: seq<Word>)
    requires |more| > 0
    ensures |WriteDirectives(dirs, more)| > 0
    ensures OneEnd(WriteDirectives(dirs, more)) <==> DirectivesPrintable(dirs) && OneEnd(more)
    decreases |dirs|
  {
    hide OneEnd, DirectivePrintable;
    if |dirs| > 0 {
      WrittenDirectives(dirs[1..], more);
      WrittenDirective(dirs[0], WriteDirectives(dirs[1..], more));
      assert DirectivesPrintable(dirs) <==> DirectivePrintable(dirs[0]) && DirectivesPrintable(dirs[1..]) by {
        assert dirs == [dirs[0]] + dirs[1..];
      }
    }
  }

  lemma WordNames()
    ensures NameText("location") && NameText("server")
  {
    assert !IsDigit("location"[0]) && !IsDigit("server"[0]);
  }

  lemma WrittenItem(item: BlockItem, more: seq<Word>)
    requires |more| > 0
    ensures |WriteItem(item, more)| > 0
    ensures OneEnd(WriteItem(item, more)) <==> ItemPrintable(item) && OneEnd(more)
  {
    match item
    case Plain(d) =>
      WrittenDirective(d, more);
      hide OneEnd, DirectivePrintable;
    case Block(path, dirs) =>
      WordNames();
      hide NameText, DirectivesPrintable;
      OneEndMore([Name("location"), Name(path), Open], WriteDirectives(dirs, [Close] + more));
      WrittenDirectives(dirs, [Close] + more);
      OneEndMore([Close], more);
      ThreePrintable(path);
      hide OneEnd, AllPrintable;
  }

  lemma ThreePrintable(path: string)
    ensures AllPrintable([Name("location"), Name(path), Open]) <==> NameText(path)
    ensures AllPrintable([Name("server"), Open]) && AllPrintable([Close])
  {
    WordNames();
    hide NameText;
    assert [Name("location"), Name(path), Open][1] == Name(path);
  }

  lemma {:induction false} WrittenItems(items: seq<BlockItem>, more: seq<Word>)
    requires |more| > 0
    ensures |WriteItems(items, more)| > 0
    ensures OneEnd(WriteItems(items, more)) <==> ItemsPrintable(items) && OneEnd(more)
    decreases |items|
  {
    hide OneEnd, ItemPrintable;
    if |items| > 0 {
      WrittenItems(items[1..], more);
      WrittenItem(items[0], WriteItems(items[1..], more));
      assert ItemsPrintable(items) <==> ItemPrintable(items[0]) && ItemsPrintable(items[1..]) by {
        assert items == [items[0]] + items[1..];
      }
    }
  }

  /** A written file is the tokens of a text exactly when its items have one and nothing stands behind its end. */
  lemma {:induction false} WrittenFile(file: seq<seq<BlockItem>>, more: seq<Word>)
    ensures |Write(file, more)| > 0
    ensures OneEnd(Write(file, more)) <==> FilePrintable(file) && more == []
    decreases |file|
  {
    hide ItemsPrintable;
    if |file| == 0 {
      assert more != [] ==> ([End] + more)[0] == End;
    } else {
      hide OneEnd;
      var rest := Write(file[1..], more);
      WrittenFile(file[1..], more);
      ThreePrintable("");
      OneEndMore([Name("server"), Open], WriteItems(file[0], [Close] + rest));
      WrittenItems(file[0], [Close] + rest);
      OneEndMore([Close], rest);
      hide AllPrintable;
      assert FilePrintable(file) <==> ItemsPrintable(file[0]) && FilePrintable(file[1..]) by {
        assert file == [file[0]] + file[1..];
      }
    }
  }
}
