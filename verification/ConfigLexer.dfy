/** The lexer of webserv/sources/parser/Lexer.cpp, character by character, against `Lexing`. */
module ConfigLexer {
  import opened Lexing
  import Bytes

  class Lexer {
    const src: string
    var pos: nat
    var line: nat
    var col: nat

    /** The position is in the source, and line and column are those of the position. */
    predicate Valid()
      reads this
    {
      pos <= |src| && line == Line(src[..pos]) && col == Col(src[..pos])
    }

    constructor (input: string)
      ensures Valid() && src == input && pos == 0
    {
      src := input;
      pos, col, line := 0, 1, 1;
    }

    predicate Eof()
      reads this
    {
      pos >= |src|
    }

    /** The next character, which is not the end. */
    function Peek(): (c: char)
      requires !Eof()
      reads this
    {
      src[pos]
    }

    method Get() returns (c: char)
      requires Valid() && !Eof()
      modifies this
      ensures Valid() && pos == old(pos) + 1 && c == src[old(pos)]
    {
      c := Peek();
      assert src[..pos + 1][..pos] == src[..pos];
      pos := pos + 1;
      if c == '\n' {
        line := line + 1;
        col := 1;
      } else {
        col := col + 1;
      }
    }

    /** Passes over whitespace and comments. */
    method Skip()
      requires Valid()
      modifies this
      ensures Valid() && pos == Start(src, old(pos))
    {
      while !Eof()
        invariant Valid() && old(pos) + SkipLen(src[old(pos)..]) == pos + SkipLen(src[pos..])
        decreases |src| - pos
      {
        assert src[pos..][0] == src[pos] && src[pos..][1..] == src[pos + 1..];
        var c := Peek();
        if Bytes.IsSpace(c) {
          c := Get();
          continue;
        }
        if c == '#' {
          SkipComment();
          continue;
        }
        break;
      }
    }

    method SkipComment()
      requires Valid() && !Eof() && src[pos] == '#'
      modifies this
      ensures Valid() && pos == old(pos) + CommentLen(src[old(pos)..]) && old(pos) < pos
      ensures src[pos..] == src[old(pos)..][CommentLen(src[old(pos)..])..]
    {
      assert CommentLen(src[pos..]) > 0 by {
        assert src[pos..][0] == '#';
      }
      while !Eof() && Peek() != '\n'
        invariant Valid() && old(pos) + CommentLen(src[old(pos)..]) == pos + CommentLen(src[pos..])
        decreases |src| - pos
      {
        assert src[pos..][0] == src[pos] && src[pos..][1..] == src[pos + 1..];
        var c := Get();
      }
      assert !Eof() ==> src[pos..][0] == '\n';
    }

    /** A word or a number. */
    method StringToken() returns (token: Token)
      requires Valid() && !Eof() && !IsBreak(src[pos])
      modifies this
      ensures Valid() && old(pos) < pos == old(pos) + WordLen(src[old(pos)..])
      ensures token == Token(KindOf(src[old(pos)..pos]), src[old(pos)..pos], old(line), old(col))
    {
      hide WordLen, Line, Col, AllDigits, KindOf, IsDigit;
      var tLine, tCol := line, col;
      var out := "";
      var isNum := true;
      AllDigitsNone();
      while !Eof()
        invariant Valid() && old(pos) <= pos && out == src[old(pos)..pos]
        invariant old(pos) + WordLen(src[old(pos)..]) == pos + WordLen(src[pos..])
        invariant isNum == AllDigits(out)
        invariant pos == old(pos) ==> !Eof() && !IsBreak(src[pos])
        invariant |out| > 0 ==> !IsMark(out[0])
        decreases |src| - pos
      {
        WordLenStep(src, pos);
        var c := Peek();
        if IsBreak(c) {
          break;
        }
        if !IsDigit(c) {
          isNum := false;
        }
        NextSlice(src, old(pos), pos);
        AllDigitsNext(out, c);
        var g := Get();
        out := out + [g];
      }
      WordLenStep(src, pos);
      KindOfWord(out);
      token := Token(Str, out, tLine, tCol);
      if out != "" && isNum {
        token := token.(kind := Num);
      }
    }

    /** All tokens, the last one the end of file. */
    method Tokenize() returns (tokens: seq<Token>)
      requires Valid() && pos == 0
      modifies this
      ensures tokens == Lex(src, 0)
    {
      tokens := [];
      hide TokenAt, Line, Col, Lex, Start;
      while true
        invariant Valid() && Lex(src, 0) == tokens + Lex(src, pos)
        decreases |src| - pos
      {
        ghost var rest := Lex(src, pos);
        LexStep(src, pos);
        Skip();
        if Eof() {
          assert src[..pos] == src;
          tokens := tokens + [Token(EndOfFile, "", line, col)];
          return;
        }
        var token := NextToken();
        Shift(tokens, token, Lex(src, pos), rest);
        tokens := tokens + [token];
      }
    }

    /** The token at the position. */
    method NextToken() returns (token: Token)
      requires Valid() && !Eof() && !Bytes.IsSpace(src[pos]) && src[pos] != '#'
      modifies this
      ensures token == TokenAt(src, old(pos)) && Valid() && pos == old(pos) + |token.text|
    {
      hide Line, Col, SkipLen, CommentLen;
      assert src[pos..][0] == src[pos];
      assert src[pos..pos + 1] == [src[pos]];
      var c := Peek();
      if c == '{' {
        token := Token(LBrace, "{", line, col);
        c := Get();
      } else if c == '}' {
        token := Token(RBrace, "}", line, col);
        c := Get();
      } else if c == ';' {
        token := Token(Semi, ";", line, col);
        c := Get();
      } else {
        token := StringToken();
      }
    }
  }
}
