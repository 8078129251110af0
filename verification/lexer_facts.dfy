/** What the tokenizer promises: how `->` is merged, how identifiers are
    classified, that comments and line breaks emit nothing, where the EOF
    token lands, and the test examples. */
module LexerFacts {
  import opened Lexer

  /** A cursor on a non-blank character takes one turn of the loop from
      exactly where it stands. */
  lemma TurnFrom(src: string, cls: CharClasses, c: Cursor)
    requires c.pos < |src| && !IsBlank(src[c.pos])
    ensures SkipBlanks(src, cls, c) == c
    ensures LexFrom(src, cls, c) == NextStep(src, cls, c).emitted + LexFrom(src, cls, NextStep(src, cls, c).next)
  {
  }

  /** `-` followed by `>` is one arrow symbol, and lexing resumes after it. */
  lemma ArrowIsOneSymbol(src: string, cls: CharClasses, c: Cursor)
    requires c.pos + 1 < |src| && src[c.pos] == '-' && src[c.pos + 1] == '>'
    ensures LexFrom(src, cls, c) == [Token(Symbol, "->", c.line, c.column)] + LexFrom(src, cls, Cursor(c.pos + 2, c.line, c.column + 2))
  {
    TurnFrom(src, cls, c);
    ArrowStep(src, cls, c);
  }

  lemma ArrowStep(src: string, cls: CharClasses, c: Cursor)
    requires c.pos + 1 < |src| && src[c.pos] == '-' && src[c.pos + 1] == '>'
    ensures NextStep(src, cls, c) == Step([Token(Symbol, "->", c.line, c.column)], Cursor(c.pos + 2, c.line, c.column + 2))
  {
    assert IsSymbol('-');
  }

  /** A `-` not followed by `>`, and every other symbol character, is a
      one-character symbol. */
  lemma LoneSymbol(src: string, cls: CharClasses, c: Cursor)
    requires c.pos < |src| && IsSymbol(src[c.pos])
    requires !(src[c.pos] == '-' && c.pos + 1 < |src| && src[c.pos + 1] == '>')
    ensures LexFrom(src, cls, c) == [Token(Symbol, [src[c.pos]], c.line, c.column)] + LexFrom(src, cls, Cursor(c.pos + 1, c.line, c.column + 1))
  {
    TurnFrom(src, cls, c);
    LoneSymbolStep(src, cls, c);
  }

  lemma LoneSymbolStep(src: string, cls: CharClasses, c: Cursor)
    requires c.pos < |src| && IsSymbol(src[c.pos])
    requires !(src[c.pos] == '-' && c.pos + 1 < |src| && src[c.pos + 1] == '>')
    ensures NextStep(src, cls, c) == Step([Token(Symbol, [src[c.pos]], c.line, c.column)], Cursor(c.pos + 1, c.line, c.column + 1))
  {
    assert src[c.pos] != '#' && src[c.pos] != '"';
  }

  /** A letter or underscore starts an identifier turn: the token is the
      longest run of identifier characters (`ReadIdentifier`), a KEYWORD
      exactly when the run is reserved, and lexing resumes after the run. */
  lemma IdentifierStep(src: string, cls: CharClasses, c: Cursor)
    requires c.pos < |src| && (cls.alpha(src[c.pos]) || src[c.pos] == '_')
    requires !IsBlank(src[c.pos]) && !IsSymbol(src[c.pos]) && src[c.pos] != '#' && src[c.pos] != '"'
    ensures LexFrom(src, cls, c) == ReadIdentifier(src, cls, c).emitted + LexFrom(src, cls, ReadIdentifier(src, cls, c).next)
  {
    TurnFrom(src, cls, c);
    assert NextStep(src, cls, c) == ReadIdentifier(src, cls, c);
  }

  /** A quote starts a string turn: the token is the raw text up to the
      closing quote (`ReadString`), and lexing resumes after that quote. */
  lemma StringStep(src: string, cls: CharClasses, c: Cursor)
    requires c.pos < |src| && src[c.pos] == '"'
    ensures LexFrom(src, cls, c) == ReadString(src, c).emitted + LexFrom(src, cls, ReadString(src, c).next)
  {
    TurnFrom(src, cls, c);
    assert NextStep(src, cls, c) == ReadString(src, c);
  }

  /** A comment emits no token: lexing continues on the next line. */
  lemma CommentEmitsNothing(src: string, cls: CharClasses, c: Cursor)
    requires c.pos < |src| && src[c.pos] == '#'
    ensures LexFrom(src, cls, c) == LexFrom(src, cls, SkipLine(src, cls, c))
  {
    TurnFrom(src, cls, c);
  }

  /** A line break emits no token; it starts the next line at column 1. */
  lemma LineBreakEmitsNothing(src: string, cls: CharClasses, c: Cursor)
    requires c.pos < |src| && src[c.pos] == '\n' && LineBreakIsPlain(cls)
    ensures LexFrom(src, cls, c) == LexFrom(src, cls, Cursor(c.pos + 1, c.line + 1, 1))
  {
    TurnFrom(src, cls, c);
    LineBreakStep(src, cls, c);
    assert [] + LexFrom(src, cls, Cursor(c.pos + 1, c.line + 1, 1)) == LexFrom(src, cls, Cursor(c.pos + 1, c.line + 1, 1));
  }

  lemma LineBreakStep(src: string, cls: CharClasses, c: Cursor)
    requires c.pos < |src| && src[c.pos] == '\n' && LineBreakIsPlain(cls)
    ensures NextStep(src, cls, c) == Step([], Cursor(c.pos + 1, c.line + 1, 1))
  {
    assert !IsSymbol('\n');
  }

  function Min(a: int, b: int): int {
    if a <= b then a else b
  }

  /** The characters a turn passes over, up to the end of the source. */
  function Passed(src: string, c: Cursor, next: Cursor): string
    requires c.pos <= next.pos
  {
    src[Min(c.pos, |src|)..Min(next.pos, |src|)]
  }

  lemma SingleCount(ch: char)
    ensures NewlineCount([ch]) == if ch == '\n' then 1 else 0
  {
    assert [ch][..0] == [];
  }

  /** A run of characters with no line break among them. */
  lemma RunLines(src: string, c: Cursor, next: Cursor)
    requires c.pos <= next.pos <= |src|
    requires forall i :: c.pos <= i < next.pos ==> src[i] != '\n'
    ensures NewlineCount(Passed(src, c, next)) == 0
  {
    NewlineFree(Passed(src, c, next));
  }

  lemma StringLines(src: string, c: Cursor)
    requires c.pos < |src| && src[c.pos] == '"'
    ensures ReadString(src, c).next.line == c.line + NewlineCount(Passed(src, c, ReadString(src, c).next))
  {
    var s := ReadString(src, c);
    var body := src[c.pos + 1..s.next.pos - 1];
    NewlineCountConcat(['"'], body);
    SingleCount('"');
    if s.next.pos <= |src| {
      assert Passed(src, c, s.next) == ['"'] + body + ['"'];
      NewlineCountConcat(['"'] + body, ['"']);
    } else {
      assert Passed(src, c, s.next) == ['"'] + body;
    }
  }

  /** One turn of the loop advances the line by the line breaks it passed. */
  lemma NextStepLines(src: string, cls: CharClasses, c: Cursor)
    requires c.pos < |src| && LineBreakIsPlain(cls)
    ensures NextStep(src, cls, c).next.line == c.line + NewlineCount(Passed(src, c, NextStep(src, cls, c).next))
  {
    var ch := src[c.pos];
    if ch == '#' {
      assert NextStep(src, cls, c) == Step([], SkipLine(src, cls, c));
    } else if ch == '"' {
      assert NextStep(src, cls, c) == ReadString(src, c);
      StringLines(src, c);
    } else if IsSymbol(ch) {
      SymbolLines(src, cls, c);
    } else if cls.alpha(ch) || ch == '_' {
      var s := ReadIdentifier(src, cls, c);
      assert NextStep(src, cls, c) == s;
      RunLines(src, c, s.next);
    } else if cls.digit(ch) {
      var s := ReadNumber(src, cls, c);
      assert NextStep(src, cls, c) == s;
      RunLines(src, c, s.next);
    } else {
      OtherCharLines(src, cls, c);
    }
  }

  /** A symbol stays on its line. */
  lemma SymbolLines(src: string, cls: CharClasses, c: Cursor)
    requires c.pos < |src| && IsSymbol(src[c.pos])
    ensures NextStep(src, cls, c).next.line == c.line + NewlineCount(Passed(src, c, NextStep(src, cls, c).next))
  {
    var s := NextStep(src, cls, c);
    if src[c.pos] == '-' && c.pos + 1 < |src| && src[c.pos + 1] == '>' {
      ArrowStep(src, cls, c);
      assert IsSymbol(src[c.pos + 1]);
    } else {
      LoneSymbolStep(src, cls, c);
    }
    assert forall i :: c.pos <= i < s.next.pos ==> IsSymbol(src[i]);
    RunLines(src, c, s.next);
  }

  /** Any other character is passed over alone, and only a line break
      starts a new line. */
  lemma OtherCharLines(src: string, cls: CharClasses, c: Cursor)
    requires c.pos < |src| && LineBreakIsPlain(cls)
    requires src[c.pos] != '#' && src[c.pos] != '"' && !IsSymbol(src[c.pos])
    requires !(cls.alpha(src[c.pos]) || src[c.pos] == '_') && !cls.digit(src[c.pos])
    ensures NextStep(src, cls, c).next.line == c.line + NewlineCount(Passed(src, c, NextStep(src, cls, c).next))
  {
    var ch := src[c.pos];
    var s := NextStep(src, cls, c);
    assert s.next.pos == c.pos + 1;
    assert Passed(src, c, s.next) == [ch];
    SingleCount(ch);
  }

  lemma CountSplit(s: string, i: nat, j: nat)
    requires i <= j <= |s|
    ensures NewlineCount(s[i..]) == NewlineCount(s[i..j]) + NewlineCount(s[j..])
  {
    assert s[i..] == s[i..j] + s[j..];
    NewlineCountConcat(s[i..j], s[j..]);
  }

  /** A turn's tokens come before everything after it, so the last token
      is the last token of the rest. */
  lemma LastAfterTurn(src: string, cls: CharClasses, c: Cursor)
    requires c.pos < |src| && SkipBlanks(src, cls, c).pos < |src|
    ensures var r := LexFrom(src, cls, c);
      var rest := LexFrom(src, cls, NextStep(src, cls, SkipBlanks(src, cls, c)).next);
      r[|r| - 1] == rest[|rest| - 1]
  {
    var s := NextStep(src, cls, SkipBlanks(src, cls, c));
    LexFromTurn(src, cls, c);
    LastOfConcat(s.emitted, LexFrom(src, cls, s.next));
  }

  /** Past the blanks, a turn's tokens come first and lexing goes on after
      the turn. */
  lemma LexFromTurn(src: string, cls: CharClasses, c: Cursor)
    requires c.pos < |src| && SkipBlanks(src, cls, c).pos < |src|
    ensures var s := NextStep(src, cls, SkipBlanks(src, cls, c));
      LexFrom(src, cls, c) == s.emitted + LexFrom(src, cls, s.next)
  {
  }

  lemma LastOfConcat<T>(a: seq<T>, b: seq<T>)
    requires |b| > 0
    ensures (a + b)[|a + b| - 1] == b[|b| - 1]
  {
  }

  /** The EOF token stands on the line reached by counting every line
      break from the cursor to the end of the source. */
  lemma {:induction false} EofLine(src: string, cls: CharClasses, c: Cursor)
    requires c.pos <= |src| + 1 && LineBreakIsPlain(cls)
    ensures var r := LexFrom(src, cls, c); r[|r| - 1].line == c.line + NewlineCount(src[Min(c.pos, |src|)..])
    decreases |src| + 1 - c.pos
  {
    if c.pos >= |src| {
      assert src[Min(c.pos, |src|)..] == [];
    } else {
      var b := SkipBlanks(src, cls, c);
      if b.pos < |src| {
        EofLine(src, cls, NextStep(src, cls, b).next);
        EofLineAfterStep(src, cls, c);
      }
      EofLineAfterBlanks(src, cls, c);
    }
  }

  /** Skipping blanks passes no line break. */
  lemma EofLineAfterBlanks(src: string, cls: CharClasses, c: Cursor)
    requires c.pos < |src|
    requires var b := SkipBlanks(src, cls, c); var r := LexFrom(src, cls, c);
      b.pos < |src| ==> r[|r| - 1].line == b.line + NewlineCount(src[b.pos..])
    ensures var r := LexFrom(src, cls, c); r[|r| - 1].line == c.line + NewlineCount(src[c.pos..])
  {
    var b := SkipBlanks(src, cls, c);
    RunLines(src, c, b);
    assert Passed(src, c, b) == src[c.pos..b.pos];
    CountSplit(src, c.pos, b.pos);
    if b.pos == |src| {
      assert src[b.pos..] == [];
    }
  }

  /** One token step carries the line count of what it passes over. */
  lemma EofLineAfterStep(src: string, cls: CharClasses, c: Cursor)
    requires c.pos < |src| && SkipBlanks(src, cls, c).pos < |src| && LineBreakIsPlain(cls)
    requires var s := NextStep(src, cls, SkipBlanks(src, cls, c));
      var rest := LexFrom(src, cls, s.next);
      rest[|rest| - 1].line == s.next.line + NewlineCount(src[Min(s.next.pos, |src|)..])
    ensures var b := SkipBlanks(src, cls, c); var r := LexFrom(src, cls, c);
      r[|r| - 1].line == b.line + NewlineCount(src[b.pos..])
  {
    var b := SkipBlanks(src, cls, c);
    var s := NextStep(src, cls, b);
    NextStepLines(src, cls, b);
    LastAfterTurn(src, cls, c);
    CountSplit(src, b.pos, Min(s.next.pos, |src|));
  }

  /** Every token list of the source ends on the line one past the number
      of line breaks in it. */
  lemma TokenizeEofLine(src: string, cls: CharClasses)
    requires LineBreakIsPlain(cls)
    ensures var r := Tokenize(src, cls); r[|r| - 1].kind == Eof && r[|r| - 1].line == 1 + NewlineCount(src)
  {
    EofLine(src, cls, Cursor(0, 1, 1));
    assert src[0..] == src;
  }

  /** Blanks emit nothing: lexing from a cursor is lexing from past its
      blanks. */
  lemma BlanksEmitNothing(src: string, cls: CharClasses, c: Cursor)
    requires c.pos <= |src|
    ensures LexFrom(src, cls, c) == LexFrom(src, cls, SkipBlanks(src, cls, c))
  {
    var b := SkipBlanks(src, cls, c);
    if b.pos < |src| {
      TurnFrom(src, cls, b);
    }
  }

  /** The end of a run is determined by the run. */
  lemma {:induction false} RunEndAt(src: string, p: nat, cls: CharClasses, run: RunOf, e: nat)
    requires p <= e <= |src|
    requires forall i :: p <= i < e ==> Keeps(cls, run, src[i])
    requires e < |src| ==> !Keeps(cls, run, src[e])
    ensures RunEnd(src, p, cls, run) == e
    decreases e - p
  {
    if p < e {
      RunEndAt(src, p + 1, cls, run, e);
    }
  }

  const ArrowSource: string := "A -> B"

  /** Letters for `A` and `B`, and a space that is no letter or digit. */
  predicate ArrowClasses(cls: CharClasses) {
    cls.alpha('A') && cls.alpha('B') && !IsAlnum(cls, ' ')
  }

  lemma ArrowExampleLast(src: string, cls: CharClasses)
    requires src == ArrowSource && ArrowClasses(cls)
    ensures LexFrom(src, cls, Cursor(4, 1, 5)) == [Token(Identifier, "B", 1, 6), Token(Eof, "", 1, 7)]
  {
    assert src[4] == ' ' && src[5] == 'B' && |src| == 6;
    var last := LexFrom(src, cls, Cursor(6, 1, 7));
    RunEndAt(src, 5, cls, IdentifierRun, 6);
    IdentifierStep(src, cls, Cursor(5, 1, 6));
    assert src[5..6] == "B" && "B" !in Keywords;
    var fromB := LexFrom(src, cls, Cursor(5, 1, 6));
    assert fromB == [Token(Identifier, "B", 1, 6)] + last;
    RunEndAt(src, 4, cls, BlankRun, 5);
    BlanksEmitNothing(src, cls, Cursor(4, 1, 5));
  }

  lemma ArrowExampleTail(src: string, cls: CharClasses)
    requires src == ArrowSource && ArrowClasses(cls)
    ensures LexFrom(src, cls, Cursor(1, 1, 2)) == [
      Token(Symbol, "->", 1, 3), Token(Identifier, "B", 1, 6), Token(Eof, "", 1, 7)]
  {
    ArrowExampleBlank(src, cls);
    assert src[2] == '-' && src[3] == '>' && |src| == 6;
    ArrowIsOneSymbol(src, cls, Cursor(2, 1, 3));
    ArrowExampleLast(src, cls);
    PrependToPair(Token(Symbol, "->", 1, 3), Token(Identifier, "B", 1, 6), Token(Eof, "", 1, 7));
  }

  lemma ArrowExampleBlank(src: string, cls: CharClasses)
    requires src == ArrowSource && ArrowClasses(cls)
    ensures LexFrom(src, cls, Cursor(1, 1, 2)) == LexFrom(src, cls, Cursor(2, 1, 3))
  {
    assert src[1] == ' ' && src[2] == '-' && |src| == 6;
    RunEndAt(src, 1, cls, BlankRun, 2);
    BlanksEmitNothing(src, cls, Cursor(1, 1, 2));
  }

  lemma PrependToPair<T>(a: T, b: T, c: T)
    ensures [a] + [b, c] == [a, b, c]
  {
  }

  /** `A -> B` lexes to two identifiers around a single arrow, whatever
      the character classes, as long as `A` and `B` are letters. */
  lemma ArrowExample(src: string, cls: CharClasses)
    requires src == ArrowSource && ArrowClasses(cls)
    ensures Tokenize(src, cls) == [
      Token(Identifier, "A", 1, 1), Token(Symbol, "->", 1, 3),
      Token(Identifier, "B", 1, 6), Token(Eof, "", 1, 7)]
  {
    ArrowExampleTail(src, cls);
    ArrowExampleFirst(src, cls);
    PrependOne(Token(Identifier, "A", 1, 1), Token(Symbol, "->", 1, 3), Token(Identifier, "B", 1, 6), Token(Eof, "", 1, 7));
  }

  lemma PrependOne<T>(a: T, b: T, c: T, d: T)
    ensures [a] + [b, c, d] == [a, b, c, d]
  {
  }

  lemma ArrowExampleFirst(src: string, cls: CharClasses)
    requires src == ArrowSource && ArrowClasses(cls)
    ensures LexFrom(src, cls, Cursor(0, 1, 1)) == [Token(Identifier, "A", 1, 1)] + LexFrom(src, cls, Cursor(1, 1, 2))
  {
    assert src[0] == 'A' && src[1] == ' ' && |src| == 6;
    assert "A" !in Keywords;
    assert src[0..1] == "A";
    RunEndAt(src, 0, cls, IdentifierRun, 1);
    IdentifierStep(src, cls, Cursor(0, 1, 1));
  }
}
