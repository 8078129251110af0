/** The tokenizer of the ontology language: one pass over the source
    characters, tracking line and column. Source: core/interpreter.py. */
module Lexer {

  datatype TokenKind = Keyword | Identifier | Str | Symbol | Number | Newline | Eof

  datatype Token = Token(kind: TokenKind, text: string, line: int, column: int)

  /** The reserved words; matching is case-sensitive. */
  const Keywords: set<string> := {
    "ONTOLOGY", "OBJECT", "MORPHISM", "FUNCTOR",
    "OPERATION", "VALIDATE", "WITH",
    "MAP", "RULE",
    "COPRODUCT", "PRODUCT", "PULLBACK", "PUSHOUT", "DIFFERENCE",
    "APPLY", "COMPOSE",
    "attributes", "semantic", "type"
  }

  /** Python's Unicode character predicates, given as parameters: letters
      (`isalpha`), digits (`isdigit`) and the other numeric characters;
      `isalnum` is their union. */
  datatype CharClasses = CharClasses(alpha: char -> bool, digit: char -> bool, numeric: char -> bool)

  predicate IsAlnum(cls: CharClasses, ch: char) {
    cls.alpha(ch) || cls.digit(ch) || cls.numeric(ch)
  }

  /** The ASCII restriction of Python's predicates. */
  function Ascii(): CharClasses {
    CharClasses(
      ch => 'a' <= ch <= 'z' || 'A' <= ch <= 'Z',
      ch => '0' <= ch <= '9',
      ch => false)
  }

  /** A line break is neither a letter nor a digit, as in Python. */
  predicate LineBreakIsPlain(cls: CharClasses) {
    !IsAlnum(cls, '\n')
  }

  predicate IsBlank(ch: char) {
    ch == ' ' || ch == '\t' || ch == '\r'
  }

  predicate IsSymbol(ch: char) {
    ch in "{}[]():,->="
  }

  predicate IdentifierChar(cls: CharClasses, ch: char) {
    IsAlnum(cls, ch) || ch == '_'
  }

  predicate NumberChar(cls: CharClasses, ch: char) {
    cls.digit(ch) || ch == '.'
  }

  /** Where the lexer stands: index into the source, line, column. */
  datatype Cursor = Cursor(pos: nat, line: int, column: int)

  /** The kinds of character run the lexer reads in one go. */
  datatype RunOf = BlankRun | CommentRun | IdentifierRun | NumberRun

  predicate Keeps(cls: CharClasses, run: RunOf, ch: char) {
    match run
    case BlankRun => IsBlank(ch)
    case CommentRun => ch != '\n'
    case IdentifierRun => IdentifierChar(cls, ch)
    case NumberRun => NumberChar(cls, ch)
  }

  /** The end of the run of characters of kind `run` that starts at `p`. */
  function RunEnd(src: string, p: nat, cls: CharClasses, run: RunOf): (e: nat)
    requires p <= |src|
    ensures p <= e <= |src|
    ensures forall i :: p <= i < e ==> Keeps(cls, run, src[i])
    ensures e < |src| ==> !Keeps(cls, run, src[e])
    decreases |src| - p
  {
    if p == |src| || !Keeps(cls, run, src[p]) then p else RunEnd(src, p + 1, cls, run)
  }

  /** The number of line breaks in `s`. */
  function NewlineCount(s: string): nat {
    if |s| == 0 then 0 else NewlineCount(s[..|s| - 1]) + (if s[|s| - 1] == '\n' then 1 else 0)
  }

  lemma {:induction false} NewlineCountConcat(a: string, b: string)
    ensures NewlineCount(a + b) == NewlineCount(a) + NewlineCount(b)
    decreases |b|
  {
    if |b| == 0 {
      assert a + b == a;
    } else {
      assert (a + b)[..|a + b| - 1] == a + b[..|b| - 1];
      assert (a + b)[|a + b| - 1] == b[|b| - 1];
      NewlineCountConcat(a, b[..|b| - 1]);
    }
  }

  lemma {:induction false} NewlineFree(s: string)
    requires forall i :: 0 <= i < |s| ==> s[i] != '\n'
    ensures NewlineCount(s) == 0
    decreases |s|
  {
    if |s| > 0 {
      NewlineFree(s[..|s| - 1]);
    }
  }

  /** `_skip_whitespace`: spaces, tabs and carriage returns. */
  function SkipBlanks(src: string, cls: CharClasses, c: Cursor): (r: Cursor)
    requires c.pos <= |src|
    ensures c.pos <= r.pos <= |src| && r.line == c.line && r.column == c.column + (r.pos - c.pos)
    ensures forall i :: c.pos <= i < r.pos ==> IsBlank(src[i])
    ensures r.pos < |src| ==> !IsBlank(src[r.pos])
  {
    var e := RunEnd(src, c.pos, cls, BlankRun);
    Cursor(e, c.line, c.column + (e - c.pos))
  }

  /** `_skip_line`: everything up to and including the first line break;
      the column is reset only when a line break was found, since the loop
      itself never advances it. */
  function SkipLine(src: string, cls: CharClasses, c: Cursor): (r: Cursor)
    requires c.pos < |src|
    ensures c.pos < r.pos <= |src|
    ensures r.line == c.line + NewlineCount(src[c.pos..r.pos])
    ensures r.pos < |src| ==> src[r.pos - 1] == '\n'
    ensures forall i :: c.pos <= i < r.pos - 1 ==> src[i] != '\n'
    ensures src[r.pos - 1] == '\n' ==> r.line == c.line + 1 && r.column == 1
    ensures src[r.pos - 1] != '\n' ==> r.pos == |src| && r.line == c.line && r.column == c.column
  {
    var e := RunEnd(src, c.pos, cls, CommentRun);
    NewlineFree(src[c.pos..e]);
    if e < |src| then
      NewlineCountConcat(src[c.pos..e], [src[e]]);
      assert src[c.pos..e + 1] == src[c.pos..e] + [src[e]];
      Cursor(e + 1, c.line + 1, 1)
    else
      Cursor(e, c.line, c.column)
  }

  /** The loop of `_read_string`: up to the closing quote or the end of the
      source. A line break resets the column to 1 before the column is
      advanced, so the character after it stands at column 2. */
  function ScanString(src: string, p: nat, line: int, column: int): (r: Cursor)
    requires p <= |src|
    ensures p <= r.pos <= |src|
    ensures forall i :: p <= i < r.pos ==> src[i] != '"'
    ensures r.pos < |src| ==> src[r.pos] == '"'
    ensures r.line == line + NewlineCount(src[p..r.pos])
    decreases |src| - p
  {
    if p == |src| || src[p] == '"' then Cursor(p, line, column)
    else
      var r := ScanString(src, p + 1, if src[p] == '\n' then line + 1 else line, if src[p] == '\n' then 2 else column + 1);
      assert src[p..r.pos] == [src[p]] + src[p + 1..r.pos];
      NewlineCountConcat([src[p]], src[p + 1..r.pos]);
      assert NewlineCount([src[p]]) == if src[p] == '\n' then 1 else 0 by {
        assert [src[p]][..0] == [];
      }
      r
  }

  datatype Step = Step(emitted: seq<Token>, next: Cursor)

  /** `_read_string`: the raw text between the quotes, without escape
      processing. The token carries the line the string ends on and the
      column it starts at. An unterminated string runs to the end of the
      source and leaves the position one past it. */
  function ReadString(src: string, c: Cursor): (r: Step)
    requires c.pos < |src| && src[c.pos] == '"'
    ensures |r.emitted| == 1 && r.emitted[0].kind == Str && r.emitted[0].column == c.column
    ensures c.pos + 1 < r.next.pos <= |src| + 1
    ensures r.emitted[0].text == src[c.pos + 1..r.next.pos - 1]
    ensures '"' !in r.emitted[0].text
    ensures r.next.pos <= |src| ==> src[r.next.pos - 1] == '"'
    ensures r.next.line == c.line + NewlineCount(src[c.pos + 1..r.next.pos - 1]) == r.emitted[0].line
  {
    var e := ScanString(src, c.pos + 1, c.line, c.column + 1);
    var text := src[c.pos + 1..e.pos];
    assert forall i :: 0 <= i < |text| ==> text[i] == src[c.pos + 1 + i];
    Step([Token(Str, text, e.line, c.column)], Cursor(e.pos + 1, e.line, e.column + 1))
  }

  /** `_read_identifier`: the maximal run of alphanumerics and underscores;
      a keyword exactly when the text is reserved. */
  function ReadIdentifier(src: string, cls: CharClasses, c: Cursor): (r: Step)
    requires c.pos < |src| && IdentifierChar(cls, src[c.pos])
    ensures |r.emitted| == 1 && r.emitted[0].line == c.line && r.emitted[0].column == c.column
    ensures c.pos < r.next.pos <= |src| && r.next.line == c.line
    ensures r.emitted[0].text == src[c.pos..r.next.pos]
    ensures forall i :: c.pos <= i < r.next.pos ==> IdentifierChar(cls, src[i])
    ensures r.next.pos < |src| ==> !IdentifierChar(cls, src[r.next.pos])
    ensures r.emitted[0].kind == (if r.emitted[0].text in Keywords then Keyword else Identifier)
  {
    var e := RunEnd(src, c.pos, cls, IdentifierRun);
    var text := src[c.pos..e];
    Step([Token(if text in Keywords then Keyword else Identifier, text, c.line, c.column)], Cursor(e, c.line, c.column + (e - c.pos)))
  }

  /** `_read_number`: the maximal run of digits and dots. */
  function ReadNumber(src: string, cls: CharClasses, c: Cursor): (r: Step)
    requires c.pos < |src| && cls.digit(src[c.pos])
    ensures |r.emitted| == 1 && r.emitted[0].kind == Number
    ensures r.emitted[0].line == c.line && r.emitted[0].column == c.column
    ensures c.pos < r.next.pos <= |src| && r.next.line == c.line
    ensures r.emitted[0].text == src[c.pos..r.next.pos]
    ensures forall i :: c.pos <= i < r.next.pos ==> NumberChar(cls, src[i])
    ensures r.next.pos < |src| ==> !NumberChar(cls, src[r.next.pos])
  {
    var e := RunEnd(src, c.pos, cls, NumberRun);
    Step([Token(Number, src[c.pos..e], c.line, c.column)], Cursor(e, c.line, c.column + (e - c.pos)))
  }

  /** One turn of the `tokenize` loop, from a non-blank character. */
  function NextStep(src: string, cls: CharClasses, c: Cursor): (r: Step)
    requires c.pos < |src|
    ensures c.pos < r.next.pos <= |src| + 1
    ensures |r.emitted| <= 1
    ensures forall t :: t in r.emitted ==> t.kind != Eof && t.kind != Newline
  {
    var ch := src[c.pos];
    if ch == '#' then Step([], SkipLine(src, cls, c))
    else if ch == '"' then ReadString(src, c)
    else if IsSymbol(ch) then
      if ch == '-' && c.pos + 1 < |src| && src[c.pos + 1] == '>' then
        Step([Token(Symbol, "->", c.line, c.column)], Cursor(c.pos + 2, c.line, c.column + 2))
      else
        Step([Token(Symbol, [ch], c.line, c.column)], Cursor(c.pos + 1, c.line, c.column + 1))
    else if cls.alpha(ch) || ch == '_' then ReadIdentifier(src, cls, c)
    else if cls.digit(ch) then ReadNumber(src, cls, c)
    else if ch == '\n' then Step([], Cursor(c.pos + 1, c.line + 1, 1))
    else Step([], Cursor(c.pos + 1, c.line, c.column + 1))
  }

  /** The tokens from cursor `c` on: every turn of the loop, then EOF. */
  function LexFrom(src: string, cls: CharClasses, c: Cursor): (r: seq<Token>)
    requires c.pos <= |src| + 1
    ensures |r| >= 1 && r[|r| - 1].kind == Eof
    decreases |src| + 1 - c.pos
  {
    if c.pos >= |src| then [Token(Eof, "", c.line, c.column)]
    else
      var b := SkipBlanks(src, cls, c);
      if b.pos == |src| then [Token(Eof, "", b.line, b.column)]
      else
        var s := NextStep(src, cls, b);
        s.emitted + LexFrom(src, cls, s.next)
  }

  /** The token list ends with its only EOF token, whose text is empty,
      and holds no NEWLINE token. */
  predicate WellEnded(r: seq<Token>) {
    && |r| >= 1 && r[|r| - 1].kind == Eof && r[|r| - 1].text == ""
    && (forall i :: 0 <= i < |r| - 1 ==> r[i].kind != Eof)
    && (forall i :: 0 <= i < |r| ==> r[i].kind != Newline)
  }

  lemma {:induction false} LexFromWellEnded(src: string, cls: CharClasses, c: Cursor)
    requires c.pos <= |src| + 1
    ensures WellEnded(LexFrom(src, cls, c))
    decreases |src| + 1 - c.pos
  {
    if c.pos < |src| {
      var b := SkipBlanks(src, cls, c);
      if b.pos < |src| {
        var s := NextStep(src, cls, b);
        LexFromWellEnded(src, cls, s.next);
        TurnThenRest(s.emitted, LexFrom(src, cls, s.next));
      }
    }
  }

  /** A turn's tokens, none of them EOF or NEWLINE, before the rest of the
      list keep the rest's shape. */
  lemma TurnThenRest(emitted: seq<Token>, rest: seq<Token>)
    requires forall t :: t in emitted ==> t.kind != Eof && t.kind != Newline
    requires WellEnded(rest)
    ensures WellEnded(emitted + rest)
  {
    var r := emitted + rest;
    forall i | 0 <= i < |r|
      ensures r[i].kind != Newline
      ensures i < |r| - 1 ==> r[i].kind != Eof
    {
      if i < |emitted| {
        assert r[i] == emitted[i] && emitted[i] in emitted;
      } else {
        assert r[i] == rest[i - |emitted|];
      }
    }
  }

  /** `tokenize`: the token list always ends with its only EOF token and
      holds no NEWLINE token. */
  function Tokenize(src: string, cls: CharClasses): (r: seq<Token>)
    ensures WellEnded(r)
  {
    LexFromWellEnded(src, cls, Cursor(0, 1, 1));
    LexFrom(src, cls, Cursor(0, 1, 1))
  }
}
