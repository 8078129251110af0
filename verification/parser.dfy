/** The recursive-descent parser and the interpreter entry point of the
    ontology language. Each production reads tokens from a position and
    returns the position after what it read; the three symbol tables the
    parser fills (ontologies, functors, operation results) are threaded
    explicitly. Python's exceptions (`SyntaxError`, the `KeyError` of an
    enum lookup) become the `Failure` side of a `Result`.
    Source: core/interpreter.py. */
module Parsing {
  import opened Wrappers
  import opened Tables
  import opened Dsl
  import opened Functors
  import opened Operations
  import opened Pairings
  import opened Differences
  import opened Lexer

  datatype ParseError =
    | SyntaxError(expected: TokenKind, value: string, position: nat)
    | UnknownMorphismType(typeName: string)
    | UnknownValidationLevel(levelName: string)

  /** A value read by a production, and the position after it. */
  datatype Parsed<T> = Parsed(value: T, next: nat)

  /** The parser's symbol tables. Only looked up, never iterated, so plain
      maps model them. */
  datatype Env = Env(
    ontologies: map<string, Category>,
    functors: map<string, Functor>,
    results: map<string, Category>)

  function EmptyEnv(): Env {
    Env(map[], map[], map[])
  }

  /** Every category the interpreter keeps is a valid one. */
  ghost predicate EnvValid(env: Env) {
    && (forall k :: k in env.ontologies ==> Valid(env.ontologies[k]))
    && (forall k :: k in env.results ==> Valid(env.results[k]))
  }

  /** `later` keeps every name `env` binds: the parser never unbinds. */
  predicate Extends(env: Env, later: Env) {
    && env.ontologies.Keys <= later.ontologies.Keys
    && env.functors.Keys <= later.functors.Keys
    && env.results.Keys <= later.results.Keys
  }

  /** The token lists the parser is given: `tokenize` always ends them
      with an EOF token. */
  predicate EofTerminated(ts: seq<Token>) {
    |ts| > 0 && ts[|ts| - 1].kind == Eof
  }

  // ---------------------------------------------------------------------
  // Token helpers

  predicate AtEnd(ts: seq<Token>, pos: nat)
    requires pos < |ts|
  {
    ts[pos].kind == Eof
  }

  /** `_check`: the current token has this kind (and this text, if one is
      given); never true at the end. */
  predicate Check(ts: seq<Token>, pos: nat, kind: TokenKind, value: Option<string>)
    requires pos < |ts|
  {
    !AtEnd(ts, pos) && ts[pos].kind == kind && (value.None? || ts[pos].text == value.value)
  }

  /** `_consume`: take the current token if it matches, else fail with the
      position it stands at. */
  function Consume(ts: seq<Token>, pos: nat, kind: TokenKind, value: Option<string>): (r: Result<Parsed<string>, ParseError>)
    requires EofTerminated(ts) && pos < |ts|
    ensures r.Success? <==> Check(ts, pos, kind, value)
    ensures r.Success? ==> r.value == Parsed(ts[pos].text, pos + 1) && pos + 1 < |ts|
    ensures r.Failure? ==> r.error == SyntaxError(kind, value.GetOr(""), pos)
  {
    if Check(ts, pos, kind, value) then Success(Parsed(ts[pos].text, pos + 1))
    else Failure(SyntaxError(kind, value.GetOr(""), pos))
  }

  /** `_advance` on a token already checked: step past it. */
  function Advance(ts: seq<Token>, pos: nat): (r: nat)
    requires EofTerminated(ts) && pos < |ts| && !AtEnd(ts, pos)
    ensures r == pos + 1 && r < |ts|
  {
    pos + 1
  }

  /** The texts of the tokens of kind `kind` from position `lo` up to
      (not including) `hi`, in order. */
  function TextsIn(ts: seq<Token>, lo: nat, hi: nat, kind: TokenKind): seq<string>
    requires lo <= hi <= |ts|
    decreases hi - lo
  {
    if lo == hi then [] else (if ts[lo].kind == kind then [ts[lo].text] else []) + TextsIn(ts, lo + 1, hi, kind)
  }

  /** The texts of two adjacent stretches, one after the other. */
  lemma {:induction false} JoinTexts(ts: seq<Token>, lo: nat, mid: nat, hi: nat, kind: TokenKind)
    requires lo <= mid <= hi <= |ts|
    ensures TextsIn(ts, lo, hi, kind) == TextsIn(ts, lo, mid, kind) + TextsIn(ts, mid, hi, kind)
    decreases mid - lo
  {
    if lo < mid {
      JoinTexts(ts, lo + 1, mid, hi, kind);
    }
  }

  /** Tokens of other kinds in front add no text. */
  lemma {:induction false} SkipTexts(ts: seq<Token>, lo: nat, mid: nat, hi: nat, kind: TokenKind)
    requires lo <= mid <= hi <= |ts|
    requires forall i :: lo <= i < mid ==> ts[i].kind != kind
    ensures TextsIn(ts, lo, hi, kind) == TextsIn(ts, mid, hi, kind)
    decreases mid - lo
  {
    if lo < mid {
      SkipTexts(ts, lo + 1, mid, hi, kind);
    }
  }

  /** Texts between two delimiters of other kinds. */
  lemma BracketedTexts(ts: seq<Token>, open: nat, close: nat, kind: TokenKind)
    requires open < close < |ts| && ts[open].kind != kind && ts[close].kind != kind
    ensures TextsIn(ts, open, close + 1, kind) == TextsIn(ts, open + 1, close, kind)
  {
    JoinTexts(ts, open + 1, close, close + 1, kind);
    assert TextsIn(ts, close, close + 1, kind) == [];
  }

  // ---------------------------------------------------------------------
  // Enum lookups by upper-cased name

  function UpperChar(ch: char): char {
    if 'a' <= ch <= 'z' then (ch as int - 32) as char else ch
  }

  /** `str.upper()` on ASCII letters: each lower-case letter becomes its
      capital, every other character stays, and no lower-case letter is
      left. */
  function Upper(s: string): (r: string)
    ensures |r| == |s|
    ensures forall i :: 0 <= i < |s| && 'a' <= s[i] <= 'z' ==> r[i] as int == s[i] as int - 32
    ensures forall i :: 0 <= i < |s| && !('a' <= s[i] <= 'z') ==> r[i] == s[i]
    ensures forall i :: 0 <= i < |r| ==> !('a' <= r[i] <= 'z')
  {
    seq(|s|, i requires 0 <= i < |s| => UpperChar(s[i]))
  }

  /** The member names of the `MorphismType` enum. */
  function MorphismTypeName(k: MorphismType): string {
    match k
    case Structural => "STRUCTURAL"
    case Functional => "FUNCTIONAL"
    case Temporal => "TEMPORAL"
    case Causal => "CAUSAL"
    case Measurement => "MEASUREMENT"
    case Identity => "IDENTITY"
  }

  /** `MorphismType[name.upper()]`: a member exactly when the upper-cased
      name is a member name; otherwise the lookup raises, and the error
      carries the upper-cased key it was given. */
  function LookupMorphismType(name: string): (r: Result<MorphismType, ParseError>)
    ensures r.Success? <==> exists k :: MorphismTypeName(k) == Upper(name)
    ensures r.Success? ==> MorphismTypeName(r.value) == Upper(name)
    ensures r.Failure? ==> r.error == UnknownMorphismType(Upper(name))
  {
    var u := Upper(name);
    if u == "STRUCTURAL" then assert MorphismTypeName(Structural) == u; Success(Structural)
    else if u == "FUNCTIONAL" then assert MorphismTypeName(Functional) == u; Success(Functional)
    else if u == "TEMPORAL" then assert MorphismTypeName(Temporal) == u; Success(Temporal)
    else if u == "CAUSAL" then assert MorphismTypeName(Causal) == u; Success(Causal)
    else if u == "MEASUREMENT" then assert MorphismTypeName(Measurement) == u; Success(Measurement)
    else if u == "IDENTITY" then assert MorphismTypeName(Identity) == u; Success(Identity)
    else Failure(UnknownMorphismType(u))
  }

  /** The validation levels of core/validator.py. */
  datatype ValidationLevel = StructuralLevel | SemanticLevel | PragmaticLevel

  function LevelName(l: ValidationLevel): string {
    match l
    case StructuralLevel => "STRUCTURAL"
    case SemanticLevel => "SEMANTIC"
    case PragmaticLevel => "PRAGMATIC"
  }

  /** `ValidationLevel[name.upper()]`: a level exactly when the upper-cased
      name is a level name; otherwise the error carries the upper-cased key. */
  function LookupLevel(name: string): (r: Result<ValidationLevel, ParseError>)
    ensures r.Success? <==> exists l :: LevelName(l) == Upper(name)
    ensures r.Success? ==> LevelName(r.value) == Upper(name)
    ensures r.Failure? ==> r.error == UnknownValidationLevel(Upper(name))
  {
    var u := Upper(name);
    if u == "STRUCTURAL" then assert LevelName(StructuralLevel) == u; Success(StructuralLevel)
    else if u == "SEMANTIC" then assert LevelName(SemanticLevel) == u; Success(SemanticLevel)
    else if u == "PRAGMATIC" then assert LevelName(PragmaticLevel) == u; Success(PragmaticLevel)
    else Failure(UnknownValidationLevel(u))
  }

  // ---------------------------------------------------------------------
  // Objects

  /** `attributes: [a, b, ...]` up to the closing bracket: identifiers,
      each optionally followed by a comma, appended in order. */
  function AttributeList(ts: seq<Token>, pos: nat, acc: seq<string>): (r: Result<Parsed<seq<string>>, ParseError>)
    requires EofTerminated(ts) && pos < |ts|
    ensures r.Success? ==> pos <= r.value.next < |ts| && Check(ts, r.value.next, Symbol, Some("]"))
    ensures r.Success? ==> r.value.value == acc + TextsIn(ts, pos, r.value.next, Identifier)
    decreases |ts| - pos
  {
    if Check(ts, pos, Symbol, Some("]")) then Success(Parsed(acc, pos))
    else
      var attr :- Consume(ts, pos, Identifier, None);
      var after := if Check(ts, attr.next, Symbol, Some(",")) then attr.next + 1 else attr.next;
      var rest :- AttributeList(ts, after, acc + [attr.value]);
      SkipTexts(ts, pos + 1, after, rest.next, Identifier);
      Success(rest)
  }

  /** One `attributes : [ ... ]` clause, up to and including its `]`. */
  function AttributesClause(ts: seq<Token>, pos: nat, attrs: seq<string>): (r: Result<Parsed<seq<string>>, ParseError>)
    requires EofTerminated(ts) && pos < |ts| && Check(ts, pos, Keyword, Some("attributes"))
    ensures r.Success? ==> pos + 3 < r.value.next < |ts|
    ensures r.Success? ==> r.value.value == attrs + TextsIn(ts, pos, r.value.next, Identifier)
  {
    var colon :- Consume(ts, Advance(ts, pos), Symbol, Some(":"));
    var open :- Consume(ts, colon.next, Symbol, Some("["));
    var list :- AttributeList(ts, open.next, attrs);
    AttributesClauseTexts(ts, pos, list.next);
    Success(Parsed(list.value, list.next + 1))
  }

  /** The identifiers of an `attributes : [ ... ]` clause are those of the
      list between its brackets. */
  lemma AttributesClauseTexts(ts: seq<Token>, pos: nat, close: nat)
    requires pos + 3 <= close < |ts|
    requires ts[pos].kind == Keyword && ts[pos + 1].kind == Symbol && ts[pos + 2].kind == Symbol
    requires ts[close].kind == Symbol
    ensures TextsIn(ts, pos, close + 1, Identifier) == TextsIn(ts, pos + 3, close, Identifier)
  {
    SkipTexts(ts, pos, pos + 2, close + 1, Identifier);
    BracketedTexts(ts, pos + 2, close, Identifier);
  }

  /** The clauses of an object block up to its closing brace, or up to the
      first token that starts no clause. The attributes are the identifiers
      the block holds, in order: a semantic clause holds none. */
  /** `semantic : "text"`, in an object or a morphism block: the free
      text, which the model reads and drops. */
  function SemanticClause(ts: seq<Token>, pos: nat): (r: Result<Parsed<string>, ParseError>)
    requires EofTerminated(ts) && pos < |ts| && Check(ts, pos, Keyword, Some("semantic"))
    ensures r.Success? ==> pos + 3 < |ts| && r.value == Parsed(ts[pos + 2].text, pos + 3)
    ensures r.Success? ==> ts[pos + 1].kind == Symbol && ts[pos + 2].kind == Str
  {
    var colon :- Consume(ts, Advance(ts, pos), Symbol, Some(":"));
    Consume(ts, colon.next, Str, None)
  }

  function ObjectBody(ts: seq<Token>, pos: nat, attrs: seq<string>): (r: Result<Parsed<seq<string>>, ParseError>)
    requires EofTerminated(ts) && pos < |ts|
    ensures r.Success? ==> pos <= r.value.next < |ts|
    ensures r.Success? ==> r.value.value == attrs + TextsIn(ts, pos, r.value.next, Identifier)
    decreases |ts| - pos
  {
    if Check(ts, pos, Symbol, Some("}")) then Success(Parsed(attrs, pos))
    else if Check(ts, pos, Keyword, Some("attributes")) then
      var clause :- AttributesClause(ts, pos, attrs);
      var rest :- ObjectBody(ts, clause.next, clause.value);
      JoinTexts(ts, pos, clause.next, rest.next, Identifier);
      Success(rest)
    else if Check(ts, pos, Keyword, Some("semantic")) then
      var text :- SemanticClause(ts, pos);
      var rest :- ObjectBody(ts, text.next, attrs);
      SkipTexts(ts, pos, pos + 3, rest.next, Identifier);
      Success(rest)
    else Success(Parsed(attrs, pos))
  }

  /** `_parse_object`: `OBJECT name : domain`, then an optional block. */
  function ParseObject(ts: seq<Token>, pos: nat): (r: Result<Parsed<Object>, ParseError>)
    requires EofTerminated(ts) && pos < |ts|
    ensures r.Success? ==> pos + 4 <= r.value.next < |ts|
    ensures r.Success? ==> r.value.value.name == ts[pos + 1].text && r.value.value.domain == ts[pos + 3].text
    ensures r.Success? && !Check(ts, pos + 4, Symbol, Some("{")) ==> r.value == Parsed(Object(ts[pos + 1].text, ts[pos + 3].text, []), pos + 4)
    ensures r.Success? ==> r.value.value.attributes == TextsIn(ts, pos + 4, r.value.next, Identifier)
  {
    var kw :- Consume(ts, pos, Keyword, Some("OBJECT"));
    var name :- Consume(ts, kw.next, Identifier, None);
    var colon :- Consume(ts, name.next, Symbol, Some(":"));
    var domain :- Consume(ts, colon.next, Identifier, None);
    if Check(ts, domain.next, Symbol, Some("{")) then
      var body :- ObjectBody(ts, Advance(ts, domain.next), []);
      var close :- Consume(ts, body.next, Symbol, Some("}"));
      BracketedTexts(ts, domain.next, body.next, Identifier);
      Success(Parsed(Object(name.value, domain.value, body.value), close.next))
    else
      Success(Parsed(Object(name.value, domain.value, []), domain.next))
  }

  // ---------------------------------------------------------------------
  // Morphisms

  /** No `type` keyword stands at a position from `lo` up to `hi`. */
  predicate TypeFree(ts: seq<Token>, lo: nat, hi: nat)
    requires lo <= hi <= |ts|
  {
    forall i :: lo <= i < hi ==> !Check(ts, i, Keyword, Some("type"))
  }

  /** The position of the last `type` keyword from `lo` up to `hi`, found
      by scanning backwards. */
  function LastType(ts: seq<Token>, lo: nat, hi: nat): (r: Option<nat>)
    requires lo <= hi <= |ts|
    ensures r.Some? ==> lo <= r.value < hi && Check(ts, r.value, Keyword, Some("type"))
    decreases hi - lo
  {
    if lo == hi then None
    else if Check(ts, hi - 1, Keyword, Some("type")) then Some(hi - 1)
    else LastType(ts, lo, hi - 1)
  }

  /** There is no last `type` keyword exactly when there is none at all;
      after the last one there is none. */
  lemma {:induction false} LastTypeFree(ts: seq<Token>, lo: nat, hi: nat)
    requires lo <= hi <= |ts|
    ensures LastType(ts, lo, hi).None? <==> TypeFree(ts, lo, hi)
    ensures LastType(ts, lo, hi).Some? ==> TypeFree(ts, LastType(ts, lo, hi).value + 1, hi)
    decreases hi - lo
  {
    if lo < hi && !Check(ts, hi - 1, Keyword, Some("type")) {
      LastTypeFree(ts, lo, hi - 1);
    }
  }

  /** A later `type` keyword hides every earlier one. */
  lemma {:induction false} LastTypeSplit(ts: seq<Token>, lo: nat, mid: nat, hi: nat)
    requires lo <= mid <= hi <= |ts|
    ensures LastType(ts, lo, hi) == if LastType(ts, mid, hi).Some? then LastType(ts, mid, hi) else LastType(ts, lo, mid)
    decreases hi - mid
  {
    if mid < hi && !Check(ts, hi - 1, Keyword, Some("type")) {
      LastTypeSplit(ts, lo, mid, hi - 1);
    }
  }

  /** `k` is the kind a morphism block from `lo` up to `hi` leaves when it
      starts from `kind`: the member named by its last `type` clause, or
      `kind` when it has none. */
  predicate KindAfter(ts: seq<Token>, lo: nat, hi: nat, kind: MorphismType, k: MorphismType)
    requires lo <= hi <= |ts|
  {
    match LastType(ts, lo, hi)
    case None => k == kind
    case Some(i) => i + 2 < hi && MorphismTypeName(k) == Upper(ts[i + 2].text)
  }

  /** A `type : t` clause in front decides the kind unless a later one
      overrides it. */
  lemma TypeClauseKind(ts: seq<Token>, pos: nat, hi: nat, kind: MorphismType, k: MorphismType, final: MorphismType)
    requires pos + 3 <= hi <= |ts|
    requires Check(ts, pos, Keyword, Some("type")) && ts[pos + 1].kind == Symbol && ts[pos + 2].kind == Identifier
    requires MorphismTypeName(k) == Upper(ts[pos + 2].text)
    requires KindAfter(ts, pos + 3, hi, k, final)
    ensures KindAfter(ts, pos, hi, kind, final)
  {
    LastTypeSplit(ts, pos, pos + 3, hi);
    assert LastType(ts, pos, pos + 3) == Some(pos) by {
      assert LastType(ts, pos, pos + 3) == LastType(ts, pos, pos + 1);
    }
  }

  /** Clauses without a `type` keyword in front leave the kind alone. */
  lemma SkipClauseKind(ts: seq<Token>, pos: nat, mid: nat, hi: nat, kind: MorphismType, final: MorphismType)
    requires pos <= mid <= hi <= |ts| && TypeFree(ts, pos, mid)
    requires KindAfter(ts, mid, hi, kind, final)
    ensures KindAfter(ts, pos, hi, kind, final)
  {
    LastTypeSplit(ts, pos, mid, hi);
  }

  /** The clauses of a morphism block, up to its closing brace or to the
      first token that starts no clause. An unknown type name fails the
      lookup. */
  function MorphismBody(ts: seq<Token>, pos: nat, kind: MorphismType): (r: Result<Parsed<MorphismType>, ParseError>)
    requires EofTerminated(ts) && pos < |ts|
    ensures r.Success? ==> pos <= r.value.next < |ts|
    ensures r.Success? ==> KindAfter(ts, pos, r.value.next, kind, r.value.value)
    decreases |ts| - pos
  {
    if Check(ts, pos, Symbol, Some("}")) then Success(Parsed(kind, pos))
    else if Check(ts, pos, Keyword, Some("type")) then
      var colon :- Consume(ts, Advance(ts, pos), Symbol, Some(":"));
      var typeName :- Consume(ts, colon.next, Identifier, None);
      var k :- LookupMorphismType(typeName.value);
      var rest :- MorphismBody(ts, typeName.next, k);
      TypeClauseKind(ts, pos, rest.next, kind, k, rest.value);
      Success(rest)
    else if Check(ts, pos, Keyword, Some("semantic")) then
      var text :- SemanticClause(ts, pos);
      var rest :- MorphismBody(ts, text.next, kind);
      assert TypeFree(ts, pos, pos + 3) by {
        assert !Check(ts, pos + 1, Keyword, Some("type")) && !Check(ts, pos + 2, Keyword, Some("type"));
      }
      SkipClauseKind(ts, pos, pos + 3, rest.next, kind, rest.value);
      Success(rest)
    else Success(Parsed(kind, pos))
  }

  /** `cat.objects.get(name, Object(name, "unknown"))`: the registered
      object, or a placeholder in domain "unknown". */
  function Endpoint(cat: Category, name: string): (r: Object)
    ensures name in cat.objects.entries ==> r == cat.objects.entries[name]
    ensures name !in cat.objects.entries ==> r == Object(name, "unknown", [])
  {
    cat.objects.Get(name).GetOr(Object(name, "unknown", []))
  }

  /** The optional `{ ... }` block of a morphism declaration; the kind
      defaults to STRUCTURAL. */
  function MorphismBlock(ts: seq<Token>, pos: nat): (r: Result<Parsed<MorphismType>, ParseError>)
    requires EofTerminated(ts) && pos < |ts|
    ensures r.Success? ==> pos <= r.value.next < |ts|
    ensures r.Success? && !Check(ts, pos, Symbol, Some("{")) ==> r.value == Parsed(Structural, pos)
    ensures r.Success? ==> KindAfter(ts, pos, r.value.next, Structural, r.value.value)
  {
    if Check(ts, pos, Symbol, Some("{")) then
      var body :- MorphismBody(ts, Advance(ts, pos), Structural);
      var close :- Consume(ts, body.next, Symbol, Some("}"));
      BlockKind(ts, pos, body.next, body.value);
      Success(Parsed(body.value, close.next))
    else Success(Parsed(Structural, pos))
  }

  /** `_parse_morphism`: `MORPHISM name : source -> target`, then an
      optional block; the endpoints are resolved in the ontology so far. */
  function ParseMorphism(ts: seq<Token>, pos: nat, cat: Category): (r: Result<Parsed<Morphism>, ParseError>)
    requires EofTerminated(ts) && pos < |ts|
    ensures r.Success? ==> pos + 6 <= r.value.next < |ts|
    ensures r.Success? ==> r.value.value.name == ts[pos + 1].text
    ensures r.Success? ==> r.value.value.source == Endpoint(cat, ts[pos + 3].text)
    ensures r.Success? ==> r.value.value.target == Endpoint(cat, ts[pos + 5].text)
    ensures r.Success? ==> r.value.value.properties == []
    ensures r.Success? && !Check(ts, pos + 6, Symbol, Some("{")) ==> r.value.value.kind == Structural && r.value.next == pos + 6
    ensures r.Success? ==> KindAfter(ts, pos + 6, r.value.next, Structural, r.value.value.kind)
  {
    var kw :- Consume(ts, pos, Keyword, Some("MORPHISM"));
    var name :- Consume(ts, kw.next, Identifier, None);
    var colon :- Consume(ts, name.next, Symbol, Some(":"));
    var source :- Consume(ts, colon.next, Identifier, None);
    var arrow :- Consume(ts, source.next, Symbol, Some("->"));
    var target :- Consume(ts, arrow.next, Identifier, None);
    var block :- MorphismBlock(ts, target.next);
    Success(Parsed(Morphism(name.value, Endpoint(cat, source.value), Endpoint(cat, target.value), block.value, []), block.next))
  }

  /** The braces around a morphism block hold no `type` keyword. */
  lemma BlockKind(ts: seq<Token>, open: nat, close: nat, final: MorphismType)
    requires open < close < |ts| && ts[open].kind == Symbol && ts[close].kind == Symbol
    requires KindAfter(ts, open + 1, close, Structural, final)
    ensures KindAfter(ts, open, close + 1, Structural, final)
  {
    LastTypeSplit(ts, open + 1, close, close + 1);
    LastTypeSplit(ts, open, open + 1, close + 1);
    assert LastType(ts, close, close + 1) == None;
    assert LastType(ts, open, open + 1) == None;
  }

  // ---------------------------------------------------------------------
  // Ontologies

  lemma ValidAfterMorphism(cat: Category, m: Morphism)
    ensures Valid(cat) ==> Valid(AddMorphism(cat, m))
  {
    if Valid(cat) {
      AddMorphismKeepsValid(cat, m);
    }
  }

  /** The OBJECT and MORPHISM declarations of an ontology body, each added
      to the category as it is read. */
  function OntologyBody(ts: seq<Token>, pos: nat, cat: Category): (r: Result<Parsed<Category>, ParseError>)
    requires EofTerminated(ts) && pos < |ts|
    ensures r.Success? ==> pos <= r.value.next < |ts|
    ensures r.Success? ==> r.value.value.name == cat.name
    ensures r.Success? && Valid(cat) ==> Valid(r.value.value)
    decreases |ts| - pos
  {
    if Check(ts, pos, Symbol, Some("}")) then Success(Parsed(cat, pos))
    else if Check(ts, pos, Keyword, Some("OBJECT")) then
      var o :- ParseObject(ts, pos);
      OntologyBody(ts, o.next, AddObject(cat, o.value))
    else if Check(ts, pos, Keyword, Some("MORPHISM")) then
      var m :- ParseMorphism(ts, pos, cat);
      ValidAfterMorphism(cat, m.value);
      OntologyBody(ts, m.next, AddMorphism(cat, m.value))
    else Success(Parsed(cat, pos))
  }

  /** `_parse_ontology`: binds the ontology's name to the category read. */
  function ParseOntology(ts: seq<Token>, pos: nat, env: Env): (r: Result<Parsed<Env>, ParseError>)
    requires EofTerminated(ts) && pos < |ts|
    ensures r.Success? ==> pos + 3 <= r.value.next < |ts|
    ensures r.Success? ==> r.value.value.functors == env.functors && r.value.value.results == env.results
    ensures r.Success? ==> r.value.value.ontologies.Keys == env.ontologies.Keys + {ts[pos + 1].text}
    ensures r.Success? ==> forall k :: k in env.ontologies && k != ts[pos + 1].text ==> r.value.value.ontologies[k] == env.ontologies[k]
    ensures r.Success? ==> r.value.value.ontologies[ts[pos + 1].text].name == ts[pos + 1].text
    ensures r.Success? && EnvValid(env) ==> EnvValid(r.value.value)
  {
    var kw :- Consume(ts, pos, Keyword, Some("ONTOLOGY"));
    var name :- Consume(ts, kw.next, Identifier, None);
    var open :- Consume(ts, name.next, Symbol, Some("{"));
    var body :- OntologyBody(ts, open.next, NewCategory(name.value));
    var close :- Consume(ts, body.next, Symbol, Some("}"));
    Success(Parsed(env.(ontologies := env.ontologies[name.value := body.value]), close.next))
  }

  // ---------------------------------------------------------------------
  // Functors

  datatype FunctorParts = FunctorParts(objectMap: Table<string>, morphismMap: Table<string>, rules: seq<string>)

  /** Both maps of the parts are well-formed tables. */
  ghost predicate PartsValid(parts: FunctorParts) {
    parts.objectMap.Valid() && parts.morphismMap.Valid()
  }

  /** One `MAP OBJECT s -> t` or `MAP MORPHISM s -> t` clause, which sets
      `s` to `t` in the object or morphism map. A `MAP` followed by neither
      consumes just the keyword. */
  function MapClause(ts: seq<Token>, pos: nat, parts: FunctorParts): (r: Result<Parsed<FunctorParts>, ParseError>)
    requires EofTerminated(ts) && pos < |ts| && Check(ts, pos, Keyword, Some("MAP"))
    ensures r.Success? ==> pos < r.value.next < |ts|
    ensures r.Success? ==> r.value.value.rules == parts.rules && TextsIn(ts, pos, r.value.next, Str) == []
    ensures r.Success? && PartsValid(parts) ==> PartsValid(r.value.value)
    ensures r.Success? ==> parts.objectMap.entries.Keys <= r.value.value.objectMap.entries.Keys
    ensures r.Success? ==> parts.morphismMap.entries.Keys <= r.value.value.morphismMap.entries.Keys
  {
    var afterMap := Advance(ts, pos);
    if Check(ts, afterMap, Keyword, Some("OBJECT")) then
      var src :- Consume(ts, Advance(ts, afterMap), Identifier, None);
      var arrow :- Consume(ts, src.next, Symbol, Some("->"));
      var tgt :- Consume(ts, arrow.next, Identifier, None);
      SkipTexts(ts, pos, pos + 5, pos + 5, Str);
      Success(Parsed(parts.(objectMap := parts.objectMap.Put(src.value, tgt.value)), tgt.next))
    else if Check(ts, afterMap, Keyword, Some("MORPHISM")) then
      var src :- Consume(ts, Advance(ts, afterMap), Identifier, None);
      var arrow :- Consume(ts, src.next, Symbol, Some("->"));
      var tgt :- Consume(ts, arrow.next, Identifier, None);
      SkipTexts(ts, pos, pos + 5, pos + 5, Str);
      Success(Parsed(parts.(morphismMap := parts.morphismMap.Put(src.value, tgt.value)), tgt.next))
    else
      Success(Parsed(parts, afterMap))
  }

  /** One `RULE "text"` clause, which appends its string to the rules. */
  function RuleClause(ts: seq<Token>, pos: nat, parts: FunctorParts): (r: Result<Parsed<FunctorParts>, ParseError>)
    requires EofTerminated(ts) && pos < |ts| && Check(ts, pos, Keyword, Some("RULE"))
    ensures r.Success? ==> r.value.next == pos + 2 < |ts|
    ensures r.Success? ==> r.value.value == parts.(rules := parts.rules + TextsIn(ts, pos, pos + 2, Str))
  {
    var rule :- Consume(ts, Advance(ts, pos), Str, None);
    SkipTexts(ts, pos, pos + 1, pos + 2, Str);
    Success(Parsed(parts.(rules := parts.rules + [rule.value]), rule.next))
  }

  /** A MAP or a RULE clause. */
  function FunctorClause(ts: seq<Token>, pos: nat, parts: FunctorParts): (r: Result<Parsed<FunctorParts>, ParseError>)
    requires EofTerminated(ts) && pos < |ts|
    requires Check(ts, pos, Keyword, Some("MAP")) || Check(ts, pos, Keyword, Some("RULE"))
    ensures r.Success? ==> pos < r.value.next < |ts|
    ensures r.Success? && PartsValid(parts) ==> PartsValid(r.value.value)
    ensures r.Success? ==> parts.objectMap.entries.Keys <= r.value.value.objectMap.entries.Keys
    ensures r.Success? ==> parts.morphismMap.entries.Keys <= r.value.value.morphismMap.entries.Keys
    ensures r.Success? ==> r.value.value.rules == parts.rules + TextsIn(ts, pos, r.value.next, Str)
  {
    if Check(ts, pos, Keyword, Some("MAP")) then MapClause(ts, pos, parts) else RuleClause(ts, pos, parts)
  }

  /** The MAP and RULE clauses of a functor body, up to its closing brace
      or to the first token that starts no clause. The rules read are the
      string tokens of the body, in order, and no map entry is ever
      removed. */
  function FunctorBody(ts: seq<Token>, pos: nat, parts: FunctorParts): (r: Result<Parsed<FunctorParts>, ParseError>)
    requires EofTerminated(ts) && pos < |ts|
    ensures r.Success? ==> pos <= r.value.next < |ts|
    ensures r.Success? && PartsValid(parts) ==> PartsValid(r.value.value)
    ensures r.Success? ==> parts.objectMap.entries.Keys <= r.value.value.objectMap.entries.Keys
    ensures r.Success? ==> parts.morphismMap.entries.Keys <= r.value.value.morphismMap.entries.Keys
    ensures r.Success? ==> r.value.value.rules == parts.rules + TextsIn(ts, pos, r.value.next, Str)
    decreases |ts| - pos
  {
    if Check(ts, pos, Symbol, Some("}")) then Success(Parsed(parts, pos))
    else if Check(ts, pos, Keyword, Some("MAP")) || Check(ts, pos, Keyword, Some("RULE")) then
      var clause :- FunctorClause(ts, pos, parts);
      var rest :- FunctorBody(ts, clause.next, clause.value);
      JoinTexts(ts, pos, clause.next, rest.next, Str);
      Success(rest)
    else Success(Parsed(parts, pos))
  }

  /** `_parse_functor`: the functor is bound only when both of its
      categories name ontologies declared before it. */
  function ParseFunctor(ts: seq<Token>, pos: nat, env: Env): (r: Result<Parsed<Env>, ParseError>)
    requires EofTerminated(ts) && pos < |ts|
    ensures r.Success? ==> pos + 7 <= r.value.next < |ts|
    ensures r.Success? ==> r.value.value.ontologies == env.ontologies && r.value.value.results == env.results
    ensures r.Success? ==>
      var name, src, tgt := ts[pos + 1].text, ts[pos + 3].text, ts[pos + 5].text;
      if src in env.ontologies && tgt in env.ontologies then
        && r.value.value.functors.Keys == env.functors.Keys + {name}
        && r.value.value.functors[name].name == name
        && r.value.value.functors[name].source == env.ontologies[src]
        && r.value.value.functors[name].target == env.ontologies[tgt]
        && WellFormed(r.value.value.functors[name])
        && r.value.value.functors[name].rules == TextsIn(ts, pos, r.value.next, Str)
        && (forall k :: k in env.functors && k != name ==> r.value.value.functors[k] == env.functors[k])
      else r.value.value.functors == env.functors
  {
    var header :- FunctorHeader(ts, pos);
    var body :- FunctorBody(ts, header.next, FunctorParts(EmptyTable(), EmptyTable(), []));
    var close :- Consume(ts, body.next, Symbol, Some("}"));
    SkipTexts(ts, pos, pos + 6, close.next, Str);
    BracketedTexts(ts, pos + 6, body.next, Str);
    var (name, src, tgt) := header.value;
    Success(Parsed(BindFunctor(env, name, src, tgt, body.value), close.next))
  }

  /** `FUNCTOR name : S -> T {`: the functor's name and the names of its
      two ontologies, none of them a string token. */
  function FunctorHeader(ts: seq<Token>, pos: nat): (r: Result<Parsed<(string, string, string)>, ParseError>)
    requires EofTerminated(ts) && pos < |ts|
    ensures r.Success? ==> pos + 7 < |ts| && r.value == Parsed((ts[pos + 1].text, ts[pos + 3].text, ts[pos + 5].text), pos + 7)
    ensures r.Success? ==> forall i :: pos <= i < pos + 7 ==> ts[i].kind != Str
  {
    var kw :- Consume(ts, pos, Keyword, Some("FUNCTOR"));
    var name :- Consume(ts, kw.next, Identifier, None);
    var colon :- Consume(ts, name.next, Symbol, Some(":"));
    var src :- Consume(ts, colon.next, Identifier, None);
    var arrow :- Consume(ts, src.next, Symbol, Some("->"));
    var tgt :- Consume(ts, arrow.next, Identifier, None);
    var open :- Consume(ts, tgt.next, Symbol, Some("{"));
    Success(Parsed((name.value, src.value, tgt.value), open.next))
  }

  /** `if source_cat and target_cat`: bind the functor only when both
      ontologies are declared. */
  function BindFunctor(env: Env, name: string, src: string, tgt: string, parts: FunctorParts): (r: Env)
    ensures r.ontologies == env.ontologies && r.results == env.results
    ensures src in env.ontologies && tgt in env.ontologies ==>
      && r.functors.Keys == env.functors.Keys + {name}
      && r.functors[name] == Functor(name, env.ontologies[src], env.ontologies[tgt], parts.objectMap, parts.morphismMap, parts.rules)
      && (forall k :: k in env.functors && k != name ==> r.functors[k] == env.functors[k])
    ensures !(src in env.ontologies && tgt in env.ontologies) ==> r == env
  {
    if src in env.ontologies && tgt in env.ontologies then
      env.(functors := env.functors[name := Functor(name, env.ontologies[src], env.ontologies[tgt], parts.objectMap, parts.morphismMap, parts.rules)])
    else
      env
  }

  // ---------------------------------------------------------------------
  // Operations

  datatype Operator = CoproductOp | ProductOp | DifferenceOp

  function OperatorKeyword(op: Operator): string {
    match op
    case CoproductOp => "COPRODUCT"
    case ProductOp => "PRODUCT"
    case DifferenceOp => "DIFFERENCE"
  }

  /** The operator a keyword token selects, if any. */
  function OperatorAt(ts: seq<Token>, pos: nat): (r: Option<Operator>)
    requires pos < |ts|
    ensures r.Some? <==> exists op :: Check(ts, pos, Keyword, Some(OperatorKeyword(op)))
    ensures r.Some? ==> Check(ts, pos, Keyword, Some(OperatorKeyword(r.value)))
  {
    if Check(ts, pos, Keyword, Some("COPRODUCT")) then
      assert Check(ts, pos, Keyword, Some(OperatorKeyword(CoproductOp)));
      Some(CoproductOp)
    else if Check(ts, pos, Keyword, Some("PRODUCT")) then
      assert Check(ts, pos, Keyword, Some(OperatorKeyword(ProductOp)));
      Some(ProductOp)
    else if Check(ts, pos, Keyword, Some("DIFFERENCE")) then
      assert Check(ts, pos, Keyword, Some(OperatorKeyword(DifferenceOp)));
      Some(DifferenceOp)
    else None
  }

  /** `ontologies.get(n) or results.get(n)`: a category is never falsy, so
      an ontology shadows a result of the same name. */
  function Resolve(env: Env, n: string): (r: Option<Category>)
    ensures r.Some? <==> n in env.ontologies || n in env.results
    ensures n in env.ontologies ==> r == Some(env.ontologies[n])
    ensures n !in env.ontologies && n in env.results ==> r == Some(env.results[n])
  {
    if n in env.ontologies then Some(env.ontologies[n])
    else if n in env.results then Some(env.results[n])
    else None
  }

  function Apply(op: Operator, a: Category, b: Category, name: string): (r: Category)
    requires Valid(a) && Valid(b)
    ensures Valid(r)
  {
    match op
    case CoproductOp => CoproductValid(a, b, Some(name)); Coproduct(a, b, Some(name))
    case ProductOp => ProductValid(a, b, Some(name)); Product(a, b, Some(name))
    case DifferenceOp => DifferenceValid(a, b, Some(name)); Difference(a, b, Some(name))
  }

  /** `results[name] = op(cat1, cat2, name)` when both operands resolve;
      nothing otherwise. */
  function Record(env: Env, op: Operator, name: string, x: string, y: string): (r: Env)
    requires EnvValid(env)
    ensures EnvValid(r)
    ensures r.ontologies == env.ontologies && r.functors == env.functors
    ensures name in r.results <==> name in env.results || (Resolve(env, x).Some? && Resolve(env, y).Some?)
    ensures Resolve(env, x).Some? && Resolve(env, y).Some? ==>
              r.results == env.results[name := Apply(op, Resolve(env, x).value, Resolve(env, y).value, name)]
    ensures Resolve(env, x).None? || Resolve(env, y).None? ==> r == env
  {
    var a := Resolve(env, x);
    var b := Resolve(env, y);
    if a.Some? && b.Some? then env.(results := env.results[name := Apply(op, a.value, b.value, name)])
    else env
  }

  /** One `name = OP(x, y)` statement after its `=`. */
  function OperationCall(ts: seq<Token>, pos: nat, env: Env, op: Operator, name: string): (r: Result<Parsed<Env>, ParseError>)
    requires EofTerminated(ts) && pos < |ts| && EnvValid(env)
    ensures r.Success? ==> r.value.next == pos + 6 < |ts|
    ensures r.Success? ==> r.value.value == Record(env, op, name, ts[pos + 2].text, ts[pos + 4].text)
  {
    var kw :- Consume(ts, pos, Keyword, Some(OperatorKeyword(op)));
    var open :- Consume(ts, kw.next, Symbol, Some("("));
    var x :- Consume(ts, open.next, Identifier, None);
    var comma :- Consume(ts, x.next, Symbol, Some(","));
    var y :- Consume(ts, comma.next, Identifier, None);
    var close :- Consume(ts, y.next, Symbol, Some(")"));
    Success(Parsed(Record(env, op, name, x.value, y.value), close.next))
  }

  /** The statements of an operation block. A statement whose right-hand
      side is no known operator ends the block after its `=`. */
  function OperationBody(ts: seq<Token>, pos: nat, env: Env): (r: Result<Parsed<Env>, ParseError>)
    requires EofTerminated(ts) && pos < |ts| && EnvValid(env)
    ensures r.Success? ==> pos <= r.value.next < |ts|
    ensures r.Success? ==> EnvValid(r.value.value)
    ensures r.Success? ==> r.value.value.ontologies == env.ontologies && r.value.value.functors == env.functors
    ensures r.Success? ==> Extends(env, r.value.value)
    decreases |ts| - pos
  {
    if Check(ts, pos, Symbol, Some("}")) then Success(Parsed(env, pos))
    else
      var name :- Consume(ts, pos, Identifier, None);
      var eq :- Consume(ts, name.next, Symbol, Some("="));
      match OperatorAt(ts, eq.next)
      case Some(op) =>
        var call :- OperationCall(ts, eq.next, env, op, name.value);
        OperationBody(ts, call.next, call.value)
      case None => Success(Parsed(env, eq.next))
  }

  /** `_parse_operation` */
  function ParseOperation(ts: seq<Token>, pos: nat, env: Env): (r: Result<Parsed<Env>, ParseError>)
    requires EofTerminated(ts) && pos < |ts| && EnvValid(env)
    ensures r.Success? ==> pos + 3 <= r.value.next < |ts|
    ensures r.Success? ==> EnvValid(r.value.value)
    ensures r.Success? ==> r.value.value.ontologies == env.ontologies && r.value.value.functors == env.functors
    ensures r.Success? ==> Extends(env, r.value.value)
  {
    var kw :- Consume(ts, pos, Keyword, Some("OPERATION"));
    var open :- Consume(ts, kw.next, Symbol, Some("{"));
    var body :- OperationBody(ts, open.next, env);
    var close :- Consume(ts, body.next, Symbol, Some("}"));
    Success(Parsed(body.value, close.next))
  }

  // ---------------------------------------------------------------------
  // Validation

  /** `_parse_validation`: reads `VALIDATE target WITH level` and checks
      the level name; the validation itself is not run. */
  function ParseValidation(ts: seq<Token>, pos: nat, env: Env): (r: Result<Parsed<Env>, ParseError>)
    requires EofTerminated(ts) && pos < |ts|
    ensures r.Success? ==> r.value == Parsed(env, pos + 4)
    ensures r.Success? <==>
      && Check(ts, pos, Keyword, Some("VALIDATE")) && Check(ts, pos + 1, Identifier, None)
      && Check(ts, pos + 2, Keyword, Some("WITH")) && Check(ts, pos + 3, Identifier, None)
      && LookupLevel(ts[pos + 3].text).Success?
  {
    var kw :- Consume(ts, pos, Keyword, Some("VALIDATE"));
    var target :- Consume(ts, kw.next, Identifier, None);
    var with :- Consume(ts, target.next, Keyword, Some("WITH"));
    var level :- Consume(ts, with.next, Identifier, None);
    var _ :- LookupLevel(level.value);
    Success(Parsed(env, level.next))
  }

  // ---------------------------------------------------------------------
  // Programs

  /** `_parse_declaration`: dispatch on the leading keyword; any other
      token is skipped. */
  function ParseDeclaration(ts: seq<Token>, pos: nat, env: Env): (r: Result<Parsed<Env>, ParseError>)
    requires EofTerminated(ts) && pos < |ts| && !AtEnd(ts, pos) && EnvValid(env)
    ensures r.Success? ==> pos < r.value.next < |ts|
    ensures r.Success? ==> EnvValid(r.value.value) && Extends(env, r.value.value)
  {
    if Check(ts, pos, Keyword, Some("ONTOLOGY")) then ParseOntology(ts, pos, env)
    else if Check(ts, pos, Keyword, Some("FUNCTOR")) then ParseFunctor(ts, pos, env)
    else if Check(ts, pos, Keyword, Some("OPERATION")) then ParseOperation(ts, pos, env)
    else if Check(ts, pos, Keyword, Some("VALIDATE")) then ParseValidation(ts, pos, env)
    else Success(Parsed(env, pos + 1))
  }

  /** `parse`: declarations until the EOF token. */
  function ParseProgram(ts: seq<Token>, pos: nat, env: Env): (r: Result<Env, ParseError>)
    requires EofTerminated(ts) && pos < |ts| && EnvValid(env)
    ensures r.Success? ==> EnvValid(r.value) && Extends(env, r.value)
    decreases |ts| - pos
  {
    if AtEnd(ts, pos) then Success(env)
    else
      var d :- ParseDeclaration(ts, pos, env);
      ParseProgram(ts, d.next, d.value)
  }

  /** `CODSLInterpreter.execute`: tokenize, then parse from empty tables.
      Every category in the outcome is valid. */
  function Execute(src: string, cls: CharClasses): (r: Result<Env, ParseError>)
    ensures r.Success? ==> EnvValid(r.value)
  {
    ParseProgram(Tokenize(src, cls), 0, EmptyEnv())
  }
}
