/** What the parser promises beyond its productions' own contracts: how an
    operation statement updates the results, how an unsupported operator
    ends a block, how enum names are read, how unknown tokens are skipped,
    the first test example program, and the statement of the
    second. */
module ParserFacts {
  import opened Wrappers
  import opened Tables
  import opened Dsl
  import opened Operations
  import Functors
  import opened Lexer
  import opened Parsing

  // ---------------------------------------------------------------------
  // Operation blocks

  /** `name = OP(x, y)` stands at `p`. */
  predicate StatementAt(ts: seq<Token>, p: nat, op: Operator)
    requires p + 8 < |ts|
  {
    && Check(ts, p, Identifier, None)
    && Check(ts, p + 1, Symbol, Some("="))
    && Check(ts, p + 2, Keyword, Some(OperatorKeyword(op)))
    && Check(ts, p + 3, Symbol, Some("("))
    && Check(ts, p + 4, Identifier, None)
    && Check(ts, p + 5, Symbol, Some(","))
    && Check(ts, p + 6, Identifier, None)
    && Check(ts, p + 7, Symbol, Some(")"))
  }

  /** A complete statement records its result (when both operands
      resolve) and the block goes on after its closing parenthesis. */
  lemma StatementRecords(ts: seq<Token>, p: nat, env: Env, op: Operator)
    requires EofTerminated(ts) && p + 8 < |ts| && EnvValid(env)
    requires StatementAt(ts, p, op)
    ensures OperationBody(ts, p, env) == OperationBody(ts, p + 8, Record(env, op, ts[p].text, ts[p + 4].text, ts[p + 6].text))
  {
    OperatorFound(ts, p + 2, op);
    CallSucceeds(ts, p + 2, env, op, ts[p].text);
    BodyStep(ts, p, env, op, OperationCall(ts, p + 2, env, op, ts[p].text).value);
  }

  /** A statement whose call succeeds hands the block on to the rest. */
  lemma BodyStep(ts: seq<Token>, p: nat, env: Env, op: Operator, call: Parsed<Env>)
    requires EofTerminated(ts) && p + 2 < |ts| && EnvValid(env)
    requires Check(ts, p, Identifier, None) && Check(ts, p + 1, Symbol, Some("="))
    requires OperatorAt(ts, p + 2) == Some(op)
    requires OperationCall(ts, p + 2, env, op, ts[p].text) == Success(call)
    ensures call.next < |ts| && EnvValid(call.value)
    ensures OperationBody(ts, p, env) == OperationBody(ts, call.next, call.value)
  {
    assert !Check(ts, p, Symbol, Some("}"));
  }

  /** The keyword of `op` is read as `op`. */
  lemma OperatorFound(ts: seq<Token>, q: nat, op: Operator)
    requires q < |ts| && Check(ts, q, Keyword, Some(OperatorKeyword(op)))
    ensures OperatorAt(ts, q) == Some(op)
  {
    assert OperatorKeyword(op) != OperatorKeyword(CoproductOp) ==> !Check(ts, q, Keyword, Some("COPRODUCT"));
    assert OperatorKeyword(op) != OperatorKeyword(ProductOp) ==> !Check(ts, q, Keyword, Some("PRODUCT"));
  }

  /** `OP(x, y)` records its result and ends after the parenthesis. */
  lemma CallSucceeds(ts: seq<Token>, q: nat, env: Env, op: Operator, name: string)
    requires EofTerminated(ts) && q + 6 < |ts| && EnvValid(env)
    requires Check(ts, q, Keyword, Some(OperatorKeyword(op))) && Check(ts, q + 1, Symbol, Some("("))
    requires Check(ts, q + 2, Identifier, None) && Check(ts, q + 3, Symbol, Some(","))
    requires Check(ts, q + 4, Identifier, None) && Check(ts, q + 5, Symbol, Some(")"))
    ensures OperationCall(ts, q, env, op, name) == Success(Parsed(Record(env, op, name, ts[q + 2].text, ts[q + 4].text), q + 6))
  {
  }

  /** The result of `name = OP(x, y)`: bound exactly when both operands
      name an ontology or an earlier result, an ontology taking precedence
      over a result of the same name. */
  lemma RecordResolves(env: Env, op: Operator, name: string, x: string, y: string)
    requires EnvValid(env)
    requires x in env.ontologies || x in env.results
    requires y in env.ontologies || y in env.results
    ensures var a := if x in env.ontologies then env.ontologies[x] else env.results[x];
            var b := if y in env.ontologies then env.ontologies[y] else env.results[y];
            Record(env, op, name, x, y).results == env.results[name := Apply(op, a, b, name)]
  {
  }

  /** An operand that is neither an ontology nor a result leaves the
      tables as they were. */
  lemma RecordSkipsUnknown(env: Env, op: Operator, name: string, x: string, y: string)
    requires EnvValid(env)
    requires (x !in env.ontologies && x !in env.results) || (y !in env.ontologies && y !in env.results)
    ensures Record(env, op, name, x, y) == env
  {
  }

  /** A statement whose right-hand side is not COPRODUCT, PRODUCT or
      DIFFERENCE (PULLBACK and PUSHOUT included) ends the block after its
      `=`: the block closes cleanly only if `}` follows, and otherwise the
      closing brace is reported missing at that position. */
  lemma UnknownOperatorEndsBlock(ts: seq<Token>, pos: nat, env: Env)
    requires EofTerminated(ts) && pos + 4 < |ts| && EnvValid(env)
    requires Check(ts, pos, Keyword, Some("OPERATION")) && Check(ts, pos + 1, Symbol, Some("{"))
    requires Check(ts, pos + 2, Identifier, None) && Check(ts, pos + 3, Symbol, Some("="))
    requires OperatorAt(ts, pos + 4).None?
    ensures ParseOperation(ts, pos, env) ==
      if Check(ts, pos + 4, Symbol, Some("}")) then Success(Parsed(env, pos + 5))
      else Failure(SyntaxError(Symbol, "}", pos + 4))
  {
    assert !Check(ts, pos + 2, Symbol, Some("}"));
    assert OperationBody(ts, pos + 2, env) == Success(Parsed(env, pos + 4));
  }

  /** `X = PULLBACK(...)` inside an operation block is a syntax error. */
  lemma PullbackIsRejected(ts: seq<Token>, pos: nat, env: Env)
    requires EofTerminated(ts) && pos + 4 < |ts| && EnvValid(env)
    requires Check(ts, pos, Keyword, Some("OPERATION")) && Check(ts, pos + 1, Symbol, Some("{"))
    requires Check(ts, pos + 2, Identifier, None) && Check(ts, pos + 3, Symbol, Some("="))
    requires Check(ts, pos + 4, Keyword, Some("PULLBACK"))
    ensures ParseOperation(ts, pos, env) == Failure(SyntaxError(Symbol, "}", pos + 4))
  {
    UnknownOperatorEndsBlock(ts, pos, env);
  }

  /** The statement of the second test example,
      `Combined = COPRODUCT(A, B)` over the ontologies `A { OBJECT X : d }`
      and `B { OBJECT Y : d }`, records a result whose objects are exactly
      `A.X` and `B.Y`. */
  lemma CombinedCoproduct(env: Env)
    requires EnvValid(env)
    requires "A" in env.ontologies && "B" in env.ontologies
    requires env.ontologies["A"].name == "A" && env.ontologies["B"].name == "B"
    requires env.ontologies["A"].objects.entries.Keys == {"X"} && env.ontologies["B"].objects.entries.Keys == {"Y"}
    ensures var r := Record(env, CoproductOp, "Combined", "A", "B");
      && "Combined" in r.results
      && r.results["Combined"].objects.entries.Keys == {"A.X", "B.Y"}
      && |r.results["Combined"].objects.entries| == 2
  {
    var a := env.ontologies["A"];
    var b := env.ontologies["B"];
    RecordResolves(env, CoproductOp, "Combined", "A", "B");
    CoproductOfTwo(a, b, "Combined");
    TwoExampleEntries(Record(env, CoproductOp, "Combined", "A", "B").results["Combined"].objects.entries);
  }

  /** The coproduct of two valid categories named `A` and `B`, holding
      just `X` and just `Y`. */
  lemma CoproductOfTwo(a: Category, b: Category, name: string)
    requires Valid(a) && Valid(b) && a.name == "A" && b.name == "B"
    requires a.objects.entries.Keys == {"X"} && b.objects.entries.Keys == {"Y"}
    ensures Apply(CoproductOp, a, b, name).objects.entries.Keys == {"A.X", "B.Y"}
  {
    ApplyCoproductKeys(a, b, name);
    CoproductOfSingles(a, b, name, "X", "Y");
    TaggedExampleNames();
  }

  /** Dispatching `COPRODUCT` builds the coproduct's objects. */
  lemma ApplyCoproductKeys(a: Category, b: Category, name: string)
    requires Valid(a) && Valid(b)
    ensures Apply(CoproductOp, a, b, name).objects.entries.Keys == Coproduct(a, b, Some(name)).objects.entries.Keys
  {
  }

  /** The tagged names of the example, and that they differ. */
  lemma TaggedExampleNames()
    ensures TagName("A", "X") == "A.X" && TagName("B", "Y") == "B.Y" && "A.X" != "B.Y"
  {
    assert "A.X"[0] != "B.Y"[0];
  }

  /** A table keyed by the two example names has two entries. */
  lemma TwoExampleEntries(m: map<string, Object>)
    requires m.Keys == {"A.X", "B.Y"}
    ensures |m| == 2
  {
    TaggedExampleNames();
    assert |m| == |m.Keys|;
  }

  /** The coproduct of two categories holding one object name each holds
      the two tagged names. */
  lemma CoproductOfSingles(a: Category, b: Category, name: string, x: string, y: string)
    requires Valid(a) && Valid(b)
    requires a.objects.entries.Keys == {x} && b.objects.entries.Keys == {y}
    ensures Coproduct(a, b, Some(name)).objects.entries.Keys == {TagName(a.name, x), TagName(b.name, y)}
  {
    CoproductObjectKeys(a, b, Some(name));
    SingleTagged(a.name, a, x);
    SingleTagged(b.name, b, y);
  }

  /** A category holding one object name has one tagged name. */
  lemma SingleTagged(tag: string, c: Category, x: string)
    requires c.objects.entries.Keys == {x}
    ensures TaggedObjectMap(tag, c).Keys == {TagName(tag, x)}
  {
    TaggedObjectMapAt(tag, c, x);
  }

  // ---------------------------------------------------------------------
  // Enum names

  /** The value strings of the `MorphismType` members, as written in
      programs (`type: functional`). */
  function MorphismTypeValue(k: MorphismType): string {
    match k
    case Structural => "structural"
    case Functional => "functional"
    case Temporal => "temporal"
    case Causal => "causal"
    case Measurement => "measurement"
    case Identity => "identity"
  }

  /** Distinct members have distinct names. */
  lemma MorphismTypeNamesDistinct(j: MorphismType, k: MorphismType)
    ensures MorphismTypeName(j) == MorphismTypeName(k) ==> j == k
  {
  }

  /** Every member is found by its member name: the lookup and the naming
      are inverse. */
  lemma MorphismTypeNamesRoundTrip(k: MorphismType)
    ensures LookupMorphismType(MorphismTypeName(k)) == Success(k)
  {
    var name := MorphismTypeName(k);
    UpperIdentityOnCapitals(name);
    var r := LookupMorphismType(name);
    assert MorphismTypeName(k) == Upper(name);
    MorphismTypeNamesDistinct(r.value, k);
  }

  /** Every member is also found by its lower-case value. */
  lemma MorphismTypeValuesRoundTrip(k: MorphismType)
    ensures LookupMorphismType(MorphismTypeValue(k)) == Success(k)
  {
    UpperValueIsName(k);
    LookupIgnoresCase(MorphismTypeValue(k), MorphismTypeName(k));
    MorphismTypeNamesRoundTrip(k);
  }

  /** A member's value upper-cases to its name. */
  lemma UpperValueIsName(k: MorphismType)
    ensures Upper(MorphismTypeValue(k)) == MorphismTypeName(k)
  {
    match k
    case Structural => assert Upper("structural") == "STRUCTURAL";
    case Functional => assert Upper("functional") == "FUNCTIONAL";
    case Temporal => assert Upper("temporal") == "TEMPORAL";
    case Causal => assert Upper("causal") == "CAUSAL";
    case Measurement => assert Upper("measurement") == "MEASUREMENT";
    case Identity => assert Upper("identity") == "IDENTITY";
  }

  function LevelValue(l: ValidationLevel): string {
    match l
    case StructuralLevel => "structural"
    case SemanticLevel => "semantic"
    case PragmaticLevel => "pragmatic"
  }

  lemma LevelNamesRoundTrip(l: ValidationLevel)
    ensures LookupLevel(LevelName(l)) == Success(l)
    ensures LookupLevel(LevelValue(l)) == Success(l)
  {
    UpperIdentityOnCapitals(LevelName(l));
    assert Upper(LevelValue(l)) == LevelName(l);
  }

  /** Upper-casing leaves a name without lower-case letters unchanged. */
  lemma UpperIdentityOnCapitals(s: string)
    requires forall i :: 0 <= i < |s| ==> !('a' <= s[i] <= 'z')
    ensures Upper(s) == s
  {
  }

  /** Upper-casing twice is upper-casing once. */
  lemma UpperIdempotent(s: string)
    ensures Upper(Upper(s)) == Upper(s)
  {
    forall i | 0 <= i < |s|
      ensures Upper(Upper(s))[i] == Upper(s)[i]
    {
    }
  }

  /** The lookup ignores case: names that upper-case alike find the same
      member, or fail with the same upper-cased name. */
  lemma LookupIgnoresCase(a: string, b: string)
    requires Upper(a) == Upper(b)
    ensures LookupMorphismType(a).Success? <==> LookupMorphismType(b).Success?
    ensures LookupMorphismType(a).Success? ==> LookupMorphismType(a).value == LookupMorphismType(b).value
    ensures LookupMorphismType(a) == LookupMorphismType(b)
  {
  }

  /** Looking up an already upper-cased name finds what the name finds. */
  lemma LookupOfUpper(s: string)
    ensures LookupMorphismType(Upper(s)) == LookupMorphismType(s)
  {
    UpperIdempotent(s);
    LookupIgnoresCase(Upper(s), s);
  }

  // ---------------------------------------------------------------------
  // Morphism and functor blocks

  /** A `type : t` clause sets the kind to the member `t` names, or fails
      with the upper-cased name when there is no such member. */
  lemma MorphismTypeStep(ts: seq<Token>, pos: nat, kind: MorphismType)
    requires EofTerminated(ts) && pos + 3 < |ts|
    requires Check(ts, pos, Keyword, Some("type")) && Check(ts, pos + 1, Symbol, Some(":"))
    requires Check(ts, pos + 2, Identifier, None)
    ensures MorphismBody(ts, pos, kind) ==
      match LookupMorphismType(ts[pos + 2].text)
      case Failure(_) => Failure(UnknownMorphismType(Upper(ts[pos + 2].text)))
      case Success(k) => MorphismBody(ts, pos + 3, k)
  {
    assert !Check(ts, pos, Symbol, Some("}"));
  }

  /** `{ type : functional }` makes the morphism FUNCTIONAL. */
  lemma FunctionalClause(ts: seq<Token>, pos: nat)
    requires EofTerminated(ts) && pos + 3 < |ts|
    requires Check(ts, pos, Keyword, Some("type")) && Check(ts, pos + 1, Symbol, Some(":"))
    requires Check(ts, pos + 2, Identifier, Some("functional")) && Check(ts, pos + 3, Symbol, Some("}"))
    ensures MorphismBody(ts, pos, Structural) == Success(Parsed(Functional, pos + 3))
  {
    MorphismTypeStep(ts, pos, Structural);
    assert Upper("functional") == "FUNCTIONAL";
  }

  /** `{ type : bogus }` is an unknown morphism type, reported under the
      key the enum lookup was given, `BOGUS`. */
  lemma UnknownTypeClause(ts: seq<Token>, pos: nat, kind: MorphismType)
    requires EofTerminated(ts) && pos + 3 < |ts|
    requires Check(ts, pos, Keyword, Some("type")) && Check(ts, pos + 1, Symbol, Some(":"))
    requires Check(ts, pos + 2, Identifier, Some("bogus"))
    ensures MorphismBody(ts, pos, kind) == Failure(UnknownMorphismType("BOGUS"))
  {
    MorphismTypeStep(ts, pos, kind);
    assert Upper("bogus") == "BOGUS";
  }

  /** A morphism declaration whose block holds no `type` clause is
      STRUCTURAL. */
  lemma TypeFreeIsStructural(ts: seq<Token>, pos: nat, cat: Category)
    requires EofTerminated(ts) && pos < |ts|
    requires ParseMorphism(ts, pos, cat).Success?
    requires TypeFree(ts, pos + 6, ParseMorphism(ts, pos, cat).value.next)
    ensures ParseMorphism(ts, pos, cat).value.value.kind == Structural
  {
    LastTypeFree(ts, pos + 6, ParseMorphism(ts, pos, cat).value.next);
  }

  /** `MAP OBJECT s -> t` sets `s` to `t` in the object map. */
  lemma MapObjectStep(ts: seq<Token>, pos: nat, parts: FunctorParts)
    requires EofTerminated(ts) && pos + 5 < |ts|
    requires Check(ts, pos, Keyword, Some("MAP")) && Check(ts, pos + 1, Keyword, Some("OBJECT"))
    requires Check(ts, pos + 2, Identifier, None) && Check(ts, pos + 3, Symbol, Some("->"))
    requires Check(ts, pos + 4, Identifier, None)
    ensures FunctorBody(ts, pos, parts) ==
      FunctorBody(ts, pos + 5, parts.(objectMap := parts.objectMap.Put(ts[pos + 2].text, ts[pos + 4].text)))
  {
    assert MapClause(ts, pos, parts) == Success(Parsed(parts.(objectMap := parts.objectMap.Put(ts[pos + 2].text, ts[pos + 4].text)), pos + 5));
    ClauseStep(ts, pos, parts);
  }

  /** `MAP MORPHISM s -> t` sets `s` to `t` in the morphism map. */
  lemma MapMorphismStep(ts: seq<Token>, pos: nat, parts: FunctorParts)
    requires EofTerminated(ts) && pos + 5 < |ts|
    requires Check(ts, pos, Keyword, Some("MAP")) && Check(ts, pos + 1, Keyword, Some("MORPHISM"))
    requires Check(ts, pos + 2, Identifier, None) && Check(ts, pos + 3, Symbol, Some("->"))
    requires Check(ts, pos + 4, Identifier, None)
    ensures FunctorBody(ts, pos, parts) ==
      FunctorBody(ts, pos + 5, parts.(morphismMap := parts.morphismMap.Put(ts[pos + 2].text, ts[pos + 4].text)))
  {
    assert MapClause(ts, pos, parts) == Success(Parsed(parts.(morphismMap := parts.morphismMap.Put(ts[pos + 2].text, ts[pos + 4].text)), pos + 5));
    ClauseStep(ts, pos, parts);
  }

  /** `RULE "x"` appends `x` to the rules. */
  lemma RuleStep(ts: seq<Token>, pos: nat, parts: FunctorParts)
    requires EofTerminated(ts) && pos + 2 < |ts|
    requires Check(ts, pos, Keyword, Some("RULE")) && Check(ts, pos + 1, Str, None)
    ensures FunctorBody(ts, pos, parts) == FunctorBody(ts, pos + 2, parts.(rules := parts.rules + [ts[pos + 1].text]))
  {
    assert RuleClause(ts, pos, parts) == Success(Parsed(parts.(rules := parts.rules + [ts[pos + 1].text]), pos + 2));
    ClauseStep(ts, pos, parts);
  }

  /** A clause that is read hands the functor body on to the rest. */
  lemma ClauseStep(ts: seq<Token>, pos: nat, parts: FunctorParts)
    requires EofTerminated(ts) && pos < |ts|
    requires Check(ts, pos, Keyword, Some("MAP")) || Check(ts, pos, Keyword, Some("RULE"))
    requires FunctorClause(ts, pos, parts).Success?
    ensures var c := FunctorClause(ts, pos, parts).value;
      FunctorBody(ts, pos, parts) == FunctorBody(ts, c.next, c.value)
  {
    assert !Check(ts, pos, Symbol, Some("}"));
  }

  /** `FUNCTOR name : S -> T { body }` binds `name` to a functor carrying
      the maps and rules the body reads, when both `S` and `T` are bound
      ontologies, and leaves the tables alone otherwise. */
  lemma FunctorStep(ts: seq<Token>, pos: nat, env: Env, parts: FunctorParts, close: nat)
    requires EofTerminated(ts) && pos + 7 < |ts| && close < |ts|
    requires Check(ts, pos, Keyword, Some("FUNCTOR")) && Check(ts, pos + 1, Identifier, None)
    requires Check(ts, pos + 2, Symbol, Some(":")) && Check(ts, pos + 3, Identifier, None)
    requires Check(ts, pos + 4, Symbol, Some("->")) && Check(ts, pos + 5, Identifier, None)
    requires Check(ts, pos + 6, Symbol, Some("{")) && Check(ts, close, Symbol, Some("}"))
    requires FunctorBody(ts, pos + 7, FunctorParts(EmptyTable(), EmptyTable(), [])) == Success(Parsed(parts, close))
    ensures ParseFunctor(ts, pos, env) == Success(Parsed(
      if ts[pos + 3].text in env.ontologies && ts[pos + 5].text in env.ontologies then
        env.(functors := env.functors[ts[pos + 1].text := Functors.Functor(ts[pos + 1].text,
          env.ontologies[ts[pos + 3].text], env.ontologies[ts[pos + 5].text],
          parts.objectMap, parts.morphismMap, parts.rules)])
      else env,
      close + 1))
  {
    FunctorHeaderStep(ts, pos);
    ConsumeChecked(ts, close, Symbol, Some("}"));
  }

  /** A well-formed functor header is read in full; a step of the proof of
      `FunctorStep`. */
  lemma FunctorHeaderStep(ts: seq<Token>, pos: nat)
    requires EofTerminated(ts) && pos + 7 < |ts|
    requires Check(ts, pos, Keyword, Some("FUNCTOR")) && Check(ts, pos + 1, Identifier, None)
    requires Check(ts, pos + 2, Symbol, Some(":")) && Check(ts, pos + 3, Identifier, None)
    requires Check(ts, pos + 4, Symbol, Some("->")) && Check(ts, pos + 5, Identifier, None)
    requires Check(ts, pos + 6, Symbol, Some("{"))
    ensures FunctorHeader(ts, pos) == Success(Parsed((ts[pos + 1].text, ts[pos + 3].text, ts[pos + 5].text), pos + 7))
  {
    ConsumeChecked(ts, pos, Keyword, Some("FUNCTOR"));
    ConsumeChecked(ts, pos + 1, Identifier, None);
    ConsumeChecked(ts, pos + 2, Symbol, Some(":"));
    ConsumeChecked(ts, pos + 3, Identifier, None);
    ConsumeChecked(ts, pos + 4, Symbol, Some("->"));
    ConsumeChecked(ts, pos + 5, Identifier, None);
    ConsumeChecked(ts, pos + 6, Symbol, Some("{"));
  }

  // ---------------------------------------------------------------------
  // Programs

  /** A token that starts no declaration is skipped. */
  lemma UnknownTokenSkipped(ts: seq<Token>, pos: nat, env: Env)
    requires EofTerminated(ts) && pos < |ts| && !AtEnd(ts, pos) && EnvValid(env)
    requires !(ts[pos].kind == Keyword && ts[pos].text in {"ONTOLOGY", "FUNCTOR", "OPERATION", "VALIDATE"})
    ensures ParseProgram(ts, pos, env) == ParseProgram(ts, pos + 1, env)
  {
    assert ParseDeclaration(ts, pos, env) == Success(Parsed(env, pos + 1));
  }

  /** The first error ends the program. */
  lemma ErrorStopsProgram(ts: seq<Token>, pos: nat, env: Env)
    requires EofTerminated(ts) && pos < |ts| && !AtEnd(ts, pos) && EnvValid(env)
    requires ParseDeclaration(ts, pos, env).Failure?
    ensures ParseProgram(ts, pos, env) == Failure(ParseDeclaration(ts, pos, env).error)
  {
  }

  // ---------------------------------------------------------------------
  // The first test example program, for any token list with these kinds
  // and texts (lines and columns play no part in parsing)

  /** Token `i` has this kind and text. */
  predicate TokenIs(ts: seq<Token>, i: nat, kind: TokenKind, text: string) {
    i < |ts| && ts[i].kind == kind && ts[i].text == text
  }

  /** `ONTOLOGY TestOnt { OBJECT A : domain1  OBJECT B : domain1
      MORPHISM f : A -> B }` */
  predicate SimpleOntologyTokens(ts: seq<Token>) {
    && |ts| == 19
    && TokenIs(ts, 0, Keyword, "ONTOLOGY") && TokenIs(ts, 1, Identifier, "TestOnt") && TokenIs(ts, 2, Symbol, "{")
    && TokenIs(ts, 3, Keyword, "OBJECT") && TokenIs(ts, 4, Identifier, "A") && TokenIs(ts, 5, Symbol, ":")
    && TokenIs(ts, 6, Identifier, "domain1")
    && TokenIs(ts, 7, Keyword, "OBJECT") && TokenIs(ts, 8, Identifier, "B") && TokenIs(ts, 9, Symbol, ":")
    && TokenIs(ts, 10, Identifier, "domain1")
    && TokenIs(ts, 11, Keyword, "MORPHISM") && TokenIs(ts, 12, Identifier, "f") && TokenIs(ts, 13, Symbol, ":")
    && TokenIs(ts, 14, Identifier, "A") && TokenIs(ts, 15, Symbol, "->") && TokenIs(ts, 16, Identifier, "B")
    && TokenIs(ts, 17, Symbol, "}") && TokenIs(ts, 18, Eof, "")
  }

  /** The category the first example's body builds, written with the
      names its tokens carry. */
  function SimpleOntologyBody(ts: seq<Token>): Category
    requires |ts| == 19
  {
    var a := Object(ts[4].text, ts[6].text, []);
    var b := Object(ts[8].text, ts[10].text, []);
    AddMorphism(AddObject(AddObject(NewCategory(ts[1].text), a), b), Morphism(ts[12].text, a, b, Structural, []))
  }

  lemma SimpleOntologyObjects(ts: seq<Token>)
    requires SimpleOntologyTokens(ts)
    ensures EofTerminated(ts)
    ensures ParseObject(ts, 3) == Success(Parsed(Object(ts[4].text, ts[6].text, []), 7))
    ensures ParseObject(ts, 7) == Success(Parsed(Object(ts[8].text, ts[10].text, []), 11))
  {
  }

  lemma SimpleOntologyMorphism(ts: seq<Token>, cat: Category)
    requires SimpleOntologyTokens(ts)
    requires ts[4].text in cat.objects.entries && ts[8].text in cat.objects.entries
    ensures EofTerminated(ts)
    ensures ParseMorphism(ts, 11, cat) == Success(Parsed(Morphism(ts[12].text, cat.objects.entries[ts[4].text], cat.objects.entries[ts[8].text], Structural, []), 17))
  {
  }

  /** An OBJECT clause read by `ParseObject` adds its object and the body
      goes on after it. */
  lemma BodyObjectStep(ts: seq<Token>, pos: nat, cat: Category, o: Object, next: nat)
    requires EofTerminated(ts) && pos < |ts| && next < |ts|
    requires Check(ts, pos, Keyword, Some("OBJECT"))
    requires ParseObject(ts, pos) == Success(Parsed(o, next))
    ensures OntologyBody(ts, pos, cat) == OntologyBody(ts, next, AddObject(cat, o))
  {
    assert !Check(ts, pos, Symbol, Some("}"));
  }

  /** A MORPHISM clause read by `ParseMorphism` adds its morphism and the
      body goes on after it. */
  lemma BodyMorphismStep(ts: seq<Token>, pos: nat, cat: Category, m: Morphism, next: nat)
    requires EofTerminated(ts) && pos < |ts| && next < |ts|
    requires Check(ts, pos, Keyword, Some("MORPHISM"))
    requires ParseMorphism(ts, pos, cat) == Success(Parsed(m, next))
    ensures OntologyBody(ts, pos, cat) == OntologyBody(ts, next, AddMorphism(cat, m))
  {
    assert !Check(ts, pos, Symbol, Some("}"));
    assert !Check(ts, pos, Keyword, Some("OBJECT"));
  }

  /** The `break`: a token that starts neither clause, the closing brace
      among them, ends the body where it stands, the category unchanged. */
  lemma BodyStops(ts: seq<Token>, pos: nat, cat: Category)
    requires EofTerminated(ts) && pos < |ts|
    requires !Check(ts, pos, Keyword, Some("OBJECT")) && !Check(ts, pos, Keyword, Some("MORPHISM"))
    ensures OntologyBody(ts, pos, cat) == Success(Parsed(cat, pos))
  {
  }

  /** The body of the first test example program is read in full; a step of
      the proof of `SimpleOntologyExample`. */
  lemma SimpleOntologyParsesBody(ts: seq<Token>)
    requires SimpleOntologyTokens(ts)
    ensures EofTerminated(ts)
    ensures OntologyBody(ts, 3, NewCategory(ts[1].text)) == Success(Parsed(SimpleOntologyBody(ts), 17))
  {
    var a := Object(ts[4].text, ts[6].text, []);
    var b := Object(ts[8].text, ts[10].text, []);
    SimpleOntologyObjects(ts);
    var c0 := NewCategory(ts[1].text);
    var c1 := AddObject(c0, a);
    var c2 := AddObject(c1, b);
    BodyObjectStep(ts, 3, c0, a, 7);
    BodyObjectStep(ts, 7, c1, b, 11);
    assert c2.objects.entries[ts[4].text] == a && c2.objects.entries[ts[8].text] == b;
    SimpleOntologyMorphism(ts, c2);
    BodyMorphismStep(ts, 11, c2, Morphism(ts[12].text, a, b, Structural, []), 17);
  }

  /** `ONTOLOGY name { body }` binds `name` to the body's category. */
  lemma OntologyStep(ts: seq<Token>, pos: nat, env: Env, cat: Category, close: nat)
    requires EofTerminated(ts) && pos + 3 < |ts| && close < |ts|
    requires Check(ts, pos, Keyword, Some("ONTOLOGY")) && Check(ts, pos + 1, Identifier, None)
    requires Check(ts, pos + 2, Symbol, Some("{")) && Check(ts, close, Symbol, Some("}"))
    requires OntologyBody(ts, pos + 3, NewCategory(ts[pos + 1].text)) == Success(Parsed(cat, close))
    ensures ParseOntology(ts, pos, env) == Success(Parsed(env.(ontologies := env.ontologies[ts[pos + 1].text := cat]), close + 1))
  {
    ConsumeChecked(ts, pos, Keyword, Some("ONTOLOGY"));
    ConsumeChecked(ts, pos + 1, Identifier, None);
    ConsumeChecked(ts, pos + 2, Symbol, Some("{"));
    ConsumeChecked(ts, close, Symbol, Some("}"));
    OntologyUnfolds(ts, pos, env, cat, close);
  }

  /** `ParseOntology` once each of its steps is known. */
  lemma OntologyUnfolds(ts: seq<Token>, pos: nat, env: Env, cat: Category, close: nat)
    requires EofTerminated(ts) && pos + 3 < |ts| && close < |ts|
    requires Consume(ts, pos, Keyword, Some("ONTOLOGY")) == Success(Parsed(ts[pos].text, pos + 1))
    requires Consume(ts, pos + 1, Identifier, None) == Success(Parsed(ts[pos + 1].text, pos + 2))
    requires Consume(ts, pos + 2, Symbol, Some("{")) == Success(Parsed(ts[pos + 2].text, pos + 3))
    requires OntologyBody(ts, pos + 3, NewCategory(ts[pos + 1].text)) == Success(Parsed(cat, close))
    requires Consume(ts, close, Symbol, Some("}")) == Success(Parsed(ts[close].text, close + 1))
    ensures ParseOntology(ts, pos, env) == Success(Parsed(env.(ontologies := env.ontologies[ts[pos + 1].text := cat]), close + 1))
  {
    var name := Consume(ts, pos + 1, Identifier, None).value;
    var open := Consume(ts, name.next, Symbol, Some("{")).value;
    var body := OntologyBody(ts, open.next, NewCategory(name.value));
    assert body == Success(Parsed(cat, close));
  }

  lemma ConsumeChecked(ts: seq<Token>, pos: nat, kind: TokenKind, value: Option<string>)
    requires EofTerminated(ts) && pos < |ts| && Check(ts, pos, kind, value)
    ensures Consume(ts, pos, kind, value) == Success(Parsed(ts[pos].text, pos + 1))
  {
  }

  /** A declaration that succeeds is followed by the rest of the program. */
  lemma ProgramStep(ts: seq<Token>, pos: nat, env: Env)
    requires EofTerminated(ts) && pos < |ts| && !AtEnd(ts, pos) && EnvValid(env)
    requires ParseDeclaration(ts, pos, env).Success?
    ensures var d := ParseDeclaration(ts, pos, env).value;
      ParseProgram(ts, pos, env) == ParseProgram(ts, d.next, d.value)
  {
  }

  /** From `pos` on the tokens are `ONTOLOGY name { body }` followed by
      EOF, and the body builds `cat`, ending at the `}` at `close`. */
  predicate LoneOntologyAt(ts: seq<Token>, pos: nat, cat: Category, close: nat) {
    && EofTerminated(ts) && pos + 3 < |ts| && close + 1 < |ts|
    && Check(ts, pos, Keyword, Some("ONTOLOGY")) && Check(ts, pos + 1, Identifier, None)
    && Check(ts, pos + 2, Symbol, Some("{")) && Check(ts, close, Symbol, Some("}")) && AtEnd(ts, close + 1)
    && OntologyBody(ts, pos + 3, NewCategory(ts[pos + 1].text)) == Success(Parsed(cat, close))
  }

  /** A program whose rest from `pos` is a single ontology declaration
      binds just that ontology on top of the tables it started with. */
  lemma OntologyProgramFrom(ts: seq<Token>, pos: nat, env: Env, cat: Category, close: nat)
    requires LoneOntologyAt(ts, pos, cat, close) && EnvValid(env)
    ensures ParseProgram(ts, pos, env) == Success(env.(ontologies := env.ontologies[ts[pos + 1].text := cat]))
  {
    OntologyThenEnd(ts, pos, env, cat, close);
  }

  /** `OntologyProgramFrom` with its premise spelled out. */
  lemma OntologyThenEnd(ts: seq<Token>, pos: nat, env: Env, cat: Category, close: nat)
    requires EofTerminated(ts) && pos + 3 < |ts| && close + 1 < |ts| && EnvValid(env)
    requires Check(ts, pos, Keyword, Some("ONTOLOGY")) && Check(ts, pos + 1, Identifier, None)
    requires Check(ts, pos + 2, Symbol, Some("{")) && Check(ts, close, Symbol, Some("}")) && AtEnd(ts, close + 1)
    requires OntologyBody(ts, pos + 3, NewCategory(ts[pos + 1].text)) == Success(Parsed(cat, close))
    ensures ParseProgram(ts, pos, env) == Success(env.(ontologies := env.ontologies[ts[pos + 1].text := cat]))
  {
    var after := env.(ontologies := env.ontologies[ts[pos + 1].text := cat]);
    OntologyDeclarationBinds(ts, pos, env, cat, close);
    SingleDeclarationProgram(ts, pos, env, after, close + 1);
  }

  /** The declaration an ONTOLOGY keyword starts binds the body's category. */
  lemma OntologyDeclarationBinds(ts: seq<Token>, pos: nat, env: Env, cat: Category, close: nat)
    requires EofTerminated(ts) && pos + 3 < |ts| && close < |ts| && EnvValid(env)
    requires Check(ts, pos, Keyword, Some("ONTOLOGY")) && Check(ts, pos + 1, Identifier, None)
    requires Check(ts, pos + 2, Symbol, Some("{")) && Check(ts, close, Symbol, Some("}"))
    requires OntologyBody(ts, pos + 3, NewCategory(ts[pos + 1].text)) == Success(Parsed(cat, close))
    ensures !AtEnd(ts, pos)
    ensures ParseDeclaration(ts, pos, env) == Success(Parsed(env.(ontologies := env.ontologies[ts[pos + 1].text := cat]), close + 1))
  {
    OntologyStep(ts, pos, env, cat, close);
    OntologyDeclaration(ts, pos, env);
  }

  /** A program of one declaration ends with that declaration's tables. */
  lemma SingleDeclarationProgram(ts: seq<Token>, pos: nat, env: Env, after: Env, next: nat)
    requires EofTerminated(ts) && pos < |ts| && !AtEnd(ts, pos) && EnvValid(env)
    requires ParseDeclaration(ts, pos, env) == Success(Parsed(after, next))
    requires AtEnd(ts, next)
    ensures ParseProgram(ts, pos, env) == Success(after)
  {
    ProgramStep(ts, pos, env);
    ProgramEnd(ts, next, after);
  }

  /** An ONTOLOGY keyword starts an ontology declaration. */
  lemma OntologyDeclaration(ts: seq<Token>, pos: nat, env: Env)
    requires EofTerminated(ts) && pos < |ts| && EnvValid(env)
    requires Check(ts, pos, Keyword, Some("ONTOLOGY"))
    ensures !AtEnd(ts, pos) && ParseDeclaration(ts, pos, env) == ParseOntology(ts, pos, env)
  {
  }

  /** At the EOF token the program ends with the tables as they are. */
  lemma ProgramEnd(ts: seq<Token>, pos: nat, env: Env)
    requires EofTerminated(ts) && pos < |ts| && EnvValid(env) && AtEnd(ts, pos)
    ensures ParseProgram(ts, pos, env) == Success(env)
  {
  }

  /** The first example's category has its two objects and one morphism. */
  lemma SimpleOntologyCounts(ts: seq<Token>)
    requires |ts| == 19 && ts[4].text == "A" && ts[8].text == "B" && ts[12].text == "f"
    ensures SimpleOntologyBody(ts).objects.entries.Keys == {"A", "B"}
    ensures SimpleOntologyBody(ts).morphisms.entries.Keys == {"f"}
    ensures |SimpleOntologyBody(ts).objects.entries| == 2 && |SimpleOntologyBody(ts).morphisms.entries| == 1
  {
    var cat := SimpleOntologyBody(ts);
    assert cat.objects.entries.Keys == {ts[4].text, ts[8].text};
    assert cat.morphisms.entries.Keys == {ts[12].text};
    assert |{"A", "B"}| == 2;
  }

  /** The first parser example: one ontology `TestOnt` with two objects
      and one morphism. */
  lemma SimpleOntologyExample(ts: seq<Token>)
    requires SimpleOntologyTokens(ts)
    ensures EofTerminated(ts)
    ensures ParseProgram(ts, 0, EmptyEnv()).Success?
    ensures var env := ParseProgram(ts, 0, EmptyEnv()).value;
      && env.ontologies.Keys == {"TestOnt"} && env.functors == map[] && env.results == map[]
      && |env.ontologies["TestOnt"].objects.entries| == 2
      && |env.ontologies["TestOnt"].morphisms.entries| == 1
  {
    SimpleOntologyProgram(ts);
    SimpleOntologyTables(ts);
  }

  /** The tables the first example leaves behind. */
  lemma SimpleOntologyTables(ts: seq<Token>)
    ensures SimpleOntologyTokens(ts) ==>
      var env := EmptyEnv().(ontologies := map[ts[1].text := SimpleOntologyBody(ts)]);
      && env.ontologies.Keys == {"TestOnt"} && env.functors == map[] && env.results == map[]
      && |env.ontologies["TestOnt"].objects.entries| == 2
      && |env.ontologies["TestOnt"].morphisms.entries| == 1
  {
    if SimpleOntologyTokens(ts) {
      var cat := SimpleOntologyBody(ts);
      var env := EmptyEnv().(ontologies := map[ts[1].text := cat]);
      SimpleOntologyCounts(ts);
      assert env.ontologies.Keys == {"TestOnt"} && env.ontologies["TestOnt"] == cat;
    }
  }

  /** The first example's program binds its name to the body's category. */
  lemma SimpleOntologyLone(ts: seq<Token>)
    requires SimpleOntologyTokens(ts)
    ensures LoneOntologyAt(ts, 0, SimpleOntologyBody(ts), 17)
  {
    SimpleOntologyParsesBody(ts);
    SimpleOntologyFrame(ts);
  }

  /** The first example's tokens around its body. */
  lemma SimpleOntologyFrame(ts: seq<Token>)
    requires SimpleOntologyTokens(ts)
    ensures EofTerminated(ts)
    ensures Check(ts, 0, Keyword, Some("ONTOLOGY")) && Check(ts, 1, Identifier, None) && Check(ts, 2, Symbol, Some("{"))
    ensures Check(ts, 17, Symbol, Some("}")) && AtEnd(ts, 18)
  {
  }

  lemma SimpleOntologyProgram(ts: seq<Token>)
    ensures SimpleOntologyTokens(ts) ==>
      (EofTerminated(ts) && ParseProgram(ts, 0, EmptyEnv()) == Success(EmptyEnv().(ontologies := map[ts[1].text := SimpleOntologyBody(ts)])))
  {
    if SimpleOntologyTokens(ts) {
      SimpleOntologyLone(ts);
      OntologyProgramFrom(ts, 0, EmptyEnv(), SimpleOntologyBody(ts), 17);
      assert EmptyEnv().ontologies[ts[1].text := SimpleOntologyBody(ts)] == map[ts[1].text := SimpleOntologyBody(ts)];
    }
  }
}
