# Categorical ontology DSL — a Dafny model

This project models the two core parts of a small category-theoretic
ontology toolkit:

- **The algebraic engine** (`core/dsl.py`). It covers objects compared by
  (name, domain), morphisms with partial composition, and categories that
  key their objects and morphisms by name. A category regenerates identity
  morphisms and registers the endpoints of every morphism it is given. On
  top of that sit functors with lookup-based application and an `is_valid`
  diagnostic, the five category operators (coproduct, product, pullback,
  pushout, difference), and functor composition.
- **The DSL front end** (`core/interpreter.py`). It covers the tokenizer,
  the recursive-descent parser that builds ontologies and functors as it
  reads, the `OPERATION` blocks that run coproduct, product and difference
  over the parser's symbol tables, and `CODSLInterpreter.execute`.

Everything is pure. Categories are immutable datatypes and every operation
is a function. Python's dictionaries keep insertion order, and the
operators iterate them: which pair wins a name collision in a product
depends on that order, and so does the order of the `is_valid` messages.
For that reason a dictionary is modelled as a `Table` (an ordered list of
distinct keys plus a map), not as a bare `map`. The parser's symbol
tables are only looked up, never iterated, so they are plain maps.
`SyntaxError` and the `KeyError` of an enum lookup become the `Failure`
side of a `Result`.

Files, one module each:

| file | module | models |
|---|---|---|
| wrappers.dfy | Wrappers | `Option`, `Result` |
| tables.dfy | Tables | insertion-ordered dictionaries |
| dsl.dfy | Dsl | `Object`, `Morphism.compose`, `Category` and its `add_*`/`get_*` methods |
| functors.dfy | Functors | `Functor`, `is_valid`, `FunctorOperations.compose` |
| operations.dfy | Operations | coproduct, pushout |
| pairings.dfy | Pairings | product, pullback |
| differences.dfy | Differences | difference |
| lexer.dfy | Lexer | `Lexer.tokenize` and its helpers |
| lexer_facts.dfy | LexerFacts | token-level properties of the lexer and the `A -> B` example |
| parser.dfy | Parsing | `Parser` and `CODSLInterpreter.execute` |
| parser_facts.dfy | ParserFacts | statement-level properties of the parser and the test example programs |

The invariant `Dsl.Valid` captures what every category the Python code
can build satisfies:

- the object and morphism tables are keyed by the names they hold;
- every morphism's endpoint names are object keys;
- the identity table holds exactly the identity of each registered object.

The operators are proved to return valid categories, and the interpreter
is proved to keep only valid categories.

## Model

| member | source | states |
|---|---|---|
| Dsl.Compose | core/dsl.py:67-77 | The composite exists exactly when the outer morphism's source equals the inner one's target under (name, domain) equality; it runs from the inner source to the outer target, is STRUCTURAL and is named `(outer ∘ inner)` |
| Dsl.SameObjectEquivalence | core/dsl.py:44-50 | Object equality is an equivalence that compares exactly the hash key (name, domain) and never looks at attributes |
| Dsl.ComposeEndpointsAssociate | core/dsl.py:67-77 | For three morphisms, (h∘g)∘f is defined exactly when h∘(g∘f) is, and both then span f's source to h's target |
| Dsl.NewCategory | core/dsl.py:83-88 | A fresh category is valid and empty, and carries the given name |
| Dsl.AddObject | core/dsl.py:90-102 | The object is stored under its name, replacing any earlier one; its identity is regenerated; the other identities and all morphisms are untouched; validity is preserved |
| Dsl.AddMorphism | core/dsl.py:104-111 | Unregistered endpoint names are added as the morphism's own endpoint objects; already-registered names keep their object; the morphism is stored under its name |
| Dsl.AddMorphismKeepsValid | core/dsl.py:104-111 | Adding a morphism preserves the category invariant: endpoint names are registered and the identities stay exact |
| Dsl.AddObjects | core/dsl.py:90-102 | A run of `add_object` calls registers exactly the old names plus the added objects' names |
| Dsl.AddMorphisms | core/dsl.py:104-111 | A run of `add_morphism` calls keeps the category's name, registers exactly the old morphism names plus the added ones, and keeps the morphism table well formed |
| Dsl.AddObjectsValues | core/dsl.py:90-92 | After a run of `add_object` calls, each name holds the last object added under it, and names not added keep their old object |
| Dsl.AddMorphismsValues | core/dsl.py:104-111 | After a run of `add_morphism` calls, each name holds the last morphism added under it, and other names keep their old morphism |
| Dsl.AddObjectsKeepsValid | core/dsl.py:90-102 | Any run of `add_object` calls preserves the category invariant |
| Dsl.AddMorphismsKeepsValid | core/dsl.py:104-111 | Any run of `add_morphism` calls preserves the category invariant |
| Dsl.AddMorphismsKeepObjects | core/dsl.py:104-111 | Morphisms whose endpoints are already registered leave the objects and identities unchanged |
| Dsl.AddObjectsFresh | core/dsl.py:90-92 | Distinct fresh names are appended to the key order in the order they were added |
| Dsl.AddMorphismsFresh | core/dsl.py:104-111 | Distinct fresh morphism names are appended to the key order in the order they were added |
| Dsl.AddMorphismsFrom | core/dsl.py:104-111 | Every morphism in the result is either an old entry kept as it was or one of the added morphisms |
| Dsl.MorphismsFrom | core/dsl.py:113-115 | A morphism is listed exactly when it is stored in the category and its source equals the given object under (name, domain) equality, and the list keeps the category's insertion order |
| Dsl.MorphismsTo | core/dsl.py:117-119 | A morphism is listed exactly when it is stored in the category and its target equals the given object under (name, domain) equality, and the list keeps the category's insertion order |
| Dsl.MorphismsFromIsFilter | core/dsl.py:113-115 | Any list that takes the stored morphisms in insertion order and holds exactly those leaving the object is `get_morphisms_from`'s list |
| Dsl.MorphismsToIsFilter | core/dsl.py:117-119 | Any list that takes the stored morphisms in insertion order and holds exactly those entering the object is `get_morphisms_to`'s list |
| Dsl.ComposableThrough | core/dsl.py:67-77 | A morphism entering an object composes with any morphism leaving it; the composite spans their outer endpoints |
| Functors.ApplyToObject | core/dsl.py:166-171 | The image exists exactly when the object's name is mapped to a name registered in the target category, and it is the object stored there |
| Functors.ApplyToMorphism | core/dsl.py:173-178 | The image exists exactly when the morphism's name is mapped to a name registered in the target category, and it is the morphism stored there |
| Functors.ImageCarriesMappedName | core/dsl.py:166-171 | Only the object's name matters for its image, and the image carries the mapped name |
| Functors.ObjectIssues | core/dsl.py:185-189 | The object-map pass reports nothing exactly when every entry's source name and target name are registered |
| Functors.MorphismIssues | core/dsl.py:192-204 | The morphism-map pass reports nothing exactly when every entry whose two morphisms exist preserves both the source and the target |
| Functors.IsValid | core/dsl.py:180-206 | The flag is true exactly when the issue list is empty, and exactly when the functor is consistent: object maps are sound, and morphism maps preserve endpoints (an unmapped endpoint counts as not preserved) |
| Functors.MissingTargetReported | core/dsl.py:185-189 | An object mapped to a name the target lacks makes the functor invalid, and that name is reported |
| Functors.ObjectIssuesCover | core/dsl.py:185-189 | Every issue of one entry appears in the issues of the whole pass |
| Functors.Chain | core/dsl.py:448-457 | The chained map is defined on `a` exactly when the inner map sends `a` to a key of the outer map, and then it sends `a` to the outer value; its keys keep the order of `ks` when `ks` has no repeats |
| Functors.ComposeFunctors | core/dsl.py:439-466 | The composite exists exactly when g's target category has the name of f's source category; it spans g's source to f's target, its rules are g's then f's, and its object and morphism maps are the chained maps, keyed in g's insertion order |
| Functors.ComposeAppliesInTurn | core/dsl.py:439-466 | Applying the composite to an object equals applying g's mapped name to f |
| Operations.TagInjective | core/dsl.py:243 | Tagging names with one category name is injective |
| Operations.TaggedObjectLands | core/dsl.py:241-248 | Each object of a category lands under its tagged name as its tagged copy |
| Operations.UntaggedObjectStays | core/dsl.py:250-257 | Adding tagged copies leaves every name outside the tagged set as it was |
| Operations.AddTaggedObjects | core/dsl.py:241-257 | The object loop of the coproduct equals the old table overridden by the tagged copies |
| Operations.AddTaggedMorphisms | core/dsl.py:260-278 | The morphism loop of the coproduct equals the old table overridden by the tagged copies |
| Operations.AddTaggedMorphismsKeepObjects | core/dsl.py:260-278 | The tagged morphisms' endpoints are already tagged objects, so the morphism loops leave the objects and identities alone |
| Operations.CoproductEntries | core/dsl.py:232-280 | The coproduct's objects and morphisms are exactly the tagged copies of A's and of B's, with B's copy winning on a tagged name the two share |
| Operations.Coproduct | core/dsl.py:237 | The coproduct carries the given name, or `(A + B)` when the name is absent or empty |
| Operations.CoproductObjectKeys | core/dsl.py:232-257 | The coproduct's object names are the tagged names of both categories |
| Operations.CoproductValid | core/dsl.py:232-280 | The coproduct is a valid category |
| Operations.CoproductCount | core/dsl.py:232-280 | When the two tagged name sets are disjoint, the coproduct has \|A\|+\|B\| objects and \|A\|+\|B\| morphisms |
| Operations.DotFreeTagsDisjoint | core/dsl.py:243-252 | Names tagged with two different dot-free category names never coincide |
| Operations.CoproductCountDistinctNames | core/dsl.py:232-280 | The count holds whenever the two categories have different dot-free names |
| Operations.CoproductSelf | core/dsl.py:232-280 | The coproduct of a category with itself is only as large as the category, because the tagged names coincide |
| Operations.Equivalences | core/dsl.py:388-394 | A pair is recorded exactly when some object of the common source has images under both functors, and the pair is those images' `L.`/`R.` names |
| Operations.Pushout | core/dsl.py:359-397 | The pushout has no morphisms, and the equivalences it returns are those of the common source's objects |
| Operations.PushoutEntries | core/dsl.py:371-386 | The pushout's objects are A's tagged with `L` and B's tagged with `R` |
| Operations.PushoutCount | core/dsl.py:371-386 | The pushout always has \|A\|+\|B\| objects |
| Operations.PushoutValid | core/dsl.py:359-397 | The pushout is a valid category |
| Operations.PushoutEquivalencesRegistered | core/dsl.py:388-394 | When the functors land in A and B, both names of every equivalence are objects of the pushout |
| Pairings.Grid | core/dsl.py:292-300 | The nested loops produce exactly the cells of all pairs (i, j) |
| Pairings.BracketedInjective | core/dsl.py:295 | Pair names are injective when first components contain no comma |
| Pairings.BracketedCollision | core/dsl.py:295 | Without that hypothesis two different pairs share a name: `(p, q, r)` |
| Pairings.CommaFreePairsDistinct | core/dsl.py:295 | Comma-free first components give every pair of names its own pair name |
| Pairings.PairNamesSize | core/dsl.py:292-300 | When no two pairs share a pair name there are \|xs\|·\|ys\| pair names |
| Pairings.ProductObjectKeys | core/dsl.py:291-300 | The product's object names are exactly the pair names of A's and B's object names |
| Pairings.ProductKeepsObjects | core/dsl.py:302-318 | The morphism loop never registers a new object, because every product endpoint is already a product object |
| Pairings.ProductMorphismKeys | core/dsl.py:302-318 | The product's morphism names are exactly the pair names of A's and B's morphism names |
| Pairings.ProductStructural | core/dsl.py:315 | Every product morphism is STRUCTURAL |
| Pairings.ProductValid | core/dsl.py:283-320 | The product is a valid category |
| Pairings.Product | core/dsl.py:288 | The product carries the given name, or `(A × B)` when the name is absent or empty |
| Pairings.ProductObjectAt | core/dsl.py:294-300 | When no two pairs of object names share a pair name, the object under `(x, y)` has domain `dx×dy` and attributes x's followed by y's |
| Pairings.ProductMorphismAt | core/dsl.py:305-318 | When no two pairs of morphism names share a pair name, the morphism under `(f, g)` is the STRUCTURAL pair of f and g, running from the pair of their sources to the pair of their targets |
| Pairings.ProductCount | core/dsl.py:283-320 | When no two pairs share a pair name, the product has \|A\|·\|B\| objects and \|A\|·\|B\| morphisms |
| Pairings.ImagesMeetIff | core/dsl.py:336-347 | Two objects meet exactly when both are mapped to the same name and that name is registered in both target categories |
| Pairings.Pullback | core/dsl.py:323-356 | The pullback carries the given or default name and adds no morphisms |
| Pairings.PullbackKeys | core/dsl.py:336-354 | The pullback's object names are exactly the names `⟨a, b⟩` of the pairs whose images meet |
| Pairings.PullbackValid | core/dsl.py:323-356 | The pullback is a valid category |
| Pairings.PullbackObjectAt | core/dsl.py:347-354 | When no two pairs of object names share a pullback name, the object for a meeting pair has domain `pullback` and both attribute lists |
| Differences.KeptObjects | core/dsl.py:417-420 | An object is kept exactly when B has no object with its (name, domain) |
| Differences.KeptMorphisms | core/dsl.py:423-428 | A morphism is kept exactly when its signature is absent from B and both endpoint names survived |
| Differences.InsertMorphismsKeepValid | core/dsl.py:428 | Writing morphisms with registered endpoints directly into the table keeps the category valid |
| Differences.InsertMorphisms | core/dsl.py:422-428 | Writing morphisms straight into the table leaves the name, objects and identities alone and registers exactly the old names plus the written ones |
| Differences.KeptNamesAreKeys | core/dsl.py:416-420 | The names collected by the object loop are exactly the surviving object names |
| Differences.DifferenceObjectEntries | core/dsl.py:410-420 | The difference's objects are exactly A's objects whose (name, domain) B lacks, unchanged |
| Differences.InsertKeptEntries | core/dsl.py:422-428 | The morphism loop writes exactly the surviving morphisms |
| Differences.DifferenceMorphismEntries | core/dsl.py:422-428 | The difference's morphisms are exactly A's morphisms whose signature B lacks and whose endpoint names both survive |
| Differences.DifferenceValid | core/dsl.py:400-430 | The difference is a valid category: the endpoint and identity invariants still hold |
| Differences.Difference | core/dsl.py:407 | The difference carries the given name, or `(A - B)` when the name is absent or empty |
| Differences.DifferenceSelf | core/dsl.py:400-430 | A minus itself is empty |
| Differences.DifferenceDisjoint | core/dsl.py:410-420 | When B shares no (name, domain) with A, the difference keeps all of A's objects |
| Lexer.RunEnd | core/interpreter.py:141-193 | A run ends at the first position whose character leaves the run's class, or at the end of the input |
| Lexer.SkipBlanks | core/interpreter.py:141-144 | Skips exactly the maximal run of spaces, tabs and carriage returns, advancing the column by its length |
| Lexer.ScanString | core/interpreter.py:158-163 | Stops at the first quote or at the end of the input, and the line grows by the number of line breaks passed |
| Lexer.SkipLine | core/interpreter.py:146-152 | Stops just after the first line break, with no break before it; there the line grows by one and the column restarts at 1. Without a break it runs to the end of the input and leaves line and column unchanged |
| Lexer.ReadString | core/interpreter.py:154-170 | The token is the raw text up to the next quote, without escapes; it may span lines, and its line is the line where the string ends |
| Lexer.ReadIdentifier | core/interpreter.py:172-182 | The token is the maximal alphanumeric or `_` run, and it is a KEYWORD exactly when its text is reserved |
| Lexer.ReadNumber | core/interpreter.py:184-193 | The token is the maximal run of digits and dots |
| Lexer.NextStep | core/interpreter.py:93-136 | One step always advances and emits at most one token, never EOF or NEWLINE |
| Lexer.LexFrom | core/interpreter.py:88-138 | The tokens from any cursor end with an EOF token |
| Lexer.LexFromWellEnded | core/interpreter.py:88-138 | The token list ends with EOF, has no other EOF, and has no NEWLINE |
| Lexer.Tokenize | core/interpreter.py:87-139 | `tokenize` returns a list whose last token, and only that token, is EOF, and which holds no NEWLINE token |
| LexerFacts.ArrowIsOneSymbol | core/interpreter.py:106-110 | `-` followed by `>` gives one `->` SYMBOL token and advances two columns |
| LexerFacts.LoneSymbol | core/interpreter.py:111-114 | Any other symbol character, including a lone `-`, gives a one-character SYMBOL token |
| LexerFacts.IdentifierStep | core/interpreter.py:118-120 | A letter or `_` starts an identifier token |
| LexerFacts.StringStep | core/interpreter.py:101-103 | A quote starts a string token |
| LexerFacts.CommentEmitsNothing | core/interpreter.py:96-98 | A `#` comment up to the end of its line emits no token |
| LexerFacts.LineBreakEmitsNothing | core/interpreter.py:128-132 | A line break emits no token, increments the line and resets the column to 1 |
| LexerFacts.BlanksEmitNothing | core/interpreter.py:141-144 | Blanks emit no token |
| LexerFacts.NextStepLines | core/interpreter.py:93-136 | Each step advances the line count by exactly the number of line breaks it passed |
| LexerFacts.EofLine | core/interpreter.py:88-138 | The EOF token's line is the starting line plus the line breaks of the rest of the input |
| LexerFacts.TokenizeEofLine | core/interpreter.py:87-139 | The EOF token of `tokenize` stands on line 1 plus the number of line breaks in the source |
| LexerFacts.ArrowExample | tests/test_codsl.py:318-325 | `A -> B` tokenizes to `A`, one `->`, `B`, EOF |
| Parsing.Consume | core/interpreter.py:454-472 | Succeeds exactly when the current token is not EOF and has the expected kind (and value); it then returns its text and moves one on, and otherwise reports what was expected and where |
| Parsing.Advance | core/interpreter.py:464-467 | Moves one token on, never past the EOF token |
| Parsing.LookupMorphismType | core/interpreter.py:311 | The lookup succeeds exactly when the upper-cased name is a member name, and returns that member; otherwise it fails naming the upper-cased name |
| Parsing.LookupLevel | core/interpreter.py:450 | The lookup succeeds exactly when the upper-cased name is a validation level, and returns that level; otherwise it fails naming the upper-cased name |
| Parsing.Upper | core/interpreter.py:311 | Lower-case ASCII letters become their capitals, every other character stays, and no lower-case letter is left |
| Parsing.AttributeList | core/interpreter.py:269-273 | The result is the given list followed by the texts of the identifiers read, in order, and reading stops before `]` |
| Parsing.AttributesClause | core/interpreter.py:265-274 | `attributes : [ … ]` appends the identifiers between the brackets, in order |
| Parsing.SemanticClause | core/interpreter.py:275-278 | `semantic : "text"` is read as three tokens, the last a string, and yields that string |
| Parsing.ObjectBody | core/interpreter.py:264-280 | The attributes are the given ones followed by every identifier of the attribute clauses read, in order; semantic clauses add none |
| Parsing.ParseObject | core/interpreter.py:251-289 | The object carries the declared name and domain, and its attributes are the identifiers of its body's attribute clauses, in order; without a `{` body it has no attributes and ends after the domain |
| Parsing.MorphismBody | core/interpreter.py:306-317 | The kind is the member named by the last `type` clause read, compared after upper-casing; a body without a `type` clause keeps the incoming kind |
| Parsing.MorphismBlock | core/interpreter.py:300-319 | Without `{` nothing is read and the kind is STRUCTURAL; otherwise the kind is set by the block's last `type` clause, and STRUCTURAL when there is none |
| Parsing.Endpoint | core/interpreter.py:321-322 | A declared endpoint is the category's object; an undeclared one is a placeholder with domain `unknown` |
| Parsing.ParseMorphism | core/interpreter.py:291-330 | The morphism carries the declared name and the resolved endpoints; its kind is the one named by the block's last `type` clause, and STRUCTURAL when there is no such clause or no block |
| Parsing.OntologyBody | core/interpreter.py:238-246 | Reading objects and morphisms keeps the category's name and its validity; what each clause adds is stated by `ParserFacts.BodyObjectStep` and `ParserFacts.BodyMorphismStep`, where the body stops by `ParserFacts.BodyStops` |
| Parsing.ParseOntology | core/interpreter.py:230-249 | Binds exactly the declared name to a category of that name, keeps the other bindings, and keeps the symbol tables valid |
| Parsing.MapClause | core/interpreter.py:347-360 | A MAP clause keeps the rules, reads no string, keeps both maps well formed and never drops a key |
| Parsing.RuleClause | core/interpreter.py:361-364 | A RULE clause appends its string to the rules and changes nothing else |
| Parsing.FunctorBody | core/interpreter.py:346-366 | Both maps stay well formed and only gain keys; the rules are the given ones followed by every string read, in order |
| Parsing.FunctorHeader | core/interpreter.py:334-340 | `FUNCTOR name : S -> T {` yields the three names and ends after the brace; none of its tokens is a string |
| Parsing.BindFunctor | core/interpreter.py:370-382 | With both ontologies declared, exactly `name` is (re)bound to a functor over them carrying the given maps and rules, and every other binding stays; otherwise nothing changes |
| Parsing.ParseFunctor | core/interpreter.py:332-382 | The body is always consumed; the functor is bound, over the named ontologies and with the body's strings as its rules in order, exactly when both names are declared ontologies, and otherwise the functor table is unchanged |
| Parsing.OperatorAt | core/interpreter.py:393-438 | An operator is selected exactly when the token is the COPRODUCT, PRODUCT or DIFFERENCE keyword |
| Parsing.Resolve | core/interpreter.py:401-402 | An operand resolves exactly when it names an ontology or a result, and an ontology shadows a result of the same name |
| Parsing.Apply | core/interpreter.py:404-436 | Every operator returns a valid category |
| Parsing.Record | core/interpreter.py:401-406 | The result is bound exactly when both operands resolve, to the operator applied to them; otherwise nothing changes |
| Parsing.OperationCall | core/interpreter.py:394-406 | A complete `OP(x, y)` records its result and ends after the parenthesis |
| Parsing.OperationBody | core/interpreter.py:389-439 | Statements keep the ontologies and functors, keep the tables valid, and never unbind a name |
| Parsing.ParseOperation | core/interpreter.py:384-441 | An operation block keeps the ontologies and functors and the tables valid |
| Parsing.ParseValidation | core/interpreter.py:443-450 | `VALIDATE t WITH l` succeeds exactly on that token shape with a known level name, and changes no table |
| Parsing.ParseDeclaration | core/interpreter.py:217-228 | Each declaration consumes at least one token and keeps the tables valid |
| Parsing.ParseProgram | core/interpreter.py:206-215 | Parsing ends with valid tables that extend the starting ones |
| Parsing.Execute | core/interpreter.py:484-492 | Every category the interpreter returns is valid |
| ParserFacts.StatementRecords | core/interpreter.py:389-406 | A complete statement records its result and the block continues after its closing parenthesis |
| ParserFacts.RecordResolves | core/interpreter.py:401-406 | With both operands known, the result table gains the operator applied to them, ontologies first |
| ParserFacts.RecordSkipsUnknown | core/interpreter.py:404 | An unknown operand leaves the tables as they were |
| ParserFacts.UnknownOperatorEndsBlock | core/interpreter.py:438-441 | Another right-hand side ends the block after `=`: it closes only if `}` follows, and otherwise the closing brace is reported missing |
| ParserFacts.PullbackIsRejected | core/interpreter.py:389-441 | `X = PULLBACK(...)` in an operation block is a syntax error |
| ParserFacts.CoproductOfSingles | core/dsl.py:241-257 | The coproduct of two one-object categories holds exactly the two tagged names |
| ParserFacts.CombinedCoproduct | tests/test_codsl.py:348-366 | `Combined = COPRODUCT(A, B)` over `A { X }` and `B { Y }` records `Combined` with exactly the objects `A.X` and `B.Y` |
| ParserFacts.MorphismTypeNamesRoundTrip | core/dsl.py:27-33 | Every member name looks up to its own member |
| ParserFacts.MorphismTypeValuesRoundTrip | core/dsl.py:27-33 | Every member value (`functional`, …) looks up to its own member |
| ParserFacts.LookupIgnoresCase | core/interpreter.py:311 | Names equal after upper-casing look up to the same member, or fail with the same upper-cased name |
| ParserFacts.UpperIdempotent | core/interpreter.py:311 | Upper-casing twice equals upper-casing once |
| ParserFacts.LookupOfUpper | core/interpreter.py:311 | Looking up an upper-cased name gives the same outcome, member or error, as looking up the name itself |
| ParserFacts.MorphismTypeStep | core/interpreter.py:307-311 | `type : t` fails with `t` upper-cased when no member is named `t` after upper-casing, and otherwise reads on with that member as the kind |
| ParserFacts.FunctionalClause | core/interpreter.py:307-311 | `type : functional }` makes the kind FUNCTIONAL |
| ParserFacts.UnknownTypeClause | core/interpreter.py:311 | `type : bogus` fails, naming `BOGUS`, the key the enum lookup was given |
| ParserFacts.TypeFreeIsStructural | core/interpreter.py:300-319 | A morphism whose block holds no `type` clause is STRUCTURAL |
| ParserFacts.MapObjectStep | core/interpreter.py:349-354 | `MAP OBJECT s -> t` sets `s` to `t` in the object map and reads on |
| ParserFacts.MapMorphismStep | core/interpreter.py:355-360 | `MAP MORPHISM s -> t` sets `s` to `t` in the morphism map and reads on |
| ParserFacts.RuleStep | core/interpreter.py:361-364 | `RULE "x"` appends `x` to the rules and reads on |
| ParserFacts.FunctorStep | core/interpreter.py:332-382 | A well-formed functor declaration binds a functor with the body's maps and rules when both ontologies are declared, and leaves the tables alone otherwise |
| ParserFacts.LevelNamesRoundTrip | core/validator.py:16-20 | Each validation level's name and value look up to that level |
| ParserFacts.UnknownTokenSkipped | core/interpreter.py:217-228 | A token that starts no declaration is skipped, and the program continues at the next token |
| ParserFacts.ErrorStopsProgram | core/interpreter.py:206-209 | A failing declaration ends the whole program with its error |
| ParserFacts.OntologyStep | core/interpreter.py:230-249 | A well-formed ontology declaration binds its body's category under its name |
| ParserFacts.BodyObjectStep | core/interpreter.py:238-240 | When an OBJECT clause is read, the body goes on after it with that object added to the category |
| ParserFacts.BodyMorphismStep | core/interpreter.py:238-243 | When a MORPHISM clause is read against the category so far, the body goes on after it with that morphism added |
| ParserFacts.BodyStops | core/interpreter.py:238-245 | At a token that starts neither an OBJECT nor a MORPHISM clause, the closing brace included, the body ends there with the category unchanged |
| ParserFacts.SimpleOntologyExample | tests/test_codsl.py:331-346 | The token list of `ONTOLOGY TestOnt { OBJECT A : domain1 OBJECT B : domain1 MORPHISM f : A -> B }` yields only `TestOnt`, with 2 objects and 1 morphism |

## Left out

- `Category.signature`, `Category.to_dict`: the MD5 hash and the JSON serialisation are outside the modelled behaviour.
- Free text: `Category.description`, `semantic_signature`, `semantic_description` and the default-name formatting of composite descriptions are dropped. The pushout returns its equivalence list next to the category instead of appending it to the description.
- `NaturalTransformation.is_natural`: a stub that always succeeds.
- `core/validator.py`: only the `ValidationLevel` enum is kept. The parser checks the level name and runs nothing, exactly as the source does.
- The HTTP server, the demo scripts and `execute_file`: I/O and printing.
- Pairings.Pullback: the `common_target` argument is not a parameter, because the source never uses it except in the description string.
- Lexer.Tokenize: `str.isalpha`, `str.isdigit` and `str.isalnum` are Unicode predicates; they are a `CharClasses` parameter, and line-break facts assume only that `\n` is in none of the classes.
- Parsing.Upper: `str.upper` is modelled on ASCII letters only; the lookups are therefore exact for ASCII type and level names.
- Parsing.ParseProgram: requires a token list ending in EOF, which `tokenize` always produces; the parser is never called on anything else.
- Parsing.OperationBody: requires valid symbol tables; `Execute` starts from empty ones and every production keeps them valid.
- Operations.CoproductCount: holds only when the two tagged name sets are disjoint. The \|A\|+\|B\| object count asserted in tests/test_codsl.py:416-420 does not hold for every input: tagged names collide for `coproduct(A, A)`, or when a category name contains a dot. The model follows the code and proves the collapse (`Operations.CoproductSelf`).
- Pairings.ProductCount: is proved only when no two pairs share a pair name (`Pairings.PairsDistinct`), which comma-free first components guarantee (`Pairings.CommaFreePairsDistinct`); names such as `p, q` can make two pairs collide as `(p, q, r)` (`Pairings.BracketedCollision`), and then the product is smaller.
- Pairings.ProductObjectAt: assumes distinct pair names for the same reason; when two pairs collide the later one overwrites the earlier.
- Pairings.ProductMorphismAt: assumes distinct pair names of morphisms for the same reason; when two pairs of morphisms collide the later one overwrites the earlier.
- Pairings.PullbackObjectAt: assumes distinct pullback names `⟨x, y⟩` for the same reason.
- ParserFacts.SimpleOntologyExample: is proved from the example's token list (the 19 tokens the lexer gives for it), not from the indented, multi-line source text of tests/test_codsl.py:331-346; the lexing of that text is not proved.
- ParserFacts.CombinedCoproduct: the coproduct example is proved at the level of the statement's effect on the symbol tables, not as a full token-level parse of the program text.
- LexerFacts.ArrowExample: the `A -> B` example assumes only that `A` and `B` are letters and that the space is not alphanumeric.
