/** The two operators that pair objects of two categories: `product` (all
    pairs) and `pullback` (the pairs whose functor images meet). Source:
    core/dsl.py. */
module Pairings {
  import opened Wrappers
  import opened Tables
  import opened Dsl
  import opened Functors
  import opened Operations

  // ---------------------------------------------------------------------
  // Nested loops

  /** The cells of row `x`: `for y in ys`, in order. */
  function Row<A, B>(x: A, ys: seq<A>, cell: (A, A) -> seq<B>): (r: seq<B>)
    ensures forall j, b :: 0 <= j < |ys| && b in cell(x, ys[j]) ==> b in r
    ensures forall b :: b in r ==> exists j :: 0 <= j < |ys| && b in cell(x, ys[j])
    decreases |ys|
  {
    if |ys| == 0 then []
    else
      var init := ys[..|ys| - 1];
      var rest := Row(x, init, cell);
      assert forall j :: 0 <= j < |init| ==> init[j] == ys[j];
      rest + cell(x, ys[|ys| - 1])
  }

  /** `for x in xs: for y in ys: ...`, each iteration contributing the
      elements `cell(x, y)`, row by row. */
  function Grid<A, B>(xs: seq<A>, ys: seq<A>, cell: (A, A) -> seq<B>): (r: seq<B>)
    ensures forall i, j, b :: 0 <= i < |xs| && 0 <= j < |ys| && b in cell(xs[i], ys[j]) ==> b in r
    ensures forall b :: b in r ==> exists i, j :: 0 <= i < |xs| && 0 <= j < |ys| && b in cell(xs[i], ys[j])
    decreases |xs|
  {
    if |xs| == 0 then []
    else
      var init := xs[..|xs| - 1];
      var rest := Grid(init, ys, cell);
      assert forall i :: 0 <= i < |init| ==> init[i] == xs[i];
      rest + Row(xs[|xs| - 1], ys, cell)
  }

  // ---------------------------------------------------------------------
  // Pair names

  /** `open + x + ", " + y + close`: the name of a pair. */
  function Bracketed(open: char, close: char, x: string, y: string): string {
    [open] + x + ", " + y + [close]
  }

  /** With a comma-free first component, the first comma of a pair name
      ends that component. */
  lemma BracketedShape(open: char, close: char, x: string, y: string)
    requires ',' !in x
    ensures var s := Bracketed(open, close, x, y);
            && |s| == |x| + |y| + 4
            && s[1..1 + |x|] == x && s[1 + |x|] == ','
            && (forall i :: 1 <= i < 1 + |x| ==> s[i] != ',')
            && s[|x| + 3..|s| - 1] == y
  {
    var s := Bracketed(open, close, x, y);
    assert s[1..1 + |x|] == x;
    assert s[|x| + 3..|s| - 1] == y;
  }

  /** Pair names are injective as long as first components hold no comma. */
  lemma BracketedInjective(open: char, close: char, x1: string, y1: string, x2: string, y2: string)
    requires ',' !in x1 && ',' !in x2
    ensures Bracketed(open, close, x1, y1) == Bracketed(open, close, x2, y2) ==> x1 == x2 && y1 == y2
  {
    BracketedShape(open, close, x1, y1);
    BracketedShape(open, close, x2, y2);
  }

  predicate CommaFree(names: set<string>) {
    forall n :: n in names ==> ',' !in n
  }

  /** Two objects with the first name "p, q" and "p" and second names "r"
      and "q, r" give the same pair name: the hypothesis is needed. */
  lemma BracketedCollision(open: char, close: char)
    ensures Bracketed(open, close, "p, q", "r") == Bracketed(open, close, "p", "q, r")
  {
  }

  /** The pairs (x1, y1) and (x2, y2) have the same pair name. */
  predicate SamePairName(open: char, close: char, x1: string, y1: string, x2: string, y2: string) {
    Bracketed(open, close, x1, y1) == Bracketed(open, close, x2, y2)
  }

  /** No two pairs of `xs` × `ys` share a pair name. */
  predicate PairsDistinct(open: char, close: char, xs: set<string>, ys: set<string>) {
    forall x1, y1, x2, y2 {:trigger SamePairName(open, close, x1, y1, x2, y2)} ::
      (x1 in xs && y1 in ys && x2 in xs && y2 in ys && SamePairName(open, close, x1, y1, x2, y2))
        ==> x1 == x2 && y1 == y2
  }

  lemma PairsDistinctWithin(open: char, close: char, xs: set<string>, ys: set<string>, xs': set<string>, ys': set<string>)
    requires PairsDistinct(open, close, xs, ys) && xs' <= xs && ys' <= ys
    ensures PairsDistinct(open, close, xs', ys')
  {
    forall x1, y1, x2, y2 | x1 in xs' && y1 in ys' && x2 in xs' && y2 in ys' && SamePairName(open, close, x1, y1, x2, y2)
      ensures x1 == x2 && y1 == y2
    {
    }
  }

  /** Comma-free first components give distinct pair names. */
  lemma CommaFreePairsDistinct(open: char, close: char, xs: set<string>, ys: set<string>)
    requires CommaFree(xs)
    ensures PairsDistinct(open, close, xs, ys)
  {
    forall x1, y1, x2, y2 | x1 in xs && y1 in ys && x2 in xs && y2 in ys
      ensures SamePairName(open, close, x1, y1, x2, y2) ==> x1 == x2 && y1 == y2
    {
      BracketedInjective(open, close, x1, y1, x2, y2);
    }
  }

  /** Every pair name built from the two key sets. */
  function PairNames(open: char, close: char, xs: set<string>, ys: set<string>): set<string> {
    set x, y | x in xs && y in ys :: Bracketed(open, close, x, y)
  }

  lemma {:induction false} RowSize(open: char, close: char, xs: set<string>, x: string, ys: set<string>)
    requires x in xs && PairsDistinct(open, close, xs, ys)
    ensures |set y | y in ys :: Bracketed(open, close, x, y)| == |ys|
    decreases ys
  {
    if ys != {} {
      var y0 :| y0 in ys;
      var rest := ys - {y0};
      PairsDistinctWithin(open, close, xs, ys, xs, rest);
      RowSize(open, close, xs, x, rest);
      var row := set y | y in rest :: Bracketed(open, close, x, y);
      forall y | y in rest ensures !SamePairName(open, close, x, y, x, y0) {
        assert y != y0;
      }
      assert (set y | y in ys :: Bracketed(open, close, x, y)) == row + {Bracketed(open, close, x, y0)};
    }
  }

  lemma MultiplySuccessor(n: nat, m: nat)
    ensures (n + 1) * m == n * m + m
  {
  }

  /** When no two pairs share a name, there are |xs| * |ys| pair names. */
  lemma {:induction false} PairNamesSize(open: char, close: char, xs: set<string>, ys: set<string>)
    requires PairsDistinct(open, close, xs, ys)
    ensures |PairNames(open, close, xs, ys)| == |xs| * |ys|
    decreases xs
  {
    if xs != {} {
      var x0 :| x0 in xs;
      var rest := xs - {x0};
      PairsDistinctWithin(open, close, xs, ys, rest, ys);
      PairNamesSize(open, close, rest, ys);
      RowSize(open, close, xs, x0, ys);
      assert rest + {x0} == xs;
      RowsDisjoint(open, close, rest, ys, x0);
      PairNamesCombine(open, close, xs, ys, x0);
    }
  }

  /** The row of `x0` added to the other rows, counted. */
  lemma PairNamesCombine(open: char, close: char, xs: set<string>, ys: set<string>, x0: string)
    requires x0 in xs
    requires |PairNames(open, close, xs - {x0}, ys)| == |xs - {x0}| * |ys|
    requires |set y | y in ys :: Bracketed(open, close, x0, y)| == |ys|
    requires PairNames(open, close, xs - {x0}, ys) !! set y | y in ys :: Bracketed(open, close, x0, y)
    ensures |PairNames(open, close, xs, ys)| == |xs| * |ys|
  {
    var rest := xs - {x0};
    var row := set y | y in ys :: Bracketed(open, close, x0, y);
    PairNamesPeel(open, close, xs, ys, x0);
    SizeStep(PairNames(open, close, xs, ys), PairNames(open, close, rest, ys), row, |rest|, |ys|);
    assert |xs| == |rest| + 1;
  }

  /** Adding a disjoint row of `m` names to `n` rows of `m` names. */
  lemma SizeStep<T>(all: set<T>, before: set<T>, row: set<T>, n: nat, m: nat)
    requires all == before + row && before !! row
    requires |before| == n * m && |row| == m
    ensures |all| == (n + 1) * m
  {
    MultiplySuccessor(n, m);
  }

  /** The pair names of `xs` are those of `xs` without `x0`, plus the row
      of `x0`. */
  lemma PairNamesPeel(open: char, close: char, xs: set<string>, ys: set<string>, x0: string)
    requires x0 in xs
    ensures PairNames(open, close, xs, ys) ==
              PairNames(open, close, xs - {x0}, ys) + set y | y in ys :: Bracketed(open, close, x0, y)
  {
  }

  /** When no two pairs share a name, another first component's pair
      names miss the row of `x0`. */
  lemma RowsDisjoint(open: char, close: char, rest: set<string>, ys: set<string>, x0: string)
    requires PairsDistinct(open, close, rest + {x0}, ys) && x0 !in rest
    ensures PairNames(open, close, rest, ys) !! set y | y in ys :: Bracketed(open, close, x0, y)
  {
    forall n | n in PairNames(open, close, rest, ys) ensures n !in set y | y in ys :: Bracketed(open, close, x0, y) {
      var x, y :| x in rest && y in ys && n == Bracketed(open, close, x, y);
      assert x in rest + {x0} && x0 in rest + {x0};
      forall y' | y' in ys ensures !SamePairName(open, close, x, y, x0, y') {
        assert x != x0;
      }
    }
  }

  /** An object is among `os` only if its name is among their names. */
  lemma NameOfMember(os: seq<Object>, o: Object)
    requires o in os
    ensures o.name in Elements(ObjectNames(os))
  {
    var t :| 0 <= t < |os| && os[t] == o;
    assert ObjectNames(os)[t] == o.name;
  }

  lemma NameOfMemberMorphism(ms: seq<Morphism>, m: Morphism)
    requires m in ms
    ensures m.name in Elements(MorphismNames(ms))
  {
    var t :| 0 <= t < |ms| && ms[t] == m;
    assert MorphismNames(ms)[t] == m.name;
  }

  /** Position `i` of a table's key order holds the entry of that key. */
  lemma KeyPosition<V>(t: Table<V>, k: string) returns (i: nat)
    requires t.Valid() && k in t.entries
    ensures i < |t.keys| && t.keys[i] == k && t.Values()[i] == t.entries[k]
  {
    i :| 0 <= i < |t.keys| && t.keys[i] == k;
  }

  // ---------------------------------------------------------------------
  // Product

  function PairName(x: string, y: string): string {
    Bracketed('(', ')', x, y)
  }

  /** The pair of two objects: the pair name, the two domains joined by
      "×", and both attribute lists. */
  function ProductObject(o1: Object, o2: Object): Object {
    Object(PairName(o1.name, o2.name), o1.domain + "×" + o2.domain, o1.attributes + o2.attributes)
  }

  /** The bare endpoint object a product morphism is given. */
  function PairEndpoint(o1: Object, o2: Object): Object {
    Object(PairName(o1.name, o2.name), o1.domain + "×" + o2.domain, [])
  }

  function ProductMorphism(m1: Morphism, m2: Morphism): Morphism {
    Morphism(PairName(m1.name, m2.name), PairEndpoint(m1.source, m2.source), PairEndpoint(m1.target, m2.target), Structural, [])
  }

  function ProductCell(o1: Object, o2: Object): seq<Object> {
    [ProductObject(o1, o2)]
  }

  function ProductMorphismCell(m1: Morphism, m2: Morphism): seq<Morphism> {
    [ProductMorphism(m1, m2)]
  }

  function ProductName(a: Category, b: Category, name: Option<string>): string {
    ResultName(name, "(" + a.name + " × " + b.name + ")")
  }

  /** The product after its object loops. */
  function ProductObjects(a: Category, b: Category, name: Option<string>): (r: Category)
    requires Tabled(a) && Tabled(b)
    ensures r.name == ProductName(a, b, name) && r.morphisms.entries == map[]
  {
    AddObjects(NewCategory(ProductName(a, b, name)), Grid(a.objects.Values(), b.objects.Values(), ProductCell))
  }

  /** `product(A, B)`: one object per pair of objects, one structural
      morphism per pair of morphisms. */
  function Product(a: Category, b: Category, name: Option<string>): (r: Category)
    requires Tabled(a) && Tabled(b)
    ensures r.name == ProductName(a, b, name)
  {
    AddMorphisms(ProductObjects(a, b, name), Grid(a.morphisms.Values(), b.morphisms.Values(), ProductMorphismCell))
  }

  /** The product's object names are exactly the pair names of A's and B's
      object names. */
  lemma ProductObjectKeys(a: Category, b: Category, name: Option<string>)
    requires ObjectsKeyed(a) && ObjectsKeyed(b) && Tabled(a) && Tabled(b)
    ensures ProductObjects(a, b, name).objects.entries.Keys == PairNames('(', ')', a.objects.entries.Keys, b.objects.entries.Keys)
  {
    ProductObjectKeysCover(a, b, name);
    ProductObjectKeysWithin(a, b, name);
  }

  lemma ProductObjectKeysCover(a: Category, b: Category, name: Option<string>)
    requires ObjectsKeyed(a) && ObjectsKeyed(b) && Tabled(a) && Tabled(b)
    ensures PairNames('(', ')', a.objects.entries.Keys, b.objects.entries.Keys) <= Elements(ObjectNames(Grid(a.objects.Values(), b.objects.Values(), ProductCell)))
  {
    var xs := a.objects.Values();
    var ys := b.objects.Values();
    var ps := Grid(xs, ys, ProductCell);
    forall n | n in PairNames('(', ')', a.objects.entries.Keys, b.objects.entries.Keys)
      ensures n in Elements(ObjectNames(ps))
    {
      var x, y :| x in a.objects.entries && y in b.objects.entries && n == PairName(x, y);
      var i := KeyPosition(a.objects, x);
      var j := KeyPosition(b.objects, y);
      assert ProductObject(xs[i], ys[j]) in ProductCell(xs[i], ys[j]);
      NameOfMember(ps, ProductObject(xs[i], ys[j]));
    }
  }

  lemma ProductObjectKeysWithin(a: Category, b: Category, name: Option<string>)
    requires ObjectsKeyed(a) && ObjectsKeyed(b) && Tabled(a) && Tabled(b)
    ensures Elements(ObjectNames(Grid(a.objects.Values(), b.objects.Values(), ProductCell))) <= PairNames('(', ')', a.objects.entries.Keys, b.objects.entries.Keys)
  {
    var xs := a.objects.Values();
    var ys := b.objects.Values();
    var ps := Grid(xs, ys, ProductCell);
    forall n | n in Elements(ObjectNames(ps))
      ensures n in PairNames('(', ')', a.objects.entries.Keys, b.objects.entries.Keys)
    {
      var t :| 0 <= t < |ps| && ObjectNames(ps)[t] == n;
      assert ps[t] in ps;
      var i, j :| 0 <= i < |xs| && 0 <= j < |ys| && ps[t] in ProductCell(xs[i], ys[j]);
      assert n == PairName(a.objects.keys[i], b.objects.keys[j]);
    }
  }

  /** Every endpoint of a product morphism is a pair of registered objects,
      so the morphism loops leave the objects alone. */
  lemma ProductKeepsObjects(a: Category, b: Category, name: Option<string>)
    requires ObjectsKeyed(a) && ObjectsKeyed(b) && MorphismsKeyed(a) && MorphismsKeyed(b) && Tabled(a) && Tabled(b)
    requires EndpointsRegistered(a) && EndpointsRegistered(b)
    ensures Product(a, b, name).objects == ProductObjects(a, b, name).objects
    ensures Product(a, b, name).identities == ProductObjects(a, b, name).identities
  {
    var c := ProductObjects(a, b, name);
    var xs := a.morphisms.Values();
    var ys := b.morphisms.Values();
    var ms := Grid(xs, ys, ProductMorphismCell);
    ProductObjectKeys(a, b, name);
    forall t | 0 <= t < |ms|
      ensures ms[t].source.name in c.objects.entries && ms[t].target.name in c.objects.entries
    {
      ProductMorphismEndpoints(a, b, name, t);
    }
    AddMorphismsKeepObjects(c, ms);
  }

  /** Every product morphism runs between product objects. */
  lemma ProductMorphismEndpoints(a: Category, b: Category, name: Option<string>, t: nat)
    requires ObjectsKeyed(a) && ObjectsKeyed(b) && MorphismsKeyed(a) && MorphismsKeyed(b) && Tabled(a) && Tabled(b)
    requires EndpointsRegistered(a) && EndpointsRegistered(b)
    requires t < |Grid(a.morphisms.Values(), b.morphisms.Values(), ProductMorphismCell)|
    ensures var m := Grid(a.morphisms.Values(), b.morphisms.Values(), ProductMorphismCell)[t];
      m.source.name in ProductObjects(a, b, name).objects.entries && m.target.name in ProductObjects(a, b, name).objects.entries
  {
    var x, y := ProductMorphismCellOrigin(a, b, t);
    var m1, m2 := a.morphisms.entries[x], b.morphisms.entries[y];
    ProductObjectKeys(a, b, name);
    PairNamesHas(a.objects.entries.Keys, b.objects.entries.Keys, m1.source.name, m2.source.name);
    PairNamesHas(a.objects.entries.Keys, b.objects.entries.Keys, m1.target.name, m2.target.name);
  }

  lemma PairNamesHas(xs: set<string>, ys: set<string>, x: string, y: string)
    requires x in xs && y in ys
    ensures PairName(x, y) in PairNames('(', ')', xs, ys)
  {
  }

  /** The product's morphism names are exactly the pair names of A's and B's
      morphism names. */
  lemma ProductMorphismKeys(a: Category, b: Category, name: Option<string>)
    requires MorphismsKeyed(a) && MorphismsKeyed(b) && Tabled(a) && Tabled(b)
    ensures Product(a, b, name).morphisms.entries.Keys == PairNames('(', ')', a.morphisms.entries.Keys, b.morphisms.entries.Keys)
  {
    ProductMorphismKeysCover(a, b, name);
    ProductMorphismKeysWithin(a, b, name);
  }

  lemma ProductMorphismKeysCover(a: Category, b: Category, name: Option<string>)
    requires MorphismsKeyed(a) && MorphismsKeyed(b) && Tabled(a) && Tabled(b)
    ensures PairNames('(', ')', a.morphisms.entries.Keys, b.morphisms.entries.Keys) <= Elements(MorphismNames(Grid(a.morphisms.Values(), b.morphisms.Values(), ProductMorphismCell)))
  {
    var xs := a.morphisms.Values();
    var ys := b.morphisms.Values();
    var ms := Grid(xs, ys, ProductMorphismCell);
    forall n | n in PairNames('(', ')', a.morphisms.entries.Keys, b.morphisms.entries.Keys)
      ensures n in Elements(MorphismNames(ms))
    {
      var x, y :| x in a.morphisms.entries && y in b.morphisms.entries && n == PairName(x, y);
      var i := KeyPosition(a.morphisms, x);
      var j := KeyPosition(b.morphisms, y);
      assert ProductMorphism(xs[i], ys[j]) in ProductMorphismCell(xs[i], ys[j]);
      NameOfMemberMorphism(ms, ProductMorphism(xs[i], ys[j]));
    }
  }

  lemma ProductMorphismKeysWithin(a: Category, b: Category, name: Option<string>)
    requires MorphismsKeyed(a) && MorphismsKeyed(b) && Tabled(a) && Tabled(b)
    ensures Elements(MorphismNames(Grid(a.morphisms.Values(), b.morphisms.Values(), ProductMorphismCell))) <= PairNames('(', ')', a.morphisms.entries.Keys, b.morphisms.entries.Keys)
  {
    var xs := a.morphisms.Values();
    var ys := b.morphisms.Values();
    var ms := Grid(xs, ys, ProductMorphismCell);
    forall n | n in Elements(MorphismNames(ms))
      ensures n in PairNames('(', ')', a.morphisms.entries.Keys, b.morphisms.entries.Keys)
    {
      var t :| 0 <= t < |ms| && MorphismNames(ms)[t] == n;
      assert ms[t] in ms;
      var i, j :| 0 <= i < |xs| && 0 <= j < |ys| && ms[t] in ProductMorphismCell(xs[i], ys[j]);
      assert n == PairName(a.morphisms.keys[i], b.morphisms.keys[j]);
    }
  }

  /** Every product morphism is structural. */
  lemma ProductStructural(a: Category, b: Category, name: Option<string>)
    requires Tabled(a) && Tabled(b)
    ensures forall k :: k in Product(a, b, name).morphisms.entries ==>
              Product(a, b, name).morphisms.entries[k].kind == Structural
  {
    var xs := a.morphisms.Values();
    var ys := b.morphisms.Values();
    var ms := Grid(xs, ys, ProductMorphismCell);
    var c := ProductObjects(a, b, name);
    AddMorphismsFrom(c, ms);
    forall k | k in Product(a, b, name).morphisms.entries
      ensures Product(a, b, name).morphisms.entries[k].kind == Structural
    {
      var m := Product(a, b, name).morphisms.entries[k];
      assert m in ms;
      var i, j :| 0 <= i < |xs| && 0 <= j < |ys| && m in ProductMorphismCell(xs[i], ys[j]);
    }
  }

  /** The product of two categories is a valid category. */
  lemma ProductValid(a: Category, b: Category, name: Option<string>)
    requires Tabled(a) && Tabled(b)
    ensures Valid(Product(a, b, name))
  {
    var c := ProductObjects(a, b, name);
    AddObjectsKeepsValid(NewCategory(ProductName(a, b, name)), Grid(a.objects.Values(), b.objects.Values(), ProductCell));
    AddMorphismsKeepsValid(c, Grid(a.morphisms.Values(), b.morphisms.Values(), ProductMorphismCell));
  }

  /** When no two pairs of object names share a pair name, the pair of
      A's `x` and B's `y` is registered under their pair name. */
  lemma ProductObjectAt(a: Category, b: Category, name: Option<string>, x: string, y: string)
    requires ObjectsKeyed(a) && ObjectsKeyed(b) && Tabled(a) && Tabled(b)
    requires PairsDistinct('(', ')', a.objects.entries.Keys, b.objects.entries.Keys)
    requires x in a.objects.entries && y in b.objects.entries
    ensures PairName(x, y) in ProductObjects(a, b, name).objects.entries
    ensures ProductObjects(a, b, name).objects.entries[PairName(x, y)] ==
              ProductObject(a.objects.entries[x], b.objects.entries[y])
  {
    var xs := a.objects.Values();
    var ys := b.objects.Values();
    var ps := Grid(xs, ys, ProductCell);
    var o := ProductObject(a.objects.entries[x], b.objects.entries[y]);
    var i := KeyPosition(a.objects, x);
    var j := KeyPosition(b.objects, y);
    assert o in ProductCell(xs[i], ys[j]);
    forall t | 0 <= t < |ps| && ps[t].name == o.name ensures ps[t] == o {
      ProductCellNamed(a, b, x, y, t);
    }
    AddObjectsUniform(NewCategory(ProductName(a, b, name)), ps, o);
  }

  /** Every product object is the pair of two registered objects. */
  lemma ProductCellOrigin(a: Category, b: Category, t: nat) returns (x: string, y: string)
    requires ObjectsKeyed(a) && ObjectsKeyed(b)
    requires t < |Grid(a.objects.Values(), b.objects.Values(), ProductCell)|
    ensures x in a.objects.entries && y in b.objects.entries
    ensures Grid(a.objects.Values(), b.objects.Values(), ProductCell)[t] ==
              ProductObject(a.objects.entries[x], b.objects.entries[y])
  {
    var xs := a.objects.Values();
    var ys := b.objects.Values();
    var ps := Grid(xs, ys, ProductCell);
    assert ps[t] in ps;
    var i, j :| 0 <= i < |xs| && 0 <= j < |ys| && ps[t] in ProductCell(xs[i], ys[j]);
    x, y := a.objects.keys[i], b.objects.keys[j];
    assert xs[i] == a.objects.entries[x];
    assert ys[j] == b.objects.entries[y];
  }

  /** The only product object named `(x, y)` is the pair of `x` and `y`. */
  lemma ProductCellNamed(a: Category, b: Category, x: string, y: string, t: nat)
    requires ObjectsKeyed(a) && ObjectsKeyed(b)
    requires PairsDistinct('(', ')', a.objects.entries.Keys, b.objects.entries.Keys)
    requires x in a.objects.entries && y in b.objects.entries
    requires t < |Grid(a.objects.Values(), b.objects.Values(), ProductCell)|
    requires Grid(a.objects.Values(), b.objects.Values(), ProductCell)[t].name == PairName(x, y)
    ensures Grid(a.objects.Values(), b.objects.Values(), ProductCell)[t] ==
              ProductObject(a.objects.entries[x], b.objects.entries[y])
  {
    var x', y' := ProductCellOrigin(a, b, t);
    assert a.objects.entries[x'].name == x' && b.objects.entries[y'].name == y';
    assert SamePairName('(', ')', x', y', x, y);
  }


  /** When no two pairs of morphism names share a pair name, the pair of
      A's `x` and B's `y` is registered under their pair name. */
  lemma ProductMorphismAt(a: Category, b: Category, name: Option<string>, x: string, y: string)
    requires MorphismsKeyed(a) && MorphismsKeyed(b) && Tabled(a) && Tabled(b)
    requires PairsDistinct('(', ')', a.morphisms.entries.Keys, b.morphisms.entries.Keys)
    requires x in a.morphisms.entries && y in b.morphisms.entries
    ensures PairName(x, y) in Product(a, b, name).morphisms.entries
    ensures Product(a, b, name).morphisms.entries[PairName(x, y)] ==
              ProductMorphism(a.morphisms.entries[x], b.morphisms.entries[y])
  {
    var xs := a.morphisms.Values();
    var ys := b.morphisms.Values();
    var ms := Grid(xs, ys, ProductMorphismCell);
    var m := ProductMorphism(a.morphisms.entries[x], b.morphisms.entries[y]);
    var i := KeyPosition(a.morphisms, x);
    var j := KeyPosition(b.morphisms, y);
    assert m in ProductMorphismCell(xs[i], ys[j]);
    forall t | 0 <= t < |ms| && ms[t].name == m.name ensures ms[t] == m {
      ProductMorphismCellNamed(a, b, x, y, t);
    }
    AddMorphismsUniform(ProductObjects(a, b, name), ms, m);
  }

  /** Every product morphism is the pair of two registered morphisms. */
  lemma ProductMorphismCellOrigin(a: Category, b: Category, t: nat) returns (x: string, y: string)
    requires MorphismsKeyed(a) && MorphismsKeyed(b)
    requires t < |Grid(a.morphisms.Values(), b.morphisms.Values(), ProductMorphismCell)|
    ensures x in a.morphisms.entries && y in b.morphisms.entries
    ensures Grid(a.morphisms.Values(), b.morphisms.Values(), ProductMorphismCell)[t] ==
              ProductMorphism(a.morphisms.entries[x], b.morphisms.entries[y])
  {
    var xs := a.morphisms.Values();
    var ys := b.morphisms.Values();
    var ms := Grid(xs, ys, ProductMorphismCell);
    assert ms[t] in ms;
    var i, j :| 0 <= i < |xs| && 0 <= j < |ys| && ms[t] in ProductMorphismCell(xs[i], ys[j]);
    x, y := a.morphisms.keys[i], b.morphisms.keys[j];
    assert xs[i] == a.morphisms.entries[x];
    assert ys[j] == b.morphisms.entries[y];
  }

  /** The only product morphism named `(x, y)` is the pair of `x` and `y`. */
  lemma ProductMorphismCellNamed(a: Category, b: Category, x: string, y: string, t: nat)
    requires MorphismsKeyed(a) && MorphismsKeyed(b)
    requires PairsDistinct('(', ')', a.morphisms.entries.Keys, b.morphisms.entries.Keys)
    requires x in a.morphisms.entries && y in b.morphisms.entries
    requires t < |Grid(a.morphisms.Values(), b.morphisms.Values(), ProductMorphismCell)|
    requires Grid(a.morphisms.Values(), b.morphisms.Values(), ProductMorphismCell)[t].name == PairName(x, y)
    ensures Grid(a.morphisms.Values(), b.morphisms.Values(), ProductMorphismCell)[t] ==
              ProductMorphism(a.morphisms.entries[x], b.morphisms.entries[y])
  {
    var x', y' := ProductMorphismCellOrigin(a, b, t);
    assert a.morphisms.entries[x'].name == x' && b.morphisms.entries[y'].name == y';
    assert SamePairName('(', ')', x', y', x, y);
  }


  /** When no two pairs share a pair name, the product has |A| * |B|
      objects and |A| * |B| morphisms (counting each kind separately). */
  lemma ProductCount(a: Category, b: Category, name: Option<string>)
    requires Valid(a) && Valid(b)
    requires PairsDistinct('(', ')', a.objects.entries.Keys, b.objects.entries.Keys)
    requires PairsDistinct('(', ')', a.morphisms.entries.Keys, b.morphisms.entries.Keys)
    ensures |Product(a, b, name).objects.entries| == |a.objects.entries| * |b.objects.entries|
    ensures |Product(a, b, name).morphisms.entries| == |a.morphisms.entries| * |b.morphisms.entries|
  {
    ProductObjectKeys(a, b, name);
    ProductKeepsObjects(a, b, name);
    ProductMorphismKeys(a, b, name);
    PairNamesSize('(', ')', a.objects.entries.Keys, b.objects.entries.Keys);
    PairNamesSize('(', ')', a.morphisms.entries.Keys, b.morphisms.entries.Keys);
    assert |Product(a, b, name).objects.entries| == |Product(a, b, name).objects.entries.Keys|;
    assert |Product(a, b, name).morphisms.entries| == |Product(a, b, name).morphisms.entries.Keys|;
  }

  // ---------------------------------------------------------------------
  // Pullback

  function PullbackName(x: string, y: string): string {
    Bracketed('⟨', '⟩', x, y)
  }

  function PullbackObject(o1: Object, o2: Object): Object {
    Object(PullbackName(o1.name, o2.name), "pullback", o1.attributes + o2.attributes)
  }

  /** F sends `o1` and G sends `o2` to objects of the same name. */
  predicate ImagesMeet(f: Functor, g: Functor, o1: Object, o2: Object) {
    && ApplyToObject(f, o1).Some?
    && ApplyToObject(g, o2).Some?
    && ApplyToObject(f, o1).value.name == ApplyToObject(g, o2).value.name
  }

  /** Over name-keyed targets, the images meet exactly when both objects
      are mapped, to one name, registered in both targets. */
  lemma ImagesMeetIff(f: Functor, g: Functor, o1: Object, o2: Object)
    requires ObjectsKeyed(f.target) && ObjectsKeyed(g.target)
    ensures ImagesMeet(f, g, o1, o2) <==>
              && o1.name in f.objectMap.entries
              && o2.name in g.objectMap.entries
              && f.objectMap.entries[o1.name] == g.objectMap.entries[o2.name]
              && f.objectMap.entries[o1.name] in f.target.objects.entries
              && g.objectMap.entries[o2.name] in g.target.objects.entries
  {
  }

  function PullbackCell(f: Functor, g: Functor): (Object, Object) -> seq<Object> {
    (o1: Object, o2: Object) => if ImagesMeet(f, g, o1, o2) then [PullbackObject(o1, o2)] else []
  }

  function PullbackDefaultName(a: Category, b: Category, name: Option<string>): string {
    ResultName(name, "Pullback(" + a.name + ", " + b.name + ")")
  }

  /** `pullback(A, B, C, F, G)`: one object per pair whose images under F
      and G meet; no morphisms. */
  function Pullback(a: Category, b: Category, f: Functor, g: Functor, name: Option<string>): (r: Category)
    requires Tabled(a) && Tabled(b)
    ensures r.name == PullbackDefaultName(a, b, name)
    ensures r.morphisms.entries == map[]
  {
    AddObjects(NewCategory(PullbackDefaultName(a, b, name)), Grid(a.objects.Values(), b.objects.Values(), PullbackCell(f, g)))
  }

  /** The pullback names of the key pairs whose images meet. */
  function MeetingNames(a: Category, b: Category, f: Functor, g: Functor): set<string> {
    set x, y | x in a.objects.entries && y in b.objects.entries &&
               ImagesMeet(f, g, a.objects.entries[x], b.objects.entries[y]) :: PullbackName(x, y)
  }

  /** The pullback's object names: the pair names of the key pairs whose
      images meet. */
  lemma PullbackKeys(a: Category, b: Category, f: Functor, g: Functor, name: Option<string>)
    requires ObjectsKeyed(a) && ObjectsKeyed(b) && Tabled(a) && Tabled(b)
    ensures Pullback(a, b, f, g, name).objects.entries.Keys == MeetingNames(a, b, f, g)
  {
    PullbackKeysCover(a, b, f, g, name);
    PullbackKeysWithin(a, b, f, g, name);
  }

  lemma PullbackKeysCover(a: Category, b: Category, f: Functor, g: Functor, name: Option<string>)
    requires ObjectsKeyed(a) && ObjectsKeyed(b) && Tabled(a) && Tabled(b)
    ensures MeetingNames(a, b, f, g) <= Elements(ObjectNames(Grid(a.objects.Values(), b.objects.Values(), PullbackCell(f, g))))
  {
    var xs := a.objects.Values();
    var ys := b.objects.Values();
    var ps := Grid(xs, ys, PullbackCell(f, g));
    forall n | n in MeetingNames(a, b, f, g) ensures n in Elements(ObjectNames(ps)) {
      var x, y :| x in a.objects.entries && y in b.objects.entries &&
                  ImagesMeet(f, g, a.objects.entries[x], b.objects.entries[y]) && n == PullbackName(x, y);
      var i := KeyPosition(a.objects, x);
      var j := KeyPosition(b.objects, y);
      assert PullbackObject(xs[i], ys[j]) in PullbackCell(f, g)(xs[i], ys[j]);
      NameOfMember(ps, PullbackObject(xs[i], ys[j]));
    }
  }

  lemma PullbackKeysWithin(a: Category, b: Category, f: Functor, g: Functor, name: Option<string>)
    requires ObjectsKeyed(a) && ObjectsKeyed(b) && Tabled(a) && Tabled(b)
    ensures Elements(ObjectNames(Grid(a.objects.Values(), b.objects.Values(), PullbackCell(f, g)))) <= MeetingNames(a, b, f, g)
  {
    var xs := a.objects.Values();
    var ys := b.objects.Values();
    var ps := Grid(xs, ys, PullbackCell(f, g));
    forall n | n in Elements(ObjectNames(ps)) ensures n in MeetingNames(a, b, f, g) {
      var t :| 0 <= t < |ps| && ObjectNames(ps)[t] == n;
      assert ps[t] in ps;
      var i, j :| 0 <= i < |xs| && 0 <= j < |ys| && ps[t] in PullbackCell(f, g)(xs[i], ys[j]);
      var x, y := a.objects.keys[i], b.objects.keys[j];
      assert xs[i] == a.objects.entries[x] && ys[j] == b.objects.entries[y];
      assert n == PullbackName(x, y);
    }
  }

  /** The pullback is a valid category. */
  lemma PullbackValid(a: Category, b: Category, f: Functor, g: Functor, name: Option<string>)
    requires Tabled(a) && Tabled(b)
    ensures Valid(Pullback(a, b, f, g, name))
  {
    AddObjectsKeepsValid(NewCategory(PullbackDefaultName(a, b, name)), Grid(a.objects.Values(), b.objects.Values(), PullbackCell(f, g)));
  }

  /** When no two pairs of object names share a pullback name, a meeting
      pair is registered under its pair name as the pullback object of the
      two. */
  lemma PullbackObjectAt(a: Category, b: Category, f: Functor, g: Functor, name: Option<string>, x: string, y: string)
    requires ObjectsKeyed(a) && ObjectsKeyed(b) && Tabled(a) && Tabled(b)
    requires PairsDistinct('⟨', '⟩', a.objects.entries.Keys, b.objects.entries.Keys)
    requires x in a.objects.entries && y in b.objects.entries
    requires ImagesMeet(f, g, a.objects.entries[x], b.objects.entries[y])
    ensures PullbackName(x, y) in Pullback(a, b, f, g, name).objects.entries
    ensures Pullback(a, b, f, g, name).objects.entries[PullbackName(x, y)] ==
              PullbackObject(a.objects.entries[x], b.objects.entries[y])
  {
    var xs := a.objects.Values();
    var ys := b.objects.Values();
    var ps := Grid(xs, ys, PullbackCell(f, g));
    var o := PullbackObject(a.objects.entries[x], b.objects.entries[y]);
    var i := KeyPosition(a.objects, x);
    var j := KeyPosition(b.objects, y);
    assert o in PullbackCell(f, g)(xs[i], ys[j]);
    forall t | 0 <= t < |ps| && ps[t].name == o.name ensures ps[t] == o {
      PullbackCellNamed(a, b, f, g, x, y, t);
    }
    AddObjectsUniform(NewCategory(PullbackDefaultName(a, b, name)), ps, o);
  }

  /** Every pullback object is the pair of two registered objects whose
      images meet. */
  lemma PullbackCellOrigin(a: Category, b: Category, f: Functor, g: Functor, t: nat) returns (x: string, y: string)
    requires ObjectsKeyed(a) && ObjectsKeyed(b)
    requires t < |Grid(a.objects.Values(), b.objects.Values(), PullbackCell(f, g))|
    ensures x in a.objects.entries && y in b.objects.entries
    ensures Grid(a.objects.Values(), b.objects.Values(), PullbackCell(f, g))[t] ==
              PullbackObject(a.objects.entries[x], b.objects.entries[y])
  {
    var xs := a.objects.Values();
    var ys := b.objects.Values();
    var ps := Grid(xs, ys, PullbackCell(f, g));
    assert ps[t] in ps;
    var i, j :| 0 <= i < |xs| && 0 <= j < |ys| && ps[t] in PullbackCell(f, g)(xs[i], ys[j]);
    x, y := a.objects.keys[i], b.objects.keys[j];
    assert xs[i] == a.objects.entries[x];
    assert ys[j] == b.objects.entries[y];
  }

  /** The only pullback object named `⟨x, y⟩` is the pair of `x` and `y`. */
  lemma PullbackCellNamed(a: Category, b: Category, f: Functor, g: Functor, x: string, y: string, t: nat)
    requires ObjectsKeyed(a) && ObjectsKeyed(b)
    requires PairsDistinct('⟨', '⟩', a.objects.entries.Keys, b.objects.entries.Keys)
    requires x in a.objects.entries && y in b.objects.entries
    requires t < |Grid(a.objects.Values(), b.objects.Values(), PullbackCell(f, g))|
    requires Grid(a.objects.Values(), b.objects.Values(), PullbackCell(f, g))[t].name == PullbackName(x, y)
    ensures Grid(a.objects.Values(), b.objects.Values(), PullbackCell(f, g))[t] ==
              PullbackObject(a.objects.entries[x], b.objects.entries[y])
  {
    var x', y' := PullbackCellOrigin(a, b, f, g, t);
    assert a.objects.entries[x'].name == x' && b.objects.entries[y'].name == y';
    assert SamePairName('⟨', '⟩', x', y', x, y);
  }

}
