/** The data model of the ontology toolkit: objects (entities), morphisms
    (typed relationships) and categories (ontologies) with their
    identity-morphism bookkeeping. Source: core/dsl.py. */
module Dsl {
  import opened Wrappers
  import opened Tables

  datatype MorphismType = Structural | Functional | Temporal | Causal | Measurement | Identity

  /** An entity. Its free-text semantic signature is not modelled. Python
      compares and hashes objects by (name, domain) only, so the model's
      notion of equality is `SameObject`, not `==`. */
  datatype Object = Object(name: string, domain: string, attributes: seq<string>)

  predicate SameObject(a: Object, b: Object) {
    a.name == b.name && a.domain == b.domain
  }

  /** Object equality is an equivalence that looks only at the hash key
      (name, domain): attributes never tell two objects apart. */
  lemma SameObjectEquivalence(a: Object, b: Object, c: Object)
    ensures SameObject(a, a)
    ensures SameObject(a, b) ==> SameObject(b, a)
    ensures SameObject(a, b) && SameObject(b, c) ==> SameObject(a, c)
    ensures SameObject(a, b) <==> (a.name, a.domain) == (b.name, b.domain)
    ensures SameObject(a, a.(attributes := b.attributes))
  {
  }

  /** A typed relationship; its free-text description is not modelled. */
  datatype Morphism = Morphism(name: string, source: Object, target: Object, kind: MorphismType, properties: seq<string>)

  function CompositeName(outer: string, inner: string): string {
    "(" + outer + " ∘ " + inner + ")"
  }

  /** `outer.compose(inner)`: apply `inner` first, then `outer`. Defined only
      when the two meet at the same object. */
  function Compose(outer: Morphism, inner: Morphism): (r: Option<Morphism>)
    ensures r.Some? <==> SameObject(outer.source, inner.target)
    ensures r.Some? ==> r.value.source == inner.source && r.value.target == outer.target
    ensures r.Some? ==> r.value.kind == Structural && r.value.name == CompositeName(outer.name, inner.name)
    ensures r.Some? ==> r.value.properties == []
  {
    if !SameObject(outer.source, inner.target) then None
    else Some(Morphism(CompositeName(outer.name, inner.name), inner.source, outer.target, Structural, []))
  }

  /** Composition is defined on both bracketings of h ∘ g ∘ f under the same
      condition, and both composites span f.source to h.target. */
  lemma ComposeEndpointsAssociate(h: Morphism, g: Morphism, f: Morphism)
    ensures var hg := Compose(h, g); var gf := Compose(g, f);
            (hg.Some? && Compose(hg.value, f).Some?) <==> (gf.Some? && Compose(h, gf.value).Some?)
    ensures var hg := Compose(h, g); var gf := Compose(g, f);
            hg.Some? && Compose(hg.value, f).Some? ==>
              && Compose(hg.value, f).value.source == Compose(h, gf.value).value.source == f.source
              && Compose(hg.value, f).value.target == Compose(h, gf.value).value.target == h.target
  {
  }

  /** A category: name-keyed, insertion-ordered dictionaries of objects and
      morphisms plus the identity morphism of every object. The free-text
      description is not modelled. */
  datatype Category = Category(
    name: string,
    objects: Table<Object>,
    morphisms: Table<Morphism>,
    identities: map<string, Morphism>)

  function IdentityName(objectName: string): string {
    "id_" + objectName
  }

  function IdentityOf(o: Object): Morphism {
    Morphism(IdentityName(o.name), o, o, Identity, [])
  }

  /** Both dictionaries are well-formed tables: all that iterating over
      them needs. */
  ghost predicate Tabled(c: Category) {
    c.objects.Valid() && c.morphisms.Valid()
  }

  /** The object dictionary is a valid table keyed by object names. */
  ghost predicate ObjectsKeyed(c: Category) {
    && c.objects.Valid()
    && (forall k :: k in c.objects.entries ==> c.objects.entries[k].name == k)
  }

  /** The morphism dictionary is a valid table keyed by morphism names. */
  ghost predicate MorphismsKeyed(c: Category) {
    && c.morphisms.Valid()
    && (forall k :: k in c.morphisms.entries ==> c.morphisms.entries[k].name == k)
  }

  /** Every morphism's source and target names are registered objects. */
  ghost predicate EndpointsRegistered(c: Category) {
    forall k :: k in c.morphisms.entries ==>
      c.morphisms.entries[k].source.name in c.objects.entries &&
      c.morphisms.entries[k].target.name in c.objects.entries
  }

  /** The identity table has exactly the object keys, and each entry is the
      identity morphism of the object registered under that key. */
  ghost predicate IdentitiesExact(c: Category) {
    && c.identities.Keys == c.objects.entries.Keys
    && (forall k :: k in c.identities ==> c.identities[k] == IdentityOf(c.objects.entries[k]))
  }

  /** The invariant kept by every way the program builds a category. */
  ghost predicate Valid(c: Category) {
    && ObjectsKeyed(c)
    && MorphismsKeyed(c)
    && EndpointsRegistered(c)
    && IdentitiesExact(c)
  }

  /** `Category(name)` */
  function NewCategory(name: string): (r: Category)
    ensures Valid(r) && r.name == name
    ensures r.objects.entries == map[] && r.morphisms.entries == map[]
  {
    Category(name, EmptyTable(), EmptyTable(), map[])
  }

  /** `add_object`: registers (or replaces) the object under its name and
      regenerates its identity morphism. */
  function AddObject(c: Category, o: Object): (r: Category)
    ensures r.name == c.name && r.morphisms == c.morphisms
    ensures r.objects.entries == c.objects.entries[o.name := o]
    ensures o.name in r.identities && r.identities[o.name] == IdentityOf(o)
    ensures forall k :: k in c.identities && k != o.name ==> k in r.identities && r.identities[k] == c.identities[k]
    ensures Valid(c) ==> Valid(r)
  {
    Category(c.name, c.objects.Put(o.name, o), c.morphisms, c.identities[o.name := IdentityOf(o)])
  }

  /** `add_morphism`: registers each endpoint whose name is not yet known,
      then the morphism itself; an endpoint name already registered keeps
      the object it has. */
  function AddMorphism(c: Category, m: Morphism): (r: Category)
    ensures r.name == c.name
    ensures r.objects.entries.Keys == c.objects.entries.Keys + {m.source.name, m.target.name}
    ensures forall k :: k in c.objects.entries ==> r.objects.entries[k] == c.objects.entries[k]
    ensures m.source.name !in c.objects.entries ==> r.objects.entries[m.source.name] == m.source
    ensures m.target.name !in c.objects.entries && m.target.name != m.source.name ==>
              r.objects.entries[m.target.name] == m.target
    ensures m.source.name in c.objects.entries && m.target.name in c.objects.entries ==>
              r.objects == c.objects && r.identities == c.identities
    ensures r.morphisms == c.morphisms.Put(m.name, m)
  {
    var withSource := if m.source.name in c.objects.entries then c else AddObject(c, m.source);
    assert withSource.objects.entries == c.objects.entries[m.source.name := withSource.objects.entries[m.source.name]];
    var withBoth := if m.target.name in withSource.objects.entries then withSource else AddObject(withSource, m.target);
    assert withBoth.objects.entries == withSource.objects.entries[m.target.name := withBoth.objects.entries[m.target.name]];
    withBoth.(morphisms := withBoth.morphisms.Put(m.name, m))
  }

  function ObjectNames(os: seq<Object>): (r: seq<string>)
    ensures |r| == |os| && forall i :: 0 <= i < |os| ==> r[i] == os[i].name
  {
    seq(|os|, i requires 0 <= i < |os| => os[i].name)
  }

  function MorphismNames(ms: seq<Morphism>): (r: seq<string>)
    ensures |r| == |ms| && forall i :: 0 <= i < |ms| ==> r[i] == ms[i].name
  {
    seq(|ms|, i requires 0 <= i < |ms| => ms[i].name)
  }

  /** No object after position i has the name of the one at i. */
  predicate LastObjectNamed(os: seq<Object>, i: nat)
    requires i < |os|
  {
    forall j :: i < j < |os| ==> os[j].name != os[i].name
  }

  predicate LastMorphismNamed(ms: seq<Morphism>, i: nat)
    requires i < |ms|
  {
    forall j :: i < j < |ms| ==> ms[j].name != ms[i].name
  }

  /** Inserting a morphism whose endpoint names are registered keeps the
      invariant. */
  lemma InsertMorphismKeepsValid(c: Category, m: Morphism)
    requires Valid(c)
    requires m.source.name in c.objects.entries && m.target.name in c.objects.entries
    ensures Valid(c.(morphisms := c.morphisms.Put(m.name, m)))
  {
    InsertMorphismKeepsKeyed(c, m);
    InsertMorphismKeepsEndpoints(c, m);
  }

  lemma InsertMorphismKeepsKeyed(c: Category, m: Morphism)
    requires MorphismsKeyed(c)
    ensures MorphismsKeyed(c.(morphisms := c.morphisms.Put(m.name, m)))
  {
  }

  lemma InsertMorphismKeepsEndpoints(c: Category, m: Morphism)
    requires EndpointsRegistered(c)
    requires m.source.name in c.objects.entries && m.target.name in c.objects.entries
    ensures EndpointsRegistered(c.(morphisms := c.morphisms.Put(m.name, m)))
  {
  }

  lemma AddMorphismKeepsValid(c: Category, m: Morphism)
    requires Valid(c)
    ensures Valid(AddMorphism(c, m))
  {
    var withSource := if m.source.name in c.objects.entries then c else AddObject(c, m.source);
    assert Valid(withSource);
    var withBoth := if m.target.name in withSource.objects.entries then withSource else AddObject(withSource, m.target);
    assert Valid(withBoth);
    assert m.source.name in withBoth.objects.entries && m.target.name in withBoth.objects.entries;
    InsertMorphismKeepsValid(withBoth, m);
  }

  /** `for o in os: c.add_object(o)`. */
  function AddObjects(c: Category, os: seq<Object>): (r: Category)
    ensures r.name == c.name && r.morphisms == c.morphisms
    ensures r.objects.entries.Keys == c.objects.entries.Keys + Elements(ObjectNames(os))
    ensures c.objects.Valid() ==> r.objects.Valid()
    decreases |os|
  {
    if |os| == 0 then c
    else
      assert ObjectNames(os) == ObjectNames(os[..|os| - 1]) + [os[|os| - 1].name];
      AddObject(AddObjects(c, os[..|os| - 1]), os[|os| - 1])
  }

  /** `for m in ms: c.add_morphism(m)`. */
  function AddMorphisms(c: Category, ms: seq<Morphism>): (r: Category)
    ensures r.name == c.name
    ensures r.morphisms.entries.Keys == c.morphisms.entries.Keys + Elements(MorphismNames(ms))
    ensures c.morphisms.Valid() ==> r.morphisms.Valid()
    decreases |ms|
  {
    if |ms| == 0 then c
    else
      assert MorphismNames(ms) == MorphismNames(ms[..|ms| - 1]) + [ms[|ms| - 1].name];
      AddMorphism(AddMorphisms(c, ms[..|ms| - 1]), ms[|ms| - 1])
  }

  /** Adding objects keeps the entry of every name none of them carries and
      leaves each name to the last object that carries it. */
  lemma {:induction false} AddObjectsValues(c: Category, os: seq<Object>)
    ensures forall k :: k in c.objects.entries && k !in ObjectNames(os) ==>
              AddObjects(c, os).objects.entries[k] == c.objects.entries[k]
    ensures forall i :: 0 <= i < |os| && LastObjectNamed(os, i) ==>
              AddObjects(c, os).objects.entries[os[i].name] == os[i]
    decreases |os|
  {
    if |os| > 0 {
      var init := os[..|os| - 1];
      var last := os[|os| - 1];
      assert ObjectNames(os) == ObjectNames(init) + [last.name];
      AddObjectsValues(c, init);
      forall i | 0 <= i < |os| - 1 && LastObjectNamed(os, i)
        ensures AddObjects(c, os).objects.entries[os[i].name] == os[i]
      {
        assert LastObjectNamed(init, i);
        assert os[i].name != last.name;
      }
    }
  }

  lemma {:induction false} AddObjectsKeepsValid(c: Category, os: seq<Object>)
    requires Valid(c)
    ensures Valid(AddObjects(c, os))
    decreases |os|
  {
    if |os| > 0 {
      AddObjectsKeepsValid(c, os[..|os| - 1]);
    }
  }

  /** Objects with pairwise distinct new names are appended to the key order
      one each. */
  lemma {:induction false} AddObjectsFresh(c: Category, os: seq<Object>)
    requires c.objects.Valid()
    requires Distinct(ObjectNames(os))
    requires forall i :: 0 <= i < |os| ==> os[i].name !in c.objects.entries
    ensures AddObjects(c, os).objects.keys == c.objects.keys + ObjectNames(os)
    decreases |os|
  {
    if |os| > 0 {
      var init := os[..|os| - 1];
      var last := os[|os| - 1];
      assert ObjectNames(os) == ObjectNames(init) + [last.name];
      AddObjectsFresh(c, init);
      assert last.name !in ObjectNames(init);
    }
  }

  /** Adding morphisms keeps the entry of every name none of them carries
      and leaves each name to the last morphism that carries it. */
  lemma {:induction false} AddMorphismsValues(c: Category, ms: seq<Morphism>)
    ensures forall k :: k in c.morphisms.entries && k !in MorphismNames(ms) ==>
              AddMorphisms(c, ms).morphisms.entries[k] == c.morphisms.entries[k]
    ensures forall i :: 0 <= i < |ms| && LastMorphismNamed(ms, i) ==>
              AddMorphisms(c, ms).morphisms.entries[ms[i].name] == ms[i]
    decreases |ms|
  {
    if |ms| > 0 {
      var init := ms[..|ms| - 1];
      var last := ms[|ms| - 1];
      assert MorphismNames(ms) == MorphismNames(init) + [last.name];
      AddMorphismsValues(c, init);
      forall i | 0 <= i < |ms| - 1 && LastMorphismNamed(ms, i)
        ensures AddMorphisms(c, ms).morphisms.entries[ms[i].name] == ms[i]
      {
        assert LastMorphismNamed(init, i);
        assert ms[i].name != last.name;
      }
    }
  }

  /** When every endpoint name is already registered, adding morphisms
      leaves the objects and identities alone. */
  lemma {:induction false} AddMorphismsKeepObjects(c: Category, ms: seq<Morphism>)
    requires forall i :: 0 <= i < |ms| ==> ms[i].source.name in c.objects.entries && ms[i].target.name in c.objects.entries
    ensures AddMorphisms(c, ms).objects == c.objects
    ensures AddMorphisms(c, ms).identities == c.identities
    decreases |ms|
  {
    if |ms| > 0 {
      AddMorphismsKeepObjects(c, ms[..|ms| - 1]);
    }
  }

  lemma {:induction false} AddMorphismsKeepsValid(c: Category, ms: seq<Morphism>)
    requires Valid(c)
    ensures Valid(AddMorphisms(c, ms))
    decreases |ms|
  {
    if |ms| > 0 {
      AddMorphismsKeepsValid(c, ms[..|ms| - 1]);
      AddMorphismKeepsValid(AddMorphisms(c, ms[..|ms| - 1]), ms[|ms| - 1]);
    }
  }

  lemma {:induction false} AddMorphismsFresh(c: Category, ms: seq<Morphism>)
    requires c.morphisms.Valid()
    requires Distinct(MorphismNames(ms))
    requires forall i :: 0 <= i < |ms| ==> ms[i].name !in c.morphisms.entries
    ensures AddMorphisms(c, ms).morphisms.keys == c.morphisms.keys + MorphismNames(ms)
    decreases |ms|
  {
    if |ms| > 0 {
      var init := ms[..|ms| - 1];
      var last := ms[|ms| - 1];
      assert MorphismNames(ms) == MorphismNames(init) + [last.name];
      AddMorphismsFresh(c, init);
      var before := AddMorphisms(c, init);
      assert before.morphisms.Valid();
      assert last.name !in MorphismNames(init);
      assert last.name !in before.morphisms.entries;
      assert AddMorphisms(c, ms).morphisms == before.morphisms.Put(last.name, last);
    }
  }

  /** When every object named `n` among `os` is `o` itself, and `o` occurs,
      adding them registers exactly `o` under `n`. */
  lemma {:induction false} AddObjectsUniform(c: Category, os: seq<Object>, o: Object)
    requires o in os
    requires forall i :: 0 <= i < |os| && os[i].name == o.name ==> os[i] == o
    ensures AddObjects(c, os).objects.entries[o.name] == o
    decreases |os|
  {
    var init := os[..|os| - 1];
    if os[|os| - 1] != o {
      assert o in init;
      AddObjectsUniform(c, init, o);
    }
  }

  lemma {:induction false} AddMorphismsUniform(c: Category, ms: seq<Morphism>, m: Morphism)
    requires m in ms
    requires forall i :: 0 <= i < |ms| && ms[i].name == m.name ==> ms[i] == m
    ensures AddMorphisms(c, ms).morphisms.entries[m.name] == m
    decreases |ms|
  {
    var init := ms[..|ms| - 1];
    if ms[|ms| - 1] != m {
      assert m in init;
      AddMorphismsUniform(c, init, m);
    }
  }

  /** Every morphism registered after the loop was registered before it or
      is one of the added morphisms. */
  lemma {:induction false} AddMorphismsFrom(c: Category, ms: seq<Morphism>)
    ensures forall k :: k in AddMorphisms(c, ms).morphisms.entries ==>
              (k in c.morphisms.entries && AddMorphisms(c, ms).morphisms.entries[k] == c.morphisms.entries[k])
              || AddMorphisms(c, ms).morphisms.entries[k] in ms
    decreases |ms|
  {
    if |ms| > 0 {
      AddMorphismsFrom(c, ms[..|ms| - 1]);
    }
  }

  /** The morphisms among `ms` leaving `o`, in order. */
  function LeavingAmong(ms: seq<Morphism>, o: Object): (r: seq<Morphism>)
    ensures |r| <= |ms|
    ensures forall m :: m in r <==> m in ms && SameObject(m.source, o)
    ensures Subsequence(r, ms)
  {
    if |ms| == 0 then []
    else
      var init := ms[..|ms| - 1];
      var last := ms[|ms| - 1];
      assert ms == init + [last];
      var rest := LeavingAmong(init, o);
      assert ms[..|ms| - 1] == init;
      if SameObject(last.source, o) then
        assert (rest + [last])[..|rest|] == rest;
        rest + [last]
      else rest
  }

  /** The morphisms among `ms` entering `o`, in order. */
  function EnteringAmong(ms: seq<Morphism>, o: Object): (r: seq<Morphism>)
    ensures |r| <= |ms|
    ensures forall m :: m in r <==> m in ms && SameObject(m.target, o)
    ensures Subsequence(r, ms)
  {
    if |ms| == 0 then []
    else
      var init := ms[..|ms| - 1];
      var last := ms[|ms| - 1];
      assert ms == init + [last];
      var rest := EnteringAmong(init, o);
      assert ms[..|ms| - 1] == init;
      if SameObject(last.target, o) then
        assert (rest + [last])[..|rest|] == rest;
        rest + [last]
      else rest
  }

  /** `get_morphisms_from` */
  function MorphismsFrom(c: Category, o: Object): (r: seq<Morphism>)
    requires c.morphisms.Valid()
    ensures forall m :: m in r <==> m in c.morphisms.entries.Values && SameObject(m.source, o)
    ensures Subsequence(r, c.morphisms.Values())
  {
    var all := c.morphisms.Values();
    assert forall m :: m in all <==> m in c.morphisms.entries.Values by {
      forall m | m in c.morphisms.entries.Values ensures m in all {
        var k :| k in c.morphisms.entries && c.morphisms.entries[k] == m;
        var i :| 0 <= i < |c.morphisms.keys| && c.morphisms.keys[i] == k;
        assert all[i] == m;
      }
    }
    LeavingAmong(all, o)
  }

  /** `get_morphisms_to` */
  function MorphismsTo(c: Category, o: Object): (r: seq<Morphism>)
    requires c.morphisms.Valid()
    ensures forall m :: m in r <==> m in c.morphisms.entries.Values && SameObject(m.target, o)
    ensures Subsequence(r, c.morphisms.Values())
  {
    var all := c.morphisms.Values();
    assert forall m :: m in all <==> m in c.morphisms.entries.Values by {
      forall m | m in c.morphisms.entries.Values ensures m in all {
        var k :| k in c.morphisms.entries && c.morphisms.entries[k] == m;
        var i :| 0 <= i < |c.morphisms.keys| && c.morphisms.keys[i] == k;
        assert all[i] == m;
      }
    }
    EnteringAmong(all, o)
  }

  /** A table keyed by morphism names holds no morphism twice. */
  lemma KeyedValuesDistinct(c: Category)
    requires MorphismsKeyed(c)
    ensures Distinct(c.morphisms.Values())
  {
    var vs := c.morphisms.Values();
    forall i, j | 0 <= i < j < |vs| ensures vs[i] != vs[j] {
      assert vs[i].name == c.morphisms.keys[i] && vs[j].name == c.morphisms.keys[j];
    }
  }

  /** `get_morphisms_from` is exactly the list comprehension over
      `morphisms.values()`: any order-preserving selection of the table's
      morphisms that holds just those leaving `o` is this list. */
  lemma MorphismsFromIsFilter(c: Category, o: Object, r: seq<Morphism>)
    requires MorphismsKeyed(c)
    requires Subsequence(r, c.morphisms.Values())
    requires forall m :: m in r <==> m in c.morphisms.entries.Values && SameObject(m.source, o)
    ensures r == MorphismsFrom(c, o)
  {
    KeyedValuesDistinct(c);
    SubsequenceDetermined(r, MorphismsFrom(c, o), c.morphisms.Values());
  }

  /** `get_morphisms_to` is exactly the list comprehension over
      `morphisms.values()`. */
  lemma MorphismsToIsFilter(c: Category, o: Object, r: seq<Morphism>)
    requires MorphismsKeyed(c)
    requires Subsequence(r, c.morphisms.Values())
    requires forall m :: m in r <==> m in c.morphisms.entries.Values && SameObject(m.target, o)
    ensures r == MorphismsTo(c, o)
  {
    KeyedValuesDistinct(c);
    SubsequenceDetermined(r, MorphismsTo(c, o), c.morphisms.Values());
  }

  /** Every morphism entering `o` composes with every morphism leaving it. */
  lemma ComposableThrough(c: Category, o: Object, f: Morphism, g: Morphism)
    requires c.morphisms.Valid()
    requires f in MorphismsTo(c, o) && g in MorphismsFrom(c, o)
    ensures Compose(g, f).Some?
    ensures Compose(g, f).value.source == f.source && Compose(g, f).value.target == g.target
  {
  }
}
