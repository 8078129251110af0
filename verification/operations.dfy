/** The five category-combination operators of `CategoryOperations`:
    coproduct, product, pullback, pushout and difference. Source:
    core/dsl.py. */
module Operations {
  import opened Wrappers
  import opened Tables
  import opened Dsl
  import opened Functors

  /** `name or default`: an absent or empty name falls back to the default. */
  function ResultName(name: Option<string>, default: string): string {
    if name.Some? && name.value != "" then name.value else default
  }

  // ---------------------------------------------------------------------
  // Tagging, shared by coproduct ("<category name>.") and pushout ("L.", "R.")

  function TagName(tag: string, n: string): string {
    tag + "." + n
  }

  lemma TagInjective(tag: string, x: string, y: string)
    ensures TagName(tag, x) == TagName(tag, y) ==> x == y
  {
    if TagName(tag, x) == TagName(tag, y) {
      assert x == TagName(tag, x)[|tag| + 1..];
      assert y == TagName(tag, y)[|tag| + 1..];
    }
  }

  function TagObject(tag: string, o: Object): Object {
    Object(TagName(tag, o.name), o.domain, o.attributes)
  }

  /** A re-wrapped morphism: its endpoints become bare tagged objects that
      keep only the original domain. */
  function TagMorphism(tag: string, m: Morphism): Morphism {
    Morphism(
      TagName(tag, m.name),
      Object(TagName(tag, m.source.name), m.source.domain, []),
      Object(TagName(tag, m.target.name), m.target.domain, []),
      m.kind,
      [])
  }

  function TagObjects(tag: string, os: seq<Object>): (r: seq<Object>)
    ensures |r| == |os| && forall i :: 0 <= i < |os| ==> r[i] == TagObject(tag, os[i])
  {
    seq(|os|, i requires 0 <= i < |os| => TagObject(tag, os[i]))
  }

  function TagMorphisms(tag: string, ms: seq<Morphism>): (r: seq<Morphism>)
    ensures |r| == |ms| && forall i :: 0 <= i < |ms| ==> r[i] == TagMorphism(tag, ms[i])
  {
    seq(|ms|, i requires 0 <= i < |ms| => TagMorphism(tag, ms[i]))
  }

  /** Reference definition: the objects of `c`, each under its tagged name. */
  function TaggedObjectMap(tag: string, c: Category): (r: map<string, Object>)
  {
    assert forall x, y :: TagName(tag, x) == TagName(tag, y) ==> x == y by {
      forall x, y ensures TagName(tag, x) == TagName(tag, y) ==> x == y {
        TagInjective(tag, x, y);
      }
    }
    map k | k in c.objects.entries :: TagName(tag, k) := TagObject(tag, c.objects.entries[k])
  }

  function TaggedMorphismMap(tag: string, c: Category): (r: map<string, Morphism>)
  {
    assert forall x, y :: TagName(tag, x) == TagName(tag, y) ==> x == y by {
      forall x, y ensures TagName(tag, x) == TagName(tag, y) ==> x == y {
        TagInjective(tag, x, y);
      }
    }
    map k | k in c.morphisms.entries :: TagName(tag, k) := TagMorphism(tag, c.morphisms.entries[k])
  }

  /** The tagged form of a key sequence, in the same order. */
  function TaggedKeys(tag: string, keys: seq<string>): (r: seq<string>)
    ensures |r| == |keys| && forall i :: 0 <= i < |keys| ==> r[i] == TagName(tag, keys[i])
  {
    seq(|keys|, i requires 0 <= i < |keys| => TagName(tag, keys[i]))
  }

  /** Tagging keeps distinct keys distinct. */
  lemma TaggedKeysDistinct(tag: string, keys: seq<string>)
    requires Distinct(keys)
    ensures Distinct(TaggedKeys(tag, keys))
  {
    forall i, j | 0 <= i < j < |keys| ensures TagName(tag, keys[i]) != TagName(tag, keys[j]) {
      TagInjective(tag, keys[i], keys[j]);
    }
  }

  /** The tagged copies of `src`'s objects carry the tagged keys, in key
      order, and those are exactly the keys of the reference map. */
  lemma TaggedObjectNames(tag: string, src: Category)
    requires ObjectsKeyed(src)
    ensures ObjectNames(TagObjects(tag, src.objects.Values())) == TaggedKeys(tag, src.objects.keys)
    ensures Elements(TaggedKeys(tag, src.objects.keys)) == TaggedObjectMap(tag, src).Keys
  {
    var keys := src.objects.keys;
    var tm := TaggedObjectMap(tag, src);
    forall x | x in tm.Keys ensures x in Elements(TaggedKeys(tag, keys)) {
      var k :| k in src.objects.entries && x == TagName(tag, k);
      var i :| 0 <= i < |keys| && keys[i] == k;
      assert TaggedKeys(tag, keys)[i] == x;
    }
  }

  lemma TaggedMorphismNames(tag: string, src: Category)
    requires MorphismsKeyed(src)
    ensures MorphismNames(TagMorphisms(tag, src.morphisms.Values())) == TaggedKeys(tag, src.morphisms.keys)
    ensures Elements(TaggedKeys(tag, src.morphisms.keys)) == TaggedMorphismMap(tag, src).Keys
  {
    var keys := src.morphisms.keys;
    var tm := TaggedMorphismMap(tag, src);
    forall x | x in tm.Keys ensures x in Elements(TaggedKeys(tag, keys)) {
      var k :| k in src.morphisms.entries && x == TagName(tag, k);
      var i :| 0 <= i < |keys| && keys[i] == k;
      assert TaggedKeys(tag, keys)[i] == x;
    }
  }

  lemma TaggedObjectMapAt(tag: string, src: Category, k: string)
    requires k in src.objects.entries
    ensures TagName(tag, k) in TaggedObjectMap(tag, src)
    ensures TaggedObjectMap(tag, src)[TagName(tag, k)] == TagObject(tag, src.objects.entries[k])
  {
    forall k' | k' in src.objects.entries && TagName(tag, k') == TagName(tag, k) ensures k' == k {
      TagInjective(tag, k', k);
    }
  }

  /** The object registered under a tagged key, once all tagged objects are
      added, is the tagged copy of the object under that key. */
  lemma TaggedObjectLands(c: Category, tag: string, src: Category, k: string)
    requires ObjectsKeyed(src) && k in src.objects.entries
    ensures AddObjects(c, TagObjects(tag, src.objects.Values())).objects.entries[TagName(tag, k)] ==
              TagObject(tag, src.objects.entries[k])
  {
    var keys := src.objects.keys;
    var vs := src.objects.Values();
    var ts := TagObjects(tag, vs);
    TaggedObjectNames(tag, src);
    TaggedKeysDistinct(tag, keys);
    var i :| 0 <= i < |keys| && keys[i] == k;
    assert vs[i] == src.objects.entries[k];
    assert ts[i].name == TagName(tag, k);
    assert LastObjectNamed(ts, i) by {
      forall j | i < j < |ts| ensures ts[j].name != ts[i].name {
        assert ObjectNames(ts)[j] == TaggedKeys(tag, keys)[j];
      }
    }
    AddObjectsValues(c, ts);
  }

  /** Under a key outside the tagged names, adding the tagged objects keeps
      the entry of `c`. */
  lemma UntaggedObjectStays(c: Category, tag: string, src: Category, x: string)
    requires ObjectsKeyed(src) && x in c.objects.entries && x !in TaggedObjectMap(tag, src)
    ensures AddObjects(c, TagObjects(tag, src.objects.Values())).objects.entries[x] == c.objects.entries[x]
  {
    var ts := TagObjects(tag, src.objects.Values());
    TaggedObjectNames(tag, src);
    assert x !in ObjectNames(ts) by {
      assert x !in Elements(TaggedKeys(tag, src.objects.keys));
    }
    AddObjectsValues(c, ts);
  }

  /** Adding the tagged objects of `src` to `c` overrides `c` with the
      reference map. */
  lemma AddTaggedObjects(c: Category, tag: string, src: Category)
    requires ObjectsKeyed(src)
    ensures AddObjects(c, TagObjects(tag, src.objects.Values())).objects.entries ==
              c.objects.entries + TaggedObjectMap(tag, src)
  {
    var ts := TagObjects(tag, src.objects.Values());
    var tm := TaggedObjectMap(tag, src);
    var r := AddObjects(c, ts).objects.entries;
    TaggedObjectNames(tag, src);
    assert r.Keys == (c.objects.entries + tm).Keys;
    forall x | x in r ensures r[x] == (c.objects.entries + tm)[x] {
      AddTaggedObjectAt(c, tag, src, x);
    }
  }

  lemma AddTaggedObjectAt(c: Category, tag: string, src: Category, x: string)
    requires ObjectsKeyed(src) && x in c.objects.entries + TaggedObjectMap(tag, src)
    ensures var r := AddObjects(c, TagObjects(tag, src.objects.Values())).objects.entries;
      x in r && r[x] == (c.objects.entries + TaggedObjectMap(tag, src))[x]
  {
    var tm := TaggedObjectMap(tag, src);
    TaggedObjectNames(tag, src);
    if x in tm {
      var k :| k in src.objects.entries && x == TagName(tag, k);
      TaggedObjectMapAt(tag, src, k);
      TaggedObjectLands(c, tag, src, k);
    } else {
      UntaggedObjectStays(c, tag, src, x);
    }
  }

  /** When none of the tagged names is registered yet, each tagged object
      appends one fresh key. */
  lemma AddTaggedObjectsCount(c: Category, tag: string, src: Category)
    requires ObjectsKeyed(src) && c.objects.Valid()
    requires TaggedObjectMap(tag, src).Keys !! c.objects.entries.Keys
    ensures |AddObjects(c, TagObjects(tag, src.objects.Values())).objects.keys| ==
              |c.objects.keys| + |src.objects.keys|
  {
    var ts := TagObjects(tag, src.objects.Values());
    TaggedObjectNames(tag, src);
    TaggedKeysDistinct(tag, src.objects.keys);
    forall i | 0 <= i < |ts| ensures ts[i].name !in c.objects.entries {
      assert ts[i].name in Elements(TaggedKeys(tag, src.objects.keys));
    }
    AddObjectsFresh(c, ts);
  }

  lemma TaggedMorphismMapAt(tag: string, src: Category, k: string)
    requires k in src.morphisms.entries
    ensures TagName(tag, k) in TaggedMorphismMap(tag, src)
    ensures TaggedMorphismMap(tag, src)[TagName(tag, k)] == TagMorphism(tag, src.morphisms.entries[k])
  {
    forall k' | k' in src.morphisms.entries && TagName(tag, k') == TagName(tag, k) ensures k' == k {
      TagInjective(tag, k', k);
    }
  }

  lemma TaggedMorphismLands(c: Category, tag: string, src: Category, k: string)
    requires MorphismsKeyed(src) && k in src.morphisms.entries
    ensures AddMorphisms(c, TagMorphisms(tag, src.morphisms.Values())).morphisms.entries[TagName(tag, k)] ==
              TagMorphism(tag, src.morphisms.entries[k])
  {
    var keys := src.morphisms.keys;
    var vs := src.morphisms.Values();
    var ts := TagMorphisms(tag, vs);
    TaggedMorphismNames(tag, src);
    TaggedKeysDistinct(tag, keys);
    var i :| 0 <= i < |keys| && keys[i] == k;
    assert vs[i] == src.morphisms.entries[k];
    assert ts[i].name == TagName(tag, k);
    assert LastMorphismNamed(ts, i) by {
      forall j | i < j < |ts| ensures ts[j].name != ts[i].name {
        assert MorphismNames(ts)[j] == TaggedKeys(tag, keys)[j];
      }
    }
    AddMorphismsValues(c, ts);
  }

  lemma UntaggedMorphismStays(c: Category, tag: string, src: Category, x: string)
    requires MorphismsKeyed(src) && x in c.morphisms.entries && x !in TaggedMorphismMap(tag, src)
    ensures AddMorphisms(c, TagMorphisms(tag, src.morphisms.Values())).morphisms.entries[x] == c.morphisms.entries[x]
  {
    var ts := TagMorphisms(tag, src.morphisms.Values());
    TaggedMorphismNames(tag, src);
    assert x !in MorphismNames(ts) by {
      assert x !in Elements(TaggedKeys(tag, src.morphisms.keys));
    }
    AddMorphismsValues(c, ts);
  }

  /** The morphism counterpart of `AddTaggedObjects`. */
  lemma AddTaggedMorphisms(c: Category, tag: string, src: Category)
    requires MorphismsKeyed(src)
    ensures AddMorphisms(c, TagMorphisms(tag, src.morphisms.Values())).morphisms.entries ==
              c.morphisms.entries + TaggedMorphismMap(tag, src)
  {
    var ts := TagMorphisms(tag, src.morphisms.Values());
    var tm := TaggedMorphismMap(tag, src);
    var r := AddMorphisms(c, ts).morphisms.entries;
    TaggedMorphismNames(tag, src);
    assert r.Keys == (c.morphisms.entries + tm).Keys;
    forall x | x in r ensures r[x] == (c.morphisms.entries + tm)[x] {
      AddTaggedMorphismAt(c, tag, src, x);
    }
  }

  lemma AddTaggedMorphismAt(c: Category, tag: string, src: Category, x: string)
    requires MorphismsKeyed(src) && x in c.morphisms.entries + TaggedMorphismMap(tag, src)
    ensures var r := AddMorphisms(c, TagMorphisms(tag, src.morphisms.Values())).morphisms.entries;
      x in r && r[x] == (c.morphisms.entries + TaggedMorphismMap(tag, src))[x]
  {
    var tm := TaggedMorphismMap(tag, src);
    TaggedMorphismNames(tag, src);
    if x in tm {
      var k :| k in src.morphisms.entries && x == TagName(tag, k);
      TaggedMorphismMapAt(tag, src, k);
      TaggedMorphismLands(c, tag, src, k);
    } else {
      UntaggedMorphismStays(c, tag, src, x);
    }
  }

  /** Adding the tagged objects of `a`, then those of `b`, overrides `c`
      with the two reference maps, `b`'s winning. */
  lemma AddBothTaggedObjects(c: Category, tagA: string, a: Category, tagB: string, b: Category)
    requires ObjectsKeyed(a) && ObjectsKeyed(b)
    ensures AddObjects(AddObjects(c, TagObjects(tagA, a.objects.Values())), TagObjects(tagB, b.objects.Values())).objects.entries
              == c.objects.entries + TaggedObjectMap(tagA, a) + TaggedObjectMap(tagB, b)
  {
    AddTaggedObjects(c, tagA, a);
    AddTaggedObjects(AddObjects(c, TagObjects(tagA, a.objects.Values())), tagB, b);
  }

  lemma AddBothTaggedMorphisms(c: Category, a: Category, b: Category)
    requires MorphismsKeyed(a) && MorphismsKeyed(b)
    ensures AddMorphisms(AddMorphisms(c, TagMorphisms(a.name, a.morphisms.Values())), TagMorphisms(b.name, b.morphisms.Values())).morphisms.entries
              == c.morphisms.entries + TaggedMorphismMap(a.name, a) + TaggedMorphismMap(b.name, b)
  {
    AddTaggedMorphisms(c, a.name, a);
    AddTaggedMorphisms(AddMorphisms(c, TagMorphisms(a.name, a.morphisms.Values())), b.name, b);
  }

  lemma EmptyUnion<K, V>(m: map<K, V>)
    ensures map[] + m == m
  {
  }

  lemma AddTaggedMorphismsCount(c: Category, tag: string, src: Category)
    requires MorphismsKeyed(src) && c.morphisms.Valid()
    requires TaggedMorphismMap(tag, src).Keys !! c.morphisms.entries.Keys
    ensures |AddMorphisms(c, TagMorphisms(tag, src.morphisms.Values())).morphisms.keys| ==
              |c.morphisms.keys| + |src.morphisms.keys|
  {
    var ts := TagMorphisms(tag, src.morphisms.Values());
    TaggedMorphismNames(tag, src);
    TaggedKeysDistinct(tag, src.morphisms.keys);
    forall i | 0 <= i < |ts| ensures ts[i].name !in c.morphisms.entries {
      assert ts[i].name in Elements(TaggedKeys(tag, src.morphisms.keys));
    }
    AddMorphismsFresh(c, ts);
  }

  /** Tagged morphisms whose tagged endpoint names are all registered
      leave the objects and identities alone. */
  lemma AddTaggedMorphismsKeepObjects(c: Category, tag: string, src: Category)
    requires src.morphisms.Valid() && EndpointsRegistered(src)
    requires forall k :: k in src.objects.entries ==> TagName(tag, k) in c.objects.entries
    ensures AddMorphisms(c, TagMorphisms(tag, src.morphisms.Values())).objects == c.objects
    ensures AddMorphisms(c, TagMorphisms(tag, src.morphisms.Values())).identities == c.identities
  {
    var vs := src.morphisms.Values();
    var ts := TagMorphisms(tag, vs);
    forall i | 0 <= i < |ts|
      ensures ts[i].source.name in c.objects.entries && ts[i].target.name in c.objects.entries
    {
      assert vs[i] == src.morphisms.entries[src.morphisms.keys[i]];
    }
    AddMorphismsKeepObjects(c, ts);
  }

  // ---------------------------------------------------------------------
  // Coproduct

  function CoproductName(a: Category, b: Category, name: Option<string>): string {
    ResultName(name, "(" + a.name + " + " + b.name + ")")
  }

  /** The coproduct after its two object loops. */
  function CoproductObjects(a: Category, b: Category, name: Option<string>): (r: Category)
    requires Tabled(a) && Tabled(b)
    ensures r.name == CoproductName(a, b, name) && r.morphisms.entries == map[]
  {
    var empty := NewCategory(CoproductName(a, b, name));
    AddObjects(AddObjects(empty, TagObjects(a.name, a.objects.Values())), TagObjects(b.name, b.objects.Values()))
  }

  /** `coproduct(A, B)`: the disjoint, name-tagged union. Every object and
      morphism of A reappears under "<A's name>.<its name>", likewise for B,
      and the tagged endpoints of every morphism are registered objects. */
  function Coproduct(a: Category, b: Category, name: Option<string>): (r: Category)
    requires Tabled(a) && Tabled(b)
    ensures r.name == CoproductName(a, b, name)
  {
    var objects := CoproductObjects(a, b, name);
    AddMorphisms(AddMorphisms(objects, TagMorphisms(a.name, a.morphisms.Values())), TagMorphisms(b.name, b.morphisms.Values()))
  }

  /** The coproduct's objects are the two reference maps, B's winning on a
      shared tagged name. */
  lemma CoproductObjectEntries(a: Category, b: Category, name: Option<string>)
    requires ObjectsKeyed(a) && ObjectsKeyed(b) && Tabled(a) && Tabled(b)
    ensures CoproductObjects(a, b, name).objects.entries == TaggedObjectMap(a.name, a) + TaggedObjectMap(b.name, b)
  {
    AddBothTaggedObjects(NewCategory(CoproductName(a, b, name)), a.name, a, b.name, b);
    EmptyUnion(TaggedObjectMap(a.name, a));
  }

  lemma CoproductObjectsValid(a: Category, b: Category, name: Option<string>)
    requires Tabled(a) && Tabled(b)
    ensures Valid(CoproductObjects(a, b, name))
  {
    var empty := NewCategory(CoproductName(a, b, name));
    var withA := AddObjects(empty, TagObjects(a.name, a.objects.Values()));
    AddObjectsKeepsValid(empty, TagObjects(a.name, a.objects.Values()));
    AddObjectsKeepsValid(withA, TagObjects(b.name, b.objects.Values()));
  }

  /** Every tagged endpoint is already a registered object when the
      morphism loops run, so they leave the objects alone. */
  lemma CoproductKeepsObjects(a: Category, b: Category, name: Option<string>)
    requires ObjectsKeyed(a) && ObjectsKeyed(b) && Tabled(a) && Tabled(b)
    requires EndpointsRegistered(a) && EndpointsRegistered(b)
    ensures Coproduct(a, b, name).objects == CoproductObjects(a, b, name).objects
    ensures Coproduct(a, b, name).identities == CoproductObjects(a, b, name).identities
  {
    var objects := CoproductObjects(a, b, name);
    var withA := AddMorphisms(objects, TagMorphisms(a.name, a.morphisms.Values()));
    CoproductObjectEntries(a, b, name);
    forall k | k in a.objects.entries ensures TagName(a.name, k) in objects.objects.entries {
      TaggedObjectMapAt(a.name, a, k);
    }
    forall k | k in b.objects.entries ensures TagName(b.name, k) in objects.objects.entries {
      TaggedObjectMapAt(b.name, b, k);
    }
    AddTaggedMorphismsKeepObjects(objects, a.name, a);
    AddTaggedMorphismsKeepObjects(withA, b.name, b);
  }

  lemma CoproductMorphismEntries(a: Category, b: Category, name: Option<string>)
    requires MorphismsKeyed(a) && MorphismsKeyed(b) && Tabled(a) && Tabled(b)
    ensures Coproduct(a, b, name).morphisms.entries == TaggedMorphismMap(a.name, a) + TaggedMorphismMap(b.name, b)
  {
    AddBothTaggedMorphisms(CoproductObjects(a, b, name), a, b);
    EmptyUnion(TaggedMorphismMap(a.name, a));
  }

  /** `coproduct(A, B)` holds the tagged copies of A's and B's objects and
      morphisms, B's copy winning on a tagged name the two share. */
  lemma CoproductEntries(a: Category, b: Category, name: Option<string>)
    requires Valid(a) && Valid(b)
    ensures Coproduct(a, b, name).objects.entries == TaggedObjectMap(a.name, a) + TaggedObjectMap(b.name, b)
    ensures Coproduct(a, b, name).morphisms.entries == TaggedMorphismMap(a.name, a) + TaggedMorphismMap(b.name, b)
  {
    CoproductObjectEntries(a, b, name);
    CoproductKeepsObjects(a, b, name);
    CoproductMorphismEntries(a, b, name);
  }

  /** The object names of `coproduct(A, B)` are the tagged names of both. */
  lemma CoproductObjectKeys(a: Category, b: Category, name: Option<string>)
    requires Valid(a) && Valid(b)
    ensures Coproduct(a, b, name).objects.entries.Keys == TaggedObjectMap(a.name, a).Keys + TaggedObjectMap(b.name, b).Keys
  {
    CoproductEntries(a, b, name);
  }

  /** The coproduct of two valid categories is valid. */
  lemma CoproductValid(a: Category, b: Category, name: Option<string>)
    requires Tabled(a) && Tabled(b)
    ensures Valid(Coproduct(a, b, name))
  {
    var objects := CoproductObjects(a, b, name);
    CoproductObjectsValid(a, b, name);
    AddMorphismsKeepsValid(objects, TagMorphisms(a.name, a.morphisms.Values()));
    AddMorphismsKeepsValid(AddMorphisms(objects, TagMorphisms(a.name, a.morphisms.Values())), TagMorphisms(b.name, b.morphisms.Values()));
  }

  /** Tagging is injective, so the reference maps are as large as the
      dictionaries they copy. */
  lemma TaggedObjectMapSize(tag: string, src: Category)
    requires ObjectsKeyed(src)
    ensures |TaggedObjectMap(tag, src).Keys| == |src.objects.entries|
  {
    TaggedObjectNames(tag, src);
    TaggedKeysDistinct(tag, src.objects.keys);
    DistinctElementsCount(TaggedKeys(tag, src.objects.keys));
    SizeIsKeyCount(src.objects);
  }

  lemma TaggedMorphismMapSize(tag: string, src: Category)
    requires MorphismsKeyed(src)
    ensures |TaggedMorphismMap(tag, src).Keys| == |src.morphisms.entries|
  {
    TaggedMorphismNames(tag, src);
    TaggedKeysDistinct(tag, src.morphisms.keys);
    DistinctElementsCount(TaggedKeys(tag, src.morphisms.keys));
    SizeIsKeyCount(src.morphisms);
  }

  /** With tagged names that do not collide, the coproduct has exactly
      |A| + |B| objects and |A| + |B| morphisms. */
  lemma CoproductCount(a: Category, b: Category, name: Option<string>)
    requires Valid(a) && Valid(b)
    requires TaggedObjectMap(a.name, a).Keys !! TaggedObjectMap(b.name, b).Keys
    requires TaggedMorphismMap(a.name, a).Keys !! TaggedMorphismMap(b.name, b).Keys
    ensures |Coproduct(a, b, name).objects.entries| == |a.objects.entries| + |b.objects.entries|
    ensures |Coproduct(a, b, name).morphisms.entries| == |a.morphisms.entries| + |b.morphisms.entries|
  {
    CoproductEntries(a, b, name);
    var ta := TaggedObjectMap(a.name, a);
    var tb := TaggedObjectMap(b.name, b);
    TaggedObjectMapSize(a.name, a);
    TaggedObjectMapSize(b.name, b);
    assert (ta + tb).Keys == ta.Keys + tb.Keys;
    var ma := TaggedMorphismMap(a.name, a);
    var mb := TaggedMorphismMap(b.name, b);
    TaggedMorphismMapSize(a.name, a);
    TaggedMorphismMapSize(b.name, b);
    assert (ma + mb).Keys == ma.Keys + mb.Keys;
  }

  /** A dot-free tag is the part of a tagged name before its first dot. */
  lemma TagShape(t: string, x: string)
    requires '.' !in t
    ensures |TagName(t, x)| > |t| && TagName(t, x)[|t|] == '.' && TagName(t, x)[..|t|] == t
    ensures forall i :: 0 <= i < |t| ==> TagName(t, x)[i] != '.'
  {
    assert TagName(t, x)[..|t|] == t;
  }

  /** Two different tags without a dot never produce the same tagged name. */
  lemma DotFreeTagsDisjoint(t1: string, t2: string, x: string, y: string)
    requires t1 != t2 && '.' !in t1 && '.' !in t2
    ensures TagName(t1, x) != TagName(t2, y)
  {
    TagShape(t1, x);
    TagShape(t2, y);
  }

  /** Different dot-free tags give disjoint tagged key sets. */
  lemma TaggedKeysDisjoint(ta: string, a: Category, tb: string, b: Category)
    requires ta != tb && '.' !in ta && '.' !in tb
    ensures TaggedObjectMap(ta, a).Keys !! TaggedObjectMap(tb, b).Keys
    ensures TaggedMorphismMap(ta, a).Keys !! TaggedMorphismMap(tb, b).Keys
  {
    forall x | x in TaggedObjectMap(ta, a) ensures x !in TaggedObjectMap(tb, b) {
      var k :| k in a.objects.entries && x == TagName(ta, k);
      forall k' | k' in b.objects.entries ensures x != TagName(tb, k') {
        DotFreeTagsDisjoint(ta, tb, k, k');
      }
    }
    forall x | x in TaggedMorphismMap(ta, a) ensures x !in TaggedMorphismMap(tb, b) {
      var k :| k in a.morphisms.entries && x == TagName(ta, k);
      forall k' | k' in b.morphisms.entries ensures x != TagName(tb, k') {
        DotFreeTagsDisjoint(ta, tb, k, k');
      }
    }
  }

  /** Categories with different, dot-free names meet the hypothesis of
      `CoproductCount`: their coproduct adds the sizes up. */
  lemma CoproductCountDistinctNames(a: Category, b: Category, name: Option<string>)
    requires Valid(a) && Valid(b)
    requires a.name != b.name && '.' !in a.name && '.' !in b.name
    ensures |Coproduct(a, b, name).objects.entries| == |a.objects.entries| + |b.objects.entries|
    ensures |Coproduct(a, b, name).morphisms.entries| == |a.morphisms.entries| + |b.morphisms.entries|
  {
    TaggedKeysDisjoint(a.name, a, b.name, b);
    CoproductCount(a, b, name);
  }

  lemma UnionSelf<K, V>(m: map<K, V>)
    ensures m + m == m
  {
  }

  /** The coproduct of a category with itself: every tagged name is shared,
      so the result is only as large as the category. */
  lemma CoproductSelf(a: Category, name: Option<string>)
    requires Valid(a)
    ensures |Coproduct(a, a, name).objects.entries| == |a.objects.entries|
    ensures |Coproduct(a, a, name).morphisms.entries| == |a.morphisms.entries|
  {
    CoproductEntries(a, a, name);
    var ta := TaggedObjectMap(a.name, a);
    var ma := TaggedMorphismMap(a.name, a);
    UnionSelf(ta);
    UnionSelf(ma);
    TaggedObjectMapSize(a.name, a);
    TaggedMorphismMapSize(a.name, a);
  }

  // ---------------------------------------------------------------------
  // Pushout

  /** The pushout category together with the equivalences it records
      between left and right object names. */
  datatype PushoutResult = PushoutResult(category: Category, equivalences: seq<(string, string)>)

  function PushoutName(a: Category, b: Category, name: Option<string>): string {
    ResultName(name, "Pushout(" + a.name + ", " + b.name + ")")
  }

  /** The equivalence recorded for a shared object, if both functors map
      it to an existing object. */
  function Equivalence(f: Functor, g: Functor, o: Object): Option<(string, string)> {
    var fi := ApplyToObject(f, o);
    var gi := ApplyToObject(g, o);
    if fi.Some? && gi.Some? then Some((TagName("L", fi.value.name), TagName("R", gi.value.name))) else None
  }

  /** `for src_obj in C: ... equivalences.append(...)`. */
  function Equivalences(f: Functor, g: Functor, os: seq<Object>): (r: seq<(string, string)>)
    ensures |r| <= |os|
    ensures forall p :: p in r <==> exists o :: o in os && Equivalence(f, g, o) == Some(p)
    decreases |os|
  {
    if |os| == 0 then []
    else
      var init := os[..|os| - 1];
      var last := os[|os| - 1];
      assert os == init + [last];
      var e := Equivalence(f, g, last);
      Equivalences(f, g, init) + (if e.Some? then [e.value] else [])
  }

  /** `pushout(A, B, C, F, G)`: A's objects tagged "L", B's tagged "R", no
      morphisms, and the equivalences between F's and G's images of C. */
  function Pushout(a: Category, b: Category, c: Category, f: Functor, g: Functor, name: Option<string>): (r: PushoutResult)
    requires Tabled(a) && Tabled(b) && Tabled(c)
    ensures r.category.name == PushoutName(a, b, name)
    ensures r.category.morphisms.entries == map[]
    ensures r.equivalences == Equivalences(f, g, c.objects.Values())
  {
    var empty := NewCategory(PushoutName(a, b, name));
    var withA := AddObjects(empty, TagObjects("L", a.objects.Values()));
    PushoutResult(AddObjects(withA, TagObjects("R", b.objects.Values())), Equivalences(f, g, c.objects.Values()))
  }

  /** The pushout's objects: A's under "L.", B's under "R.". */
  lemma PushoutEntries(a: Category, b: Category, c: Category, f: Functor, g: Functor, name: Option<string>)
    requires ObjectsKeyed(a) && ObjectsKeyed(b) && Tabled(a) && Tabled(b) && Tabled(c)
    ensures Pushout(a, b, c, f, g, name).category.objects.entries == TaggedObjectMap("L", a) + TaggedObjectMap("R", b)
  {
    AddBothTaggedObjects(NewCategory(PushoutName(a, b, name)), "L", a, "R", b);
    EmptyUnion(TaggedObjectMap("L", a));
  }

  /** Unlike the coproduct's tags, "L" and "R" never collide: the pushout
      always has |A| + |B| objects. */
  lemma PushoutCount(a: Category, b: Category, c: Category, f: Functor, g: Functor, name: Option<string>)
    requires ObjectsKeyed(a) && ObjectsKeyed(b) && Tabled(a) && Tabled(b) && Tabled(c)
    ensures |Pushout(a, b, c, f, g, name).category.objects.entries| == |a.objects.entries| + |b.objects.entries|
  {
    PushoutEntries(a, b, c, f, g, name);
    var ta := TaggedObjectMap("L", a);
    var tb := TaggedObjectMap("R", b);
    TaggedKeysDisjoint("L", a, "R", b);
    TaggedObjectMapSize("L", a);
    TaggedObjectMapSize("R", b);
    assert (ta + tb).Keys == ta.Keys + tb.Keys;
  }

  lemma PushoutValid(a: Category, b: Category, c: Category, f: Functor, g: Functor, name: Option<string>)
    requires Tabled(a) && Tabled(b) && Tabled(c)
    ensures Valid(Pushout(a, b, c, f, g, name).category)
  {
    var empty := NewCategory(PushoutName(a, b, name));
    var withA := AddObjects(empty, TagObjects("L", a.objects.Values()));
    AddObjectsKeepsValid(empty, TagObjects("L", a.objects.Values()));
    AddObjectsKeepsValid(withA, TagObjects("R", b.objects.Values()));
  }

  /** When F lands in A and G in B, both sides of every recorded
      equivalence name objects of the pushout. */
  lemma PushoutEquivalencesRegistered(a: Category, b: Category, c: Category, f: Functor, g: Functor, name: Option<string>)
    requires ObjectsKeyed(a) && ObjectsKeyed(b) && Tabled(a) && Tabled(b) && Tabled(c)
    requires f.target == a && g.target == b
    ensures forall p :: p in Pushout(a, b, c, f, g, name).equivalences ==>
              p.0 in Pushout(a, b, c, f, g, name).category.objects.entries &&
              p.1 in Pushout(a, b, c, f, g, name).category.objects.entries
  {
    PushoutEntries(a, b, c, f, g, name);
    forall p | p in Pushout(a, b, c, f, g, name).equivalences
      ensures p.0 in TaggedObjectMap("L", a) && p.1 in TaggedObjectMap("R", b)
    {
      var o :| o in c.objects.Values() && Equivalence(f, g, o) == Some(p);
      TaggedObjectMapAt("L", a, f.objectMap.entries[o.name]);
      TaggedObjectMapAt("R", b, g.objectMap.entries[o.name]);
    }
  }
}
