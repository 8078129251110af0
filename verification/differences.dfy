/** `difference(A, B)`: what A has and B lacks. Objects are compared by
    (name, domain); morphisms by (source name, target name, type), and a
    morphism survives only when both its endpoint names survive. Source:
    core/dsl.py. */
module Differences {
  import opened Wrappers
  import opened Tables
  import opened Dsl
  import opened Operations

  /** The pair objects are compared by. */
  function ObjectKey(o: Object): (string, string) {
    (o.name, o.domain)
  }

  /** The triple morphisms are compared by; the morphism's own name plays
      no part. */
  function Signature(m: Morphism): (string, string, MorphismType) {
    (m.source.name, m.target.name, m.kind)
  }

  function ObjectKeys(b: Category): set<(string, string)> {
    set o | o in b.objects.entries.Values :: ObjectKey(o)
  }

  function Signatures(b: Category): set<(string, string, MorphismType)> {
    set m | m in b.morphisms.entries.Values :: Signature(m)
  }

  /** The objects among `os` whose key is not in `gone`, in order. */
  function KeptObjects(os: seq<Object>, gone: set<(string, string)>): (r: seq<Object>)
    ensures forall o :: o in r <==> o in os && ObjectKey(o) !in gone
    decreases |os|
  {
    if |os| == 0 then []
    else
      var init := os[..|os| - 1];
      var last := os[|os| - 1];
      assert os == init + [last];
      KeptObjects(init, gone) + (if ObjectKey(last) in gone then [] else [last])
  }

  /** The morphisms among `ms` whose signature is not in `gone` and whose
      endpoint names are both among `kept`, in order. */
  function KeptMorphisms(ms: seq<Morphism>, gone: set<(string, string, MorphismType)>, kept: set<string>): (r: seq<Morphism>)
    ensures forall m :: m in r <==>
              m in ms && Signature(m) !in gone && m.source.name in kept && m.target.name in kept
    decreases |ms|
  {
    if |ms| == 0 then []
    else
      var init := ms[..|ms| - 1];
      var last := ms[|ms| - 1];
      assert ms == init + [last];
      var keep := Signature(last) !in gone && last.source.name in kept && last.target.name in kept;
      KeptMorphisms(init, gone, kept) + (if keep then [last] else [])
  }

  /** `for m in ms: c.morphisms[m.name] = m`: a plain dictionary write, with
      no endpoint registration. */
  function InsertMorphisms(c: Category, ms: seq<Morphism>): (r: Category)
    ensures r.name == c.name && r.objects == c.objects && r.identities == c.identities
    ensures r.morphisms.entries.Keys == c.morphisms.entries.Keys + Elements(MorphismNames(ms))
    decreases |ms|
  {
    if |ms| == 0 then c
    else
      var init := ms[..|ms| - 1];
      var last := ms[|ms| - 1];
      assert MorphismNames(ms) == MorphismNames(init) + [last.name];
      var before := InsertMorphisms(c, init);
      before.(morphisms := before.morphisms.Put(last.name, last))
  }

  /** When every morphism named like `m` among `ms` is `m`, and `m` occurs,
      inserting them leaves `m` under its name. */
  lemma {:induction false} InsertMorphismsUniform(c: Category, ms: seq<Morphism>, m: Morphism)
    requires m in ms
    requires forall i :: 0 <= i < |ms| && ms[i].name == m.name ==> ms[i] == m
    ensures InsertMorphisms(c, ms).morphisms.entries[m.name] == m
    decreases |ms|
  {
    var init := ms[..|ms| - 1];
    if ms[|ms| - 1] != m {
      assert m in init;
      InsertMorphismsUniform(c, init, m);
    }
  }

  /** Inserting morphisms whose endpoint names are registered keeps the
      category valid. */
  lemma {:induction false} InsertMorphismsKeepValid(c: Category, ms: seq<Morphism>)
    requires Valid(c)
    requires forall i :: 0 <= i < |ms| ==> ms[i].source.name in c.objects.entries && ms[i].target.name in c.objects.entries
    ensures Valid(InsertMorphisms(c, ms))
    decreases |ms|
  {
    if |ms| > 0 {
      var init := ms[..|ms| - 1];
      InsertMorphismsKeepValid(c, init);
      InsertMorphismKeepsValid(InsertMorphisms(c, init), ms[|ms| - 1]);
    }
  }

  function DifferenceName(a: Category, b: Category, name: Option<string>): string {
    ResultName(name, "(" + a.name + " - " + b.name + ")")
  }

  /** The difference after its object loop. */
  function DifferenceObjects(a: Category, b: Category, name: Option<string>): (r: Category)
    requires Tabled(a)
    ensures r.name == DifferenceName(a, b, name) && r.morphisms.entries == map[]
  {
    AddObjects(NewCategory(DifferenceName(a, b, name)), KeptObjects(a.objects.Values(), ObjectKeys(b)))
  }

  /** The names collected while the object loop runs. */
  function KeptNames(a: Category, b: Category): set<string>
    requires Tabled(a)
  {
    Elements(ObjectNames(KeptObjects(a.objects.Values(), ObjectKeys(b))))
  }

  function Difference(a: Category, b: Category, name: Option<string>): (r: Category)
    requires Tabled(a)
    ensures r.name == DifferenceName(a, b, name)
  {
    var objects := DifferenceObjects(a, b, name);
    InsertMorphisms(objects, KeptMorphisms(a.morphisms.Values(), Signatures(b), KeptNames(a, b)))
  }

  /** Reference definition: A's objects whose (name, domain) B lacks. */
  function DifferenceObjectMap(a: Category, b: Category): map<string, Object> {
    map k | k in a.objects.entries && ObjectKey(a.objects.entries[k]) !in ObjectKeys(b) :: a.objects.entries[k]
  }

  /** Reference definition: A's morphisms whose signature B lacks and whose
      endpoint names both survive. */
  function DifferenceMorphismMap(a: Category, b: Category): map<string, Morphism> {
    SurvivingMorphisms(a, Signatures(b), DifferenceObjectMap(a, b).Keys)
  }

  /** The names collected by the object loop are the keys of the reference
      object map. */
  lemma KeptNamesAreKeys(a: Category, b: Category)
    requires ObjectsKeyed(a) && Tabled(a)
    ensures KeptNames(a, b) == DifferenceObjectMap(a, b).Keys
  {
    var vs := a.objects.Values();
    var kept := KeptObjects(vs, ObjectKeys(b));
    forall k | k in DifferenceObjectMap(a, b) ensures k in KeptNames(a, b) {
      var i :| 0 <= i < |a.objects.keys| && a.objects.keys[i] == k;
      assert vs[i] in kept;
      var t :| 0 <= t < |kept| && kept[t] == vs[i];
      assert ObjectNames(kept)[t] == k;
    }
    forall k | k in KeptNames(a, b) ensures k in DifferenceObjectMap(a, b) {
      var t :| 0 <= t < |kept| && ObjectNames(kept)[t] == k;
      assert kept[t] in kept;
      var i :| 0 <= i < |vs| && vs[i] == kept[t];
      assert a.objects.keys[i] == k;
    }
  }

  /** A kept object lands under its own name. */
  lemma DifferenceObjectAt(a: Category, b: Category, name: Option<string>, k: string)
    requires ObjectsKeyed(a) && Tabled(a)
    requires k in DifferenceObjectMap(a, b)
    ensures k in DifferenceObjects(a, b, name).objects.entries
    ensures DifferenceObjects(a, b, name).objects.entries[k] == a.objects.entries[k]
  {
    var vs := a.objects.Values();
    var kept := KeptObjects(vs, ObjectKeys(b));
    var o := a.objects.entries[k];
    var i :| 0 <= i < |a.objects.keys| && a.objects.keys[i] == k;
    assert vs[i] == o && o in kept;
    forall t | 0 <= t < |kept| && kept[t].name == o.name ensures kept[t] == o {
      assert kept[t] in kept;
      var j :| 0 <= j < |vs| && vs[j] == kept[t];
      assert vs[j] == a.objects.entries[a.objects.keys[j]];
    }
    AddObjectsUniform(NewCategory(DifferenceName(a, b, name)), kept, o);
  }

  /** The object loop keeps exactly the objects of A whose (name, domain)
      is not an object of B. */
  lemma DifferenceObjectsEntries(a: Category, b: Category, name: Option<string>)
    requires ObjectsKeyed(a) && Tabled(a)
    ensures DifferenceObjects(a, b, name).objects.entries == DifferenceObjectMap(a, b)
  {
    var r := DifferenceObjects(a, b, name).objects.entries;
    var m := DifferenceObjectMap(a, b);
    assert r.Keys == m.Keys by {
      KeptNamesAreKeys(a, b);
    }
    forall k | k in m ensures r[k] == m[k] {
      DifferenceObjectAt(a, b, name, k);
    }
  }

  /** The difference keeps exactly the objects of A whose (name, domain) is
      not an object of B. */
  lemma DifferenceObjectEntries(a: Category, b: Category, name: Option<string>)
    requires ObjectsKeyed(a) && Tabled(a)
    ensures Difference(a, b, name).objects.entries == DifferenceObjectMap(a, b)
  {
    DifferenceObjectsEntries(a, b, name);
  }

  /** The morphisms of `a` whose signature is not in `gone` and whose
      endpoint names are both in `kept`, under their names. */
  function SurvivingMorphisms(a: Category, gone: set<(string, string, MorphismType)>, kept: set<string>): map<string, Morphism> {
    map k | k in a.morphisms.entries &&
            Signature(a.morphisms.entries[k]) !in gone &&
            a.morphisms.entries[k].source.name in kept &&
            a.morphisms.entries[k].target.name in kept :: a.morphisms.entries[k]
  }

  /** Inserting the kept morphisms into a category without morphisms
      registers no name outside the surviving map. */
  lemma InsertKeptWithin(c: Category, a: Category, gone: set<(string, string, MorphismType)>, kept: set<string>)
    requires MorphismsKeyed(a) && c.morphisms.entries == map[]
    ensures InsertMorphisms(c, KeptMorphisms(a.morphisms.Values(), gone, kept)).morphisms.entries.Keys <=
              SurvivingMorphisms(a, gone, kept).Keys
  {
    var vs := a.morphisms.Values();
    var ms := KeptMorphisms(vs, gone, kept);
    forall k | k in InsertMorphisms(c, ms).morphisms.entries ensures k in SurvivingMorphisms(a, gone, kept) {
      var t :| 0 <= t < |ms| && MorphismNames(ms)[t] == k;
      assert ms[t] in ms;
      var i :| 0 <= i < |vs| && vs[i] == ms[t];
      assert a.morphisms.keys[i] == k;
    }
  }

  /** Every surviving morphism lands under its own name. */
  lemma InsertKeptAt(c: Category, a: Category, gone: set<(string, string, MorphismType)>, kept: set<string>, k: string)
    requires MorphismsKeyed(a)
    requires k in SurvivingMorphisms(a, gone, kept)
    ensures k in InsertMorphisms(c, KeptMorphisms(a.morphisms.Values(), gone, kept)).morphisms.entries
    ensures InsertMorphisms(c, KeptMorphisms(a.morphisms.Values(), gone, kept)).morphisms.entries[k] == a.morphisms.entries[k]
  {
    var vs := a.morphisms.Values();
    var ms := KeptMorphisms(vs, gone, kept);
    var m := a.morphisms.entries[k];
    var i :| 0 <= i < |a.morphisms.keys| && a.morphisms.keys[i] == k;
    assert vs[i] == m && m in ms;
    forall t | 0 <= t < |ms| && ms[t].name == m.name ensures ms[t] == m {
      assert ms[t] in ms;
      var j :| 0 <= j < |vs| && vs[j] == ms[t];
      assert vs[j] == a.morphisms.entries[a.morphisms.keys[j]];
    }
    InsertMorphismsUniform(c, ms, m);
  }

  /** The morphism loop of the difference writes exactly the surviving
      morphisms. */
  lemma InsertKeptEntries(c: Category, a: Category, gone: set<(string, string, MorphismType)>, kept: set<string>)
    requires MorphismsKeyed(a) && c.morphisms.entries == map[]
    ensures InsertMorphisms(c, KeptMorphisms(a.morphisms.Values(), gone, kept)).morphisms.entries ==
              SurvivingMorphisms(a, gone, kept)
  {
    var r := InsertMorphisms(c, KeptMorphisms(a.morphisms.Values(), gone, kept));
    InsertKeptWithin(c, a, gone, kept);
    forall k | k in SurvivingMorphisms(a, gone, kept)
      ensures k in r.morphisms.entries && r.morphisms.entries[k] == SurvivingMorphisms(a, gone, kept)[k]
    {
      InsertKeptAt(c, a, gone, kept, k);
    }
  }

  /** The difference keeps exactly the morphisms of A whose signature is not
      one of B's and whose endpoints both survive. */
  lemma DifferenceMorphismEntries(a: Category, b: Category, name: Option<string>)
    requires ObjectsKeyed(a) && MorphismsKeyed(a) && Tabled(a)
    ensures Difference(a, b, name).morphisms.entries == DifferenceMorphismMap(a, b)
  {
    KeptNamesAreKeys(a, b);
    InsertKeptEntries(DifferenceObjects(a, b, name), a, Signatures(b), KeptNames(a, b));
  }

  /** The plain dictionary write never leaves a dangling endpoint: the
      difference of a name-keyed category is valid. */
  lemma DifferenceValid(a: Category, b: Category, name: Option<string>)
    requires ObjectsKeyed(a) && Tabled(a)
    ensures Valid(Difference(a, b, name))
  {
    var objects := DifferenceObjects(a, b, name);
    var kept := KeptMorphisms(a.morphisms.Values(), Signatures(b), KeptNames(a, b));
    AddObjectsKeepsValid(NewCategory(DifferenceName(a, b, name)), KeptObjects(a.objects.Values(), ObjectKeys(b)));
    forall i | 0 <= i < |kept|
      ensures kept[i].source.name in objects.objects.entries && kept[i].target.name in objects.objects.entries
    {
      assert kept[i] in kept;
    }
    InsertMorphismsKeepValid(objects, kept);
  }

  /** `difference(A, A)` is empty. */
  lemma DifferenceSelf(a: Category, name: Option<string>)
    requires ObjectsKeyed(a) && MorphismsKeyed(a) && Tabled(a)
    ensures Difference(a, a, name).objects.entries == map[]
    ensures Difference(a, a, name).morphisms.entries == map[]
  {
    DifferenceObjectEntries(a, a, name);
    DifferenceMorphismEntries(a, a, name);
    forall k | k in a.objects.entries ensures ObjectKey(a.objects.entries[k]) in ObjectKeys(a) {
      assert a.objects.entries[k] in a.objects.entries.Values;
    }
  }

  /** When B shares no (name, domain) pair with A, the difference keeps
      every object of A. */
  lemma DifferenceDisjoint(a: Category, b: Category, name: Option<string>)
    requires ObjectsKeyed(a) && Tabled(a)
    requires forall o :: o in a.objects.entries.Values ==> ObjectKey(o) !in ObjectKeys(b)
    ensures Difference(a, b, name).objects.entries == a.objects.entries
  {
    DifferenceObjectEntries(a, b, name);
    forall k | k in a.objects.entries ensures ObjectKey(a.objects.entries[k]) !in ObjectKeys(b) {
      assert a.objects.entries[k] in a.objects.entries.Values;
    }
  }
}
