/** Functors (structure-preserving maps between categories), their
    validity diagnostic, and functor composition. Source: core/dsl.py. */
module Functors {
  import opened Wrappers
  import opened Tables
  import opened Dsl

  /** A functor references its two categories and maps source names to
      target names; neither map has to be total. */
  datatype Functor = Functor(
    name: string,
    source: Category,
    target: Category,
    objectMap: Table<string>,
    morphismMap: Table<string>,
    rules: seq<string>)

  ghost predicate WellFormed(f: Functor) {
    f.objectMap.Valid() && f.morphismMap.Valid()
  }

  /** `apply_to_object`: look the name up, then resolve the image name in
      the target category. */
  function ApplyToObject(f: Functor, o: Object): (r: Option<Object>)
    ensures r.Some? <==> o.name in f.objectMap.entries && f.objectMap.entries[o.name] in f.target.objects.entries
    ensures r.Some? ==> r.value == f.target.objects.entries[f.objectMap.entries[o.name]]
  {
    if o.name in f.objectMap.entries then f.target.objects.Get(f.objectMap.entries[o.name]) else None
  }

  /** `apply_to_morphism` */
  function ApplyToMorphism(f: Functor, m: Morphism): (r: Option<Morphism>)
    ensures r.Some? <==> m.name in f.morphismMap.entries && f.morphismMap.entries[m.name] in f.target.morphisms.entries
    ensures r.Some? ==> r.value == f.target.morphisms.entries[f.morphismMap.entries[m.name]]
  {
    if m.name in f.morphismMap.entries then f.target.morphisms.Get(f.morphismMap.entries[m.name]) else None
  }

  /** In a valid target category the image of an object carries exactly the
      name the object map assigns; only the object's name matters. */
  lemma ImageCarriesMappedName(f: Functor, o: Object, o': Object)
    requires Valid(f.target)
    requires o.name == o'.name
    ensures ApplyToObject(f, o) == ApplyToObject(f, o')
    ensures ApplyToObject(f, o).Some? ==> ApplyToObject(f, o).value.name == f.objectMap.entries[o.name]
  {
  }

  /** One diagnostic of `is_valid`. */
  datatype Issue =
    | MissingSourceObject(objectName: string)
    | MissingTargetObject(objectName: string)
    | SourceNotPreserved(morphismName: string)
    | TargetNotPreserved(morphismName: string)

  /** The human-readable text `is_valid` reports. */
  function Message(i: Issue): string {
    match i
    case MissingSourceObject(n) => "Source object '" + n + "' not found"
    case MissingTargetObject(n) => "Target object '" + n + "' not found"
    case SourceNotPreserved(n) => "Functor does not preserve source of '" + n + "'"
    case TargetNotPreserved(n) => "Functor does not preserve target of '" + n + "'"
  }

  /** The image of `s` under the object map agrees with the endpoints of
      `t`; an unmapped endpoint never agrees. */
  predicate PreservesSource(f: Functor, s: Morphism, t: Morphism) {
    f.objectMap.Get(s.source.name) == Some(t.source.name)
  }

  predicate PreservesTarget(f: Functor, s: Morphism, t: Morphism) {
    f.objectMap.Get(s.target.name) == Some(t.target.name)
  }

  /** What `is_valid` checks, stated declaratively. */
  ghost predicate ObjectMapSound(f: Functor) {
    forall k :: k in f.objectMap.entries ==>
      k in f.source.objects.entries && f.objectMap.entries[k] in f.target.objects.entries
  }

  ghost predicate MorphismMapSound(f: Functor) {
    forall k :: k in f.morphismMap.entries && k in f.source.morphisms.entries &&
                f.morphismMap.entries[k] in f.target.morphisms.entries ==>
      && PreservesSource(f, f.source.morphisms.entries[k], f.target.morphisms.entries[f.morphismMap.entries[k]])
      && PreservesTarget(f, f.source.morphisms.entries[k], f.target.morphisms.entries[f.morphismMap.entries[k]])
  }

  ghost predicate Consistent(f: Functor) {
    ObjectMapSound(f) && MorphismMapSound(f)
  }

  /** The issues raised by one object-map entry. */
  function ObjectEntryIssues(f: Functor, k: string): seq<Issue>
    requires k in f.objectMap.entries
  {
    (if k !in f.source.objects.entries then [MissingSourceObject(k)] else []) +
    (if f.objectMap.entries[k] !in f.target.objects.entries then [MissingTargetObject(f.objectMap.entries[k])] else [])
  }

  /** The issues raised by one morphism-map entry: checked only when both
      morphisms exist. */
  function MorphismEntryIssues(f: Functor, k: string): seq<Issue>
    requires k in f.morphismMap.entries
  {
    var s := f.source.morphisms.Get(k);
    var t := f.target.morphisms.Get(f.morphismMap.entries[k]);
    if s.Some? && t.Some? then
      (if !PreservesSource(f, s.value, t.value) then [SourceNotPreserved(k)] else []) +
      (if !PreservesTarget(f, s.value, t.value) then [TargetNotPreserved(k)] else [])
    else []
  }

  function ObjectIssues(f: Functor, ks: seq<string>): (r: seq<Issue>)
    requires forall k :: k in ks ==> k in f.objectMap.entries
    ensures r == [] <==> forall k :: k in ks ==> ObjectEntryIssues(f, k) == []
  {
    if |ks| == 0 then []
    else
      assert ks == ks[..|ks| - 1] + [ks[|ks| - 1]];
      ObjectIssues(f, ks[..|ks| - 1]) + ObjectEntryIssues(f, ks[|ks| - 1])
  }

  function MorphismIssues(f: Functor, ks: seq<string>): (r: seq<Issue>)
    requires forall k :: k in ks ==> k in f.morphismMap.entries
    ensures r == [] <==> forall k :: k in ks ==> MorphismEntryIssues(f, k) == []
  {
    if |ks| == 0 then []
    else
      assert ks == ks[..|ks| - 1] + [ks[|ks| - 1]];
      MorphismIssues(f, ks[..|ks| - 1]) + MorphismEntryIssues(f, ks[|ks| - 1])
  }

  /** `is_valid`: the verdict and the issues found, object-map entries
      first, each map in insertion order. */
  function IsValid(f: Functor): (r: (bool, seq<Issue>))
    requires WellFormed(f)
    ensures r.0 <==> r.1 == []
    ensures r.0 <==> Consistent(f)
  {
    var issues := ObjectIssues(f, f.objectMap.keys) + MorphismIssues(f, f.morphismMap.keys);
    assert ObjectMapSound(f) <==> forall k :: k in f.objectMap.keys ==> ObjectEntryIssues(f, k) == [];
    assert MorphismMapSound(f) <==> forall k :: k in f.morphismMap.keys ==> MorphismEntryIssues(f, k) == [];
    (|issues| == 0, issues)
  }

  /** A mapping to a target name the target category lacks is always
      reported, whatever else holds. */
  lemma MissingTargetReported(f: Functor, k: string)
    requires WellFormed(f)
    requires k in f.objectMap.entries && f.objectMap.entries[k] !in f.target.objects.entries
    ensures !IsValid(f).0
    ensures MissingTargetObject(f.objectMap.entries[k]) in IsValid(f).1
  {
    assert k in f.objectMap.keys;
    ObjectIssuesCover(f, f.objectMap.keys, k);
  }

  lemma {:induction false} ObjectIssuesCover(f: Functor, ks: seq<string>, k: string)
    requires forall k :: k in ks ==> k in f.objectMap.entries
    requires k in ks
    ensures forall i :: i in ObjectEntryIssues(f, k) ==> i in ObjectIssues(f, ks)
  {
    var last := ks[|ks| - 1];
    if k != last {
      ObjectIssuesCover(f, ks[..|ks| - 1], k);
    }
  }

  function ComposedName(outer: string, inner: string): string {
    "(" + outer + " ∘ " + inner + ")"
  }

  /** The name chain a ↦ outer[inner[a]] over the keys `ks` of `inner`, in
      their order; a key whose intermediate name `outer` lacks is dropped. */
  function Chain(outer: Table<string>, inner: Table<string>, ks: seq<string>): (r: Table<string>)
    requires forall k :: k in ks ==> k in inner.entries
    ensures r.Valid()
    ensures forall a :: a in r.entries <==> a in ks && inner.entries[a] in outer.entries
    ensures forall a :: a in r.entries ==> r.entries[a] == outer.entries[inner.entries[a]]
    ensures Distinct(ks) ==> Subsequence(r.keys, ks)
  {
    if |ks| == 0 then EmptyTable()
    else
      var a := ks[|ks| - 1];
      var before := Chain(outer, inner, ks[..|ks| - 1]);
      assert forall x :: x in ks <==> x in ks[..|ks| - 1] || x == a;
      if inner.entries[a] in outer.entries then before.Put(a, outer.entries[inner.entries[a]]) else before
  }

  /** `FunctorOperations.compose(f, g)`, i.e. f ∘ g: defined only when g's
      target category has the name of f's source category. */
  function ComposeFunctors(f: Functor, g: Functor): (r: Option<Functor>)
    requires WellFormed(f) && WellFormed(g)
    ensures r.Some? <==> g.target.name == f.source.name
    ensures r.Some? ==> var h := r.value;
              && WellFormed(h)
              && h.name == ComposedName(f.name, g.name)
              && h.source == g.source && h.target == f.target
              && h.rules == g.rules + f.rules
    ensures r.Some? ==> var h := r.value;
              && (forall a :: a in h.objectMap.entries <==>
                    a in g.objectMap.entries && g.objectMap.entries[a] in f.objectMap.entries)
              && (forall a :: a in h.objectMap.entries ==>
                    h.objectMap.entries[a] == f.objectMap.entries[g.objectMap.entries[a]])
              && Subsequence(h.objectMap.keys, g.objectMap.keys)
    ensures r.Some? ==> var h := r.value;
              && (forall a :: a in h.morphismMap.entries <==>
                    a in g.morphismMap.entries && g.morphismMap.entries[a] in f.morphismMap.entries)
              && (forall a :: a in h.morphismMap.entries ==>
                    h.morphismMap.entries[a] == f.morphismMap.entries[g.morphismMap.entries[a]])
              && Subsequence(h.morphismMap.keys, g.morphismMap.keys)
  {
    if g.target.name != f.source.name then None
    else
      Some(Functor(
        ComposedName(f.name, g.name),
        g.source,
        f.target,
        Chain(f.objectMap, g.objectMap, g.objectMap.keys),
        Chain(f.morphismMap, g.morphismMap, g.morphismMap.keys),
        g.rules + f.rules))
  }

  /** Applying the composite to an object is applying g, then f, by name:
      the composite resolves `o` exactly when g maps it to a name that f
      maps into f's target category. */
  lemma ComposeAppliesInTurn(f: Functor, g: Functor, o: Object)
    requires WellFormed(f) && WellFormed(g)
    requires g.target.name == f.source.name
    ensures var h := ComposeFunctors(f, g).value;
            ApplyToObject(h, o) ==
              if o.name in g.objectMap.entries
              then ApplyToObject(f, Object(g.objectMap.entries[o.name], "", []))
              else None
  {
  }
}
