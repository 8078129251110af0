/** An insertion-ordered dictionary keyed by strings: the model of a Python
    `dict` whose iteration order the program observes. Assigning to a key
    that is already present replaces its value in place and keeps its
    position; a new key is appended at the end. */
module Tables {
  import opened Wrappers

  /** No element of `s` occurs twice. */
  predicate Distinct<T(==)>(s: seq<T>) {
    forall i, j :: 0 <= i < j < |s| ==> s[i] != s[j]
  }

  datatype Table<V> = Table(keys: seq<string>, entries: map<string, V>) {

    /** The order lists every key of the dictionary exactly once. */
    ghost predicate Valid() {
      && Distinct(keys)
      && (forall k :: k in entries <==> k in keys)
    }

    /** `dict.get(k)` */
    function Get(k: string): (r: Option<V>)
      ensures r.Some? <==> k in entries
      ensures r.Some? ==> r.value == entries[k]
    {
      if k in entries then Some(entries[k]) else None
    }

    /** `d[k] = v` */
    function Put(k: string, v: V): (r: Table<V>)
      ensures r.entries == entries[k := v]
      ensures Valid() ==> r.Valid()
      ensures Valid() && k in entries ==> r.keys == keys
      ensures Valid() && k !in entries ==> r.keys == keys + [k]
    {
      if k in entries then Table(keys, entries[k := v]) else Table(keys + [k], entries[k := v])
    }

    /** `list(d.values())`, in insertion order. */
    function Values(): (r: seq<V>)
      requires Valid()
      ensures |r| == |keys|
      ensures forall i :: 0 <= i < |keys| ==> keys[i] in entries && r[i] == entries[keys[i]]
    {
      seq(|keys|, i requires 0 <= i < |keys| => entries[keys[i]])
    }
  }

  function EmptyTable<V>(): (r: Table<V>)
    ensures r.Valid() && r.entries == map[]
  {
    Table([], map[])
  }

  /** `r` is `s` with some elements left out and the others kept in their
      order: what a list comprehension with a filter yields. */
  predicate Subsequence<T(==)>(r: seq<T>, s: seq<T>)
    decreases |s|
  {
    if |r| == 0 then true
    else if |s| == 0 then false
    else (r[|r| - 1] == s[|s| - 1] && Subsequence(r[..|r| - 1], s[..|s| - 1])) || Subsequence(r, s[..|s| - 1])
  }

  lemma {:induction false} SubsequenceMembers<T>(r: seq<T>, s: seq<T>)
    requires Subsequence(r, s)
    ensures forall x :: x in r ==> x in s
    ensures Distinct(s) ==> Distinct(r)
    decreases |s|
  {
    if |r| > 0 {
      var s0 := s[..|s| - 1];
      if r[|r| - 1] == s[|s| - 1] && Subsequence(r[..|r| - 1], s0) {
        SubsequenceMembers(r[..|r| - 1], s0);
        assert r == r[..|r| - 1] + [r[|r| - 1]];
        assert s == s0 + [s[|s| - 1]];
        if Distinct(s) {
          forall i, j | 0 <= i < j < |r| ensures r[i] != r[j] {
            if j < |r| - 1 {
              assert r[i] == r[..|r| - 1][i] && r[j] == r[..|r| - 1][j];
            } else {
              assert r[i] in r[..|r| - 1];
              assert s[|s| - 1] !in s0;
            }
          }
        }
      } else {
        SubsequenceMembers(r, s0);
        assert s == s0 + [s[|s| - 1]];
      }
    }
  }

  /** Over a sequence without repetitions, a subsequence is fixed by the
      elements it holds. */
  lemma {:induction false} SubsequenceDetermined<T>(r1: seq<T>, r2: seq<T>, s: seq<T>)
    requires Distinct(s) && Subsequence(r1, s) && Subsequence(r2, s)
    requires forall x :: x in r1 <==> x in r2
    ensures r1 == r2
    decreases |s|
  {
    if |s| > 0 {
      var x := s[|s| - 1];
      var s0 := s[..|s| - 1];
      assert s == s0 + [x];
      assert Distinct(s0);
      assert x !in s0;
      var t1 := DropLast(r1, s0, x);
      var t2 := DropLast(r2, s0, x);
      SubsequenceMembers(t1, s0);
      SubsequenceMembers(t2, s0);
      if x in r1 {
        assert x in r2;
        forall y | y in t1 ensures y in t2 {
          assert y in r1 && y != x;
        }
        forall y | y in t2 ensures y in t1 {
          assert y in r2 && y != x;
        }
      }
      SubsequenceDetermined(t1, t2, s0);
    }
  }

  /** A subsequence of `s0 + [x]` without `x` among `s0`: the part of it
      drawn from `s0`. */
  lemma DropLast<T>(r: seq<T>, s0: seq<T>, x: T) returns (t: seq<T>)
    requires Subsequence(r, s0 + [x]) && x !in s0
    ensures Subsequence(t, s0)
    ensures x in r ==> r == t + [x]
    ensures x !in r ==> r == t
  {
    var s := s0 + [x];
    assert s[..|s| - 1] == s0;
    if |r| == 0 {
      t := r;
    } else if r[|r| - 1] == x && Subsequence(r[..|r| - 1], s0) {
      t := r[..|r| - 1];
      assert r == t + [x];
      SubsequenceMembers(t, s0);
    } else {
      t := r;
      SubsequenceMembers(r, s0);
    }
  }

  /** The elements of a sequence, as a set. */
  function Elements<T>(s: seq<T>): set<T> {
    set x | x in s
  }

  lemma {:induction false} DistinctElementsCount<T>(s: seq<T>)
    requires Distinct(s)
    ensures |Elements(s)| == |s|
  {
    if |s| > 0 {
      var init := s[..|s| - 1];
      assert Distinct(init);
      DistinctElementsCount(init);
      assert Elements(s) == Elements(init) + {s[|s| - 1]};
      assert s[|s| - 1] !in Elements(init);
    }
  }

  /** `len(d)` is the length of the key order. */
  lemma SizeIsKeyCount<V>(t: Table<V>)
    requires t.Valid()
    ensures |t.entries| == |t.keys|
  {
    assert t.entries.Keys == Elements(t.keys);
    DistinctElementsCount(t.keys);
  }
}
