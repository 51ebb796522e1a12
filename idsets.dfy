/**
 * Insertion-ordered sets of ids, as the client keeps them: a JavaScript `Set` built from a stored array,
 * written back with `Array.from(set)`. A set is represented by the sequence of its members in insertion order.
 */
module IdSets {

  /** A product id. */
  type Id = int

  predicate Distinct(s: seq<Id>) {
    forall i, j :: 0 <= i < j < |s| ==> s[i] != s[j]
  }

  /** `Array.from(new Set(s))`: the members of `s`, once each, in order of first occurrence. */
  function Dedup(s: seq<Id>): (r: seq<Id>)
    ensures Distinct(r)
    ensures forall x :: x in r <==> x in s
    ensures |r| <= |s|
  {
    if s == [] then []
    else
      var p := Dedup(s[..|s| - 1]);
      var x := s[|s| - 1];
      if x in p then p else p + [x]
  }

  /** `set.add(x)`: appended at the end when absent, otherwise no change. */
  function Add(s: seq<Id>, x: Id): (r: seq<Id>)
    ensures x in r
    ensures forall y :: y in r <==> y == x || y in s
    ensures x in s ==> r == s
    ensures x !in s ==> |r| == |s| + 1 && r[..|s|] == s
  {
    if x in s then s else s + [x]
  }

  /** `set.delete(x)`, and equally `ids.filter(v => v !== x)`: every other member, order kept. */
  function Without(s: seq<Id>, x: Id): (r: seq<Id>)
    ensures x !in r
    ensures forall y :: y in r <==> y in s && y != x
    ensures |r| <= |s|
  {
    if s == [] then []
    else (if s[0] == x then [] else [s[0]]) + Without(s[1..], x)
  }

  /** The favourite toggle on a set: `x` leaves when present and joins at the end when absent. */
  function Toggled(s: seq<Id>, x: Id): (r: seq<Id>)
    ensures x in r <==> x !in s
    ensures forall y :: y != x ==> (y in r <==> y in s)
  {
    if x in s then Without(s, x) else Add(s, x)
  }

  lemma AddDistinct(s: seq<Id>, x: Id)
    requires Distinct(s)
    ensures Distinct(Add(s, x))
  {
  }

  lemma {:induction false} WithoutDistinct(s: seq<Id>, x: Id)
    requires Distinct(s)
    ensures Distinct(Without(s, x))
  {
    if s != [] {
      WithoutDistinct(s[1..], x);
      var t := Without(s[1..], x);
      assert s[0] !in s[1..];
      assert s[0] !in t;
    }
  }

  /** Building a set from a sequence that already has no repetition gives that sequence back. */
  lemma {:induction false} DedupOfDistinct(s: seq<Id>)
    requires Distinct(s)
    ensures Dedup(s) == s
  {
    if s != [] {
      var init := s[..|s| - 1];
      DedupOfDistinct(init);
      assert s[|s| - 1] !in init;
      assert init + [s[|s| - 1]] == s;
    }
  }

  /** Re-reading a set that was written back as an array gives the same set in the same order. */
  lemma DedupIdempotent(s: seq<Id>)
    ensures Dedup(Dedup(s)) == Dedup(s)
  {
    DedupOfDistinct(Dedup(s));
  }

  /** Order of first occurrence: the set built from a prefix is a prefix of the set built from the whole. */
  lemma {:induction false} DedupPrefix(a: seq<Id>, b: seq<Id>)
    ensures |Dedup(a)| <= |Dedup(a + b)|
    ensures Dedup(a + b)[..|Dedup(a)|] == Dedup(a)
    decreases |b|
  {
    if b == [] {
      assert a + b == a;
    } else {
      var b' := b[..|b| - 1];
      DedupPrefix(a, b');
      assert (a + b)[..|a + b| - 1] == a + b';
    }
  }

  lemma {:induction false} DistinctCardinality(s: seq<Id>)
    requires Distinct(s)
    ensures |set x | x in s| == |s|
  {
    if s != [] {
      var init := s[..|s| - 1];
      var last := s[|s| - 1];
      assert Distinct(init);
      DistinctCardinality(init);
      assert last !in init;
      assert (set x | x in s) == (set x | x in init) + {last};
    }
  }

  /** `new Set(s).size` is the number of distinct members of `s`. */
  lemma DedupSize(s: seq<Id>)
    ensures |Dedup(s)| == |set x | x in s|
  {
    DistinctCardinality(Dedup(s));
    assert (set x | x in Dedup(s)) == (set x | x in s);
  }

  lemma ToggledDistinct(s: seq<Id>, x: Id)
    requires Distinct(s)
    ensures Distinct(Toggled(s, x))
  {
    if x in s {
      WithoutDistinct(s, x);
    }
  }
}
