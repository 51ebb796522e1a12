/**
 * Stable sorting by a two-part key. It stands for JavaScript's `Array.prototype.sort` with a comparator
 * (stable since ES2019) and for the ORM's `order_by(a, b)`, whose second field breaks ties.
 */
module Sorting {

  /** A sort key compared lexicographically: `major` first, then `minor`. */
  datatype Key = Key(major: int, minor: int)

  predicate KeyLe(a: Key, b: Key) {
    a.major < b.major || (a.major == b.major && a.minor <= b.minor)
  }

  predicate SortedBy<T>(s: seq<T>, key: T -> Key) {
    forall i, j :: 0 <= i < j < |s| ==> KeyLe(key(s[i]), key(s[j]))
  }

  /** Places `x` in front of the first element whose key is not below its own. */
  function Insert<T>(x: T, s: seq<T>, key: T -> Key): (r: seq<T>)
    ensures multiset(r) == multiset(s) + multiset{x}
  {
    if s == [] || KeyLe(key(x), key(s[0])) then [x] + s
    else
      assert s == [s[0]] + s[1..];
      [s[0]] + Insert(x, s[1..], key)
  }

  /** Sorts by `key`; elements with equal keys keep their relative order. */
  function SortBy<T>(s: seq<T>, key: T -> Key): (r: seq<T>)
    ensures multiset(r) == multiset(s)
  {
    if s == [] then []
    else
      assert s == [s[0]] + s[1..];
      Insert(s[0], SortBy(s[1..], key), key)
  }

  /** The elements of `s` whose key is `k`, in their order in `s`. */
  function WithKey<T>(s: seq<T>, key: T -> Key, k: Key): (r: seq<T>)
    ensures |r| <= |s|
  {
    if s == [] then []
    else (if key(s[0]) == k then [s[0]] else []) + WithKey(s[1..], key, k)
  }

  lemma {:induction false} InsertSorted<T>(x: T, s: seq<T>, key: T -> Key)
    requires SortedBy(s, key)
    ensures SortedBy(Insert(x, s, key), key)
    decreases |s|
  {
    if s == [] || KeyLe(key(x), key(s[0])) {
      var r := [x] + s;
      forall i, j | 0 <= i < j < |r| ensures KeyLe(key(r[i]), key(r[j])) {
        if i == 0 {
          assert r[j] == s[j - 1];
          assert KeyLe(key(s[0]), key(s[j - 1])) || j == 1;
        } else {
          assert r[i] == s[i - 1] && r[j] == s[j - 1];
        }
      }
    } else {
      var t := Insert(x, s[1..], key);
      InsertSorted(x, s[1..], key);
      var r := [s[0]] + t;
      forall j | 0 <= j < |t| ensures KeyLe(key(s[0]), key(t[j])) {
        assert t[j] in multiset(t);
        assert t[j] in multiset(s[1..]) + multiset{x};
        if t[j] in multiset(s[1..]) {
          var m :| 0 <= m < |s[1..]| && s[1..][m] == t[j];
          assert s[m + 1] == t[j];
        }
      }
      forall i, j | 0 <= i < j < |r| ensures KeyLe(key(r[i]), key(r[j])) {
        if i == 0 {
          assert r[j] == t[j - 1];
        } else {
          assert r[i] == t[i - 1] && r[j] == t[j - 1];
        }
      }
    }
  }

  /** The sorted sequence is in key order. */
  lemma {:induction false} SortBySorted<T>(s: seq<T>, key: T -> Key)
    ensures SortedBy(SortBy(s, key), key)
  {
    if s != [] {
      SortBySorted(s[1..], key);
      InsertSorted(s[0], SortBy(s[1..], key), key);
    }
  }

  lemma {:induction false} WithKeyAppend<T>(a: seq<T>, b: seq<T>, key: T -> Key, k: Key)
    ensures WithKey(a + b, key, k) == WithKey(a, key, k) + WithKey(b, key, k)
  {
    if a == [] {
      assert a + b == b;
    } else {
      assert (a + b)[1..] == a[1..] + b;
      WithKeyAppend(a[1..], b, key, k);
    }
  }

  lemma {:induction false} WithKeyInsert<T>(x: T, s: seq<T>, key: T -> Key, k: Key)
    ensures WithKey(Insert(x, s, key), key, k) == (if key(x) == k then [x] else []) + WithKey(s, key, k)
    decreases |s|
  {
    if s == [] || KeyLe(key(x), key(s[0])) {
      WithKeyAppend([x], s, key, k);
      assert [x][1..] == [];
    } else {
      var rest := Insert(x, s[1..], key);
      var mine := if key(x) == k then [x] else [];
      var first := if key(s[0]) == k then [s[0]] else [];
      assert Insert(x, s, key) == [s[0]] + rest;
      assert WithKey(s, key, k) == first + WithKey(s[1..], key, k);
      WithKeyInsert(x, s[1..], key, k);
      WithKeyAppend([s[0]], rest, key, k);
      assert [s[0]][1..] == [];
      assert WithKey([s[0]], key, k) == first;
      var tail := WithKey(s[1..], key, k);
      assert WithKey(Insert(x, s, key), key, k) == first + (mine + tail);
      assert key(x) != key(s[0]);
      if mine == [] {
        assert mine + tail == tail;
        assert mine + (first + tail) == first + tail;
      } else {
        assert first == [];
        assert first + (mine + tail) == mine + tail;
        assert first + tail == tail;
      }
    }
  }

  /** Stability: for every key, the elements carrying it appear in the same order before and after sorting. */
  lemma {:induction false} SortByStable<T>(s: seq<T>, key: T -> Key, k: Key)
    ensures WithKey(SortBy(s, key), key, k) == WithKey(s, key, k)
  {
    if s != [] {
      SortByStable(s[1..], key, k);
      WithKeyInsert(s[0], SortBy(s[1..], key), key, k);
    }
  }

  // ---------------------------------------------------------------------------------------------
  // Selecting from a query set

  /** The elements of `s` that satisfy `f`, in their order in `s` (the ORM's `filter`). */
  function Keep<T(!new)>(s: seq<T>, f: T -> bool): (r: seq<T>)
    ensures |r| <= |s|
  {
    if s == [] then [] else (if f(s[0]) then [s[0]] else []) + Keep(s[1..], f)
  }

  /** What `Keep` keeps: exactly the elements that satisfy the filter. */
  lemma {:induction false} KeepMembers<T(!new)>(s: seq<T>, f: T -> bool)
    ensures forall x :: x in Keep(s, f) <==> x in s && f(x)
  {
    if s != [] {
      KeepMembers(s[1..], f);
      assert forall x :: x in s <==> x == s[0] || x in s[1..];
    }
  }

  /** `qs[:n]`: the first `n` elements, or all of them when there are fewer. */
  function Take<T>(s: seq<T>, n: nat): (r: seq<T>)
    ensures |r| == if n <= |s| then n else |s|
    ensures r == s[..|r|]
    ensures forall x :: x in r ==> x in s
  {
    if n <= |s| then s[..n] else s
  }

  /** A prefix of a sorted sequence is sorted. */
  lemma TakeSorted<T>(s: seq<T>, key: T -> Key, n: nat)
    requires SortedBy(s, key)
    ensures SortedBy(Take(s, n), key)
  {
    var r := Take(s, n);
    assert forall i :: 0 <= i < |r| ==> r[i] == s[i];
  }


  /** Slicing a sorted query set keeps the best-ranked elements: everything left out ranks after everything kept. */
  lemma TakeSortedRanksFirst<T>(s: seq<T>, key: T -> Key, n: nat, x: T, y: T)
    requires x in Take(SortBy(s, key), n)
    requires y in s && y !in Take(SortBy(s, key), n)
    ensures KeyLe(key(x), key(y))
  {
    var sorted := SortBy(s, key);
    var r := Take(sorted, n);
    SortBySorted(s, key);
    assert y in multiset(sorted);
    var j :| 0 <= j < |sorted| && sorted[j] == y;
    var i :| 0 <= i < |r| && r[i] == x;
    assert sorted[i] == x;
    assert j >= |r|;
  }

  /** Filtering keeps the order of what remains. */
  lemma {:induction false} KeepSorted<T(!new)>(s: seq<T>, f: T -> bool, key: T -> Key)
    requires SortedBy(s, key)
    ensures SortedBy(Keep(s, f), key)
  {
    if s != [] {
      var rest := Keep(s[1..], f);
      KeepSorted(s[1..], f, key);
      if f(s[0]) {
        var r := [s[0]] + rest;
        assert Keep(s, f) == r;
        KeepMembers(s[1..], f);
        forall j | 0 <= j < |rest| ensures KeyLe(key(s[0]), key(rest[j])) {
          assert rest[j] in rest;
          var m :| 0 <= m < |s[1..]| && s[1..][m] == rest[j];
          assert s[m + 1] == rest[j];
        }
        forall i, j | 0 <= i < j < |r| ensures KeyLe(key(r[i]), key(r[j])) {
          if i == 0 {
            assert r[j] == rest[j - 1];
          } else {
            assert r[i] == rest[i - 1] && r[j] == rest[j - 1];
          }
        }
      }
    }
  }

  /** Two filters in a row keep what their conjunction keeps. */
  lemma {:induction false} KeepKeep<T(!new)>(s: seq<T>, f: T -> bool, g: T -> bool, h: T -> bool)
    requires forall x :: h(x) == (f(x) && g(x))
    ensures Keep(Keep(s, f), g) == Keep(s, h)
  {
    if s != [] {
      KeepKeep(s[1..], f, g, h);
      var rest := Keep(s[1..], f);
      if f(s[0]) {
        var once := [s[0]] + rest;
        assert Keep(s, f) == once;
        assert once[0] == s[0] && once[1..] == rest;
        assert Keep(once, g) == (if g(s[0]) then [s[0]] else []) + Keep(rest, g);
      } else {
        assert Keep(s, f) == rest;
      }
    }
  }

  /** Sorting neither adds nor drops elements. */
  lemma SortByMembers<T(!new)>(s: seq<T>, key: T -> Key)
    ensures forall x :: x in SortBy(s, key) <==> x in s
  {
    assert forall x :: x in SortBy(s, key) <==> x in multiset(SortBy(s, key));
    assert forall x :: x in s <==> x in multiset(s);
  }
}
