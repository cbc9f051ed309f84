/**
 * The stable key sorts of the inventory (`sorted(..., key=..., reverse=...)`):
 * an insertion sort over car snapshots, proved to return a permutation of its
 * input that is ordered by the key and keeps the input order among equal keys,
 * in both directions.
 */
module Sorting {
  import opened Cars

  /** The field a sort orders by. */
  datatype SortKey = ByPrice | ByYear | ByMileage

  function KeyOf(c: CarRecord, key: SortKey): real {
    match key
    case ByPrice => c.price
    case ByYear => c.year as real
    case ByMileage => c.mileage
  }

  /** Whether key value `a` may come before key value `b` in the requested direction. */
  predicate InOrder(a: real, b: real, ascending: bool) {
    if ascending then a <= b else b <= a
  }

  predicate Sorted(s: seq<CarRecord>, key: SortKey, ascending: bool) {
    forall i, j :: 0 <= i < j < |s| ==> InOrder(KeyOf(s[i], key), KeyOf(s[j], key), ascending)
  }

  /** The cars of `s` whose key equals `v`, in their order in `s`. */
  function WithKey(s: seq<CarRecord>, key: SortKey, v: real): seq<CarRecord> {
    if s == [] then []
    else (if KeyOf(s[0], key) == v then [s[0]] else []) + WithKey(s[1..], key, v)
  }

  /** A key group holds exactly the cars of the list that have that key value. */
  lemma {:induction false} WithKeyMembers(s: seq<CarRecord>, key: SortKey, v: real, c: CarRecord)
    ensures c in WithKey(s, key, v) <==> c in s && KeyOf(c, key) == v
    decreases |s|
  {
    if s != [] {
      WithKeyMembers(s[1..], key, v, c);
      assert s == [s[0]] + s[1..];
    }
  }

  /** `r` lists the cars of every key value in the same order as `s` does (the sort is stable). */
  ghost predicate Stable(r: seq<CarRecord>, s: seq<CarRecord>, key: SortKey) {
    forall v :: WithKey(r, key, v) == WithKey(s, key, v)
  }

  /**
   * Puts `x`, which came before every car of `s` in the input, in front of the
   * first car of `s` it may precede: it only passes cars whose key is strictly
   * out of order with its own.
   */
  function Insert(x: CarRecord, s: seq<CarRecord>, key: SortKey, ascending: bool): seq<CarRecord> {
    if s == [] || InOrder(KeyOf(x, key), KeyOf(s[0], key), ascending) then [x] + s
    else [s[0]] + Insert(x, s[1..], key, ascending)
  }

  /** Inserting adds `x` and nothing else. */
  lemma {:induction false} InsertPermutes(x: CarRecord, s: seq<CarRecord>, key: SortKey, ascending: bool)
    ensures multiset(Insert(x, s, key, ascending)) == multiset(s) + multiset{x}
    decreases |s|
  {
    if !(s == [] || InOrder(KeyOf(x, key), KeyOf(s[0], key), ascending)) {
      InsertPermutes(x, s[1..], key, ascending);
      assert s == [s[0]] + s[1..];
    }
  }

  /** A car that may precede every car of an ordered list can be put in front of it. */
  lemma SortedCons(a: CarRecord, t: seq<CarRecord>, key: SortKey, ascending: bool)
    requires Sorted(t, key, ascending)
    requires forall j :: 0 <= j < |t| ==> InOrder(KeyOf(a, key), KeyOf(t[j], key), ascending)
    ensures Sorted([a] + t, key, ascending)
  {
    var r := [a] + t;
    forall i, j | 0 <= i < j < |r|
      ensures InOrder(KeyOf(r[i], key), KeyOf(r[j], key), ascending)
    {
      assert r[j] == t[j - 1];
      if i > 0 {
        assert r[i] == t[i - 1];
      }
    }
  }

  /** The front car of an ordered list may precede every other car, and the rest is ordered. */
  lemma SortedUncons(r: seq<CarRecord>, key: SortKey, ascending: bool)
    requires Sorted(r, key, ascending) && r != []
    ensures Sorted(r[1..], key, ascending)
    ensures forall j :: 0 <= j < |r| - 1 ==> InOrder(KeyOf(r[0], key), KeyOf(r[1..][j], key), ascending)
  {
    forall j | 0 <= j < |r| - 1
      ensures InOrder(KeyOf(r[0], key), KeyOf(r[1..][j], key), ascending)
    {
      assert r[1..][j] == r[j + 1];
    }
  }

  lemma {:induction false} InsertSorted(x: CarRecord, s: seq<CarRecord>, key: SortKey, ascending: bool)
    requires Sorted(s, key, ascending)
    ensures Sorted(Insert(x, s, key, ascending), key, ascending)
    decreases |s|
  {
    if s == [] || InOrder(KeyOf(x, key), KeyOf(s[0], key), ascending) {
      if s != [] {
        SortedUncons(s, key, ascending);
        forall j | 0 <= j < |s|
          ensures InOrder(KeyOf(x, key), KeyOf(s[j], key), ascending)
        {
          if j > 0 {
            assert s[j] == s[1..][j - 1];
          }
        }
      }
      SortedCons(x, s, key, ascending);
    } else {
      var head, rest := s[0], s[1..];
      SortedUncons(s, key, ascending);
      var tail := Insert(x, rest, key, ascending);
      InsertSorted(x, rest, key, ascending);
      InsertPermutes(x, rest, key, ascending);
      forall j | 0 <= j < |tail|
        ensures InOrder(KeyOf(head, key), KeyOf(tail[j], key), ascending)
      {
        assert tail[j] in multiset(tail);
        if tail[j] != x {
          assert tail[j] in rest;
          var k :| 0 <= k < |rest| && rest[k] == tail[j];
        }
      }
      SortedCons(head, tail, key, ascending);
    }
  }

  /** The key group of a list with a car in front. */
  lemma WithKeyCons(c: CarRecord, s: seq<CarRecord>, key: SortKey, v: real)
    ensures WithKey([c] + s, key, v) == (if KeyOf(c, key) == v then [c] else []) + WithKey(s, key, v)
  {
    assert ([c] + s)[0] == c && ([c] + s)[1..] == s;
  }

  /** Inserting `x` only moves it past cars of other key values. */
  lemma {:induction false} InsertStable(x: CarRecord, s: seq<CarRecord>, key: SortKey, ascending: bool, v: real)
    ensures WithKey(Insert(x, s, key, ascending), key, v) == WithKey([x] + s, key, v)
    decreases |s|
  {
    if !(s == [] || InOrder(KeyOf(x, key), KeyOf(s[0], key), ascending)) {
      var head, tail := s[0], s[1..];
      var inserted := Insert(x, tail, key, ascending);
      InsertStable(x, tail, key, ascending, v);
      var here := if KeyOf(head, key) == v then [head] else [];
      var mine := if KeyOf(x, key) == v then [x] else [];
      assert here == [] || mine == [];
      assert s == [head] + tail;
      WithKeyCons(head, inserted, key, v);
      WithKeyCons(x, tail, key, v);
      WithKeyCons(x, s, key, v);
      WithKeyCons(head, tail, key, v);
      calc {
        WithKey(Insert(x, s, key, ascending), key, v);
        WithKey([head] + inserted, key, v);
        here + WithKey(inserted, key, v);
        here + (mine + WithKey(tail, key, v));
        mine + (here + WithKey(tail, key, v));
        mine + WithKey(s, key, v);
        WithKey([x] + s, key, v);
      }
    }
  }

  /** Python's `sorted(s, key=..., reverse=not ascending)`, as an insertion sort from the back. */
  function SortBy(s: seq<CarRecord>, key: SortKey, ascending: bool): seq<CarRecord> {
    if s == [] then [] else Insert(s[0], SortBy(s[1..], key, ascending), key, ascending)
  }

  /** The sort returns a permutation of its input. */
  lemma {:induction false} SortByPermutes(s: seq<CarRecord>, key: SortKey, ascending: bool)
    ensures multiset(SortBy(s, key, ascending)) == multiset(s)
    decreases |s|
  {
    if s != [] {
      SortByPermutes(s[1..], key, ascending);
      InsertPermutes(s[0], SortBy(s[1..], key, ascending), key, ascending);
      assert s == [s[0]] + s[1..];
    }
  }

  /** The sort returns a list ordered by the key in the requested direction. */
  lemma {:induction false} SortBySorted(s: seq<CarRecord>, key: SortKey, ascending: bool)
    ensures Sorted(SortBy(s, key, ascending), key, ascending)
    decreases |s|
  {
    if s != [] {
      SortBySorted(s[1..], key, ascending);
      InsertSorted(s[0], SortBy(s[1..], key, ascending), key, ascending);
    }
  }

  /** The sort keeps the input order among cars of equal key. */
  lemma {:induction false} SortByStable(s: seq<CarRecord>, key: SortKey, ascending: bool)
    ensures Stable(SortBy(s, key, ascending), s, key)
    decreases |s|
  {
    if s != [] {
      var rest := SortBy(s[1..], key, ascending);
      SortByStable(s[1..], key, ascending);
      forall v
        ensures WithKey(SortBy(s, key, ascending), key, v) == WithKey(s, key, v)
      {
        InsertStable(s[0], rest, key, ascending, v);
        WithKeyCons(s[0], rest, key, v);
        WithKeyCons(s[0], s[1..], key, v);
        assert s == [s[0]] + s[1..];
      }
    }
  }

  /**
   * The sort returns a permutation of its input, ordered by the key in the
   * requested direction, with cars of equal key in their input order.
   */
  lemma SortByCorrect(s: seq<CarRecord>, key: SortKey, ascending: bool)
    ensures multiset(SortBy(s, key, ascending)) == multiset(s)
    ensures Sorted(SortBy(s, key, ascending), key, ascending)
    ensures Stable(SortBy(s, key, ascending), s, key)
  {
    SortByPermutes(s, key, ascending);
    SortBySorted(s, key, ascending);
    SortByStable(s, key, ascending);
  }

  /** Sorting a list with a car in front inserts that car into the sorted rest. */
  lemma SortByCons(c: CarRecord, s: seq<CarRecord>, key: SortKey, ascending: bool)
    ensures SortBy([c] + s, key, ascending) == Insert(c, SortBy(s, key, ascending), key, ascending)
  {
    assert ([c] + s)[0] == c && ([c] + s)[1..] == s;
  }

  /** Inserting passes a car in front exactly when the inserted car's key is strictly out of order with it. */
  lemma InsertCons(x: CarRecord, c: CarRecord, s: seq<CarRecord>, key: SortKey, ascending: bool)
    ensures Insert(x, [c] + s, key, ascending) ==
      if InOrder(KeyOf(x, key), KeyOf(c, key), ascending) then [x, c] + s
      else [c] + Insert(x, s, key, ascending)
  {
    assert ([c] + s)[0] == c && ([c] + s)[1..] == s;
  }

  /** The first car of a sorted list has a key that may precede the key of every car in it. */
  lemma HeadComesFirst(s: seq<CarRecord>, key: SortKey, ascending: bool, c: CarRecord)
    requires Sorted(s, key, ascending) && c in s
    ensures InOrder(KeyOf(s[0], key), KeyOf(c, key), ascending)
  {
    var j :| 0 <= j < |s| && s[j] == c;
    if j > 0 {
      assert InOrder(KeyOf(s[0], key), KeyOf(s[j], key), ascending);
    }
  }

  /** Lists with the same key groups are both empty or both non-empty. */
  lemma StableKeepsEmptiness(r: seq<CarRecord>, t: seq<CarRecord>, key: SortKey)
    requires Stable(r, t, key)
    ensures r == [] <==> t == []
  {
    if r != [] {
      WithKeyMembers(r, key, KeyOf(r[0], key), r[0]);
      assert WithKey(t, key, KeyOf(r[0], key)) != [];
    }
    if t != [] {
      WithKeyMembers(t, key, KeyOf(t[0], key), t[0]);
      assert WithKey(r, key, KeyOf(t[0], key)) != [];
    }
  }

  /**
   * The three properties determine the result: two lists, both ordered by the
   * key and listing every key value's cars in the same order, are equal.
   */
  lemma {:induction false} SortedStableUnique(r: seq<CarRecord>, t: seq<CarRecord>, key: SortKey, ascending: bool)
    requires Sorted(r, key, ascending) && Sorted(t, key, ascending)
    requires Stable(r, t, key)
    ensures r == t
    decreases |r|
  {
    StableKeepsEmptiness(r, t, key);
    if r != [] {
      var k := KeyOf(r[0], key);
      WithKeyMembers(r, key, k, r[0]);
      WithKeyMembers(t, key, k, r[0]);
      HeadComesFirst(t, key, ascending, r[0]);
      WithKeyMembers(t, key, KeyOf(t[0], key), t[0]);
      WithKeyMembers(r, key, KeyOf(t[0], key), t[0]);
      HeadComesFirst(r, key, ascending, t[0]);
      assert KeyOf(t[0], key) == k;
      assert WithKey(r, key, k) == [r[0]] + WithKey(r[1..], key, k);
      assert WithKey(t, key, k) == [t[0]] + WithKey(t[1..], key, k);
      assert WithKey(r, key, k) == WithKey(t, key, k);
      assert r[0] == WithKey(r, key, k)[0] == WithKey(t, key, k)[0] == t[0];
      forall v
        ensures WithKey(r[1..], key, v) == WithKey(t[1..], key, v)
      {
        var head := if KeyOf(r[0], key) == v then [r[0]] else [];
        assert WithKey(r, key, v) == head + WithKey(r[1..], key, v);
        assert WithKey(t, key, v) == head + WithKey(t[1..], key, v);
        assert WithKey(r, key, v) == WithKey(t, key, v);
        assert WithKey(r[1..], key, v) == (head + WithKey(r[1..], key, v))[|head|..];
        assert WithKey(t[1..], key, v) == (head + WithKey(t[1..], key, v))[|head|..];
      }
      SortedStableUnique(r[1..], t[1..], key, ascending);
      assert r == [r[0]] + r[1..] && t == [t[0]] + t[1..];
    }
  }

  /** Any ordered list that keeps every key value's input order is the one SortBy returns. */
  lemma SortByIsTheStableSort(s: seq<CarRecord>, t: seq<CarRecord>, key: SortKey, ascending: bool)
    requires Sorted(t, key, ascending) && Stable(t, s, key)
    ensures t == SortBy(s, key, ascending)
  {
    var r := SortBy(s, key, ascending);
    SortByCorrect(s, key, ascending);
    assert Stable(r, t, key) by {
      forall v ensures WithKey(r, key, v) == WithKey(t, key, v) {
        assert WithKey(r, key, v) == WithKey(s, key, v);
        assert WithKey(t, key, v) == WithKey(s, key, v);
      }
    }
    SortedStableUnique(r, t, key, ascending);
  }
}
