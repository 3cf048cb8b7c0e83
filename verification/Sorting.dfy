/** Stable sorting by an integer key: what slices.SortStableFunc and sort.SliceStable promise. */
module Sorting {

  ghost predicate SortedBy<T(!new)>(s: seq<T>, key: T -> int) {
    forall i, j :: 0 <= i < j < |s| ==> key(s[i]) <= key(s[j])
  }

  /** The elements of s with key k, in order. */
  function WithKey<T>(s: seq<T>, key: T -> int, k: int): seq<T> {
    if s == [] then []
    else (if key(s[0]) == k then [s[0]] else []) + WithKey(s[1..], key, k)
  }

  function InsertFirst<T>(x: T, s: seq<T>, key: T -> int): (r: seq<T>)
    ensures |r| == |s| + 1
    ensures multiset(r) == multiset(s) + multiset{x}
  {
    if s == [] || key(x) <= key(s[0]) then
      assert [x] + s == [x] + s;
      [x] + s
    else
      assert s == [s[0]] + s[1..];
      [s[0]] + InsertFirst(x, s[1..], key)
  }

  function StableSort<T>(s: seq<T>, key: T -> int): (r: seq<T>)
    ensures |r| == |s|
    ensures multiset(r) == multiset(s)
  {
    if s == [] then []
    else
      assert s == [s[0]] + s[1..];
      InsertFirst(s[0], StableSort(s[1..], key), key)
  }

  lemma SameElements<T>(s: seq<T>, t: seq<T>)
    requires multiset(s) == multiset(t)
    ensures forall x :: x in s <==> x in t
  {
    forall x ensures x in s <==> x in t {
      assert x in s <==> x in multiset(s);
      assert x in t <==> x in multiset(t);
    }
  }

  lemma {:induction false} InsertFirstSorted<T(!new)>(x: T, s: seq<T>, key: T -> int)
    requires SortedBy(s, key)
    ensures SortedBy(InsertFirst(x, s, key), key)
  {
    if s != [] && key(x) > key(s[0]) {
      var rest := InsertFirst(x, s[1..], key);
      InsertFirstSorted(x, s[1..], key);
      forall j | 0 <= j < |rest| ensures key(s[0]) <= key(rest[j]) {
        assert rest[j] in multiset(rest);
        assert rest[j] in multiset(s[1..]) + multiset{x};
      }
    }
  }

  lemma {:induction false} InsertFirstKeys<T(!new)>(x: T, s: seq<T>, key: T -> int, k: int)
    ensures WithKey(InsertFirst(x, s, key), key, k) == WithKey([x] + s, key, k)
  {
    assert ([x] + s)[1..] == s;
    if s != [] && key(x) > key(s[0]) {
      InsertFirstKeys(x, s[1..], key, k);
      assert ([s[0]] + InsertFirst(x, s[1..], key))[1..] == InsertFirst(x, s[1..], key);
      assert ([x] + s[1..])[1..] == s[1..];
    }
  }

  /** The result is sorted and elements of equal key keep the order they came in. */
  lemma {:induction false} StableSortCorrect<T(!new)>(s: seq<T>, key: T -> int)
    ensures SortedBy(StableSort(s, key), key)
    ensures forall k :: WithKey(StableSort(s, key), key, k) == WithKey(s, key, k)
  {
    if s != [] {
      var rest := StableSort(s[1..], key);
      StableSortCorrect(s[1..], key);
      InsertFirstSorted(s[0], rest, key);
      forall k ensures WithKey(StableSort(s, key), key, k) == WithKey(s, key, k) {
        InsertFirstKeys(s[0], rest, key, k);
        assert ([s[0]] + rest)[1..] == rest;
      }
    }
  }

  lemma {:induction false} SmallestKeyFirst<T(!new)>(s: seq<T>, key: T -> int)
    requires s != [] && SortedBy(s, key)
    ensures WithKey(s, key, key(s[0])) != [] && WithKey(s, key, key(s[0]))[0] == s[0]
    ensures forall k | WithKey(s, key, k) != [] :: key(s[0]) <= k
  {
    forall k | WithKey(s, key, k) != [] ensures key(s[0]) <= k {
      WithKeyElement(s, key, k);
    }
  }

  lemma {:induction false} WithKeyElement<T(!new)>(s: seq<T>, key: T -> int, k: int)
    requires WithKey(s, key, k) != []
    ensures exists i :: 0 <= i < |s| && key(s[i]) == k
  {
    if key(s[0]) != k {
      WithKeyElement(s[1..], key, k);
      var i :| 0 <= i < |s[1..]| && key(s[1..][i]) == k;
      assert key(s[i + 1]) == k;
    }
  }

  lemma TailKeys<T(!new)>(s: seq<T>, t: seq<T>, key: T -> int, k: int)
    requires s != [] && t != [] && s[0] == t[0]
    requires WithKey(s, key, k) == WithKey(t, key, k)
    ensures WithKey(s[1..], key, k) == WithKey(t[1..], key, k)
  {
    var head := if key(s[0]) == k then [s[0]] else [];
    assert WithKey(s[1..], key, k) == (head + WithKey(s[1..], key, k))[|head|..];
    assert WithKey(t[1..], key, k) == (head + WithKey(t[1..], key, k))[|head|..];
  }

  /** Sortedness and stability pin the result down: no other ordering has both. */
  lemma {:induction false} StableSortUnique<T(!new)>(s: seq<T>, t: seq<T>, key: T -> int)
    requires SortedBy(s, key) && SortedBy(t, key)
    requires forall k :: WithKey(s, key, k) == WithKey(t, key, k)
    ensures s == t
    decreases |s|
  {
    if s == [] {
      if t != [] { SmallestKeyFirst(t, key); }
    } else if t == [] {
      SmallestKeyFirst(s, key);
    } else {
      SmallestKeyFirst(s, key);
      SmallestKeyFirst(t, key);
      assert key(s[0]) == key(t[0]);
      assert s[0] == t[0];
      forall k ensures WithKey(s[1..], key, k) == WithKey(t[1..], key, k) {
        TailKeys(s, t, key, k);
      }
      StableSortUnique(s[1..], t[1..], key);
      assert s == [s[0]] + s[1..] && t == [t[0]] + t[1..];
    }
  }
}
