// A stable sort by a pair of numbers, as Python's sort() behaves.

module StableSort {

  type SortKey = (real, real)

  predicate KeyLe(a: SortKey, b: SortKey)
  {
    a.0 < b.0 || (a.0 == b.0 && a.1 <= b.1)
  }

  // Behind every element whose key is not greater.
  function Insert<T>(sorted: seq<T>, x: T, key: T -> SortKey): (r: seq<T>)
    ensures |r| == |sorted| + 1
  {
    var n := |sorted| - 1;
    if sorted == [] || KeyLe(key(sorted[n]), key(x)) then sorted + [x]
    else Insert(sorted[..n], x, key) + [sorted[n]]
  }

  function Sort<T>(xs: seq<T>, key: T -> SortKey): (r: seq<T>)
    ensures |r| == |xs|
  {
    if xs == [] then [] else Insert(Sort(xs[..|xs| - 1], key), xs[|xs| - 1], key)
  }

  predicate SortedAt<T>(xs: seq<T>, key: T -> SortKey, i: nat, j: nat)
    requires i < j < |xs|
  {
    KeyLe(key(xs[i]), key(xs[j]))
  }

  predicate Sorted<T>(xs: seq<T>, key: T -> SortKey)
  {
    forall i: nat, j: nat :: i < j < |xs| ==> SortedAt(xs, key, i, j)
  }

  // The elements with a given key, in order.
  function Class<T>(xs: seq<T>, key: T -> SortKey, k: SortKey): seq<T>
  {
    if xs == [] then []
    else Class(xs[..|xs| - 1], key, k) + if key(xs[|xs| - 1]) == k then [xs[|xs| - 1]] else []
  }

  lemma SortedFront<T>(xs: seq<T>, key: T -> SortKey)
    requires xs != [] && Sorted(xs, key)
    ensures Sorted(xs[..|xs| - 1], key)
  {
    var front := xs[..|xs| - 1];
    forall i: nat, j: nat | i < j < |front|
      ensures SortedAt(front, key, i, j)
    {
      assert SortedAt(xs, key, i, j);
    }
  }

  lemma SortedSnoc<T>(xs: seq<T>, key: T -> SortKey, x: T)
    requires Sorted(xs, key) && (xs != [] ==> KeyLe(key(xs[|xs| - 1]), key(x)))
    ensures Sorted(xs + [x], key)
  {
    forall i: nat, j: nat | i < j < |xs| + 1
      ensures SortedAt(xs + [x], key, i, j)
    {
      if j < |xs| {
        assert SortedAt(xs, key, i, j);
      } else if i < |xs| - 1 {
        assert SortedAt(xs, key, i, |xs| - 1);
      }
    }
  }

  lemma InsertLast<T>(sorted: seq<T>, x: T, key: T -> SortKey)
    ensures var r := Insert(sorted, x, key);
            r[|r| - 1] == x || (sorted != [] && r[|r| - 1] == sorted[|sorted| - 1])
  {
  }

  lemma {:induction false} InsertSorted<T>(sorted: seq<T>, x: T, key: T -> SortKey)
    requires Sorted(sorted, key)
    ensures Sorted(Insert(sorted, x, key), key)
  {
    var n := |sorted| - 1;
    if sorted == [] || KeyLe(key(sorted[n]), key(x)) {
      SortedSnoc(sorted, key, x);
    } else {
      SortedFront(sorted, key);
      InsertSorted(sorted[..n], x, key);
      InsertLast(sorted[..n], x, key);
      if n > 0 {
        assert SortedAt(sorted, key, n - 1, n);
      }
      SortedSnoc(Insert(sorted[..n], x, key), key, sorted[n]);
    }
  }

  lemma ClassSnoc<T>(xs: seq<T>, x: T, key: T -> SortKey, k: SortKey)
    ensures Class(xs + [x], key, k) == Class(xs, key, k) + if key(x) == k then [x] else []
  {
    assert (xs + [x])[..|xs|] == xs;
  }

  lemma {:induction false} InsertClass<T>(sorted: seq<T>, x: T, key: T -> SortKey, k: SortKey)
    requires Sorted(sorted, key)
    ensures Class(Insert(sorted, x, key), key, k) == Class(sorted, key, k) + if key(x) == k then [x] else []
  {
    var n := |sorted| - 1;
    if sorted == [] || KeyLe(key(sorted[n]), key(x)) {
      ClassSnoc(sorted, x, key, k);
    } else {
      SortedFront(sorted, key);
      InsertClass(sorted[..n], x, key, k);
      ClassSnoc(Insert(sorted[..n], x, key), sorted[n], key, k);
      assert key(sorted[n]) != key(x);
    }
  }

  // The result is sorted, and elements with equal keys keep their order.
  lemma {:induction false} SortIsStable<T>(xs: seq<T>, key: T -> SortKey)
    ensures Sorted(Sort(xs, key), key)
    ensures forall k :: Class(Sort(xs, key), key, k) == Class(xs, key, k)
  {
    if xs != [] {
      var n := |xs| - 1;
      SortIsStable(xs[..n], key);
      InsertSorted(Sort(xs[..n], key), xs[n], key);
      forall k
        ensures Class(Sort(xs, key), key, k) == Class(xs, key, k)
      {
        InsertClass(Sort(xs[..n], key), xs[n], key, k);
      }
    }
  }

  lemma {:induction false} InsertPermutes<T>(sorted: seq<T>, x: T, key: T -> SortKey)
    ensures multiset(Insert(sorted, x, key)) == multiset(sorted) + multiset{x}
  {
    var n := |sorted| - 1;
    if sorted != [] && !KeyLe(key(sorted[n]), key(x)) {
      InsertPermutes(sorted[..n], x, key);
      assert sorted == sorted[..n] + [sorted[n]];
    }
  }

  lemma {:induction false} SortPermutes<T>(xs: seq<T>, key: T -> SortKey)
    ensures multiset(Sort(xs, key)) == multiset(xs)
  {
    if xs != [] {
      var n := |xs| - 1;
      SortPermutes(xs[..n], key);
      InsertPermutes(Sort(xs[..n], key), xs[n], key);
      assert xs == xs[..n] + [xs[n]];
    }
  }

  // Nothing moves in a list that is already sorted.
  lemma {:induction false} SortOfSorted<T>(xs: seq<T>, key: T -> SortKey)
    requires Sorted(xs, key)
    ensures Sort(xs, key) == xs
  {
    if xs != [] {
      var n := |xs| - 1;
      SortedFront(xs, key);
      SortOfSorted(xs[..n], key);
      if n > 0 {
        assert SortedAt(xs, key, n - 1, n);
      }
    }
  }
}
