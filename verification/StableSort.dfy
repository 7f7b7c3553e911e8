/** Stable sorting by an integer key, as Array.prototype.sort does it. */
module StableSort {
  ghost predicate SortedBy<T>(xs: seq<T>, key: T -> int) {
    forall i, j :: 0 <= i < j < |xs| ==> key(xs[i]) <= key(xs[j])
  }

  /** Puts x behind the last element whose key is not greater. */
  function Insert<T>(xs: seq<T>, x: T, key: T -> int): seq<T> {
    if xs == [] || key(xs[|xs| - 1]) <= key(x) then xs + [x]
    else Insert(xs[..|xs| - 1], x, key) + [xs[|xs| - 1]]
  }

  function Sort<T>(xs: seq<T>, key: T -> int): seq<T> {
    if xs == [] then [] else Insert(Sort(xs[..|xs| - 1], key), xs[|xs| - 1], key)
  }

  /** The elements with key k, in order. */
  function WithKey<T>(xs: seq<T>, key: T -> int, k: int): seq<T> {
    if xs == [] then []
    else
      var rest := WithKey(xs[..|xs| - 1], key, k);
      if key(xs[|xs| - 1]) == k then rest + [xs[|xs| - 1]] else rest
  }

  lemma WithKeySnoc<T>(xs: seq<T>, x: T, key: T -> int, k: int)
    ensures WithKey(xs + [x], key, k) == if key(x) == k then WithKey(xs, key, k) + [x] else WithKey(xs, key, k)
  {
    assert (xs + [x])[..|xs|] == xs;
  }

  lemma {:induction false} InsertPermutes<T>(xs: seq<T>, x: T, key: T -> int)
    ensures multiset(Insert(xs, x, key)) == multiset(xs) + multiset{x}
  {
    if xs != [] && key(xs[|xs| - 1]) > key(x) {
      InsertPermutes(xs[..|xs| - 1], x, key);
      assert xs == xs[..|xs| - 1] + [xs[|xs| - 1]];
    }
  }

  lemma SortedSnoc<T>(xs: seq<T>, x: T, key: T -> int)
    requires SortedBy(xs, key) && forall y :: y in xs ==> key(y) <= key(x)
    ensures SortedBy(xs + [x], key)
  {
  }

  lemma {:induction false} InsertSorted<T>(xs: seq<T>, x: T, key: T -> int)
    requires SortedBy(xs, key)
    ensures SortedBy(Insert(xs, x, key), key)
  {
    if xs == [] || key(xs[|xs| - 1]) <= key(x) {
      SortedSnoc(xs, x, key);
    } else {
      var init, last := xs[..|xs| - 1], xs[|xs| - 1];
      InsertSorted(init, x, key);
      InsertPermutes(init, x, key);
      forall y | y in Insert(init, x, key) ensures key(y) <= key(last) {
        assert y in multiset(Insert(init, x, key));
        assert y == x || y in init;
      }
      SortedSnoc(Insert(init, x, key), last, key);
    }
  }

  lemma {:induction false} InsertStable<T>(xs: seq<T>, x: T, key: T -> int, k: int)
    requires SortedBy(xs, key)
    ensures WithKey(Insert(xs, x, key), key, k) == WithKey(xs + [x], key, k)
  {
    if xs != [] && key(xs[|xs| - 1]) > key(x) {
      var init, last := xs[..|xs| - 1], xs[|xs| - 1];
      InsertStable(init, x, key, k);
      WithKeySnoc(Insert(init, x, key), last, key, k);
      WithKeySnoc(init, x, key, k);
      WithKeySnoc(xs, x, key, k);
      assert init + [last] == xs;
      WithKeySnoc(init, last, key, k);
    }
  }

  lemma MultisetSnoc<T>(xs: seq<T>, x: T)
    ensures multiset(xs + [x]) == multiset(xs) + multiset{x}
  {
  }

  lemma {:induction false} SortPermutes<T>(xs: seq<T>, key: T -> int)
    ensures multiset(Sort(xs, key)) == multiset(xs)
  {
    if xs != [] {
      var init, last := xs[..|xs| - 1], xs[|xs| - 1];
      SortPermutes(init, key);
      InsertPermutes(Sort(init, key), last, key);
      MultisetSnoc(init, last);
      assert xs == init + [last];
    }
  }

  /** Sorting is a permutation, in order, that keeps elements of equal key in their former order. */
  lemma {:induction false} SortIsStable<T>(xs: seq<T>, key: T -> int, k: int)
    ensures SortedBy(Sort(xs, key), key)
    ensures multiset(Sort(xs, key)) == multiset(xs)
    ensures WithKey(Sort(xs, key), key, k) == WithKey(xs, key, k)
  {
    SortPermutes(xs, key);
    if xs != [] {
      var init, last := xs[..|xs| - 1], xs[|xs| - 1];
      SortIsStable(init, key, k);
      InsertSorted(Sort(init, key), last, key);
      InsertStable(Sort(init, key), last, key, k);
      WithKeySnoc(Sort(init, key), last, key, k);
    }
  }

  lemma {:induction false} SortOfSorted<T>(xs: seq<T>, key: T -> int)
    requires SortedBy(xs, key)
    ensures Sort(xs, key) == xs
  {
    if xs != [] {
      SortOfSorted(xs[..|xs| - 1], key);
      assert xs == xs[..|xs| - 1] + [xs[|xs| - 1]];
    }
  }
}
