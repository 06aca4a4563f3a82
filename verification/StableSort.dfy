/**
  Python's sorted(): an ascending rearrangement that keeps the order of elements
  with equal keys, which is what makes it the only one.
 */
module StableSort {
  function Sorted<T>(xs: seq<T>, key: T -> int): seq<T> {
    if xs == [] then [] else Insert(xs[0], Sorted(xs[1..], key), key)
  }

  /** In front of the first element that is not below it. */
  function Insert<T>(x: T, ys: seq<T>, key: T -> int): seq<T> {
    if ys == [] || key(x) <= key(ys[0]) then [x] + ys else [ys[0]] + Insert(x, ys[1..], key)
  }

  predicate Ascending<T>(xs: seq<T>, key: T -> int) {
    forall i, j :: 0 <= i < j < |xs| ==> key(xs[i]) <= key(xs[j])
  }

  function Filter<T>(xs: seq<T>, keep: T -> bool): seq<T> {
    if xs == [] then [] else (if keep(xs[0]) then [xs[0]] else []) + Filter(xs[1..], keep)
  }

  /** The elements with key k, in order. */
  function Having<T>(xs: seq<T>, key: T -> int, k: int): seq<T> {
    if xs == [] then [] else (if key(xs[0]) == k then [xs[0]] else []) + Having(xs[1..], key, k)
  }

  ghost predicate SameOrderPerKey<T>(xs: seq<T>, ys: seq<T>, key: T -> int) {
    forall k :: Having(xs, key, k) == Having(ys, key, k)
  }

  predicate NoneBelow<T>(xs: seq<T>, key: T -> int, k: int) {
    forall i :: 0 <= i < |xs| ==> k <= key(xs[i])
  }

  lemma {:induction false} InsertKeepsTheFloor<T>(x: T, ys: seq<T>, key: T -> int, k: int)
    requires NoneBelow(ys, key, k) && k <= key(x)
    ensures NoneBelow(Insert(x, ys, key), key, k)
  {
    if ys != [] && key(x) > key(ys[0]) {
      InsertKeepsTheFloor(x, ys[1..], key, k);
    }
  }

  lemma AscendingByHead<T>(x: T, ys: seq<T>, key: T -> int)
    ensures Ascending([x] + ys, key) <==> Ascending(ys, key) && NoneBelow(ys, key, key(x))
  {
    var s := [x] + ys;
    assert forall i :: 0 <= i < |ys| ==> s[i + 1] == ys[i];
    assert forall i :: 1 <= i < |s| ==> s[i] == ys[i - 1];
    assert s[0] == x;
  }

  lemma {:induction false} InsertFacts<T>(x: T, ys: seq<T>, key: T -> int)
    requires Ascending(ys, key)
    ensures Ascending(Insert(x, ys, key), key)
    ensures multiset(Insert(x, ys, key)) == multiset{x} + multiset(ys)
  {
    if ys == [] || key(x) <= key(ys[0]) {
      AscendingByHead(x, ys, key);
    } else {
      assert ys == [ys[0]] + ys[1..];
      AscendingByHead(ys[0], ys[1..], key);
      InsertFacts(x, ys[1..], key);
      InsertKeepsTheFloor(x, ys[1..], key, key(ys[0]));
      hide Ascending, NoneBelow;
      AscendingByHead(ys[0], Insert(x, ys[1..], key), key);
    }
  }

  lemma HavingOfCons<T>(x: T, ys: seq<T>, key: T -> int, k: int)
    ensures Having([x] + ys, key, k) == (if key(x) == k then [x] else []) + Having(ys, key, k)
  {
    assert ([x] + ys)[1..] == ys;
  }

  lemma {:induction false} InsertKeepsOrderPerKey<T>(x: T, ys: seq<T>, key: T -> int, k: int)
    ensures Having(Insert(x, ys, key), key, k) == (if key(x) == k then [x] else []) + Having(ys, key, k)
  {
    if ys == [] || key(x) <= key(ys[0]) {
      HavingOfCons(x, ys, key, k);
    } else {
      InsertKeepsOrderPerKey(x, ys[1..], key, k);
      HavingOfCons(ys[0], Insert(x, ys[1..], key), key, k);
      HavingOfCons(ys[0], ys[1..], key, k);
      assert ys == [ys[0]] + ys[1..];
      hide Having;
      assert key(x) == k ==> key(ys[0]) != k;
    }
  }

  lemma {:induction false} SortedKeepsOrderPerKey<T>(xs: seq<T>, key: T -> int, k: int)
    ensures Having(xs, key, k) == Having(Sorted(xs, key), key, k)
  {
    if xs == [] {
    } else {
      SortedKeepsOrderPerKey(xs[1..], key, k);
      InsertKeepsOrderPerKey(xs[0], Sorted(xs[1..], key), key, k);
    }
  }

  lemma {:induction false} SortedIsAscending<T>(xs: seq<T>, key: T -> int)
    ensures Ascending(Sorted(xs, key), key)
    ensures multiset(Sorted(xs, key)) == multiset(xs)
  {
    if xs == [] {
    } else {
      SortedIsAscending(xs[1..], key);
      InsertFacts(xs[0], Sorted(xs[1..], key), key);
      assert xs == [xs[0]] + xs[1..];
    }
  }

  /** The three promises of sorted(). */
  lemma SortedFacts<T>(xs: seq<T>, key: T -> int)
    ensures Ascending(Sorted(xs, key), key)
    ensures multiset(Sorted(xs, key)) == multiset(xs)
    ensures SameOrderPerKey(xs, Sorted(xs, key), key)
  {
    SortedIsAscending(xs, key);
    forall k
      ensures Having(xs, key, k) == Having(Sorted(xs, key), key, k)
    {
      SortedKeepsOrderPerKey(xs, key, k);
    }
  }

  lemma {:induction false} HavingFacts<T>(xs: seq<T>, key: T -> int, k: int)
    ensures forall x :: x in Having(xs, key, k) <==> x in xs && key(x) == k
  {
    if xs == [] {
    } else {
      HavingFacts(xs[1..], key, k);
      assert xs == [xs[0]] + xs[1..];
    }
  }

  lemma HavingOfTail<T>(xs: seq<T>, key: T -> int, k: int)
    requires xs != []
    ensures Having(xs[1..], key, k) == if key(xs[0]) == k then Having(xs, key, k)[1..] else Having(xs, key, k)
  {
    assert [] + Having(xs[1..], key, k) == Having(xs[1..], key, k);
  }

  /** The first element of an ascending list is the first of its own key, and no key is lower. */
  lemma HeadOfAscending<T>(xs: seq<T>, ys: seq<T>, key: T -> int)
    requires Ascending(ys, key) && SameOrderPerKey(xs, ys, key) && xs != []
    ensures ys != [] && key(ys[0]) <= key(xs[0])
  {
    var k := key(xs[0]);
    HavingFacts(xs, key, k);
    HavingFacts(ys, key, k);
    assert xs[0] in Having(ys, key, k);
  }

  /** Being ascending and keeping the order per key leaves one possibility. */
  lemma {:induction false} StableOrderIsUnique<T>(xs: seq<T>, ys: seq<T>, key: T -> int)
    requires Ascending(xs, key) && Ascending(ys, key) && SameOrderPerKey(xs, ys, key)
    ensures xs == ys
  {
    if xs == [] && ys == [] {
    } else if xs == [] {
      HeadOfAscending(ys, xs, key);
    } else {
      HeadOfAscending(xs, ys, key);
      HeadOfAscending(ys, xs, key);
      var k := key(xs[0]);
      assert Having(xs, key, k)[0] == xs[0] && Having(ys, key, k)[0] == ys[0];
      assert key(ys[0]) == k;
      forall j
        ensures Having(xs[1..], key, j) == Having(ys[1..], key, j)
      {
        assert Having(xs, key, j) == Having(ys, key, j);
        HavingOfTail(xs, key, j);
        HavingOfTail(ys, key, j);
      }
      StableOrderIsUnique(xs[1..], ys[1..], key);
      assert xs == [xs[0]] + xs[1..] && ys == [ys[0]] + ys[1..];
    }
  }

  lemma {:induction false} FilterFacts<T>(xs: seq<T>, keep: T -> bool)
    ensures forall i :: 0 <= i < |Filter(xs, keep)| ==> keep(Filter(xs, keep)[i])
    ensures forall x :: x in Filter(xs, keep) <==> x in xs && keep(x)
  {
    if xs == [] {
    } else {
      FilterFacts(xs[1..], keep);
      assert xs == [xs[0]] + xs[1..];
    }
  }

  lemma {:induction false} FilterKeepsTheFloor<T>(xs: seq<T>, keep: T -> bool, key: T -> int, k: int)
    requires NoneBelow(xs, key, k)
    ensures NoneBelow(Filter(xs, keep), key, k)
  {
    if xs == [] {
    } else {
      FilterKeepsTheFloor(xs[1..], keep, key, k);
    }
  }

  lemma {:induction false} FilterKeepsAscending<T>(xs: seq<T>, keep: T -> bool, key: T -> int)
    requires Ascending(xs, key)
    ensures Ascending(Filter(xs, keep), key)
  {
    if xs == [] {
    } else {
      assert xs == [xs[0]] + xs[1..];
      AscendingByHead(xs[0], xs[1..], key);
      FilterKeepsAscending(xs[1..], keep, key);
      FilterKeepsTheFloor(xs[1..], keep, key, key(xs[0]));
      hide Ascending, NoneBelow;
      var rest := Filter(xs[1..], keep);
      AscendingByHead(xs[0], rest, key);
      assert [] + rest == rest;
    }
  }

  lemma {:induction false} FilterKeepsOrderPerKey<T>(xs: seq<T>, keep: T -> bool, key: T -> int, k: int)
    ensures Having(Filter(xs, keep), key, k) == Filter(Having(xs, key, k), keep)
  {
    if xs == [] {
    } else {
      FilterKeepsOrderPerKey(xs[1..], keep, key, k);
      var rest := Filter(xs[1..], keep);
      var same := Having(xs[1..], key, k);
      assert ([xs[0]] + rest)[1..] == rest && ([xs[0]] + same)[1..] == same;
      assert [] + rest == rest && [] + same == same;
    }
  }

  /** Filtering before or after sorting is the same. */
  lemma SortedCommutesWithFilter<T>(xs: seq<T>, keep: T -> bool, key: T -> int)
    ensures Sorted(Filter(xs, keep), key) == Filter(Sorted(xs, key), keep)
  {
    SortedFacts(xs, key);
    SortedFacts(Filter(xs, keep), key);
    FilterKeepsAscending(Sorted(xs, key), keep, key);
    forall k
      ensures Having(Sorted(Filter(xs, keep), key), key, k) == Having(Filter(Sorted(xs, key), keep), key, k)
    {
      assert Having(Sorted(Filter(xs, keep), key), key, k) == Having(Filter(xs, keep), key, k);
      FilterKeepsOrderPerKey(xs, keep, key, k);
      FilterKeepsOrderPerKey(Sorted(xs, key), keep, key, k);
      assert Having(xs, key, k) == Having(Sorted(xs, key), key, k);
    }
    StableOrderIsUnique(Sorted(Filter(xs, keep), key), Filter(Sorted(xs, key), keep), key);
  }
}
