/**
 * Sorting by an integer key (insertion sort), for the views and queries that
 * order their items: the result is a permutation of the input, ascending by
 * key, and items with equal keys keep their relative order.
 */
module Sorting {
  predicate SortedBy<T>(xs: seq<T>, key: T -> int) {
    forall i, j :: 0 <= i < j < |xs| ==> key(xs[i]) <= key(xs[j])
  }

  lemma SortedCons<T>(y: T, ys: seq<T>, key: T -> int)
    requires SortedBy(ys, key)
    requires ys == [] || key(y) <= key(ys[0])
    ensures SortedBy([y] + ys, key)
  {
    var r := [y] + ys;
    forall i, j | 0 <= i < j < |r| ensures key(r[i]) <= key(r[j]) {
      if i == 0 && j > 1 {
        assert r[1] == ys[0] && r[j] == ys[j - 1];
      }
    }
  }

  /** Inserts `x` before the first item whose key is at least its own. */
  function Insert<T>(x: T, xs: seq<T>, key: T -> int): (r: seq<T>)
    requires SortedBy(xs, key)
    ensures |r| == |xs| + 1
    ensures multiset(r) == multiset(xs) + multiset{x}
    ensures SortedBy(r, key)
    ensures key(r[0]) == if xs == [] || key(x) <= key(xs[0]) then key(x) else key(xs[0])
  {
    if xs == [] then [x]
    else if key(x) <= key(xs[0]) then
      SortedCons(x, xs, key);
      [x] + xs
    else
      var tail := xs[1..];
      assert SortedBy(tail, key) by {
        SortedTail(xs, key);
      }
      var rest := Insert(x, tail, key);
      InsertBehind(x, xs, rest, key);
      [xs[0]] + rest
  }

  lemma SortedTail<T>(xs: seq<T>, key: T -> int)
    requires xs != [] && SortedBy(xs, key)
    ensures SortedBy(xs[1..], key)
    ensures |xs| > 1 ==> key(xs[0]) <= key(xs[1])
  {
    var tail := xs[1..];
    forall i, j | 0 <= i < j < |tail| ensures key(tail[i]) <= key(tail[j]) {
      assert tail[i] == xs[i + 1] && tail[j] == xs[j + 1];
    }
  }

  /** The recursive case of `Insert`: `x` went into the tail, behind the head. */
  lemma InsertBehind<T>(x: T, xs: seq<T>, rest: seq<T>, key: T -> int)
    requires xs != [] && SortedBy(xs, key) && key(x) > key(xs[0])
    requires |rest| == |xs| && SortedBy(rest, key)
    requires multiset(rest) == multiset(xs[1..]) + multiset{x}
    requires key(rest[0]) == if xs[1..] == [] || key(x) <= key(xs[1..][0]) then key(x) else key(xs[1..][0])
    ensures multiset([xs[0]] + rest) == multiset(xs) + multiset{x}
    ensures SortedBy([xs[0]] + rest, key)
  {
    SortedTail(xs, key);
    assert xs == [xs[0]] + xs[1..];
    SortedCons(xs[0], rest, key);
  }

  /** `sorted(by:)` with the order "key less than". */
  function Sort<T>(xs: seq<T>, key: T -> int): (r: seq<T>)
    ensures |r| == |xs|
    ensures multiset(r) == multiset(xs)
    ensures SortedBy(r, key)
  {
    if xs == [] then []
    else
      assert xs == [xs[0]] + xs[1..];
      Insert(xs[0], Sort(xs[1..], key), key)
  }

  /** The items of one key, in order. */
  function WithKey<T>(xs: seq<T>, key: T -> int, k: int): (r: seq<T>)
    ensures |r| <= |xs|
  {
    if xs == [] then []
    else if key(xs[0]) == k then [xs[0]] + WithKey(xs[1..], key, k)
    else WithKey(xs[1..], key, k)
  }

  lemma {:induction false} InsertStable<T>(x: T, xs: seq<T>, key: T -> int, k: int)
    requires SortedBy(xs, key)
    ensures WithKey(Insert(x, xs, key), key, k) == WithKey([x] + xs, key, k)
    decreases |xs|
  {
    if xs != [] && key(x) > key(xs[0]) {
      InsertStable(x, xs[1..], key, k);
      assert ([x] + xs)[1..] == xs;
      assert ([x] + xs[1..])[1..] == xs[1..];
      if key(x) == k {
        // every item of xs[1..] with key k is at least key(x) > key(xs[0]), so xs[0] is not one of them
        assert key(xs[0]) != k;
      }
    }
  }

  /** Items with equal keys keep their relative order. */
  lemma {:induction false} SortStable<T>(xs: seq<T>, key: T -> int, k: int)
    ensures WithKey(Sort(xs, key), key, k) == WithKey(xs, key, k)
    decreases |xs|
  {
    if xs != [] {
      SortStable(xs[1..], key, k);
      InsertStable(xs[0], Sort(xs[1..], key), key, k);
      assert ([xs[0]] + Sort(xs[1..], key))[1..] == Sort(xs[1..], key);
    }
  }

  /** The identity key, for sorting integers by value. */
  function Value(x: int): int {
    x
  }

  lemma HeadLeast(xs: seq<int>, y: int)
    requires SortedBy(xs, Value) && y in xs
    ensures xs[0] <= y
  {
    var j :| 0 <= j < |xs| && xs[j] == y;
    if j > 0 {
      assert Value(xs[0]) <= Value(xs[j]);
    }
  }

  lemma SplitHead(xs: seq<int>)
    requires xs != [] && SortedBy(xs, Value)
    ensures multiset(xs) == multiset{xs[0]} + multiset(xs[1..])
    ensures SortedBy(xs[1..], Value)
  {
    assert xs == [xs[0]] + xs[1..];
  }

  /** Equal element counts and sorted order force equal heads and equal remaining elements. */
  lemma HeadsMatch(xs: seq<int>, ys: seq<int>)
    requires SortedBy(xs, Value) && SortedBy(ys, Value)
    requires multiset(xs) == multiset(ys) && xs != []
    ensures ys != [] && xs[0] == ys[0]
    ensures multiset(xs[1..]) == multiset(ys[1..])
    ensures SortedBy(xs[1..], Value) && SortedBy(ys[1..], Value)
  {
    assert xs[0] in multiset(ys);
    assert ys != [];
    assert ys[0] in multiset(xs);
    HeadLeast(ys, xs[0]);
    HeadLeast(xs, ys[0]);
    SplitHead(xs);
    SplitHead(ys);
    assert xs[0] == ys[0];
    calc {
      multiset(xs[1..]);
      multiset(xs) - multiset{xs[0]};
      multiset(ys) - multiset{ys[0]};
      multiset(ys[1..]);
    }
  }

  /** Two ascending integer sequences with the same elements are the same sequence. */
  lemma {:induction false} SortedUnique(xs: seq<int>, ys: seq<int>)
    requires SortedBy(xs, Value) && SortedBy(ys, Value)
    requires multiset(xs) == multiset(ys)
    ensures xs == ys
    decreases |xs|
  {
    if xs == [] {
      assert |ys| == |multiset(ys)| == 0;
    } else {
      HeadsMatch(xs, ys);
      SortedUnique(xs[1..], ys[1..]);
      assert xs == [xs[0]] + xs[1..] && ys == [ys[0]] + ys[1..];
    }
  }

  /** Sorting integers depends only on which values occur how often. */
  lemma SortByValueIff(xs: seq<int>, ys: seq<int>)
    ensures Sort(xs, Value) == Sort(ys, Value) <==> multiset(xs) == multiset(ys)
  {
    if multiset(xs) == multiset(ys) {
      SortedUnique(Sort(xs, Value), Sort(ys, Value));
    }
  }
}
