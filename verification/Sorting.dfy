/** Stable insertion sort by a key, and bisection of sorted sequences. */
module Sorting {
  function Itself(n: int): int {
    n
  }

  function Insert<T>(x: T, xs: seq<T>, key: T -> int): seq<T> {
    if xs == [] || key(x) <= key(xs[0]) then [x] + xs else [xs[0]] + Insert(x, xs[1..], key)
  }

  function Sort<T>(xs: seq<T>, key: T -> int): seq<T> {
    if xs == [] then [] else Insert(xs[0], Sort(xs[1..], key), key)
  }

  ghost predicate NonDecreasing<T>(xs: seq<T>, key: T -> int) {
    forall i, j :: 0 <= i < j < |xs| ==> key(xs[i]) <= key(xs[j])
  }

  lemma {:induction false} InsertKeeps<T>(x: T, xs: seq<T>, key: T -> int)
    ensures multiset(Insert(x, xs, key)) == multiset([x] + xs)
  {
    if xs == [] || key(x) <= key(xs[0]) {
    } else {
      assert xs == [xs[0]] + xs[1..];
      InsertKeeps(x, xs[1..], key);
    }
  }

  lemma Prepend<T>(x: T, xs: seq<T>, key: T -> int)
    requires NonDecreasing(xs, key)
    requires forall y :: y in xs ==> key(x) <= key(y)
    ensures NonDecreasing([x] + xs, key)
  {
  }

  lemma {:induction false} InsertSorted<T>(x: T, xs: seq<T>, key: T -> int)
    requires NonDecreasing(xs, key)
    ensures NonDecreasing(Insert(x, xs, key), key)
  {
    if xs == [] || key(x) <= key(xs[0]) {
      Prepend(x, xs, key);
    } else {
      InsertSorted(x, xs[1..], key);
      var tail := Insert(x, xs[1..], key);
      forall y | y in tail
        ensures key(xs[0]) <= key(y)
      {
        InsertKeeps(x, xs[1..], key);
        assert y in multiset(tail);
      }
      hide NonDecreasing;
      Prepend(xs[0], tail, key);
    }
  }

  /** Sorting orders the elements and keeps each of them. */
  lemma {:induction false} SortSorts<T>(xs: seq<T>, key: T -> int)
    ensures NonDecreasing(Sort(xs, key), key)
    ensures multiset(Sort(xs, key)) == multiset(xs)
  {
    if xs != [] {
      assert xs == [xs[0]] + xs[1..];
      SortSorts(xs[1..], key);
      InsertSorted(xs[0], Sort(xs[1..], key), key);
      InsertKeeps(xs[0], Sort(xs[1..], key), key);
    }
  }

  /** How many leading elements have a key of at most `x`: the right bisection point. */
  function CountUpTo<T>(xs: seq<T>, key: T -> int, x: int): (k: nat)
    ensures k <= |xs|
  {
    if xs == [] || x < key(xs[0]) then 0 else 1 + CountUpTo(xs[1..], key, x)
  }

  lemma {:induction false} CountUpToSplits<T>(xs: seq<T>, key: T -> int, x: int)
    requires NonDecreasing(xs, key)
    ensures forall i :: 0 <= i < |xs| ==> (i < CountUpTo(xs, key, x) <==> key(xs[i]) <= x)
  {
    if xs != [] {
      assert forall i :: 0 <= i < |xs[1..]| ==> xs[1..][i] == xs[i + 1];
      CountUpToSplits(xs[1..], key, x);
    }
  }

  method BisectRight<T>(xs: seq<T>, key: T -> int, x: int) returns (k: int)
    requires NonDecreasing(xs, key)
    ensures k == CountUpTo(xs, key, x)
  {
    CountUpToSplits(xs, key, x);
    var lo, hi := 0, |xs|;
    while lo < hi
      invariant 0 <= lo <= CountUpTo(xs, key, x) <= hi <= |xs|
    {
      var middle := (lo + hi) / 2;
      if x < key(xs[middle]) {
        hi := middle;
      } else {
        lo := middle + 1;
      }
    }
    k := lo;
  }
}
