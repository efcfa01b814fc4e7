/** The stable sort the platform relies on, and what characterises it. */
module Sorting {

  ghost predicate TotalPreorder<T(!new)>(le: (T, T) -> bool) {
    && (forall x, y :: le(x, y) || le(y, x))
    && (forall x, y, z :: le(x, y) && le(y, z) ==> le(x, z))
  }

  ghost predicate Sorted<T>(le: (T, T) -> bool, xs: seq<T>) {
    forall i, j :: 0 <= i < j < |xs| ==> le(xs[i], xs[j])
  }

  /** Places x behind every element it does not strictly precede. */
  function Insert<T>(le: (T, T) -> bool, x: T, xs: seq<T>): seq<T> {
    if xs == [] || le(xs[|xs| - 1], x) then xs + [x]
    else Insert(le, x, xs[..|xs| - 1]) + [xs[|xs| - 1]]
  }

  function SortBy<T>(le: (T, T) -> bool, xs: seq<T>): seq<T> {
    if xs == [] then [] else Insert(le, xs[|xs| - 1], SortBy(le, xs[..|xs| - 1]))
  }

  lemma {:induction false} SplitLast<T>(xs: seq<T>)
    requires xs != []
    ensures xs == xs[..|xs| - 1] + [xs[|xs| - 1]]
  {
  }

  lemma {:induction false} InsertPermutes<T>(le: (T, T) -> bool, x: T, xs: seq<T>)
    ensures multiset(Insert(le, x, xs)) == multiset(xs) + multiset{x}
    ensures |Insert(le, x, xs)| == |xs| + 1
  {
    if xs != [] && !le(xs[|xs| - 1], x) {
      SplitLast(xs);
      InsertPermutes(le, x, xs[..|xs| - 1]);
    }
  }

  lemma {:induction false} AppendSorted<T>(le: (T, T) -> bool, xs: seq<T>, last: T)
    requires Sorted(le, xs) && forall y :: y in xs ==> le(y, last)
    ensures Sorted(le, xs + [last])
  {
  }

  lemma {:induction false} BelowLast<T(!new)>(le: (T, T) -> bool, xs: seq<T>, x: T)
    requires TotalPreorder(le) && Sorted(le, xs) && xs != [] && le(xs[|xs| - 1], x)
    ensures forall y :: y in xs ==> le(y, x)
  {
    forall i | 0 <= i < |xs| ensures le(xs[i], x) {
      assert i == |xs| - 1 || le(xs[i], xs[|xs| - 1]);
    }
  }

  lemma {:induction false} InsertSorted<T(!new)>(le: (T, T) -> bool, x: T, xs: seq<T>)
    requires TotalPreorder(le) && Sorted(le, xs)
    ensures Sorted(le, Insert(le, x, xs))
  {
    if xs == [] {
    } else if le(xs[|xs| - 1], x) {
      BelowLast(le, xs, x);
      AppendSorted(le, xs, x);
    } else {
      var init, last := xs[..|xs| - 1], xs[|xs| - 1];
      InsertSorted(le, x, init);
      InsertPermutes(le, x, init);
      var placed := Insert(le, x, init);
      forall y | y in placed ensures le(y, last) {
        assert y in multiset(placed);
        assert y == x || y in init;
      }
      AppendSorted(le, placed, last);
    }
  }

  /** Sorting yields a sorted permutation of its input. */
  lemma {:induction false} SortSpec<T(!new)>(le: (T, T) -> bool, xs: seq<T>)
    requires TotalPreorder(le)
    ensures Sorted(le, SortBy(le, xs))
    ensures multiset(SortBy(le, xs)) == multiset(xs)
    ensures |SortBy(le, xs)| == |xs|
  {
    if xs != [] {
      SplitLast(xs);
      SortSpec(le, xs[..|xs| - 1]);
      InsertSorted(le, xs[|xs| - 1], SortBy(le, xs[..|xs| - 1]));
      InsertPermutes(le, xs[|xs| - 1], SortBy(le, xs[..|xs| - 1]));
    }
  }

  predicate Tied<T>(le: (T, T) -> bool, x: T, y: T) {
    le(x, y) && le(y, x)
  }

  /** The elements tied with the pivot, in the order they stand. */
  function TiesOf<T>(le: (T, T) -> bool, pivot: T, xs: seq<T>): seq<T> {
    if xs == [] then []
    else TiesOf(le, pivot, xs[..|xs| - 1]) + if Tied(le, pivot, xs[|xs| - 1]) then [xs[|xs| - 1]] else []
  }

  lemma {:induction false} InsertKeepsTies<T(!new)>(le: (T, T) -> bool, x: T, xs: seq<T>, pivot: T)
    requires TotalPreorder(le) && Sorted(le, xs)
    ensures TiesOf(le, pivot, Insert(le, x, xs)) == TiesOf(le, pivot, xs) + if Tied(le, pivot, x) then [x] else []
  {
    if xs == [] || le(xs[|xs| - 1], x) {
      assert (xs + [x])[..|xs|] == xs;
    } else {
      var init, last := xs[..|xs| - 1], xs[|xs| - 1];
      InsertKeepsTies(le, x, init, pivot);
      var placed := Insert(le, x, init);
      assert (placed + [last])[..|placed|] == placed;
    }
  }

  /** The sort is stable: elements tied with any pivot keep their input order. */
  lemma {:induction false} SortIsStable<T(!new)>(le: (T, T) -> bool, xs: seq<T>, pivot: T)
    requires TotalPreorder(le)
    ensures TiesOf(le, pivot, SortBy(le, xs)) == TiesOf(le, pivot, xs)
  {
    if xs != [] {
      SortSpec(le, xs[..|xs| - 1]);
      SortIsStable(le, xs[..|xs| - 1], pivot);
      InsertKeepsTies(le, xs[|xs| - 1], SortBy(le, xs[..|xs| - 1]), pivot);
    }
  }

  /** A sequence already in order is left alone. */
  lemma {:induction false} SortFixesSorted<T>(le: (T, T) -> bool, xs: seq<T>)
    requires Sorted(le, xs)
    ensures SortBy(le, xs) == xs
  {
    if xs != [] {
      SplitLast(xs);
      SortFixesSorted(le, xs[..|xs| - 1]);
    }
  }

  lemma {:induction false} SortedSplits<T>(le: (T, T) -> bool, xs: seq<T>, k: nat)
    requires Sorted(le, xs) && k < |xs|
    ensures Sorted(le, xs[..k + 1]) && Sorted(le, xs[k..])
  {
  }

  lemma {:induction false} LastIsGreatest<T>(le: (T, T) -> bool, xs: seq<T>, x: T)
    requires Sorted(le, xs) && x in xs
    ensures x == xs[|xs| - 1] || le(x, xs[|xs| - 1])
  {
  }

  lemma {:induction false} DropLast<T>(xs: seq<T>)
    requires xs != []
    ensures multiset(xs[..|xs| - 1]) == multiset(xs) - multiset{xs[|xs| - 1]}
    ensures xs[|xs| - 1] in multiset(xs)
  {
    SplitLast(xs);
  }

  /** When only equal elements tie, there is just one sorted arrangement. */
  lemma {:induction false} SortedUnique<T>(le: (T, T) -> bool, xs: seq<T>, ys: seq<T>)
    requires Sorted(le, xs) && Sorted(le, ys) && multiset(xs) == multiset(ys)
    requires forall x, y :: x in multiset(xs) && y in multiset(xs) && le(x, y) && le(y, x) ==> x == y
    ensures xs == ys
  {
    assert |multiset(xs)| == |xs| && |multiset(ys)| == |ys|;
    if xs != [] {
      var x, y := xs[|xs| - 1], ys[|ys| - 1];
      DropLast(xs);
      DropLast(ys);
      assert x == y by {
        assert x in multiset(ys) && y in multiset(xs);
        LastIsGreatest(le, ys, x);
        LastIsGreatest(le, xs, y);
      }
      SortedUnique(le, xs[..|xs| - 1], ys[..|ys| - 1]);
      SplitLast(xs);
      SplitLast(ys);
    }
  }
}
