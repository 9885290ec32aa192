/** Insertion sort by any order: the elements listed by address, the outside list by barcode. */
module Sorting {

  /** `less` is the strict part of a total preorder. */
  ghost predicate Orders<T(!new)>(less: (T, T) -> bool) {
    && (forall a, b :: less(a, b) ==> !less(b, a))
    && (forall a, b, c :: !less(b, a) && !less(c, b) ==> !less(c, a))
  }

  function InsertBy<T>(x: T, xs: seq<T>, less: (T, T) -> bool): seq<T> {
    if xs == [] then [x]
    else if less(xs[0], x) then [xs[0]] + InsertBy(x, xs[1..], less)
    else [x] + xs
  }

  function SortBy<T>(xs: seq<T>, less: (T, T) -> bool): seq<T> {
    if xs == [] then [] else InsertBy(xs[0], SortBy(xs[1..], less), less)
  }

  ghost predicate SortedBy<T(!new)>(xs: seq<T>, less: (T, T) -> bool) {
    forall i, j :: 0 <= i < j < |xs| ==> !less(xs[j], xs[i])
  }

  lemma PrependSortedBy<T(!new)>(x: T, xs: seq<T>, less: (T, T) -> bool)
    requires SortedBy(xs, less) && forall y :: y in xs ==> !less(y, x)
    ensures SortedBy([x] + xs, less)
  {
  }

  lemma TailSortedBy<T(!new)>(xs: seq<T>, less: (T, T) -> bool)
    requires SortedBy(xs, less) && xs != []
    ensures SortedBy(xs[1..], less) && forall y :: y in xs[1..] ==> !less(y, xs[0])
  {
  }

  lemma {:induction false} InsertByIs<T(!new)>(x: T, xs: seq<T>, less: (T, T) -> bool)
    ensures multiset(InsertBy(x, xs, less)) == multiset(xs) + multiset{x}
    ensures Orders(less) && SortedBy(xs, less) ==> SortedBy(InsertBy(x, xs, less), less)
  {
    if xs != [] {
      assert xs == [xs[0]] + xs[1..];
      InsertByIs(x, xs[1..], less);
      if Orders(less) && SortedBy(xs, less) {
        InsertKeepsSorted(x, xs, less);
      }
    }
  }

  lemma InsertKeepsSorted<T(!new)>(x: T, xs: seq<T>, less: (T, T) -> bool)
    requires xs != [] && Orders(less) && SortedBy(xs, less)
    requires multiset(InsertBy(x, xs[1..], less)) == multiset(xs[1..]) + multiset{x}
    requires SortedBy(xs[1..], less) ==> SortedBy(InsertBy(x, xs[1..], less), less)
    ensures SortedBy(InsertBy(x, xs, less), less)
  {
    hide SortedBy;
    TailSortedBy(xs, less);
    if less(xs[0], x) {
      var tail := InsertBy(x, xs[1..], less);
      forall y | y in tail ensures !less(y, xs[0]) {
        assert y in multiset(tail);
        assert y in xs[1..] || y == x;
      }
      PrependSortedBy(xs[0], tail, less);
    } else {
      forall y | y in xs ensures !less(y, x) {
        assert y == xs[0] || y in xs[1..];
      }
      PrependSortedBy(x, xs, less);
    }
  }

  /** Sorting keeps exactly the same elements and puts them in order. */
  lemma {:induction false} SortByIs<T(!new)>(xs: seq<T>, less: (T, T) -> bool)
    ensures multiset(SortBy(xs, less)) == multiset(xs) && |SortBy(xs, less)| == |xs|
    ensures Orders(less) ==> SortedBy(SortBy(xs, less), less)
  {
    if xs == [] {
    } else {
      SortByIs(xs[1..], less);
      InsertByIs(xs[0], SortBy(xs[1..], less), less);
      assert xs == [xs[0]] + xs[1..];
    }
    assert |multiset(SortBy(xs, less))| == |multiset(xs)|;
  }
}
