/** Insertion sort by an order given as a function. */
module Sorting {
  import opened Sequences

  function Insert<T>(x: T, xs: seq<T>, leq: (T, T) -> bool): (r: seq<T>)
    ensures multiset(r) == multiset(xs) + multiset{x}
  {
    if xs == [] || leq(x, xs[0]) then [x] + xs
    else ConsTail(xs); [xs[0]] + Insert(x, xs[1..], leq)
  }

  function Sort<T>(xs: seq<T>, leq: (T, T) -> bool): (r: seq<T>)
    ensures multiset(r) == multiset(xs)
  {
    if xs == [] then [] else ConsTail(xs); Insert(xs[0], Sort(xs[1..], leq), leq)
  }

  /** Every element is below all that follow it. */
  predicate IsSortedBy<T>(xs: seq<T>, leq: (T, T) -> bool) {
    forall i, j :: 0 <= i < j < |xs| ==> leq(xs[i], xs[j])
  }

  ghost predicate IsPreorder<T(!new)>(leq: (T, T) -> bool) {
    && (forall x, y :: leq(x, y) || leq(y, x))
    && forall x, y, z :: leq(x, y) && leq(y, z) ==> leq(x, z)
  }

  lemma {:induction false} InsertKeepsOrder<T(!new)>(x: T, xs: seq<T>, leq: (T, T) -> bool)
    requires IsPreorder(leq) && IsSortedBy(xs, leq)
    ensures IsSortedBy(Insert(x, xs, leq), leq)
  {
    if xs == [] {
    } else if leq(x, xs[0]) {
      forall j | 0 <= j < |xs| ensures leq(x, xs[j]) {
        assert j > 0 ==> leq(xs[0], xs[j]);
      }
    } else {
      InsertKeepsOrder(x, xs[1..], leq);
      var r := Insert(x, xs[1..], leq);
      forall j | 0 <= j < |r| ensures leq(xs[0], r[j]) {
        assert r[j] in multiset(r);
        assert r[j] == x || r[j] in xs[1..];
      }
    }
  }

  lemma {:induction false} SortSorts<T(!new)>(xs: seq<T>, leq: (T, T) -> bool)
    requires IsPreorder(leq)
    ensures IsSortedBy(Sort(xs, leq), leq)
  {
    if xs != [] {
      SortSorts(xs[1..], leq);
      InsertKeepsOrder(xs[0], Sort(xs[1..], leq), leq);
    }
  }
}
