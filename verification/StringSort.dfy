/** Go's sort.Strings: the lexicographic order on strings and the sorted arrangement of a list. */
module StringSort {
  import opened Sequences
  import opened Sorting

  predicate Leq(a: string, b: string) {
    a == "" || (b != "" && (a[0] < b[0] || (a[0] == b[0] && Leq(a[1..], b[1..]))))
  }

  lemma {:induction false} LeqIsTotal(a: string, b: string)
    ensures Leq(a, b) || Leq(b, a)
    ensures Leq(a, b) && Leq(b, a) ==> a == b
  {
    if a != "" && b != "" {
      LeqIsTotal(a[1..], b[1..]);
      ConsTail(a);
      ConsTail(b);
    }
  }

  lemma {:induction false} LeqIsTransitive(a: string, b: string, c: string)
    requires Leq(a, b) && Leq(b, c)
    ensures Leq(a, c)
  {
    if a != "" && a[0] == b[0] == c[0] {
      LeqIsTransitive(a[1..], b[1..], c[1..]);
    }
  }

  lemma LeqIsPreorder()
    ensures IsPreorder(Leq)
  {
    forall a, b ensures Leq(a, b) || Leq(b, a) {
      LeqIsTotal(a, b);
    }
    forall a, b, c | Leq(a, b) && Leq(b, c) ensures Leq(a, c) {
      LeqIsTransitive(a, b, c);
    }
  }

  predicate IsSorted(ks: seq<string>) {
    IsSortedBy(ks, Leq)
  }

  function SortStrings(ks: seq<string>): (r: seq<string>)
    ensures multiset(r) == multiset(ks)
  {
    Sort(ks, Leq)
  }

  lemma SortSortsStrings(ks: seq<string>)
    ensures IsSorted(SortStrings(ks))
  {
    LeqIsPreorder();
    SortSorts(ks, Leq);
  }

  lemma HeadIsLeast(x: seq<string>, k: string)
    requires IsSorted(x) && k in x
    ensures Leq(x[0], k)
  {
    LeqIsTotal(k, k);
  }

  /** There is one sorted arrangement of a collection. */
  lemma {:induction false} SortedOrderIsUnique(x: seq<string>, y: seq<string>)
    requires IsSorted(x) && IsSorted(y) && multiset(x) == multiset(y)
    ensures x == y
  {
    assert |x| == |multiset(x)| == |multiset(y)| == |y|;
    if x == [] {
    } else {
      assert x[0] in multiset(y) && y[0] in multiset(x);
      HeadIsLeast(x, y[0]);
      HeadIsLeast(y, x[0]);
      LeqIsTotal(x[0], y[0]);
      ConsTail(x);
      ConsTail(y);
      assert multiset(x[1..]) == multiset(x) - multiset{x[0]};
      assert multiset(y[1..]) == multiset(y) - multiset{x[0]};
      SortedOrderIsUnique(x[1..], y[1..]);
    }
  }

  /** Sorting does not depend on the order it starts from. */
  lemma SortIgnoresOrder(a: seq<string>, b: seq<string>)
    requires multiset(a) == multiset(b)
    ensures SortStrings(a) == SortStrings(b)
  {
    SortSortsStrings(a);
    SortSortsStrings(b);
    SortedOrderIsUnique(SortStrings(a), SortStrings(b));
  }

  /** Two strings agree before position `k`, where the first ends or has the smaller character. */
  predicate IsBefore(a: string, b: string, k: nat) {
    && k <= |a| && k <= |b| && a[..k] == b[..k]
    && (k == |a| || (k < |b| && a[k] < b[k]))
  }

  /** The order is the one of a dictionary. */
  lemma {:induction false} LeqIff(a: string, b: string)
    ensures Leq(a, b) <==> exists k: nat :: IsBefore(a, b, k)
  {
    if a == "" {
      assert IsBefore(a, b, 0);
    } else if b == "" || a[0] != b[0] {
      assert b != "" && a[0] < b[0] ==> IsBefore(a, b, 0);
      forall k: nat | IsBefore(a, b, k) ensures b != "" && a[0] < b[0] {
        FirstAgrees(a, b, k);
      }
    } else {
      LeqIff(a[1..], b[1..]);
      if k: nat :| IsBefore(a[1..], b[1..], k) {
        CutAfterFirstBoth(a, b, k);
        assert IsBefore(a, b, k + 1);
      }
      if k: nat :| IsBefore(a, b, k) {
        if k > 0 {
          assert a[1..][..k - 1] == a[..k][1..] && b[1..][..k - 1] == b[..k][1..];
          assert IsBefore(a[1..], b[1..], k - 1);
        }
      }
    }
  }

  lemma FirstAgrees(a: string, b: string, k: nat)
    requires k <= |a| && k <= |b| && a[..k] == b[..k]
    ensures k > 0 ==> a[0] == b[0]
  {
    assert k > 0 ==> a[..k][0] == a[0] && b[..k][0] == b[0];
  }

  lemma CutAfterFirstBoth(a: string, b: string, k: nat)
    requires a != "" && b != "" && a[0] == b[0] && k <= |a[1..]| && k <= |b[1..]| && a[1..][..k] == b[1..][..k]
    ensures a[..k + 1] == b[..k + 1]
  {
    assert a[..k + 1] == [a[0]] + a[1..][..k] && b[..k + 1] == [b[0]] + b[1..][..k];
  }
}
