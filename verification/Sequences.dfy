/** Equations between sequences that the proofs cite by name. */
module Sequences {
  lemma Cut<T>(x: seq<T>, k: nat, y: seq<T>)
    requires k < |x|
    ensures x == x[..k] + [x[k]] + x[k + 1..]
    ensures x + y == x[..k] + [x[k]] + (x[k + 1..] + y)
  {
  }

  lemma TakeSnoc<T>(a: seq<T>, s: seq<T>, k: nat)
    requires k < |s|
    ensures s[..k] + [s[k]] == s[..k + 1]
    ensures (a + s[..k]) + [s[k]] == a + s[..k + 1]
  {
  }

  lemma TakeEnds<T>(a: seq<T>, s: seq<T>)
    ensures s[..0] == [] && s[..|s|] == s && a + s[..0] == a
  {
  }

  lemma Assoc<T>(a: seq<T>, b: seq<T>, c: seq<T>)
    ensures (a + b) + c == a + (b + c)
  {
  }

  lemma PrefixCut<T>(p: seq<T>, s: seq<T>)
    ensures p <= p + s && (p + s)[|p|..] == s
    ensures p != [] ==> (p + s)[0] == p[0]
  {
  }

  lemma LastOf<T>(x: seq<T>, q: seq<T>)
    requires q != []
    ensures x + q == (x + q[..|q| - 1]) + [q[|q| - 1]]
  {
  }

  lemma ConsTail<T>(s: seq<T>)
    requires s != []
    ensures [s[0]] + s[1..] == s
  {
  }

  lemma CutAfterFirst<T>(s: seq<T>, n: nat)
    requires n < |s|
    ensures s[..n + 1] == [s[0]] + s[1..][..n] && s[n + 1..] == s[1..][n..]
  {
  }

  /** The numbers below `n`, in order. */
  function UpTo(n: nat): (r: seq<int>)
    ensures |r| == n && forall k :: 0 <= k < n ==> r[k] == k
  {
    if n == 0 then [] else UpTo(n - 1) + [n - 1]
  }
}
