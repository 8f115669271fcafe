/** Sequences with one element taken out, and multisets of their elements. */
module Sequences {
  function Drop<T>(xs: seq<T>, k: nat): (r: seq<T>)
    requires k < |xs|
    ensures |r| == |xs| - 1 && forall i :: 0 <= i < |r| ==> r[i] == xs[if i < k then i else i + 1]
  {
    xs[..k] + xs[k + 1..]
  }

  lemma DropKeepsRest<T>(xs: seq<T>, k: nat)
    requires k < |xs|
    ensures multiset(Drop(xs, k)) + multiset{xs[k]} == multiset(xs)
  {
    assert xs == xs[..k] + ([xs[k]] + xs[k + 1..]);
  }

  /** Two conservation laws, one after the other. */
  lemma Conserved<T>(a: multiset<T>, x: multiset<T>, b: multiset<T>, y: multiset<T>,
                     p: multiset<T>, c: multiset<T>, q: multiset<T>)
    requires a + x == b + y && b + p == c + q
    ensures a + (x + p) == c + (y + q)
  {
    assert a + (x + p) == (a + x) + p;
    assert (b + y) + p == (b + p) + y;
    assert (c + q) + y == c + (y + q);
  }
}
