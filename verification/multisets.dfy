/** Facts about sequences viewed as multisets, used to show that the estimator
    does not depend on the order of its input. */
module Multisets {

  /** Removing the element at `i` removes one occurrence of it from the multiset. */
  lemma RemoveAt<T>(xs: seq<T>, i: nat)
    requires i < |xs|
    ensures multiset(xs) == multiset(xs[..i] + xs[i+1..]) + multiset{xs[i]}
  {
    assert xs == xs[..i] + [xs[i]] + xs[i+1..];
  }

  /** Putting `x` in front adds one occurrence of it. */
  lemma Cons<T>(x: T, xs: seq<T>)
    ensures multiset([x] + xs) == multiset(xs) + multiset{x}
  {
  }

  /** If `ys` rearranges `xs`, then removing the head of `xs` and one matching
      element of `ys` leaves two rearrangements of each other. */
  lemma RemoveMatching<T>(xs: seq<T>, ys: seq<T>, i: nat)
    requires multiset(xs) == multiset(ys)
    requires 0 < |xs| && i < |ys| && ys[i] == xs[0]
    ensures multiset(xs[1..]) == multiset(ys[..i] + ys[i+1..])
  {
    RemoveAt(ys, i);
    assert xs == [xs[0]] + xs[1..];
    assert multiset(xs[1..]) == multiset(xs) - multiset{xs[0]};
    assert multiset(ys[..i] + ys[i+1..]) == multiset(ys) - multiset{xs[0]};
  }

  /** A rearrangement of a non-empty sequence contains its head somewhere. */
  lemma HeadIndex<T>(xs: seq<T>, ys: seq<T>) returns (i: nat)
    requires multiset(xs) == multiset(ys) && 0 < |xs|
    ensures i < |ys| && ys[i] == xs[0]
  {
    assert xs[0] in multiset(ys);
    i :| 0 <= i < |ys| && ys[i] == xs[0];
  }
}
