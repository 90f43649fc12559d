/** The second stage of the estimator: the component-wise arithmetic mean of a
    group of fits, absent for an empty group. */
module Averaging {
  import opened Wrappers
  import opened Geometry
  import opened Multisets

  /** Component-wise sum of two fits. */
  function Add(a: Fit, b: Fit): (r: Fit) {
    Fit(a.slope + b.slope, a.intercept + b.intercept)
  }

  /** Component-wise sum of a group. */
  function FitSum(g: seq<Fit>): (r: Fit) {
    if g == [] then Fit(0.0, 0.0) else Add(g[0], FitSum(g[1..]))
  }

  /** Mean slope and mean intercept of a non-empty group, each taken separately,
      unweighted. */
  function Mean(g: seq<Fit>): (r: Fit)
    requires g != []
  {
    var n := |g| as real;
    Fit(FitSum(g).slope / n, FitSum(g).intercept / n)
  }

  /** The least slope of a non-empty group: a member's slope, below no other. */
  function MinSlope(g: seq<Fit>): (m: real)
    requires g != []
    ensures forall f :: f in g ==> m <= f.slope
    ensures exists i :: 0 <= i < |g| && g[i].slope == m
  {
    if |g| == 1 then g[0].slope
    else
      var rest := MinSlope(g[1..]);
      assert forall f :: f in g ==> f == g[0] || f in g[1..];
      assert exists i :: 1 <= i < |g| && g[i].slope == rest by {
        var j :| 0 <= j < |g[1..]| && g[1..][j].slope == rest;
        assert g[j + 1].slope == rest;
      }
      if g[0].slope <= rest then g[0].slope else rest
  }

  /** The greatest slope of a non-empty group: a member's slope, above no other. */
  function MaxSlope(g: seq<Fit>): (m: real)
    requires g != []
    ensures forall f :: f in g ==> f.slope <= m
    ensures exists i :: 0 <= i < |g| && g[i].slope == m
  {
    if |g| == 1 then g[0].slope
    else
      var rest := MaxSlope(g[1..]);
      assert forall f :: f in g ==> f == g[0] || f in g[1..];
      assert exists i :: 1 <= i < |g| && g[i].slope == rest by {
        var j :| 0 <= j < |g[1..]| && g[1..][j].slope == rest;
        assert g[j + 1].slope == rest;
      }
      if rest <= g[0].slope then g[0].slope else rest
  }

  /** What a caller of the averaging step relies on: the mean slope lies between
      the group's least and greatest slope, keeps the sign of an all-negative
      group, and of an all-non-negative group, where it is zero only if every
      slope is. */
  lemma MeanFacts(g: seq<Fit>)
    requires g != []
    ensures MinSlope(g) <= Mean(g).slope <= MaxSlope(g)
    ensures (forall f :: f in g ==> f.slope < 0.0) ==> Mean(g).slope < 0.0
    ensures (forall f :: f in g ==> f.slope >= 0.0) ==>
              Mean(g).slope >= 0.0 && (Mean(g).slope == 0.0 <==> forall f :: f in g ==> f.slope == 0.0)
  {
    MeanSlopeBounds(g, MinSlope(g), MaxSlope(g));
    if forall f :: f in g ==> f.slope < 0.0 {
      MeanNegative(g);
    }
    if forall f :: f in g ==> f.slope >= 0.0 {
      MeanNonNegative(g);
    }
  }

  /** The averaged fit of a group (`np.average` along axis 0): absent exactly
      when the group is empty, otherwise the component-wise mean, whose slope
      lies between the group's least and greatest slope and keeps the group's
      sign: negative for an all-negative group, non-negative for an
      all-non-negative group and then zero only when every slope is zero. */
  function AverageGroup(g: seq<Fit>): (r: Option<Fit>)
    ensures r.None? <==> g == []
    ensures r.Some? ==> r.value == Mean(g)
    ensures r.Some? ==> MinSlope(g) <= r.value.slope <= MaxSlope(g)
    ensures r.Some? && (forall f :: f in g ==> f.slope < 0.0) ==> r.value.slope < 0.0
    ensures r.Some? && (forall f :: f in g ==> f.slope >= 0.0) ==>
              r.value.slope >= 0.0 && (r.value.slope == 0.0 <==> forall f :: f in g ==> f.slope == 0.0)
  {
    if g == [] then None
    else
      MeanFacts(g);
      Some(Mean(g))
  }

  /** The sum may take out any one member first. */
  lemma {:induction false} FitSumRemoveAt(g: seq<Fit>, i: nat)
    requires i < |g|
    ensures FitSum(g) == Add(g[i], FitSum(g[..i] + g[i+1..]))
  {
    if i == 0 {
      assert g[..0] + g[1..] == g[1..];
    } else {
      var tail := g[1..];
      assert (g[..i] + g[i+1..]) == [g[0]] + (tail[..i-1] + tail[i..]);
      FitSumRemoveAt(tail, i - 1);
    }
  }

  /** The sum, and so the mean, does not depend on the order of the group. */
  lemma {:induction false} FitSumPermutation(g: seq<Fit>, h: seq<Fit>)
    requires multiset(g) == multiset(h)
    ensures FitSum(g) == FitSum(h)
    decreases |g|
  {
    if g == [] {
      assert |multiset(h)| == 0;
    } else {
      var i := HeadIndex(g, h);
      RemoveMatching(g, h, i);
      FitSumPermutation(g[1..], h[..i] + h[i+1..]);
      FitSumRemoveAt(h, i);
    }
  }

  lemma MeanPermutation(g: seq<Fit>, h: seq<Fit>)
    requires g != [] && multiset(g) == multiset(h)
    ensures h != [] && Mean(g) == Mean(h)
  {
    assert |g| == |multiset(g)| == |multiset(h)| == |h|;
    FitSumPermutation(g, h);
  }

  /** `n` copies of `x` added up, written as a sum so that bounds on sums stay linear. */
  function Times(n: nat, x: real): (r: real) {
    if n == 0 then 0.0 else x + Times(n - 1, x)
  }

  lemma {:induction false} TimesIsProduct(n: nat, x: real)
    ensures Times(n, x) == n as real * x
  {
    if n > 0 {
      TimesIsProduct(n - 1, x);
      assert n as real * x == (n - 1) as real * x + x;
    }
  }

  /** Slopes of at least `lo` add up to at least |g|*lo. */
  lemma {:induction false} SlopeSumAtLeast(g: seq<Fit>, lo: real)
    requires forall f :: f in g ==> lo <= f.slope
    ensures |g| as real * lo <= FitSum(g).slope
  {
    SlopeSumAtLeastTimes(g, lo);
    TimesIsProduct(|g|, lo);
  }

  lemma {:induction false} SlopeSumAtLeastTimes(g: seq<Fit>, lo: real)
    requires forall f :: f in g ==> lo <= f.slope
    ensures Times(|g|, lo) <= FitSum(g).slope
  {
    if g != [] {
      var tail := g[1..];
      assert forall f :: f in tail ==> f in g;
      SlopeSumAtLeastTimes(tail, lo);
      assert g[0] in g;
    }
  }

  /** Slopes of at most `hi` add up to at most |g|*hi. */
  lemma {:induction false} SlopeSumAtMost(g: seq<Fit>, hi: real)
    requires forall f :: f in g ==> f.slope <= hi
    ensures FitSum(g).slope <= |g| as real * hi
  {
    SlopeSumAtMostTimes(g, hi);
    TimesIsProduct(|g|, hi);
  }

  lemma {:induction false} SlopeSumAtMostTimes(g: seq<Fit>, hi: real)
    requires forall f :: f in g ==> f.slope <= hi
    ensures FitSum(g).slope <= Times(|g|, hi)
  {
    if g != [] {
      var tail := g[1..];
      assert forall f :: f in tail ==> f in g;
      SlopeSumAtMostTimes(tail, hi);
      assert g[0] in g;
    }
  }

  /** Dividing a sum of `n` terms by `n` keeps bounds that hold term by term. */
  lemma DivideBounds(s: real, n: real, lo: real, hi: real)
    requires n > 0.0
    requires n * lo <= s <= n * hi
    ensures lo <= s / n <= hi
  {
    assert s / n - lo == (s - n * lo) / n;
    assert hi - s / n == (n * hi - s) / n;
  }

  /** The mean slope lies within any bounds of the group's slopes; in particular
      between its least and greatest slope. */
  lemma MeanSlopeBounds(g: seq<Fit>, lo: real, hi: real)
    requires g != []
    requires forall f :: f in g ==> lo <= f.slope <= hi
    ensures lo <= Mean(g).slope <= hi
  {
    SlopeSumAtLeast(g, lo);
    SlopeSumAtMost(g, hi);
    DivideBounds(FitSum(g).slope, |g| as real, lo, hi);
  }

  /** A non-empty group of negative slopes sums to a negative slope. */
  lemma {:induction false} SlopeSumNegative(g: seq<Fit>)
    requires g != []
    requires forall f :: f in g ==> f.slope < 0.0
    ensures FitSum(g).slope < 0.0
  {
    assert g[0] in g;
    if |g| > 1 {
      assert forall f :: f in g[1..] ==> f in g;
      SlopeSumNegative(g[1..]);
    }
  }

  /** The left average never has a zero slope: its mean slope is negative. */
  lemma MeanNegative(g: seq<Fit>)
    requires g != []
    requires forall f :: f in g ==> f.slope < 0.0
    ensures Mean(g).slope < 0.0
  {
    SlopeSumNegative(g);
  }

  /** Non-negative slopes sum to zero exactly when every one of them is zero. */
  lemma {:induction false} SlopeSumZero(g: seq<Fit>)
    requires forall f :: f in g ==> f.slope >= 0.0
    ensures FitSum(g).slope == 0.0 <==> forall f :: f in g ==> f.slope == 0.0
  {
    if g != [] {
      assert forall f :: f in g[1..] ==> f in g;
      assert g[0] in g;
      SlopeSumZero(g[1..]);
      SlopeSumAtLeast(g[1..], 0.0);
      assert forall f :: f in g ==> f == g[0] || f in g[1..];
    }
  }

  /** The right average has a non-negative slope, zero exactly when every slope
      in the group is zero. */
  lemma MeanNonNegative(g: seq<Fit>)
    requires g != []
    requires forall f :: f in g ==> f.slope >= 0.0
    ensures Mean(g).slope >= 0.0
    ensures Mean(g).slope == 0.0 <==> forall f :: f in g ==> f.slope == 0.0
  {
    SlopeSumZero(g);
    SlopeSumAtLeast(g, 0.0);
  }

  /** A group whose members all equal `c` averages to `c`. */
  lemma {:induction false} FitSumUniform(g: seq<Fit>, c: Fit)
    requires forall f :: f in g ==> f == c
    ensures FitSum(g) == Fit(Times(|g|, c.slope), Times(|g|, c.intercept))
  {
    if g != [] {
      assert g[0] in g;
      assert forall f :: f in g[1..] ==> f in g;
      FitSumUniform(g[1..], c);
    }
  }

  lemma MeanUniform(g: seq<Fit>, c: Fit)
    requires g != []
    requires forall f :: f in g ==> f == c
    ensures Mean(g) == c
  {
    FitSumUniform(g, c);
    TimesIsProduct(|g|, c.slope);
    TimesIsProduct(|g|, c.intercept);
  }
}
