/** The first stage of the estimator: fit every segment and split the fits by
    the sign of their slope, negative slopes to the left group and all others,
    horizontal ones included, to the right group. Both groups keep input order. */
module Grouping {
  import opened Geometry
  import opened Multisets

  /** The fit of each segment, in input order: the i-th fit passes through both
      endpoints of the i-th segment (so, by FitSegmentUnique, it is that
      segment's line). */
  function Fits(segs: seq<Segment>): (fs: seq<Fit>)
    requires AllNonVertical(segs)
    ensures |fs| == |segs|
    ensures forall i :: 0 <= i < |segs| ==>
              OnLine(fs[i], segs[i].x1 as real, segs[i].y1 as real) &&
              OnLine(fs[i], segs[i].x2 as real, segs[i].y2 as real)
  {
    seq(|segs|, i requires 0 <= i < |segs| => FitSegment(segs[i]))
  }

  predicate IsLeft(f: Fit) {
    f.slope < 0.0
  }

  /** The fits with a negative slope, in order. */
  function LeftGroup(fs: seq<Fit>): (g: seq<Fit>)
    ensures |g| <= |fs|
    ensures forall f :: f in g ==> f in fs && IsLeft(f)
  {
    if fs == [] then []
    else if IsLeft(fs[0]) then [fs[0]] + LeftGroup(fs[1..])
    else LeftGroup(fs[1..])
  }

  /** The fits with a non-negative slope, in order. */
  function RightGroup(fs: seq<Fit>): (g: seq<Fit>)
    ensures |g| <= |fs|
    ensures forall f :: f in g ==> f in fs && !IsLeft(f)
  {
    if fs == [] then []
    else if IsLeft(fs[0]) then RightGroup(fs[1..])
    else [fs[0]] + RightGroup(fs[1..])
  }

  /** Each fit occurs in the left group exactly as often as in the input when
      its slope is negative, and not at all otherwise; the right group is the
      mirror image. So every fit lands in exactly one group. */
  lemma {:induction false} GroupCounts(fs: seq<Fit>, f: Fit)
    ensures multiset(LeftGroup(fs))[f] == if IsLeft(f) then multiset(fs)[f] else 0
    ensures multiset(RightGroup(fs))[f] == if IsLeft(f) then 0 else multiset(fs)[f]
  {
    if fs != [] {
      GroupCounts(fs[1..], f);
      assert fs == [fs[0]] + fs[1..];
    }
  }

  /** The two groups together are a rearrangement of the input, so their sizes
      add up to the number of segments. */
  lemma Partition(fs: seq<Fit>)
    ensures multiset(LeftGroup(fs)) + multiset(RightGroup(fs)) == multiset(fs)
    ensures |LeftGroup(fs)| + |RightGroup(fs)| == |fs|
  {
    forall f
      ensures (multiset(LeftGroup(fs)) + multiset(RightGroup(fs)))[f] == multiset(fs)[f]
    {
      GroupCounts(fs, f);
    }
    assert multiset(LeftGroup(fs)) + multiset(RightGroup(fs)) == multiset(fs);
    assert |multiset(LeftGroup(fs))| + |multiset(RightGroup(fs))| == |multiset(fs)|;
  }

  /** A fit is in the left group iff it is an input fit with negative slope,
      and in the right group iff it is an input fit with non-negative slope. */
  lemma GroupMembership(fs: seq<Fit>, f: Fit)
    ensures f in LeftGroup(fs) <==> f in fs && IsLeft(f)
    ensures f in RightGroup(fs) <==> f in fs && !IsLeft(f)
  {
    GroupCounts(fs, f);
    assert f in LeftGroup(fs) <==> f in multiset(LeftGroup(fs));
    assert f in RightGroup(fs) <==> f in multiset(RightGroup(fs));
  }

  /** A group is empty exactly when no input fit has the group's sign. */
  lemma GroupsEmpty(fs: seq<Fit>)
    ensures LeftGroup(fs) == [] <==> forall i :: 0 <= i < |fs| ==> !IsLeft(fs[i])
    ensures RightGroup(fs) == [] <==> forall i :: 0 <= i < |fs| ==> IsLeft(fs[i])
  {
    if LeftGroup(fs) != [] {
      GroupMembership(fs, LeftGroup(fs)[0]);
    }
    if RightGroup(fs) != [] {
      GroupMembership(fs, RightGroup(fs)[0]);
    }
    forall i | 0 <= i < |fs|
      ensures IsLeft(fs[i]) ==> fs[i] in LeftGroup(fs)
      ensures !IsLeft(fs[i]) ==> fs[i] in RightGroup(fs)
    {
      GroupMembership(fs, fs[i]);
    }
  }

  /** Grouping depends only on which fits occur and how often, not on their order. */
  lemma GroupsPermutation(fs: seq<Fit>, gs: seq<Fit>)
    requires multiset(fs) == multiset(gs)
    ensures multiset(LeftGroup(fs)) == multiset(LeftGroup(gs))
    ensures multiset(RightGroup(fs)) == multiset(RightGroup(gs))
  {
    forall f
      ensures multiset(LeftGroup(fs))[f] == multiset(LeftGroup(gs))[f]
      ensures multiset(RightGroup(fs))[f] == multiset(RightGroup(gs))[f]
    {
      GroupCounts(fs, f);
      GroupCounts(gs, f);
    }
  }

  /** Fitting commutes with removing the segment at `i`. */
  lemma FitsRemoveAt(segs: seq<Segment>, i: nat)
    requires AllNonVertical(segs) && i < |segs|
    ensures AllNonVertical(segs[..i] + segs[i+1..])
    ensures multiset(Fits(segs)) == multiset(Fits(segs[..i] + segs[i+1..])) + multiset{FitSegment(segs[i])}
  {
    var rest := segs[..i] + segs[i+1..];
    forall s | s in rest ensures NonVertical(s) {
      assert s in segs[..i] || s in segs[i+1..];
    }
    var fr := Fits(rest);
    var fs := Fits(segs);
    assert |fr| == |fs[..i] + fs[i+1..]|;
    forall k | 0 <= k < |fr| ensures fr[k] == (fs[..i] + fs[i+1..])[k] {
      if k < i { assert rest[k] == segs[k]; } else { assert rest[k] == segs[k+1]; }
    }
    assert fr == fs[..i] + fs[i+1..];
    RemoveAt(fs, i);
  }

  /** Fitting segment by segment maps rearranged inputs to rearranged fits. */
  lemma {:induction false} FitsPermutation(segs: seq<Segment>, others: seq<Segment>)
    requires AllNonVertical(segs) && AllNonVertical(others)
    requires multiset(segs) == multiset(others)
    ensures multiset(Fits(segs)) == multiset(Fits(others))
    decreases |segs|
  {
    if segs == [] {
      assert |multiset(others)| == 0;
    } else {
      var i := HeadIndex(segs, others);
      var rest := others[..i] + others[i+1..];
      RemoveMatching(segs, others, i);
      FitsRemoveAt(others, i);
      var tail := segs[1..];
      assert forall s :: s in tail ==> s in segs;
      FitsPermutation(tail, rest);
      var f := FitSegment(segs[0]);
      assert Fits(segs) == [f] + Fits(tail);
      Cons(f, Fits(tail));
    }
  }

  /** Grouping a longer input extends the groups of its prefix. */
  lemma {:induction false} GroupsAppend(fs: seq<Fit>, f: Fit)
    ensures LeftGroup(fs + [f]) == LeftGroup(fs) + (if IsLeft(f) then [f] else [])
    ensures RightGroup(fs + [f]) == RightGroup(fs) + (if IsLeft(f) then [] else [f])
  {
    if fs != [] {
      assert (fs + [f])[1..] == fs[1..] + [f];
      GroupsAppend(fs[1..], f);
    } else {
      assert [] + [f] == [f];
    }
  }

  /** The collection loop: fit each segment and append the fit to the group
      its slope selects. It builds exactly the two groups defined above. */
  method CollectFits(segs: seq<Segment>) returns (left: seq<Fit>, right: seq<Fit>)
    requires AllNonVertical(segs)
    ensures left == LeftGroup(Fits(segs))
    ensures right == RightGroup(Fits(segs))
  {
    left, right := [], [];
    for k := 0 to |segs|
      invariant left == LeftGroup(Fits(segs[..k]))
      invariant right == RightGroup(Fits(segs[..k]))
    {
      var fit := FitSegment(segs[k]);
      assert Fits(segs[..k+1]) == Fits(segs[..k]) + [fit];
      GroupsAppend(Fits(segs[..k]), fit);
      if fit.slope < 0.0 {
        left := left + [fit];
      } else {
        right := right + [fit];
      }
    }
    assert segs[..|segs|] == segs;
  }
}
