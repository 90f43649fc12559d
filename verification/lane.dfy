/** The lane-line estimator of Lane.py: fit every detected segment, split the
    fits by slope sign, average each side and rebuild each average as a segment
    from the bottom row of the frame up to three fifths of its height. */
module Lane {
  import opened Wrappers
  import opened Geometry
  import opened Grouping
  import opened Averaging

  /** Why rebuilding a lane line can raise. */
  datatype Error =
    | ParameterCount  // the parameter tuple does not hold exactly a slope and an intercept
    | ZeroSlope       // `int()` of the quotient by a zero slope (infinite or undefined)

  /** The two lane lines of a frame, each absent when no segment supports it. */
  datatype LanePair = LanePair(left: Option<Segment>, right: Option<Segment>)

  /** `seg` is the drawn form of line `f` in a frame of the given height: it runs
      from the bottom row to row `(3 * height) / 5`, and each x is the exact
      crossing of `f` with that row truncated toward zero. */
  predicate Reconstructs(seg: Segment, height: nat, f: Fit) {
    && f.slope != 0.0
    && seg.y1 == height
    && seg.y2 == (3 * height) / 5
    && TruncOf(seg.x1, SolveX(f, seg.y1 as real))
    && TruncOf(seg.x2, SolveX(f, seg.y2 as real))
  }

  /** Rebuild the line with parameters `params` (slope, intercept) as a segment
      of a frame of the given height. */
  function MakeCoordinates(height: nat, params: seq<real>): (r: Result<Segment, Error>)
    ensures r == Failure(ParameterCount) <==> |params| != 2
    ensures r == Failure(ZeroSlope) <==> |params| == 2 && params[0] == 0.0
    ensures r.Success? ==> |params| == 2 && Reconstructs(r.value, height, Fit(params[0], params[1]))
    ensures r.Success? ==> 0 <= r.value.y2 <= r.value.y1
  {
    if |params| != 2 then Failure(ParameterCount)
    else
      var line := Fit(params[0], params[1]);
      var y1 := height;
      var y2 := HorizonRow(y1);
      if line.slope == 0.0 then Failure(ZeroSlope)
      else Success(Segment(Trunc(SolveX(line, y1 as real)), y1, Trunc(SolveX(line, y2 as real)), y2))
  }

  /** Each rebuilt x is within one pixel of the exact crossing, on the side of zero. */
  lemma WithinOnePixel(seg: Segment, height: nat, f: Fit)
    requires Reconstructs(seg, height, f)
    ensures -1.0 < seg.x1 as real - SolveX(f, seg.y1 as real) < 1.0
    ensures -1.0 < seg.x2 as real - SolveX(f, seg.y2 as real) < 1.0
  {
  }

  /** One side of the frame: absent without an average, else the rebuilt average. */
  function SideLine(height: nat, average: Option<Fit>): (r: Result<Option<Segment>, Error>)
    ensures average.None? ==> r == Success(None)
    ensures average.Some? ==> (r.Failure? <==> average.value.slope == 0.0)
    ensures r.Failure? ==> r.error == ZeroSlope
    ensures average.Some? && r.Success? ==>
              r.value.Some? && Reconstructs(r.value.value, height, average.value)
  {
    match average
    case None => Success(None)
    case Some(f) =>
      match MakeCoordinates(height, [f.slope, f.intercept])
      case Success(seg) => Success(Some(seg))
      case Failure(e) => Failure(e)
  }

  /** Some segment of the frame has a negative slope (a left-lane candidate). */
  predicate HasLeft(segs: seq<Segment>)
    requires AllNonVertical(segs)
  {
    exists i :: 0 <= i < |segs| && FitSegment(segs[i]).slope < 0.0
  }

  /** Some segment of the frame has a non-negative slope (a right-lane candidate). */
  predicate HasRight(segs: seq<Segment>)
    requires AllNonVertical(segs)
  {
    exists i :: 0 <= i < |segs| && FitSegment(segs[i]).slope >= 0.0
  }

  /** Some segment of the frame rises to the right with a positive slope. */
  predicate HasRising(segs: seq<Segment>)
    requires AllNonVertical(segs)
  {
    exists i :: 0 <= i < |segs| && FitSegment(segs[i]).slope > 0.0
  }

  /** How the groups of a frame relate to its segments, and the signs of their means. */
  lemma SideFacts(segs: seq<Segment>)
    requires AllNonVertical(segs)
    ensures LeftGroup(Fits(segs)) != [] <==> HasLeft(segs)
    ensures RightGroup(Fits(segs)) != [] <==> HasRight(segs)
    ensures LeftGroup(Fits(segs)) != [] ==> Mean(LeftGroup(Fits(segs))).slope < 0.0
    ensures RightGroup(Fits(segs)) != [] ==>
              (Mean(RightGroup(Fits(segs))).slope > 0.0 <==> HasRising(segs))
    ensures RightGroup(Fits(segs)) != [] ==> Mean(RightGroup(Fits(segs))).slope >= 0.0
  {
    var fits := Fits(segs);
    var left, right := LeftGroup(fits), RightGroup(fits);
    GroupsEmpty(fits);
    if left != [] {
      MeanNegative(left);
    }
    if right != [] {
      MeanNonNegative(right);
      if HasRising(segs) {
        var i :| 0 <= i < |segs| && FitSegment(segs[i]).slope > 0.0;
        GroupMembership(fits, fits[i]);
      } else {
        forall f | f in right ensures f.slope == 0.0 {
          GroupMembership(fits, f);
        }
      }
    }
  }

  /** The estimator as written: average each side, then rebuild the left line and
      then the right line. A right side whose segments are all horizontal averages
      to slope zero, and rebuilding it raises. */
  function AverageSlopeIntercept(height: nat, segs: seq<Segment>): (r: Result<LanePair, Error>)
    requires AllNonVertical(segs)
    ensures r.Failure? <==> HasRight(segs) && !HasRising(segs)
    ensures r.Failure? ==> r.error == ZeroSlope
    ensures r.Success? ==> (r.value.left.Some? <==> HasLeft(segs))
    ensures r.Success? ==> (r.value.right.Some? <==> HasRight(segs))
    ensures r.Success? && r.value.left.Some? ==>
              LeftGroup(Fits(segs)) != [] &&
              Reconstructs(r.value.left.value, height, Mean(LeftGroup(Fits(segs))))
    ensures r.Success? && r.value.right.Some? ==>
              RightGroup(Fits(segs)) != [] &&
              Reconstructs(r.value.right.value, height, Mean(RightGroup(Fits(segs))))
  {
    SideFacts(segs);
    var fits := Fits(segs);
    var leftAverage := AverageGroup(LeftGroup(fits));
    var rightAverage := AverageGroup(RightGroup(fits));
    match SideLine(height, leftAverage)
    case Failure(e) => Failure(e)
    case Success(leftLine) =>
      match SideLine(height, rightAverage)
      case Failure(e) => Failure(e)
      case Success(rightLine) => Success(LanePair(leftLine, rightLine))
  }

  /** A frame without segments has neither lane line. */
  lemma EmptyFrame(height: nat)
    ensures AverageSlopeIntercept(height, []) == Success(LanePair(None, None))
  {
  }

  /** The result depends only on which segments were detected, not their order. */
  lemma OrderIndependent(height: nat, segs: seq<Segment>, others: seq<Segment>)
    requires AllNonVertical(segs) && AllNonVertical(others)
    requires multiset(segs) == multiset(others)
    ensures AverageSlopeIntercept(height, segs) == AverageSlopeIntercept(height, others)
    ensures EstimateLaneLines(height, segs) == EstimateLaneLines(height, others)
  {
    var fits, otherFits := Fits(segs), Fits(others);
    FitsPermutation(segs, others);
    GroupsPermutation(fits, otherFits);
    SameAverage(LeftGroup(fits), LeftGroup(otherFits));
    SameAverage(RightGroup(fits), RightGroup(otherFits));
  }

  /** Rearranged groups have the same average. */
  lemma SameAverage(g: seq<Fit>, h: seq<Fit>)
    requires multiset(g) == multiset(h)
    ensures AverageGroup(g) == AverageGroup(h)
  {
    if g != [] {
      MeanPermutation(g, h);
    } else {
      assert |multiset(h)| == 0;
    }
  }

  /** Fitting a segment and rebuilding the fit at the segment's own rows gives the
      segment back: the fit passes through both endpoints and the endpoint x are
      whole numbers, so truncation leaves them unchanged. */
  lemma FitThenRebuild(s: Segment)
    requires NonVertical(s) && s.y1 != s.y2
    ensures FitSegment(s).slope != 0.0
    ensures Trunc(SolveX(FitSegment(s), s.y1 as real)) == s.x1
    ensures Trunc(SolveX(FitSegment(s), s.y2 as real)) == s.x2
  {
    var f := FitSegment(s);
    SolveXUnique(f, s.x1 as real, s.y1 as real);
    SolveXUnique(f, s.x2 as real, s.y2 as real);
    TruncWhole(s.x1);
    TruncWhole(s.x2);
  }

  /** A frame holding a single segment that spans exactly the drawn rows yields
      that segment back on its side, and nothing on the other side. */
  lemma SingleSegmentRoundTrip(height: nat, s: Segment)
    requires NonVertical(s) && s.y1 == height && s.y2 == (3 * height) / 5 && s.y1 != s.y2
    ensures AverageSlopeIntercept(height, [s]) ==
              Success(if FitSegment(s).slope < 0.0 then LanePair(Some(s), None)
                      else LanePair(None, Some(s)))
  {
    var f := FitSegment(s);
    FitThenRebuild(s);
    assert Fits([s]) == [f];
    MeanUniform([f], f);
  }

  /** The frame of height 500 with the one segment (100, 500) to (300, 300) gives
      that segment as its left line and no right line. */
  lemma SingleLeftSegmentExample()
    ensures AverageSlopeIntercept(500, [Segment(100, 500, 300, 300)]) ==
              Success(LanePair(Some(Segment(100, 500, 300, 300)), None))
  {
    var s := Segment(100, 500, 300, 300);
    assert FitSegment(s).slope == -1.0;
    SingleSegmentRoundTrip(500, s);
  }

  /** As written, a frame whose only segment is horizontal makes the estimator
      raise instead of reporting no right lane line. */
  lemma HorizontalFrameRaises()
    ensures AverageSlopeIntercept(720, [Segment(0, 600, 100, 600)]) == Failure(ZeroSlope)
  {
    var s := Segment(0, 600, 100, 600);
    assert FitSegment(s) == Fit(0.0, 600.0);
    assert [s][0] == s;
    assert HasRight([s]);
    assert !HasRising([s]) by {
      forall i | 0 <= i < 1 ensures FitSegment([s][i]).slope == 0.0 {
        assert [s][i] == s;
      }
    }
  }

  /** With the guard, the same frame has neither lane line. */
  lemma HorizontalFrameGuarded()
    ensures EstimateLaneLines(720, [Segment(0, 600, 100, 600)]) == LanePair(None, None)
  {
    var s := Segment(0, 600, 100, 600);
    assert FitSegment(s) == Fit(0.0, 600.0);
    assert !HasLeft([s]) && !HasRising([s]) by {
      forall i | 0 <= i < 1 ensures FitSegment([s][i]).slope == 0.0 {
        assert [s][i] == s;
      }
    }
  }

  /** One side with the zero-slope guard: absent without an average or when the
      average is horizontal, else the rebuilt average. */
  function GuardedSideLine(height: nat, average: Option<Fit>): (r: Option<Segment>)
    ensures r.Some? <==> average.Some? && average.value.slope != 0.0
    ensures r.Some? ==> Reconstructs(r.value, height, average.value)
  {
    match SideLine(height, average)
    case Success(line) => line
    case Failure(_) => None
  }

  /** The estimator with the zero-slope guard: it never raises, and a side whose
      segments are all horizontal has no line, like a side with no segments. */
  function EstimateLaneLines(height: nat, segs: seq<Segment>): (r: LanePair)
    requires AllNonVertical(segs)
    ensures r.left.Some? <==> HasLeft(segs)
    ensures r.right.Some? <==> HasRising(segs)
    ensures r.left.Some? ==>
              LeftGroup(Fits(segs)) != [] &&
              Reconstructs(r.left.value, height, Mean(LeftGroup(Fits(segs))))
    ensures r.right.Some? ==>
              RightGroup(Fits(segs)) != [] &&
              Reconstructs(r.right.value, height, Mean(RightGroup(Fits(segs))))
  {
    SideFacts(segs);
    var fits := Fits(segs);
    LanePair(GuardedSideLine(height, AverageGroup(LeftGroup(fits))),
             GuardedSideLine(height, AverageGroup(RightGroup(fits))))
  }

  /** Wherever the estimator as written returns, the guarded one returns the same lines. */
  lemma GuardAgreesWhenNoRaise(height: nat, segs: seq<Segment>)
    requires AllNonVertical(segs)
    requires AverageSlopeIntercept(height, segs).Success?
    ensures AverageSlopeIntercept(height, segs).value == EstimateLaneLines(height, segs)
  {
  }
}
