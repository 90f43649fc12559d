/** The copy of the estimator in line.py: the same steps as in Lane.py, with
    each side's average chosen by an explicit if/else on whether its group is
    empty. Its `make_coordinates` is the same text as Lane.py's and is modelled
    once, by Lane.MakeCoordinates. */
module Line {
  import opened Wrappers
  import opened Geometry
  import opened Grouping
  import opened Averaging
  import Lane

  /** line.py's estimator computes exactly what Lane.py's does, raising included. */
  function AverageSlopeIntercept(height: nat, segs: seq<Segment>): (r: Result<Lane.LanePair, Lane.Error>)
    requires AllNonVertical(segs)
    ensures r == Lane.AverageSlopeIntercept(height, segs)
  {
    var fits := Fits(segs);
    var leftFit := LeftGroup(fits);
    var rightFit := RightGroup(fits);
    var leftAverage := if leftFit != [] then Some(Mean(leftFit)) else None;
    var rightAverage := if rightFit != [] then Some(Mean(rightFit)) else None;
    match Lane.SideLine(height, leftAverage)
    case Failure(e) => Failure(e)
    case Success(leftLine) =>
      match Lane.SideLine(height, rightAverage)
      case Failure(e) => Failure(e)
      case Success(rightLine) => Success(Lane.LanePair(leftLine, rightLine))
  }
}
