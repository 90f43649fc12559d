# Lane-line estimator, modelled in Dafny

This project models the one piece of original logic in the lane-detection
scripts `Lane.py` and `line.py`. That piece is the lane-line estimator:
`average_slope_intercept` together with `make_coordinates`.

For one video frame the estimator takes the line segments found by the
segment detector and works in three steps:

1. It fits the line `y = slope * x + intercept` through each segment's two endpoints.
2. It puts fits with a negative slope in the left group and all other fits in
   the right group, horizontal ones included. It then averages each group
   component-wise. An empty group gives no average.
3. It rebuilds each average as a segment. The segment runs from the bottom row,
   `y1 = height`, up to `y2 = int(height * 3 / 5)`. Each x is
   `int((y - intercept) / slope)`, and `int` truncates toward zero.

The arithmetic is exact (`real`), not floating point. Python's `int()` is
`Geometry.Trunc`, which truncates toward zero. The code applies it to the
x-coordinates and to `y2`; for a non-negative height, truncating `y2` is the
same as flooring it. The frame image is represented only by its height.

Modules:

- `Wrappers` (wrappers.dfy): `Option` stands for "value or None" and `Result` for "value or raised exception".
- `Geometry` (geometry.dfy): segments, fitted lines, solving a line for x, truncation, and the row at three fifths of the height.
- `Grouping` (grouping.dfy): the per-segment fit and the split by slope sign.
- `Averaging` (averaging.dfy): the component-wise mean of a group.
- `Multisets` (multisets.dfy): facts about rearranged sequences, used for order independence.
- `Lane` (lane.dfy): `make_coordinates` and `average_slope_intercept` of Lane.py, plus a guarded estimator (see Findings).
- `Line` (line.dfy): the `average_slope_intercept` of line.py, proved equal to Lane.py's.

The two scripts hold the same estimator. In `line.py` the averaging is written as an
explicit if/else. Its `make_coordinates` (line.py:5-14) is the same text as
Lane.py:6-15, so one member, `Lane.MakeCoordinates`, models both. For that
reason some rows below cite `line.py` for properties of shared members.

## Model

| member | source | states |
|---|---|---|
| Geometry.FitSegment | Lane.py:25-27 | The degree-1 fit through a non-vertical segment passes exactly through both endpoints. Its slope is zero exactly when the segment is horizontal. |
| Geometry.FitSegmentUnique | line.py:22-24 | A line passes through both endpoints of a non-vertical segment if and only if it is that segment's fit. A fit through two points is therefore the exact line, not an approximation. |
| Geometry.SolveX | Lane.py:13-14 | `(y - intercept) / slope` is a point where the line reaches row `y`. |
| Geometry.SolveXUnique | line.py:12-13 | A non-horizontal line reaches each row at exactly one x, namely `(y - intercept) / slope`. |
| Geometry.Trunc | Lane.py:12-14 | `int()` truncates toward zero. The result is the integer on the zero side of the argument, strictly within 1 of it. |
| Geometry.HorizonRow | Lane.py:11-12 | `int(height * 3 / 5)` equals `(3 * height) / 5` in integer division and lies between 0 and the height. |
| Grouping.Fits | Lane.py:22-27 | The per-segment `np.polyfit` loop yields one fit per segment, in order. The i-th fit passes through both endpoints of the i-th segment, so by `FitSegmentUnique` it is that segment's line. |
| Grouping.LeftGroup | Lane.py:28-29 | The left group contains only input fits with a negative slope, and it is no longer than the input. |
| Grouping.RightGroup | Lane.py:30-31 | The right group contains only input fits with a non-negative slope, so horizontal fits go right. It is no longer than the input. |
| Grouping.GroupCounts | Lane.py:22-31 | Each fit is in exactly one group. A fit with negative slope occurs in the left group as often as in the input and never in the right group; any other fit is the reverse. |
| Grouping.Partition | line.py:20-28 | Together the two groups are a rearrangement of the input fits, so their sizes add up to the number of segments. |
| Grouping.GroupMembership | line.py:25-28 | A fit is in the left group iff it comes from the input and has slope < 0. It is in the right group iff it comes from the input and has slope >= 0. |
| Grouping.GroupsEmpty | Lane.py:28-31 | The left group is empty iff no fit has a negative slope. The right group is empty iff every fit has a negative slope. |
| Grouping.GroupsAppend | Lane.py:28-31 | Appending one more fit to the input extends exactly the group its sign selects, by that fit. |
| Grouping.GroupsPermutation | Lane.py:22-31 | Rearranging the input fits rearranges each group and changes nothing else. |
| Grouping.FitsPermutation | Lane.py:22-27 | Rearranging the segments rearranges their fits. |
| Grouping.CollectFits | Lane.py:19-31 | The collection loop fits each segment and appends it to the left or right list. It builds exactly the left and right groups of the segments' fits, in input order. |
| Averaging.AverageGroup | Lane.py:34-37 | `np.average(group, axis=0) if group else None`: absent exactly when the group is empty. Otherwise the mean slope lies between the group's least and greatest slope (`MinSlope`, `MaxSlope`). It is negative when every slope is negative, which covers the left group. It is non-negative when every slope is non-negative, which covers the right group, and then it is zero iff every slope in the group is zero. |
| Averaging.MeanFacts | line.py:31-39 | The component-wise mean lies between the least and greatest slope. It keeps the sign of an all-negative group, and of an all-non-negative group, where it is zero only if every slope is zero. |
| Averaging.FitSumPermutation | line.py:31-39 | The component-wise sum of a group does not depend on the order of its members. |
| Averaging.MeanPermutation | Lane.py:34-37 | A rearranged group has the same average. |
| Averaging.MeanSlopeBounds | Lane.py:28-37 | The mean slope lies within any bounds on the group's slopes, and so between the least and greatest slope. |
| Averaging.MeanNegative | line.py:25-34 | A non-empty group of negative slopes, such as the left group, has a negative mean slope. Rebuilding the left line therefore never divides by zero. |
| Averaging.MeanNonNegative | line.py:27-39 | A non-empty group of non-negative slopes, such as the right group, has a non-negative mean slope. The mean is zero iff every slope in the group is zero. |
| Averaging.MeanUniform | Lane.py:34-37 | A group whose members are all the same fit averages to that fit. |
| Lane.MakeCoordinates | Lane.py:6-15 | A parameter list whose length is not 2 raises the parameter-count error, and only such a list does. A zero slope raises the zero-slope error, and only a zero slope does. Otherwise the segment has `y1 = height`, `y2 = (3 * height) / 5`, and `0 <= y2 <= y1`. Each x is the exact crossing of the line with its row, truncated toward zero. |
| Lane.WithinOnePixel | line.py:9-13 | Each rebuilt x is strictly within one pixel of the exact crossing `(y - intercept) / slope`. |
| Lane.SideLine | Lane.py:40-41 | With no average there is no line and no error. With an average, rebuilding raises iff the averaged slope is zero. The only error it can raise is the zero-slope one: an average is always a (slope, intercept) pair, so the parameter-count error never occurs. Any other result is the rebuilt averaged line. |
| Lane.SideFacts | Lane.py:28-37 | A group is non-empty iff some segment has that side's sign. The left mean slope is negative. The right mean slope is non-negative, and it is positive iff some segment has a positive slope. |
| Lane.AverageSlopeIntercept | Lane.py:18-43 | The estimator raises the zero-slope error iff some segment has slope >= 0 and none has slope > 0. Otherwise the left line is present iff a segment has a negative slope, and the right line is present iff a segment has a non-negative slope. Each present line is its group's mean fit, rebuilt over the fixed rows. |
| Lane.EmptyFrame | Lane.py:34-43 | A frame without segments gives neither line. |
| Lane.SameAverage | Lane.py:34-37 | Rearranged groups have the same average, or are both absent. |
| Lane.OrderIndependent | Lane.py:22-43 | Over the reals, the result of the estimator depends only on which segments are detected, not on their order. This holds both as written and with the guard. |
| Lane.FitThenRebuild | Lane.py:13-27 | Fitting a non-horizontal segment and solving the fit at the segment's own rows gives back its exact endpoint x. |
| Lane.SingleSegmentRoundTrip | Lane.py:18-43 | A frame whose only segment spans the drawn rows (bottom row to three fifths of the height) returns that segment unchanged on the side its slope selects. The other side is absent. |
| Lane.SingleLeftSegmentExample | Lane.py:18-43 | With height 500 and the one segment (100, 500)-(300, 300), the left line is that segment and there is no right line. |
| Lane.HorizontalFrameRaises | Lane.py:40-41 | As written, a frame whose only segment is horizontal raises the zero-slope error. |
| Lane.GuardedSideLine | Lane.py:40-41 | With the guard, a side has a line iff it has an average with a non-zero slope. That line is the rebuilt average. |
| Lane.EstimateLaneLines | Lane.py:18-43 | The guarded estimator never raises. The left line is present iff a segment has a negative slope, and the right line is present iff a segment has a positive slope. Each present line is its group's mean fit, rebuilt over the fixed rows. |
| Lane.HorizontalFrameGuarded | Lane.py:40-41 | With the guard, the horizontal-only frame has neither line. |
| Lane.GuardAgreesWhenNoRaise | Lane.py:40-43 | Wherever the estimator as written returns, the guarded estimator returns the same two lines. |
| Line.AverageSlopeIntercept | line.py:16-44 | line.py's estimator, with its explicit if/else averaging, returns exactly what Lane.py's does for every input, errors included. |

## Left out

- `process_image`, `region_of_interest` and `display_lines` (Lane.py:46-71, line.py:47-72) are left out. They only call OpenCV primitives (colour conversion, blur, Canny, `fillPoly`, `bitwise_and`, `line`), which are not part of this model.
- The module-level video loop (Lane.py:74-109, line.py:80-110) is left out. It is video capture, Hough segment detection, compositing and display, which is I/O.
- Floating-point behaviour of `np.polyfit`, `np.average` and the division is not modelled. All arithmetic is exact over `real`, so rounding error is not represented.
- Vertical segments (`x1 == x2`) are excluded by the precondition `AllNonVertical`. There, `np.polyfit` has no exact line to return and its least-squares answer is not specified.
- The `(N, 1, 4)` nesting of the detector's output is flattened to a sequence of segments.
- The frame image is reduced to its height (`shape[0]`), which is a natural number.
- Lane.MakeCoordinates: one error, `ZeroSlope`, stands for both exceptions that a zero slope causes. `int()` raises OverflowError when the quotient is infinite and ValueError when it is undefined.
- Lane.MakeCoordinates: only the length check on the parameters is modelled. Values that have no length at all (a TypeError in Python) cannot be expressed with a sequence of reals.

## Findings

| source | as written | input that shows it | evidently intended | confidence | as-written member | corrected member |
|---|---|---|---|---|---|---|
| Lane.py:40-41 | Over exact arithmetic: every right-group fit may be horizontal. The right average then has slope 0, `make_coordinates` divides by it, `int()` of the result raises, and the exception escapes the frame loop. In floating point, `np.polyfit` may instead return a tiny non-zero slope of either sign for a horizontal segment; then nothing raises, but the rebuilt x is huge and the segment may even be put in the left group. | height 720, segments [(0, 600)-(100, 600)] | That side is reported absent, as it is for an empty group. | medium, not executed | Lane.HorizontalFrameRaises | Lane.EstimateLaneLines |

The same code appears in line.py:41-42. `Lane.AverageSlopeIntercept` models the
code as written. `Lane.EstimateLaneLines` is the guarded version.
`Lane.GuardAgreesWhenNoRaise` shows that the two agree on every frame where the
code as written does not raise.
