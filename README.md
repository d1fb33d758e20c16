# MarketsWidgetKit sparkline and threshold-chart geometry, in Dafny

This project models the geometry behind the market widgets of MarketsWidgetKit. It has three parts.

- **`Sparkline`** (`sparkline.dfy`) covers the above/below-average sparkline:
  - `layoutPoints` maps a series of prices and a canvas size to screen points and the screen y of the average line.
  - `intersection` finds where a segment meets a horizontal level.
  - `splitChunks` cuts the polyline into runs above and below the average line. It uses a 1e-9 tolerance and inserts the crossing point at every side change.
  - `coloredSegments` colours every pair of neighbouring points.
  - The fill polygons are built from the chunks.
  - The drawing as a whole is `Draw`.
- **`ThresholdCharts`** (`threshold_charts.dfy`) covers the threshold chart:
  - `init` picks the lowest and highest point by y.
  - `segmentLine` cuts a line into segments at every crossing of a level, with a `>= level` side rule.
  - `intersectionWithLevel` gives the crossing point.
  - The affine x and y scaling helpers and the baseline `getZeroValueOnYAxis`.
- **`Animation`** (`animatable_vector.dfy`) covers `AnimatableVector`, the variable-length vector behind the animations:
  - component-wise `+` and `-`, which trap on a length mismatch;
  - in-place `scale(by:)`, the subscript, `average`, `magnitudeSquared`, `zero` and `==`.
- **`Geometry`** (`geometry.dfy`) holds what the three share:
  - points and the sum/mean/min/max of a series;
  - a *refined line*: the input points, each followed by the crossing point inserted after it, if any;
  - *joining* a list of pieces that share their boundary points.

  Both splitting algorithms are proved against these two notions. Concatenating the pieces, each boundary point once, gives back the refined line. Removing the inserted points from the refined line gives back the input in order.

`Double` and `CGFloat` are modelled as `real`, and the 1e-9 tolerance is the constant `Sparkline.Eps`. The loops of the source are methods with loop invariants: `splitChunks`, `coloredSegments`, the fill construction, `segmentLine` and `scale(by:)`. Each method is proved equal to a specification function. The properties are lemmas about those functions.

## Model

| member | source | states |
|---|---|---|
| Geometry.Sum | MarketWidgets/Sparkline.swift:216 | the left-to-right sum that `reduce(0, +)` computes: 0 for the empty series, otherwise the sum of all but the last value plus the last |
| Geometry.Mean | MarketWidgets/Sparkline.swift:213-217 | the average of an empty series is 0; otherwise average times count is the sum of the values |
| Geometry.MeanBounds | MarketWidgets/Sparkline.swift:213-217 | the average of a non-empty series lies between any lower and upper bound of its values |
| Geometry.SumBounds | MarketWidgets/Sparkline.swift:213-217 | the sum of n values bounded by lo and hi lies between n·lo and n·hi |
| Geometry.Min | MarketWidgets/Sparkline.swift:94 | `values.min()` is one of the values and no value is smaller |
| Geometry.Max | MarketWidgets/Sparkline.swift:95 | `values.max()` is one of the values and no value is larger |
| Geometry.OriginalsOfRefine | MarketWidgets/ThresholdCharts.swift:128-144 | removing the inserted crossing points from a refined line gives back the input line, in order, nothing lost or duplicated |
| Geometry.OriginalsOfRefineUpTo | MarketWidgets/ThresholdCharts.swift:128-144 | the same, for every prefix of the scan |
| Geometry.InsertedAreCrossings | MarketWidgets/Sparkline.swift:160-165 | every inserted point of a refined line is the crossing point of some pair of neighbouring input points |
| Geometry.RefineEnds | MarketWidgets/Sparkline.swift:141-144 | a refined prefix starts with the first input point and is at least as long as the prefix |
| Geometry.OriginalsAppend | MarketWidgets/ThresholdCharts.swift:128-144 | dropping inserted points distributes over concatenation |
| Sparkline.ScreenY | MarketWidgets/Sparkline.swift:100-103 | `y(for:)`: the least value lands on the bottom edge (y = height) and a value one span above it on the top edge (y = 0) |
| Sparkline.Span | MarketWidgets/Sparkline.swift:94-96 | the span is max − min when that is at least 1e-9, and exactly 1e-9 otherwise: always positive and never below max − min |
| Sparkline.LayoutPoints | MarketWidgets/Sparkline.swift:91-109 | one point per value; empty input puts the average line at height/2; a single value sits at x = 0; otherwise x·(count−1) = i·width; x strictly increases when width > 0 |
| Sparkline.Columns | MarketWidgets/Sparkline.swift:98-107 | the column x positions: count of them, 0 for a single value, evenly spaced so that the last is at width, strictly increasing for a positive width |
| Sparkline.ScreenYReversesOrder | MarketWidgets/Sparkline.swift:100-103 | for a positive height, a larger value lands strictly higher on screen (smaller y), and equal values exactly on equal y, both directions |
| Sparkline.LayoutSidesMatchValues | MarketWidgets/Sparkline.swift:100-108 | a value is above, below or equal to the average exactly when its point is above, below or on the average line on screen |
| Sparkline.LayoutWithinCanvas | MarketWidgets/Sparkline.swift:94-108 | the least value lands on the bottom edge, and every point and the average line stay within 0..height |
| Sparkline.LayoutFlatSeries | MarketWidgets/Sparkline.swift:94-108 | for a flat series the span floor puts every point and the average line at y = height |
| Sparkline.Intersection | MarketWidgets/Sparkline.swift:113-119 | nil exactly when \|dy\| < 1e-9 or the level is not between the two y values; otherwise the point lies on the level, between the two x values, on the line through the pair |
| Sparkline.SideOf | MarketWidgets/Sparkline.swift:129-133 | `side(_:)`: `.on` exactly when y lies within 1e-9 of the average line; `.above` only for a y smaller than the line's, `.below` only for a larger one |
| Sparkline.StraddlingPairCrosses | MarketWidgets/Sparkline.swift:159-170 | a pair strictly on opposite sides always has a crossing point, so the "parallel near-average" fallback is never taken for it |
| Sparkline.Opened | MarketWidgets/Sparkline.swift:141-144 | defined as: when no chunk is open, open one with the pair's first point, on that point's side, or on the next point's side when the first is on the line; otherwise change nothing |
| Sparkline.Advance | MarketWidgets/Sparkline.swift:146-171 | defined as the body of the loop for one pair: extend, or land on the line, push and restart from the line point; restart from an on-line first point; or push at the crossing point and restart from it on the other side; with no crossing point, extend |
| Sparkline.Flush | MarketWidgets/Sparkline.swift:174-178 | defined as: after the loop, push a chunk of two points or more to the list of its side, and drop it when its side is still `.on` |
| Sparkline.Split | MarketWidgets/Sparkline.swift:121-181 | defined as the whole scan: one `Opened`/`Advance` pass per pair from the empty state, then `Flush` |
| Sparkline.TracedIsRefined | MarketWidgets/Sparkline.swift:160-165 | the points the scan visits, with crossing points inserted where the side flips, are exactly the refined line |
| Sparkline.TraceOpened | MarketWidgets/Sparkline.swift:141-144 | opening a chunk with the pair's first point keeps the chunk-trace invariant |
| Sparkline.TraceLand | MarketWidgets/Sparkline.swift:146-154 | landing on the line closes the chunk and restarts from the line point; the pushed chunks still join into the visited line |
| Sparkline.TraceAlong | MarketWidgets/Sparkline.swift:146-148 | continuing on one side extends the open chunk and keeps the invariant |
| Sparkline.TraceCross | MarketWidgets/Sparkline.swift:155-171 | leaving the line or crossing it (closing at the crossing point and restarting from it) keeps the invariant |
| Sparkline.TraceStep | MarketWidgets/Sparkline.swift:137-172 | one iteration of the loop keeps the chunk-trace invariant |
| Sparkline.ScanTrace | MarketWidgets/Sparkline.swift:137-172 | after any number of iterations the pushed chunks plus the open one join into the visited prefix of the refined line, each new chunk starting at the point that closed the previous one |
| Sparkline.ShapeOpened | MarketWidgets/Sparkline.swift:141-144 | an opened chunk takes its side from its first point, or from the next point when the first is on the line |
| Sparkline.ShapeLand | MarketWidgets/Sparkline.swift:146-154 | a chunk closed on the line is pushed to the list of its side (to `below` when its side is still `.on`) |
| Sparkline.ShapeAlong | MarketWidgets/Sparkline.swift:146-148 | continuing on one side keeps every inner point of the open chunk strictly on its side |
| Sparkline.ShapeCross | MarketWidgets/Sparkline.swift:155-171 | a crossing pushes a chunk that is pure for its side and flips the side of the new chunk |
| Sparkline.ShapeStep | MarketWidgets/Sparkline.swift:137-172 | one iteration keeps every pushed chunk at two points or more and pure for its list's side |
| Sparkline.ScanShape | MarketWidgets/Sparkline.swift:137-172 | the side-purity invariant holds after any number of iterations |
| Sparkline.SplitRunsArePure | MarketWidgets/Sparkline.swift:121-181 | `above` and `below` are the pushed chunks of each side, in order; every chunk has at least two points, and every point except possibly the first and last lies strictly on its list's side |
| Sparkline.ScanEnd | MarketWidgets/Sparkline.swift:174-178 | at the end of the loop an open chunk of two points or more has a definite side; a shorter one is just the last point, already pushed |
| Sparkline.FlushPushes | MarketWidgets/Sparkline.swift:174-176 | pushing the final chunk completes the join into the whole refined line |
| Sparkline.FlushDrops | MarketWidgets/Sparkline.swift:174-177 | dropping a trailing one-point chunk loses no point of the line |
| Sparkline.FlushKeepsTrace | MarketWidgets/Sparkline.swift:174-178 | after the final flush the chunks, in push order, share their boundary points and join into the whole refined line |
| Sparkline.FlushTrace | MarketWidgets/Sparkline.swift:121-181 | the same, stated on the result of the whole scan |
| Sparkline.EndsOnStep | MarketWidgets/Sparkline.swift:146-166 | a pass pushes a chunk only when it lands on the line or closes it at the crossing point, so every pushed chunk still ends on the line |
| Sparkline.PushedEndOn | MarketWidgets/Sparkline.swift:137-172 | before the final flush, every chunk pushed so far ends at a point on the average line |
| Sparkline.SplitRunsMeetOnLine | MarketWidgets/Sparkline.swift:146-178 | every chunk but the last ends at a point on the average line (a point it landed on or the crossing point) |
| Sparkline.SplitRunsTraceLine | MarketWidgets/Sparkline.swift:121-181 | the chunks, in push order, share their boundary points, each shared point lies on the average line, and together they join into the series with every crossing point of the average line inserted; with `SplitRunsArePure` each chunk is a maximal run on one side |
| Sparkline.SplitDegenerate | MarketWidgets/Sparkline.swift:135-178 | a single point gives no chunks; a series entirely on the line gives no above chunk and one below chunk per pair |
| Sparkline.SplitChunks | MarketWidgets/Sparkline.swift:121-181 | the loop returns exactly the above and below lists of the scan specification |
| Sparkline.PairStrokes | MarketWidgets/Sparkline.swift:188-205 | one pair contributes at most two segments, each on its list's side of the line; a pair strictly on one side gives exactly one segment, which draws it in full; a strictly straddling pair is stroked in full; every stroke end point lies on the line through the pair, so a straddling pair is split at its crossing point; a pair is either drawn in full or gets no stroke, and it gets none exactly when it is not strictly on one side and either has no crossing point or starts exactly on the line |
| Sparkline.PairFromLineIsDropped | MarketWidgets/Sparkline.swift:197-205 | a pair starting exactly on the average line and leaving it contributes no stroke at all (see Findings) |
| Sparkline.PairIntoBandIsDropped | MarketWidgets/Sparkline.swift:195-205 | a pair whose first point lies within the 1e-9 band on the same side as its strictly-off second point contributes no stroke, because there is no crossing (see Findings) |
| Sparkline.PairAlongLineIsDropped | MarketWidgets/Sparkline.swift:195-205 | a pair lying exactly on the average line contributes no stroke, so a flat series has no line (see Findings) |
| Sparkline.PairOntoLine | MarketWidgets/Sparkline.swift:197-204 | a pair arriving on the line from below is stroked in full, plus a zero-length above piece at the line point; the corrected colouring keeps exactly these strokes |
| Sparkline.PairLeavingBand | MarketWidgets/Sparkline.swift:195-200 | a pair leaving the 1e-9 band on the upper side for a point strictly below is split at its crossing point, above half then below half; the corrected colouring keeps exactly these strokes |
| Sparkline.RisingSeriesStats | MarketWidgets/Sparkline.swift:213-217 | the series 1, 2, 3 has min 1, max 3 and average 2 |
| Sparkline.RisingSeriesLayout | MarketWidgets/Sparkline.swift:91-109 | on a 2×2 canvas the series 1, 2, 3 lays out at (0,2), (1,1), (2,0), with the average line at y = 1 |
| Sparkline.TouchAndLeave | MarketWidgets/Sparkline.swift:188-206 | for three points that touch the line in the middle and leave it, only the first half of the line is stroked |
| Sparkline.RisingSeriesLosesItsSecondHalf | MarketWidgets/Sparkline.swift:188-206 | for the rising series 1, 2, 3 on a 2×2 canvas, the segment from (1,1) to (2,0) is never stroked |
| Sparkline.StrokesUpTo | MarketWidgets/Sparkline.swift:188-206 | defined as the strokes of the first i pairs: each colour's list of the first i − 1 pairs followed by that colour's strokes of pair i |
| Sparkline.StrokesKeepSides | MarketWidgets/Sparkline.swift:188-207 | for any per-pair colouring that keeps sides and emits at most two pieces, the whole stroke list keeps sides and has at most 2·(pairs) pieces |
| Sparkline.ColouredStrokesKeepSides | MarketWidgets/Sparkline.swift:183-208 | every above piece lies on or above the line and every below piece on or below it; at most two pieces per pair |
| Sparkline.ColoredSegments | MarketWidgets/Sparkline.swift:183-208 | the loop returns exactly the per-pair strokes of `PairStrokes`, in order |
| Sparkline.ColourPair | MarketWidgets/Sparkline.swift:189-205 | one loop iteration appends exactly that pair's strokes to each list |
| Sparkline.CorrectedPairStrokes | MarketWidgets/Sparkline.swift:195-205 | corrected colouring: every pair is stroked in full; above pieces never reach below the line and below pieces never above it; every end point lies on the line through the pair; a pair the source drops is drawn whole in the above colour when a point is strictly above, in the below colour otherwise |
| Sparkline.CorrectedAgreesWhenDrawn | MarketWidgets/Sparkline.swift:195-205 | wherever the source strokes a pair in full, the corrected colouring gives exactly the same pieces; on every other pair the source gives no stroke at all |
| Sparkline.AboveFill | MarketWidgets/Sparkline.swift:40-47 | defined as the chunk's points, then the point on the average line under its last point, then the one under its first point |
| Sparkline.BelowFill | MarketWidgets/Sparkline.swift:57-63 | defined as the point on the average line under the chunk's first point, the chunk's points, then the point on the line under its last point |
| Sparkline.FillsAreOnePolygon | MarketWidgets/Sparkline.swift:38-63 | the above and below polygons of a chunk are the same closed polygon, rotated by one vertex: the chunk plus its two feet on the average line (not the floor) |
| Sparkline.FillPath | MarketWidgets/Sparkline.swift:38-63 | the path loop builds exactly the polygon of the chunk, above or below form |
| Sparkline.FillsOf | MarketWidgets/Sparkline.swift:38-66 | the fill list never has more polygons than chunks |
| Sparkline.FillsOfSoundChunks | MarketWidgets/Sparkline.swift:38-66 | when every chunk has two points or more, no chunk is skipped and the k-th fill is the polygon of the k-th chunk |
| Sparkline.FillPolygons | MarketWidgets/Sparkline.swift:38-66 | the fill loop returns exactly the fill list specification |
| Sparkline.SplitRunsAllFilled | MarketWidgets/Sparkline.swift:34-66 | every chunk `splitChunks` emits gets a fill polygon |
| Sparkline.Draw | MarketWidgets/Sparkline.swift:16-87 | nothing is drawn for fewer than two values; otherwise the average line spans the canvas at the average's y, there is one fill per chunk, and the strokes are the corrected colouring of every pair, which equals the source's strokes on every pair the source draws |
| ThresholdCharts.HighestY | MarketWidgets/ThresholdCharts.swift:56 | `max(by:)` on y: a point of the data, no point higher, and the first of the highest |
| ThresholdCharts.LowestY | MarketWidgets/ThresholdCharts.swift:57 | `min(by:)` on y: a point of the data, no point lower, and the first of the lowest |
| ThresholdCharts.Init | MarketWidgets/ThresholdCharts.swift:53-58 | min and max are (0,0) for empty data, otherwise points of the data bounding every y |
| ThresholdCharts.ScaleValueOnYAxis | MarketWidgets/ThresholdCharts.swift:183-194 | min.y maps to topInset + height, max.y to topInset; a flat chart maps everything to topInset + height |
| ThresholdCharts.ScaleValuesOnYAxis | MarketWidgets/ThresholdCharts.swift:169-181 | the element-wise map of the single-value scaling |
| ThresholdCharts.ScaleYReversesOrder | MarketWidgets/ThresholdCharts.swift:183-194 | a larger value never lands lower on screen |
| ThresholdCharts.ScaleYRoundTrip | MarketWidgets/ThresholdCharts.swift:183-194 | for a non-flat chart and a non-zero height, the scaling is invertible: unscaling the result gives back the value |
| ThresholdCharts.ScaleValuesOnXAxis | MarketWidgets/ThresholdCharts.swift:154-166 | min.x maps to 0 and max.x to `size.height` (the height stands in for the width); a chart with equal x extremes maps everything to 0 |
| ThresholdCharts.ScaleXKeepsOrder | MarketWidgets/ThresholdCharts.swift:154-166 | when min.x < max.x, x scaling keeps the order of values |
| ThresholdCharts.GetZeroValueOnYAxis | MarketWidgets/ThresholdCharts.swift:196-202 | the scaled min.y (the bottom, topInset + height) when all data lies above the level, the scaled level otherwise; never below the bottom |
| ThresholdCharts.IntersectionWithLevel | MarketWidgets/ThresholdCharts.swift:148-152 | the point lies on the level and on the line through the pair, between their x values when the level is between their y values |
| ThresholdCharts.ThresholdCrossingMeaning | MarketWidgets/ThresholdCharts.swift:132-134 | a pair gets a closing point exactly when its points lie on different sides of the `>= level` rule, and that point is on the level, between their x values |
| ThresholdCharts.CutStep | MarketWidgets/ThresholdCharts.swift:128-144 | defined as one `forEach` iteration for any crossing rule: append the point; at a crossing close the segment with the crossing point and restart from it; at the last point push the open segment |
| ThresholdCharts.SegmentsOf | MarketWidgets/ThresholdCharts.swift:124-146 | defined as the finished segments after one `CutStep` per point, with the `>= level` crossing rule and `intersectionWithLevel` |
| ThresholdCharts.CutsCountCrossings | MarketWidgets/ThresholdCharts.swift:128-144 | the number of closed segments after visiting a point is the number of crossings up to it |
| ThresholdCharts.TraceAppend | MarketWidgets/ThresholdCharts.swift:129 | appending the visited point extends the join by that point |
| ThresholdCharts.TraceKeep | MarketWidgets/ThresholdCharts.swift:129-132 | a step without a crossing keeps the segment-trace invariant |
| ThresholdCharts.TraceClose | MarketWidgets/ThresholdCharts.swift:132-139 | closing at the crossing point and restarting from it keeps the invariant and counts one more crossing |
| ThresholdCharts.TraceStep | MarketWidgets/ThresholdCharts.swift:128-144 | one iteration keeps the segment-trace invariant |
| ThresholdCharts.CutInvariant | MarketWidgets/ThresholdCharts.swift:128-144 | after any prefix the segments share boundary points, join into the refined prefix, have two points or more when closed, and number the crossings seen |
| ThresholdCharts.SidesStep | MarketWidgets/ThresholdCharts.swift:128-144 | one iteration keeps every original point of a segment on one side |
| ThresholdCharts.SidesInvariant | MarketWidgets/ThresholdCharts.swift:128-144 | the one-side invariant holds after any prefix |
| ThresholdCharts.CutsTraceLine | MarketWidgets/ThresholdCharts.swift:124-146 | for any crossing rule: the segments share boundary points, join into the refined line, have at least two points, and number the crossings plus one |
| ThresholdCharts.CutsKeepSides | MarketWidgets/ThresholdCharts.swift:124-146 | for any crossing rule that only lets same-side pairs through, the original points in each segment lie on one side |
| ThresholdCharts.SegmentCount | MarketWidgets/ThresholdCharts.swift:124-146 | no segments for an empty line; otherwise crossings + 1 of them, each with two points or more once the line has two; every segment but the last ends with a closing point on the level, and the next segment starts with that same point |
| ThresholdCharts.ClosedSegmentsEndOnLevel | MarketWidgets/ThresholdCharts.swift:132-138 | before the last point is visited, every closed segment ends with its closing crossing point, which lies on the level |
| ThresholdCharts.SegmentsRejoinLine | MarketWidgets/ThresholdCharts.swift:128-144 | joining the segments gives the line with each crossing point inserted, and removing those gives back the line in order |
| ThresholdCharts.SegmentsKeepOneSide | MarketWidgets/ThresholdCharts.swift:132 | all original points within one segment lie on the same side, with a point at the level counting as upper |
| ThresholdCharts.SegmentLine | MarketWidgets/ThresholdCharts.swift:124-146 | the loop returns exactly the segments of the cut specification |
| Animation.Add | MarketWidgets/AnimatableVector.swift:46-49 | for equal lengths, the result has that length and is the component-wise sum |
| Animation.Subtract | MarketWidgets/AnimatableVector.swift:51-54 | for equal lengths, the result has that length and is the component-wise difference |
| Animation.AddThenSubtract | MarketWidgets/AnimatableVector.swift:46-54 | (a + b) − b == a for vectors of equal length |
| Animation.AddCommutes | MarketWidgets/AnimatableVector.swift:46-49 | a + b == b + a |
| Animation.Scaled | MarketWidgets/AnimatableVector.swift:56-58 | scaling keeps the length and multiplies each component by k |
| Animation.ScaledLaws | MarketWidgets/AnimatableVector.swift:56-58 | scaling by 1 changes nothing, scaling `zero` leaves it `zero`, and scaling distributes over `+` |
| Animation.ZeroAddsOnlyToEmpty | MarketWidgets/AnimatableVector.swift:44-47 | `zero + v` meets the precondition exactly when v is empty, and then gives `zero` |
| Animation.SumOfSquares | MarketWidgets/AnimatableVector.swift:60-62 | defined as the left-to-right `reduce(0) { $0 + $1*$1 }`: 0 for the empty vector, otherwise the sum of squares of all but the last component plus the last one squared |
| Animation.SumOfSquaresNonneg | MarketWidgets/AnimatableVector.swift:60-62 | a sum of squares is never negative |
| Animation.SumOfSquaresZero | MarketWidgets/AnimatableVector.swift:60-62 | a sum of squares is zero exactly when every component is zero |
| Animation.AnimatableVector.constructor | MarketWidgets/AnimatableVector.swift:22-24 | the vector holds the given components |
| Animation.AnimatableVector.Set | MarketWidgets/AnimatableVector.swift:28-33 | the subscript setter changes component `index` to the new value, keeps every other component and the count |
| Animation.AnimatableVector.Average | MarketWidgets/AnimatableVector.swift:35-38 | 0 for the empty vector, otherwise average times count is the sum of components |
| Animation.AnimatableVector.MagnitudeSquared | MarketWidgets/AnimatableVector.swift:60-62 | never negative, and zero exactly when every component is zero |
| Animation.AnimatableVector.Scale | MarketWidgets/AnimatableVector.swift:56-58 | in place, the components become the old components each times k, the length unchanged |
| Animation.Zero | MarketWidgets/AnimatableVector.swift:44 | a fresh vector with no components |
| Animation.Plus | MarketWidgets/AnimatableVector.swift:46-49 | requires equal lengths (the precondition) and gives a fresh vector holding the component-wise sum |
| Animation.Minus | MarketWidgets/AnimatableVector.swift:51-54 | requires equal lengths (the precondition) and gives a fresh vector holding the component-wise difference |

## Left out

- SwiftUI drawing is not modelled: `GeometryReader`, `Canvas`/`Path` stroking, stroke styles, dashes, colours and opacities. `Sparkline.Draw` returns the geometry it would stroke and fill as a value.
- In the threshold chart, the whole `body` is left out (MarketWidgets/ThresholdCharts.swift:60-123). It covers the gradients, the `fraction` mask animation and the per-segment colour choice of the area chart.
- `Sparkline.Draw` uses one canvas size for both the layout (`geo.size`) and the average line (`sz.width`), because both come from the same view.
- Floating-point rounding is not modelled. Every `Double`/`CGFloat` is a `real`, and 1e-9 is the constant `Sparkline.Eps`. Claims that depend on exact arithmetic, such as the crossing point lying exactly on the line, hold for reals only.
- `AnimatableVector.shuffled()` is not modelled, because it depends on a random permutation.
- Three initialisers are not modelled: the `Double`→`CGFloat` `init`, the `CGFloat` public `init` and the array-literal `init` (MarketWidgets/AnimatableVector.swift:14-20, 68-72). They only convert or copy their argument, which the constructor already models.
- `Animation.AnimatableVector`: the source type is a value-semantic struct, and the model is a class. Aliasing between two variables holding the same vector is not captured. `Plus`, `Minus` and `Zero` return fresh objects, which plays the role of copying.
- The `count` and subscript getter (`Animation.AnimatableVector.Count`/`Get`) and `==` (`Animation.AnimatableVector.Equals`) are read-only accessors without contracts of their own. Their behaviour appears in the contracts of `Set`, `Scale` and the lemmas. `Get` and `Animation.AnimatableVector.Set` require `0 <= index < count`: the Swift subscript traps on an index out of range (MarketWidgets/AnimatableVector.swift:30-33), and the trap is not modelled.
- The `minOrZero`/`maxOrZero` extension (MarketWidgets/ThresholdCharts.swift:205-212) is not used by the modelled code and is not modelled.
- `ThresholdCharts.IntersectionWithLevel` requires `p1.y != p2.y`. For equal y values the source divides `dy1 * (p2.x - p1.x)` by zero. That gives an infinite x in general, and NaN when the level equals that y or the two x values are equal. Every caller in the source is guarded by the crossing test, which implies the y values differ.
- `ThresholdCharts.HighestY`/`ThresholdCharts.LowestY`: the tie rule, that the first of several equal extremes wins, follows the sequential scan of `max(by:)`/`min(by:)`. The standard library's code is not part of this model.
- `Sparkline.SplitChunks` and `Sparkline.ColoredSegments` require a non-empty series. On an empty series the source's range `0..<(points.count - 1)` traps. Its only caller guards with `points.count >= 2`.
- The demo views, the widget timeline, the formatting helpers, persistence and the other repository files are outside the modelled core.

## Findings

| source | as written | input that shows it | evidently intended | confidence | as-written member | corrected member |
|---|---|---|---|---|---|---|
| MarketWidgets/Sparkline.swift:195-205 | A pair that is not strictly on one side is dropped exactly when `intersection` returns nil or its first point lies exactly on the line; otherwise it is stroked in full. If the first point lies exactly on the line, `intersection` returns that very point, and then neither `a.y < avgY` nor `a.y > avgY` holds, so nothing is appended. If a point lies within the 1e-9 band on the same side as the other point, the level is not between the two y values, so `intersection` is nil. A pair lying along the line (dy = 0) also gets nil. | The series 1, 2, 3 on a 2×2 canvas lays out at (0,2), (1,1), (2,0) with the average line at y = 1. The segment from (1,1) to (2,0) is never stroked. A flat series such as 5, 5, 5 has every point on the line and gets no stroke at all. | Every pair of neighbouring points is stroked. Every pair the source strokes keeps its strokes. A pair it drops is coloured by the side of its point off the line, and a pair along the line is drawn as below, as on-line chunks are. | not executed | Sparkline.PairStrokes, Sparkline.PairFromLineIsDropped, Sparkline.PairIntoBandIsDropped, Sparkline.PairAlongLineIsDropped, Sparkline.RisingSeriesLosesItsSecondHalf | Sparkline.CorrectedPairStrokes (used by Sparkline.Draw), Sparkline.CorrectedAgreesWhenDrawn |
