/** The threshold chart: choosing the extreme points of the data, scaling
    values onto the plot, and cutting a line into segments at every crossing
    of a fixed level. */
module ThresholdCharts {
  import opened Geometry

  /** The gap kept above the plotted area (`topInset`). */
  const TopInset: real := 20.0

  /** The size of the plot (`CGSize`). */
  datatype Size = Size(width: real, height: real)

  /** The chart's stored state: its data, its threshold and the data points
      with the greatest and least y. */
  datatype Chart = Chart(data: seq<Point>, threshold: real, max: Point, min: Point)

  // ---------------------------------------------------------------------
  // Choosing the extreme points (`init`)

  /** `max(by: { $0.y < $1.y })`: a left-to-right scan that replaces the
      candidate only by a point with strictly greater y, so it keeps the
      first of several equally high points. */
  function HighestY(data: seq<Point>): (m: Point)
    requires data != []
    ensures m in data
    ensures forall k :: 0 <= k < |data| ==> data[k].y <= m.y
    ensures exists j :: 0 <= j < |data| && data[j] == m && forall k :: 0 <= k < j ==> data[k].y < m.y
  {
    if |data| == 1 then data[0]
    else
      var front := data[..|data| - 1];
      var m := HighestY(front);
      assert forall k :: 0 <= k < |front| ==> data[k] == front[k];
      if m.y < Last(data).y then Last(data) else m
  }

  /** `min(by: { $0.y < $1.y })`: keeps the first of several equally low
      points. */
  function LowestY(data: seq<Point>): (m: Point)
    requires data != []
    ensures m in data
    ensures forall k :: 0 <= k < |data| ==> m.y <= data[k].y
    ensures exists j :: 0 <= j < |data| && data[j] == m && forall k :: 0 <= k < j ==> m.y < data[k].y
  {
    if |data| == 1 then data[0]
    else
      var front := data[..|data| - 1];
      var m := LowestY(front);
      assert forall k :: 0 <= k < |front| ==> data[k] == front[k];
      if Last(data).y < m.y then Last(data) else m
  }

  /** The initialiser: without data both extremes are the origin. */
  function Init(data: seq<Point>, threshold: real): (c: Chart)
    ensures c.data == data && c.threshold == threshold
    ensures data == [] ==> c.max == Point(0.0, 0.0) && c.min == Point(0.0, 0.0)
    ensures data != [] ==> c.max in data && c.min in data
    ensures forall k :: 0 <= k < |data| ==> c.min.y <= data[k].y <= c.max.y
    ensures c.min.y <= c.max.y
  {
    if data == [] then Chart(data, threshold, Point(0.0, 0.0), Point(0.0, 0.0))
    else Chart(data, threshold, HighestY(data), LowestY(data))
  }

  // ---------------------------------------------------------------------
  // Scaling onto the plot

  /** `scaleValueOnYAxis`: the least y lands on the bottom of the plot
      (`topInset + height`), the greatest on its top (`topInset`); a chart
      whose extremes share their y puts every value on the bottom. */
  function ScaleValueOnYAxis(c: Chart, value: real, size: Size): (r: real)
    ensures value == c.min.y ==> r == TopInset + size.height
    ensures c.max.y != c.min.y && value == c.max.y ==> r == TopInset
    ensures c.max.y == c.min.y ==> r == TopInset + size.height
  {
    var factor := if c.max.y - c.min.y == 0.0 then 0.0 else size.height / (c.max.y - c.min.y);
    TopInset + size.height - factor * (value - c.min.y)
  }

  /** `scaleValuesOnYAxis`: the same scaling, applied to every value. */
  function ScaleValuesOnYAxis(c: Chart, values: seq<real>, size: Size): (r: seq<real>)
    ensures |r| == |values|
    ensures forall k :: 0 <= k < |values| ==> r[k] == ScaleValueOnYAxis(c, values[k], size)
  {
    var factor := if c.max.y - c.min.y == 0.0 then 0.0 else size.height / (c.max.y - c.min.y);
    seq(|values|, k requires 0 <= k < |values| => TopInset + size.height - factor * (values[k] - c.min.y))
  }

  lemma MulLeMono(f: real, a: real, b: real)
    requires f >= 0.0 && a <= b
    ensures f * a <= f * b
  {
    MulNonneg(f, b - a);
  }

  /** The y scaling turns the value order upside down: a larger value is
      drawn higher up (at a smaller canvas y). */
  lemma ScaleYReversesOrder(c: Chart, size: Size, u: real, v: real)
    requires c.min.y <= c.max.y && size.height >= 0.0 && u <= v
    ensures ScaleValueOnYAxis(c, v, size) <= ScaleValueOnYAxis(c, u, size)
  {
    if c.max.y != c.min.y {
      var factor := size.height / (c.max.y - c.min.y);
      PositiveScale(factor, c.max.y - c.min.y);
      MulLeMono(factor, u - c.min.y, v - c.min.y);
    }
  }

  /** Reading a value back from its canvas y: undoing the scaling factor. */
  function UnscaleY(c: Chart, y: real, size: Size): real
    requires c.max.y != c.min.y && size.height != 0.0
  {
    c.min.y + (TopInset + size.height - y) / (size.height / (c.max.y - c.min.y))
  }

  lemma DivCancel(q: real, f: real, d: real)
    requires f != 0.0 && q == f * d
    ensures q / f == d
  {
  }

  /** Whenever the extremes differ and the plot has height, the y scaling
      loses nothing: reading the canvas y back gives the value. */
  lemma ScaleYRoundTrip(c: Chart, size: Size, v: real)
    requires c.max.y != c.min.y && size.height != 0.0
    ensures UnscaleY(c, ScaleValueOnYAxis(c, v, size), size) == v
  {
    var factor := size.height / (c.max.y - c.min.y);
    var q := TopInset + size.height - ScaleValueOnYAxis(c, v, size);
    assert q == factor * (v - c.min.y);
    assert factor != 0.0;
    DivCancel(q, factor, v - c.min.y);
  }

  /** `scaleValuesOnXAxis`, which scales by the plot's HEIGHT: the x of the
      lowest point lands on 0 and the x of the highest point on
      `size.height`; when the two share their x every value lands on 0. */
  function ScaleValuesOnXAxis(c: Chart, values: seq<real>, size: Size): (r: seq<real>)
    ensures |r| == |values|
    ensures forall k :: 0 <= k < |values| && values[k] == c.min.x ==> r[k] == 0.0
    ensures c.max.x == c.min.x ==> forall k :: 0 <= k < |values| ==> r[k] == 0.0
    ensures c.max.x != c.min.x ==> forall k :: 0 <= k < |values| && values[k] == c.max.x ==> r[k] == size.height
  {
    var width := size.height;
    var factor := if c.max.x - c.min.x == 0.0 then 0.0 else width / (c.max.x - c.min.x);
    seq(|values|, k requires 0 <= k < |values| => factor * (values[k] - c.min.x))
  }

  /** When the highest point lies to the right of the lowest and the plot
      has a non-negative height, the x scaling keeps the order of values. */
  lemma ScaleXKeepsOrder(c: Chart, values: seq<real>, size: Size, i: nat, j: nat)
    requires c.min.x < c.max.x && size.height >= 0.0
    requires i < |values| && j < |values| && values[i] <= values[j]
    ensures ScaleValuesOnXAxis(c, values, size)[i] <= ScaleValuesOnXAxis(c, values, size)[j]
  {
    var factor := size.height / (c.max.x - c.min.x);
    PositiveScale(factor, c.max.x - c.min.x);
    MulLeMono(factor, values[i] - c.min.x, values[j] - c.min.x);
  }

  /** `getZeroValueOnYAxis`: the canvas y of the level, or of the lowest
      point when all the data lies above the level, so the baseline never
      falls below the bottom of the plot. */
  function GetZeroValueOnYAxis(c: Chart, level: real, size: Size): (r: real)
    ensures c.min.y > level ==> r == TopInset + size.height
    ensures c.min.y <= level ==> r == ScaleValueOnYAxis(c, level, size)
    ensures c.min.y <= c.max.y && size.height >= 0.0 ==> r <= TopInset + size.height
  {
    if c.min.y > level then ScaleValueOnYAxis(c, c.min.y, size)
    else
      assert c.min.y <= c.max.y && size.height >= 0.0 ==>
             ScaleValueOnYAxis(c, level, size) <= ScaleValueOnYAxis(c, c.min.y, size) by {
        if c.min.y <= c.max.y && size.height >= 0.0 {
          ScaleYReversesOrder(c, size, c.min.y, level);
        }
      }
      ScaleValueOnYAxis(c, level, size)
  }

  // ---------------------------------------------------------------------
  // Crossing the level

  /** A point exactly at the level counts as being on the upper side. */
  predicate OnUpperSide(p: Point, level: real) {
    p.y >= level
  }

  function UpperSide(level: real): Point -> bool {
    p => OnUpperSide(p, level)
  }

  /** The splitter's crossing test between two consecutive points. */
  predicate Crosses(p: Point, q: Point, level: real) {
    (p.y >= level && q.y < level) || (p.y < level && q.y >= level)
  }

  /** `intersectionWithLevel`: where the line through `p1` and `p2` meets the
      level. The result lies on the level and on that line, and between the
      two points whenever the level lies between their y values. */
  function IntersectionWithLevel(p1: Point, p2: Point, level: real): (r: Point)
    requires p1.y != p2.y
    ensures r.y == level
    ensures (r.x - p1.x) * (p2.y - p1.y) == (level - p1.y) * (p2.x - p1.x)
    ensures Between(level, p1.y, p2.y) ==> Between(r.x, p1.x, p2.x)
  {
    var dy1 := level - p1.y;
    var dy2 := level - p2.y;
    var x := (p2.x * dy1 - p1.x * dy2) / (dy1 - dy2);
    var d := p2.y - p1.y;
    var t := dy1 / d;
    assert dy1 - dy2 == d;
    assert x * d == p2.x * dy1 - p1.x * dy2;
    assert t * d == dy1;
    assert (x - p1.x) * d == dy1 * (p2.x - p1.x);
    assert x == p1.x + t * (p2.x - p1.x) by {
      assert (t * (p2.x - p1.x)) * d == (t * d) * (p2.x - p1.x);
    }
    assert Between(level, p1.y, p2.y) ==> Between(x, p1.x, p2.x) by {
      if Between(level, p1.y, p2.y) {
        assert Between(dy1, 0.0, d);
        QuotientInUnit(dy1, d);
        LerpBetween(p1.x, p2.x, t);
      }
    }
    Point(x, level)
  }

  /** The crossing rule the splitter applies: the crossing point when the
      pair changes side, nothing otherwise. */
  function ThresholdCrossing(level: real): (Point, Point) -> Option<Point> {
    (a, b) => if Crosses(a, b, level) then Some(IntersectionWithLevel(a, b, level)) else None
  }

  /** A crossing pair straddles the level, so its crossing point lies on the
      level between the two points; a pair that does not cross stays on one
      side. */
  lemma ThresholdCrossingMeaning(a: Point, b: Point, level: real)
    ensures ThresholdCrossing(level)(a, b).Some? <==> OnUpperSide(a, level) != OnUpperSide(b, level)
    ensures ThresholdCrossing(level)(a, b).Some? ==>
              ThresholdCrossing(level)(a, b).value.y == level &&
              Between(ThresholdCrossing(level)(a, b).value.x, a.x, b.x)
  {
    if Crosses(a, b, level) {
      assert Between(level, a.y, b.y);
    }
  }

  // ---------------------------------------------------------------------
  // Cutting a line at the level (`segmentLine`)

  /** The splitter's state: the finished segments and the open one. */
  datatype Cut = Cut(segments: seq<seq<Point>>, segment: seq<Point>)

  /** One iteration of the scan, for any crossing rule: the point joins the
      open segment; at a crossing the segment is closed with the crossing
      point, which also opens the next one; the last point closes the open
      segment. */
  function CutStep(line: seq<Point>, cross: (Point, Point) -> Option<Point>, i: nat, st: Cut): Cut
    requires i < |line|
  {
    var segment := st.segment + [line[i]];
    if i < |line| - 1 then
      match cross(line[i], line[i + 1])
      case Some(closing) => Cut(st.segments + [segment + [closing]], [closing])
      case None => Cut(st.segments, segment)
    else Cut(st.segments + [segment], segment)
  }

  /** The state after the first `i` points. */
  function CutUpTo(line: seq<Point>, cross: (Point, Point) -> Option<Point>, i: nat): Cut
    requires i <= |line|
  {
    if i == 0 then Cut([], []) else CutStep(line, cross, i - 1, CutUpTo(line, cross, i - 1))
  }

  /** What `segmentLine` returns. */
  function SegmentsOf(line: seq<Point>, level: real): seq<seq<Point>> {
    CutUpTo(line, ThresholdCrossing(level), |line|).segments
  }

  /** The number of pairs among the first `i` points at which the rule
      reports a crossing. */
  function Cuts(line: seq<Point>, cross: (Point, Point) -> Option<Point>, i: nat): nat
    requires i <= |line|
  {
    if i == 0 then 0
    else Cuts(line, cross, i - 1) + (if i < |line| && cross(line[i - 1], line[i]).Some? then 1 else 0)
  }

  /** The number of consecutive pairs of the line that cross the level. */
  function CrossingCount(line: seq<Point>, level: real): nat {
    if |line| < 2 then 0
    else CrossingCount(line[..|line| - 1], level) + (if Crosses(line[|line| - 2], Last(line), level) then 1 else 0)
  }

  lemma {:induction false} CutsCountCrossings(line: seq<Point>, level: real, i: nat)
    requires i < |line|
    ensures Cuts(line, ThresholdCrossing(level), i) == CrossingCount(line[..i + 1], level)
  {
    if i > 0 {
      CutsCountCrossings(line, level, i - 1);
      var front := line[..i + 1];
      assert front[..i] == line[..i];
      assert front[i - 1] == line[i - 1] && Last(front) == line[i];
    }
  }

  /** First index of the points of segment `k` that came from the line
      (every segment after the first starts with a crossing point). */
  function Start(k: nat): nat {
    if k == 0 then 0 else 1
  }

  /** The points `pts[lo..hi]` all lie on the same side. */
  predicate OneSide(pts: seq<Point>, lo: int, hi: int, up: Point -> bool) {
    forall j1, j2 :: 0 <= lo <= j1 < hi <= |pts| && lo <= j2 < hi ==> up(pts[j1]) == up(pts[j2])
  }

  /** What holds of the state before point `i` is scanned. */
  ghost predicate CutTrace(line: seq<Point>, cross: (Point, Point) -> Option<Point>, i: nat, st: Cut)
    requires i < |line|
  {
    (i == 0 ==> st.segments == [] && st.segment == []) &&
    (i > 0 ==> st.segment != []) &&
    Chained(st.segments + [st.segment]) &&
    Joined(st.segments + [st.segment]) == Positions(RefineUpTo(line, cross, i)) &&
    (forall k :: 0 <= k < |st.segments| ==> |st.segments[k]| >= 2) &&
    |st.segments| == Cuts(line, cross, i)
  }

  /** The side half of the invariant: the original points of every closed
      segment lie on one side, and so do those of the open segment, which
      are on the side of the point about to be scanned. */
  ghost predicate CutSides(line: seq<Point>, cross: (Point, Point) -> Option<Point>, up: Point -> bool, i: nat, st: Cut)
    requires i < |line|
  {
    (forall k :: 0 <= k < |st.segments| ==>
       OneSide(st.segments[k], Start(k), |st.segments[k]| - 1, up)) &&
    Start(|st.segments|) <= |st.segment| &&
    OneSide(st.segment, Start(|st.segments|), |st.segment|, up) &&
    (Start(|st.segments|) < |st.segment| ==> i > 0 && Last(st.segment) == line[i - 1] && up(line[i - 1]) == up(line[i]))
  }

  /** Scanning point `i` without closing a segment extends the joined line by
      that point. */
  lemma TraceAppend(line: seq<Point>, cross: (Point, Point) -> Option<Point>, i: nat, st: Cut)
    requires i < |line| && CutTrace(line, cross, i, st)
    ensures Chained(st.segments + [st.segment + [line[i]]])
    ensures Joined(st.segments + [st.segment + [line[i]]]) ==
            Positions(RefineUpTo(line, cross, i) + [Original(line[i])])
  {
    var r := RefineUpTo(line, cross, i);
    PositionsAppend(r, [Original(line[i])]);
    if st.segment == [] {
      assert st.segment + [line[i]] == [line[i]];
      assert r == [];
    } else {
      JoinedExtend(st.segments, st.segment, [line[i]]);
      ChainedExtend(st.segments, st.segment, [line[i]]);
    }
  }

  /** Scanning point `i` when it does not cross to its successor. */
  lemma TraceKeep(line: seq<Point>, cross: (Point, Point) -> Option<Point>, i: nat, st: Cut)
    requires i + 1 < |line| && CutTrace(line, cross, i, st)
    requires cross(line[i], line[i + 1]).None?
    ensures CutTrace(line, cross, i + 1, Cut(st.segments, st.segment + [line[i]]))
  {
    TraceAppend(line, cross, i, st);
    assert RefineUpTo(line, cross, i + 1) == RefineUpTo(line, cross, i) + [Original(line[i])];
  }

  /** The joined line after a crossing: the closed segment ends with the
      crossing point and the new open segment adds nothing more. */
  lemma JoinClose(pieces: seq<seq<Point>>, segment: seq<Point>, closing: Point)
    requires segment != [] && Chained(pieces + [segment])
    ensures Joined(pieces + [segment + [closing]] + [[closing]]) == Joined(pieces + [segment]) + [closing]
    ensures Chained(pieces + [segment + [closing]] + [[closing]])
  {
    JoinedExtend(pieces, segment, [closing]);
    ChainedExtend(pieces, segment, [closing]);
    JoinedSnoc(pieces + [segment + [closing]], [closing]);
    ChainedPush(pieces, segment + [closing], [closing]);
  }

  /** Scanning point `i` when it crosses to its successor. */
  lemma TraceClose(line: seq<Point>, cross: (Point, Point) -> Option<Point>, i: nat, st: Cut, closing: Point)
    requires i + 1 < |line| && CutTrace(line, cross, i, st)
    requires cross(line[i], line[i + 1]) == Some(closing)
    ensures CutTrace(line, cross, i + 1, Cut(st.segments + [st.segment + [line[i]] + [closing]], [closing]))
  {
    var segment := st.segment + [line[i]];
    var r := RefineUpTo(line, cross, i) + [Original(line[i])];
    TraceAppend(line, cross, i, st);
    JoinClose(st.segments, segment, closing);
    assert RefineUpTo(line, cross, i + 1) == r + [Inserted(closing)];
    PositionsAppend(r, [Inserted(closing)]);
  }

  lemma TraceStep(line: seq<Point>, cross: (Point, Point) -> Option<Point>, i: nat, st: Cut)
    requires i + 1 < |line| && CutTrace(line, cross, i, st)
    ensures CutTrace(line, cross, i + 1, CutStep(line, cross, i, st))
  {
    match cross(line[i], line[i + 1])
    case None => TraceKeep(line, cross, i, st);
    case Some(closing) => TraceClose(line, cross, i, st, closing);
  }

  /** Adding a point on the side of the open segment's originals keeps them
      on one side, whatever follows. */
  lemma OneSideAppend(segment: seq<Point>, p: Point, tail: seq<Point>, lo: nat, up: Point -> bool)
    requires lo <= |segment| && OneSide(segment, lo, |segment|, up)
    requires lo < |segment| ==> up(Last(segment)) == up(p)
    ensures OneSide(segment + [p] + tail, lo, |segment| + 1, up)
  {
    var s := segment + [p] + tail;
    forall j1, j2 | 0 <= lo <= j1 < |segment| + 1 <= |s| && lo <= j2 < |segment| + 1
      ensures up(s[j1]) == up(s[j2])
    {
      if lo < |segment| {
        assert up(s[j1]) == up(Last(segment)) && up(s[j2]) == up(Last(segment));
      }
    }
  }

  lemma SidesStep(line: seq<Point>, cross: (Point, Point) -> Option<Point>, up: Point -> bool, i: nat, st: Cut)
    requires i + 1 < |line| && CutSides(line, cross, up, i, st)
    requires cross(line[i], line[i + 1]).None? ==> up(line[i]) == up(line[i + 1])
    ensures CutSides(line, cross, up, i + 1, CutStep(line, cross, i, st))
  {
    var p := line[i];
    var segment := st.segment + [p];
    var lo := Start(|st.segments|);
    match cross(p, line[i + 1])
    case None =>
      OneSideAppend(st.segment, p, [], lo, up);
      assert segment + [] == segment;
    case Some(closing) =>
      OneSideAppend(st.segment, p, [closing], lo, up);
      assert segment + [closing] == st.segment + [p] + [closing];
      var next := CutStep(line, cross, i, st);
      assert next.segments == st.segments + [segment + [closing]];
      assert forall k :: 0 <= k < |st.segments| ==> next.segments[k] == st.segments[k];
  }

  lemma {:induction false} CutInvariant(line: seq<Point>, cross: (Point, Point) -> Option<Point>, i: nat)
    requires i < |line|
    ensures CutTrace(line, cross, i, CutUpTo(line, cross, i))
  {
    if i > 0 {
      CutInvariant(line, cross, i - 1);
      TraceStep(line, cross, i - 1, CutUpTo(line, cross, i - 1));
    }
  }

  lemma {:induction false} SidesInvariant(line: seq<Point>, cross: (Point, Point) -> Option<Point>, up: Point -> bool, i: nat)
    requires i < |line|
    requires forall a, b :: cross(a, b).None? ==> up(a) == up(b)
    ensures CutSides(line, cross, up, i, CutUpTo(line, cross, i))
  {
    if i > 0 {
      SidesInvariant(line, cross, up, i - 1);
      SidesStep(line, cross, up, i - 1, CutUpTo(line, cross, i - 1));
    }
  }

  /** For any crossing rule: the segments share their boundary points, lay
      end to end into the refined line, have at least two points each once
      the line does, and number one more than the crossings. */
  lemma CutsTraceLine(line: seq<Point>, cross: (Point, Point) -> Option<Point>)
    requires line != []
    ensures Chained(CutUpTo(line, cross, |line|).segments)
    ensures Joined(CutUpTo(line, cross, |line|).segments) == Positions(Refine(line, cross))
    ensures |line| >= 2 ==> forall k :: 0 <= k < |CutUpTo(line, cross, |line|).segments| ==>
              |CutUpTo(line, cross, |line|).segments[k]| >= 2
    ensures |CutUpTo(line, cross, |line|).segments| == Cuts(line, cross, |line|) + 1
  {
    var n := |line|;
    var st := CutUpTo(line, cross, n - 1);
    CutInvariant(line, cross, n - 1);
    TraceAppend(line, cross, n - 1, st);
    assert RefineUpTo(line, cross, n) == RefineUpTo(line, cross, n - 1) + [Original(line[n - 1])];
  }

  /** For any crossing rule and any side classification that does not change
      between two points without a crossing: the original points of each
      segment lie on one side. */
  lemma CutsKeepSides(line: seq<Point>, cross: (Point, Point) -> Option<Point>, up: Point -> bool)
    requires line != []
    requires forall a, b :: cross(a, b).None? ==> up(a) == up(b)
    ensures forall k :: 0 <= k < |CutUpTo(line, cross, |line|).segments| ==>
              OneSide(CutUpTo(line, cross, |line|).segments[k], Start(k),
                      if k == |CutUpTo(line, cross, |line|).segments| - 1
                      then |CutUpTo(line, cross, |line|).segments[k]|
                      else |CutUpTo(line, cross, |line|).segments[k]| - 1, up)
  {
    var n := |line|;
    var st := CutUpTo(line, cross, n - 1);
    SidesInvariant(line, cross, up, n - 1);
    OneSideAppend(st.segment, line[n - 1], [], Start(|st.segments|), up);
    var last := st.segment + [line[n - 1]];
    assert last + [] == last;
    var segments := CutUpTo(line, cross, n).segments;
    assert segments == st.segments + [last];
    assert forall k :: 0 <= k < |st.segments| ==> segments[k] == st.segments[k];
  }

  /** Before the last point is visited, every closed segment was closed by
      a crossing, so it ends with the closing point on the level. */
  lemma {:induction false} ClosedSegmentsEndOnLevel(line: seq<Point>, level: real, i: nat)
    requires i < |line|
    ensures forall k :: 0 <= k < |CutUpTo(line, ThresholdCrossing(level), i).segments| ==>
              CutUpTo(line, ThresholdCrossing(level), i).segments[k] != [] &&
              Last(CutUpTo(line, ThresholdCrossing(level), i).segments[k]).y == level
  {
    if i > 0 {
      ClosedSegmentsEndOnLevel(line, level, i - 1);
      ThresholdCrossingMeaning(line[i - 1], line[i], level);
    }
  }

  /** `segmentLine` on an empty line returns nothing; otherwise it returns
      one segment more than there are crossings, every segment but the last
      ends with its closing crossing point on the level, the next segment
      starts with that same point, and every segment has at least two
      points once the line does. */
  lemma SegmentCount(line: seq<Point>, level: real)
    ensures line == [] ==> SegmentsOf(line, level) == []
    ensures line != [] ==> |SegmentsOf(line, level)| == CrossingCount(line, level) + 1
    ensures Chained(SegmentsOf(line, level))
    ensures |line| >= 2 ==> forall k :: 0 <= k < |SegmentsOf(line, level)| ==> |SegmentsOf(line, level)[k]| >= 2
    ensures forall k :: 0 <= k < |SegmentsOf(line, level)| - 1 ==>
              SegmentsOf(line, level)[k] != [] && Last(SegmentsOf(line, level)[k]).y == level
  {
    if line != [] {
      CutsTraceLine(line, ThresholdCrossing(level));
      CutsCountCrossings(line, level, |line| - 1);
      assert line[..|line|] == line;
      ClosedSegmentsEndOnLevel(line, level, |line| - 1);
      var before := CutUpTo(line, ThresholdCrossing(level), |line| - 1);
      assert SegmentsOf(line, level) == before.segments + [before.segment + [Last(line)]];
    }
  }

  /** Dropping the inserted crossing points from the joined segments gives
      back the line: no point is lost, duplicated or reordered, and every
      inserted point is the crossing point of the pair it sits between. */
  lemma SegmentsRejoinLine(line: seq<Point>, level: real)
    ensures Joined(SegmentsOf(line, level)) == Positions(Refine(line, ThresholdCrossing(level)))
    ensures Originals(Refine(line, ThresholdCrossing(level))) == line
  {
    if line != [] {
      CutsTraceLine(line, ThresholdCrossing(level));
    }
    OriginalsOfRefine(line, ThresholdCrossing(level));
  }

  /** With the `>= level` rule, the original points of every segment lie
      on one side of the level: the interior points of a closed segment,
      and all but the first point of the last one (the first segment has
      no leading crossing point). */
  lemma SegmentsKeepOneSide(line: seq<Point>, level: real)
    requires line != []
    ensures forall k :: 0 <= k < |SegmentsOf(line, level)| ==>
              OneSide(SegmentsOf(line, level)[k], Start(k),
                      if k == |SegmentsOf(line, level)| - 1
                      then |SegmentsOf(line, level)[k]|
                      else |SegmentsOf(line, level)[k]| - 1, UpperSide(level))
  {
    forall a, b | ThresholdCrossing(level)(a, b).None?
      ensures UpperSide(level)(a) == UpperSide(level)(b)
    {
      ThresholdCrossingMeaning(a, b, level);
    }
    CutsKeepSides(line, ThresholdCrossing(level), UpperSide(level));
  }

  /** `segmentLine`. */
  method SegmentLine(line: seq<Point>, level: real) returns (segments: seq<seq<Point>>)
    ensures segments == SegmentsOf(line, level)
  {
    segments := [];
    var segment: seq<Point> := [];
    var i := 0;
    while i < |line|
      invariant i <= |line|
      invariant Cut(segments, segment) == CutUpTo(line, ThresholdCrossing(level), i)
    {
      var point := line[i];
      segment := segment + [point];
      if i < |line| - 1 {
        var nextPoint := line[i + 1];
        if (point.y >= level && nextPoint.y < level) || (point.y < level && nextPoint.y >= level) {
          var closingPoint := IntersectionWithLevel(point, nextPoint, level);
          segment := segment + [closingPoint];
          segments := segments + [segment];
          segment := [closingPoint];
        }
      } else {
        segments := segments + [segment];
      }
      i := i + 1;
    }
  }
}
