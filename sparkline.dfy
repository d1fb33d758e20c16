/** The above/below-average sparkline: laying a series out on the canvas,
    cutting the polyline into runs above and below the average line,
    colouring each stroke piece and building the fill polygons. */
module Sparkline {
  import opened Geometry

  /** The tolerance used for the span floor, for "parallel to the line" and
      for "on the average line". */
  const Eps: real := 0.000000001

  function Abs(v: real): real {
    if v < 0.0 then -v else v
  }

  // ---------------------------------------------------------------------
  // Layout (`layoutPoints` and the `average` helper)

  /** The laid-out series: one canvas point per value, and the canvas y of
      the average line. */
  datatype Layout = Layout(points: seq<Point>, avgY: real)

  /** Canvas y of a value: the least value lands on the bottom edge
      `height`, larger values higher up (smaller y). */
  function ScreenY(v: real, minV: real, span: real, height: real): (y: real)
    requires span > 0.0
    ensures v == minV ==> y == height
    ensures v == minV + span ==> y == 0.0
  {
    (1.0 - (v - minV) / span) * height
  }

  /** The value span, floored at `Eps` so that a flat series does not
      divide by zero. */
  function Span(values: seq<real>): (span: real)
    requires values != []
    ensures span > 0.0 && span >= Max(values) - Min(values)
    ensures span >= Eps && (span == Max(values) - Min(values) || span == Eps)
  {
    if Max(values) - Min(values) >= Eps then Max(values) - Min(values) else Eps
  }

  /** `layoutPoints(values:in:avg:)`: points spread evenly from x = 0 to
      x = width, y from the value; an empty series has no points and its
      average line at mid-height. */
  function LayoutPoints(values: seq<real>, width: real, height: real, avg: real): (r: Layout)
    ensures |r.points| == |values|
    ensures values == [] ==> r.avgY == height / 2.0
    ensures |values| == 1 ==> r.points[0].x == 0.0
    ensures |values| > 1 ==> forall i :: 0 <= i < |values| ==>
      r.points[i].x * (|values| - 1) as real == i as real * width
    ensures width > 0.0 ==> forall i, j :: 0 <= i < j < |values| ==> r.points[i].x < r.points[j].x
  {
    if values == [] then Layout([], height / 2.0)
    else
      var n := |values|;
      var minV := Min(values);
      var span := Span(values);
      var xs := Columns(n, width);
      var pts := seq(n, i requires 0 <= i < n => Point(xs[i], ScreenY(values[i], minV, span, height)));
      Layout(pts, ScreenY(avg, minV, span, height))
  }

  /** The x of each of `n` columns `stepX = width / (n - 1)` apart: column
      `k` sits at `k / (n - 1)` of the width, a single column at 0, and the
      columns increase strictly when the width is positive. */
  function Columns(n: nat, width: real): (xs: seq<real>)
    ensures |xs| == n
    ensures n == 1 ==> xs[0] == 0.0
    ensures n > 1 ==> forall k :: 0 <= k < n ==> xs[k] * (n - 1) as real == k as real * width
    ensures width > 0.0 ==> forall i, j :: 0 <= i < j < n ==> xs[i] < xs[j]
  {
    var stepX := if n > 1 then width / (n - 1) as real else 0.0;
    var xs := seq(n, k requires 0 <= k < n => k as real * stepX);
    EvenlySpaced(xs, stepX, width);
    xs
  }

  lemma EvenlySpaced(xs: seq<real>, stepX: real, width: real)
    requires |xs| > 1 ==> stepX == width / (|xs| - 1) as real
    requires forall k :: 0 <= k < |xs| ==> xs[k] == k as real * stepX
    ensures |xs| > 1 ==> forall k :: 0 <= k < |xs| ==> xs[k] * (|xs| - 1) as real == k as real * width
    ensures width > 0.0 ==> forall i, j :: 0 <= i < j < |xs| ==> xs[i] < xs[j]
  {
    if |xs| <= 1 {
      return;
    }
    var d := (|xs| - 1) as real;
    assert stepX * d == width;
    forall k | 0 <= k < |xs|
      ensures xs[k] * d == k as real * width
    {
      assert xs[k] * d == k as real * (stepX * d);
    }
    if width > 0.0 {
      forall i, j | 0 <= i < j < |xs|
        ensures xs[i] < xs[j]
      {
        ScaledOrder(xs[i], xs[j], d, i as real, j as real, width);
      }
    }
  }

  lemma ScaledOrder(xi: real, xj: real, d: real, a: real, b: real, w: real)
    requires d > 0.0 && w > 0.0 && a < b
    requires xi * d == a * w && xj * d == b * w
    ensures xi < xj
  {
    assert (xj - xi) * d == (b - a) * w;
    MulPos(b - a, w);
    PositiveScale(xj - xi, d);
  }

  /** On a canvas of positive height, value order is reversed exactly in
      screen y. */
  lemma ScreenYReversesOrder(u: real, v: real, minV: real, span: real, height: real)
    requires span > 0.0 && height > 0.0
    ensures u < v <==> ScreenY(u, minV, span, height) > ScreenY(v, minV, span, height)
    ensures u == v <==> ScreenY(u, minV, span, height) == ScreenY(v, minV, span, height)
  {
    var tu, tv := (u - minV) / span, (v - minV) / span;
    assert tu * span == u - minV && tv * span == v - minV;
    assert (tv - tu) * span == v - u;
    PositiveScale(tv - tu, span);
    PositiveScale(tu - tv, span);
    assert ScreenY(u, minV, span, height) - ScreenY(v, minV, span, height) == (tv - tu) * height;
    PositiveScale(tv - tu, height);
    PositiveScale(tu - tv, height);
  }

  /** A point is drawn above the average line exactly when its value is
      above the average, and on it exactly when the value equals it. */
  lemma LayoutSidesMatchValues(values: seq<real>, width: real, height: real, avg: real, i: nat)
    requires height > 0.0 && i < |values|
    ensures var r := LayoutPoints(values, width, height, avg);
      && (values[i] > avg <==> r.points[i].y < r.avgY)
      && (values[i] < avg <==> r.points[i].y > r.avgY)
      && (values[i] == avg <==> r.points[i].y == r.avgY)
  {
    ScreenYReversesOrder(values[i], avg, Min(values), Span(values), height);
    ScreenYReversesOrder(avg, values[i], Min(values), Span(values), height);
  }

  /** The least value sits on the bottom edge and every point lies within
      the canvas height; so does the average line when `avg` is the mean. */
  lemma LayoutWithinCanvas(values: seq<real>, width: real, height: real, i: nat)
    requires height >= 0.0 && i < |values|
    ensures var r := LayoutPoints(values, width, height, Mean(values));
      && (values[i] == Min(values) ==> r.points[i].y == height)
      && 0.0 <= r.points[i].y <= height
      && 0.0 <= r.avgY <= height
  {
    var minV, span := Min(values), Span(values);
    UnitScreenY(values[i], minV, span, height);
    MeanBounds(values, minV, Max(values));
    UnitScreenY(Mean(values), minV, span, height);
  }

  lemma UnitScreenY(v: real, minV: real, span: real, height: real)
    requires span > 0.0 && height >= 0.0 && minV <= v <= minV + span
    ensures 0.0 <= ScreenY(v, minV, span, height) <= height
  {
    var t := (v - minV) / span;
    assert t * span == v - minV;
    QuotientInUnit(v - minV, span);
    MulNonneg(1.0 - t, height);
    MulNonneg(t, height);
    assert (1.0 - t) * height == height - t * height;
  }

  /** A flat series lies entirely on the bottom edge, and so does its
      average line: the `Eps` span floor keeps the layout defined. */
  lemma LayoutFlatSeries(values: seq<real>, width: real, height: real, c: real)
    requires values != [] && forall k :: 0 <= k < |values| ==> values[k] == c
    ensures var r := LayoutPoints(values, width, height, Mean(values));
      && r.avgY == height
      && forall k :: 0 <= k < |values| ==> r.points[k].y == height
  {
    MeanBounds(values, c, c);
    assert Min(values) == c;
  }

  // ---------------------------------------------------------------------
  // Crossing point of a segment with a horizontal level (`intersection`)

  /** Where the segment p1-p2 meets the horizontal line y = level, if it
      does: none when the segment is (nearly) horizontal or the level is
      outside its vertical extent. */
  function Intersection(p1: Point, p2: Point, level: real): (r: Option<Point>)
    ensures r.None? <==> Abs(p2.y - p1.y) < Eps || !Between(level, p1.y, p2.y)
    ensures r.Some? ==> r.value.y == level && Between(r.value.x, p1.x, p2.x)
    ensures r.Some? ==> (r.value.x - p1.x) * (p2.y - p1.y) == (level - p1.y) * (p2.x - p1.x)
  {
    var dy := p2.y - p1.y;
    if Abs(dy) < Eps then None
    else
      var t := (level - p1.y) / dy;
      QuotientInUnit(level - p1.y, dy);
      assert Between(level - p1.y, 0.0, dy) <==> Between(level, p1.y, p2.y);
      if t >= 0.0 && t <= 1.0 then
        LerpBetween(p1.x, p2.x, t);
        assert t * dy == level - p1.y;
        assert (t * (p2.x - p1.x)) * dy == (t * dy) * (p2.x - p1.x);
        Some(Point(p1.x + t * (p2.x - p1.x), level))
      else None
  }

  // ---------------------------------------------------------------------
  // Cutting the polyline into runs above and below the average (`splitChunks`)

  /** Where a canvas y lies relative to the average line; smaller y is
      higher on the canvas, so `Above` means y < avgY - Eps. */
  datatype Side = Above | Below | On

  function SideOf(y: real, avgY: real): (r: Side)
    ensures r == On <==> avgY - Eps <= y <= avgY + Eps
    ensures r == Above ==> y < avgY
    ensures r == Below ==> y > avgY
  {
    if y < avgY - Eps then Above else if y > avgY + Eps then Below else On
  }

  predicate Opposite(s: Side, t: Side) {
    (s == Above && t == Below) || (s == Below && t == Above)
  }

  /** Two points strictly on opposite sides of the line are more than
      2 * Eps apart in y and have the line between them, so `intersection`
      never returns nil for them: the "parallel" fallback of the splitter's
      crossing branch is unreachable. */
  lemma StraddlingPairCrosses(a: Point, b: Point, avgY: real)
    requires Opposite(SideOf(a.y, avgY), SideOf(b.y, avgY))
    ensures Intersection(a, b, avgY).Some?
    ensures Abs(b.y - a.y) > 2.0 * Eps
  {
  }

  /** The sparkline's crossing rule: a crossing point goes between two
      consecutive points that lie strictly on opposite sides. */
  function MeanCrossing(avgY: real): (Point, Point) -> Option<Point> {
    (a: Point, b: Point) =>
      if Opposite(SideOf(a.y, avgY), SideOf(b.y, avgY)) then Intersection(a, b, avgY) else None
  }

  /** A chunk as the splitter pushed it, with the list it went to. */
  datatype Chunk = Chunk(isAbove: bool, points: seq<Point>)

  function Runs(order: seq<Chunk>): (r: seq<seq<Point>>)
    ensures |r| == |order|
  {
    if order == [] then [] else Runs(order[..|order| - 1]) + [Last(order).points]
  }

  lemma RunsSnoc(order: seq<Chunk>, c: Chunk)
    ensures Runs(order + [c]) == Runs(order) + [c.points]
  {
    assert (order + [c])[..|order|] == order;
  }

  /** The chunks pushed to one of the two lists, in order. */
  function Pieces(order: seq<Chunk>, isAbove: bool): seq<seq<Point>> {
    if order == [] then []
    else Pieces(order[..|order| - 1], isAbove) + (if Last(order).isAbove == isAbove then [Last(order).points] else [])
  }

  lemma PiecesSnoc(order: seq<Chunk>, c: Chunk, isAbove: bool)
    ensures Pieces(order + [c], isAbove) == Pieces(order, isAbove) + (if c.isAbove == isAbove then [c.points] else [])
  {
    assert (order + [c])[..|order|] == order;
  }

  /** Every point of the run lies on side `s` or on the line, and every
      point strictly inside the run lies on side `s`. */
  predicate Pure(run: seq<Point>, s: Side, avgY: real) {
    && (forall j :: 0 <= j < |run| ==> SideOf(run[j].y, avgY) == s || SideOf(run[j].y, avgY) == On)
    && (forall j :: 0 < j < |run| - 1 ==> SideOf(run[j].y, avgY) == s)
  }

  /** An open run: its first point on side `s` or on the line, every later
      point strictly on side `s`. */
  predicate Leading(run: seq<Point>, s: Side, avgY: real) {
    && run != []
    && (SideOf(run[0].y, avgY) == s || SideOf(run[0].y, avgY) == On)
    && (forall j :: 0 < j < |run| ==> SideOf(run[j].y, avgY) == s)
  }

  predicate AllOn(points: seq<Point>, avgY: real) {
    forall k :: 0 <= k < |points| ==> SideOf(points[k].y, avgY) == On
  }


  /** A pushed run: two points or more, inner points strictly on its list's side. */
  ghost predicate Sound(c: Chunk, avgY: real) {
    |c.points| >= 2 && Pure(c.points, if c.isAbove then Above else Below, avgY)
  }

  /** The first `i` points, each followed by the crossing point with the
      average line when it and its successor lie on opposite sides: the
      refined line of `MeanCrossing`, spelled out for this one crossing rule. */
  function Traced(points: seq<Point>, avgY: real, i: nat): seq<Point>
    requires i <= |points|
  {
    if i == 0 then []
    else
      Traced(points, avgY, i - 1) + [points[i - 1]] +
      (if i < |points| && Opposite(SideOf(points[i - 1].y, avgY), SideOf(points[i].y, avgY))
       then [Intersection(points[i - 1], points[i], avgY).value]
       else [])
  }

  lemma {:induction false} TracedIsRefined(points: seq<Point>, avgY: real, i: nat)
    requires i <= |points|
    ensures Traced(points, avgY, i) == Positions(RefineUpTo(points, MeanCrossing(avgY), i))
  {
    if i > 0 {
      var f := MeanCrossing(avgY);
      var prev := RefineUpTo(points, f, i - 1);
      var mid := [Original(points[i - 1])];
      var tail := if i < |points| && f(points[i - 1], points[i]).Some?
                  then [Inserted(f(points[i - 1], points[i]).value)] else [];
      var extra := if i < |points| && Opposite(SideOf(points[i - 1].y, avgY), SideOf(points[i].y, avgY))
                   then [Intersection(points[i - 1], points[i], avgY).value] else [];
      assert Positions(tail) == extra;
      calc {
        Positions(RefineUpTo(points, f, i));
        Positions(prev + mid + tail);
        { PositionsAppend(prev + mid, tail); PositionsAppend(prev, mid); }
        Positions(prev) + Positions(mid) + Positions(tail);
        { TracedIsRefined(points, avgY, i - 1); }
        Traced(points, avgY, i - 1) + [points[i - 1]] + extra;
      }
    }
  }

  // ---------------------------------------------------------------------
  // The scan as a fold over the point pairs

  /** The variables of `splitChunks`: the two output lists, the runs in the
      order they were pushed, the open run and its side. */
  datatype Scan = Scan(above: seq<seq<Point>>, below: seq<seq<Point>>, order: seq<Chunk>,
                       current: seq<Point>, side: Side)

  /** Pushes a finished run to `above` when it is on the above side and to
      `below` otherwise. */
  function Push(s: Scan, run: seq<Point>, side: Side): Scan {
    Scan(if side == Above then s.above + [run] else s.above,
         if side == Above then s.below else s.below + [run],
         s.order + [Chunk(side == Above, run)], s.current, s.side)
  }

  /** Opens a run at points[i] when none is open, on the side of points[i]
      or, when that point is on the line, of points[i + 1]. */
  function Opened(points: seq<Point>, avgY: real, i: nat, s: Scan): Scan
    requires i + 1 < |points|
  {
    if s.current == [] then
      var sa, sb := SideOf(points[i].y, avgY), SideOf(points[i + 1].y, avgY);
      s.(current := [points[i]], side := if sa == On then sb else sa)
    else s
  }

  /** Examines the pair (points[i], points[i + 1]) with a run open. */
  function Advance(points: seq<Point>, avgY: real, i: nat, s: Scan): Scan
    requires i + 1 < |points|
  {
    var a, b := points[i], points[i + 1];
    var sa, sb := SideOf(a.y, avgY), SideOf(b.y, avgY);
    if sa == sb || sb == On then
      var run := s.current + [b];
      if sb == On then Push(s, run, s.side).(current := [b], side := On)
      else s.(current := run)
    else if sa == On then s.(current := [a, b], side := sb)
    else
      match Intersection(a, b, avgY)
      case Some(x) =>
        Push(s, s.current + [x], s.side).(current := [x, b], side := if s.side == Above then Below else Above)
      case None => s.(current := s.current + [b])
  }

  /** The state after the first `i` passes of the loop. */
  function ScanUpTo(points: seq<Point>, avgY: real, i: nat): Scan
    requires i < |points|
  {
    if i == 0 then Start
    else Advance(points, avgY, i - 1, Opened(points, avgY, i - 1, ScanUpTo(points, avgY, i - 1)))
  }

  /** After the loop the open run is pushed when it has two points or more
      and lies on a side; a run still on the line is dropped. */
  function Flush(s: Scan): Scan {
    if |s.current| >= 2 then
      if s.side == Above then Push(s, s.current, Above)
      else if s.side == Below then Push(s, s.current, Below)
      else s
    else s
  }

  /** The whole scan of `splitChunks`. */
  function Split(points: seq<Point>, avgY: real): Scan
    requires |points| > 0
  {
    Flush(ScanUpTo(points, avgY, |points| - 1))
  }

  /** The output lists are the pushed runs of each side, and every pushed
      run is sound. */
  ghost predicate Lists(s: Scan, avgY: real) {
    && s.above == Pieces(s.order, true) && s.below == Pieces(s.order, false)
    && (forall k :: 0 <= k < |s.order| ==> Sound(s.order[k], avgY))
  }

  lemma PushKeeps(s: Scan, run: seq<Point>, side: Side, avgY: real)
    requires Lists(s, avgY) && Sound(Chunk(side == Above, run), avgY)
    ensures Lists(Push(s, run, side), avgY)
  {
    PiecesSnoc(s.order, Chunk(side == Above, run), true);
    PiecesSnoc(s.order, Chunk(side == Above, run), false);
  }

  lemma PiecesSound(order: seq<Chunk>, avgY: real, isAbove: bool)
    requires forall k :: 0 <= k < |order| ==> Sound(order[k], avgY)
    ensures forall c :: c in Pieces(order, isAbove) ==>
      |c| >= 2 && Pure(c, if isAbove then Above else Below, avgY)
  {
    if order != [] {
      PiecesSound(order[..|order| - 1], avgY, isAbove);
    }
  }

  const Start := Scan([], [], [], [], On)

  /** A point on the line keeps a series from lying entirely on it. */
  lemma NotAllOn(points: seq<Point>, avgY: real, k: nat)
    requires k < |points| && SideOf(points[k].y, avgY) != On
    ensures !AllOn(points, avgY)
  {
  }

  // ---------------------------------------------------------------------
  // What the scan keeps: the trace of the runs

  /** The runs pushed so far followed by the open run are chained and, laid
      end to end, trace the refined line up to points[i]. */
  ghost predicate Trace(points: seq<Point>, avgY: real, i: nat, order: seq<Chunk>, current: seq<Point>)
    requires i < |points|
  {
    && current != [] && Last(current) == points[i]
    && Chained(Runs(order) + [current])
    && Joined(Runs(order) + [current]) == Traced(points, avgY, i) + [points[i]]
  }

  /** Growing the open run by the points the refined line adds for the
      next pair keeps the trace. */
  lemma TraceExtend(points: seq<Point>, avgY: real, i: nat, order: seq<Chunk>, current: seq<Point>, d: seq<Point>)
    requires i + 1 < |points| && Trace(points, avgY, i, order, current)
    requires d != [] && Last(d) == points[i + 1]
    requires Traced(points, avgY, i + 1) + [points[i + 1]] == Traced(points, avgY, i) + [points[i]] + d
    ensures Trace(points, avgY, i + 1, order, current + d)
  {
    JoinedExtend(Runs(order), current, d);
    ChainedExtend(Runs(order), current, d);
  }

  /** Closing the open run with the points `e` and opening `next` from the
      last of them keeps the trace. */
  lemma TracePush(points: seq<Point>, avgY: real, i: nat, order: seq<Chunk>, current: seq<Point>,
                  e: seq<Point>, tag: bool, next: seq<Point>)
    requires i + 1 < |points| && Trace(points, avgY, i, order, current)
    requires e != [] && next != [] && next[0] == Last(e) && Last(next) == points[i + 1]
    requires Traced(points, avgY, i + 1) + [points[i + 1]] == Traced(points, avgY, i) + [points[i]] + e + next[1..]
    ensures Trace(points, avgY, i + 1, order + [Chunk(tag, current + e)], next)
  {
    var runs, c := Runs(order), current + e;
    JoinedExtend(runs, current, e);
    ChainedExtend(runs, current, e);
    RunsSnoc(order, Chunk(tag, c));
    JoinedSnoc(runs + [c], next);
    ChainedPush(runs, c, next);
    assert Drop1(next) == next[1..];
  }

  /** The trace half of the scan's invariant after `i` passes (`i > 0`),
      and also once a run is open for the pair starting at points[i]. */
  ghost predicate TraceAt(points: seq<Point>, avgY: real, i: nat, s: Scan)
    requires i < |points|
  {
    && Trace(points, avgY, i, s.order, s.current)
    && (SideOf(points[i].y, avgY) == On ==> s.current == [points[i]] && (i > 0 ==> s.order != []))
    && (SideOf(points[i].y, avgY) != On && i > 0 ==> |s.current| >= 2)
  }

  lemma TraceOpened(points: seq<Point>, avgY: real, i: nat, s: Scan)
    requires i + 1 < |points|
    requires i == 0 ==> s == Start
    requires i > 0 ==> TraceAt(points, avgY, i, s)
    ensures TraceAt(points, avgY, i, Opened(points, avgY, i, s))
  {
    if i == 0 {
      assert Runs([]) + [[points[0]]] == [[points[0]]];
    }
  }

  lemma TraceLand(points: seq<Point>, avgY: real, i: nat, s: Scan)
    requires i + 1 < |points| && TraceAt(points, avgY, i, s)
    requires SideOf(points[i + 1].y, avgY) == On
    ensures TraceAt(points, avgY, i + 1, Advance(points, avgY, i, s))
  {
    var b := points[i + 1];
    assert Traced(points, avgY, i + 1) == Traced(points, avgY, i) + [points[i]];
    assert [b][1..] == [];
    TracePush(points, avgY, i, s.order, s.current, [b], s.side == Above, [b]);
  }

  lemma TraceAlong(points: seq<Point>, avgY: real, i: nat, s: Scan)
    requires i + 1 < |points| && TraceAt(points, avgY, i, s)
    requires SideOf(points[i + 1].y, avgY) != On
    requires !Opposite(SideOf(points[i].y, avgY), SideOf(points[i + 1].y, avgY))
    ensures TraceAt(points, avgY, i + 1, Advance(points, avgY, i, s))
  {
    assert Traced(points, avgY, i + 1) == Traced(points, avgY, i) + [points[i]];
    if SideOf(points[i].y, avgY) == On {
      assert [points[i], points[i + 1]] == s.current + [points[i + 1]];
    }
    TraceExtend(points, avgY, i, s.order, s.current, [points[i + 1]]);
  }

  lemma TraceCross(points: seq<Point>, avgY: real, i: nat, s: Scan)
    requires i + 1 < |points| && TraceAt(points, avgY, i, s)
    requires Opposite(SideOf(points[i].y, avgY), SideOf(points[i + 1].y, avgY))
    ensures TraceAt(points, avgY, i + 1, Advance(points, avgY, i, s))
  {
    var b := points[i + 1];
    var x := Intersection(points[i], b, avgY).value;
    assert Traced(points, avgY, i + 1) == Traced(points, avgY, i) + [points[i], x];
    assert [x, b][1..] == [b];
    TracePush(points, avgY, i, s.order, s.current, [x], s.side == Above, [x, b]);
  }

  /** One pass keeps the trace half. */
  lemma TraceStep(points: seq<Point>, avgY: real, i: nat, o: Scan)
    requires i + 1 < |points| && TraceAt(points, avgY, i, o)
    ensures TraceAt(points, avgY, i + 1, Advance(points, avgY, i, o))
  {
    var sa, sb := SideOf(points[i].y, avgY), SideOf(points[i + 1].y, avgY);
    if sb == On {
      TraceLand(points, avgY, i, o);
    } else if Opposite(sa, sb) {
      TraceCross(points, avgY, i, o);
    } else {
      TraceAlong(points, avgY, i, o);
    }
  }

  /** The trace half holds after every pass. */
  lemma {:induction false} ScanTrace(points: seq<Point>, avgY: real, i: nat)
    requires 0 < i < |points|
    ensures TraceAt(points, avgY, i, ScanUpTo(points, avgY, i))
  {
    var prev := ScanUpTo(points, avgY, i - 1);
    if i > 1 {
      ScanTrace(points, avgY, i - 1);
    }
    TraceOpened(points, avgY, i - 1, prev);
    var o := Opened(points, avgY, i - 1, prev);
    TraceStep(points, avgY, i - 1, o);
    assert ScanUpTo(points, avgY, i) == Advance(points, avgY, i - 1, o);
  }

  // ---------------------------------------------------------------------
  // What the scan keeps: the sides of the runs

  /** The side half of the scan's invariant after `i` passes (`i > 0`). */
  ghost predicate ShapeAt(points: seq<Point>, avgY: real, i: nat, s: Scan)
    requires i < |points|
  {
    && Lists(s, avgY)
    && (SideOf(points[i].y, avgY) == On ==> s.current == [points[i]] && s.side == On)
    && (SideOf(points[i].y, avgY) != On ==>
          s.side == SideOf(points[i].y, avgY) && Leading(s.current, s.side, avgY))
    && (AllOn(points, avgY) ==> s.above == [] && |s.below| == i)
  }

  /** The side half once a run is open for the pair starting at points[i]. */
  ghost predicate ShapeReady(points: seq<Point>, avgY: real, i: nat, s: Scan)
    requires i + 1 < |points|
  {
    var a, sa, sb := points[i], SideOf(points[i].y, avgY), SideOf(points[i + 1].y, avgY);
    && Lists(s, avgY)
    && (sa == On ==> s.current == [a] && (sb == On ==> s.side == On))
    && (sa != On ==> s.side == sa && Leading(s.current, sa, avgY))
    && (AllOn(points, avgY) ==> s.above == [] && |s.below| == i)
  }

  lemma ShapeOpened(points: seq<Point>, avgY: real, i: nat, s: Scan)
    requires i + 1 < |points|
    requires i == 0 ==> s == Start
    requires i > 0 ==> ShapeAt(points, avgY, i, s)
    ensures ShapeReady(points, avgY, i, Opened(points, avgY, i, s))
  {
  }

  /** A run open on side `s` and closed at a point on the line is sound. */
  lemma LeadingCloses(run: seq<Point>, s: Side, p: Point, avgY: real)
    requires s != On && Leading(run, s, avgY) && SideOf(p.y, avgY) == On
    ensures Pure(run + [p], s, avgY)
  {
  }

  lemma ShapeLand(points: seq<Point>, avgY: real, i: nat, s: Scan)
    requires i + 1 < |points| && ShapeReady(points, avgY, i, s)
    requires SideOf(points[i + 1].y, avgY) == On
    ensures ShapeAt(points, avgY, i + 1, Advance(points, avgY, i, s))
  {
    var a, b := points[i], points[i + 1];
    if SideOf(a.y, avgY) == On {
      assert s.current + [b] == [a, b];
    } else {
      LeadingCloses(s.current, s.side, b, avgY);
    }
    PushKeeps(s, s.current + [b], s.side, avgY);
  }

  lemma ShapeAlong(points: seq<Point>, avgY: real, i: nat, s: Scan)
    requires i + 1 < |points| && ShapeReady(points, avgY, i, s)
    requires SideOf(points[i + 1].y, avgY) != On
    requires !Opposite(SideOf(points[i].y, avgY), SideOf(points[i + 1].y, avgY))
    ensures ShapeAt(points, avgY, i + 1, Advance(points, avgY, i, s))
  {
    NotAllOn(points, avgY, i + 1);
  }

  lemma ShapeCross(points: seq<Point>, avgY: real, i: nat, s: Scan)
    requires i + 1 < |points| && ShapeReady(points, avgY, i, s)
    requires Opposite(SideOf(points[i].y, avgY), SideOf(points[i + 1].y, avgY))
    ensures ShapeAt(points, avgY, i + 1, Advance(points, avgY, i, s))
  {
    var x := Intersection(points[i], points[i + 1], avgY).value;
    LeadingCloses(s.current, s.side, x, avgY);
    PushKeeps(s, s.current + [x], s.side, avgY);
    NotAllOn(points, avgY, i + 1);
  }

  /** One pass keeps the side half. */
  lemma ShapeStep(points: seq<Point>, avgY: real, i: nat, o: Scan)
    requires i + 1 < |points| && ShapeReady(points, avgY, i, o)
    ensures ShapeAt(points, avgY, i + 1, Advance(points, avgY, i, o))
  {
    var sa, sb := SideOf(points[i].y, avgY), SideOf(points[i + 1].y, avgY);
    if sb == On {
      ShapeLand(points, avgY, i, o);
    } else if Opposite(sa, sb) {
      ShapeCross(points, avgY, i, o);
    } else {
      ShapeAlong(points, avgY, i, o);
    }
  }

  /** The side half holds after every pass. */
  lemma {:induction false} ScanShape(points: seq<Point>, avgY: real, i: nat)
    requires 0 < i < |points|
    ensures ShapeAt(points, avgY, i, ScanUpTo(points, avgY, i))
  {
    var prev := ScanUpTo(points, avgY, i - 1);
    if i > 1 {
      ScanShape(points, avgY, i - 1);
    }
    ShapeOpened(points, avgY, i - 1, prev);
    var o := Opened(points, avgY, i - 1, prev);
    ShapeStep(points, avgY, i - 1, o);
    assert ScanUpTo(points, avgY, i) == Advance(points, avgY, i - 1, o);
  }

  // ---------------------------------------------------------------------
  // What `splitChunks` returns

  /** The pushed runs of `splitChunks` are sound: two points or more each,
      inner points strictly on the run's side, end points on that side or on
      the line; `above` and `below` are the runs of each side in push order. */
  lemma SplitRunsArePure(points: seq<Point>, avgY: real)
    requires |points| > 0
    ensures var r := Split(points, avgY);
      && r.above == Pieces(r.order, true) && r.below == Pieces(r.order, false)
      && (forall c :: c in r.above ==> |c| >= 2 && Pure(c, Above, avgY))
      && (forall c :: c in r.below ==> |c| >= 2 && Pure(c, Below, avgY))
  {
    var n := |points|;
    var s := ScanUpTo(points, avgY, n - 1);
    if n > 1 {
      ScanShape(points, avgY, n - 1);
      if |s.current| >= 2 && s.side != On {
        assert Pure(s.current, s.side, avgY);
        PushKeeps(s, s.current, s.side, avgY);
      }
    }
    PiecesSound(Split(points, avgY).order, avgY, true);
    PiecesSound(Split(points, avgY).order, avgY, false);
  }

  /** Pushing the open run after the last pass completes the trace. */
  lemma FlushPushes(points: seq<Point>, avgY: real, s: Scan)
    requires |points| >= 2 && Trace(points, avgY, |points| - 1, s.order, s.current)
    ensures Chained(Runs(s.order + [Chunk(s.side == Above, s.current)]))
    ensures Joined(Runs(s.order + [Chunk(s.side == Above, s.current)])) == Traced(points, avgY, |points|)
  {
    assert Traced(points, avgY, |points|) == Traced(points, avgY, |points| - 1) + [Last(points)];
    RunsSnoc(s.order, Chunk(s.side == Above, s.current));
  }

  /** Dropping an open run made of the last point alone completes the trace. */
  lemma FlushDrops(points: seq<Point>, avgY: real, s: Scan)
    requires |points| >= 2 && Trace(points, avgY, |points| - 1, s.order, s.current)
    requires s.current == [Last(points)] && s.order != []
    ensures Chained(Runs(s.order))
    ensures Joined(Runs(s.order)) == Traced(points, avgY, |points|)
  {
    assert Traced(points, avgY, |points|) == Traced(points, avgY, |points| - 1) + [Last(points)];
    JoinedSnoc(Runs(s.order), s.current);
    ChainedPrefix(Runs(s.order), s.current);
  }

  /** What the scan leaves behind after its last pass: an open run of two
      points or more lies on a side; a shorter one is the last point alone,
      on the line, after at least one pushed run. */
  lemma ScanEnd(points: seq<Point>, avgY: real, s: Scan)
    requires |points| >= 2
    requires TraceAt(points, avgY, |points| - 1, s) && ShapeAt(points, avgY, |points| - 1, s)
    ensures |s.current| >= 2 ==> s.side != On
    ensures |s.current| < 2 ==> s.current == [Last(points)] && s.order != []
  {
  }

  /** Flushing the state left by the last pass completes the trace. */
  lemma FlushKeepsTrace(points: seq<Point>, avgY: real, s: Scan)
    requires |points| >= 2
    requires TraceAt(points, avgY, |points| - 1, s) && ShapeAt(points, avgY, |points| - 1, s)
    ensures Chained(Runs(Flush(s).order))
    ensures Joined(Runs(Flush(s).order)) == Traced(points, avgY, |points|)
  {
    ScanEnd(points, avgY, s);
    if |s.current| >= 2 {
      assert Flush(s).order == s.order + [Chunk(s.side == Above, s.current)];
      FlushPushes(points, avgY, s);
    } else {
      FlushDrops(points, avgY, s);
    }
  }

  /** The runs pushed by the whole scan trace the refined line. */
  lemma FlushTrace(points: seq<Point>, avgY: real)
    requires |points| >= 2
    ensures Chained(Runs(Split(points, avgY).order))
    ensures Joined(Runs(Split(points, avgY).order)) == Traced(points, avgY, |points|)
  {
    ScanTrace(points, avgY, |points| - 1);
    ScanShape(points, avgY, |points| - 1);
    FlushKeepsTrace(points, avgY, ScanUpTo(points, avgY, |points| - 1));
  }

  /** Every run pushed so far ends at a point on the average line. */
  ghost predicate EndsOn(order: seq<Chunk>, avgY: real) {
    forall k :: 0 <= k < |order| ==> order[k].points != [] && SideOf(Last(order[k].points).y, avgY) == On
  }

  /** A pass pushes a run only when it lands on the line or crosses it,
      and the crossing point lies on the line. */
  lemma EndsOnStep(points: seq<Point>, avgY: real, i: nat, s: Scan)
    requires i + 1 < |points| && EndsOn(s.order, avgY)
    ensures EndsOn(Advance(points, avgY, i, Opened(points, avgY, i, s)).order, avgY)
  {
  }

  /** Before the final flush, every pushed run ends on the line. */
  lemma {:induction false} PushedEndOn(points: seq<Point>, avgY: real, i: nat)
    requires i < |points|
    ensures EndsOn(ScanUpTo(points, avgY, i).order, avgY)
  {
    if i > 0 {
      PushedEndOn(points, avgY, i - 1);
      EndsOnStep(points, avgY, i - 1, ScanUpTo(points, avgY, i - 1));
    }
  }

  lemma {:induction false} RunsOf(order: seq<Chunk>)
    ensures forall k :: 0 <= k < |order| ==> Runs(order)[k] == order[k].points
  {
    if order != [] {
      var init := order[..|order| - 1];
      RunsOf(init);
      assert Runs(order) == Runs(init) + [Last(order).points];
    }
  }

  /** Every run but the last ends on the average line: the runs are cut
      only where the line lands on or crosses the average line. */
  lemma SplitRunsMeetOnLine(points: seq<Point>, avgY: real)
    requires |points| > 0
    ensures var runs := Runs(Split(points, avgY).order);
      forall k :: 0 <= k < |runs| - 1 ==> runs[k] != [] && SideOf(Last(runs[k]).y, avgY) == On
  {
    var s := ScanUpTo(points, avgY, |points| - 1);
    var order := Split(points, avgY).order;
    PushedEndOn(points, avgY, |points| - 1);
    RunsOf(order);
    assert order == s.order || order == s.order + [Chunk(s.side == Above, s.current)];
    assert forall k :: 0 <= k < |order| - 1 ==> order[k] == s.order[k];
  }

  /** Consecutive runs share their boundary point, which lies on the
      average line, and, laid end to end, give back the polyline with a
      crossing point inserted wherever a pair of points straddles the
      average line. With `SplitRunsArePure`, whose inner points lie strictly
      on one side, every run is a maximal piece on one side. */
  lemma SplitRunsTraceLine(points: seq<Point>, avgY: real)
    requires |points| >= 2
    ensures Chained(Runs(Split(points, avgY).order))
    ensures var runs := Runs(Split(points, avgY).order);
      forall k :: 0 <= k < |runs| - 1 ==> runs[k] != [] && SideOf(Last(runs[k]).y, avgY) == On
    ensures Joined(Runs(Split(points, avgY).order)) == Positions(Refine(points, MeanCrossing(avgY)))
  {
    FlushTrace(points, avgY);
    SplitRunsMeetOnLine(points, avgY);
    TracedIsRefined(points, avgY, |points|);
  }

  /** A single point gives no run; a series lying entirely on the average
      line gives one run per pair, all in `below`. */
  lemma SplitDegenerate(points: seq<Point>, avgY: real)
    requires |points| > 0
    ensures |points| == 1 ==> Split(points, avgY) == Start
    ensures AllOn(points, avgY) ==> Split(points, avgY).above == [] && |Split(points, avgY).below| == |points| - 1
  {
    var n := |points|;
    if n > 1 {
      ScanShape(points, avgY, n - 1);
      assert AllOn(points, avgY) ==> SideOf(points[n - 1].y, avgY) == On;
    }
  }

  /** `splitChunks(points:avgY:)`: one left-to-right scan over the point
      pairs that cuts the polyline into runs above and below the average
      line; the result is the scan `Split`, whose runs are described by
      `SplitRunsArePure`, `SplitRunsTraceLine` and `SplitDegenerate`. */
  method SplitChunks(points: seq<Point>, avgY: real) returns (above: seq<seq<Point>>, below: seq<seq<Point>>)
    requires |points| > 0
    ensures above == Split(points, avgY).above && below == Split(points, avgY).below
  {
    above, below := [], [];
    var current: seq<Point> := [];
    var currentSide := On;
    var i := 0;
    while i < |points| - 1
      invariant 0 <= i <= |points| - 1
      invariant var s := ScanUpTo(points, avgY, i);
        above == s.above && below == s.below && current == s.current && currentSide == s.side
    {
      var a, b := points[i], points[i + 1];
      var sa, sb := SideOf(a.y, avgY), SideOf(b.y, avgY);

      if current == [] {
        current := [a];
        currentSide := if sa == On then sb else sa;
      }

      if sa == sb || sb == On {
        // continue on the same side, or land on the line
        current := current + [b];
        if sb == On {
          // close the run on the line and start a fresh one from that point
          if currentSide == Above {
            above := above + [current];
          } else {
            below := below + [current];
          }
          current := [b];
          currentSide := On;
        }
      } else if sa == On {
        // start exactly on the line: a new run towards b's side
        currentSide := sb;
        current := [a, b];
      } else {
        // crossing: close the run at the crossing point
        var xpt := Intersection(a, b, avgY);
        if xpt.Some? {
          current := current + [xpt.value];
          if currentSide == Above {
            above := above + [current];
          } else {
            below := below + [current];
          }
          // start a new run on the other side from the crossing point
          current := [xpt.value, b];
          currentSide := if currentSide == Above then Below else Above;
        } else {
          // parallel to the line: continue
          current := current + [b];
        }
      }
      i := i + 1;
    }

    if |current| >= 2 {
      if currentSide == Above {
        above := above + [current];
      } else if currentSide == Below {
        below := below + [current];
      }
    }
  }

  // ---------------------------------------------------------------------
  // Stroke colouring (`coloredSegments`)

  /** A straight stroke between two canvas points. */
  datatype Segment = Segment(from: Point, to: Point)

  /** The strokes drawn in the above colour and in the below colour. */
  datatype Strokes = Strokes(above: seq<Segment>, below: seq<Segment>)

  /** Consecutive strokes that run from `a` to `b` without a gap. */
  predicate Chain(segs: seq<Segment>, a: Point, b: Point) {
    && segs != [] && segs[0].from == a && Last(segs).to == b
    && (forall k :: 0 <= k < |segs| - 1 ==> segs[k].to == segs[k + 1].from)
  }

  /** The strokes of one pair, taken colour by colour in one order or the
      other, draw the whole pair from `a` to `b`. */
  predicate Drawn(r: Strokes, a: Point, b: Point) {
    Chain(r.above + r.below, a, b) || Chain(r.below + r.above, a, b)
  }

  /** `p` lies on the straight line through `a` and `b`. */
  predicate OnLine(p: Point, a: Point, b: Point) {
    (p.x - a.x) * (b.y - a.y) == (p.y - a.y) * (b.x - a.x)
  }

  lemma OnLineEnds(a: Point, b: Point)
    ensures OnLine(a, a, b) && OnLine(b, a, b)
  {
    assert (b.x - a.x) * (b.y - a.y) == (b.y - a.y) * (b.x - a.x);
  }

  /** Every end point of the strokes of a pair lies on the line through the
      pair. */
  predicate AlongPair(r: Strokes, a: Point, b: Point) {
    forall g :: g in r.above + r.below ==> OnLine(g.from, a, b) && OnLine(g.to, a, b)
  }

  /** The strokes `coloredSegments` emits for the pair (a, b): the whole
      pair when both points lie strictly on one side, the two halves split
      at the crossing point otherwise, coloured by the exact side of `a`.
      A pair is either drawn in full or not at all; it is dropped exactly
      when it is not strictly on one side and either has no crossing point
      or starts exactly on the line. */
  function PairStrokes(a: Point, b: Point, avgY: real): (r: Strokes)
    ensures Sided(r, avgY)
    ensures |r.above| + |r.below| <= 2
    ensures var sa, sb := SideOf(a.y, avgY), SideOf(b.y, avgY);
      Opposite(sa, sb) || (sa == sb && sa != On) ==> Drawn(r, a, b)
    ensures var sa := SideOf(a.y, avgY);
      sa == SideOf(b.y, avgY) && sa != On ==> |r.above| + |r.below| == 1
    ensures AlongPair(r, a, b)
    ensures Drawn(r, a, b) || r == Strokes([], [])
    ensures var sa := SideOf(a.y, avgY);
      r == Strokes([], []) <==>
        !(sa == SideOf(b.y, avgY) && sa != On) && (Intersection(a, b, avgY).None? || a.y == avgY)
  {
    OnLineEnds(a, b);
    var sa, sb := SideOf(a.y, avgY), SideOf(b.y, avgY);
    if (sa == Above && sb == Above) || (sa == Below && sb == Below) then
      if sa == Above then Strokes([Segment(a, b)], []) else Strokes([], [Segment(a, b)])
    else
      match Intersection(a, b, avgY)
      case Some(x) =>
        if a.y < avgY then Strokes([Segment(a, x)], [Segment(x, b)])
        else if a.y > avgY then Strokes([Segment(x, b)], [Segment(a, x)])
        else Strokes([], [])
      case None => Strokes([], [])
  }

  /** A pair that starts exactly on the average line and ends off it gets
      no stroke at all: the crossing is found at `a` itself (t = 0), and
      `a` is neither strictly above nor strictly below the line. */
  lemma PairFromLineIsDropped(a: Point, b: Point, avgY: real)
    requires a.y == avgY && SideOf(b.y, avgY) != On
    ensures PairStrokes(a, b, avgY) == Strokes([], [])
    ensures !Drawn(PairStrokes(a, b, avgY), a, b)
  {
    assert Abs(b.y - a.y) >= Eps;
    assert avgY - a.y == 0.0 && b.y - a.y != 0.0;
    assert (avgY - a.y) / (b.y - a.y) == 0.0;
    assert Intersection(a, b, avgY) == Some(a);
  }

  /** A pair that only reaches the tolerance band on its own side of the
      line gets no stroke either: its first point counts as on the line, so
      the pair is not strictly on one side, and the line is not between the
      two y values, so there is no crossing. */
  lemma PairIntoBandIsDropped(a: Point, b: Point, avgY: real)
    requires SideOf(a.y, avgY) == On && a.y < avgY && SideOf(b.y, avgY) == Above
    ensures PairStrokes(a, b, avgY) == Strokes([], [])
    ensures !Drawn(PairStrokes(a, b, avgY), a, b)
  {
    assert !Between(avgY, a.y, b.y);
  }

  /** A pair that comes down onto the line from strictly below gives the
      whole pair in the below colour and a stroke of length zero at `b` in
      the above colour (the crossing is found at `b` itself, t = 1). */
  lemma PairOntoLine(a: Point, b: Point, avgY: real)
    requires SideOf(a.y, avgY) == Below && b.y == avgY
    ensures PairStrokes(a, b, avgY) == Strokes([Segment(b, b)], [Segment(a, b)])
    ensures CorrectedPairStrokes(a, b, avgY) == PairStrokes(a, b, avgY)
  {
    var dy := b.y - a.y;
    assert Abs(dy) >= Eps && avgY - a.y == dy;
    assert (avgY - a.y) / dy == 1.0;
    assert Intersection(a, b, avgY) == Some(b);
  }
  /** A pair lying exactly on the line is never stroked either: so a flat
      series, whose points all sit on its average line, gets no line at all. */
  lemma PairAlongLineIsDropped(a: Point, b: Point, avgY: real)
    requires a.y == avgY && b.y == avgY
    ensures PairStrokes(a, b, avgY) == Strokes([], [])
    ensures !Drawn(PairStrokes(a, b, avgY), a, b)
  {
    assert Abs(b.y - a.y) < Eps;
  }


  /** The series [1, 2, 3]: least 1, greatest 3, mean 2. */
  lemma RisingSeriesStats()
    ensures Min([1.0, 2.0, 3.0]) == 1.0 && Max([1.0, 2.0, 3.0]) == 3.0
    ensures Mean([1.0, 2.0, 3.0]) == 2.0
  {
    var values := [1.0, 2.0, 3.0];
    assert values[..2] == [1.0, 2.0] && values[..2][..1] == [1.0] && values[..2][..1][..0] == [];
    assert Sum([1.0]) == 1.0;
    assert Sum([1.0, 2.0]) == 3.0;
    assert Sum(values) == 6.0;
  }

  /** The series [1, 2, 3] on a 2 x 2 canvas: its middle point lands exactly
      on the average line. */
  lemma RisingSeriesLayout()
    ensures LayoutPoints([1.0, 2.0, 3.0], 2.0, 2.0, Mean([1.0, 2.0, 3.0]))
         == Layout([Point(0.0, 2.0), Point(1.0, 1.0), Point(2.0, 0.0)], 1.0)
  {
    var values := [1.0, 2.0, 3.0];
    RisingSeriesStats();
    assert Span(values) == 2.0;
    var l := LayoutPoints(values, 2.0, 2.0, 2.0);
    assert l.points[0] == Point(0.0, 2.0);
    assert l.points[1] == Point(1.0, 1.0);
    assert l.points[2] == Point(2.0, 0.0);
  }

  /** Three points that come onto the average line from below and leave
      it again: the second pair is never stroked, whichever side `c` is on. */
  lemma TouchAndLeave(a: Point, b: Point, c: Point, avgY: real)
    requires SideOf(a.y, avgY) == Below && b.y == avgY && SideOf(c.y, avgY) != On
    ensures StrokesUpTo([a, b, c], Colouring(avgY), 2) == Strokes([Segment(b, b)], [Segment(a, b)])
  {
    var pts := [a, b, c];
    PairOntoLine(a, b, avgY);
    PairFromLineIsDropped(b, c, avgY);
    assert StrokesUpTo(pts, Colouring(avgY), 1) == PairStrokes(a, b, avgY);
  }

  /** ... and the rising second half of that line, which lies above the
      average, is never stroked: the only above stroke is the single point
      (1, 1). */
  lemma RisingSeriesLosesItsSecondHalf()
    ensures StrokesUpTo([Point(0.0, 2.0), Point(1.0, 1.0), Point(2.0, 0.0)], Colouring(1.0), 2)
         == Strokes([Segment(Point(1.0, 1.0), Point(1.0, 1.0))], [Segment(Point(0.0, 2.0), Point(1.0, 1.0))])
  {
    TouchAndLeave(Point(0.0, 2.0), Point(1.0, 1.0), Point(2.0, 0.0), 1.0);
  }

  /** The colouring `coloredSegments` applies to each pair. */
  function Colouring(avgY: real): (Point, Point) -> Strokes {
    (a: Point, b: Point) => PairStrokes(a, b, avgY)
  }

  /** The strokes of the first `i` pairs under a colouring of pairs, each
      colour's list in pair order. */
  function StrokesUpTo(points: seq<Point>, pair: (Point, Point) -> Strokes, i: nat): Strokes
    requires i < |points|
  {
    if i == 0 then Strokes([], [])
    else Append(StrokesUpTo(points, pair, i - 1), pair(points[i - 1], points[i]))
  }

  /** Every above stroke lies on or above the average line (canvas y at
      most `avgY`) and every below stroke on or below it. */
  predicate Sided(r: Strokes, avgY: real) {
    && (forall g :: g in r.above ==> g.from.y <= avgY && g.to.y <= avgY)
    && (forall g :: g in r.below ==> g.from.y >= avgY && g.to.y >= avgY)
  }

  /** Strokes appended colour by colour. */
  function Append(s: Strokes, p: Strokes): Strokes {
    Strokes(s.above + p.above, s.below + p.below)
  }

  lemma AppendSided(s: Strokes, p: Strokes, avgY: real)
    requires Sided(s, avgY) && Sided(p, avgY)
    ensures Sided(Append(s, p), avgY)
  {
  }

  /** Under a colouring that keeps each pair's strokes on their sides and
      gives at most two strokes per pair, so does the whole line. */
  lemma {:induction false} StrokesKeepSides(points: seq<Point>, pair: (Point, Point) -> Strokes, avgY: real, i: nat)
    requires i < |points|
    requires forall a, b :: Sided(pair(a, b), avgY) && |pair(a, b).above| + |pair(a, b).below| <= 2
    ensures Sided(StrokesUpTo(points, pair, i), avgY)
    ensures |StrokesUpTo(points, pair, i).above| + |StrokesUpTo(points, pair, i).below| <= 2 * i
  {
    if i > 0 {
      StrokesKeepSides(points, pair, avgY, i - 1);
      AppendSided(StrokesUpTo(points, pair, i - 1), pair(points[i - 1], points[i]), avgY);
    }
  }

  /** `coloredSegments` keeps every above stroke on or above the average
      line and every below stroke on or below it, with at most two strokes
      per pair. */
  lemma ColouredStrokesKeepSides(points: seq<Point>, avgY: real)
    requires |points| > 0
    ensures Sided(StrokesUpTo(points, Colouring(avgY), |points| - 1), avgY)
    ensures var r := StrokesUpTo(points, Colouring(avgY), |points| - 1);
      |r.above| + |r.below| <= 2 * (|points| - 1)
  {
    StrokesKeepSides(points, Colouring(avgY), avgY, |points| - 1);
  }

  /** `coloredSegments(points:avgY:)`. */
  method ColoredSegments(points: seq<Point>, avgY: real) returns (above: seq<Segment>, below: seq<Segment>)
    requires |points| > 0
    ensures Strokes(above, below) == StrokesUpTo(points, Colouring(avgY), |points| - 1)
  {
    above, below := [], [];
    var i := 0;
    while i < |points| - 1
      invariant 0 <= i <= |points| - 1
      invariant Strokes(above, below) == StrokesUpTo(points, Colouring(avgY), i)
    {
      above, below := ColourPair(points[i], points[i + 1], avgY, above, below);
      i := i + 1;
    }
  }

  /** One pass of `coloredSegments`: the strokes of the pair (a, b) appended
      to the lists built so far. */
  method ColourPair(a: Point, b: Point, avgY: real, above0: seq<Segment>, below0: seq<Segment>)
    returns (above: seq<Segment>, below: seq<Segment>)
    ensures Strokes(above, below) == Append(Strokes(above0, below0), PairStrokes(a, b, avgY))
  {
    above, below := above0, below0;
    var aAbove, bAbove := a.y < avgY - Eps, b.y < avgY - Eps;
    var aBelow, bBelow := a.y > avgY + Eps, b.y > avgY + Eps;
    if (aAbove && bAbove) || (aBelow && bBelow) {
      if aAbove {
        above := above + [Segment(a, b)];
      } else {
        below := below + [Segment(a, b)];
      }
    } else {
      var xpt := Intersection(a, b, avgY);
      if xpt.Some? {
        if a.y < avgY {
          above := above + [Segment(a, xpt.value)];
          below := below + [Segment(xpt.value, b)];
        } else if a.y > avgY {
          below := below + [Segment(a, xpt.value)];
          above := above + [Segment(xpt.value, b)];
        }
      }
    }
  }

  /** The colouring as evidently intended: a pair that `coloredSegments`
      draws in full keeps exactly those strokes; a pair it drops is drawn
      whole in the above colour when one of its points is strictly above,
      and in the below colour otherwise (where `splitChunks` also files
      on-line runs). */
  function CorrectedPairStrokes(a: Point, b: Point, avgY: real): (r: Strokes)
    ensures Drawn(r, a, b)
    ensures forall g :: g in r.above ==> SideOf(g.from.y, avgY) != Below && SideOf(g.to.y, avgY) != Below
    ensures forall g :: g in r.below ==> SideOf(g.from.y, avgY) != Above && SideOf(g.to.y, avgY) != Above
    ensures AlongPair(r, a, b)
  {
    OnLineEnds(a, b);
    var p := PairStrokes(a, b, avgY);
    var sa, sb := SideOf(a.y, avgY), SideOf(b.y, avgY);
    if Drawn(p, a, b) then p
    else if sa == Above || sb == Above then Strokes([Segment(a, b)], [])
    else Strokes([], [Segment(a, b)])
  }

  function CorrectedColouring(avgY: real): (Point, Point) -> Strokes {
    (a: Point, b: Point) => CorrectedPairStrokes(a, b, avgY)
  }

  /** Wherever `coloredSegments` strokes a pair in full, the corrected
      colouring draws exactly the same strokes; everywhere else the source
      draws nothing for the pair. */
  lemma CorrectedAgreesWhenDrawn(a: Point, b: Point, avgY: real)
    ensures Drawn(PairStrokes(a, b, avgY), a, b) ==> CorrectedPairStrokes(a, b, avgY) == PairStrokes(a, b, avgY)
    ensures !Drawn(PairStrokes(a, b, avgY), a, b) ==> PairStrokes(a, b, avgY) == Strokes([], [])
  {
  }

  /** A pair leaving the tolerance band on the upper side for a point
      strictly below the line is stroked in full by `coloredSegments`, split
      at its crossing point, and the corrected colouring keeps that split. */
  lemma PairLeavingBand(a: Point, b: Point, avgY: real)
    requires SideOf(a.y, avgY) == On && a.y < avgY && SideOf(b.y, avgY) == Below
    ensures var x := Intersection(a, b, avgY);
      && x.Some?
      && PairStrokes(a, b, avgY) == Strokes([Segment(a, x.value)], [Segment(x.value, b)])
      && CorrectedPairStrokes(a, b, avgY) == PairStrokes(a, b, avgY)
  {
    assert Abs(b.y - a.y) >= Eps && Between(avgY, a.y, b.y);
  }

  // ---------------------------------------------------------------------
  // Fill polygons (built inline in the canvas body)

  /** The fill of an above chunk: the chunk's points, then down to the
      average line under its last point and back along the line to under
      its first point (the polygon closes on the average line, not on the
      canvas floor). */
  function AboveFill(chunk: seq<Point>, yAvg: real): seq<Point>
    requires chunk != []
  {
    chunk + [Point(Last(chunk).x, yAvg), Point(chunk[0].x, yAvg)]
  }

  /** The fill of a below chunk: from the average line under its first
      point, through the chunk's points, back up to the line under its last
      point. */
  function BelowFill(chunk: seq<Point>, yAvg: real): seq<Point>
    requires chunk != []
  {
    [Point(chunk[0].x, yAvg)] + chunk + [Point(Last(chunk).x, yAvg)]
  }

  /** The fill of a chunk of the given list. */
  function Fill(chunk: seq<Point>, yAvg: real, isAbove: bool): seq<Point>
    requires chunk != []
  {
    if isAbove then AboveFill(chunk, yAvg) else BelowFill(chunk, yAvg)
  }

  /** Both fills are the same closed polygon: the below fill, started one
      vertex later, is the above fill; its two extra vertices lie on the
      average line under the chunk's end points. */
  lemma FillsAreOnePolygon(chunk: seq<Point>, yAvg: real)
    requires chunk != []
    ensures BelowFill(chunk, yAvg)[1..] + [BelowFill(chunk, yAvg)[0]] == AboveFill(chunk, yAvg)
    ensures multiset(AboveFill(chunk, yAvg))
         == multiset(chunk) + multiset{Point(chunk[0].x, yAvg), Point(Last(chunk).x, yAvg)}
  {
    var f := BelowFill(chunk, yAvg);
    assert f[1..] == chunk + [Point(Last(chunk).x, yAvg)];
  }

  /** The path `body` builds for one chunk: a move to the first vertex and
      one line per further vertex, closed back to the first. */
  method FillPath(chunk: seq<Point>, yAvg: real, isAbove: bool) returns (path: seq<Point>)
    requires |chunk| >= 2
    ensures path == Fill(chunk, yAvg, isAbove)
  {
    var first, last := chunk[0], Last(chunk);
    if isAbove {
      path := [first];
    } else {
      path := [Point(first.x, yAvg), first];
    }
    ghost var start := path;
    var k := 1;
    while k < |chunk|
      invariant 1 <= k <= |chunk|
      invariant path == start + chunk[1..k]
    {
      path := path + [chunk[k]];
      k := k + 1;
    }
    assert start + chunk[1..] == (if isAbove then [] else [Point(first.x, yAvg)]) + chunk;
    if isAbove {
      path := path + [Point(last.x, yAvg), Point(first.x, yAvg)];
    } else {
      path := path + [Point(last.x, yAvg)];
    }
  }

  /** The fills of one list of chunks, skipping chunks of fewer than two
      points. */
  function FillsOf(chunks: seq<seq<Point>>, yAvg: real, isAbove: bool): (fills: seq<seq<Point>>)
    ensures |fills| <= |chunks|
  {
    if chunks == [] then []
    else
      var c := Last(chunks);
      FillsOf(chunks[..|chunks| - 1], yAvg, isAbove) +
      (if |c| < 2 then [] else [Fill(c, yAvg, isAbove)])
  }

  /** When every chunk has two points or more, no chunk is skipped: fill `k`
      belongs to chunk `k`. */
  lemma {:induction false} FillsOfSoundChunks(chunks: seq<seq<Point>>, yAvg: real, isAbove: bool)
    requires forall k :: 0 <= k < |chunks| ==> |chunks[k]| >= 2
    ensures |FillsOf(chunks, yAvg, isAbove)| == |chunks|
    ensures forall k :: 0 <= k < |chunks| ==> FillsOf(chunks, yAvg, isAbove)[k] == Fill(chunks[k], yAvg, isAbove)
  {
    if chunks != [] {
      var init, c := chunks[..|chunks| - 1], Last(chunks);
      FillsOfSoundChunks(init, yAvg, isAbove);
      var fills := FillsOf(chunks, yAvg, isAbove);
      assert fills == FillsOf(init, yAvg, isAbove) + [Fill(c, yAvg, isAbove)];
      forall k | 0 <= k < |chunks|
        ensures fills[k] == Fill(chunks[k], yAvg, isAbove)
      {
        if k < |init| {
          assert chunks[k] == init[k];
        }
      }
    }
  }

  /** The fill loop of `body` over one list of chunks. */
  method FillPolygons(chunks: seq<seq<Point>>, yAvg: real, isAbove: bool) returns (fills: seq<seq<Point>>)
    ensures fills == FillsOf(chunks, yAvg, isAbove)
  {
    fills := [];
    var k := 0;
    while k < |chunks|
      invariant 0 <= k <= |chunks|
      invariant fills == FillsOf(chunks[..k], yAvg, isAbove)
    {
      var chunk := chunks[k];
      assert chunks[..k + 1][..k] == chunks[..k];
      if |chunk| >= 2 {
        var path := FillPath(chunk, yAvg, isAbove);
        fills := fills + [path];
      }
      k := k + 1;
    }
    assert chunks[..|chunks|] == chunks;
  }

  /** The splitter's runs all have two points or more, so every one of them
      gets its fill. */
  lemma SplitRunsAllFilled(points: seq<Point>, avgY: real)
    requires |points| > 0
    ensures |FillsOf(Split(points, avgY).above, avgY, true)| == |Split(points, avgY).above|
    ensures |FillsOf(Split(points, avgY).below, avgY, false)| == |Split(points, avgY).below|
  {
    SplitRunsArePure(points, avgY);
    var r := Split(points, avgY);
    assert forall k :: 0 <= k < |r.above| ==> r.above[k] in r.above;
    assert forall k :: 0 <= k < |r.below| ==> r.below[k] in r.below;
    FillsOfSoundChunks(Split(points, avgY).above, avgY, true);
    FillsOfSoundChunks(Split(points, avgY).below, avgY, false);
  }

  // ---------------------------------------------------------------------
  // The canvas body

  /** What the canvas draws: the dashed average line across the canvas,
      the fills of the above and below runs, and the coloured strokes. */
  datatype Picture = Picture(avgLine: Segment, aboveFills: seq<seq<Point>>, belowFills: seq<seq<Point>>,
                             strokes: Strokes)

  /** The sparkline's `body` on a canvas of the given size: nothing is drawn
      for fewer than two values; otherwise every run of the splitter gets
      its fill, and every pair its colouring. */
  method Draw(values: seq<real>, width: real, height: real) returns (pic: Option<Picture>)
    ensures pic.None? <==> |values| < 2
    ensures pic.Some? ==>
      var l := LayoutPoints(values, width, height, Mean(values));
      var r := Split(l.points, l.avgY);
      && pic.value.avgLine == Segment(Point(0.0, l.avgY), Point(width, l.avgY))
      && pic.value.aboveFills == FillsOf(r.above, l.avgY, true) && |pic.value.aboveFills| == |r.above|
      && pic.value.belowFills == FillsOf(r.below, l.avgY, false) && |pic.value.belowFills| == |r.below|
      && pic.value.strokes == StrokesUpTo(l.points, CorrectedColouring(l.avgY), |l.points| - 1)
  {
    var layout := LayoutPoints(values, width, height, Mean(values));
    var points, yAvg := layout.points, layout.avgY;
    if |points| < 2 {
      return None;
    }
    var above, below := SplitChunks(points, yAvg);
    var aboveFills := FillPolygons(above, yAvg, true);
    var belowFills := FillPolygons(below, yAvg, false);
    var strokes := StrokesUpTo(points, CorrectedColouring(yAvg), |points| - 1);
    SplitRunsAllFilled(points, yAvg);
    pic := Some(Picture(Segment(Point(0.0, yAvg), Point(width, yAvg)), aboveFills, belowFills, strokes));
  }
}
