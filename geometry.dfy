/** Points, numeric series and the polyline bookkeeping shared by the
    sparkline splitter and the threshold-chart splitter. */
module Geometry {

  /** A point on the drawing canvas (a `CGPoint`, or a `ChartPoint` tuple). */
  datatype Point = Point(x: real, y: real)

  datatype Option<+T> = None | Some(value: T)

  /** A vertex of a refined polyline: a point of the input line, or a
      crossing point that a splitter inserted between two input points. */
  datatype Vertex = Original(at: Point) | Inserted(at: Point)

  function Last<T>(s: seq<T>): T
    requires |s| > 0
  {
    s[|s| - 1]
  }

  /** `v` lies in the closed interval spanned by `a` and `b`, in either order. */
  predicate Between(v: real, a: real, b: real) {
    (a <= v <= b) || (b <= v <= a)
  }

  lemma MulNonneg(u: real, v: real)
    requires u >= 0.0 && v >= 0.0
    ensures u * v >= 0.0
  {
  }

  lemma MulPos(u: real, v: real)
    requires u > 0.0 && v > 0.0
    ensures u * v > 0.0
  {
  }

  /** Linear interpolation with a parameter in [0, 1] stays between its ends. */
  lemma LerpBetween(a: real, b: real, s: real)
    requires 0.0 <= s <= 1.0
    ensures Between(a + s * (b - a), a, b)
  {
    if a <= b {
      MulNonneg(s, b - a);
      MulNonneg(1.0 - s, b - a);
      assert (1.0 - s) * (b - a) == (b - a) - s * (b - a);
    } else {
      MulNonneg(s, a - b);
      MulNonneg(1.0 - s, a - b);
      assert (1.0 - s) * (a - b) == (a - b) - s * (a - b);
      assert s * (b - a) == -(s * (a - b));
    }
  }

  // ---------------------------------------------------------------------
  // Arithmetic facts used by the layout and intersection proofs

  /** Multiplying by a positive factor keeps the sign. */
  lemma PositiveScale(q: real, d: real)
    requires d > 0.0
    ensures q >= 0.0 <==> q * d >= 0.0
    ensures q > 0.0 <==> q * d > 0.0
  {
    if q > 0.0 {
      MulPos(q, d);
    } else if q < 0.0 {
      MulPos(-q, d);
      assert (-q) * d == -(q * d);
    }
  }

  /** A quotient lies in [0, 1] exactly when the numerator lies between 0
      and the denominator. */
  lemma QuotientInUnit(num: real, den: real)
    requires den != 0.0
    ensures 0.0 <= num / den <= 1.0 <==> Between(num, 0.0, den)
  {
    var q := num / den;
    assert q * den == num;
    if den > 0.0 {
      PositiveScale(q, den);
      PositiveScale(1.0 - q, den);
      assert (1.0 - q) * den == den - num;
    } else {
      PositiveScale(-q, -den);
      PositiveScale(q - 1.0, -den);
      assert (-q) * (-den) == num;
      assert (q - 1.0) * (-den) == den - num;
    }
  }

  // ---------------------------------------------------------------------
  // Numeric series

  /** Left-to-right sum, as `reduce(0, +)` computes it. */
  function Sum(s: seq<real>): real {
    if s == [] then 0.0 else Sum(s[..|s| - 1]) + Last(s)
  }

  /** Arithmetic mean, with 0 for the empty series (`average` of
      `Array<Double>` in the sparkline and of `AnimatableVector`). */
  function Mean(s: seq<real>): (r: real)
    ensures s == [] ==> r == 0.0
    ensures s != [] ==> r * |s| as real == Sum(s)
  {
    if s == [] then 0.0 else Sum(s) / |s| as real
  }

  /** A sum of n terms each within [lo, hi] lies within [n*lo, n*hi]. */
  lemma {:induction false} SumBounds(s: seq<real>, lo: real, hi: real)
    requires forall k :: 0 <= k < |s| ==> lo <= s[k] <= hi
    ensures |s| as real * lo <= Sum(s) <= |s| as real * hi
  {
    if s != [] {
      SumBounds(s[..|s| - 1], lo, hi);
      assert |s| as real * lo == (|s| - 1) as real * lo + lo;
      assert |s| as real * hi == (|s| - 1) as real * hi + hi;
    }
  }

  /** The mean of a non-empty series lies within any bounds of its values. */
  lemma MeanBounds(s: seq<real>, lo: real, hi: real)
    requires s != []
    requires forall k :: 0 <= k < |s| ==> lo <= s[k] <= hi
    ensures lo <= Mean(s) <= hi
  {
    SumBounds(s, lo, hi);
    var n, m := |s| as real, Mean(s);
    assert m * n == Sum(s);
    assert (lo - m) * n == lo * n - m * n;
    assert (m - hi) * n == m * n - hi * n;
    if m < lo {
      MulPos(lo - m, n);
    }
    if m > hi {
      MulPos(m - hi, n);
    }
  }

  /** The least value of a non-empty series (`values.min()`). */
  function Min(s: seq<real>): (m: real)
    requires s != []
    ensures m in s
    ensures forall k :: 0 <= k < |s| ==> m <= s[k]
  {
    if |s| == 1 then s[0]
    else
      var m := Min(s[..|s| - 1]);
      assert forall k :: 0 <= k < |s| - 1 ==> s[..|s| - 1][k] == s[k];
      if Last(s) < m then Last(s) else m
  }

  /** The greatest value of a non-empty series (`values.max()`). */
  function Max(s: seq<real>): (m: real)
    requires s != []
    ensures m in s
    ensures forall k :: 0 <= k < |s| ==> s[k] <= m
  {
    if |s| == 1 then s[0]
    else
      var m := Max(s[..|s| - 1]);
      assert forall k :: 0 <= k < |s| - 1 ==> s[..|s| - 1][k] == s[k];
      if Last(s) > m then Last(s) else m
  }

  // ---------------------------------------------------------------------
  // Refined polylines: the input line with crossing points inserted

  /** The first `i` points of `line`, each followed by the crossing point
      that `cross` reports between it and its successor, if any. */
  function RefineUpTo(line: seq<Point>, cross: (Point, Point) -> Option<Point>, i: nat): seq<Vertex>
    requires i <= |line|
  {
    if i == 0 then []
    else
      RefineUpTo(line, cross, i - 1) + [Original(line[i - 1])] +
      (if i < |line| && cross(line[i - 1], line[i]).Some?
       then [Inserted(cross(line[i - 1], line[i]).value)]
       else [])
  }

  /** The whole line with every crossing point inserted where it belongs. */
  function Refine(line: seq<Point>, cross: (Point, Point) -> Option<Point>): seq<Vertex> {
    RefineUpTo(line, cross, |line|)
  }

  /** The canvas positions of a vertex sequence. */
  function Positions(vs: seq<Vertex>): (ps: seq<Point>)
    ensures |ps| == |vs|
    ensures forall k :: 0 <= k < |vs| ==> ps[k] == vs[k].at
  {
    seq(|vs|, k requires 0 <= k < |vs| => vs[k].at)
  }

  /** The vertices that came from the input line, in order. */
  function Originals(vs: seq<Vertex>): seq<Point> {
    if vs == [] then []
    else Originals(vs[..|vs| - 1]) + (if Last(vs).Original? then [Last(vs).at] else [])
  }

  lemma {:induction false} OriginalsAppend(u: seq<Vertex>, v: seq<Vertex>)
    ensures Originals(u + v) == Originals(u) + Originals(v)
  {
    if v == [] {
      assert u + v == u;
    } else {
      assert (u + v)[..|u + v| - 1] == u + v[..|v| - 1];
      OriginalsAppend(u, v[..|v| - 1]);
    }
  }

  /** Appending an input point and then only inserted vertices adds just
      that point to the originals. */
  lemma OriginalsStep(prev: seq<Vertex>, p: Point, tail: seq<Vertex>)
    requires tail == [] || (|tail| == 1 && tail[0].Inserted?)
    ensures Originals(prev + [Original(p)] + tail) == Originals(prev) + [p]
  {
    var u := prev + [Original(p)];
    OriginalsAppend(u, tail);
    if tail != [] {
      assert tail[..0] == [];
      assert Originals(tail) == [];
    }
    assert Originals(u) == Originals(prev) + [p] by {
      assert u[..|u| - 1] == prev;
    }
  }

  lemma {:induction false} OriginalsOfRefineUpTo(line: seq<Point>, cross: (Point, Point) -> Option<Point>, i: nat)
    requires i <= |line|
    ensures Originals(RefineUpTo(line, cross, i)) == line[..i]
  {
    if i > 0 {
      var prev := RefineUpTo(line, cross, i - 1);
      var tail := if i < |line| && cross(line[i - 1], line[i]).Some?
                  then [Inserted(cross(line[i - 1], line[i]).value)] else [];
      calc {
        Originals(RefineUpTo(line, cross, i));
        Originals(prev + [Original(line[i - 1])] + tail);
        { OriginalsStep(prev, line[i - 1], tail); }
        Originals(prev) + [line[i - 1]];
        { OriginalsOfRefineUpTo(line, cross, i - 1); }
        line[..i - 1] + [line[i - 1]];
        { assert line[..i] == line[..i - 1] + [line[i - 1]]; }
        line[..i];
      }
    }
  }

  /** Removing the inserted crossing points from a refined line gives back
      the input line: no point is lost, duplicated or reordered. */
  lemma OriginalsOfRefine(line: seq<Point>, cross: (Point, Point) -> Option<Point>)
    ensures Originals(Refine(line, cross)) == line
  {
    OriginalsOfRefineUpTo(line, cross, |line|);
    assert line[..|line|] == line;
  }

  /** Every inserted vertex is the crossing point of some pair of
      consecutive input points. */
  lemma {:induction false} InsertedAreCrossings(line: seq<Point>, cross: (Point, Point) -> Option<Point>, i: nat, k: nat)
    requires i <= |line|
    requires k < |RefineUpTo(line, cross, i)| && RefineUpTo(line, cross, i)[k].Inserted?
    ensures exists j :: 0 <= j < i && j + 1 < |line| && cross(line[j], line[j + 1]) == Some(RefineUpTo(line, cross, i)[k].at)
  {
    var prev := RefineUpTo(line, cross, i - 1);
    if k < |prev| {
      assert RefineUpTo(line, cross, i)[k] == prev[k];
      InsertedAreCrossings(line, cross, i - 1, k);
    } else {
      assert k > |prev|;
      var j := i - 1;
      assert cross(line[j], line[j + 1]) == Some(RefineUpTo(line, cross, i)[k].at);
    }
  }

  /** A refined prefix of at least one input point starts with the first
      input point and holds at least one vertex per input point. */
  lemma {:induction false} RefineEnds(line: seq<Point>, cross: (Point, Point) -> Option<Point>, i: nat)
    requires 0 < i <= |line|
    ensures |RefineUpTo(line, cross, i)| >= i
    ensures RefineUpTo(line, cross, i)[0] == Original(line[0])
  {
    if i > 1 {
      RefineEnds(line, cross, i - 1);
    }
  }

  // ---------------------------------------------------------------------
  // Pieces of a polyline that share their boundary points

  function Drop1(s: seq<Point>): seq<Point> {
    if s == [] then [] else s[1..]
  }

  /** The points of consecutive pieces laid end to end, where every piece
      after the first contributes all but its first point (the boundary
      point it shares with its predecessor). */
  function Joined(pieces: seq<seq<Point>>): seq<Point> {
    if pieces == [] then []
    else if |pieces| == 1 then pieces[0]
    else Joined(pieces[..|pieces| - 1]) + Drop1(Last(pieces))
  }

  /** Each piece starts with the point that ended its predecessor. */
  predicate Chained(pieces: seq<seq<Point>>) {
    forall k :: 0 <= k < |pieces| - 1 ==> Linked(pieces, k)
  }

  predicate Linked(pieces: seq<seq<Point>>, k: nat)
    requires k + 1 < |pieces|
  {
    pieces[k] != [] && pieces[k + 1] != [] && pieces[k + 1][0] == Last(pieces[k])
  }

  lemma JoinedSnoc(pieces: seq<seq<Point>>, c: seq<Point>)
    ensures Joined(pieces + [c]) == if pieces == [] then c else Joined(pieces) + Drop1(c)
  {
    assert (pieces + [c])[..|pieces|] == pieces;
  }

  /** Extending the last piece extends the joined line by the same points. */
  lemma JoinedExtend(pieces: seq<seq<Point>>, c: seq<Point>, d: seq<Point>)
    requires c != []
    ensures Joined(pieces + [c + d]) == Joined(pieces + [c]) + d
  {
    JoinedSnoc(pieces, c);
    JoinedSnoc(pieces, c + d);
    if pieces != [] {
      assert Drop1(c + d) == Drop1(c) + d;
      assert Joined(pieces) + (Drop1(c) + d) == (Joined(pieces) + Drop1(c)) + d;
    }
  }

  /** Extending the last piece keeps the pieces chained. */
  lemma ChainedExtend(pieces: seq<seq<Point>>, c: seq<Point>, d: seq<Point>)
    requires c != [] && Chained(pieces + [c])
    ensures Chained(pieces + [c + d])
  {
    var before, after := pieces + [c], pieces + [c + d];
    forall k | 0 <= k < |after| - 1
      ensures Linked(after, k)
    {
      assert before[k] == after[k];
      assert Linked(before, k);
      if k + 1 < |pieces| {
        assert before[k + 1] == after[k + 1];
      } else {
        assert (c + d)[0] == c[0];
      }
    }
  }

  /** Starting a new piece at the last point of the previous one keeps
      the pieces chained. */
  lemma ChainedPush(pieces: seq<seq<Point>>, c: seq<Point>, e: seq<Point>)
    requires c != [] && e != [] && e[0] == Last(c) && Chained(pieces + [c])
    ensures Chained(pieces + [c] + [e])
  {
    var before, after := pieces + [c], pieces + [c] + [e];
    forall k | 0 <= k < |after| - 1
      ensures Linked(after, k)
    {
      assert after[k] == before[k];
      if k + 1 < |before| {
        assert Linked(before, k);
        assert after[k + 1] == before[k + 1];
      }
    }
  }

  /** Dropping the last piece keeps the rest chained. */
  lemma ChainedPrefix(pieces: seq<seq<Point>>, c: seq<Point>)
    requires Chained(pieces + [c])
    ensures Chained(pieces)
  {
    forall k | 0 <= k < |pieces| - 1
      ensures Linked(pieces, k)
    {
      assert Linked(pieces + [c], k);
      assert (pieces + [c])[k] == pieces[k] && (pieces + [c])[k + 1] == pieces[k + 1];
    }
  }

  lemma PositionsAppend(u: seq<Vertex>, v: seq<Vertex>)
    ensures Positions(u + v) == Positions(u) + Positions(v)
  {
  }
}
