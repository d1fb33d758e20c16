/** The variable-length vector that drives the chart animations: component-
    wise addition and subtraction of equal-length vectors, scaling in place,
    the squared magnitude and the average of the components. */
module Animation {
  import opened Geometry

  // ---------------------------------------------------------------------
  // Component arithmetic on plain sequences

  /** `zip(lhs, rhs).map(+)`, for vectors of the same length. */
  function Add(a: seq<real>, b: seq<real>): (r: seq<real>)
    requires |a| == |b|
    ensures |r| == |a|
    ensures forall i :: 0 <= i < |a| ==> r[i] == a[i] + b[i]
  {
    seq(|a|, i requires 0 <= i < |a| => a[i] + b[i])
  }

  /** `zip(lhs, rhs).map(-)`, for vectors of the same length. */
  function Subtract(a: seq<real>, b: seq<real>): (r: seq<real>)
    requires |a| == |b|
    ensures |r| == |a|
    ensures forall i :: 0 <= i < |a| ==> r[i] == a[i] - b[i]
  {
    seq(|a|, i requires 0 <= i < |a| => a[i] - b[i])
  }

  /** Every component multiplied by `k`: what `scale(by:)` leaves behind. */
  function Scaled(a: seq<real>, k: real): (r: seq<real>)
    ensures |r| == |a|
    ensures forall i :: 0 <= i < |a| ==> r[i] == a[i] * k
  {
    seq(|a|, i requires 0 <= i < |a| => a[i] * k)
  }

  /** `reduce(0) { $0 + $1 * $1 }`. */
  function SumOfSquares(a: seq<real>): real {
    if a == [] then 0.0 else SumOfSquares(a[..|a| - 1]) + Last(a) * Last(a)
  }

  /** Subtracting what was added gives back the original vector. */
  lemma AddThenSubtract(a: seq<real>, b: seq<real>)
    requires |a| == |b|
    ensures Subtract(Add(a, b), b) == a
  {
  }

  /** Addition does not depend on the order of its operands. */
  lemma AddCommutes(a: seq<real>, b: seq<real>)
    requires |a| == |b|
    ensures Add(a, b) == Add(b, a)
  {
  }

  /** Scaling by one changes nothing, scaling the empty vector leaves it
      empty, and scaling distributes over addition. */
  lemma ScaledLaws(a: seq<real>, b: seq<real>, k: real)
    requires |a| == |b|
    ensures Scaled(a, 1.0) == a
    ensures Scaled([], k) == []
    ensures Scaled(Add(a, b), k) == Add(Scaled(a, k), Scaled(b, k))
  {
    var lhs := Scaled(Add(a, b), k);
    var rhs := Add(Scaled(a, k), Scaled(b, k));
    forall i | 0 <= i < |a|
      ensures lhs[i] == rhs[i]
    {
      assert lhs[i] == (a[i] + b[i]) * k;
      assert rhs[i] == a[i] * k + b[i] * k;
    }
    assert |lhs| == |rhs|;
  }

  /** The precondition of `+` and `-`: both vectors have the same length. */
  predicate SameLength(a: seq<real>, b: seq<real>) {
    |a| == |b|
  }

  /** The empty vector (`zero`) can only be added to the empty vector. */
  lemma ZeroAddsOnlyToEmpty(v: seq<real>)
    ensures SameLength([], v) <==> v == []
    ensures v == [] ==> Add([], v) == []
  {
  }

  lemma AddProduct(f: real, u: real, v: real)
    requires f >= 0.0 && u > 0.0 && v > 0.0
    ensures f + u * v > 0.0
  {
  }

  /** Adding a square to a non-negative total keeps it non-negative, and
      makes it positive unless the squared component is zero. */
  lemma AddSquare(f: real, x: real)
    requires f >= 0.0
    ensures f + x * x >= 0.0
    ensures x != 0.0 ==> f + x * x > 0.0
  {
    if x > 0.0 {
      AddProduct(f, x, x);
    } else if x < 0.0 {
      AddProduct(f, -x, -x);
      assert (-x) * (-x) == x * x;
    }
  }

  /** A sum of squares is never negative. */
  lemma {:induction false} SumOfSquaresNonneg(a: seq<real>)
    ensures SumOfSquares(a) >= 0.0
  {
    if a != [] {
      SumOfSquaresNonneg(a[..|a| - 1]);
      AddSquare(SumOfSquares(a[..|a| - 1]), Last(a));
    }
  }

  /** A sum of squares is zero exactly when every component is zero. */
  lemma {:induction false} SumOfSquaresZero(a: seq<real>)
    ensures SumOfSquares(a) == 0.0 <==> forall i :: 0 <= i < |a| ==> a[i] == 0.0
  {
    if a != [] {
      var front := a[..|a| - 1];
      SumOfSquaresZero(front);
      SumOfSquaresNonneg(front);
      AddSquare(SumOfSquares(front), Last(a));
      assert forall i :: 0 <= i < |front| ==> front[i] == a[i];
      if Last(a) != 0.0 {
        assert a[|a| - 1] != 0.0;
      } else {
        assert (forall i :: 0 <= i < |a| ==> a[i] == 0.0) <==>
               (forall i :: 0 <= i < |front| ==> front[i] == 0.0);
      }
    }
  }

  // ---------------------------------------------------------------------
  // The vector itself

  class AnimatableVector {
    var values: seq<real>

    /** `init(values:)`. */
    constructor(values: seq<real>)
      ensures this.values == values
    {
      this.values := values;
    }

    /** `count`. */
    function Count(): nat
      reads this
    {
      |values|
    }

    /** The subscript getter. */
    function Get(index: int): real
      reads this
      requires 0 <= index < |values|
    {
      values[index]
    }

    /** The subscript setter: only component `index` changes, and the count
        stays the same. */
    method Set(index: int, newValue: real)
      requires 0 <= index < |values|
      modifies this
      ensures Count() == old(Count())
      ensures Get(index) == newValue
      ensures forall j :: 0 <= j < |values| && j != index ==> values[j] == old(values[j])
    {
      values := values[index := newValue];
    }

    /** `average`: zero for the empty vector, otherwise the mean of the
        components. */
    function Average(): (r: real)
      reads this
      ensures values == [] ==> r == 0.0
      ensures values != [] ==> r * |values| as real == Sum(values)
    {
      Mean(values)
    }

    /** `magnitudeSquared`: never negative, and zero exactly when every
        component is zero. */
    function MagnitudeSquared(): (r: real)
      reads this
      ensures r >= 0.0
      ensures r == 0.0 <==> forall i :: 0 <= i < |values| ==> values[i] == 0.0
    {
      SumOfSquaresNonneg(values);
      SumOfSquaresZero(values);
      SumOfSquares(values)
    }

    /** `scale(by:)`: multiplies every component by `k` in place. */
    method Scale(k: real)
      modifies this
      ensures values == Scaled(old(values), k)
    {
      ghost var original := values;
      var i := 0;
      while i < |values|
        invariant |values| == |original|
        invariant 0 <= i <= |values|
        invariant forall j :: 0 <= j < i ==> values[j] == original[j] * k
        invariant forall j :: i <= j < |values| ==> values[j] == original[j]
      {
        values := values[i := values[i] * k];
        i := i + 1;
      }
      assert original == old(values);
      forall j | 0 <= j < |values|
        ensures values[j] == Scaled(original, k)[j]
      {
      }
    }

    /** `==`: two vectors are equal when their components are. */
    predicate Equals(rhs: AnimatableVector)
      reads this, rhs
    {
      values == rhs.values
    }
  }

  /** `zero`: the empty vector. */
  method Zero() returns (z: AnimatableVector)
    ensures fresh(z) && z.values == []
  {
    z := new AnimatableVector([]);
  }

  /** `+`: traps unless both vectors have the same length. */
  method Plus(lhs: AnimatableVector, rhs: AnimatableVector) returns (r: AnimatableVector)
    requires SameLength(lhs.values, rhs.values)
    ensures fresh(r) && r.values == Add(lhs.values, rhs.values)
  {
    r := new AnimatableVector(Add(lhs.values, rhs.values));
  }

  /** `-`: traps unless both vectors have the same length. */
  method Minus(lhs: AnimatableVector, rhs: AnimatableVector) returns (r: AnimatableVector)
    requires SameLength(lhs.values, rhs.values)
    ensures fresh(r) && r.values == Subtract(lhs.values, rhs.values)
  {
    r := new AnimatableVector(Subtract(lhs.values, rhs.values));
  }
}
