// Scalar helpers of the Math class and the three-component Vector.
// Doubles are modelled as mathematical reals.

module Math {

  /** The literal the source uses for pi. */
  const Pi: real := 3.14159265358979323846

  /** Clamp(x, a, b): a below a, b above b, x otherwise. */
  function Clamp(x: real, a: real, b: real): (r: real)
    ensures x < a ==> r == a
    ensures a <= x && x > b ==> r == b
    ensures a <= x <= b ==> r == x
    ensures a <= b ==> a <= r <= b
  {
    if x < a then a else if x > b then b else x
  }

  function Min(a: real, b: real): (r: real)
    ensures r == a || r == b
    ensures r <= a && r <= b
  {
    if a < b then a else b
  }

  function Max(a: real, b: real): (r: real)
    ensures r == a || r == b
    ensures r >= a && r >= b
  {
    if a > b then a else b
  }

  function Max3(a: real, b: real, c: real): (r: real)
    ensures r == a || r == b || r == c
    ensures r >= a && r >= b && r >= c
  {
    Max(Max(a, b), c)
  }

  function Min3(a: real, b: real, c: real): (r: real)
    ensures r == a || r == b || r == c
    ensures r <= a && r <= b && r <= c
  {
    Min(Min(a, b), c)
  }

  function DegreeToRadian(a: real): (r: real)
    ensures r * 180.0 == a * Pi
  {
    a * Pi / 180.0
  }

  function RadianToDegree(a: real): (r: real)
    ensures r * Pi == a * 180.0
  {
    a * 180.0 / Pi
  }

  /** Converting to radians and back is the identity over the reals. */
  lemma DegreeRadianRoundTrip(a: real)
    ensures RadianToDegree(DegreeToRadian(a)) == a
    ensures DegreeToRadian(RadianToDegree(a)) == a
  {
  }
}

module Vectors {

  /** A vector of three reals, c[0], c[1], c[2] in the source. */
  datatype Vector = Vector(x: real, y: real, z: real)
  {
    /** operator[]: the i-th coordinate. */
    function At(i: int): real
      requires 0 <= i < 3
    {
      if i == 0 then x else if i == 1 then y else z
    }

    /** Assignment through operator[]: the vector with coordinate i replaced by v. */
    function With(i: int, v: real): (r: Vector)
      requires 0 <= i < 3
      ensures r.At(i) == v
      ensures forall k :: 0 <= k < 3 && k != i ==> r.At(k) == At(k)
    {
      if i == 0 then Vector(v, y, z) else if i == 1 then Vector(x, v, z) else Vector(x, y, v)
    }

    function Neg(): Vector { Vector(-x, -y, -z) }

    function Add(v: Vector): Vector { Vector(x + v.x, y + v.y, z + v.z) }

    function Sub(v: Vector): Vector { Vector(x - v.x, y - v.y, z - v.z) }

    /** Scalar product, operator* between two vectors. */
    function Dot(v: Vector): real { x * v.x + y * v.y + z * v.z }

    /** Multiplication by a scalar, on either side. */
    function Mul(a: real): Vector { Vector(x * a, y * a, z * a) }

    /** Division by a scalar, operator/ (u, a). */
    function Div(a: real): Vector
      requires a != 0.0
    {
      Vector(x / a, y / a, z / a)
    }

    /** Cross product, operator/ between two vectors. */
    function Cross(v: Vector): Vector
    {
      Vector(y * v.z - z * v.y, z * v.x - x * v.z, x * v.y - y * v.x)
    }

    /** Componentwise product; operator*= with a vector argument computes the same. */
    function Scaled(v: Vector): (r: Vector)
      ensures forall i :: 0 <= i < 3 ==> r.At(i) == At(i) * v.At(i)
    {
      Vector(x * v.x, y * v.y, z * v.z)
    }

    /** Componentwise reciprocal. */
    function Inverse(): (r: Vector)
      requires x != 0.0 && y != 0.0 && z != 0.0
      ensures forall i :: 0 <= i < 3 ==> r.At(i) * At(i) == 1.0
    {
      Vector(1.0 / x, 1.0 / y, 1.0 / z)
    }

    /** operator/= with a vector argument: componentwise division. */
    function DividedBy(v: Vector): (r: Vector)
      requires v.x != 0.0 && v.y != 0.0 && v.z != 0.0
      ensures forall i :: 0 <= i < 3 ==> r.At(i) * v.At(i) == At(i)
    {
      Vector(x / v.x, y / v.y, z / v.z)
    }

    /** operator< : strictly smaller on all three coordinates. */
    predicate Less(v: Vector) { x < v.x && y < v.y && z < v.z }

    /** operator> */
    predicate Greater(v: Vector) { x > v.x && y > v.y && z > v.z }

    /** operator<= */
    predicate LessEq(v: Vector) { x <= v.x && y <= v.y && z <= v.z }

    /** operator>= */
    predicate GreaterEq(v: Vector) { x >= v.x && y >= v.y && z >= v.z }

    /** operator== : exact equality of all three coordinates. */
    predicate Equals(v: Vector) { x == v.x && y == v.y && z == v.z }

    function SquaredNorm(): (r: real)
      ensures r >= 0.0
    {
      x * x + y * y + z * z
    }

    /**
     * Index of the largest coordinate; on ties the lowest index wins
     * (the older Vector class).
     */
    function MaxIndex(): (r: int)
      ensures 0 <= r < 3
      ensures forall k :: 0 <= k < 3 ==> At(k) <= At(r)
      ensures forall k :: 0 <= k < r ==> At(k) < At(r)
    {
      if x >= y then (if x >= z then 0 else 2)
      else (if y >= z then 1 else 2)
    }

    /**
     * The pair of coordinates Orthogonal swaps: the two of largest
     * absolute value, the left-out one being no larger than either.
     */
    function OrthogonalPair(): (p: (int, int))
      ensures 0 <= p.0 < 3 && 0 <= p.1 < 3 && p.0 != p.1
      ensures Abs(this).At(3 - p.0 - p.1) <= Abs(this).At(p.0)
      ensures Abs(this).At(3 - p.0 - p.1) <= Abs(this).At(p.1)
    {
      var a := Abs(this);
      if a.x > a.y then (if a.z > a.y then (0, 2) else (0, 1))
      else (if a.x > a.z then (1, 0) else (1, 2))
    }

    /**
     * A vector orthogonal to this one: the two coordinates of largest
     * absolute value swapped with one sign changed, the third set to 0.
     */
    function Orthogonal(): (r: Vector)
      ensures r.Dot(this) == 0.0
      ensures r.At(3 - OrthogonalPair().0 - OrthogonalPair().1) == 0.0
      ensures r == Null <==> this == Null
    {
      var (i, j) := OrthogonalPair();
      SwapOrthogonal(this, i, j);
      Null.With(i, At(j)).With(j, -At(i))
    }

    /** Vector::Min: the componentwise minimum. */
    static function Min(a: Vector, b: Vector): (r: Vector)
      ensures r.LessEq(a) && r.LessEq(b)
      ensures forall i :: 0 <= i < 3 ==> r.At(i) == a.At(i) || r.At(i) == b.At(i)
    {
      Vector(if a.x < b.x then a.x else b.x,
             if a.y < b.y then a.y else b.y,
             if a.z < b.z then a.z else b.z)
    }

    /** Vector::Max: the componentwise maximum. */
    static function Max(a: Vector, b: Vector): (r: Vector)
      ensures r.GreaterEq(a) && r.GreaterEq(b)
      ensures forall i :: 0 <= i < 3 ==> r.At(i) == a.At(i) || r.At(i) == b.At(i)
    {
      Vector(if a.x > b.x then a.x else b.x,
             if a.y > b.y then a.y else b.y,
             if a.z > b.z then a.z else b.z)
    }

    /** Bilinear interpolation of four vectors given in trigonometric order. */
    static function Bilinear(a00: Vector, a10: Vector, a11: Vector, a01: Vector, u: real, v: real): Vector
    {
      a00.Mul((1.0 - u) * (1.0 - v)).Add(a01.Mul((1.0 - u) * v))
        .Add(a10.Mul(u * (1.0 - v))).Add(a11.Mul(u * v))
    }

    /**
     * The point of segment [a, b] where the linear function with
     * f(a) = va and f(b) = vb vanishes (the older Vector class).
     */
    static function Solve(a: Vector, b: Vector, va: real, vb: real): Vector
      requires va != vb
    {
      a.Mul(vb).Sub(b.Mul(va)).Div(vb - va)
    }
  }

  const Null: Vector := Vector(0.0, 0.0, 0.0)
  const X: Vector := Vector(1.0, 0.0, 0.0)
  const Y: Vector := Vector(0.0, 1.0, 0.0)
  const Z: Vector := Vector(0.0, 0.0, 1.0)

  /** Bit i (0, 1 or 2) of the two's complement representation of k, as k & (1 << i) tests it. */
  predicate HasBit(k: int, i: int)
    requires 0 <= i < 3
  {
    (k / (if i == 0 then 1 else if i == 1 then 2 else 4)) % 2 == 1
  }

  /**
   * The corner selection shared by Box::Vertex, Box::Sub and Cylinder::Vertex:
   * coordinate i comes from hi when bit i of k is set, from lo otherwise.
   */
  function BitSelect(k: int, lo: Vector, hi: Vector): (r: Vector)
    ensures forall i :: 0 <= i < 3 ==> r.At(i) == if HasBit(k, i) then hi.At(i) else lo.At(i)
  {
    Vector(if HasBit(k, 0) then hi.x else lo.x,
           if HasBit(k, 1) then hi.y else lo.y,
           if HasBit(k, 2) then hi.z else lo.z)
  }

  /** Selecting with every bit clear gives lo, with bits 0-2 all set gives hi. */
  lemma BitSelectEnds(lo: Vector, hi: Vector)
    ensures BitSelect(0, lo, hi) == lo
    ensures BitSelect(7, lo, hi) == hi
  {
  }

  /** Vector(a): all three coordinates equal to a. */
  function Uniform(a: real): (r: Vector)
    ensures forall i :: 0 <= i < 3 ==> r.At(i) == a
  {
    Vector(a, a, a)
  }

  /** Abs: the componentwise absolute value. */
  function Abs(u: Vector): (r: Vector)
    ensures forall i :: 0 <= i < 3 ==> r.At(i) >= 0.0 && (r.At(i) == u.At(i) || r.At(i) == -u.At(i))
  {
    Vector(if u.x > 0.0 then u.x else -u.x,
           if u.y > 0.0 then u.y else -u.y,
           if u.z > 0.0 then u.z else -u.z)
  }

  /** Linear interpolation a + t (b - a). */
  function Lerp(a: Vector, b: Vector, t: real): Vector
  {
    a.Add(b.Sub(a).Mul(t))
  }

  /** The case analysis behind Orthogonal, one selected pair at a time. */
  lemma SwapOrthogonal(u: Vector, i: int, j: int)
    requires (i, j) == u.OrthogonalPair()
    ensures 0 <= i < 3 && 0 <= j < 3 && i != j
    ensures Null.With(i, u.At(j)).With(j, -u.At(i)).Dot(u) == 0.0
    ensures Null.With(i, u.At(j)).With(j, -u.At(i)).At(3 - i - j) == 0.0
    ensures Null.With(i, u.At(j)).With(j, -u.At(i)) == Null <==> u == Null
  {
    var r := Null.With(i, u.At(j)).With(j, -u.At(i));
    var a := Abs(u);
    if (i, j) == (0, 2) {
      assert r == Vector(u.z, 0.0, -u.x);
      assert r.Dot(u) == u.z * u.x - u.x * u.z;
      assert a.y <= a.x;
    } else if (i, j) == (0, 1) {
      assert r == Vector(u.y, -u.x, 0.0);
      assert r.Dot(u) == u.y * u.x - u.x * u.y;
      assert a.z <= a.x;
    } else if (i, j) == (1, 0) {
      assert r == Vector(-u.y, u.x, 0.0);
      assert r.Dot(u) == -u.y * u.x + u.x * u.y;
      assert a.z <= a.y;
    } else {
      assert (i, j) == (1, 2);
      assert r == Vector(0.0, u.z, -u.y);
      assert r.Dot(u) == u.z * u.y - u.y * u.z;
      assert a.x <= a.y;
    }
  }

  // ---- Properties of the vector algebra ----

  lemma DotCommutes(u: Vector, v: Vector)
    ensures u.Dot(v) == v.Dot(u)
  {
  }

  /** The cross product is anticommutative and orthogonal to both factors. */
  lemma CrossProperties(u: Vector, v: Vector)
    ensures u.Cross(v) == v.Cross(u).Neg()
    ensures u.Cross(v).Dot(u) == 0.0
    ensures u.Cross(v).Dot(v) == 0.0
  {
  }

  /** The axis constants form a right-handed basis. */
  lemma AxesCross()
    ensures X.Cross(Y) == Z && Y.Cross(Z) == X && Z.Cross(X) == Y
  {
    CrossXY();
    CrossYZ();
    CrossZX();
  }

  /** Two scalings commute. */
  lemma MulCommutes(c: Vector, a: real, b: real)
    ensures c.Mul(a).Mul(b) == c.Mul(b).Mul(a)
  {
    MulSwap(c.x, a, b);
    MulSwap(c.y, a, b);
    MulSwap(c.z, a, b);
  }

  lemma MulSwap(x: real, a: real, b: real)
    ensures (x * a) * b == (x * b) * a
  {
  }

  /** Scaling both operands by s scales the cross product by s * s. */
  lemma ScaledCross(u: Vector, v: Vector, s: real)
    ensures u.Mul(s).Cross(v.Mul(s)) == u.Cross(v).Mul(s * s)
  {
    calc {
      u.Mul(s).Cross(v.Mul(s));
      == { CrossScaledLeft(u, v.Mul(s), s); }
      u.Cross(v.Mul(s)).Mul(s);
      == { CrossScaledRight(u, v, s); }
      u.Cross(v).Mul(s).Mul(s);
      == { MulTwice(u.Cross(v), s, s); }
      u.Cross(v).Mul(s * s);
    }
  }

  /** Scaling the left operand scales the cross product. */
  lemma CrossScaledLeft(u: Vector, v: Vector, s: real)
    ensures u.Mul(s).Cross(v) == u.Cross(v).Mul(s)
  {
    var su, c := u.Mul(s), u.Cross(v);
    MinorScaledLeft(c.x, su.y, su.z, u.y, v.z, u.z, v.y, s);
    MinorScaledLeft(c.y, su.z, su.x, u.z, v.x, u.x, v.z, s);
    MinorScaledLeft(c.z, su.x, su.y, u.x, v.y, u.y, v.x, s);
  }

  /** Scaling the right operand scales the cross product. */
  lemma CrossScaledRight(u: Vector, v: Vector, s: real)
    ensures u.Cross(v.Mul(s)) == u.Cross(v).Mul(s)
  {
    var sv, c := v.Mul(s), u.Cross(v);
    MinorScaledRight(c.x, sv.z, sv.y, u.y, v.z, u.z, v.y, s);
    MinorScaledRight(c.y, sv.x, sv.z, u.z, v.x, u.x, v.z, s);
    MinorScaledRight(c.z, sv.y, sv.x, u.x, v.y, u.y, v.x, s);
  }

  /** The minor m = a b - c d with a and c scaled by s is m s. */
  lemma MinorScaledLeft(m: real, sa: real, sc: real, a: real, b: real, c: real, d: real, s: real)
    requires m == a * b - c * d && sa == a * s && sc == c * s
    ensures m * s == sa * b - sc * d
  {
  }

  /** The minor m = a b - c d with b and d scaled by s is m s. */
  lemma MinorScaledRight(m: real, sb: real, sd: real, a: real, b: real, c: real, d: real, s: real)
    requires m == a * b - c * d && sb == b * s && sd == d * s
    ensures m * s == a * sb - c * sd
  {
  }

  /** Scaling twice is scaling by the product. */
  lemma MulTwice(c: Vector, a: real, b: real)
    ensures c.Mul(a).Mul(b) == c.Mul(a * b)
  {
  }

  lemma CrossXY() ensures X.Cross(Y) == Z {}
  lemma CrossYZ() ensures Y.Cross(Z) == X {}
  lemma CrossZX() ensures Z.Cross(X) == Y {}

  /** Only the null vector has a zero squared norm. */
  lemma SquaredNormZero(u: Vector)
    ensures u.SquaredNorm() == 0.0 <==> u == Null
  {
    if u.x != 0.0 {
      calc {
        u.SquaredNorm();
      ==
        u.x * u.x + u.y * u.y + u.z * u.z;
      >= { SquareNonNegative(u.y); SquareNonNegative(u.z); }
        u.x * u.x;
      > { SquareNonNegative(u.x); }
        0.0;
      }
    } else if u.y != 0.0 {
      calc {
        u.SquaredNorm();
      ==
        u.x * u.x + u.y * u.y + u.z * u.z;
      >= { SquareNonNegative(u.x); SquareNonNegative(u.z); }
        u.y * u.y;
      > { SquareNonNegative(u.y); }
        0.0;
      }
    } else if u.z != 0.0 {
      calc {
        u.SquaredNorm();
      ==
        u.x * u.x + u.y * u.y + u.z * u.z;
      >= { SquareNonNegative(u.x); SquareNonNegative(u.y); }
        u.z * u.z;
      > { SquareNonNegative(u.z); }
        0.0;
      }
    }
  }

  lemma SquareNonNegative(a: real)
    ensures a * a >= 0.0
    ensures a != 0.0 ==> a * a > 0.0
  {
  }

  /** Vector::Min and Vector::Max do not depend on the order of their arguments. */
  lemma MinMaxCommute(a: Vector, b: Vector)
    ensures Vector.Min(a, b) == Vector.Min(b, a)
    ensures Vector.Max(a, b) == Vector.Max(b, a)
  {
  }

  /** Strict order implies the non-strict one, and both are partial. */
  lemma OrderProperties(u: Vector, v: Vector)
    ensures u.Less(v) ==> u.LessEq(v)
    ensures u.Greater(v) ==> u.GreaterEq(v)
    ensures u.Less(v) <==> v.Greater(u)
    ensures u.LessEq(v) <==> v.GreaterEq(u)
  {
  }

  /** Two vectors need not be comparable. */
  lemma Incomparable()
    ensures !X.LessEq(Y) && !Y.LessEq(X)
  {
  }

  /** operator== coincides with equality of values; operator!= is its negation. */
  lemma EqualsIsEquality(u: Vector, v: Vector)
    ensures u.Equals(v) <==> u == v
  {
  }

  /** operator- undoes operator+, unary operator- gives the additive inverse, and operator+ commutes. */
  lemma AddSubInverse(u: Vector, v: Vector)
    ensures u.Add(v).Sub(v) == u && v.Add(u.Sub(v)) == u
    ensures u.Neg().Add(u) == Null && u.Add(v) == v.Add(u)
  {
  }

  /** operator/ by a non-zero scalar is undone by operator* with the same scalar. */
  lemma DivMulInverse(u: Vector, a: real)
    requires a != 0.0
    ensures u.Div(a).Mul(a) == u
  {
  }

  lemma LerpEnds(a: Vector, b: Vector)
    ensures Lerp(a, b, 0.0) == a
    ensures Lerp(a, b, 1.0) == b
  {
  }

  lemma BilinearCorners(a00: Vector, a10: Vector, a11: Vector, a01: Vector)
    ensures Vector.Bilinear(a00, a10, a11, a01, 0.0, 0.0) == a00
    ensures Vector.Bilinear(a00, a10, a11, a01, 1.0, 0.0) == a10
    ensures Vector.Bilinear(a00, a10, a11, a01, 1.0, 1.0) == a11
    ensures Vector.Bilinear(a00, a10, a11, a01, 0.0, 1.0) == a01
  {
    BilinearCorner(a00, a10, a11, a01, 0.0, 0.0);
    BilinearCorner(a00, a10, a11, a01, 1.0, 0.0);
    BilinearCorner(a00, a10, a11, a01, 1.0, 1.0);
    BilinearCorner(a00, a10, a11, a01, 0.0, 1.0);
  }

  lemma BilinearCorner(a00: Vector, a10: Vector, a11: Vector, a01: Vector, u: real, v: real)
    requires (u == 0.0 || u == 1.0) && (v == 0.0 || v == 1.0)
    ensures Vector.Bilinear(a00, a10, a11, a01, u, v)
      == if u == 0.0 then (if v == 0.0 then a00 else a01) else (if v == 0.0 then a10 else a11)
  {
  }

  /** Solve is the linear interpolation at the root of the linear function. */
  lemma SolveIsLerp(a: Vector, b: Vector, va: real, vb: real)
    requires va != vb
    ensures Vector.Solve(a, b, va, vb) == Lerp(a, b, va / (va - vb))
  {
  }

  lemma SolveEnds(a: Vector, b: Vector, va: real, vb: real)
    requires va != vb
    ensures va == 0.0 ==> Vector.Solve(a, b, va, vb) == a
    ensures vb == 0.0 ==> Vector.Solve(a, b, va, vb) == b
  {
  }
}
