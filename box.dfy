// The axis-aligned box, stored as its lower corner a and its upper corner b.
// The corners are never reordered except by Scale, so a box may be
// "invalid" (a above b on some axis), and the operations handle that case
// exactly as the source does.

module Boxes {
  import opened Vectors
  import Math

  /** The round-off epsilon of the class. */
  const Epsilon: real := 0.00001

  /** Truncation of a real toward zero, as the int(...) conversion does. */
  function Truncate(q: real): (n: int)
    ensures q >= 0.0 ==> n as real <= q < n as real + 1.0
    ensures q < 0.0 ==> n as real - 1.0 < q <= n as real
  {
    if q >= 0.0 then q.Floor else -((-q).Floor)
  }

  /**
   * The integer count of reference sizes along one axis, as
   * SetParallelepipedic computes it: the truncation of q + 0.99,
   * bumped to 1 when it is 0.
   */
  function ParallelepipedicCount(q: real): (n: int)
    ensures q >= 0.0 ==> n >= 1
    ensures q >= 0.0 ==> q - 0.01 < n as real
    ensures n != 1 ==> n == Truncate(q + 0.99)
    ensures q + 0.99 >= 0.0 ==> n as real <= q + 0.99 || n == 1
  {
    var t := Truncate(q + 0.99);
    if t == 0 then 1 else t
  }

  class Box {
    var a: Vector
    var b: Vector

    /** Box(a, b): the corners are stored as given, without any ordering check. */
    constructor FromCorners(a: Vector, b: Vector)
      ensures this.a == a && this.b == b
    {
      this.a := a;
      this.b := b;
    }

    /** Box(c, r): the cube of half side r centred at c. */
    constructor FromCenter(c: Vector, r: real)
      ensures a == c.Sub(Uniform(r)) && b == c.Add(Uniform(r))
      ensures Center() == c
    {
      a := c.Sub(Uniform(r));
      b := c.Add(Uniform(r));
    }

    /** Box(r): the cube of half side r centred at the origin; Box::Null is Cube(0.0). */
    constructor Cube(r: real)
      ensures a == Uniform(r).Neg() && b == Uniform(r)
      ensures r == 0.0 ==> a == Null && b == Null
    {
      a := Uniform(r).Neg();
      b := Uniform(r);
      new;
      assert a == Vector(-r, -r, -r) && b == Vector(r, r, r);
    }

    /**
     * Box(v): the bounding box of a non-empty list of points, computed
     * axis by axis from the first point.
     */
    constructor FromPoints(v: seq<Vector>)
      requires |v| > 0
      ensures forall i :: 0 <= i < |v| ==> a.LessEq(v[i]) && v[i].LessEq(b)
      ensures forall j :: 0 <= j < 3 ==> exists i :: 0 <= i < |v| && a.At(j) == v[i].At(j)
      ensures forall j :: 0 <= j < 3 ==> exists i :: 0 <= i < |v| && b.At(j) == v[i].At(j)
    {
      // The coordinates of the two corners, c[3] in the source.
      var lo: seq<real>, hi: seq<real> := [0.0, 0.0, 0.0], [0.0, 0.0, 0.0];
      var j := 0;
      while j < 3
        invariant 0 <= j <= 3
        invariant |lo| == 3 && |hi| == 3
        invariant forall k :: 0 <= k < j ==> exists i :: 0 <= i < |v| && lo[k] == v[i].At(k)
        invariant forall k :: 0 <= k < j ==> exists i :: 0 <= i < |v| && hi[k] == v[i].At(k)
        invariant forall i, k :: 0 <= i < |v| && 0 <= k < j ==> lo[k] <= v[i].At(k) <= hi[k]
      {
        var mn, mx := AxisExtent(v, j);
        lo := lo[j := mn];
        hi := hi[j := mx];
        j := j + 1;
      }
      a := Vector(lo[0], lo[1], lo[2]);
      b := Vector(hi[0], hi[1], hi[2]);
      new;
      assert forall k :: 0 <= k < 3 ==> a.At(k) == lo[k] && b.At(k) == hi[k];
      forall i | 0 <= i < |v|
        ensures a.LessEq(v[i]) && v[i].LessEq(b)
      {
        assert a.At(0) <= v[i].At(0) <= b.At(0);
        assert a.At(1) <= v[i].At(1) <= b.At(1);
        assert a.At(2) <= v[i].At(2) <= b.At(2);
      }
    }

    /** Box(x, y): the box enclosing both argument boxes. */
    constructor Union(x: Box, y: Box)
      ensures a == Vector.Min(x.a, y.a) && b == Vector.Max(x.b, y.b)
      ensures a.LessEq(x.a) && a.LessEq(y.a) && x.b.LessEq(b) && y.b.LessEq(b)
    {
      a := Vector.Min(x.a, y.a);
      b := Vector.Max(x.b, y.b);
    }

    /** operator[]: index 0 gives the lower corner, any other index the upper one. */
    function At(i: int): (r: Vector)
      reads this
      ensures r == if i == 0 then a else b
    {
      if i == 0 then a else b
    }

    /** operator== compares both corners exactly; operator!= is its negation. */
    predicate Equals(other: Box)
      reads this, other
    {
      a == other.a && b == other.b
    }

    /** The centre, halfway between the corners. */
    function Center(): (r: Vector)
      reads this
      ensures r.Sub(a) == b.Sub(r)
    {
      a.Add(b).Mul(0.5)
    }

    /** The diagonal vector from a to b. */
    function Diagonal(): (r: Vector)
      reads this
      ensures a.Add(r) == b
    {
      b.Sub(a)
    }

    /** The size, the same vector as Diagonal. */
    function Size(): (r: Vector)
      reads this
      ensures r == Diagonal()
    {
      b.Sub(a)
    }

    /** The k-th vertex: coordinate i comes from b when bit i of k is set, from a otherwise. */
    function Vertex(k: int): (r: Vector)
      reads this
      ensures forall i :: 0 <= i < 3 ==> r.At(i) == if HasBit(k, i) then b.At(i) else a.At(i)
      ensures a.LessEq(b) ==> a.LessEq(r) && r.LessEq(b)
    {
      BitSelect(k, a, b)
    }

    function Volume(): (r: real)
      reads this
      ensures a.LessEq(b) ==> r >= 0.0
    {
      var side := b.Sub(a);
      NonNegativeProduct(side.x, side.y, side.z);
      side.x * side.y * side.z
    }

    function Area(): (r: real)
      reads this
      ensures a.LessEq(b) ==> r >= 0.0
    {
      var side := b.Sub(a);
      NonNegativeProduct(side.x, side.y, 1.0);
      NonNegativeProduct(side.x, side.z, 1.0);
      NonNegativeProduct(side.y, side.z, 1.0);
      2.0 * (side.x * side.y + side.x * side.z + side.y * side.z)
    }

    /**
     * The point of the box closest to p when the box is valid: each
     * coordinate clamped to the box's range, with the branch order of
     * Math::Clamp.
     */
    function Closest(p: Vector): Vector
      reads this
    {
      Vector(Math.Clamp(p.x, a.x, b.x), Math.Clamp(p.y, a.y, b.y), Math.Clamp(p.z, a.z, b.z))
    }

    /**
     * Normal(p): p minus its projection onto the box; coordinate i is
     * p[i] - a[i] below the box, p[i] - b[i] above it, and 0 in between.
     */
    method Normal(p: Vector) returns (n: Vector)
      ensures n == p.Sub(Closest(p))
    {
      n := Null;
      var i := 0;
      while i < 3
        invariant 0 <= i <= 3
        invariant forall k :: 0 <= k < i ==> n.At(k) == p.Sub(Closest(p)).At(k)
      {
        if p.At(i) < a.At(i) {
          n := n.With(i, p.At(i) - a.At(i));
        } else if p.At(i) > b.At(i) {
          n := n.With(i, p.At(i) - b.At(i));
        } else {
          n := n.With(i, 0.0);
        }
        i := i + 1;
      }
      var e := p.Sub(Closest(p));
      assert n == Vector(n.At(0), n.At(1), n.At(2));
      assert e == Vector(e.At(0), e.At(1), e.At(2));
    }

    /** R(p): the squared distance between p and the box, the squared norm of Normal(p). */
    method R(p: Vector) returns (r: real)
      ensures r == p.Sub(Closest(p)).SquaredNorm()
    {
      ghost var e := p.Sub(Closest(p));
      r := 0.0;
      var i := 0;
      while i < 3
        invariant 0 <= i <= 3
        invariant r == SquaresUpTo(e, i)
      {
        if p.At(i) < a.At(i) {
          var s := p.At(i) - a.At(i);
          assert s == e.At(i);
          r := r + Square(s);
        } else if p.At(i) > b.At(i) {
          var s := p.At(i) - b.At(i);
          assert s == e.At(i);
          r := r + Square(s);
        } else {
          assert e.At(i) == 0.0;
        }
        i := i + 1;
      }
      SquaresUpToAll(e);
    }

    /** Inside(box): the argument box lies strictly inside this one. */
    predicate InsideBox(box: Box)
      reads this, box
    {
      a.Less(box.a) && b.Greater(box.b)
    }

    /** Inside(p): p lies strictly inside the box; a point on a face is not inside. */
    predicate Inside(p: Vector)
      reads this
    {
      a.Less(p) && b.Greater(p)
    }

    /** The octant sub-box: per axis [a, c] or [c, b] by bit of n, c being the centre. */
    method Sub(n: int) returns (r: Box)
      ensures fresh(r)
      ensures r.a == BitSelect(n, a, Center()) && r.b == BitSelect(n, Center(), b)
      ensures r.Diagonal() == Diagonal().Mul(0.5)
      ensures n == 0 ==> r.a == a
      ensures n == 7 ==> r.b == b
    {
      var c := Center();
      r := new Box.FromCorners(BitSelect(n, a, c), BitSelect(n, c, b));
      BitSelectEnds(a, c);
      BitSelectEnds(c, b);
    }

    /** Translate(t): both corners move by t; the diagonal is unchanged. */
    method Translate(t: Vector)
      modifies this
      ensures a == old(a).Add(t) && b == old(b).Add(t)
      ensures Diagonal() == old(Diagonal())
    {
      a := a.Add(t);
      b := b.Add(t);
    }

    /** Translated(t): a shifted copy; this box is not modified (older tree). */
    method Translated(t: Vector) returns (r: Box)
      ensures fresh(r)
      ensures r.a == a.Add(t) && r.b == b.Add(t)
      ensures r.Diagonal() == Diagonal()
    {
      r := new Box.FromCorners(a.Add(t), b.Add(t));
    }

    /**
     * Scale(s): both corners multiplied by s, then exchanged when s is
     * negative, so that a valid box stays valid.
     */
    method Scale(s: real)
      modifies this
      ensures s >= 0.0 ==> a == old(a).Mul(s) && b == old(b).Mul(s)
      ensures s < 0.0 ==> a == old(b).Mul(s) && b == old(a).Mul(s)
      ensures old(a).LessEq(old(b)) ==> a.LessEq(b)
    {
      a := a.Mul(s);
      b := b.Mul(s);
      if s < 0.0 {
        var t := a;
        a := b;
        b := t;
      }
      ScalePreservesOrder(old(a), old(b), s);
    }

    /** Intersection(x): the overlap of the two boxes, invalid when they are disjoint (older tree). */
    method Intersection(x: Box) returns (r: Box)
      ensures fresh(r)
      ensures r.a == Vector.Max(a, x.a) && r.b == Vector.Min(b, x.b)
    {
      r := new Box.FromCorners(Vector.Max(a, x.a), Vector.Min(b, x.b));
    }

    /** Extend(r): a moves down and b moves up by r on every axis (older tree). */
    method Extend(r: real)
      modifies this
      ensures a == old(a).Sub(Uniform(r)) && b == old(b).Add(Uniform(r))
    {
      a := a.Sub(Uniform(r));
      b := b.Add(Uniform(r));
    }

    /** Extended(r): the extended box as a new box; this box is not modified (older tree). */
    method Extended(r: real) returns (e: Box)
      ensures fresh(e)
      ensures e.a == a.Sub(Uniform(r)) && e.b == b.Add(Uniform(r))
    {
      e := new Box.FromCorners(a.Sub(Uniform(r)), b.Add(Uniform(r)));
    }

    /** Extend(p): the smallest enlargement that contains p (older tree). */
    method ExtendToPoint(p: Vector)
      modifies this
      ensures a == Vector.Min(old(a), p) && b == Vector.Max(old(b), p)
      ensures a.LessEq(p) && p.LessEq(b)
      ensures old(a).LessEq(p) && p.LessEq(old(b)) ==> a == old(a) && b == old(b)
    {
      a := Vector.Min(a, p);
      b := Vector.Max(b, p);
    }

    /**
     * SetParallelepipedic(size, x, y, z): resizes the box about its centre
     * so that its sides are x, y and z times the reference size (older tree).
     */
    method SetParallelepipedic(size: real) returns (x: int, y: int, z: int)
      requires size != 0.0
      modifies this
      ensures x == ParallelepipedicCount(old(Diagonal()).x / size)
      ensures y == ParallelepipedicCount(old(Diagonal()).y / size)
      ensures z == ParallelepipedicCount(old(Diagonal()).z / size)
      ensures size > 0.0 && old(a).LessEq(old(b)) ==> x >= 1 && y >= 1 && z >= 1
      ensures Center() == old(Center())
      ensures Diagonal() == Vector(x as real, y as real, z as real).Mul(size)
    {
      var d := b.Sub(a);
      x := ParallelepipedicCount(d.x / size);
      y := ParallelepipedicCount(d.y / size);
      z := ParallelepipedicCount(d.z / size);
      if size > 0.0 && a.LessEq(b) {
        NonNegativeQuotient(d.x, size);
        NonNegativeQuotient(d.y, size);
        NonNegativeQuotient(d.z, size);
      }
      var c := a.Add(b).Mul(0.5);
      var e := Vector(x as real, y as real, z as real).Mul(size).Div(2.0);
      a := c.Sub(e);
      b := c.Add(e);
    }
  }

  /**
   * Coordinate i of Normal(p) is 0 exactly when p lies within the box's
   * range on axis i; so R(p) is 0 exactly when p lies in the closed box,
   * and it is never negative.
   */
  lemma NormalVanishesWithin(box: Box, p: Vector)
    ensures forall i :: 0 <= i < 3 ==>
      (p.Sub(box.Closest(p)).At(i) == 0.0 <==> box.a.At(i) <= p.At(i) <= box.b.At(i))
    ensures p.Sub(box.Closest(p)).SquaredNorm() >= 0.0
    ensures p.Sub(box.Closest(p)).SquaredNorm() == 0.0 <==> box.a.LessEq(p) && p.LessEq(box.b)
  {
    OffsetAxes(box, p);
    NormZeroWithin(p.Sub(box.Closest(p)), box.a, p, box.b);
  }

  /** An offset vanishing exactly within [lo, hi] on each axis has zero norm exactly within the box [lo, hi]. */
  lemma NormZeroWithin(e: Vector, lo: Vector, p: Vector, hi: Vector)
    requires forall i :: 0 <= i < 3 ==> (e.At(i) == 0.0 <==> lo.At(i) <= p.At(i) <= hi.At(i))
    ensures e.SquaredNorm() == 0.0 <==> lo.LessEq(p) && p.LessEq(hi)
  {
    if lo.LessEq(p) && p.LessEq(hi) {
      assert e.At(0) == 0.0 && e.At(1) == 0.0 && e.At(2) == 0.0;
      assert e == Null;
    } else if !(lo.x <= p.x <= hi.x) {
      assert e.At(0) != 0.0;
    } else if !(lo.y <= p.y <= hi.y) {
      assert e.At(1) != 0.0;
    } else {
      assert e.At(2) != 0.0;
    }
    SquaredNormZero(e);
  }

  /** Normal(p) per axis: the offset is 0 exactly within the box's range on that axis. */
  lemma OffsetAxes(box: Box, p: Vector)
    ensures forall i :: 0 <= i < 3 ==>
      (p.Sub(box.Closest(p)).At(i) == 0.0 <==> box.a.At(i) <= p.At(i) <= box.b.At(i))
  {
    var e := p.Sub(box.Closest(p));
    ClampOffsetZero(p.x, box.a.x, box.b.x);
    ClampOffsetZero(p.y, box.a.y, box.b.y);
    ClampOffsetZero(p.z, box.a.z, box.b.z);
    assert e.x == p.x - Math.Clamp(p.x, box.a.x, box.b.x);
    assert e.y == p.y - Math.Clamp(p.y, box.a.y, box.b.y);
    assert e.z == p.z - Math.Clamp(p.z, box.a.z, box.b.z);
  }

  /** The offset of x from its clamp to [a, b] is 0 exactly when x lies in [a, b]. */
  lemma ClampOffsetZero(x: real, a: real, b: real)
    ensures x - Math.Clamp(x, a, b) == 0.0 <==> a <= x <= b
  {
  }

  /** Inside(p) is strict: it implies R(p) == 0, and a point on a face is not inside. */
  lemma InsideIsStrict(box: Box, p: Vector)
    ensures box.Inside(p) ==> p.Sub(box.Closest(p)).SquaredNorm() == 0.0
    ensures (exists i :: 0 <= i < 3 && (p.At(i) == box.a.At(i) || p.At(i) == box.b.At(i))) ==> !box.Inside(p)
  {
    NormalVanishesWithin(box, p);
  }

  /** operator== is reflexive and symmetric. */
  lemma BoxEqualsEquivalence(x: Box, y: Box)
    ensures x.Equals(x)
    ensures x.Equals(y) <==> y.Equals(x)
  {
  }

  /** Every point of a box that lies strictly inside another is strictly inside that one too. */
  lemma InsideBoxContains(outer: Box, inner: Box, p: Vector)
    requires outer.InsideBox(inner)
    requires inner.a.LessEq(p) && p.LessEq(inner.b)
    ensures outer.Inside(p)
  {
  }

  /** Vertex(0) is the lower corner and Vertex(7) the upper one. */
  lemma VertexEnds(box: Box)
    ensures box.Vertex(0) == box.a && box.Vertex(7) == box.b
  {
    BitSelectEnds(box.a, box.b);
  }

  /** Intersection does not depend on the order of the boxes, and disjoint boxes give an invalid one. */
  lemma IntersectionCorners(a: Vector, b: Vector, xa: Vector, xb: Vector)
    ensures Vector.Max(a, xa) == Vector.Max(xa, a) && Vector.Min(b, xb) == Vector.Min(xb, b)
    ensures (exists i :: 0 <= i < 3 && (b.At(i) < xa.At(i) || xb.At(i) < a.At(i))) ==> !Vector.Max(a, xa).LessEq(Vector.Min(b, xb))
  {
    MinMaxCommute(a, xa);
    MinMaxCommute(b, xb);
  }

  /**
   * The inner loop of Box(v): the smallest and the largest coordinate j
   * over the points, scanning from the first point.
   */
  method AxisExtent(v: seq<Vector>, j: int) returns (lo: real, hi: real)
    requires |v| > 0 && 0 <= j < 3
    ensures forall i :: 0 <= i < |v| ==> lo <= v[i].At(j) <= hi
    ensures exists i :: 0 <= i < |v| && lo == v[i].At(j)
    ensures exists i :: 0 <= i < |v| && hi == v[i].At(j)
  {
    lo, hi := v[0].At(j), v[0].At(j);
    ghost var wlo, whi := 0, 0;
    var i := 1;
    while i < |v|
      invariant 1 <= i <= |v|
      invariant 0 <= wlo < |v| && lo == v[wlo].At(j)
      invariant 0 <= whi < |v| && hi == v[whi].At(j)
      invariant forall l :: 0 <= l < i ==> lo <= v[l].At(j) <= hi
    {
      if v[i].At(j) < lo {
        lo, wlo := v[i].At(j), i;
      }
      if v[i].At(j) > hi {
        hi, whi := v[i].At(j), i;
      }
      i := i + 1;
    }
  }

  /** The sum of the squares of the first n coordinates of v. */
  function SquaresUpTo(v: Vector, n: int): real
    requires 0 <= n <= 3
  {
    if n == 0 then 0.0 else SquaresUpTo(v, n - 1) + Square(v.At(n - 1))
  }

  function Square(x: real): real { x * x }

  lemma SquaresUpToAll(v: Vector)
    ensures SquaresUpTo(v, 3) == v.SquaredNorm()
  {
    assert SquaresUpTo(v, 1) == Square(v.x);
    assert SquaresUpTo(v, 2) == Square(v.x) + Square(v.y);
  }

  lemma NonNegativeProduct(x: real, y: real, z: real)
    ensures x >= 0.0 && y >= 0.0 ==> x * y >= 0.0
    ensures x >= 0.0 && y >= 0.0 && z >= 0.0 ==> x * y * z >= 0.0
  {
  }

  lemma NonNegativeQuotient(d: real, size: real)
    requires d >= 0.0 && size > 0.0
    ensures d / size >= 0.0
  {
  }

  /** Multiplying a valid pair of corners by s and exchanging them for negative s keeps the order. */
  lemma ScalePreservesOrder(a: Vector, b: Vector, s: real)
    ensures a.LessEq(b) && s >= 0.0 ==> a.Mul(s).LessEq(b.Mul(s))
    ensures a.LessEq(b) && s < 0.0 ==> b.Mul(s).LessEq(a.Mul(s))
  {
  }
}
