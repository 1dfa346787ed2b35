// The triangle of three vertices and the Moller-Trumbore ray intersection
// ("Fast, minimum storage ray-triangle intersection", Journal of Graphics
// Tools 2(1), 1997). The geometric kernels are functions of the three
// vertices, so the mesh can use them on triangles it never builds; the
// Triangle class delegates to them.

module Triangles {
  import opened Vectors
  import opened Rays
  import Boxes

  /** The internal epsilon of the class: determinants in (-Epsilon, Epsilon) are rejected. */
  const Epsilon: real := 0.0000001

  /** The outcome of Intersect: no hit, or the depth t and the parametric coordinates (u, v). */
  datatype Intersection = Miss | Hit(t: real, u: real, v: real)

  /** The point p0 + u (p1 - p0) + v (p2 - p0) of parametric coordinates (u, v), not clamped. */
  function PointAt(p0: Vector, p1: Vector, p2: Vector, u: real, v: real): Vector
  {
    p0.Add(p1.Sub(p0).Mul(u)).Add(p2.Sub(p0).Mul(v))
  }

  /** Half the cross product of the two edges from p0: the normal scaled by the area. */
  function AreaNormalOf(p0: Vector, p1: Vector, p2: Vector): Vector
  {
    p1.Sub(p0).Cross(p2.Sub(p0)).Mul(0.5)
  }

  lemma HalfCrossOrthogonal(e0: Vector, e1: Vector)
    ensures e0.Cross(e1).Mul(0.5).Dot(e0) == 0.0 && e0.Cross(e1).Mul(0.5).Dot(e1) == 0.0
  {
    CrossProperties(e0, e1);
    ScaledDot(e0.Cross(e1), 0.5, e0);
    ScaledDot(e0.Cross(e1), 0.5, e1);
  }

  lemma ScaledDot(w: Vector, k: real, e: Vector)
    ensures w.Mul(k).Dot(e) == k * w.Dot(e)
  {
  }

  /** The determinant Intersect tests: e0 . (direction x e1), with e0, e1 the edges from p0. */
  function Determinant(p0: Vector, p1: Vector, p2: Vector, ray: Ray): real
  {
    p1.Sub(p0).Dot(ray.direction.Cross(p2.Sub(p0)))
  }

  /** s . pvec with s = origin - p0: det times the u coordinate. */
  function UNumerator(p0: Vector, p1: Vector, p2: Vector, ray: Ray): real
  {
    ray.origin.Sub(p0).Dot(ray.direction.Cross(p2.Sub(p0)))
  }

  /** d . qvec with qvec = s x e0: det times the v coordinate. */
  function VNumerator(p0: Vector, p1: Vector, p2: Vector, ray: Ray): real
  {
    ray.direction.Dot(ray.origin.Sub(p0).Cross(p1.Sub(p0)))
  }

  /** e1 . qvec: det times the depth t. */
  function TNumerator(p0: Vector, p1: Vector, p2: Vector, ray: Ray): real
  {
    p2.Sub(p0).Dot(ray.origin.Sub(p0).Cross(p1.Sub(p0)))
  }

  /**
   * Intersect: the Moller-Trumbore test. The quantities are those of the
   * source (det = e0 . pvec, u = (s . pvec) / det, v = (d . qvec) / det,
   * t = (e1 . qvec) / det with pvec = d x e1, qvec = s x e0, s = origin - p0),
   * and the branches are those of Classify.
   */
  function MollerTrumbore(p0: Vector, p1: Vector, p2: Vector, ray: Ray): (r: Intersection)
    ensures -Epsilon < Determinant(p0, p1, p2, ray) < Epsilon ==> r == Miss
    ensures r.Hit? ==> 0.0 <= r.u <= 1.0 && 0.0 <= r.v && r.u + r.v <= 1.0
    ensures r.Hit? ==> ray.At(r.t) == PointAt(p0, p1, p2, r.u, r.v)
  {
    var det, U, V, T := Determinant(p0, p1, p2, ray), UNumerator(p0, p1, p2, ray),
                        VNumerator(p0, p1, p2, ray), TNumerator(p0, p1, p2, ray);
    var r := Classify(det, U, V, T);
    if r.Hit? then Solution(p0, p1, p2, ray, det, U, V, T); r else r
  }

  /**
   * The branches of Intersect on its four scalars: a determinant in
   * (-Epsilon, Epsilon) is a miss; then u = U / det outside [0, 1] is a
   * miss; then v = V / det < 0 or u + v > 1 is a miss; otherwise the hit
   * at depth t = T / det, whose sign is not checked. The source multiplies
   * by the reciprocal 1 / det, as here.
   */
  function Classify(det: real, U: real, V: real, T: real): (r: Intersection)
    ensures -Epsilon < det < Epsilon ==> r == Miss
    ensures r.Hit? ==> det != 0.0 && r == Hit(Ratio(T, det), Ratio(U, det), Ratio(V, det))
    ensures r.Hit? ==> 0.0 <= r.u <= 1.0 && 0.0 <= r.v && r.u + r.v <= 1.0
  {
    if det > -Epsilon && det < Epsilon then Miss
    else
      var u := Ratio(U, det);
      if u < 0.0 || u > 1.0 then Miss
      else
        var v := Ratio(V, det);
        if v < 0.0 || u + v > 1.0 then Miss
        else Hit(Ratio(T, det), u, v)
  }

  /** A numerator times the reciprocal of the determinant, as the source computes its quotients. */
  function Ratio(n: real, det: real): real
    requires det != 0.0
  {
    n * (1.0 / det)
  }

  /** Classify finds every admissible (t, u, v): the converse of its contract. */
  lemma ClassifyComplete(det: real, U: real, V: real, T: real, t: real, u: real, v: real)
    requires !(-Epsilon < det < Epsilon)
    requires Ratio(U, det) == u && Ratio(V, det) == v && Ratio(T, det) == t
    requires 0.0 <= u <= 1.0 && 0.0 <= v && u + v <= 1.0
    ensures Classify(det, U, V, T) == Hit(t, u, v)
  {
  }

  /**
   * Cramer's rule behind the test: with s = origin - p0, the quantities
   * det, U = s . pvec, V = d . qvec and T = e1 . qvec satisfy
   * det s + T d == U e0 + V e1; dividing by det puts the ray point at
   * depth T / det on the triangle point (U / det, V / det).
   */
  lemma Solution(p0: Vector, p1: Vector, p2: Vector, ray: Ray, det: real, U: real, V: real, T: real)
    requires det == Determinant(p0, p1, p2, ray) && det != 0.0
    requires U == UNumerator(p0, p1, p2, ray) && V == VNumerator(p0, p1, p2, ray) && T == TNumerator(p0, p1, p2, ray)
    ensures ray.At(Ratio(T, det)) == PointAt(p0, p1, p2, Ratio(U, det), Ratio(V, det))
  {
    var e0, e1, s, d := p1.Sub(p0), p2.Sub(p0), ray.origin.Sub(p0), ray.direction;
    Cramer(e0, e1, d, s);
    DivideByDeterminant(det, U, V, T, s, d, e0, e1);
    Assemble(p0, e0, e1, ray, Ratio(T, det), Ratio(U, det), Ratio(V, det));
  }

  /** det s + T d == U e0 + V e1 divided through by det. */
  lemma DivideByDeterminant(det: real, U: real, V: real, T: real, s: Vector, d: Vector, e0: Vector, e1: Vector)
    requires det != 0.0
    requires s.Mul(det).Add(d.Mul(T)) == e0.Mul(U).Add(e1.Mul(V))
    ensures s.Add(d.Mul(Ratio(T, det))) == e0.Mul(Ratio(U, det)).Add(e1.Mul(Ratio(V, det)))
  {
    var u, v, t := Ratio(U, det), Ratio(V, det), Ratio(T, det);
    Scaled(s, d, e0, e1, det, U, V, T);
    Divided(det, s.x, T, d.x, U, e0.x, V, e1.x);
    Divided(det, s.y, T, d.y, U, e0.y, V, e1.y);
    Divided(det, s.z, T, d.z, U, e0.z, V, e1.z);
    Combined(s, d, e0, e1, u, v, t);
  }

  /** The coordinates of det s + T d == U e0 + V e1. */
  lemma Scaled(s: Vector, d: Vector, e0: Vector, e1: Vector, det: real, U: real, V: real, T: real)
    requires s.Mul(det).Add(d.Mul(T)) == e0.Mul(U).Add(e1.Mul(V))
    ensures s.x * det + d.x * T == e0.x * U + e1.x * V
    ensures s.y * det + d.y * T == e0.y * U + e1.y * V
    ensures s.z * det + d.z * T == e0.z * U + e1.z * V
  {
    var l, r := s.Mul(det).Add(d.Mul(T)), e0.Mul(U).Add(e1.Mul(V));
    assert l.x == r.x && l.y == r.y && l.z == r.z;
  }

  /** s + t d == u e0 + v e1 from its coordinates. */
  lemma Combined(s: Vector, d: Vector, e0: Vector, e1: Vector, u: real, v: real, t: real)
    requires s.x + d.x * t == e0.x * u + e1.x * v
    requires s.y + d.y * t == e0.y * u + e1.y * v
    requires s.z + d.z * t == e0.z * u + e1.z * v
    ensures s.Add(d.Mul(t)) == e0.Mul(u).Add(e1.Mul(v))
  {
  }

  /** The ray point at depth t is the triangle point (u, v) once origin - p0 + t d == u e0 + v e1. */
  lemma Assemble(p0: Vector, e0: Vector, e1: Vector, ray: Ray, t: real, u: real, v: real)
    requires ray.origin.Sub(p0).Add(ray.direction.Mul(t)) == e0.Mul(u).Add(e1.Mul(v))
    ensures ray.At(t) == p0.Add(e0.Mul(u)).Add(e1.Mul(v))
  {
  }

  /** Cramer's identity in vector form: det s + T d == U e0 + V e1. */
  lemma Cramer(e0: Vector, e1: Vector, d: Vector, s: Vector)
    ensures
      var pvec, qvec := d.Cross(e1), s.Cross(e0);
      var det, U, V, T := e0.Dot(pvec), s.Dot(pvec), d.Dot(qvec), e1.Dot(qvec);
      s.Mul(det).Add(d.Mul(T)) == e0.Mul(U).Add(e1.Mul(V))
  {
    CramerX(e0, e1, d, s);
    CramerY(e0, e1, d, s);
    CramerZ(e0, e1, d, s);
  }

  lemma CramerX(e0: Vector, e1: Vector, d: Vector, s: Vector)
    ensures
      var pvec, qvec := d.Cross(e1), s.Cross(e0);
      s.x * e0.Dot(pvec) + d.x * e1.Dot(qvec) == e0.x * s.Dot(pvec) + e1.x * d.Dot(qvec)
  {
  }

  lemma CramerY(e0: Vector, e1: Vector, d: Vector, s: Vector)
    ensures
      var pvec, qvec := d.Cross(e1), s.Cross(e0);
      s.y * e0.Dot(pvec) + d.y * e1.Dot(qvec) == e0.y * s.Dot(pvec) + e1.y * d.Dot(qvec)
  {
  }

  lemma CramerZ(e0: Vector, e1: Vector, d: Vector, s: Vector)
    ensures
      var pvec, qvec := d.Cross(e1), s.Cross(e0);
      s.z * e0.Dot(pvec) + d.z * e1.Dot(qvec) == e0.z * s.Dot(pvec) + e1.z * d.Dot(qvec)
  {
  }

  /**
   * Completeness: when the determinant passes the test, any ray point
   * that is a triangle point (u, v) with u, v >= 0 and u + v <= 1 is
   * found, with exactly that depth and those coordinates. Together with
   * the contract of MollerTrumbore, a hit is returned exactly for the
   * points of the triangle on the ray's line.
   */
  lemma {:induction false} MollerTrumboreComplete(p0: Vector, p1: Vector, p2: Vector, ray: Ray, t: real, u: real, v: real)
    requires !(-Epsilon < Determinant(p0, p1, p2, ray) < Epsilon)
    requires 0.0 <= u <= 1.0 && 0.0 <= v && u + v <= 1.0
    requires ray.At(t) == PointAt(p0, p1, p2, u, v)
    ensures MollerTrumbore(p0, p1, p2, ray) == Hit(t, u, v)
  {
    var e0, e1, s, d := p1.Sub(p0), p2.Sub(p0), ray.origin.Sub(p0), ray.direction;
    var det := Determinant(p0, p1, p2, ray);
    Disassemble(p0, e0, e1, ray, t, u, v);
    var U, V, T := UNumerator(p0, p1, p2, ray), VNumerator(p0, p1, p2, ray), TNumerator(p0, p1, p2, ray);
    UCoordinate(e0, e1, d, s, t, u, v);
    VCoordinate(e0, e1, d, s, t, u, v);
    Depth(e0, e1, d, s, t, u, v);
    Recover(det, u, U);
    Recover(det, v, V);
    Recover(det, t, T);
    ClassifyComplete(det, U, V, T, t, u, v);
  }

  /** The converse of Assemble. */
  lemma Disassemble(p0: Vector, e0: Vector, e1: Vector, ray: Ray, t: real, u: real, v: real)
    requires ray.At(t) == p0.Add(e0.Mul(u)).Add(e1.Mul(v))
    ensures ray.origin.Sub(p0).Add(ray.direction.Mul(t)) == e0.Mul(u).Add(e1.Mul(v))
  {
  }

  /** A quantity equal to x det is recovered as x by the multiplication with 1 / det. */
  lemma Recover(det: real, x: real, X: real)
    requires det != 0.0 && X == x * det
    ensures Ratio(X, det) == x
  {
  }

  /** Dotting s + t d == u e0 + v e1 with any w. */
  lemma DotBoth(e0: Vector, e1: Vector, d: Vector, s: Vector, t: real, u: real, v: real, w: Vector)
    requires s.Add(d.Mul(t)) == e0.Mul(u).Add(e1.Mul(v))
    ensures s.Dot(w) + t * d.Dot(w) == u * e0.Dot(w) + v * e1.Dot(w)
  {
    Combination(s, 1.0, d, t, w);
    Combination(e0, u, e1, v, w);
    assert s.Mul(1.0) == s;
  }

  lemma Combination(a: Vector, x: real, b: Vector, y: real, w: Vector)
    ensures a.Mul(x).Add(b.Mul(y)).Dot(w) == x * a.Dot(w) + y * b.Dot(w)
  {
  }

  /** The scalar triple product is invariant under cyclic rotation. */
  lemma Triple(a: Vector, b: Vector, c: Vector)
    ensures a.Dot(b.Cross(c)) == b.Dot(c.Cross(a))
  {
  }

  /** Dotting with pvec = d x e1: s . pvec == u det. */
  lemma UCoordinate(e0: Vector, e1: Vector, d: Vector, s: Vector, t: real, u: real, v: real)
    requires s.Add(d.Mul(t)) == e0.Mul(u).Add(e1.Mul(v))
    ensures s.Dot(d.Cross(e1)) == u * e0.Dot(d.Cross(e1))
  {
    var w := d.Cross(e1);
    DotBoth(e0, e1, d, s, t, u, v, w);
    CrossProperties(d, e1);
    DotCommutes(w, d);
    DotCommutes(w, e1);
  }

  /** Dotting with e0 x d: d . qvec == v det. */
  lemma VCoordinate(e0: Vector, e1: Vector, d: Vector, s: Vector, t: real, u: real, v: real)
    requires s.Add(d.Mul(t)) == e0.Mul(u).Add(e1.Mul(v))
    ensures d.Dot(s.Cross(e0)) == v * e0.Dot(d.Cross(e1))
  {
    var w := e0.Cross(d);
    DotBoth(e0, e1, d, s, t, u, v, w);
    CrossProperties(e0, d);
    DotCommutes(w, d);
    DotCommutes(w, e0);
    Triple(d, s, e0);
    Triple(e1, e0, d);
  }

  /** Dotting with e0 x e1: e1 . qvec == t det. */
  lemma Depth(e0: Vector, e1: Vector, d: Vector, s: Vector, t: real, u: real, v: real)
    requires s.Add(d.Mul(t)) == e0.Mul(u).Add(e1.Mul(v))
    ensures e1.Dot(s.Cross(e0)) == t * e0.Dot(d.Cross(e1))
  {
    var w := e0.Cross(e1);
    DotBoth(e0, e1, d, s, t, u, v, w);
    CrossProperties(e0, e1);
    DotCommutes(w, e0);
    DotCommutes(w, e1);
    Triple(e1, s, e0);
    Triple(d, e0, e1);
    Triple(e0, d, e1);
    CrossProperties(e1, d);
  }

  /** One coordinate of det s + T d == U a + V b, divided by det. */
  lemma Divided(det: real, s: real, T: real, d: real, U: real, a: real, V: real, b: real)
    requires det != 0.0
    requires s * det + d * T == a * U + b * V
    ensures s + d * Ratio(T, det) == a * Ratio(U, det) + b * Ratio(V, det)
  {
    var inv := 1.0 / det;
    assert det * inv == 1.0;
    calc {
      s + d * (T * inv);
    ==
      (s * det) * inv + (d * T) * inv;
    ==
      (s * det + d * T) * inv;
    ==
      (a * U + b * V) * inv;
    ==
      a * (U * inv) + b * (V * inv);
    }
  }

  /** The triangle (0, X, Y) has the area normal Z / 2. */
  lemma AreaNormalOfUnit()
    ensures AreaNormalOf(Null, X, Y) == Vector(0.0, 0.0, 0.5)
  {
    assert X.Sub(Null) == X && Y.Sub(Null) == Y;
    assert X.Cross(Y) == Z;
  }

  /** The triangle (0, Y, X), clockwise seen from +Z, has the area normal -Z / 2. */
  lemma AreaNormalOfClockwise()
    ensures AreaNormalOf(Null, Y, X) == Vector(0.0, 0.0, -0.5)
  {
    assert Y.Sub(Null) == Y && X.Sub(Null) == X;
    assert Y.Cross(X) == Vector(0.0, 0.0, -1.0);
  }

  /** The area normal depends only on the edges, so a common translation keeps it. */
  lemma AreaNormalTranslation(p0: Vector, p1: Vector, p2: Vector, t: Vector)
    ensures AreaNormalOf(p0.Add(t), p1.Add(t), p2.Add(t)) == AreaNormalOf(p0, p1, p2)
  {
    assert p1.Add(t).Sub(p0.Add(t)) == p1.Sub(p0);
    assert p2.Add(t).Sub(p0.Add(t)) == p2.Sub(p0);
  }

  /**
   * A triangle stored as its array of three vertices, updated in place
   * by Translate.
   */
  class Triangle {
    const p: array<Vector>

    predicate Valid() { p.Length == 3 }

    /** Triangle(a, b, c): operator[] then returns a, b and c for 0, 1 and 2. */
    constructor (a: Vector, b: Vector, c: Vector)
      ensures Valid() && fresh(p)
      ensures p[0] == a && p[1] == b && p[2] == c
    {
      p := new Vector[3][a, b, c];
    }

    /** operator[] */
    function At(i: int): Vector
      requires Valid() && 0 <= i < 3
      reads p
    {
      p[i]
    }

    /** Center: the barycentre (p0 + p1 + p2) / 3, three times which is the sum of the vertices. */
    function Center(): (r: Vector)
      requires Valid()
      reads p
      ensures r.Mul(3.0) == p[0].Add(p[1]).Add(p[2])
    {
      p[0].Add(p[1]).Add(p[2]).Div(3.0)
    }

    /** Vertex(u, v): the point of parametric coordinates (u, v); its corners are the vertices. */
    function Vertex(u: real, v: real): (r: Vector)
      requires Valid()
      reads p
      ensures u == 0.0 && v == 0.0 ==> r == p[0]
      ensures u == 1.0 && v == 0.0 ==> r == p[1]
      ensures u == 0.0 && v == 1.0 ==> r == p[2]
    {
      PointAt(p[0], p[1], p[2], u, v)
    }

    /** AreaNormal: perpendicular to both edges from p0. */
    function AreaNormal(): (r: Vector)
      requires Valid()
      reads p
      ensures r.Dot(p[1].Sub(p[0])) == 0.0 && r.Dot(p[2].Sub(p[0])) == 0.0
    {
      HalfCrossOrthogonal(p[1].Sub(p[0]), p[2].Sub(p[0]));
      AreaNormalOf(p[0], p[1], p[2])
    }

    /**
     * Intersect: a hit has 0 <= u <= 1, v >= 0, u + v <= 1 and puts the
     * ray point at depth t on Vertex(u, v); a determinant in
     * (-Epsilon, Epsilon) is a miss.
     */
    function Intersect(ray: Ray): (r: Intersection)
      requires Valid()
      reads p
      ensures -Epsilon < Determinant(p[0], p[1], p[2], ray) < Epsilon ==> r == Miss
      ensures r.Hit? ==> 0.0 <= r.u <= 1.0 && 0.0 <= r.v && r.u + r.v <= 1.0
      ensures r.Hit? ==> ray.At(r.t) == Vertex(r.u, r.v)
    {
      MollerTrumbore(p[0], p[1], p[2], ray)
    }

    /** Translate(t): adds t to every vertex, in a loop; the area normal is unchanged. */
    method Translate(t: Vector)
      requires Valid()
      modifies p
      ensures forall i :: 0 <= i < 3 ==> p[i] == old(p[i]).Add(t)
      ensures AreaNormal() == old(AreaNormal())
    {
      var i := 0;
      while i < 3
        invariant 0 <= i <= 3
        invariant forall k :: 0 <= k < i ==> p[k] == old(p[k]).Add(t)
        invariant forall k :: i <= k < 3 ==> p[k] == old(p[k])
      {
        p[i] := p[i].Add(t);
        i := i + 1;
      }
      AreaNormalTranslation(old(p[0]), old(p[1]), old(p[2]), t);
    }

    /** GetBox: the box from the componentwise minimum to the maximum of the vertices, which contains each vertex. */
    method GetBox() returns (box: Boxes.Box)
      requires Valid()
      ensures fresh(box)
      ensures box.a == Vector.Min(Vector.Min(p[0], p[1]), p[2])
      ensures box.b == Vector.Max(Vector.Max(p[0], p[1]), p[2])
      ensures forall i :: 0 <= i < 3 ==> box.a.LessEq(p[i]) && p[i].LessEq(box.b)
    {
      box := new Boxes.Box.FromCorners(Vector.Min(Vector.Min(p[0], p[1]), p[2]), Vector.Max(Vector.Max(p[0], p[1]), p[2]));
    }
  }

  /** The barycentre is the point of parametric coordinates (1/3, 1/3). */
  lemma CenterIsBarycentric(tri: Triangle)
    requires tri.Valid()
    ensures tri.Center() == tri.Vertex(1.0 / 3.0, 1.0 / 3.0)
  {
  }
}
