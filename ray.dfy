// A ray with an origin and a direction; the direction is stored as given,
// without normalisation.

module Rays {
  import opened Vectors

  datatype Ray = Ray(origin: Vector, direction: Vector)
  {
    /** operator(): the point origin + t direction, for any real t. */
    function At(t: real): (r: Vector)
      ensures r.Sub(origin) == direction.Mul(t)
    {
      origin.Add(direction.Mul(t))
    }

    /**
     * The ray reflected at point p about the (not normalised) normal:
     * it starts at p and its direction is n - 2 normal (n . normal).
     */
    function Reflect(p: Vector, normal: Vector): (r: Ray)
      ensures r.origin == p
      ensures r.direction.Dot(normal) == direction.Dot(normal) * (1.0 - 2.0 * normal.SquaredNorm())
    {
      ReflectedDot(direction, normal);
      Ray(p, direction.Sub(normal.Mul(2.0).Mul(direction.Dot(normal))))
    }
  }

  lemma ReflectedDot(n: Vector, normal: Vector)
    ensures n.Sub(normal.Mul(2.0).Mul(n.Dot(normal))).Dot(normal)
      == n.Dot(normal) * (1.0 - 2.0 * normal.SquaredNorm())
  {
    var d := n.Dot(normal);
    var m := normal.Mul(2.0).Mul(d);
    MulMul(normal, 2.0, d);
    DotScaledSelf(normal, 2.0 * d);
    DotSub(n, m, normal);
    Combine(n.Sub(m).Dot(normal), d, m.Dot(normal), normal.SquaredNorm());
  }

  lemma MulMul(v: Vector, a: real, b: real)
    ensures v.Mul(a).Mul(b) == v.Mul(a * b)
  {
  }

  lemma DotSub(a: Vector, b: Vector, c: Vector)
    ensures a.Sub(b).Dot(c) == a.Dot(c) - b.Dot(c)
  {
  }

  lemma DotScaledSelf(v: Vector, k: real)
    ensures v.Mul(k).Dot(v) == k * v.SquaredNorm()
  {
  }

  lemma Combine(r: real, d: real, md: real, s: real)
    requires r == d - md && md == 2.0 * d * s
    ensures r == d * (1.0 - 2.0 * s)
  {
  }

  /** The evaluation at 0 and 1, and the difference of two evaluations. */
  lemma AtProperties(ray: Ray, t1: real, t2: real)
    ensures ray.At(0.0) == ray.origin
    ensures ray.At(1.0) == ray.origin.Add(ray.direction)
    ensures ray.At(t1).Sub(ray.At(t2)) == ray.direction.Mul(t1 - t2)
  {
  }

  /**
   * Reflecting about a unit normal negates the normal component of the
   * direction; a direction tangent to the surface is kept as is.
   */
  lemma ReflectNormalComponent(ray: Ray, p: Vector, normal: Vector)
    ensures normal.SquaredNorm() == 1.0 ==> ray.Reflect(p, normal).direction.Dot(normal) == -ray.direction.Dot(normal)
    ensures ray.direction.Dot(normal) == 0.0 ==> ray.Reflect(p, normal).direction == ray.direction
  {
  }
}
