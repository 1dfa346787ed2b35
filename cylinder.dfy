// The cylinder of the modeller: two end points a and b and a stored
// radius r, updated in place by Translate and Scale.

module Cylinders {
  import opened Vectors

  /** The epsilon of the class, used by intersection tests and round-off checks. */
  const Epsilon: real := 0.00001

  /**
   * The end points after Scale(s): both multiplied by s, exchanged when s
   * is negative.
   */
  function ScaledEnds(a: Vector, b: Vector, s: real): (r: (Vector, Vector))
  {
    if s < 0.0 then (b.Mul(s), a.Mul(s)) else (a.Mul(s), b.Mul(s))
  }

  /** Scaling by -1 twice gives back the original end points, in their original order. */
  lemma ScaledEndsMinusOneTwice(a: Vector, b: Vector)
    ensures var (a1, b1) := ScaledEnds(a, b, -1.0); ScaledEnds(a1, b1, -1.0) == (a, b)
  {
    var (a1, b1) := ScaledEnds(a, b, -1.0);
    assert a1 == b.Mul(-1.0) && b1 == a.Mul(-1.0);
    assert b1.Mul(-1.0) == a && a1.Mul(-1.0) == b;
  }

  /**
   * For a positive factor the end points keep their order; for a negative
   * one the exchange restores it, as for Box::Scale.
   */
  lemma ScaledEndsOrder(a: Vector, b: Vector, s: real)
    requires a.LessEq(b)
    ensures ScaledEnds(a, b, s).0.LessEq(ScaledEnds(a, b, s).1)
  {
    if s < 0.0 {
      assert b.Mul(s).LessEq(a.Mul(s)) by {
        assert b.x * s <= a.x * s && b.y * s <= a.y * s && b.z * s <= a.z * s;
      }
    } else {
      assert a.x * s <= b.x * s && a.y * s <= b.y * s && a.z * s <= b.z * s;
    }
  }

  class Cylinder {
    var a: Vector
    var b: Vector
    var r: real

    /** Cylinder(a, b, r): all three stored as given, without an ordering check. */
    constructor (a: Vector, b: Vector, r: real)
      ensures this.a == a && this.b == b && this.r == r
    {
      this.a := a;
      this.b := b;
      this.r := r;
    }

    /** operator[]: index 0 gives a, any other index gives b. */
    function At(i: int): (v: Vector)
      reads this
      ensures i == 0 ==> v == a
      ensures i != 0 ==> v == b
    {
      if i == 0 then a else b
    }

    /** Radius(): half of the stored value r. */
    function Radius(): (h: real)
      reads this
      ensures 2.0 * h == r
    {
      0.5 * r
    }

    /** Vertex(k): coordinate i from b when bit i of k is set, from a otherwise. */
    function Vertex(k: int): (v: Vector)
      reads this
      ensures forall i :: 0 <= i < 3 ==> v.At(i) == if HasBit(k, i) then b.At(i) else a.At(i)
      ensures k == 0 ==> v == a
      ensures k == 7 ==> v == b
    {
      BitSelectEnds(a, b);
      BitSelect(k, a, b)
    }

    /** operator==: the end points only; the radius is not compared. operator!= is its negation. */
    predicate Equals(other: Cylinder)
      reads this, other
    {
      a == other.a && b == other.b
    }

    /** Translate(t): both end points move by t; the radius is unchanged. */
    method Translate(t: Vector)
      modifies this
      ensures a == old(a).Add(t) && b == old(b).Add(t)
      ensures r == old(r)
    {
      a := a.Add(t);
      b := b.Add(t);
    }

    /**
     * Scale(s): both end points multiplied by s, exchanged through a
     * temporary when s is negative; the radius is not scaled.
     */
    method Scale(s: real)
      modifies this
      ensures (a, b) == ScaledEnds(old(a), old(b), s)
      ensures r == old(r)
    {
      a := a.Mul(s);
      b := b.Mul(s);
      if s < 0.0 {
        var t := a;
        a := b;
        b := t;
      }
    }
  }

  /** Cylinders that differ only in their radius compare equal. */
  lemma EqualsIgnoresRadius(c: Cylinder, d: Cylinder)
    requires c.a == d.a && c.b == d.b && c.r != d.r
    ensures c.Equals(d) && c.Radius() != d.Radius()
  {
  }
}
