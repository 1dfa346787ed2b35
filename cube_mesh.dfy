// The topology of the cube mesh that Mesh(Box) builds: twelve triangles,
// two per face, each with the index of its face normal.

module CubeMesh {
  import opened Vectors
  import Boxes

  /** The vertex indices of the twelve triangles, two per face. */
  const BoxVarray: seq<int> := [0, 2, 1, 1, 2, 3, 4, 5, 6, 5, 7, 6, 0, 4, 2, 4, 6, 2,
                                 1, 3, 5, 3, 7, 5, 0, 1, 5, 0, 5, 4, 3, 2, 7, 6, 7, 2]

  /** The face normal index of each corner: one per triangle, all three corners alike. */
  const BoxNarray: seq<int> := [4, 4, 4, 4, 4, 4, 5, 5, 5, 5, 5, 5, 0, 0, 0, 0, 0, 0,
                                 1, 1, 1, 1, 1, 1, 2, 2, 2, 2, 2, 2, 3, 3, 3, 3, 3, 3]

  /** -X, X, -Y, Y, -Z, Z. */
  const BoxNormals: seq<Vector> := [X.Neg(), X, Y.Neg(), Y, Z.Neg(), Z]

  /** The axis unit vector along axis i. */
  function Axis(i: int): (v: Vector)
    requires 0 <= i < 3
    ensures v.At(i) == 1.0 && forall k :: 0 <= k < 3 && k != i ==> v.At(k) == 0.0
  {
    if i == 0 then X else if i == 1 then Y else Z
  }

  /**
   * The cube topology: 36 indices, vertex indices below 8, normal indices
   * below 6, every triangle flat; every vertex of the face with normal n
   * has bit n / 2 equal to n % 2, and normal n is axis n / 2, negative for
   * even n and positive for odd n.
   */
  lemma BoxTopology()
    ensures |BoxVarray| == 36 && |BoxNarray| == 36 && |BoxNormals| == 6
    ensures forall c :: 0 <= c < 36 ==> 0 <= BoxVarray[c] < 8 && 0 <= BoxNarray[c] < 6
    ensures forall t :: 0 <= t < 12 ==> BoxNarray[3 * t] == BoxNarray[3 * t + 1] == BoxNarray[3 * t + 2]
    ensures forall c :: 0 <= c < 36 ==> (HasBit(BoxVarray[c], BoxNarray[c] / 2) <==> BoxNarray[c] % 2 == 1)
    ensures forall n :: 0 <= n < 6 ==> BoxNormals[n] == if n % 2 == 1 then Axis(n / 2) else Axis(n / 2).Neg()
  {
    forall t | 0 <= t < 12
      ensures BoxNarray[3 * t] == BoxNarray[3 * t + 1] == BoxNarray[3 * t + 2]
    {
      BoxTriangleFlat(t);
    }
    forall c | 0 <= c < 36
      ensures 0 <= BoxVarray[c] < 8 && 0 <= BoxNarray[c] < 6
      ensures HasBit(BoxVarray[c], BoxNarray[c] / 2) <==> BoxNarray[c] % 2 == 1
    {
      CornerOnFace(c);
    }
    forall n | 0 <= n < 6
      ensures BoxNormals[n] == if n % 2 == 1 then Axis(n / 2) else Axis(n / 2).Neg()
    {
      assert n == 0 || n == 1 || n == 2 || n == 3 || n == 4 || n == 5;
    }
  }

  lemma BoxTriangleFlat(t: int)
    requires 0 <= t < 12
    ensures BoxNarray[3 * t] == BoxNarray[3 * t + 1] == BoxNarray[3 * t + 2]
  {
    if t < 6 {
      assert t == 0 || t == 1 || t == 2 || t == 3 || t == 4 || t == 5;
    } else {
      assert t == 6 || t == 7 || t == 8 || t == 9 || t == 10 || t == 11;
    }
  }

  lemma CornerOnFace(c: int)
    requires 0 <= c < 36
    ensures 0 <= BoxVarray[c] < 8 && 0 <= BoxNarray[c] < 6
    ensures HasBit(BoxVarray[c], BoxNarray[c] / 2) <==> BoxNarray[c] % 2 == 1
  {
    if c < 12 {
      assert c == 0 || c == 1 || c == 2 || c == 3 || c == 4 || c == 5 || c == 6 || c == 7
          || c == 8 || c == 9 || c == 10 || c == 11;
    } else if c < 24 {
      assert c == 12 || c == 13 || c == 14 || c == 15 || c == 16 || c == 17 || c == 18 || c == 19
          || c == 20 || c == 21 || c == 22 || c == 23;
    } else {
      assert c == 24 || c == 25 || c == 26 || c == 27 || c == 28 || c == 29 || c == 30 || c == 31
          || c == 32 || c == 33 || c == 34 || c == 35;
    }
  }

  /**
   * Every corner of a triangle of Mesh(Box) lies on the face its normal
   * names: on axis n / 2 the corner's coordinate is that of the upper
   * corner b for odd n and of the lower corner a for even n.
   */
  lemma BoxCornersOnFaces(box: Boxes.Box, c: int)
    requires 0 <= c < 36
    ensures var n := BoxNarray[c];
      box.Vertex(BoxVarray[c]).At(n / 2) == (if n % 2 == 1 then box.b else box.a).At(n / 2)
  {
    CornerOnFace(c);
  }
}
