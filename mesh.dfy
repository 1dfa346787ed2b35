// The indexed triangle mesh: vertices, normals, and the two index arrays
// varray and narray, where corner c of the flattened triangle list uses
// vertices[varray[c]] and normals[narray[c]]. The arrays grow in place
// (the Add* builders, Load) and are rewritten in place (SmoothNormals,
// Scale, Translate).

module Meshes {
  import opened Vectors
  import opened Rays
  import Boxes
  import Tri = Triangles
  import opened CubeMesh

  datatype Option<T> = None | Some(value: T)

  /** Every entry of idx is a valid offset into an array of n elements. */
  predicate IndicesIn(idx: seq<int>, n: int)
  {
    forall c :: 0 <= c < |idx| ==> 0 <= idx[c] < n
  }

  /** The entries of the complete triangles of idx are valid offsets into an array of n elements. */
  predicate TriangleIndicesIn(idx: seq<int>, n: int)
  {
    forall c :: 0 <= c < |idx| / 3 * 3 ==> 0 <= idx[c] < n
  }

  /** A snapshot of the four arrays of a mesh. */
  datatype Arrays = Arrays(vertices: seq<Vector>, normals: seq<Vector>, varray: seq<int>, narray: seq<int>)

  const EmptyArrays: Arrays := Arrays([], [], [], [])

  /** The mesh invariant: paired index arrays, whole triangles, every index in bounds. */
  predicate WellFormed(m: Arrays)
  {
    |m.varray| == |m.narray| && |m.varray| % 3 == 0
    && IndicesIn(m.varray, |m.vertices|) && IndicesIn(m.narray, |m.normals|)
  }

  // ---- Area-weighted normal accumulation (SmoothNormals) ----

  /** The area normal of triangle t, the weight SmoothNormals adds to each of its corners. */
  function FaceNormal(vertices: seq<Vector>, varray: seq<int>, t: int): Vector
    requires IndicesIn(varray, |vertices|) && 0 <= t && 3 * t + 2 < |varray|
  {
    Tri.AreaNormalOf(vertices[varray[3 * t]], vertices[varray[3 * t + 1]], vertices[varray[3 * t + 2]])
  }

  /** The area normals of all the triangles, in order. */
  function FaceNormals(vertices: seq<Vector>, varray: seq<int>): (w: seq<Vector>)
    requires |varray| % 3 == 0 && IndicesIn(varray, |vertices|)
    ensures 3 * |w| == |varray|
    ensures forall t :: 0 <= t < |w| ==> w[t] == FaceNormal(vertices, varray, t)
  {
    seq(|varray| / 3, t requires 0 <= t < |varray| / 3 => FaceNormal(vertices, varray, t))
  }

  /**
   * The normal slots after the first n corners have been accumulated:
   * corner c adds the weight w[c / 3] of its triangle into slot
   * varray[c], starting from init.
   */
  function Accumulate(init: seq<Vector>, varray: seq<int>, w: seq<Vector>, n: int): (r: seq<Vector>)
    requires 0 <= n <= |varray| == 3 * |w| && IndicesIn(varray, |init|)
    ensures |r| == |init|
    decreases n
  {
    if n == 0 then init
    else
      var s := Accumulate(init, varray, w, n - 1);
      var k := varray[n - 1];
      s[k := s[k].Add(w[(n - 1) / 3])]
  }

  /** Corner c of triangle t adds the weight of t into slot varray[c]. */
  lemma AccumulateStep(init: seq<Vector>, varray: seq<int>, w: seq<Vector>, c: int, t: int)
    requires 0 <= t < |w| && 3 * t <= c < 3 * t + 3 && |varray| == 3 * |w| && IndicesIn(varray, |init|)
    ensures var s := Accumulate(init, varray, w, c);
      Accumulate(init, varray, w, c + 1) == s[varray[c] := s[varray[c]].Add(w[t])]
  {
    assert c / 3 == t;
  }

  /** The sum of the weights of the triangles of the first n corners that reference vertex k. */
  function CornerSum(varray: seq<int>, w: seq<Vector>, k: int, n: int): Vector
    requires 0 <= n <= |varray| == 3 * |w|
    decreases n
  {
    if n == 0 then Null
    else CornerSum(varray, w, k, n - 1).Add(if varray[n - 1] == k then w[(n - 1) / 3] else Null)
  }

  /**
   * Slot k after accumulation holds its initial value plus the weight of
   * every triangle corner that references vertex k.
   */
  lemma {:induction false} AccumulateAt(init: seq<Vector>, varray: seq<int>, w: seq<Vector>, n: int, k: int)
    requires 0 <= n <= |varray| == 3 * |w| && IndicesIn(varray, |init|)
    requires 0 <= k < |init|
    ensures Accumulate(init, varray, w, n)[k] == init[k].Add(CornerSum(varray, w, k, n))
  {
    if n == 0 {
      AddNull(init[k]);
    } else {
      AccumulateAt(init, varray, w, n - 1, k);
      var prev := CornerSum(varray, w, k, n - 1);
      var fn := w[(n - 1) / 3];
      if varray[n - 1] == k {
        AddAssociates(init[k], prev, fn);
      } else {
        AddNull(prev);
      }
    }
  }

  lemma AddNull(u: Vector)
    ensures u.Add(Null) == u && Null.Add(u) == u
  {
  }

  lemma AddAssociates(u: Vector, v: Vector, w: Vector)
    ensures u.Add(v).Add(w) == u.Add(v.Add(w))
  {
  }

  /** The all-null normal array of the older tree's SmoothNormals. */
  function Zeros(n: nat): (r: seq<Vector>)
    ensures |r| == n && forall k :: 0 <= k < n ==> r[k] == Null
  {
    seq(n, _ => Null)
  }

  /**
   * std::vector::resize(n, Null): the first n entries are kept, and any
   * missing ones are filled with the null vector.
   */
  function Resized(s: seq<Vector>, n: nat): (r: seq<Vector>)
    ensures |r| == n
    ensures forall k :: 0 <= k < n && k < |s| ==> r[k] == s[k]
    ensures forall k :: |s| <= k < n ==> r[k] == Null
  {
    if n <= |s| then s[..n] else s + Zeros(n - |s|)
  }

  /**
   * Started from zero, as in the older tree, slot k accumulates exactly
   * the weights of the triangle corners that reference vertex k.
   */
  lemma ZeroedAccumulation(varray: seq<int>, w: seq<Vector>, n: nat, k: int)
    requires |varray| == 3 * |w| && IndicesIn(varray, n) && 0 <= k < n
    ensures Accumulate(Zeros(n), varray, w, |varray|)[k] == CornerSum(varray, w, k, |varray|)
  {
    AccumulateAt(Zeros(n), varray, w, |varray|, k);
    AddNull(CornerSum(varray, w, k, |varray|));
  }

  /**
   * In a valid mesh, Vertex(t, k) is the vertex at VertexIndex(t, k), and
   * the normal index of the same corner names one of the normals.
   */
  lemma CornerAccessors(m: Mesh, t: int, k: int)
    requires m.Valid() && 0 <= 3 * t + k < |m.varray|
    ensures 0 <= m.VertexIndex(t, k) < |m.vertices| && m.TriangleVertex(t, k) == m.Vertex(m.VertexIndex(t, k))
    ensures 0 <= m.NormalIndex(t, k) < |m.normals|
  {
  }

  /**
   * The newer tree's SmoothNormals starts from the old normals where they
   * exist. For a single triangle with area normal n whose vertex 0 still
   * holds the stale normal -2n (the triangle (0, X, Y) with the normal -Z,
   * say), slot 0 accumulates -n while the corners referencing vertex 0 sum
   * to n: the smoothed normal points away from the only face.
   */
  lemma StaleNormalReversesSmoothing(varray: seq<int>, w: seq<Vector>, stale: seq<Vector>)
    requires varray == [0, 1, 2] && |w| == 1
    requires stale == [w[0].Mul(-2.0)]
    ensures Accumulate(Resized(stale, 3), varray, w, 3)[0] == w[0].Neg()
    ensures CornerSum(varray, w, 0, 3) == w[0]
  {
    var n := w[0];
    SingleTriangleSum(varray, w, 3);
    var init := Resized(stale, 3);
    assert init[0] == n.Mul(-2.0);
    AccumulateAt(init, varray, w, 3, 0);
    assert n.Mul(-2.0).Add(n) == n.Neg();
  }

  /**
   * The newer tree's Mesh(vertices, indices) fills the normals with Z, and
   * its SmoothNormals starts from them. For the single triangle (0, Y, X),
   * whose area normal is -Z / 2, slot 0 accumulates +Z / 2, so vertex 0 is
   * smoothed to the side opposite its only face, while the area normals of
   * the corners referencing it sum to -Z / 2.
   */
  lemma ConstructedNormalsFlipSmoothing(vs: seq<Vector>, va: seq<int>, w: seq<Vector>, init: seq<Vector>)
    requires vs == [Null, Y, X] && va == [0, 1, 2]
    requires w == FaceNormals(vs, va) && init == Resized(seq(|vs|, _ => Z), |vs|)
    ensures Accumulate(init, va, w, |va|)[0] == Vector(0.0, 0.0, 0.5)
    ensures CornerSum(va, w, 0, |va|) == Vector(0.0, 0.0, -0.5)
  {
    ClockwiseFaceNormal(vs, va, w);
    ConstructedNormalsStartAtZ(vs, init);
    SingleTriangleSum(va, w, |va|);
    SingleTriangleSlot(init, va, w);
    assert Z.Add(Vector(0.0, 0.0, -0.5)) == Vector(0.0, 0.0, 0.5);
  }

  /** The only face of the triangle (0, Y, X) has the area normal -Z / 2. */
  lemma ClockwiseFaceNormal(vs: seq<Vector>, va: seq<int>, w: seq<Vector>)
    requires vs == [Null, Y, X] && va == [0, 1, 2] && w == FaceNormals(vs, va)
    ensures |w| == 1 && w[0] == Vector(0.0, 0.0, -0.5)
  {
    FirstFaceNormal(vs, va, w, Null, Y, X);
    Tri.AreaNormalOfClockwise();
  }

  /** The normals the constructor installs are all Z, and resizing to the same length keeps them. */
  lemma ConstructedNormalsStartAtZ(vs: seq<Vector>, init: seq<Vector>)
    requires |vs| == 3 && init == Resized(seq(|vs|, _ => Z), |vs|)
    ensures |init| == 3 && init[0] == Z
  {
  }

  /** For a single triangle, slot 0 ends as its initial value plus the triangle's weight. */
  lemma SingleTriangleSlot(init: seq<Vector>, va: seq<int>, w: seq<Vector>)
    requires va == [0, 1, 2] && |w| == 1 && |init| == 3
    ensures Accumulate(init, va, w, |va|)[0] == init[0].Add(w[0])
  {
    SingleTriangleSum(va, w, |va|);
    AccumulateAt(init, va, w, |va|, 0);
  }

  /** The weight of the first triangle is the area normal of its three vertices. */
  lemma FirstFaceNormal(vs: seq<Vector>, va: seq<int>, w: seq<Vector>, p0: Vector, p1: Vector, p2: Vector)
    requires |va| == 3 && IndicesIn(va, |vs|) && w == FaceNormals(vs, va)
    requires vs[va[0]] == p0 && vs[va[1]] == p1 && vs[va[2]] == p2
    ensures w[0] == Tri.AreaNormalOf(p0, p1, p2)
  {
    assert w[0] == FaceNormal(vs, va, 0);
  }

  lemma {:induction false} SingleTriangleSum(varray: seq<int>, w: seq<Vector>, n: int)
    requires varray == [0, 1, 2] && |w| == 1 && 1 <= n <= 3
    ensures CornerSum(varray, w, 0, n) == w[0]
  {
    AddNull(w[0]);
    if n > 1 {
      SingleTriangleSum(varray, w, n - 1);
    }
  }

  // ---- Rigid motions of the vertex array ----

  function Translated(vs: seq<Vector>, t: Vector): (r: seq<Vector>)
    ensures |r| == |vs| && forall i :: 0 <= i < |vs| ==> r[i] == vs[i].Add(t)
  {
    seq(|vs|, i requires 0 <= i < |vs| => vs[i].Add(t))
  }

  function Scaled(vs: seq<Vector>, s: real): (r: seq<Vector>)
    ensures |r| == |vs| && forall i :: 0 <= i < |vs| ==> r[i] == vs[i].Mul(s)
  {
    seq(|vs|, i requires 0 <= i < |vs| => vs[i].Mul(s))
  }

  function Negated(vs: seq<Vector>): (r: seq<Vector>)
    ensures |r| == |vs| && forall i :: 0 <= i < |vs| ==> r[i] == vs[i].Neg()
  {
    seq(|vs|, i requires 0 <= i < |vs| => vs[i].Neg())
  }

  /** Translating the vertices does not change any face's area normal, so smoothing commutes with Translate. */
  lemma FaceNormalsTranslated(vertices: seq<Vector>, varray: seq<int>, t: Vector)
    requires |varray| % 3 == 0 && IndicesIn(varray, |vertices|)
    ensures FaceNormals(Translated(vertices, t), varray) == FaceNormals(vertices, varray)
  {
    var w, wt := FaceNormals(vertices, varray), FaceNormals(Translated(vertices, t), varray);
    forall f | 0 <= f < |w|
      ensures wt[f] == w[f]
    {
      Tri.AreaNormalTranslation(vertices[varray[3 * f]], vertices[varray[3 * f + 1]], vertices[varray[3 * f + 2]], t);
    }
  }

  /**
   * Scaling the vertices by s scales every area normal by s * s, which is
   * positive for any s != 0: the winding keeps the faces' orientation
   * while Scale negates the stored normals for s < 0.
   */
  lemma FaceNormalScaled(vertices: seq<Vector>, varray: seq<int>, t: int, s: real)
    requires IndicesIn(varray, |vertices|) && 0 <= t && 3 * t + 2 < |varray|
    ensures FaceNormal(Scaled(vertices, s), varray, t) == FaceNormal(vertices, varray, t).Mul(s * s)
  {
    var p0, p1, p2 := vertices[varray[3 * t]], vertices[varray[3 * t + 1]], vertices[varray[3 * t + 2]];
    assert p1.Mul(s).Sub(p0.Mul(s)) == p1.Sub(p0).Mul(s);
    assert p2.Mul(s).Sub(p0.Mul(s)) == p2.Sub(p0).Mul(s);
    ScaledCross(p1.Sub(p0), p2.Sub(p0), s);
    var c := p1.Sub(p0).Cross(p2.Sub(p0));
    MulCommutes(c, s * s, 0.5);
  }

  // ---- Ray parity (Inside) ----

  /** The ray Inside casts from p: along +X. */
  function CastRay(p: Vector): Ray
  {
    Ray(p, X)
  }

  /** Triangle i is hit by the ray at a non-negative depth. */
  predicate ForwardHit(vertices: seq<Vector>, varray: seq<int>, i: int, ray: Ray)
    requires 0 <= i && 3 * i + 2 < |varray|
    requires TriangleIndicesIn(varray, |vertices|)
  {
    var h := Tri.MollerTrumbore(vertices[varray[3 * i]], vertices[varray[3 * i + 1]], vertices[varray[3 * i + 2]], ray);
    h.Hit? && h.t >= 0.0
  }

  /** The number of the first n triangles that the ray from p along +X crosses forward. */
  function Crossings(vertices: seq<Vector>, varray: seq<int>, p: Vector, n: int): int
    requires 0 <= n <= |varray| / 3 && TriangleIndicesIn(varray, |vertices|)
  {
    if n == 0 then 0
    else Crossings(vertices, varray, p, n - 1) + (if ForwardHit(vertices, varray, n - 1, CastRay(p)) then 1 else 0)
  }

  lemma {:induction false} CrossingsBound(vertices: seq<Vector>, varray: seq<int>, p: Vector, n: int)
    requires 0 <= n <= |varray| / 3 && TriangleIndicesIn(varray, |vertices|)
    ensures 0 <= Crossings(vertices, varray, p, n) <= n
  {
    if n > 0 {
      CrossingsBound(vertices, varray, p, n - 1);
    }
  }

  /** One more triangle adds one crossing exactly when the ray hits it at a non-negative depth. */
  lemma CrossingsStep(vertices: seq<Vector>, varray: seq<int>, p: Vector, i: int, hit: Tri.Intersection)
    requires 0 <= i < |varray| / 3 && TriangleIndicesIn(varray, |vertices|)
    requires hit == Tri.MollerTrumbore(vertices[varray[3 * i]], vertices[varray[3 * i + 1]], vertices[varray[3 * i + 2]], CastRay(p))
    ensures Crossings(vertices, varray, p, i + 1) == Crossings(vertices, varray, p, i) + if hit.Hit? && hit.t >= 0.0 then 1 else 0
  {
  }

  /** One more crossing flips the parity. */
  lemma ParityFlip(c: int)
    ensures ((c + 1) % 2 == 1) == (c % 2 != 1)
  {
  }

  /** Moller-Trumbore only sees differences of points, so a common translation keeps its outcome. */
  lemma MollerTrumboreTranslated(p0: Vector, p1: Vector, p2: Vector, ray: Ray, t: Vector)
    ensures Tri.MollerTrumbore(p0.Add(t), p1.Add(t), p2.Add(t), Ray(ray.origin.Add(t), ray.direction))
         == Tri.MollerTrumbore(p0, p1, p2, ray)
  {
    assert p1.Add(t).Sub(p0.Add(t)) == p1.Sub(p0);
    assert p2.Add(t).Sub(p0.Add(t)) == p2.Sub(p0);
    assert ray.origin.Add(t).Sub(p0.Add(t)) == ray.origin.Sub(p0);
  }

  /** Translating the mesh and the point together keeps the crossing count, so Inside commutes with Translate. */
  lemma {:induction false} CrossingsTranslated(vertices: seq<Vector>, varray: seq<int>, p: Vector, t: Vector, n: int)
    requires 0 <= n <= |varray| / 3 && TriangleIndicesIn(varray, |vertices|)
    ensures TriangleIndicesIn(varray, |Translated(vertices, t)|)
    ensures Crossings(Translated(vertices, t), varray, p.Add(t), n) == Crossings(vertices, varray, p, n)
  {
    if n > 0 {
      CrossingsTranslated(vertices, varray, p, t, n - 1);
      var i := n - 1;
      MollerTrumboreTranslated(vertices[varray[3 * i]], vertices[varray[3 * i + 1]], vertices[varray[3 * i + 2]], CastRay(p), t);
    }
  }

  /** Coordinate j of some point of vs is c: a bound that some point attains. */
  predicate Attained(c: real, vs: seq<Vector>, j: int)
    requires 0 <= j < 3
  {
    exists i :: 0 <= i < |vs| && c == vs[i].At(j)
  }

  /**
   * What GetBox returns for the points vs: Box::Null when there are none,
   * otherwise a box containing every point whose corner coordinates are
   * all attained by some point, that is, the tightest such box.
   */
  predicate BoundingBox(box: Boxes.Box, vs: seq<Vector>)
    reads box
  {
    && (|vs| == 0 ==> box.a == Null && box.b == Null)
    && (forall i :: 0 <= i < |vs| ==> box.a.LessEq(vs[i]) && vs[i].LessEq(box.b))
    && (forall j :: 0 <= j < 3 ==> |vs| > 0 ==> Attained(box.a.At(j), vs, j) && Attained(box.b.At(j), vs, j))
  }

  /** A triangle mesh held in four growable arrays. */
  class Mesh {
    var vertices: seq<Vector>
    var normals: seq<Vector>
    var varray: seq<int>
    var narray: seq<int>

    /** The four arrays as a value. */
    function Contents(): Arrays
      reads this
    {
      Arrays(vertices, normals, varray, narray)
    }

    /** The mesh invariant on the current arrays. */
    predicate Valid()
      reads this
    {
      WellFormed(Contents())
    }

    /** Mesh(): the empty mesh. */
    constructor ()
      ensures Contents() == EmptyArrays && Valid()
    {
      vertices, normals, varray, narray := [], [], [], [];
    }

    /**
     * Mesh(vertices, indices), newer tree: one normal Z per vertex and no
     * normal indices, so the invariant holds only when indices is empty.
     */
    constructor FromIndexedVertices(vertices: seq<Vector>, indices: seq<int>)
      ensures Contents() == Arrays(vertices, seq(|vertices|, _ => Z), indices, [])
      ensures Valid() <==> indices == []
    {
      this.vertices := vertices;
      this.varray := indices;
      this.narray := [];
      this.normals := seq(|vertices|, _ => Z);
    }

    /**
     * Mesh(vertices, indices), older tree: reserve and a sizeless fill
     * leave the normals empty, and there are no normal indices either.
     */
    constructor FromIndexedVerticesOlder(vertices: seq<Vector>, indices: seq<int>)
      ensures Contents() == Arrays(vertices, [], indices, [])
      ensures Valid() <==> indices == []
    {
      this.vertices := vertices;
      this.varray := indices;
      this.narray := [];
      this.normals := [];
    }

    /** Mesh(vertices, normals, va, na): the four arrays stored as given. */
    constructor FromArrays(vertices: seq<Vector>, normals: seq<Vector>, va: seq<int>, na: seq<int>)
      ensures Contents() == Arrays(vertices, normals, va, na)
    {
      this.vertices, this.normals, this.varray, this.narray := vertices, normals, va, na;
    }

    /** The copy constructor: an independent mesh with the same arrays. */
    constructor Copy(m: Mesh)
      ensures Contents() == m.Contents()
    {
      vertices, normals, varray, narray := m.vertices, m.normals, m.varray, m.narray;
    }

    /**
     * Mesh(box): the eight corners Vertex(0..7), the six axis normals, and
     * twelve flat triangles appended with AddTriangle.
     */
    constructor FromBox(box: Boxes.Box)
      ensures |vertices| == 8 && forall i :: 0 <= i < 8 ==> vertices[i] == box.Vertex(i)
      ensures normals == BoxNormals && varray == BoxVarray && narray == BoxNarray
      ensures Valid()
    {
      var vs := seq(8, _ => Null);
      var i := 0;
      while i < 8
        invariant 0 <= i <= 8 && |vs| == 8
        invariant forall k :: 0 <= k < i ==> vs[k] == box.Vertex(k)
      {
        vs := vs[i := box.Vertex(i)];
        i := i + 1;
      }
      vertices := vs;
      normals := [Vector(-1.0, 0.0, 0.0), Vector(1.0, 0.0, 0.0), Vector(0.0, -1.0, 0.0),
                  Vector(0.0, 1.0, 0.0), Vector(0.0, 0.0, -1.0), Vector(0.0, 0.0, 1.0)];
      varray, narray := [], [];
      new;
      AddBoxTriangles();
      BoxTopology();
    }

    /**
     * The twelve AddTriangle calls of Mesh(box), two triangles per face,
     * each with the index of its face normal: the arguments are the
     * entries of BoxVarray and BoxNarray, face by face.
     */
    method AddBoxTriangles()
      requires varray == [] && narray == []
      modifies this`varray, this`narray
      ensures varray == BoxVarray && narray == BoxNarray
    {
      assert varray == BoxVarray[..0] && narray == BoxNarray[..0];
      AddFace(0);
      AddFace(1);
      AddFace(2);
      AddFace(3);
      AddFace(4);
      AddFace(5);
      TakeAll(BoxVarray);
      TakeAll(BoxNarray);
    }

    /** The two triangles of face f of the cube, appended after those of the first f faces. */
    method AddFace(f: int)
      requires 0 <= f < 6 && varray == BoxVarray[..6 * f] && narray == BoxNarray[..6 * f]
      modifies this`varray, this`narray
      ensures varray == BoxVarray[..6 * f + 6] && narray == BoxNarray[..6 * f + 6]
    {
      var i := 6 * f;
      BoxTriangleFlat(2 * f);
      BoxTriangleFlat(2 * f + 1);
      AddTriangle(BoxVarray[i], BoxVarray[i + 1], BoxVarray[i + 2], BoxNarray[i]);
      AddTriangle(BoxVarray[i + 3], BoxVarray[i + 4], BoxVarray[i + 5], BoxNarray[i + 3]);
      PrefixThree(BoxVarray, i);
      PrefixThree(BoxVarray, i + 3);
      PrefixThree(BoxNarray, i);
      PrefixThree(BoxNarray, i + 3);
    }

    /** Triangles(): the number of whole triangles, |varray| / 3. */
    function Triangles(): (n: int)
      reads this
      ensures 0 <= n && 3 * n <= |varray| < 3 * n + 3
    {
      |varray| / 3
    }

    /** Vertexes(): the number of vertices. */
    function Vertexes(): (n: int)
      reads this
      ensures n == |vertices|
    {
      |vertices|
    }

    /** VertexIndex(t, i): varray[3t + i], a valid vertex offset in a valid mesh. */
    function VertexIndex(t: int, i: int): (r: int)
      reads this
      requires 0 <= 3 * t + i < |varray|
      ensures Valid() ==> 0 <= r < |vertices|
    {
      varray[3 * t + i]
    }

    /** NormalIndex(t, i): narray[3t + i], a valid normal offset in a valid mesh. */
    function NormalIndex(t: int, i: int): (r: int)
      reads this
      requires 0 <= 3 * t + i < |narray|
      ensures Valid() ==> 0 <= r < |normals|
    {
      narray[3 * t + i]
    }

    /** Vertex(i) and operator[](i): the i-th vertex. */
    function Vertex(i: int): Vector
      reads this
      requires 0 <= i < |vertices|
    {
      vertices[i]
    }

    /** Vertex(t, k): vertex k of triangle t, through varray. */
    function TriangleVertex(t: int, k: int): Vector
      reads this
      requires 0 <= 3 * t + k < |varray| && 0 <= varray[3 * t + k] < |vertices|
    {
      vertices[varray[3 * t + k]]
    }

    /** Normal(i): the i-th normal. */
    function Normal(i: int): Vector
      reads this
      requires 0 <= i < |normals|
    {
      normals[i]
    }

    /** GetTriangle(t): a fresh copy of triangle t; changing it does not change the mesh. */
    method GetTriangle(t: int) returns (tri: Tri.Triangle)
      requires 0 <= t && 3 * t + 2 < |varray|
      requires 0 <= varray[3 * t] < |vertices| && 0 <= varray[3 * t + 1] < |vertices| && 0 <= varray[3 * t + 2] < |vertices|
      ensures fresh(tri.p) && tri.Valid()
      ensures tri.p[0] == TriangleVertex(t, 0) && tri.p[1] == TriangleVertex(t, 1) && tri.p[2] == TriangleVertex(t, 2)
    {
      tri := new Tri.Triangle(vertices[varray[3 * t]], vertices[varray[3 * t + 1]], vertices[varray[3 * t + 2]]);
    }

    /**
     * IsSmooth(i), older tree: 0 exactly when the three normal indices of
     * triangle i are equal (a flat triangle), 1 otherwise.
     */
    function IsSmooth(i: int): (r: int)
      reads this
      requires 0 <= i && 3 * i + 2 < |narray|
      ensures r == 0 || r == 1
      ensures r == 0 <==> narray[3 * i] == narray[3 * i + 1] && narray[3 * i] == narray[3 * i + 2]
    {
      if narray[3 * i] == narray[3 * i + 1] && narray[3 * i] == narray[3 * i + 2] then 0 else 1
    }

    /** AddSmoothTriangle: three corners, each with its own normal index. */
    method AddSmoothTriangle(a: int, na: int, b: int, nb: int, c: int, nc: int)
      modifies this`varray, this`narray
      ensures varray == old(varray) + [a, b, c]
      ensures narray == old(narray) + [na, nb, nc]
      ensures (old(Valid()) && 0 <= a < |vertices| && 0 <= b < |vertices| && 0 <= c < |vertices|
               && 0 <= na < |normals| && 0 <= nb < |normals| && 0 <= nc < |normals|) ==> Valid()
    {
      varray := varray + [a];
      narray := narray + [na];
      varray := varray + [b];
      narray := narray + [nb];
      varray := varray + [c];
      narray := narray + [nc];
    }

    /** AddTriangle: three corners sharing the normal index n, a flat triangle. */
    method AddTriangle(a: int, b: int, c: int, n: int)
      modifies this`varray, this`narray
      ensures varray == old(varray) + [a, b, c]
      ensures narray == old(narray) + [n, n, n]
      ensures (old(Valid()) && 0 <= a < |vertices| && 0 <= b < |vertices| && 0 <= c < |vertices|
               && 0 <= n < |normals|) ==> Valid()
      ensures old(|narray|) % 3 == 0 ==> IsSmooth(old(|narray|) / 3) == 0
    {
      varray := varray + [a];
      narray := narray + [n];
      varray := varray + [b];
      narray := narray + [n];
      varray := varray + [c];
      narray := narray + [n];
    }

    /** AddSmoothQuadrangle: the triangles (a, b, c) and (a, c, d), split along the diagonal a-c. */
    method AddSmoothQuadrangle(a: int, na: int, b: int, nb: int, c: int, nc: int, d: int, nd: int)
      modifies this`varray, this`narray
      ensures varray == old(varray) + [a, b, c, a, c, d]
      ensures narray == old(narray) + [na, nb, nc, na, nc, nd]
      ensures (old(Valid()) && 0 <= a < |vertices| && 0 <= b < |vertices| && 0 <= c < |vertices| && 0 <= d < |vertices|
               && 0 <= na < |normals| && 0 <= nb < |normals| && 0 <= nc < |normals| && 0 <= nd < |normals|) ==> Valid()
    {
      AddSmoothTriangle(a, na, b, nb, c, nc);
      AddSmoothTriangle(a, na, c, nc, d, nd);
    }

    /** AddQuadrangle: as AddSmoothQuadrangle with each vertex index used as its own normal index. */
    method AddQuadrangle(a: int, b: int, c: int, d: int)
      modifies this`varray, this`narray
      ensures varray == old(varray) + [a, b, c, a, c, d]
      ensures narray == old(narray) + [a, b, c, a, c, d]
      ensures (old(Valid()) && 0 <= a < |vertices| && 0 <= b < |vertices| && 0 <= c < |vertices| && 0 <= d < |vertices|
               && |vertices| <= |normals|) ==> Valid()
    {
      AddSmoothQuadrangle(a, a, b, b, c, c, d, d);
    }

    /** GetBox: Box::Null for an empty mesh, otherwise the bounding box of every vertex, referenced or not. */
    method GetBox() returns (box: Boxes.Box)
      ensures fresh(box) && BoundingBox(box, vertices)
    {
      if |vertices| == 0 {
        box := new Boxes.Box.Cube(0.0);
        return;
      }
      box := new Boxes.Box.FromPoints(vertices);
      forall j | 0 <= j < 3
        ensures Attained(box.a.At(j), vertices, j) && Attained(box.b.At(j), vertices, j)
      {
        var lo :| 0 <= lo < |vertices| && box.a.At(j) == vertices[lo].At(j);
        var hi :| 0 <= hi < |vertices| && box.b.At(j) == vertices[hi].At(j);
      }
    }

    /**
     * SmoothNormals, newer tree: resize the normals to one per vertex
     * (keeping the existing prefix), set narray to varray, add each
     * triangle's area normal into its three corners' slots, and normalize
     * every slot with the given normalize.
     */
    method SmoothNormals(normalize: Vector -> Vector)
      requires |varray| % 3 == 0 && IndicesIn(varray, |vertices|)
      modifies this`normals, this`narray
      ensures narray == varray && |normals| == |vertices| && Valid()
      ensures forall k :: 0 <= k < |normals| ==>
        normals[k] == normalize(Accumulate(Resized(old(normals), |vertices|), varray, FaceNormals(vertices, varray), |varray|)[k])
    {
      normals := Resized(normals, |vertices|);
      AccumulateNormals();
      NormalizeNormals(normalize);
    }

    /**
     * SmoothNormals, older tree: every slot is first set to the null
     * vector, so slot k ends as the normalized sum of the area normals of
     * the corners that reference vertex k.
     */
    method SmoothNormalsZeroed(normalize: Vector -> Vector)
      requires |varray| % 3 == 0 && IndicesIn(varray, |vertices|)
      modifies this`normals, this`narray
      ensures narray == varray && |normals| == |vertices| && Valid()
      ensures forall k :: 0 <= k < |normals| ==>
        normals[k] == normalize(CornerSum(varray, FaceNormals(vertices, varray), k, |varray|))
    {
      normals := Resized(normals, |vertices|);
      normals := Zeros(|vertices|);
      AccumulateNormals();
      NormalizeNormals(normalize);
      forall k | 0 <= k < |normals|
        ensures normals[k] == normalize(CornerSum(varray, FaceNormals(vertices, varray), k, |varray|))
      {
        ZeroedAccumulation(varray, FaceNormals(vertices, varray), |vertices|, k);
      }
    }

    /**
     * The accumulation loop shared by both trees' SmoothNormals: narray
     * becomes varray, and each triangle's area normal is added into the
     * slots of its three corners.
     */
    method AccumulateNormals()
      requires |varray| % 3 == 0 && IndicesIn(varray, |vertices|) && |normals| == |vertices|
      modifies this`normals, this`narray
      ensures narray == varray
      ensures normals == Accumulate(old(normals), varray, FaceNormals(vertices, varray), |varray|)
    {
      ghost var init := normals;
      ghost var w := FaceNormals(vertices, varray);
      narray := varray;
      var i := 0;
      ghost var t := 0;
      while i < |varray|
        invariant 0 <= i <= |varray| && i == 3 * t
        invariant narray == varray
        invariant normals == Accumulate(init, varray, w, i)
      {
        assert i + 3 <= |varray|;
        var tn := Tri.AreaNormalOf(vertices[varray[i]], vertices[varray[i + 1]], vertices[varray[i + 2]]);
        assert tn == w[t];
        AccumulateStep(init, varray, w, i, t);
        normals := normals[narray[i] := normals[narray[i]].Add(tn)];
        AccumulateStep(init, varray, w, i + 1, t);
        normals := normals[narray[i + 1] := normals[narray[i + 1]].Add(tn)];
        AccumulateStep(init, varray, w, i + 2, t);
        normals := normals[narray[i + 2] := normals[narray[i + 2]].Add(tn)];
        i, t := i + 3, t + 1;
      }
    }

    /** The normalization loop shared by both trees' SmoothNormals: every slot in place. */
    method NormalizeNormals(normalize: Vector -> Vector)
      modifies this`normals
      ensures |normals| == |old(normals)|
      ensures forall k :: 0 <= k < |normals| ==> normals[k] == normalize(old(normals)[k])
    {
      var j := 0;
      while j < |normals|
        invariant 0 <= j <= |normals| == |old(normals)|
        invariant forall k :: 0 <= k < j ==> normals[k] == normalize(old(normals)[k])
        invariant forall k :: j <= k < |normals| ==> normals[k] == old(normals)[k]
      {
        normals := normals[j := normalize(normals[j])];
        j := j + 1;
      }
    }

    /**
     * Inside(p), older tree: the parity of the number of triangles that the
     * ray from p along +X crosses at a non-negative depth.
     */
    method Inside(p: Vector) returns (inside: bool)
      requires TriangleIndicesIn(varray, |vertices|)
      ensures inside <==> Crossings(vertices, varray, p, Triangles()) % 2 == 1
      ensures Triangles() == 0 ==> !inside
    {
      var ray := Ray(p, Vector(1.0, 0.0, 0.0));
      var check := false;
      var i := 0;
      ghost var count := 0;
      while i < |varray| / 3
        invariant 0 <= i <= |varray| / 3
        invariant count == Crossings(vertices, varray, p, i)
        invariant check <==> count % 2 == 1
      {
        var tri := GetTriangle(i);
        var hit := tri.Intersect(ray);
        CrossingsStep(vertices, varray, p, i, hit);
        ParityFlip(count);
        if hit.Hit? {
          if hit.t >= 0.0 {
            check := !check;
            count := count + 1;
          }
        }
        assert count == Crossings(vertices, varray, p, i + 1);
        i := i + 1;
      }
      inside := check;
    }

    /** Translate(t), older tree: every vertex moves by t; normals and index arrays are untouched. */
    method Translate(t: Vector)
      modifies this`vertices
      ensures vertices == Translated(old(vertices), t)
      ensures old(Valid()) ==> Valid()
    {
      var i := 0;
      while i < |vertices|
        invariant 0 <= i <= |vertices| == |old(vertices)|
        invariant forall k :: 0 <= k < i ==> vertices[k] == old(vertices[k]).Add(t)
        invariant forall k :: i <= k < |vertices| ==> vertices[k] == old(vertices[k])
      {
        vertices := vertices[i := vertices[i].Add(t)];
        i := i + 1;
      }
    }

    /**
     * Scale(s): every vertex multiplied by s; every normal negated when
     * s < 0; the index arrays, and so the winding, untouched.
     */
    method Scale(s: real)
      modifies this`vertices, this`normals
      ensures vertices == Scaled(old(vertices), s)
      ensures normals == if s < 0.0 then Negated(old(normals)) else old(normals)
      ensures old(Valid()) ==> Valid()
    {
      var i := 0;
      while i < |vertices|
        invariant 0 <= i <= |vertices| == |old(vertices)|
        invariant forall k :: 0 <= k < i ==> vertices[k] == old(vertices[k]).Mul(s)
        invariant forall k :: i <= k < |vertices| ==> vertices[k] == old(vertices[k])
        invariant normals == old(normals)
      {
        vertices := vertices[i := vertices[i].Mul(s)];
        i := i + 1;
      }
      assert vertices == Scaled(old(vertices), s);
      if s < 0.0 {
        var j := 0;
        while j < |normals|
          invariant 0 <= j <= |normals| == |old(normals)|
          invariant forall k :: 0 <= k < j ==> normals[k] == old(normals[k]).Neg()
          invariant forall k :: j <= k < |normals| ==> normals[k] == old(normals[k])
          invariant vertices == Scaled(old(vertices), s)
        {
          normals := normals[j := normals[j].Neg()];
          j := j + 1;
        }
        assert normals == Negated(old(normals));
      }
    }

    /**
     * Load: all four arrays are cleared first; an unreadable file (None)
     * leaves the mesh empty; otherwise the lines are read in order.
     */
    method Load(file: Option<seq<ObjLine>>)
      modifies this
      ensures file.None? ==> Contents() == EmptyArrays
      ensures file.Some? ==> Contents() == ReadLines(file.value)
    {
      vertices, normals, varray, narray := [], [], [], [];
      if file.None? {
        return;
      }
      var lines := file.value;
      var i := 0;
      while i < |lines|
        invariant 0 <= i <= |lines|
        invariant Contents() == ReadLines(lines[..i])
      {
        var line := lines[i];
        assert lines[..i + 1][..i] == lines[..i];
        if line.v.Some? {
          vertices := vertices + [line.v.value];
        } else if line.vn.Some? {
          normals := normals + [line.vn.value];
        } else if line.f.Some? {
          var c := line.f.value;
          varray := varray + [c.v0 - 1];
          varray := varray + [c.v1 - 1];
          varray := varray + [c.v2 - 1];
          narray := narray + [c.n0 - 1];
          narray := narray + [c.n1 - 1];
          narray := narray + [c.n2 - 1];
        }
        i := i + 1;
      }
      assert lines[..|lines|] == lines;
    }

    /**
     * SaveObj: the group line, the vertices, the normals, then one face
     * line per triangle with 1-based indices and an empty texture slot.
     */
    method SaveObj(name: string) returns (out: seq<ObjRecord>)
      requires |varray| % 3 == 0 && |varray| <= |narray|
      ensures out == [GroupRecord(name)] + VertexRecords(vertices) + NormalRecords(normals)
        + FaceRecords(Faces(varray, narray, |varray| / 3))
    {
      out := [GroupRecord(name)];
      var i := 0;
      while i < |vertices|
        invariant 0 <= i <= |vertices|
        invariant out == [GroupRecord(name)] + VertexRecords(vertices[..i])
      {
        assert vertices[..i + 1][..i] == vertices[..i];
        out := out + [VertexRecord(vertices[i])];
        i := i + 1;
      }
      assert vertices[..|vertices|] == vertices;
      ghost var head := out;
      i := 0;
      while i < |normals|
        invariant 0 <= i <= |normals|
        invariant out == head + NormalRecords(normals[..i])
      {
        assert normals[..i + 1][..i] == normals[..i];
        out := out + [NormalRecord(normals[i])];
        i := i + 1;
      }
      assert normals[..|normals|] == normals;
      head := out;
      i := 0;
      ghost var t := 0;
      while i < |varray|
        invariant 0 <= i <= |varray| && i == 3 * t
        invariant out == head + FaceRecords(Faces(varray, narray, t))
      {
        assert i + 3 <= |varray|;
        var f := FaceIndices(varray[i] + 1, narray[i] + 1, varray[i + 1] + 1, narray[i + 1] + 1,
                             varray[i + 2] + 1, narray[i + 2] + 1);
        FaceRecordsSnoc(Faces(varray, narray, t), f);
        out := out + [FaceRecord(f)];
        i, t := i + 3, t + 1;
      }
    }
  }

  // ---- Wavefront OBJ records ----

  /**
   * The six integers of a face line, in the order vertex, normal for each
   * corner: as SaveObj writes them, or as Load's face pattern captures them.
   */
  datatype FaceIndices = FaceIndices(v0: int, n0: int, v1: int, n1: int, v2: int, n2: int)

  /**
   * A line of an OBJ file as Load sees it: what the vertex, the normal and
   * the face patterns capture on it, each None when that pattern does not
   * match.
   */
  datatype ObjLine = ObjLine(v: Option<Vector>, vn: Option<Vector>, f: Option<FaceIndices>)

  /** One line of SaveObj's output; a face record holds the numbers as written (1-based). */
  datatype ObjRecord =
    | GroupRecord(name: string)
    | VertexRecord(p: Vector)
    | NormalRecord(n: Vector)
    | FaceRecord(f: FaceIndices)

  /** One line of Load: the patterns are tried in the order v, vn, f; an f line adds three indices to each array, minus 1. */
  function ReadLine(m: Arrays, line: ObjLine): Arrays
  {
    if line.v.Some? then m.(vertices := m.vertices + [line.v.value])
    else if line.vn.Some? then m.(normals := m.normals + [line.vn.value])
    else if line.f.Some? then
      var c := line.f.value;
      m.(varray := m.varray + [c.v0 - 1, c.v1 - 1, c.v2 - 1], narray := m.narray + [c.n0 - 1, c.n1 - 1, c.n2 - 1])
    else m
  }

  /** The arrays after reading the lines in order from empty ones. */
  function ReadLines(lines: seq<ObjLine>): Arrays
  {
    if |lines| == 0 then EmptyArrays
    else ReadLine(ReadLines(lines[..|lines| - 1]), lines[|lines| - 1])
  }

  /** Whatever the file holds, Load leaves paired index arrays of whole triangles. */
  lemma {:induction false} ReadLinesPaired(lines: seq<ObjLine>)
    ensures |ReadLines(lines).varray| == |ReadLines(lines).narray|
    ensures |ReadLines(lines).varray| % 3 == 0
  {
    if |lines| > 0 {
      ReadLinesPaired(lines[..|lines| - 1]);
    }
  }

  function VertexRecords(vs: seq<Vector>): seq<ObjRecord>
  {
    if |vs| == 0 then [] else VertexRecords(vs[..|vs| - 1]) + [VertexRecord(vs[|vs| - 1])]
  }

  function NormalRecords(ns: seq<Vector>): seq<ObjRecord>
  {
    if |ns| == 0 then [] else NormalRecords(ns[..|ns| - 1]) + [NormalRecord(ns[|ns| - 1])]
  }

  /** The face numbers SaveObj writes for the first n triangles: each index plus 1. */
  function Faces(varray: seq<int>, narray: seq<int>, n: int): (r: seq<FaceIndices>)
    requires 0 <= n && 3 * n <= |varray| && 3 * n <= |narray|
    ensures |r| == n
  {
    if n == 0 then []
    else
      var c := 3 * (n - 1);
      Faces(varray, narray, n - 1)
        + [FaceIndices(varray[c] + 1, narray[c] + 1, varray[c + 1] + 1, narray[c + 1] + 1, varray[c + 2] + 1, narray[c + 2] + 1)]
  }

  function FaceRecords(fs: seq<FaceIndices>): (rs: seq<ObjRecord>)
    ensures |rs| == |fs|
  {
    seq(|fs|, i requires 0 <= i < |fs| => FaceRecord(fs[i]))
  }

  lemma FaceRecordsSnoc(fs: seq<FaceIndices>, f: FaceIndices)
    ensures FaceRecords(fs + [f]) == FaceRecords(fs) + [FaceRecord(f)]
  {
  }

  /**
   * What Load's patterns capture on the written face line
   * "f a//b c//d e//g": no vertex or normal match (there is no 'v'), and
   * a face match when every number is written as digits, i.e. is not
   * negative; the empty texture slot is accepted.
   */
  function FaceLine(f: FaceIndices): ObjLine
  {
    var digits := f.v0 >= 0 && f.n0 >= 0 && f.v1 >= 0 && f.n1 >= 0 && f.v2 >= 0 && f.n2 >= 0;
    ObjLine(None, None, if digits then Some(f) else None)
  }

  function FaceLines(fs: seq<FaceIndices>): (ls: seq<ObjLine>)
    ensures |ls| == |fs|
  {
    if |fs| == 0 then [] else FaceLines(fs[..|fs| - 1]) + [FaceLine(fs[|fs| - 1])]
  }

  /**
   * The index round trip: reading back the face lines SaveObj writes for
   * the first n triangles reproduces the first 3n entries of varray and
   * narray, provided no index is negative.
   */
  lemma {:induction false} FaceRoundTrip(varray: seq<int>, narray: seq<int>, n: int)
    requires 0 <= n && 3 * n <= |varray| && 3 * n <= |narray|
    requires forall c :: 0 <= c < 3 * n ==> varray[c] >= 0 && narray[c] >= 0
    ensures ReadLines(FaceLines(Faces(varray, narray, n))) == Arrays([], [], varray[..3 * n], narray[..3 * n])
  {
    if n > 0 {
      var c := 3 * (n - 1);
      var fs := Faces(varray, narray, n - 1);
      var f := FaceIndices(varray[c] + 1, narray[c] + 1, varray[c + 1] + 1, narray[c + 1] + 1, varray[c + 2] + 1, narray[c + 2] + 1);
      var m := Arrays([], [], varray[..c], narray[..c]);
      assert ReadLines(FaceLines(fs)) == m by { FaceRoundTrip(varray, narray, n - 1); }
      assert FaceLines(Faces(varray, narray, n)) == FaceLines(fs) + [FaceLine(f)] by {
        assert Faces(varray, narray, n) == fs + [f];
        FaceLinesSnoc(fs, f);
      }
      assert ReadLines(FaceLines(fs) + [FaceLine(f)]) == ReadLine(m, FaceLine(f)) by {
        ReadLinesSnoc(FaceLines(fs), FaceLine(f));
      }
      assert varray[c] >= 0 && narray[c] >= 0 && varray[c + 1] >= 0 && narray[c + 1] >= 0;
      assert varray[c + 2] >= 0 && narray[c + 2] >= 0;
      ReadFaceLine(m, f);
      assert [f.v0 - 1, f.v1 - 1, f.v2 - 1] == [varray[c], varray[c + 1], varray[c + 2]];
      assert [f.n0 - 1, f.n1 - 1, f.n2 - 1] == [narray[c], narray[c + 1], narray[c + 2]];
      assert 3 * n == c + 3;
      PrefixThree(varray, c);
      PrefixThree(narray, c);
    }
  }

  /** A written face line with non-negative numbers adds its three corners, minus 1, to both arrays. */
  lemma ReadFaceLine(m: Arrays, f: FaceIndices)
    requires f.v0 >= 0 && f.n0 >= 0 && f.v1 >= 0 && f.n1 >= 0 && f.v2 >= 0 && f.n2 >= 0
    ensures ReadLine(m, FaceLine(f))
      == m.(varray := m.varray + [f.v0 - 1, f.v1 - 1, f.v2 - 1], narray := m.narray + [f.n0 - 1, f.n1 - 1, f.n2 - 1])
  {
  }

  lemma TakeAll<T>(s: seq<T>)
    ensures s[..|s|] == s
  {
  }

  /** The prefix of s that ends three entries later. */
  lemma PrefixThree(s: seq<int>, c: int)
    requires 0 <= c && c + 3 <= |s|
    ensures s[..c + 3] == s[..c] + [s[c], s[c + 1], s[c + 2]]
  {
  }

  lemma FaceLinesSnoc(fs: seq<FaceIndices>, f: FaceIndices)
    ensures FaceLines(fs + [f]) == FaceLines(fs) + [FaceLine(f)]
  {
    assert (fs + [f])[..|fs|] == fs;
  }

  lemma ReadLinesSnoc(ls: seq<ObjLine>, l: ObjLine)
    ensures ReadLines(ls + [l]) == ReadLine(ReadLines(ls), l)
  {
    assert (ls + [l])[..|ls|] == ls;
  }

  /** For a valid mesh, the face lines of SaveObj read back by Load give exactly varray and narray. */
  lemma IndexRoundTrip(m: Arrays)
    requires WellFormed(m)
    ensures ReadLines(FaceLines(Faces(m.varray, m.narray, |m.varray| / 3))) == Arrays([], [], m.varray, m.narray)
  {
    FaceRoundTrip(m.varray, m.narray, |m.varray| / 3);
    assert m.varray[..|m.varray|] == m.varray;
    assert m.narray[..|m.narray|] == m.narray;
  }
}
