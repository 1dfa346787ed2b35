// The coloured mesh: a base mesh plus a colour array and one colour
// index per triangle corner (carray), parallel to the base's varray.

module MeshColors {
  import opened Colors
  import opened Meshes

  /** Color(1.0, 1.0, 1.0): the opaque white that MeshColor(m) gives every vertex. */
  const White: Color := Opaque(1.0, 1.0, 1.0)

  /** colors.resize(n, White) on an empty array: n opaque whites. */
  function WhiteColors(n: nat): (cs: seq<Color>)
    ensures |cs| == n
    ensures forall i :: 0 <= i < n ==> cs[i].r == 1.0 && cs[i].g == 1.0 && cs[i].b == 1.0 && cs[i].a == 1.0
  {
    seq(n, _ => White)
  }

  /**
   * MeshColor derives from Mesh; here the inherited part is the base mesh,
   * a private copy made by each constructor.
   */
  class MeshColor {
    const base: Mesh
    var colors: seq<Color>
    var carray: seq<int>

    /**
     * The colour indexing the three-argument constructor's documentation
     * asks for: one colour index per corner, each a valid offset into
     * colors.
     */
    predicate ColorIndexed()
      reads this, base
    {
      |carray| == |base.varray| && IndicesIn(carray, |colors|)
    }

    /** MeshColor(): an empty mesh without colours. */
    constructor ()
      ensures fresh(base) && base.Contents() == EmptyArrays
      ensures colors == [] && carray == []
      ensures ColorIndexed()
    {
      base := new Mesh();
      colors, carray := [], [];
    }

    /**
     * MeshColor(m, cols, carr): a copy of m with the colours and indices
     * stored as given; neither length is checked against m.
     */
    constructor WithColors(m: Mesh, cols: seq<Color>, carr: seq<int>)
      ensures fresh(base) && base.Contents() == m.Contents()
      ensures colors == cols && carray == carr
    {
      base := new Mesh.Copy(m);
      colors, carray := cols, carr;
    }

    /**
     * MeshColor(m): a copy of m, one opaque white per vertex, and the
     * vertex indices reused as colour indices, so a valid mesh gives a
     * valid colour indexing.
     */
    constructor FromMesh(m: Mesh)
      ensures fresh(base) && base.Contents() == m.Contents()
      ensures colors == WhiteColors(|m.vertices|) && carray == m.varray
      ensures m.Valid() ==> ColorIndexed()
    {
      base := new Mesh.Copy(m);
      colors := WhiteColors(|m.vertices|);
      carray := m.varray;
    }

    /** GetColor(i): colour i. */
    function GetColor(i: int): (c: Color)
      reads this
      requires 0 <= i < |colors|
      ensures c == colors[i] && c in colors
    {
      colors[i]
    }

    /** GetColors(): a copy of the colour array. */
    function GetColors(): (cs: seq<Color>)
      reads this
      ensures |cs| == |colors| && forall i :: 0 <= i < |cs| ==> cs[i] == GetColor(i)
    {
      colors
    }

    /** ColorIndexes(): a copy of the colour indices. */
    function ColorIndexes(): (ci: seq<int>)
      reads this
      ensures |ci| == |carray| && forall i :: 0 <= i < |ci| ==> ci[i] == carray[i]
    {
      carray
    }
  }
}
