// The GL-free half of the mesh widget: the per-corner buffers a MeshGL
// uploads, its translation matrix, the name-keyed table of meshes with
// their render flags, and the camera planes the widget keeps.

module Widget {
  import opened Vectors
  import Boxes
  import Colors
  import opened Meshes
  import MeshColors

  /** enum class MeshMaterial: Normal = 0, Color = 1. */
  datatype MeshMaterial = Normal | Color

  /** enum class MeshShading: Triangles = 0, Lines = 1. */
  datatype MeshShading = Triangles | Lines

  // ---- Corner flattening ----

  /**
   * The plain buffer of MeshGL: for each corner i, the three coordinates
   * of points[idx[i]], in corner order.
   */
  function Flatten(points: seq<Vector>, idx: seq<int>): (r: seq<real>)
    requires IndicesIn(idx, |points|)
    ensures |r| == 3 * |idx|
  {
    if |idx| == 0 then []
    else
      var p := points[idx[|idx| - 1]];
      Flatten(points, idx[..|idx| - 1]) + [p.x, p.y, p.z]
  }

  /** Entry 3i + k of the flattened buffer is coordinate k of the point of corner i. */
  lemma {:induction false} FlattenAt(points: seq<Vector>, idx: seq<int>, i: int, k: int)
    requires IndicesIn(idx, |points|)
    requires 0 <= i < |idx| && 0 <= k < 3
    ensures Flatten(points, idx)[3 * i + k] == points[idx[i]].At(k)
  {
    var n := |idx| - 1;
    if i < n {
      FlattenAt(points, idx[..n], i, k);
    }
  }

  /** The first three channels of each colour, as MeshGL reads color[0..2]; alpha is dropped. */
  function Rgb(colors: seq<Colors.Color>): (vs: seq<Vector>)
    ensures |vs| == |colors|
    ensures forall i :: 0 <= i < |vs| ==>
      vs[i].x == colors[i].At(0) && vs[i].y == colors[i].At(1) && vs[i].z == colors[i].At(2)
  {
    seq(|colors|, i requires 0 <= i < |colors| => Vector(colors[i].r, colors[i].g, colors[i].b))
  }

  /**
   * The loop of the MeshGL constructors that fills one float buffer:
   * three coordinates per corner.
   */
  method FlattenCorners(points: seq<Vector>, idx: seq<int>) returns (buf: array<real>)
    requires IndicesIn(idx, |points|)
    ensures fresh(buf) && buf[..] == Flatten(points, idx)
  {
    buf := new real[3 * |idx|];
    var i := 0;
    while i < |idx|
      invariant 0 <= i <= |idx|
      invariant buf[..3 * i] == Flatten(points, idx[..i])
    {
      var p := points[idx[i]];
      buf[3 * i] := p.At(0);
      buf[3 * i + 1] := p.At(1);
      buf[3 * i + 2] := p.At(2);
      assert idx[..i + 1][..i] == idx[..i];
      assert buf[..3 * i + 3] == buf[..3 * i] + [p.x, p.y, p.z];
      i := i + 1;
    }
    assert idx[..|idx|] == idx;
    assert buf[..3 * |idx|] == buf[..];
  }

  /** The index buffer: corners are already in drawing order, so entry i is i. */
  function Identity(n: nat): (s: seq<int>)
    ensures |s| == n && forall i :: 0 <= i < n ==> s[i] == i
  {
    seq(n, i => i)
  }

  /** The loop of the MeshGL constructors that fills the index buffer. */
  method IdentityIndices(n: int) returns (indices: array<int>)
    requires n >= 0
    ensures fresh(indices) && indices[..] == Identity(n)
  {
    indices := new int[n];
    var i := 0;
    while i < n
      invariant 0 <= i <= n
      invariant forall j :: 0 <= j < i ==> indices[j] == j
    {
      indices[i] := i;
      i := i + 1;
    }
    assert indices[..] == Identity(n);
  }

  /**
   * The three buffers both MeshGL constructors fill before uploading them:
   * positions and normals per corner, and the index buffer.
   */
  method CornerBuffers(vertices: seq<Vector>, varray: seq<int>, normals: seq<Vector>, narray: seq<int>)
    returns (vertexData: seq<real>, normalData: seq<real>, indexData: seq<int>)
    requires |varray| == |narray| && IndicesIn(varray, |vertices|) && IndicesIn(narray, |normals|)
    ensures vertexData == Flatten(vertices, varray) && normalData == Flatten(normals, narray)
    ensures indexData == Identity(|varray|)
  {
    var vs := FlattenCorners(vertices, varray);
    var ns := FlattenCorners(normals, narray);
    var indices := IdentityIndices(|varray|);
    vertexData, normalData, indexData := vs[..], ns[..], indices[..];
  }

  // ---- The translation matrix ----

  /**
   * Entry i of TRSMatrix after SetFrame(fr), column-major: the identity
   * with the translation fr in entries 12, 13 and 14.
   */
  function FrameEntry(fr: Vector, i: int): real
    requires 0 <= i < 16
  {
    if i == 12 then fr.x
    else if i == 13 then fr.y
    else if i == 14 then fr.z
    else if i == 0 || i == 5 || i == 10 || i == 15 then 1.0
    else 0.0
  }

  /**
   * Row r of the column-major matrix of SetFrame(fr) applied to the
   * homogeneous point (p, 1).
   */
  function FrameRow(fr: Vector, r: int, p: Vector): real
    requires 0 <= r < 4
  {
    FrameEntry(fr, r) * p.x + FrameEntry(fr, 4 + r) * p.y + FrameEntry(fr, 8 + r) * p.z + FrameEntry(fr, 12 + r)
  }

  /** The matrix of SetFrame(fr) is the translation by fr: it maps (p, 1) to (p + fr, 1). */
  lemma FrameTranslates(fr: Vector, p: Vector)
    ensures Vector(FrameRow(fr, 0, p), FrameRow(fr, 1, p), FrameRow(fr, 2, p)) == p.Add(fr)
    ensures FrameRow(fr, 3, p) == 1.0
  {
    assert FrameRow(fr, 0, p) == p.x + fr.x;
    assert FrameRow(fr, 1, p) == p.y + fr.y;
    assert FrameRow(fr, 2, p) == p.z + fr.z;
  }

  /** A MeshGL: the uploaded buffers, the draw count, the matrix and the render flags. */
  class MeshGL {
    var enabled: bool
    var useWireframe: bool
    var shading: MeshShading
    var material: MeshMaterial
    var triangleCount: int
    const trs: array<real>
    /** The bounding box; the default constructor leaves it unset. */
    var bbox: Boxes.Box?
    /** The contents of the vertex, normal, colour and index buffers handed to OpenGL. */
    var vertexData: seq<real>
    var normalData: seq<real>
    var colorData: seq<real>
    var indexData: seq<int>

    /** The matrix of SetFrame(fr). */
    predicate IsFrame(fr: Vector)
      reads trs
    {
      trs.Length == 16 && forall i :: 0 <= i < 16 ==> trs[i] == FrameEntry(fr, i)
    }

    /** The render flags of a default MeshGL. */
    predicate DefaultFlags()
      reads this
    {
      enabled && !useWireframe && shading == Triangles && material == Normal
    }

    /** MeshGL(): enabled, filled, triangle shading, normal material, nothing to draw, frame at the origin. */
    constructor ()
      ensures fresh(trs) && IsFrame(Null) && DefaultFlags()
      ensures triangleCount == 0 && bbox == null
      ensures vertexData == [] && normalData == [] && colorData == [] && indexData == []
    {
      enabled, useWireframe, shading, material := true, false, Triangles, Normal;
      triangleCount := 0;
      trs := new real[16];
      bbox := null;
      vertexData, normalData, colorData, indexData := [], [], [], [];
      new;
      SetFrame(Null);
    }

    /**
     * MeshGL(mesh, position): the default flags, the frame at position,
     * the mesh's bounding box, one position and one normal triple per
     * corner, the identity index buffer, and a draw count equal to the
     * number of corners.
     */
    constructor FromMesh(mesh: Mesh, position: Vector)
      requires |mesh.varray| == |mesh.narray|
      requires IndicesIn(mesh.varray, |mesh.vertices|) && IndicesIn(mesh.narray, |mesh.normals|)
      ensures fresh(trs) && IsFrame(position) && DefaultFlags()
      ensures bbox != null && fresh(bbox) && BoundingBox(bbox, mesh.vertices)
      ensures vertexData == Flatten(mesh.vertices, mesh.varray) && normalData == Flatten(mesh.normals, mesh.narray)
      ensures colorData == [] && indexData == Identity(|mesh.varray|)
      ensures triangleCount == |mesh.varray|
    {
      enabled, useWireframe, shading, material := true, false, Triangles, Normal;
      triangleCount := 0;
      trs := new real[16];
      colorData := [];
      var box := mesh.GetBox();
      bbox := box;
      var vs, ns, indices := CornerBuffers(mesh.vertices, mesh.varray, mesh.normals, mesh.narray);
      vertexData, normalData, indexData := vs, ns, indices;
      new;
      SetFrame(Null);
      SetFrame(position);
      triangleCount := |mesh.varray|;
    }

    /**
     * MeshGL(mesh, position) for a coloured mesh: as for a plain mesh, plus
     * the red, green and blue of colors[carray[i]] for each corner i. The
     * colour indices are read for every corner without a length check.
     */
    constructor FromMeshColor(mesh: MeshColors.MeshColor, position: Vector)
      requires |mesh.base.varray| == |mesh.base.narray| <= |mesh.carray|
      requires IndicesIn(mesh.base.varray, |mesh.base.vertices|) && IndicesIn(mesh.base.narray, |mesh.base.normals|)
      requires IndicesIn(mesh.carray[..|mesh.base.varray|], |mesh.colors|)
      ensures fresh(trs) && IsFrame(position) && DefaultFlags()
      ensures bbox != null && fresh(bbox) && BoundingBox(bbox, mesh.base.vertices)
      ensures vertexData == Flatten(mesh.base.vertices, mesh.base.varray)
      ensures normalData == Flatten(mesh.base.normals, mesh.base.narray)
      ensures colorData == Flatten(Rgb(mesh.colors), mesh.carray[..|mesh.base.varray|])
      ensures indexData == Identity(|mesh.base.varray|)
      ensures triangleCount == |mesh.base.varray|
    {
      enabled, useWireframe, shading, material := true, false, Triangles, Normal;
      triangleCount := 0;
      trs := new real[16];
      var box := mesh.base.GetBox();
      bbox := box;
      var n := |mesh.base.varray|;
      var vs, ns, indices := CornerBuffers(mesh.base.vertices, mesh.base.varray, mesh.base.normals, mesh.base.narray);
      var cs := FlattenCorners(Rgb(mesh.colors), mesh.carray[..n]);
      vertexData, normalData, colorData, indexData := vs, ns, cs[..], indices;
      new;
      SetFrame(Null);
      SetFrame(position);
      triangleCount := n;
    }

    /** SetFrame(fr): the sixteen writes of the source, in its order. */
    method SetFrame(fr: Vector)
      requires trs.Length == 16
      modifies trs
      ensures IsFrame(fr)
    {
      // Rotation and scale
      trs[0] := 1.0;
      trs[1] := 0.0;
      trs[2] := 0.0;
      trs[4] := 0.0;
      trs[5] := 1.0;
      trs[6] := 0.0;
      trs[8] := 0.0;
      trs[9] := 0.0;
      trs[10] := 1.0;
      // Translation
      trs[12] := fr.At(0);
      trs[13] := fr.At(1);
      trs[14] := fr.At(2);
      // Shear, written right to left by the chained assignment
      trs[11] := 0.0;
      trs[7] := 0.0;
      trs[3] := 0.0;
      trs[15] := 1.0;
      assert trs[0] == 1.0 && trs[1] == 0.0 && trs[2] == 0.0 && trs[3] == 0.0;
      assert trs[4] == 0.0 && trs[5] == 1.0 && trs[6] == 0.0 && trs[7] == 0.0;
      assert trs[8] == 0.0 && trs[9] == 0.0 && trs[10] == 1.0 && trs[11] == 0.0;
      assert trs[12] == fr.x && trs[13] == fr.y && trs[14] == fr.z && trs[15] == 1.0;
    }
  }

  // ---- The camera, as far as the widget uses it ----

  /**
   * The eye, look-at point, up vector, virtual screen and clipping planes
   * of a camera; the aperture and focal length are not part of this model.
   */
  datatype Camera = Camera(eye: Vector, at: Vector, up: Vector, width: real, height: real, nearplane: real, farplane: real)
  {
    /** SetPlanes(n, f): the planes replaced, everything else kept. */
    function SetPlanes(n: real, f: real): (c: Camera)
      ensures c.GetNear() == n && c.GetFar() == f
      ensures c.eye == eye && c.at == at && c.up == up && c.width == width && c.height == height
    {
      this.(nearplane := n, farplane := f)
    }

    function GetNear(): real { nearplane }

    function GetFar(): real { farplane }
  }

  /** Camera(): eye at the origin looking at Y, up Z, a unit screen, planes 1 and 1000. */
  const DefaultCamera: Camera := Camera(Null, Y, Z, 1.0, 1.0, 1.0, 1000.0)

  /** Setting the planes twice keeps only the second pair. */
  lemma SetPlanesLastWins(c: Camera, n1: real, f1: real, n2: real, f2: real)
    ensures c.SetPlanes(n1, f1).SetPlanes(n2, f2) == c.SetPlanes(n2, f2)
  {
    var d := c.SetPlanes(n1, f1).SetPlanes(n2, f2);
    assert d.eye == c.eye && d.at == c.at && d.up == c.up && d.width == c.width && d.height == c.height;
  }

  // ---- The widget ----

  class MeshWidget {
    var perspectiveProjection: bool
    var cameraOrthoSize: real
    var camera: Camera
    /** The planes the older widget stores and re-applies to every new camera. */
    var nearplane: real
    var farplane: real
    var objects: map<string, MeshGL>

    /**
     * Every entry has its own MeshGL and its own matrix, as AddMesh always
     * inserts a freshly built one.
     */
    predicate Valid()
      reads this, objects.Values
    {
      (forall n :: n in objects ==> objects[n].trs.Length == 16)
      && forall n, m :: n in objects && m in objects && n != m ==> objects[n] != objects[m] && objects[n].trs != objects[m].trs
    }

    /** The older widget's camera carries the stored planes. */
    predicate PlanesApplied()
      reads this
    {
      camera.GetNear() == nearplane && camera.GetFar() == farplane
    }

    /**
     * MeshWidget(): perspective projection, an orthographic half-size of
     * 100, the default camera and no meshes; the older tree leaves the
     * stored planes unset.
     */
    constructor ()
      ensures perspectiveProjection && cameraOrthoSize == 100.0 && camera == DefaultCamera
      ensures objects == map[] && Valid()
    {
      perspectiveProjection := true;
      cameraOrthoSize := 100.0;
      camera := DefaultCamera;
      objects := map[];
    }

    /** AddMesh(name, mesh, frame): a new MeshGL under name, replacing any previous entry. */
    method AddMesh(name: string, mesh: Mesh, frame: Vector)
      requires Valid()
      requires |mesh.varray| == |mesh.narray|
      requires IndicesIn(mesh.varray, |mesh.vertices|) && IndicesIn(mesh.narray, |mesh.normals|)
      modifies this`objects
      ensures Valid() && name in objects && fresh(objects[name])
      ensures forall n :: n != name ==> (n in objects <==> n in old(objects)) && (n in objects ==> objects[n] == old(objects[n]))
      ensures objects[name].IsFrame(frame) && objects[name].DefaultFlags()
      ensures objects[name].bbox != null && BoundingBox(objects[name].bbox, mesh.vertices)
      ensures objects[name].vertexData == Flatten(mesh.vertices, mesh.varray)
      ensures objects[name].normalData == Flatten(mesh.normals, mesh.narray)
      ensures objects[name].colorData == [] && objects[name].indexData == Identity(|mesh.varray|)
      ensures objects[name].triangleCount == |mesh.varray|
    {
      var gl := new MeshGL.FromMesh(mesh, frame);
      objects := objects[name := gl];
    }

    /** AddMesh(name, mesh, frame) for a coloured mesh. */
    method AddColorMesh(name: string, mesh: MeshColors.MeshColor, frame: Vector)
      requires Valid()
      requires |mesh.base.varray| == |mesh.base.narray| <= |mesh.carray|
      requires IndicesIn(mesh.base.varray, |mesh.base.vertices|) && IndicesIn(mesh.base.narray, |mesh.base.normals|)
      requires IndicesIn(mesh.carray[..|mesh.base.varray|], |mesh.colors|)
      modifies this`objects
      ensures Valid() && name in objects && fresh(objects[name])
      ensures forall n :: n != name ==> (n in objects <==> n in old(objects)) && (n in objects ==> objects[n] == old(objects[n]))
      ensures objects[name].IsFrame(frame) && objects[name].DefaultFlags()
      ensures objects[name].bbox != null && BoundingBox(objects[name].bbox, mesh.base.vertices)
      ensures objects[name].vertexData == Flatten(mesh.base.vertices, mesh.base.varray)
      ensures objects[name].normalData == Flatten(mesh.base.normals, mesh.base.narray)
      ensures objects[name].colorData == Flatten(Rgb(mesh.colors), mesh.carray[..|mesh.base.varray|])
      ensures objects[name].indexData == Identity(|mesh.base.varray|)
      ensures objects[name].triangleCount == |mesh.base.varray|
    {
      var gl := new MeshGL.FromMeshColor(mesh, frame);
      objects := objects[name := gl];
    }

    /** DeleteMesh(name): the entry is removed if present; otherwise nothing happens. */
    method DeleteMesh(name: string)
      requires Valid()
      modifies this`objects
      ensures Valid() && objects == old(objects) - {name}
    {
      if name in objects {
        objects := objects - {name};
      }
    }

    /** UpdateMesh(name, frame): the named entry's matrix becomes SetFrame(frame). */
    method UpdateMesh(name: string, frame: Vector)
      requires Valid()
      modifies if name in objects then {objects[name].trs} else {}
      ensures Valid()
      ensures name in objects ==> objects[name].IsFrame(frame)
    {
      if name in objects {
        objects[name].SetFrame(frame);
      }
    }

    /** EnableMesh(name): only the named entry, if any, becomes enabled. */
    method EnableMesh(name: string)
      requires Valid()
      modifies objects.Values`enabled
      ensures Valid()
      ensures forall n :: n in objects ==> objects[n].enabled == (n == name || old(objects[n].enabled))
    {
      if name in objects {
        objects[name].enabled := true;
      }
    }

    /** DisableMesh(name): only the named entry, if any, becomes disabled. */
    method DisableMesh(name: string)
      requires Valid()
      modifies objects.Values`enabled
      ensures Valid()
      ensures forall n :: n in objects ==> objects[n].enabled == (n != name && old(objects[n].enabled))
    {
      if name in objects {
        objects[name].enabled := false;
      }
    }

    /** ClearAll(): every entry is released and the table is empty. */
    method ClearAll()
      modifies this`objects
      ensures objects == map[] && Valid()
    {
      objects := map[];
    }

    /** SetMaterial(name, mat): only the named entry, if any, changes material. */
    method SetMaterial(name: string, mat: MeshMaterial)
      requires Valid()
      modifies objects.Values`material
      ensures Valid()
      ensures forall n :: n in objects ==> objects[n].material == if n == name then mat else old(objects[n].material)
    {
      if name in objects {
        objects[name].material := mat;
      }
    }

    /** SetMaterialGlobal(mat): every entry gets the material. */
    method SetMaterialGlobal(mat: MeshMaterial)
      modifies objects.Values`material
      ensures forall n :: n in objects ==> objects[n].material == mat
    {
      var keys := objects.Keys;
      while keys != {}
        invariant keys <= objects.Keys
        invariant forall n :: n in objects && n !in keys ==> objects[n].material == mat
        decreases keys
      {
        var k :| k in keys;
        objects[k].material := mat;
        keys := keys - {k};
      }
    }

    /** UseWireframe(name, wireframe): only the named entry, if any, changes its wireframe flag. */
    method UseWireframe(name: string, wireframe: bool)
      requires Valid()
      modifies objects.Values`useWireframe
      ensures Valid()
      ensures forall n :: n in objects ==> objects[n].useWireframe == if n == name then wireframe else old(objects[n].useWireframe)
    {
      if name in objects {
        objects[name].useWireframe := wireframe;
      }
    }

    /** UseWireframeGlobal(wireframe): every entry gets the flag. */
    method UseWireframeGlobal(wireframe: bool)
      modifies objects.Values`useWireframe
      ensures forall n :: n in objects ==> objects[n].useWireframe == wireframe
    {
      var keys := objects.Keys;
      while keys != {}
        invariant keys <= objects.Keys
        invariant forall n :: n in objects && n !in keys ==> objects[n].useWireframe == wireframe
        decreases keys
      {
        var k :| k in keys;
        objects[k].useWireframe := wireframe;
        keys := keys - {k};
      }
    }

    /** SetShading(name, shading): only the named entry, if any, changes shading. */
    method SetShading(name: string, shading: MeshShading)
      requires Valid()
      modifies objects.Values`shading
      ensures Valid()
      ensures forall n :: n in objects ==> objects[n].shading == if n == name then shading else old(objects[n].shading)
    {
      if name in objects {
        objects[name].shading := shading;
      }
    }

    /** SetShadingGlobal(shading): every entry gets the shading mode. */
    method SetShadingGlobal(shading: MeshShading)
      modifies objects.Values`shading
      ensures forall n :: n in objects ==> objects[n].shading == shading
    {
      var keys := objects.Keys;
      while keys != {}
        invariant keys <= objects.Keys
        invariant forall n :: n in objects && n !in keys ==> objects[n].shading == shading
        decreases keys
      {
        var k :| k in keys;
        objects[k].shading := shading;
        keys := keys - {k};
      }
    }

    /** SetCamera(c), newer tree: the camera is replaced, planes included. */
    method SetCamera(c: Camera)
      modifies this`camera
      ensures camera == c
    {
      camera := c;
    }

    /** SetCamera(c), older tree: the camera is replaced and the stored planes are applied to it. */
    method SetCameraKeepingPlanes(c: Camera)
      modifies this`camera
      ensures camera == c.SetPlanes(nearplane, farplane) && PlanesApplied()
    {
      camera := c;
      camera := camera.SetPlanes(nearplane, farplane);
    }

    /** SetNearAndFarPlane(n, f), newer tree: the camera's planes only. */
    method SetNearAndFarPlane(n: real, f: real)
      modifies this`camera
      ensures camera == old(camera).SetPlanes(n, f)
    {
      camera := camera.SetPlanes(n, f);
    }

    /** SetNearAndFarPlane(n, f), older tree: the planes are stored, then applied to the camera. */
    method SetNearAndFarPlaneStored(n: real, f: real)
      modifies this`nearplane, this`farplane, this`camera
      ensures nearplane == n && farplane == f
      ensures camera == old(camera).SetPlanes(n, f) && PlanesApplied()
    {
      nearplane := n;
      farplane := f;
      camera := camera.SetPlanes(nearplane, farplane);
    }

    /** SetCameraMode(perspective): the projection flag only. */
    method SetCameraMode(perspective: bool)
      modifies this`perspectiveProjection
      ensures perspectiveProjection == perspective
    {
      perspectiveProjection := perspective;
    }
  }
}
