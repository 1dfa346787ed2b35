# TinyMesh geometric core in Dafny

This project models the geometric and mesh core of TinyMesh, a small C++/Qt
mesh viewer. Both of its source trees are covered: `AppTinyMesh/` and the
older `Code/AppAll/AppTinyMesh/AppTinyMesh/`. C++ `double` is modelled as
Dafny `real`, so every identity below holds exactly over the reals.

The modules follow the program's classes:

- `Math` and `Vectors` (mathematics.dfy):
  - the scalar helpers;
  - the three-component `Vector` datatype with its operators, orders and
    componentwise Min/Max/Abs/Lerp/Bilinear/Solve;
  - `MaxIndex` and `Orthogonal`.
- `Boxes` (box.dfy): the axis-aligned `Box` class, whose corners `a` and
  `b` are updated in place.
- `Rays` (ray.dfy): the `Ray` datatype with evaluation and reflection.
- `Triangles` (triangle.dfy): the Möller–Trumbore intersection, proved sound
  and complete, and the `Triangle` class over an array of three vertices.
- `CubeMesh` (cube_mesh.dfy): the fixed topology of the 12-triangle cube
  built by `Mesh(Box)`.
- `Meshes` (mesh.dfy): the indexed `Mesh` class. It holds the fields
  `vertices`, `normals`, `varray` and `narray`. The file also covers:
  - the triangle builders;
  - normal smoothing in both trees;
  - the ray-parity `Inside` test;
  - `Translate` and `Scale`;
  - `Load` and `SaveObj` over Wavefront-OBJ line records.
- `Cylinders` (cylinder.dfy), `Colors` (color.dfy) and `MeshColors`
  (meshcolor.dfy): the small companion classes.
- `Widget` (widget.dfy): the GL-free half of the viewer:
  - the per-corner buffers that `MeshGL` uploads;
  - the `SetFrame` matrix;
  - the stored near and far planes of the camera;
  - the name-keyed table of meshes in `MeshWidget`, with its flag setters.

The invariant of a mesh is `Mesh.Valid()`. It requires that `varray` and
`narray` have equal lengths, that these lengths are a multiple of 3, and
that every index lies in bounds. Its normalisation step needs a square
root, so `SmoothNormals` receives the normalisation as a function
parameter. Its contract states the exact accumulated sum that is passed to
that function.

## Model

| member | source | states |
|---|---|---|
| Math.Clamp | AppTinyMesh/Include/mathematics.h:26-29 | a below the range gives a, above gives b, inside gives x; with a <= b the result lies in [a, b] |
| Math.Min | AppTinyMesh/Include/mathematics.h:35-38 | the result is one of the arguments and bounds both from below |
| Math.Max | AppTinyMesh/Include/mathematics.h:44-47 | the result is one of the arguments and bounds both from above |
| Math.Max3 | AppTinyMesh/Include/mathematics.h:53-56 | the result is one of the three arguments and is at least each of them |
| Math.Min3 | AppTinyMesh/Include/mathematics.h:62-65 | the result is one of the three arguments and is at most each of them |
| Math.DegreeToRadian | AppTinyMesh/Include/mathematics.h:71-74 | r * 180 == a * Pi |
| Math.RadianToDegree | AppTinyMesh/Include/mathematics.h:80-83 | r * Pi == a * 180 |
| Math.DegreeRadianRoundTrip | AppTinyMesh/Include/mathematics.h:71-83 | the two conversions are inverse to each other in both orders |
| Vectors.Vector.With | AppTinyMesh/Include/mathematics.h:191-200 | writing component i through operator[] changes component i only |
| Vectors.Vector.At | AppTinyMesh/Include/mathematics.h:197-200 | coordinate i for i in 0..2; With, Scaled, Inverse, DividedBy, Abs and EqualsIsEquality state their results through it |
| Vectors.Vector.Neg | AppTinyMesh/Include/mathematics.h:211-214 | the componentwise negation; AddSubInverse shows it is the additive inverse |
| Vectors.Vector.Add | AppTinyMesh/Include/mathematics.h:315-318 | the componentwise sum; AddSubInverse shows it commutes and that Sub undoes it |
| Vectors.Vector.Sub | AppTinyMesh/Include/mathematics.h:321-324 | the componentwise difference; AddSubInverse shows that adding the subtrahend back restores the minuend |
| Vectors.Vector.Dot | AppTinyMesh/Include/mathematics.h:327-330 | the scalar product; DotCommutes shows it is symmetric, and SquaredNorm is the product of a vector with itself |
| Vectors.Vector.Mul | AppTinyMesh/Include/mathematics.h:333-342 | the scalar product on either side; MulCommutes and MulTwice show that successive scalings compose and commute |
| Vectors.Vector.Div | AppTinyMesh/Include/mathematics.h:351-354 | the division by a non-zero scalar; DivMulInverse shows that multiplying back restores the vector |
| Vectors.Vector.Cross | AppTinyMesh/Include/mathematics.h:345-348 | the cross product; CrossProperties, AxesCross and ScaledCross state its anticommutativity, orthogonality, the axis identities and its s² scaling |
| Vectors.Vector.Less | AppTinyMesh/Include/mathematics.h:297-300 | strictly smaller on all three coordinates; OrderProperties relates it to the other three orders |
| Vectors.Vector.Greater | AppTinyMesh/Include/mathematics.h:291-294 | strictly larger on all three coordinates; OrderProperties shows it is the converse of Less |
| Vectors.Vector.LessEq | AppTinyMesh/Include/mathematics.h:309-312 | smaller or equal on all three coordinates; OrderProperties shows Less implies it, Incomparable that it is partial |
| Vectors.Vector.GreaterEq | AppTinyMesh/Include/mathematics.h:303-306 | larger or equal on all three coordinates; OrderProperties shows it is the converse of LessEq |
| Vectors.Vector.Equals | AppTinyMesh/Include/mathematics.h:359-368 | operator==; EqualsIsEquality shows it coincides with equality of values |
| Vectors.Vector.Bilinear | AppTinyMesh/Include/mathematics.h:453-456 | the bilinear blend of the four vectors; BilinearCorners shows it interpolates them at the unit square's corners |
| Vectors.Vector.Solve | Code/AppAll/AppTinyMesh/AppTinyMesh/Include/evector.h:459-462 | (vb a - va b) / (vb - va); SolveIsLerp and SolveEnds show it is the root of the linear interpolant |
| Vectors.Lerp | AppTinyMesh/Include/mathematics.h:438-441 | a + t (b - a); LerpEnds shows it gives a at 0 and b at 1 |
| Vectors.AddSubInverse | AppTinyMesh/Include/mathematics.h:211-214 | Sub undoes Add, Neg is the additive inverse and Add commutes |
| Vectors.DivMulInverse | AppTinyMesh/Include/mathematics.h:351-354 | multiplying by a non-zero scalar undoes dividing by it |
| Vectors.Vector.Scaled | Code/AppAll/AppTinyMesh/AppTinyMesh/Include/evector.h:179-182 | each component is the product of the matching components, as `*=` by a vector gives |
| Vectors.Vector.Inverse | Code/AppAll/AppTinyMesh/AppTinyMesh/Include/evector.h:192-195 | for nonzero components, each result component times the original one is 1 |
| Vectors.Vector.DividedBy | AppTinyMesh/Include/mathematics.h:284-288 | for nonzero divisors, `/=` by a vector gives components that multiply back to the original |
| Vectors.Vector.SquaredNorm | AppTinyMesh/Include/mathematics.h:388-391 | the squared norm is never negative |
| Vectors.Vector.MaxIndex | Code/AppAll/AppTinyMesh/AppTinyMesh/Include/evector.h:361-385 | the index is in 0..2, its component is a maximum, and every lower index holds a strictly smaller value (ties go to the lower index) |
| Vectors.Vector.OrthogonalPair | AppTinyMesh/Source/evector.cpp:74-99 | the chosen pair is two distinct axes, and the third axis has the smallest absolute value |
| Vectors.Vector.Orthogonal | AppTinyMesh/Source/evector.cpp:74-99 | the result is perpendicular to the vector, its third component is 0, and it is Null exactly when the vector is Null |
| Vectors.Vector.Min | AppTinyMesh/Include/mathematics.h:419-422 | the componentwise minimum lies below both arguments, and each component comes from one of them |
| Vectors.Vector.Max | AppTinyMesh/Include/mathematics.h:428-431 | the componentwise maximum lies above both arguments, and each component comes from one of them |
| Vectors.BitSelect | AppTinyMesh/Include/box.h:126-129 | coordinate i comes from hi when bit i of k is set, from lo otherwise |
| Vectors.BitSelectEnds | AppTinyMesh/Include/box.h:126-129 | selector 0 gives lo and selector 7 gives hi |
| Vectors.Uniform | AppTinyMesh/Include/mathematics.h:174-177 | Vector(a) has all three components equal to a |
| Vectors.Abs | AppTinyMesh/Include/mathematics.h:410-413 | every component is non-negative and equals u[i] or -u[i] |
| Vectors.SwapOrthogonal | AppTinyMesh/Source/evector.cpp:76-97 | swapping two components and negating one gives a perpendicular vector with a zero third component, which is Null exactly when u is Null |
| Vectors.DotCommutes | AppTinyMesh/Include/mathematics.h:327-330 | u * v == v * u |
| Vectors.CrossProperties | AppTinyMesh/Include/mathematics.h:345-348 | the cross product is anticommutative and perpendicular to both operands |
| Vectors.AxesCross | AppTinyMesh/Source/evector.cpp:45-48 | X / Y == Z, Y / Z == X and Z / X == Y |
| Vectors.MulCommutes | AppTinyMesh/Include/mathematics.h:333-336 | two scalings commute |
| Vectors.ScaledCross | AppTinyMesh/Include/mathematics.h:345-348 | scaling both operands by s scales the cross product by s² |
| Vectors.SquaredNormZero | AppTinyMesh/Include/mathematics.h:388-391 | the squared norm is 0 exactly for Null |
| Vectors.MinMaxCommute | AppTinyMesh/Include/mathematics.h:419-431 | the componentwise Min and Max do not depend on argument order |
| Vectors.OrderProperties | AppTinyMesh/Include/mathematics.h:291-312 | strict order implies the non-strict one, and `<`/`>` and `<=`/`>=` are converse to each other |
| Vectors.Incomparable | AppTinyMesh/Include/mathematics.h:309-312 | X and Y are incomparable under `<=` |
| Vectors.EqualsIsEquality | AppTinyMesh/Include/mathematics.h:359-368 | operator== is exact componentwise equality |
| Vectors.LerpEnds | AppTinyMesh/Include/mathematics.h:438-441 | Lerp gives a at 0 and b at 1 |
| Vectors.BilinearCorners | AppTinyMesh/Include/mathematics.h:453-456 | Bilinear gives a00, a10, a11 and a01 at (0,0), (1,0), (1,1) and (0,1) |
| Vectors.SolveIsLerp | Code/AppAll/AppTinyMesh/AppTinyMesh/Include/evector.h:459-462 | for va != vb, Solve is Lerp at va / (va - vb) |
| Vectors.SolveEnds | Code/AppAll/AppTinyMesh/AppTinyMesh/Include/evector.h:459-462 | Solve gives a when va == 0 and b when vb == 0 |
| Boxes.Truncate | Code/AppAll/AppTinyMesh/AppTinyMesh/Source/box.cpp:155-162 | the int(...) conversion truncates toward zero |
| Boxes.ParallelepipedicCount | Code/AppAll/AppTinyMesh/AppTinyMesh/Source/box.cpp:155-162 | the count is the truncation of q + 0.99, bumped from 0 to 1; it is at least 1 and more than q - 0.01 for q >= 0 |
| Boxes.Box.FromCorners | AppTinyMesh/Source/box.cpp:69-73 | Box(a, b) stores the corners verbatim |
| Boxes.Box.FromCenter | AppTinyMesh/Source/box.cpp:50-54 | Box(c, r) has corners c - Vector(r) and c + Vector(r), so its centre is c |
| Boxes.Box.Cube | AppTinyMesh/Source/box.cpp:84-88 | Box(r) has corners -Vector(r) and Vector(r); for r = 0 both are the origin (Box::Null) |
| Boxes.Box.FromPoints | AppTinyMesh/Source/box.cpp:94-112 | every point lies between the corners, and each corner component is attained by some point |
| Boxes.AxisExtent | AppTinyMesh/Source/box.cpp:96-111 | the loop over one axis finds a lower and an upper bound of every point, each attained |
| Boxes.Box.Union | AppTinyMesh/Source/box.cpp:118-122 | the corners are the Min and Max of the argument corners, so the box contains both boxes |
| Boxes.Box.At | AppTinyMesh/Include/box.h:74-85 | index 0 gives a and any other index gives b |
| Boxes.Box.Equals | AppTinyMesh/Include/box.h:221-224 | both corners compare equal; BoxEqualsEquivalence shows it is reflexive and symmetric |
| Boxes.Box.InsideBox | AppTinyMesh/Include/box.h:203-206 | the argument's corners lie strictly within this box's; InsideBoxContains shows every point of the argument is then strictly inside |
| Boxes.Box.Inside | AppTinyMesh/Include/box.h:212-215 | strictly between the corners; InsideIsStrict shows R is then 0 and a face point is not inside |
| Boxes.BoxEqualsEquivalence | AppTinyMesh/Include/box.h:221-224 | operator== is reflexive and symmetric |
| Boxes.InsideBoxContains | AppTinyMesh/Include/box.h:203-215 | a point of a box strictly inside another is strictly inside that other |
| Boxes.Box.Center | AppTinyMesh/Include/box.h:88-91 | the centre is equidistant from both corners |
| Boxes.Box.Diagonal | AppTinyMesh/Include/box.h:96-99 | a plus the diagonal is b |
| Boxes.Box.Size | AppTinyMesh/Include/box.h:105-108 | the size is the same vector as the diagonal (so a plus the size is b) |
| Boxes.Box.Vertex | AppTinyMesh/Include/box.h:126-129 | coordinate i comes from b exactly when bit i of k is set; for a valid box every vertex lies between the corners |
| Boxes.VertexEnds | AppTinyMesh/Include/box.h:126-129 | Vertex(0) is a and Vertex(7) is b |
| Boxes.Box.Volume | AppTinyMesh/Include/box.h:132-136 | a valid box has non-negative volume |
| Boxes.Box.Area | AppTinyMesh/Include/box.h:141-145 | a valid box has non-negative area |
| Boxes.Box.Normal | AppTinyMesh/Include/box.h:177-197 | the loop computes the offset of p from its clamp onto the box |
| Boxes.Box.R | AppTinyMesh/Include/box.h:151-169 | the loop computes the squared norm of that offset, which is Normal(p)'s squared norm |
| Boxes.NormalVanishesWithin | AppTinyMesh/Include/box.h:151-197 | component i of the offset is 0 exactly within [a[i], b[i]]; R(p) >= 0, and R(p) == 0 exactly when p lies in the closed box |
| Boxes.NormZeroWithin | AppTinyMesh/Include/box.h:151-169 | an offset that vanishes exactly within the range on each axis has zero norm exactly within the box |
| Boxes.InsideIsStrict | AppTinyMesh/Include/box.h:212-215 | Inside(p) implies R(p) == 0, and a point on a face is not inside |
| Boxes.Box.Sub | AppTinyMesh/Source/box.cpp:128-133 | the octant takes [a, c] or [c, b] per axis by bit of n; its diagonal is half the diagonal; Sub(0) starts at a and Sub(7) ends at b |
| Boxes.Box.Translate | AppTinyMesh/Source/box.cpp:151-155 | both corners move by t and the diagonal is unchanged |
| Boxes.Box.Translated | Code/AppAll/AppTinyMesh/AppTinyMesh/Source/box.cpp:258-261 | a fresh shifted box with the same diagonal |
| Boxes.Box.Scale | AppTinyMesh/Source/box.cpp:164-176 | both corners are multiplied by s and exchanged when s < 0, so a valid box stays valid |
| Boxes.ScalePreservesOrder | AppTinyMesh/Source/box.cpp:164-176 | scaling keeps the corner order for s >= 0 and reverses it for s < 0 |
| Boxes.Box.Intersection | Code/AppAll/AppTinyMesh/AppTinyMesh/Source/box.cpp:136-139 | the corners are Max(a, x.a) and Min(b, x.b) |
| Boxes.IntersectionCorners | Code/AppAll/AppTinyMesh/AppTinyMesh/Source/box.cpp:136-139 | the intersection is symmetric, and boxes disjoint along any axis (one box's upper corner below the other's lower corner in that coordinate) give an invalid box |
| Boxes.Box.Extend | Code/AppAll/AppTinyMesh/AppTinyMesh/Source/box.cpp:179-183 | a moves down by r and b moves up by r on every axis |
| Boxes.Box.Extended | Code/AppAll/AppTinyMesh/AppTinyMesh/Source/box.cpp:191-194 | a fresh extended box; this box is not modified |
| Boxes.Box.ExtendToPoint | Code/AppAll/AppTinyMesh/AppTinyMesh/Source/box.cpp:202-206 | afterwards a <= p <= b, and a point already inside changes nothing |
| Boxes.Box.SetParallelepipedic | Code/AppAll/AppTinyMesh/AppTinyMesh/Source/box.cpp:148-171 | the counts follow ParallelepipedicCount and are at least 1 for a valid box; the centre is kept and the diagonal becomes Vector(x, y, z) * size |
| Rays.Ray.At | AppTinyMesh/Include/ray.h:66-69 | the point at t differs from the origin by t times the direction, for every real t |
| Rays.AtProperties | AppTinyMesh/Include/ray.h:66-69 | ray(0) is the origin, ray(1) is origin + direction, and ray(t1) - ray(t2) == (t1 - t2) * direction |
| Rays.Ray.Reflect | AppTinyMesh/Source/ray.cpp:21-24 | the new origin is p, and the reflected direction's dot with the normal is the old one times (1 - 2 normal²) |
| Rays.ReflectedDot | AppTinyMesh/Source/ray.cpp:23 | the dot-product identity behind Reflect's contract |
| Rays.ReflectNormalComponent | AppTinyMesh/Source/ray.cpp:23 | a unit normal flips the normal component, and a direction perpendicular to the normal is unchanged |
| Triangles.MollerTrumbore | Code/AppAll/AppTinyMesh/AppTinyMesh/Source/triangle.cpp:62-97 | a near-zero determinant misses; a hit has u in [0,1], v >= 0 and u + v <= 1, and ray(t) is the barycentric point (u, v) |
| Triangles.Classify | Code/AppAll/AppTinyMesh/AppTinyMesh/Source/triangle.cpp:75-96 | the branch logic: a hit has the three ratios of the numerators to the determinant, within the barycentric bounds |
| Triangles.ClassifyComplete | Code/AppAll/AppTinyMesh/AppTinyMesh/Source/triangle.cpp:75-96 | admissible ratios with a large enough determinant are reported as exactly that hit |
| Triangles.Solution | Code/AppAll/AppTinyMesh/AppTinyMesh/Source/triangle.cpp:62-97 | Cramer's rule: the three ratios solve origin + t d == p0 + u e0 + v e1 |
| Triangles.MollerTrumboreComplete | Code/AppAll/AppTinyMesh/AppTinyMesh/Source/triangle.cpp:62-97 | an admissible (t, u, v) with ray(t) at the barycentric point and a large enough determinant is found exactly |
| Triangles.AreaNormalOfUnit | Code/AppAll/AppTinyMesh/AppTinyMesh/Source/triangle.cpp:43-46 | the counter-clockwise unit triangle has area normal (0, 0, 0.5) |
| Triangles.AreaNormalOfClockwise | Code/AppAll/AppTinyMesh/AppTinyMesh/Source/triangle.cpp:43-46 | the clockwise unit triangle has area normal (0, 0, -0.5) |
| Triangles.AreaNormalTranslation | Code/AppAll/AppTinyMesh/AppTinyMesh/Source/triangle.cpp:43-46 | moving all three vertices by t leaves the area normal unchanged |
| Triangles.Triangle.constructor | AppTinyMesh/Include/mesh.h:73-78 | p[i] is the i-th constructor argument |
| Triangles.Triangle.At | AppTinyMesh/Include/mesh.h:52-55 | vertex i; the constructor's contract gives vertex i as the i-th argument |
| Triangles.Triangle.Center | AppTinyMesh/Include/mesh.h:58-61 | three times the centre is the sum of the vertices |
| Triangles.CenterIsBarycentric | AppTinyMesh/Include/mesh.h:58-61 | the centre is the barycentric point (1/3, 1/3) |
| Triangles.Triangle.Vertex | Code/AppAll/AppTinyMesh/AppTinyMesh/Source/triangle.cpp:18-21 | (0,0), (1,0) and (0,1) give p0, p1 and p2 |
| Triangles.Triangle.AreaNormal | Code/AppAll/AppTinyMesh/AppTinyMesh/Source/triangle.cpp:43-46 | the area normal is perpendicular to both edges from p0 |
| Triangles.Triangle.Intersect | Code/AppAll/AppTinyMesh/AppTinyMesh/Source/triangle.cpp:62-97 | the contract of MollerTrumbore on the stored vertices: ray(t) == Vertex(u, v) on a hit |
| Triangles.Triangle.Translate | Code/AppAll/AppTinyMesh/AppTinyMesh/Source/triangle.cpp:104-110 | the loop adds u to every vertex, and the area normal is unchanged |
| Triangles.Triangle.GetBox | Code/AppAll/AppTinyMesh/AppTinyMesh/Source/triangle.cpp:115-118 | the box is the Min and Max of the vertices and contains each of them |
| CubeMesh.Axis | AppTinyMesh/Source/mesh.cpp:176-181 | axis i has 1 on component i and 0 elsewhere |
| CubeMesh.BoxTopology | AppTinyMesh/Source/mesh.cpp:165-204 | 36 corners, every vertex index < 8 and normal index < 6, all 12 triangles flat, each corner on the side of its face's normal, and normal n is axis n/2 with sign -1 for even n |
| CubeMesh.BoxTriangleFlat | AppTinyMesh/Source/mesh.cpp:187-203 | each triangle of the cube has three equal normal indices |
| CubeMesh.CornerOnFace | AppTinyMesh/Source/mesh.cpp:187-203 | corner c's vertex has bit n/2 set exactly when its normal index n is odd |
| CubeMesh.BoxCornersOnFaces | AppTinyMesh/Source/mesh.cpp:165-204 | each corner's box vertex lies on the face that its normal points out of |
| Meshes.FaceNormals | AppTinyMesh/Source/mesh.cpp:75-81 | one area normal per triangle, the one the smoothing loop adds to its corners |
| Meshes.Accumulate | AppTinyMesh/Source/mesh.cpp:75-81 | accumulating keeps the number of normal slots |
| Meshes.AccumulateAt | AppTinyMesh/Source/mesh.cpp:75-81 | slot k after accumulation is its initial value plus the area normals of every corner that references k |
| Meshes.Zeros | Code/AppAll/AppTinyMesh/AppTinyMesh/Source/mesh.cpp:69-72 | n Null vectors |
| Meshes.Resized | AppTinyMesh/Source/mesh.cpp:70 | resize keeps the existing prefix and pads with Null |
| Meshes.ZeroedAccumulation | Code/AppAll/AppTinyMesh/AppTinyMesh/Source/mesh.cpp:66-90 | from zeroed slots, slot k is exactly the sum of the area normals at its corners |
| Meshes.StaleNormalReversesSmoothing | AppTinyMesh/Source/mesh.cpp:67-88 | a kept stale normal of -2 w can reverse the accumulated normal of a single triangle |
| Meshes.ConstructedNormalsFlipSmoothing | AppTinyMesh/Source/mesh.cpp:26-29 | with normals filled with Z by Mesh(vertices, indices), the clockwise triangle (0, Y, X) smooths vertex 0 to +Z/2 while its face normal sum is -Z/2 |
| Meshes.Translated | Code/AppAll/AppTinyMesh/AppTinyMesh/Source/mesh.cpp:304-311 | every vertex is moved by t |
| Meshes.Scaled | AppTinyMesh/Source/mesh.cpp:210-226 | every vertex is multiplied by s |
| Meshes.Negated | AppTinyMesh/Source/mesh.cpp:210-226 | every normal is negated |
| Meshes.FaceNormalsTranslated | Code/AppAll/AppTinyMesh/AppTinyMesh/Source/mesh.cpp:304-311 | translating the vertices leaves every face's area normal unchanged |
| Meshes.FaceNormalScaled | AppTinyMesh/Source/mesh.cpp:210-226 | scaling the vertices by s scales each area normal by s², so its direction is kept and only the stored normals need negating |
| Meshes.CrossingsBound | Code/AppAll/AppTinyMesh/AppTinyMesh/Source/mesh.cpp:183-202 | the crossing count over n triangles lies in [0, n] |
| Meshes.CrossingsStep | Code/AppAll/AppTinyMesh/AppTinyMesh/Source/mesh.cpp:190-199 | one more triangle adds 1 exactly when it is hit at t >= 0 |
| Meshes.MollerTrumboreTranslated | Code/AppAll/AppTinyMesh/AppTinyMesh/Source/triangle.cpp:62-97 | moving the triangle and the ray origin by t gives the same intersection |
| Meshes.CrossingsTranslated | Code/AppAll/AppTinyMesh/AppTinyMesh/Source/mesh.cpp:183-202 | translating the mesh and the point together keeps the crossing count, so Inside is translation invariant |
| Meshes.Mesh.constructor | AppTinyMesh/Source/mesh.cpp:14-16 | the empty mesh, which is valid |
| Meshes.Mesh.FromIndexedVertices | AppTinyMesh/Source/mesh.cpp:26-29 | vertices and varray as given, one Z normal per vertex, narray empty; valid only without indices |
| Meshes.Mesh.FromIndexedVerticesOlder | Code/AppAll/AppTinyMesh/AppTinyMesh/Source/mesh.cpp:24-28 | normals and narray stay empty; valid only without indices |
| Meshes.Mesh.FromArrays | AppTinyMesh/Source/mesh.cpp:38-40 | the four arrays are stored verbatim |
| Meshes.Mesh.Copy | AppTinyMesh/Source/meshcolor.cpp:16-18 | the copy has the same four arrays |
| Meshes.Mesh.FromBox | AppTinyMesh/Source/mesh.cpp:165-204 | vertex i is box.Vertex(i), the normals and indices are the cube topology, and the mesh is valid |
| Meshes.Mesh.AddBoxTriangles | AppTinyMesh/Source/mesh.cpp:187-203 | the twelve AddTriangle calls leave exactly the cube's varray and narray |
| Meshes.Mesh.Triangles | AppTinyMesh/Include/mesh.h:225-228 | the integer division of |varray| by 3 |
| Meshes.Mesh.Vertexes | AppTinyMesh/Include/mesh.h:207-210 | the number of vertices |
| Meshes.Mesh.VertexIndex | AppTinyMesh/Include/mesh.h:157-160 | in a valid mesh the index is a valid vertex offset |
| Meshes.Mesh.Vertex | AppTinyMesh/Include/mesh.h:187-190 | vertex i, also operator[] (mesh.h:236-239); CornerAccessors relates it to Vertex(t, k) |
| Meshes.Mesh.TriangleVertex | AppTinyMesh/Include/mesh.h:198-201 | vertex k of triangle t through varray; CornerAccessors shows it is Vertex(VertexIndex(t, k)) and always defined in a valid mesh |
| Meshes.Mesh.Normal | AppTinyMesh/Include/mesh.h:217-220 | normal i; CornerAccessors shows NormalIndex(t, k) is always a valid argument in a valid mesh |
| Meshes.CornerAccessors | AppTinyMesh/Include/mesh.h:157-220 | in a valid mesh every corner's vertex and normal index is in range and Vertex(t, k) is Vertex(VertexIndex(t, k)) |
| Meshes.Mesh.NormalIndex | AppTinyMesh/Include/mesh.h:167-170 | in a valid mesh the index is a valid normal offset |
| Meshes.Mesh.GetTriangle | AppTinyMesh/Include/mesh.h:177-180 | a fresh triangle whose k-th vertex is vertices[varray[3t+k]] |
| Meshes.Mesh.IsSmooth | Code/AppAll/AppTinyMesh/AppTinyMesh/Source/mesh.cpp:100-103 | 0 exactly when the three normal indices of the triangle are equal, 1 otherwise |
| Meshes.Mesh.AddSmoothTriangle | AppTinyMesh/Source/mesh.cpp:95-103 | appends (a, b, c) and (na, nb, nc), and in-range indices preserve validity |
| Meshes.Mesh.AddTriangle | AppTinyMesh/Source/mesh.cpp:110-118 | appends (a, b, c) and (n, n, n), preserves validity, and the new triangle is not smooth |
| Meshes.Mesh.AddSmoothQuadrangle | AppTinyMesh/Source/mesh.cpp:128-135 | appends (a, b, c, a, c, d) with the matching normal indices, preserving validity |
| Meshes.Mesh.AddQuadrangle | AppTinyMesh/Source/mesh.cpp:142-145 | each vertex index is also its own normal index |
| Meshes.Mesh.GetBox | AppTinyMesh/Source/mesh.cpp:150-157 | Box::Null for no vertices; otherwise a box that contains every vertex and whose corner components are attained |
| Meshes.Mesh.SmoothNormals | AppTinyMesh/Source/mesh.cpp:67-88 | narray == varray, one normal per vertex, and normal k is the normalised sum of its kept old value and the area normals of its corners |
| Meshes.Mesh.SmoothNormalsZeroed | Code/AppAll/AppTinyMesh/AppTinyMesh/Source/mesh.cpp:66-90 | normal k is the normalised sum of the area normals of its corners only |
| Meshes.Mesh.AccumulateNormals | AppTinyMesh/Source/mesh.cpp:75-81 | the loop leaves narray == varray and the normals equal to Accumulate of the old normals |
| Meshes.Mesh.NormalizeNormals | AppTinyMesh/Source/mesh.cpp:84-87 | each slot is replaced by its normalisation |
| Meshes.Mesh.Inside | Code/AppAll/AppTinyMesh/AppTinyMesh/Source/mesh.cpp:183-202 | inside exactly when the number of triangles hit along +X at t >= 0 is odd; no triangles gives false |
| Meshes.Mesh.Translate | Code/AppAll/AppTinyMesh/AppTinyMesh/Source/mesh.cpp:304-311 | every vertex moves by t, and the rest is unchanged, so validity is preserved |
| Meshes.Mesh.Scale | AppTinyMesh/Source/mesh.cpp:210-226 | vertices are multiplied by s, normals are negated only when s < 0, and the index arrays are untouched |
| Meshes.Mesh.Load | AppTinyMesh/Source/mesh.cpp:239-281 | the arrays are cleared first; an unreadable file leaves the mesh empty, otherwise the result is ReadLines of the lines |
| Meshes.ReadLinesPaired | AppTinyMesh/Source/mesh.cpp:256-279 | whatever the lines, the loaded index arrays are paired and of whole triangles |
| Meshes.Mesh.SaveObj | AppTinyMesh/Source/mesh.cpp:288-308 | the group line, the vertex lines, the normal lines, then one face line per triangle with every index plus 1 |
| Meshes.Faces | AppTinyMesh/Source/mesh.cpp:299-305 | one face per triangle |
| Meshes.FaceRoundTrip | AppTinyMesh/Source/mesh.cpp:270-278 | reading the written face lines of the first n triangles restores those triangles' varray and narray |
| Meshes.IndexRoundTrip | AppTinyMesh/Source/mesh.cpp:288-308 | reading all the written face lines restores varray and narray exactly |
| Cylinders.ScaledEndsMinusOneTwice | AppTinyMesh/Source/cylinder.cpp:67-79 | scaling by -1 twice restores both end points in order |
| Cylinders.ScaledEndsOrder | AppTinyMesh/Source/cylinder.cpp:67-79 | ordered end points stay ordered after Scale, for either sign |
| Cylinders.Cylinder.constructor | AppTinyMesh/Source/cylinder.cpp:31-36 | a, b and r are stored verbatim |
| Cylinders.Cylinder.At | AppTinyMesh/Include/cylinder.h:47-58 | index 0 gives a and any other index gives b |
| Cylinders.Cylinder.Radius | AppTinyMesh/Include/cylinder.h:63-66 | twice the radius is the stored r |
| Cylinders.Cylinder.Vertex | AppTinyMesh/Include/cylinder.h:76-79 | the bit selection between a and b; Vertex(0) is a and Vertex(7) is b |
| Cylinders.Cylinder.Translate | AppTinyMesh/Source/cylinder.cpp:54-58 | both end points move by t and r is unchanged |
| Cylinders.Cylinder.Scale | AppTinyMesh/Source/cylinder.cpp:67-79 | the end points are scaled and exchanged for s < 0; r is not scaled |
| Cylinders.EqualsIgnoresRadius | AppTinyMesh/Include/cylinder.h:85-88 | cylinders that differ only in r compare equal |
| Cylinders.Cylinder.Equals | AppTinyMesh/Include/cylinder.h:85-88 | both end points compare equal; EqualsIgnoresRadius shows the radius plays no part |
| Colors.PackedByte | AppTinyMesh/Include/color.h:94-100 | each extracted byte is below 256 |
| Colors.Pack | AppTinyMesh/Include/color.h:94-100 | four bytes pack into 32 bits |
| Colors.FromPacked | AppTinyMesh/Include/color.h:94-100 | channel k is byte 3 - k of x divided by 255, so it lies in [0, 1] |
| Colors.PackedRoundTrip | AppTinyMesh/Include/color.h:94-122 | unpacking four packed bytes gives Color(int r, g, b, a) |
| Colors.FromInts | AppTinyMesh/Include/color.h:120-122 | multiplying by 255 gives back the integers |
| Colors.FromIntsDefaultAlpha | AppTinyMesh/Include/color.h:120-122 | the default alpha 255 gives alpha 1 |
| Colors.Grey | AppTinyMesh/Include/color.h:84-88 | r = g = b = v and alpha 1 |
| Colors.Opaque | AppTinyMesh/Include/color.h:107-113 | the default alpha is 1 |
| Colors.Color.AddAssign | AppTinyMesh/Include/color.h:127-134 | each channel grows by the argument's channel |
| Colors.Color.At | AppTinyMesh/Include/color.h:55-58 | channel i for i in 0..3; AddAssign, Div and Rgb state their results through it |
| Colors.Add | AppTinyMesh/Include/color.h:139-142 | the channelwise sum |
| Colors.AddAssignIsAdd | AppTinyMesh/Include/color.h:127-142 | `+=` leaves the same channels as `+` |
| Colors.Sub | AppTinyMesh/Include/color.h:156-159 | the channelwise difference |
| Colors.Color.Scale | AppTinyMesh/Include/color.h:148-151 | the channelwise product, alpha included |
| Colors.Color.Mul | AppTinyMesh/Include/color.h:164-167 | every channel, alpha included, multiplied by x |
| Colors.MulLeft | AppTinyMesh/Include/color.h:175-178 | a * c is c * a |
| Colors.Color.Div | AppTinyMesh/Include/color.h:185-188 | each channel multiplied back by x gives the original |
| Colors.LerpProperties | AppTinyMesh/Include/color.h:73-76 | Lerp gives a at 0 and b at 1, and it is (1 - t) a + t b |
| Colors.Lerp | AppTinyMesh/Include/color.h:73-76 | the channelwise (1 - t) a + t b; LerpProperties shows it gives a at 0 and b at 1 |
| Colors.ArithmeticProperties | AppTinyMesh/Include/color.h:148-188 | c / x == c * (1 / x), x * c == c * x, and subtracting undoes adding |
| MeshColors.WhiteColors | AppTinyMesh/Source/meshcolor.cpp:26 | n colours, each opaque white |
| MeshColors.MeshColor.constructor | AppTinyMesh/Source/meshcolor.cpp:6-8 | an empty base mesh without colours |
| MeshColors.MeshColor.WithColors | AppTinyMesh/Source/meshcolor.cpp:16-18 | a copy of m, with the colours and indices stored unchecked |
| MeshColors.MeshColor.FromMesh | AppTinyMesh/Source/meshcolor.cpp:24-28 | a copy of m, one white per vertex, carray == varray, and a valid m gives a valid colour indexing |
| MeshColors.MeshColor.GetColor | AppTinyMesh/Include/meshcolor.h:29-32 | the colour stored at index i, one of the stored colours |
| MeshColors.MeshColor.GetColors | AppTinyMesh/Include/meshcolor.h:37-40 | a copy of the colour array |
| MeshColors.MeshColor.ColorIndexes | AppTinyMesh/Include/meshcolor.h:45-48 | a copy of the colour indices |
| Widget.Flatten | AppTinyMesh/Source/mesh-widget.cpp:49-63 | three reals per corner |
| Widget.FlattenAt | AppTinyMesh/Source/mesh-widget.cpp:49-63 | entry 3i + k is component k of the point at corner i's index |
| Widget.Rgb | AppTinyMesh/Source/mesh-widget.cpp:130-150 | the red, green and blue channels of each colour as a vector, alpha dropped |
| Widget.FlattenCorners | AppTinyMesh/Source/mesh-widget.cpp:49-63 | the loop fills a fresh buffer equal to Flatten |
| Widget.Identity | AppTinyMesh/Source/mesh-widget.cpp:65-67 | entry i is i |
| Widget.IdentityIndices | AppTinyMesh/Source/mesh-widget.cpp:65-67 | the loop fills a fresh index buffer with the identity |
| Widget.CornerBuffers | AppTinyMesh/Source/mesh-widget.cpp:49-67 | the vertex, normal and index buffers of one mesh |
| Widget.FrameTranslates | AppTinyMesh/Source/mesh-widget.cpp:220-243 | the frame matrix moves a point by fr and keeps the homogeneous coordinate 1 |
| Widget.MeshGL.constructor | AppTinyMesh/Source/mesh-widget.cpp:17-30 | enabled, not wireframe, Triangles shading, Normal material, no triangles, frame at the origin |
| Widget.MeshGL.FromMesh | AppTinyMesh/Source/mesh-widget.cpp:35-109 | the flattened corner buffers, the identity index buffer, the bounding box GetBox gives for the mesh's vertices, triangleCount as the corner count, and the frame at position |
| Widget.MeshGL.FromMeshColor | AppTinyMesh/Source/mesh-widget.cpp:114-205 | the same buffers and bounding box for the base mesh, plus the colour of each corner's colour index |
| Widget.MeshGL.SetFrame | AppTinyMesh/Source/mesh-widget.cpp:220-243 | the matrix is the identity except entries 12-14, which hold fr |
| Widget.Camera.SetPlanes | AppTinyMesh/Source/camera.cpp:313-317 | the new near and far planes, everything else kept |
| Widget.SetPlanesLastWins | AppTinyMesh/Source/camera.cpp:313-317 | a second SetPlanes overrides the first |
| Widget.Camera.GetNear | AppTinyMesh/Source/camera.cpp:296-299 | the near plane; SetPlanes's contract states it after SetPlanes(n, f) is n |
| Widget.Camera.GetFar | AppTinyMesh/Source/camera.cpp:304-307 | the far plane; SetPlanes's contract states it after SetPlanes(n, f) is f |
| Widget.MeshWidget.constructor | Code/AppAll/AppTinyMesh/AppTinyMesh/Source/mesh-widget.cpp:247-251 | perspective mode, cameraOrthoSize 100, the default camera and no meshes |
| Widget.MeshWidget.AddMesh | AppTinyMesh/Source/mesh-widget.cpp:424-428 | the name maps to a fresh MeshGL of the mesh at frame, with default flags, the mesh's bounding box, the per-corner position and normal buffers, no colours, the identity index buffer and one draw per corner; other entries are unchanged |
| Widget.MeshWidget.AddColorMesh | AppTinyMesh/Source/mesh-widget.cpp:435-439 | the same for a coloured mesh: the base mesh's bounding box, per-corner positions, normals and RGB colours, the identity index buffer and one draw per corner; other entries are unchanged |
| Widget.MeshWidget.DeleteMesh | AppTinyMesh/Source/mesh-widget.cpp:445-453 | the name is removed if present, so an absent name changes nothing |
| Widget.MeshWidget.UpdateMesh | AppTinyMesh/Source/mesh-widget.cpp:460-465 | an existing entry gets the new frame |
| Widget.MeshWidget.EnableMesh | AppTinyMesh/Source/mesh-widget.cpp:471-475 | only the named entry becomes enabled |
| Widget.MeshWidget.DisableMesh | AppTinyMesh/Source/mesh-widget.cpp:481-485 | only the named entry becomes disabled |
| Widget.MeshWidget.ClearAll | AppTinyMesh/Source/mesh-widget.cpp:490-499 | the table is empty |
| Widget.MeshWidget.SetMaterial | AppTinyMesh/Source/mesh-widget.cpp:569-573 | only the named entry gets the material |
| Widget.MeshWidget.SetMaterialGlobal | AppTinyMesh/Source/mesh-widget.cpp:579-583 | every entry gets the material |
| Widget.MeshWidget.UseWireframe | AppTinyMesh/Source/mesh-widget.cpp:590-594 | only the named entry gets the flag |
| Widget.MeshWidget.UseWireframeGlobal | AppTinyMesh/Source/mesh-widget.cpp:600-604 | every entry gets the flag |
| Widget.MeshWidget.SetShading | AppTinyMesh/Source/mesh-widget.cpp:610-614 | only the named entry gets the shading |
| Widget.MeshWidget.SetShadingGlobal | AppTinyMesh/Source/mesh-widget.cpp:620-624 | every entry gets the shading |
| Widget.MeshWidget.SetCamera | AppTinyMesh/Source/mesh-widget.cpp:514-527 | the camera is replaced as given |
| Widget.MeshWidget.SetCameraKeepingPlanes | Code/AppAll/AppTinyMesh/AppTinyMesh/Source/mesh-widget.cpp:505-518 | the new camera gets the stored near and far planes |
| Widget.MeshWidget.SetNearAndFarPlane | AppTinyMesh/Source/mesh-widget.cpp:533-545 | the camera gets the new planes |
| Widget.MeshWidget.SetNearAndFarPlaneStored | Code/AppAll/AppTinyMesh/AppTinyMesh/Source/mesh-widget.cpp:524-538 | the planes are stored and applied to the camera |
| Widget.MeshWidget.SetCameraMode | AppTinyMesh/Source/mesh-widget.cpp:551-562 | the projection flag is set as given |

## Left out

- Square roots. `Norm`, `Normalize`, `Normalized`, `Orthonormal`, `Triangle::Normal`, `Triangle::Area` and the other sqrt-based measures are not modelled. The normalisation step of `SmoothNormals` is a function parameter.
- Floating point. Every `double` is a `real`, and the `float(...)` narrowing of the GL buffers is dropped. The `epsilon` tests are kept as real comparisons.
- The camera's trigonometry. `PixelToRay` and the rest of camera.cpp depend on sin, cos, tan and atan. `Camera` keeps only the fields that `SetPlanes` and the widget touch.
- OpenGL, GLEW, Qt and clock plumbing are not modelled:
  - buffer uploads, shaders, rendering and the event handlers;
  - the GL handles of `MeshGL`, with its `glDelete*` calls on deletion;
  - the rendering profiler.
- File I/O, regular expressions and number formatting of `Load` and `SaveObj`:
  - a file is a sequence of line records that holds what each pattern captures;
  - a file that cannot be opened is `None`;
  - `SaveObj` returns its records instead of writing them.
- Meshes.Mesh.Load: coordinates are not round-tripped. The vertex pattern requires a decimal point that the writer need not print, so only the index round trip is claimed.
- `Reserve`, `Sphere`, `implicits.h`, `Box::Octant`, `Vector::Trilinear`, `Swap`, and the `Mesh(Sphere, int)` and `Mesh(Cylinder, int)` constructors are not part of this model. They are storage hints, storage-only classes, or declarations without definitions.
- Boxes.Box.FromPoints: requires a non-empty point list, because the source reads `v[0]` unconditionally.
- Meshes.Mesh.SmoothNormals: requires whole triangles, because otherwise `varray.at(i + 1)` or `varray.at(i + 2)` reads past the end (a `QVector` assertion, not an exception). It also requires in-range vertex indices, because `vertices[...]` out of range is undefined. `narray` needs no pairing, since it is overwritten by `varray` first. The same holds for Meshes.Mesh.SmoothNormalsZeroed.
- Triangles.Triangle.Intersect: the source writes its `u` out-parameter before the u range test and its `v` out-parameter before the v range test, so on a `false` return the caller's `u` (and, past the u test, `v`) hold the rejected values. The model returns `Miss` and does not carry those partial writes.
- Meshes.Mesh.SaveObj: requires a whole number of triangles and a normal index for every corner. On other index arrays the source's `at()` reads past the end after part of the file has been written; that path is not modelled.
- Vectors.Vector.Div: requires a non-zero divisor. The source divides a `double` by zero to infinities or NaN, which reals do not have.
- Vectors.Vector.Inverse: requires every component non-zero, for the same reason; the source gives infinities for zero components.
- Vectors.Vector.DividedBy: requires every component of the divisor non-zero, for the same reason.
- Vectors.Vector.Solve: requires `va != vb`, for the same reason; the source returns infinities or NaN when the two values are equal. The same requires stands on Vectors.SolveIsLerp and Vectors.SolveEnds.
- Colors.Color.Div: requires a non-zero divisor, for the same reason.
- Boxes.Box.SetParallelepipedic: requires a non-zero `size`, for the same reason; with `size == 0` the source converts an infinite or NaN quotient to `int`, which C++ leaves undefined.
- Widget.MeshGL.SetFrame: writes reals into the matrix, while the source writes floats.
- Widget.MeshGL.FromMesh: the source fills the vertex and normal buffers in one loop; the model fills them in two loops (`FlattenCorners`), which give the same contents. The same holds for Widget.MeshGL.FromMeshColor.
- Widget.MeshWidget.AddMesh: when a name is reused, the source leaks the old `MeshGL`'s GL objects. The model replaces the map entry and does not track the leak.
- Widget.MeshWidget.constructor: says nothing about the stored `nearplane`/`farplane`, because the older tree's constructor leaves them uninitialised.

## Findings

| source | as written | input that shows it | evidently intended | confidence | as-written member | corrected member |
|---|---|---|---|---|---|---|
| AppTinyMesh/Source/mesh.cpp:70 | `SmoothNormals` resizes `normals` to the vertex count, which keeps the existing normals, and then adds the area normals onto them | `Mesh(vertices, indices)` (AppTinyMesh/Source/mesh.cpp:26-29) fills the normals with Z. Take the vertices (0, Y, X) and the indices (0, 1, 2): vertex 0 becomes Z + (0, 0, -0.5) = (0, 0, 0.5), opposite to the triangle's area normal (0, 0, -0.5) | every slot starts from Null before accumulating, as the older tree does (Code/AppAll/AppTinyMesh/AppTinyMesh/Source/mesh.cpp:69-72), so each normal is the sum of the area normals of its corners | not executed | Meshes.ConstructedNormalsFlipSmoothing | Meshes.Mesh.SmoothNormalsZeroed |
