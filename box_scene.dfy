/**
 * The box board's extra geometry: after the marker scene is built, the
 * exporter appends a slightly shrunken unit cube (six quads drawn as triangle
 * fans, one accessor per face) to the same buffer, behind alignment padding,
 * with one untextured cardboard-brown material, one mesh and one node added
 * to the first scene.
 *
 * `WithBox` is the resulting scene, `AddBox` the exporter's code; the lemmas
 * state that the box is appended (nothing already present changes), that its
 * view is float-aligned and holds the scaled cube, that each face's bounds
 * are exact, and that a well-formed scene stays well formed.
 */
module BoxScene {
  import opened Wrappers
  import opened FloatBytes
  import opened Gltf
  import opened Boards
  import opened MarkerScene

  const BOX_FACES: nat := 6
  const BOX_CORNERS_PER_FACE: nat := 4
  /** Floats and bytes of one face (four VEC3 vertices) and of the whole cube. */
  const FACE_FLOATS: nat := 12   // BOX_CORNERS_PER_FACE * FLOATS_PER_POSITION
  const FACE_BYTES: nat := 48    // FACE_FLOATS * FLOAT_SIZE
  const CUBE_FLOATS: nat := 72   // BOX_FACES * FACE_FLOATS
  const CUBE_BYTES: nat := 288   // CUBE_FLOATS * FLOAT_SIZE

  /** The box is drawn slightly inside the markers so the two do not z-fight. */
  const SIZE_FACTOR: real := 0.995

  /** Cardboard brown (#a58855) as a linear RGBA factor. */
  const BOX_BASE_COLOR_FACTOR: seq<real> := [0.37626, 0.24620, 0.09084, 1.0]

  /** A unit cube centred on the origin, face by face, four corners per face
      in fan order. */
  const FORWARD_FACE: seq<real> := [-0.5, -0.5, 0.5,   0.5, -0.5, 0.5,   0.5, 0.5, 0.5,    -0.5, 0.5, 0.5]
  const BACKWARD_FACE: seq<real> := [0.5, -0.5, -0.5,  -0.5, -0.5, -0.5, -0.5, 0.5, -0.5,  0.5, 0.5, -0.5]
  const LEFT_FACE: seq<real> := [0.5, -0.5, 0.5,       0.5, -0.5, -0.5,  0.5, 0.5, -0.5,   0.5, 0.5, 0.5]
  const RIGHT_FACE: seq<real> := [-0.5, -0.5, -0.5,    -0.5, -0.5, 0.5,  -0.5, 0.5, 0.5,   -0.5, 0.5, -0.5]
  const UP_FACE: seq<real> := [-0.5, 0.5, 0.5,         0.5, 0.5, 0.5,    0.5, 0.5, -0.5,   -0.5, 0.5, -0.5]
  const DOWN_FACE: seq<real> := [-0.5, -0.5, -0.5,     0.5, -0.5, -0.5,  0.5, -0.5, 0.5,   -0.5, -0.5, 0.5]
  /** The twelve floats of face `face` of the unit cube. */
  function CubeFace(face: nat): (r: seq<real>)
    requires face < BOX_FACES
    ensures |r| == FACE_FLOATS
  {
    match face
    case 0 => FORWARD_FACE
    case 1 => BACKWARD_FACE
    case 2 => LEFT_FACE
    case 3 => RIGHT_FACE
    case 4 => UP_FACE
    case _ => DOWN_FACE
  }

  /** The first `n` faces of the cube, one after the other. */
  function CubeFaces(n: nat): (r: seq<real>)
    requires n <= BOX_FACES
    ensures |r| == FACE_FLOATS * n
  {
    if n == 0 then [] else CubeFaces(n - 1) + CubeFace(n - 1)
  }

  /** `cube_vertices`: all six faces. */
  const CUBE_VERTICES: seq<real> := FORWARD_FACE + BACKWARD_FACE + LEFT_FACE + RIGHT_FACE + UP_FACE + DOWN_FACE

  lemma CubeVerticesByFace()
    ensures CUBE_VERTICES == CubeFaces(BOX_FACES)
  {
  }

  // ---------------------------------------------------------------------------
  // The scaled cube

  /** The box's size shrunk by `SIZE_FACTOR`, one factor per axis. */
  function ScaledSize(size: BoxSize): Point3
  {
    Point3(size.width * SIZE_FACTOR, size.height * SIZE_FACTOR, size.depth * SIZE_FACTOR)
  }

  /** One float multiplied by a scale factor (`*=` on single-precision floats
      in the exporter, exact here). */
  function Product(v: real, factor: real): real
  {
    v * factor
  }

  /** Each vertex of a VEC3 array multiplied componentwise by `scaled`. */
  function Scale(vs: seq<real>, scaled: Point3): (r: seq<real>)
    requires |vs| % 3 == 0
    ensures |r| == |vs|
  {
    if vs == [] then []
    else
      var n := |vs| - 3;
      Scale(vs[..n], scaled) + [Product(vs[n], scaled.x), Product(vs[n + 1], scaled.y), Product(vs[n + 2], scaled.z)]
  }

  /** The vertex whose floats start at `p` is scaled componentwise. */
  lemma {:induction false} ScaleAt(vs: seq<real>, scaled: Point3, p: nat)
    requires |vs| % 3 == 0 && p % 3 == 0 && p + 2 < |vs|
    ensures Scale(vs, scaled)[p] == Product(vs[p], scaled.x)
    ensures Scale(vs, scaled)[p + 1] == Product(vs[p + 1], scaled.y)
    ensures Scale(vs, scaled)[p + 2] == Product(vs[p + 2], scaled.z)
  {
    var n := |vs| - 3;
    if p < n {
      ScaleAt(vs[..n], scaled, p);
    }
  }

  /** The exporter's scaling loop: every vertex of a VEC3 array multiplied in
      place by `scaled`, one vertex per iteration. */
  method ScaleVertices(a: array<real>, scaled: Point3)
    requires a.Length % 3 == 0
    modifies a
    ensures a[..] == Scale(old(a[..]), scaled)
  {
    ghost var original := a[..];
    ghost var target := Scale(original, scaled);
    var vertex := 0;
    while vertex < a.Length / FLOATS_PER_POSITION
      invariant 0 <= vertex <= a.Length / 3
      invariant forall j :: 0 <= j < 3 * vertex ==> a[j] == target[j]
      invariant forall j :: 3 * vertex <= j < a.Length ==> a[j] == original[j]
    {
      var p := 3 * vertex;
      ScaleAt(original, scaled, p);
      a[p + 0] := Product(a[p + 0], scaled.x);
      a[p + 1] := Product(a[p + 1], scaled.y);
      a[p + 2] := Product(a[p + 2], scaled.z);
      vertex := vertex + 1;
    }
  }

  /** The cube's vertices, scaled. */
  function ScaledVertices(scaled: Point3): (r: seq<real>)
    ensures |r| == CUBE_FLOATS
  {
    Scale(CUBE_VERTICES, scaled)
  }

  /** Scales a copy of the cube, vertex by vertex. */
  method ScaleCubeVertices(scaled: Point3) returns (vertices: seq<real>)
    ensures vertices == ScaledVertices(scaled)
  {
    var a := new real[CUBE_FLOATS](j requires 0 <= j < CUBE_FLOATS => CUBE_VERTICES[j]);
    assert a[..] == CUBE_VERTICES;
    ScaleVertices(a, scaled);
    vertices := a[..];
  }

  /** The twelve floats of face `face`. */
  function FaceBlock(vertices: seq<real>, face: nat): (r: seq<real>)
    requires |vertices| == CUBE_FLOATS && face < BOX_FACES
    ensures |r| == FACE_FLOATS
  {
    vertices[FACE_FLOATS * face..FACE_FLOATS * face + FACE_FLOATS]
  }

  lemma {:induction false} CubeFacesSlice(n: nat, face: nat)
    requires face < n <= BOX_FACES
    ensures CubeFaces(n)[FACE_FLOATS * face..FACE_FLOATS * face + FACE_FLOATS] == CubeFace(face)
  {
    if face < n - 1 {
      CubeFacesSlice(n - 1, face);
      assert CubeFaces(n)[..FACE_FLOATS * (n - 1)] == CubeFaces(n - 1);
    }
  }

  /** Face f of the cube array is the f-th face constant. */
  lemma CubeFaceBlock(face: nat)
    requires face < BOX_FACES
    ensures FaceBlock(CUBE_VERTICES, face) == CubeFace(face)
  {
    CubeVerticesByFace();
    CubeFacesSlice(BOX_FACES, face);
  }

  // ---------------------------------------------------------------------------
  // Face accessors and primitives

  /** The accessor minimum of face `face`: -s/2 on every axis except the one the
      face is perpendicular to on its positive side (faces 0, 2, 4). */
  function FaceMin(face: nat, scaled: Point3): seq<real>
  {
    [ if face == 2 then 0.5 * scaled.x else -0.5 * scaled.x,
      if face == 4 then 0.5 * scaled.y else -0.5 * scaled.y,
      if face == 0 then 0.5 * scaled.z else -0.5 * scaled.z ]
  }

  /** The accessor maximum of face `face`: +s/2 on every axis except the one the
      face is perpendicular to on its negative side (faces 1, 3, 5). */
  function FaceMax(face: nat, scaled: Point3): seq<real>
  {
    [ if face == 3 then -0.5 * scaled.x else 0.5 * scaled.x,
      if face == 5 then -0.5 * scaled.y else 0.5 * scaled.y,
      if face == 1 then -0.5 * scaled.z else 0.5 * scaled.z ]
  }

  function FaceAccessor(view: nat, face: nat, scaled: Point3): Accessor
  {
    Accessor(view, FACE_BYTES * face, BOX_CORNERS_PER_FACE, COMPONENT_TYPE_FLOAT, TYPE_VEC3,
             FaceMin(face, scaled), FaceMax(face, scaled))
  }

  function FaceAccessors(view: nat, scaled: Point3): (r: seq<Accessor>)
    ensures |r| == BOX_FACES
  {
    seq(BOX_FACES, face requires 0 <= face < BOX_FACES => FaceAccessor(view, face, scaled))
  }

  /** An untextured fan over one position accessor. */
  function PlainFan(positionAccessor: nat, material: nat): Primitive
  {
    Primitive(map["POSITION" := positionAccessor], MODE_TRIANGLE_FAN, material)
  }

  function FacePrimitives(firstAccessor: nat, material: nat): (r: seq<Primitive>)
    ensures |r| == BOX_FACES
  {
    seq(BOX_FACES, face requires 0 <= face < BOX_FACES => PlainFan(firstAccessor + face, material))
  }

  const BOX_MATERIAL: Material := Material("", BOX_BASE_COLOR_FACTOR, None)

  // ---------------------------------------------------------------------------
  // Appending the box

  /** `n` rounded up to a whole number of floats. */
  function AlignUp(n: nat): (r: nat)
    ensures r % FLOAT_SIZE == 0 && n <= r < n + FLOAT_SIZE
  {
    (n + FLOAT_SIZE - 1) / FLOAT_SIZE * FLOAT_SIZE
  }

  /** The zero bytes `resize` adds in front of the box. */
  function Padding(k: nat): (r: seq<Octet>)
    ensures |r| == k && forall j :: 0 <= j < k ==> r[j] == Raw(0)
  {
    seq(k, j => Raw(0))
  }

  function BoxView(start: nat): BufferView
  {
    BufferView(0, start, CUBE_BYTES, FLOATS_PER_POSITION * FLOAT_SIZE, TARGET_ARRAY_BUFFER)
  }

  /** The scene with the box appended. */
  function WithBox(model: Model, size: BoxSize): Model
    requires |model.buffers| > 0 && |model.scenes| > 0
  {
    var data := model.buffers[0].data;
    var start := AlignUp(|data|);
    var scaled := ScaledSize(size);
    model.(
      buffers := model.buffers[0 := Buffer(data + Padding(start - |data|) + EncodeFloats(ScaledVertices(scaled)))],
      bufferViews := model.bufferViews + [BoxView(start)],
      accessors := model.accessors + FaceAccessors(|model.bufferViews|, scaled),
      materials := model.materials + [BOX_MATERIAL],
      meshes := model.meshes + [Mesh(FacePrimitives(|model.accessors|, |model.materials|))],
      nodes := model.nodes + [Node(|model.meshes|)],
      scenes := model.scenes[0 := Scene(model.scenes[0].nodes + [|model.nodes|])])
  }

  /** The box step of `produce_board` for a box board. */
  method AddBox(model: Model, size: BoxSize) returns (result: Model)
    requires |model.buffers| > 0 && |model.scenes| > 0
    ensures result == WithBox(model, size)
  {
    var data := model.buffers[0].data;
    var start := (|data| + FLOAT_SIZE - 1) / FLOAT_SIZE * FLOAT_SIZE;
    var bufferViews := model.bufferViews + [BoxView(start)];
    // `resize` zero-fills; the vertex bytes then overwrite the tail.
    data := data + Padding(start + CUBE_BYTES - |data|);
    var scaled := ScaledSize(size);
    var vertices := ScaleCubeVertices(scaled);
    var vertexBytes := EncodeFloats(vertices);
    data := data[..start] + vertexBytes;

    var materials := model.materials + [BOX_MATERIAL];
    var accessors := model.accessors;
    var primitives: seq<Primitive> := [];
    for face := 0 to BOX_FACES
      invariant accessors == model.accessors + FaceAccessors(|model.bufferViews|, scaled)[..face]
      invariant primitives == FacePrimitives(|model.accessors|, |model.materials|)[..face]
    {
      accessors := accessors + [FaceAccessor(|bufferViews| - 1, face, scaled)];
      primitives := primitives + [PlainFan(|accessors| - 1, |materials| - 1)];
    }
    var meshes := model.meshes + [Mesh(primitives)];
    var nodes := model.nodes + [Node(|meshes| - 1)];
    var scenes := model.scenes[0 := Scene(model.scenes[0].nodes + [|nodes| - 1])];
    result := model.(buffers := model.buffers[0 := Buffer(data)], bufferViews := bufferViews,
                     accessors := accessors, materials := materials, meshes := meshes,
                     nodes := nodes, scenes := scenes);
    var oldData := model.buffers[0].data;
    assert start == AlignUp(|oldData|);
    assert (oldData + Padding(start + CUBE_BYTES - |oldData|))[..start] == oldData + Padding(start - |oldData|);
    assert FaceAccessors(|model.bufferViews|, scaled)[..BOX_FACES] == FaceAccessors(|model.bufferViews|, scaled);
    assert FacePrimitives(|model.accessors|, |model.materials|)[..BOX_FACES]
        == FacePrimitives(|model.accessors|, |model.materials|);
  }

  // ---------------------------------------------------------------------------
  // What appending the box guarantees

  /** Appending only: every list grows at its end, by one view, six accessors,
      one material, one mesh and one node; the old entries, the old buffer
      bytes, the samplers, images, textures, the other scenes and the default
      scene are untouched, and the first scene gains the box node last. */
  lemma BoxAppends(model: Model, size: BoxSize)
    requires |model.buffers| > 0 && |model.scenes| > 0
    ensures var m := WithBox(model, size);
            && |m.buffers| == |model.buffers|
            && m.buffers[0].data[..|model.buffers[0].data|] == model.buffers[0].data
            && m.buffers[1..] == model.buffers[1..]
            && |m.bufferViews| == |model.bufferViews| + 1 && m.bufferViews[..|model.bufferViews|] == model.bufferViews
            && |m.accessors| == |model.accessors| + BOX_FACES && m.accessors[..|model.accessors|] == model.accessors
            && |m.materials| == |model.materials| + 1 && m.materials[..|model.materials|] == model.materials
            && |m.meshes| == |model.meshes| + 1 && m.meshes[..|model.meshes|] == model.meshes
            && |m.nodes| == |model.nodes| + 1 && m.nodes[..|model.nodes|] == model.nodes
            && m.samplers == model.samplers && m.images == model.images && m.textures == model.textures
            && |m.scenes| == |model.scenes| && m.scenes[1..] == model.scenes[1..]
            && m.scenes[0].nodes == model.scenes[0].nodes + [|model.nodes|]
            && m.defaultScene == model.defaultScene
  {
    var m := WithBox(model, size);
    var data := model.buffers[0].data;
    var start := AlignUp(|data|);
    assert m.buffers[0].data == data + (Padding(start - |data|) + EncodeFloats(ScaledVertices(ScaledSize(size))));
  }

  /** The box view is float-aligned, starts within three bytes of the old end
      of the buffer (the gap is zero bytes), holds the 288 bytes of the cube
      and ends exactly at the new end of the buffer. */
  lemma BoxViewAligned(model: Model, size: BoxSize)
    requires |model.buffers| > 0 && |model.scenes| > 0
    ensures var m := WithBox(model, size);
            var old_end := |model.buffers[0].data|;
            var v := m.bufferViews[|model.bufferViews|];
            && v.buffer == 0 && v.byteLength == CUBE_BYTES && v.byteStride == 12
            && v.target == TARGET_ARRAY_BUFFER
            && v.byteOffset % FLOAT_SIZE == 0
            && old_end <= v.byteOffset < old_end + FLOAT_SIZE
            && ViewEnd(v) == |m.buffers[0].data|
            && forall j :: old_end <= j < v.byteOffset ==> m.buffers[0].data[j] == Raw(0)
  {
    var data := model.buffers[0].data;
    var start := AlignUp(|data|);
    var pad := Padding(start - |data|);
    var newData := WithBox(model, size).buffers[0].data;
    assert newData == data + pad + EncodeFloats(ScaledVertices(ScaledSize(size)));
    forall j | |data| <= j < start
      ensures newData[j] == Raw(0)
    {
      assert newData[j] == pad[j - |data|];
    }
  }

  /** Coordinate `axis` of corner k of face f, read back from the box view at
      byte 48f + 12k + 4 axis, is the unit cube's coordinate times the scaled
      size on that axis. */
  lemma BoxVertexInBuffer(model: Model, size: BoxSize, face: nat, k: nat, axis: nat)
    requires |model.buffers| > 0 && |model.scenes| > 0
    requires face < BOX_FACES && k < BOX_CORNERS_PER_FACE && axis < 3
    ensures var m := WithBox(model, size);
            FloatAt(m.buffers[0].data, m.bufferViews[|model.bufferViews|].byteOffset + FACE_BYTES * face + 12 * k + FLOAT_SIZE * axis)
            == Some(Product(AxisValues(CubeFace(face), axis)[k], Coord(ScaledSize(size), axis)))
  {
    var data := model.buffers[0].data;
    var start := AlignUp(|data|);
    var vertices := ScaledVertices(ScaledSize(size));
    var cube := EncodeFloats(vertices);
    var newData := WithBox(model, size).buffers[0].data;
    var j := FACE_FLOATS * face + 3 * k + axis;
    assert WithBox(model, size).bufferViews[|model.bufferViews|].byteOffset == start;
    assert newData == (data + Padding(start - |data|)) + cube;
    FloatAtEncode(vertices, j);
    assert FLOAT_SIZE * j == FACE_BYTES * face + 12 * k + FLOAT_SIZE * axis;
    assert newData[start + FLOAT_SIZE * j..start + FLOAT_SIZE * j + FLOAT_SIZE]
        == cube[FLOAT_SIZE * j..FLOAT_SIZE * j + FLOAT_SIZE];
    ScaledCubeFaceAxis(ScaledSize(size), face, axis, k);
    AxisValuesAt(FaceBlock(vertices, face), axis, k);
  }

  /** The face is perpendicular to `axis` exactly when its four corners agree on it. */
  predicate Perpendicular(face: nat, axis: nat)
  {
    face / 2 == (if axis == 2 then 0 else if axis == 0 then 1 else 2)
  }

  /** Each face of the unit cube lies on one side of its perpendicular axis
      (+0.5 for faces 0, 2, 4, -0.5 for faces 1, 3, 5) and spans both
      -0.5 and +0.5 on the other two axes. */
  lemma CubeFaceShape(face: nat, axis: nat)
    requires face < BOX_FACES && axis < 3
    ensures var xs := AxisValues(CubeFace(face), axis);
            if Perpendicular(face, axis) then
              xs == (if face % 2 == 0 then [0.5, 0.5, 0.5, 0.5] else [-0.5, -0.5, -0.5, -0.5])
            else
              (forall x :: x in xs ==> x == 0.5 || x == -0.5) && 0.5 in xs && -0.5 in xs
  {
  }

  /** Value k of `AxisValues` is vertex k's coordinate on `axis`. */
  lemma AxisValuesAt(block: seq<real>, axis: nat, k: nat)
    requires |block| == FACE_FLOATS && axis < 3 && k < BOX_CORNERS_PER_FACE
    ensures AxisValues(block, axis)[k] == block[3 * k + axis]
  {
  }

  /** Scaling the cube scales each face's four values on `axis` by the size on `axis`. */
  lemma ScaledFaceAxis(vs: seq<real>, scaled: Point3, face: nat, axis: nat, k: nat)
    requires |vs| == CUBE_FLOATS && face < BOX_FACES && axis < 3 && k < BOX_CORNERS_PER_FACE
    ensures AxisValues(FaceBlock(Scale(vs, scaled), face), axis)[k]
            == Product(AxisValues(FaceBlock(vs, face), axis)[k], Coord(scaled, axis))
  {
    var p := FACE_FLOATS * face + 3 * k;
    ScaleAt(vs, scaled, p);
    AxisValuesAt(FaceBlock(Scale(vs, scaled), face), axis, k);
    AxisValuesAt(FaceBlock(vs, face), axis, k);
    assert FaceBlock(vs, face)[3 * k + axis] == vs[p + axis];
    assert FaceBlock(Scale(vs, scaled), face)[3 * k + axis] == Scale(vs, scaled)[p + axis];
  }

  lemma ScaledCubeFaceAxis(scaled: Point3, face: nat, axis: nat, k: nat)
    requires face < BOX_FACES && axis < 3 && k < BOX_CORNERS_PER_FACE
    ensures AxisValues(FaceBlock(ScaledVertices(scaled), face), axis)[k]
            == Product(AxisValues(CubeFace(face), axis)[k], Coord(scaled, axis))
  {
    ScaledFaceAxis(CUBE_VERTICES, scaled, face, axis, k);
    CubeFaceBlock(face);
  }

  /** Four values that are each -s/2 or s/2 (both occurring) have minimum -s/2
      and maximum s/2 when s is non-negative. */
  lemma SpanBounds(cube: seq<real>, s: real)
    requires |cube| == 4 && s >= 0.0
    requires forall x :: x in cube ==> x == 0.5 || x == -0.5
    requires 0.5 in cube && -0.5 in cube
    ensures var xs := [Product(cube[0], s), Product(cube[1], s), Product(cube[2], s), Product(cube[3], s)];
            IsMin(-0.5 * s, xs) && IsMax(0.5 * s, xs)
  {
    var xs := [Product(cube[0], s), Product(cube[1], s), Product(cube[2], s), Product(cube[3], s)];
    forall k | 0 <= k < 4
      ensures xs[k] == 0.5 * s || xs[k] == -0.5 * s
    {
      assert cube[k] in cube;
    }
    var a :| 0 <= a < 4 && cube[a] == 0.5;
    var b :| 0 <= b < 4 && cube[b] == -0.5;
    assert xs[a] == 0.5 * s && xs[b] == -0.5 * s;
  }

  /** For a box of non-negative size, the bounds the exporter writes for face
      `face` are exactly the minimum and maximum of that face's scaled
      vertices on every axis. */
  lemma FaceBoundsExact(size: BoxSize, face: nat, axis: nat)
    requires size.width >= 0.0 && size.height >= 0.0 && size.depth >= 0.0
    requires face < BOX_FACES && axis < 3
    ensures var scaled := ScaledSize(size);
            var xs := AxisValues(FaceBlock(ScaledVertices(scaled), face), axis);
            IsMin(FaceMin(face, scaled)[axis], xs) && IsMax(FaceMax(face, scaled)[axis], xs)
  {
    var scaled := ScaledSize(size);
    var s := Coord(scaled, axis);
    assert s >= 0.0;
    var cube := AxisValues(CubeFace(face), axis);
    var xs := AxisValues(FaceBlock(ScaledVertices(scaled), face), axis);
    ScaledCubeFaceAxis(scaled, face, axis, 0);
    ScaledCubeFaceAxis(scaled, face, axis, 1);
    ScaledCubeFaceAxis(scaled, face, axis, 2);
    ScaledCubeFaceAxis(scaled, face, axis, 3);
    assert xs == [Product(cube[0], s), Product(cube[1], s), Product(cube[2], s), Product(cube[3], s)];
    CubeFaceShape(face, axis);
    if Perpendicular(face, axis) {
      var c := if face % 2 == 0 then 0.5 else -0.5;
      assert FaceMin(face, scaled)[axis] == Product(c, s) == FaceMax(face, scaled)[axis];
      assert xs == [Product(c, s), Product(c, s), Product(c, s), Product(c, s)];
    } else {
      assert FaceMin(face, scaled)[axis] == -0.5 * s && FaceMax(face, scaled)[axis] == 0.5 * s;
      SpanBounds(cube, s);
    }
  }

  /** Face f's accessor is the f-th new one: it reads the box view from byte
      48f, four VEC3 floats, with that face's bounds. */
  lemma BoxAccessorWiring(model: Model, size: BoxSize, face: nat)
    requires |model.buffers| > 0 && |model.scenes| > 0
    requires face < BOX_FACES
    ensures var a := WithBox(model, size).accessors[|model.accessors| + face];
            && a.bufferView == |model.bufferViews| && a.byteOffset == FACE_BYTES * face
            && a.count == BOX_CORNERS_PER_FACE && a.componentType == COMPONENT_TYPE_FLOAT
            && a.elementType == TYPE_VEC3
            && a.minValues == FaceMin(face, ScaledSize(size)) && a.maxValues == FaceMax(face, ScaledSize(size))
  {
    var m := WithBox(model, size);
    assert m.accessors[|model.accessors| + face] == FaceAccessors(|model.bufferViews|, ScaledSize(size))[face];
  }

  /** Primitive f of the new mesh draws face f's accessor as a fan with the new
      (untextured, brown) material, and the new node shows the new mesh. */
  lemma BoxMeshWiring(model: Model, size: BoxSize, face: nat)
    requires |model.buffers| > 0 && |model.scenes| > 0
    requires face < BOX_FACES
    ensures var m := WithBox(model, size);
            && m.meshes[|model.meshes|].primitives[face]
               == Primitive(map["POSITION" := |model.accessors| + face], MODE_TRIANGLE_FAN, |model.materials|)
            && m.materials[|model.materials|] == Material("", BOX_BASE_COLOR_FACTOR, None)
            && m.nodes[|model.nodes|] == Node(|model.meshes|)
  {
    var m := WithBox(model, size);
    assert m.meshes[|model.meshes|].primitives == FacePrimitives(|model.accessors|, |model.materials|);
    assert FacePrimitives(|model.accessors|, |model.materials|)[face] == PlainFan(|model.accessors| + face, |model.materials|);
  }

  /** Appending the box keeps the buffer views pairwise disjoint. */
  lemma BoxKeepsViewsDisjoint(model: Model, size: BoxSize)
    requires |model.buffers| > 0 && |model.scenes| > 0
    requires ViewsDisjoint(model.bufferViews)
    requires forall v :: v in model.bufferViews ==> ViewInBuffer(model, v) && v.buffer == 0
    ensures ViewsDisjoint(WithBox(model, size).bufferViews)
  {
    var views := WithBox(model, size).bufferViews;
    var n := |model.bufferViews|;
    forall i, j | 0 <= i < j < |views|
      ensures ViewEnd(views[i]) <= views[j].byteOffset || ViewEnd(views[j]) <= views[i].byteOffset
    {
      if j == n {
        assert views[i] in model.bufferViews;
      }
    }
  }

  /** Material names stay pairwise distinct when none of them was empty. */
  lemma BoxKeepsNamesDistinct(model: Model, size: BoxSize)
    requires |model.buffers| > 0 && |model.scenes| > 0
    requires DistinctMaterialNames(model.materials)
    requires forall mat :: mat in model.materials ==> mat.name != ""
    ensures DistinctMaterialNames(WithBox(model, size).materials)
  {
    var materials := WithBox(model, size).materials;
    forall i, j | 0 <= i < j < |materials|
      ensures materials[i].name != materials[j].name
    {
      if j == |model.materials| {
        assert materials[i] in model.materials;
      }
    }
  }

  /** Face f's accessor is a valid float accessor of the new scene. */
  lemma FaceAccessorValid(model: Model, size: BoxSize, face: nat)
    requires |model.buffers| > 0 && |model.scenes| > 0
    requires size.width >= 0.0 && size.height >= 0.0 && size.depth >= 0.0
    requires face < BOX_FACES
    ensures AccessorValid(WithBox(model, size), FaceAccessor(|model.bufferViews|, face, ScaledSize(size)))
  {
    var m := WithBox(model, size);
    var scaled := ScaledSize(size);
    var a := FaceAccessor(|model.bufferViews|, face, scaled);
    assert m.bufferViews[|model.bufferViews|] == BoxView(AlignUp(|model.buffers[0].data|));
    forall c | 0 <= c < 3
      ensures a.minValues[c] <= a.maxValues[c]
    {
      FaceBoundsExact(size, face, c);
      var xs := AxisValues(FaceBlock(ScaledVertices(scaled), face), c);
      assert xs[0] in xs;
    }
    assert (FACE_BYTES * face) % FLOAT_SIZE == 0 by {
      assert FACE_BYTES * face == FLOAT_SIZE * (12 * face);
    }
    assert FACE_BYTES * face + 12 * 3 + 12 <= CUBE_BYTES;
  }

  /** Every view of the new scene, old or new, lies inside its buffer. */
  lemma BoxViewsInBuffer(model: Model, size: BoxSize)
    requires |model.buffers| > 0 && |model.scenes| > 0
    requires forall v :: v in model.bufferViews ==> ViewInBuffer(model, v)
    ensures var m := WithBox(model, size);
            forall v :: v in m.bufferViews ==> ViewInBuffer(m, v)
  {
    var m := WithBox(model, size);
    BoxAppends(model, size);
    BoxViewAligned(model, size);
    forall v | v in m.bufferViews
      ensures ViewInBuffer(m, v)
    {
      var k :| 0 <= k < |m.bufferViews| && m.bufferViews[k] == v;
      if k < |model.bufferViews| {
        assert v in model.bufferViews;
        assert ViewInBuffer(model, v);
        if v.buffer == 0 {
          assert |model.buffers[0].data| <= |m.buffers[0].data|;
        } else {
          assert m.buffers[v.buffer] == model.buffers[v.buffer];
        }
      }
    }
  }

  /** Every accessor of the new scene, old or new, is valid in it. */
  lemma BoxAccessorsValid(model: Model, size: BoxSize)
    requires |model.buffers| > 0 && |model.scenes| > 0
    requires size.width >= 0.0 && size.height >= 0.0 && size.depth >= 0.0
    requires forall a :: a in model.accessors ==> AccessorValid(model, a)
    ensures var m := WithBox(model, size);
            forall a :: a in m.accessors ==> AccessorValid(m, a)
  {
    var m := WithBox(model, size);
    BoxAppends(model, size);
    forall a | a in m.accessors
      ensures AccessorValid(m, a)
    {
      var k :| 0 <= k < |m.accessors| && m.accessors[k] == a;
      if k < |model.accessors| {
        assert a in model.accessors;
        assert AccessorValid(model, a);
        assert m.bufferViews[a.bufferView] == model.bufferViews[a.bufferView];
      } else {
        var face := k - |model.accessors|;
        assert a == FaceAccessor(|model.bufferViews|, face, ScaledSize(size));
        FaceAccessorValid(model, size, face);
      }
    }
  }

  /** Every mesh primitive of the new scene refers to an existing accessor and material. */
  lemma BoxPrimitivesValid(model: Model, size: BoxSize)
    requires |model.buffers| > 0 && |model.scenes| > 0
    requires forall mesh :: mesh in model.meshes ==> forall p :: p in mesh.primitives ==> PrimitiveValid(model, p)
    ensures var m := WithBox(model, size);
            forall mesh :: mesh in m.meshes ==> forall p :: p in mesh.primitives ==> PrimitiveValid(m, p)
  {
    var m := WithBox(model, size);
    BoxAppends(model, size);
    forall mesh | mesh in m.meshes
      ensures forall p :: p in mesh.primitives ==> PrimitiveValid(m, p)
    {
      var k :| 0 <= k < |m.meshes| && m.meshes[k] == mesh;
      if k < |model.meshes| {
        assert mesh in model.meshes;
      } else {
        forall p | p in mesh.primitives
          ensures PrimitiveValid(m, p)
        {
          var face :| 0 <= face < BOX_FACES && mesh.primitives[face] == p;
          BoxMeshWiring(model, size, face);
        }
      }
    }
  }

  /** A well-formed scene with a box of non-negative size appended is still
      well formed: the new view lies in the buffer, the new accessors in the
      new view, and the new mesh, material and node resolve. */
  lemma BoxKeepsWellFormed(model: Model, size: BoxSize)
    requires |model.buffers| > 0 && |model.scenes| > 0
    requires size.width >= 0.0 && size.height >= 0.0 && size.depth >= 0.0
    requires WellFormed(model)
    ensures WellFormed(WithBox(model, size))
  {
    var m := WithBox(model, size);
    BoxAppends(model, size);
    BoxViewsInBuffer(model, size);
    BoxAccessorsValid(model, size);
    BoxPrimitivesValid(model, size);
    forall mat | mat in m.materials && mat.baseColorTexture.Some?
      ensures mat.baseColorTexture.value.index < |m.textures|
    {
      var k :| 0 <= k < |m.materials| && m.materials[k] == mat;
      assert k < |model.materials|;
      assert mat in model.materials;
    }
    forall node | node in m.nodes
      ensures node.mesh < |m.meshes|
    {
      var k :| 0 <= k < |m.nodes| && m.nodes[k] == node;
      if k < |model.nodes| {
        assert node in model.nodes;
      }
    }
    forall s | s in m.scenes
      ensures forall k :: k in s.nodes ==> k < |m.nodes|
    {
      var i :| 0 <= i < |m.scenes| && m.scenes[i] == s;
      if i > 0 {
        assert s in model.scenes;
      } else {
        assert model.scenes[0] in model.scenes;
      }
    }
  }
}
