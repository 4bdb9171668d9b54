/**
 * Marker scene assembly: `fill_marker_data` and `produce_board_model` in
 * aruco/apps/gltf_exporter.cpp. One buffer holds every marker's four corner
 * positions, then every marker's four texture coordinates, then one PNG image
 * per marker id. Each marker gets a position and a texcoord accessor, a
 * material bound to its own texture, a one-primitive mesh and a node.
 *
 * `BoardModel` describes the expected scene declaratively; the method
 * `ProduceBoardModel` builds it the way the exporter does and is proved to
 * produce exactly that scene; the lemmas below state the layout, wiring and
 * bounds rules of section 3.6 of the glTF 2.0 specification about it.
 */
module MarkerScene {
  import opened Wrappers
  import opened FloatBytes
  import opened Gltf
  import opened Boards
  import opened Decimal

  const CORNERS_PER_MARKER: nat := 4
  const FLOATS_PER_POSITION: nat := 3
  const FLOATS_PER_TEXCOORD: nat := 2
  const ACCESSORS_PER_MARKER: nat := 2
  /** Floats (and bytes) one marker occupies in the position and texcoord regions. */
  const POSITION_FLOATS: nat := 12  // CORNERS_PER_MARKER * FLOATS_PER_POSITION
  const TEXCOORD_FLOATS: nat := 8   // CORNERS_PER_MARKER * FLOATS_PER_TEXCOORD
  const POSITION_BYTES: nat := 48   // POSITION_FLOATS * FLOAT_SIZE
  const TEXCOORD_BYTES: nat := 32   // TEXCOORD_FLOATS * FLOAT_SIZE
  const PNG_MIME_TYPE: string := "image/png"
  const MATERIAL_PREFIX: string := "material"

  /** Texture coordinates of the stored vertices: bottom left, bottom right, top right, top left. */
  const TEXTURE_COORDINATES: seq<real> := [0.0, 1.0, 1.0, 1.0, 1.0, 0.0, 0.0, 0.0]

  /** The sampler every marker texture uses: nearest filtering, clamped at the edges. */
  const MARKER_SAMPLER: Sampler :=
    Sampler(TEXTURE_FILTER_NEAREST, TEXTURE_FILTER_NEAREST, TEXTURE_WRAP_CLAMP_TO_EDGE, TEXTURE_WRAP_CLAMP_TO_EDGE)

  /** The four corners of one marker as the board library hands them over:
      top left, top right, bottom right, bottom left. */
  type Corners = c: seq<Point3> | |c| == CORNERS_PER_MARKER
    witness [Point3(0.0, 0.0, 0.0), Point3(0.0, 0.0, 0.0), Point3(0.0, 0.0, 0.0), Point3(0.0, 0.0, 0.0)]

  // ---------------------------------------------------------------------------
  // The float array: positions region, then texcoords region

  function Reversed<T>(s: seq<T>): (r: seq<T>)
    ensures |r| == |s|
  {
    if s == [] then [] else [s[|s| - 1]] + Reversed(s[..|s| - 1])
  }

  lemma {:induction false} ReversedAt<T>(s: seq<T>, k: nat)
    requires k < |s|
    ensures Reversed(s)[k] == s[|s| - 1 - k]
  {
    if k > 0 {
      ReversedAt(s[..|s| - 1], k - 1);
    }
  }

  /** x, y, z of each point in turn. */
  function PointFloats(ps: seq<Point3>): (r: seq<real>)
    ensures |r| == FLOATS_PER_POSITION * |ps|
  {
    if ps == [] then []
    else
      var p := ps[|ps| - 1];
      PointFloats(ps[..|ps| - 1]) + [p.x, p.y, p.z]
  }

  lemma {:induction false} PointFloatsAt(ps: seq<Point3>, k: nat, axis: nat)
    requires k < |ps| && axis < 3
    ensures PointFloats(ps)[FLOATS_PER_POSITION * k + axis] == Coord(ps[k], axis)
  {
    if k < |ps| - 1 {
      PointFloatsAt(ps[..|ps| - 1], k, axis);
    }
  }

  /** The twelve position floats of one marker: its corners taken back to front. */
  function MarkerPositions(corners: Corners): (r: seq<real>)
    ensures |r| == POSITION_FLOATS
  {
    PointFloats(Reversed(corners))
  }

  /** Stored vertex k is input corner 3 - k. */
  lemma MarkerPositionsAt(corners: Corners, k: nat, axis: nat)
    requires k < CORNERS_PER_MARKER && axis < 3
    ensures MarkerPositions(corners)[FLOATS_PER_POSITION * k + axis] == Coord(corners[3 - k], axis)
  {
    ReversedAt(corners, k);
    PointFloatsAt(Reversed(corners), k, axis);
  }

  function Positions(markers: seq<Corners>): (r: seq<real>)
    ensures |r| == POSITION_FLOATS * |markers|
  {
    if markers == [] then []
    else Positions(markers[..|markers| - 1]) + MarkerPositions(markers[|markers| - 1])
  }

  function Texcoords(n: nat): (r: seq<real>)
    ensures |r| == TEXCOORD_FLOATS * n
  {
    if n == 0 then [] else Texcoords(n - 1) + TEXTURE_COORDINATES
  }

  /** The whole float array `geometry_data`. */
  function GeometryData(markers: seq<Corners>): (r: seq<real>)
    ensures |r| == (POSITION_FLOATS + TEXCOORD_FLOATS) * |markers|
  {
    Positions(markers) + Texcoords(|markers|)
  }

  lemma {:induction false} PositionsSlice(markers: seq<Corners>, i: nat)
    requires i < |markers|
    ensures Positions(markers)[POSITION_FLOATS * i..POSITION_FLOATS * (i + 1)] == MarkerPositions(markers[i])
  {
    var init := markers[..|markers| - 1];
    if i < |markers| - 1 {
      PositionsSlice(init, i);
      assert Positions(markers)[..POSITION_FLOATS * |init|] == Positions(init);
    }
  }

  lemma {:induction false} TexcoordsSlice(n: nat, i: nat)
    requires i < n
    ensures Texcoords(n)[TEXCOORD_FLOATS * i..TEXCOORD_FLOATS * (i + 1)] == TEXTURE_COORDINATES
  {
    if i < n - 1 {
      TexcoordsSlice(n - 1, i);
      assert Texcoords(n)[..TEXCOORD_FLOATS * (n - 1)] == Texcoords(n - 1);
    }
  }

  /** Corner order: position float 3k + axis of marker i is coordinate `axis`
      of input corner 3 - k, so the stored order is bottom left, bottom right,
      top right, top left. */
  lemma CornerOrder(markers: seq<Corners>, i: nat, k: nat, axis: nat)
    requires i < |markers| && k < CORNERS_PER_MARKER && axis < 3
    ensures Positions(markers)[POSITION_FLOATS * i + FLOATS_PER_POSITION * k + axis]
            == Coord(markers[i][3 - k], axis)
  {
    var block := MarkerPositions(markers[i]);
    var base := 12 * i;
    var offset := 3 * k + axis;
    assert POSITION_FLOATS * i == base && POSITION_FLOATS * (i + 1) == base + 12;
    assert FLOATS_PER_POSITION * k + axis == offset < 12;
    PositionsSlice(markers, i);
    MarkerPositionsAt(markers[i], k, axis);
    assert Positions(markers)[base..base + 12] == block;
    assert Positions(markers)[base + offset] == block[offset];
  }

  /** Every marker's texcoords are the fixed quad, whatever the marker. */
  lemma FixedTexcoords(n: nat, i: nat, j: nat)
    requires i < n && j < TEXCOORD_FLOATS
    ensures Texcoords(n)[TEXCOORD_FLOATS * i + j] == TEXTURE_COORDINATES[j]
  {
    TexcoordsSlice(n, i);
    assert Texcoords(n)[TEXCOORD_FLOATS * i + j]
        == Texcoords(n)[TEXCOORD_FLOATS * i..TEXCOORD_FLOATS * (i + 1)][j];
  }

  // ---------------------------------------------------------------------------
  // Per-marker bounds

  /** Coordinate `axis` of each of the four vertices in a 12-float position block. */
  function AxisValues(block: seq<real>, axis: nat): (r: seq<real>)
    requires |block| == POSITION_FLOATS && axis < FLOATS_PER_POSITION
  {
    [block[axis], block[3 + axis], block[6 + axis], block[9 + axis]]
  }

  predicate IsMin(v: real, xs: seq<real>)
  {
    v in xs && forall x :: x in xs ==> v <= x
  }

  predicate IsMax(v: real, xs: seq<real>)
  {
    v in xs && forall x :: x in xs ==> x <= v
  }

  function Lo(xs: seq<real>): (r: real)
    requires xs != []
    ensures IsMin(r, xs)
  {
    if |xs| == 1 then xs[0]
    else
      var m := Lo(xs[..|xs| - 1]);
      assert xs == xs[..|xs| - 1] + [xs[|xs| - 1]];
      if xs[|xs| - 1] < m then xs[|xs| - 1] else m
  }

  function Hi(xs: seq<real>): (r: real)
    requires xs != []
    ensures IsMax(r, xs)
  {
    if |xs| == 1 then xs[0]
    else
      var m := Hi(xs[..|xs| - 1]);
      assert xs == xs[..|xs| - 1] + [xs[|xs| - 1]];
      if m < xs[|xs| - 1] then xs[|xs| - 1] else m
  }

  lemma MinUnique(v: real, w: real, xs: seq<real>)
    requires IsMin(v, xs) && IsMin(w, xs)
    ensures v == w
  {
  }

  lemma MaxUnique(v: real, w: real, xs: seq<real>)
    requires IsMax(v, xs) && IsMax(w, xs)
    ensures v == w
  {
  }

  function BlockMin(block: seq<real>): seq<real>
    requires |block| == POSITION_FLOATS
  {
    [Lo(AxisValues(block, 0)), Lo(AxisValues(block, 1)), Lo(AxisValues(block, 2))]
  }

  function BlockMax(block: seq<real>): seq<real>
    requires |block| == POSITION_FLOATS
  {
    [Hi(AxisValues(block, 0)), Hi(AxisValues(block, 1)), Hi(AxisValues(block, 2))]
  }

  /** A bound of the running scan: the scan starts from +infinity (minimum)
      and -infinity (maximum). */
  datatype Extended = NegInf | Finite(value: real) | PosInf

  /** `std::min(e, x)`. */
  function MinExt(e: Extended, x: real): Extended
  {
    match e
    case NegInf => NegInf
    case Finite(v) => Finite(if x < v then x else v)
    case PosInf => Finite(x)
  }

  /** `std::max(e, x)`. */
  function MaxExt(e: Extended, x: real): Extended
  {
    match e
    case NegInf => Finite(x)
    case Finite(v) => Finite(if v < x then x else v)
    case PosInf => PosInf
  }

  /** After the first `i` floats of `block`: the running minimum of each axis
      seen so far is the float at `at[axis]`, and +infinity for an unseen axis. */
  ghost predicate MinScanned(block: seq<real>, i: nat, lo: seq<Extended>, at: seq<nat>)
  {
    && |block| == POSITION_FLOATS && i <= POSITION_FLOATS && |lo| == 3 && |at| == 3
    && (forall a :: 0 <= a < 3 && i <= a ==> lo[a] == PosInf)
    && (forall a :: 0 <= a < 3 && a < i ==> at[a] < i && at[a] % 3 == a && lo[a] == Finite(block[at[a]]))
    && (forall j :: 0 <= j < i ==> lo[j % 3].Finite? && lo[j % 3].value <= block[j])
  }

  ghost predicate MaxScanned(block: seq<real>, i: nat, hi: seq<Extended>, at: seq<nat>)
  {
    && |block| == POSITION_FLOATS && i <= POSITION_FLOATS && |hi| == 3 && |at| == 3
    && (forall a :: 0 <= a < 3 && i <= a ==> hi[a] == NegInf)
    && (forall a :: 0 <= a < 3 && a < i ==> at[a] < i && at[a] % 3 == a && hi[a] == Finite(block[at[a]]))
    && (forall j :: 0 <= j < i ==> hi[j % 3].Finite? && block[j] <= hi[j % 3].value)
  }

  lemma MinScanStep(block: seq<real>, i: nat, lo: seq<Extended>, at: seq<nat>)
    requires MinScanned(block, i, lo, at) && i < POSITION_FLOATS
    ensures var axis := i % 3;
            var at' := if lo[axis].PosInf? || block[i] < lo[axis].value then at[axis := i] else at;
            MinScanned(block, i + 1, lo[axis := MinExt(lo[axis], block[i])], at')
  {
    var axis := i % 3;
    var lo' := lo[axis := MinExt(lo[axis], block[i])];
    forall j | 0 <= j < i + 1
      ensures lo'[j % 3].Finite? && lo'[j % 3].value <= block[j]
    {
      if j < i && j % 3 != axis {
        assert lo'[j % 3] == lo[j % 3];
      }
    }
  }

  lemma MaxScanStep(block: seq<real>, i: nat, hi: seq<Extended>, at: seq<nat>)
    requires MaxScanned(block, i, hi, at) && i < POSITION_FLOATS
    ensures var axis := i % 3;
            var at' := if hi[axis].NegInf? || hi[axis].value < block[i] then at[axis := i] else at;
            MaxScanned(block, i + 1, hi[axis := MaxExt(hi[axis], block[i])], at')
  {
    var axis := i % 3;
    var hi' := hi[axis := MaxExt(hi[axis], block[i])];
    forall j | 0 <= j < i + 1
      ensures hi'[j % 3].Finite? && block[j] <= hi'[j % 3].value
    {
      if j < i && j % 3 != axis {
        assert hi'[j % 3] == hi[j % 3];
      }
    }
  }

  /** The min/max scan over one marker's twelve position floats; float i
      belongs to axis i % 3. */
  method ScanBounds(block: seq<real>) returns (minValues: seq<real>, maxValues: seq<real>)
    requires |block| == POSITION_FLOATS
    ensures minValues == BlockMin(block) && maxValues == BlockMax(block)
  {
    var lo: seq<Extended> := [PosInf, PosInf, PosInf];
    var hi: seq<Extended> := [NegInf, NegInf, NegInf];
    // Index of the float at which each running bound is attained.
    ghost var loAt: seq<nat> := [0, 1, 2];
    ghost var hiAt: seq<nat> := [0, 1, 2];
    for i := 0 to |block|
      invariant MinScanned(block, i, lo, loAt)
      invariant MaxScanned(block, i, hi, hiAt)
    {
      var axis := i % FLOATS_PER_POSITION;
      MinScanStep(block, i, lo, loAt);
      MaxScanStep(block, i, hi, hiAt);
      if lo[axis].PosInf? || block[i] < lo[axis].value {
        loAt := loAt[axis := i];
      }
      if hi[axis].NegInf? || hi[axis].value < block[i] {
        hiAt := hiAt[axis := i];
      }
      lo := lo[axis := MinExt(lo[axis], block[i])];
      hi := hi[axis := MaxExt(hi[axis], block[i])];
    }
    minValues := [lo[0].value, lo[1].value, lo[2].value];
    maxValues := [hi[0].value, hi[1].value, hi[2].value];
    LowestIsLo(block, 0, loAt[0]);
    LowestIsLo(block, 1, loAt[1]);
    LowestIsLo(block, 2, loAt[2]);
    HighestIsHi(block, 0, hiAt[0]);
    HighestIsHi(block, 1, hiAt[1]);
    HighestIsHi(block, 2, hiAt[2]);
  }

  /** A float of axis `axis` that is no greater than any other float of that axis is the axis minimum. */
  lemma LowestIsLo(block: seq<real>, axis: nat, at: nat)
    requires |block| == POSITION_FLOATS && axis < 3 && at < POSITION_FLOATS && at % 3 == axis
    requires forall j :: 0 <= j < POSITION_FLOATS && j % 3 == axis ==> block[at] <= block[j]
    ensures block[at] == Lo(AxisValues(block, axis))
  {
    var xs := AxisValues(block, axis);
    assert block[at] in xs;
    assert block[axis] <= block[at] || block[at] <= block[axis];
    assert forall x :: x in xs ==> block[at] <= x by {
      assert xs[0] == block[axis + 0] && xs[1] == block[axis + 3] && xs[2] == block[axis + 6] && xs[3] == block[axis + 9];
    }
    MinUnique(block[at], Lo(xs), xs);
  }

  lemma HighestIsHi(block: seq<real>, axis: nat, at: nat)
    requires |block| == POSITION_FLOATS && axis < 3 && at < POSITION_FLOATS && at % 3 == axis
    requires forall j :: 0 <= j < POSITION_FLOATS && j % 3 == axis ==> block[j] <= block[at]
    ensures block[at] == Hi(AxisValues(block, axis))
  {
    var xs := AxisValues(block, axis);
    assert block[at] in xs;
    assert forall x :: x in xs ==> x <= block[at] by {
      assert xs[0] == block[axis + 0] && xs[1] == block[axis + 3] && xs[2] == block[axis + 6] && xs[3] == block[axis + 9];
    }
    MaxUnique(block[at], Hi(xs), xs);
  }

  // ---------------------------------------------------------------------------
  // The expected scene

  function PositionsView(n: nat): BufferView
  {
    BufferView(0, 0, POSITION_BYTES * n, FLOATS_PER_POSITION * FLOAT_SIZE, TARGET_ARRAY_BUFFER)
  }

  function TexcoordsView(n: nat): BufferView
  {
    BufferView(0, POSITION_BYTES * n, TEXCOORD_BYTES * n, FLOATS_PER_TEXCOORD * FLOAT_SIZE, TARGET_ARRAY_BUFFER)
  }

  /** Total length of a list of encoded images. */
  function TotalBytes(pngs: seq<seq<bv8>>): nat
  {
    if pngs == [] then 0 else TotalBytes(pngs[..|pngs| - 1]) + |pngs[|pngs| - 1]|
  }

  /** The images appended one after the other. */
  function ImageBytes(pngs: seq<seq<bv8>>): (r: seq<Octet>)
    ensures |r| == TotalBytes(pngs)
  {
    if pngs == [] then [] else ImageBytes(pngs[..|pngs| - 1]) + RawBytes(pngs[|pngs| - 1])
  }

  /** One view per image, the first starting at `start`. */
  function ImageViews(start: nat, pngs: seq<seq<bv8>>): (r: seq<BufferView>)
    ensures |r| == |pngs|
  {
    if pngs == [] then []
    else
      var init := pngs[..|pngs| - 1];
      ImageViews(start, init) + [BufferView(0, start + TotalBytes(init), |pngs[|pngs| - 1]|, 0, 0)]
  }

  function PositionAccessor(i: nat, corners: Corners): Accessor
  {
    var block := MarkerPositions(corners);
    Accessor(0, POSITION_BYTES * i, CORNERS_PER_MARKER, COMPONENT_TYPE_FLOAT, TYPE_VEC3,
             BlockMin(block), BlockMax(block))
  }

  function TexcoordAccessor(i: nat): Accessor
  {
    Accessor(1, TEXCOORD_BYTES * i, CORNERS_PER_MARKER, COMPONENT_TYPE_FLOAT, TYPE_VEC2, [], [])
  }

  /** The accessor pair of each marker in turn. */
  function MarkerAccessors(markers: seq<Corners>): (r: seq<Accessor>)
    ensures |r| == ACCESSORS_PER_MARKER * |markers|
  {
    if markers == [] then []
    else
      var i := |markers| - 1;
      MarkerAccessors(markers[..i]) + [PositionAccessor(i, markers[i]), TexcoordAccessor(i)]
  }

  function MaterialName(i: nat): string
  {
    MATERIAL_PREFIX + NatToString(i)
  }

  function MarkerMaterial(i: nat): Material
  {
    Material(MaterialName(i), DEFAULT_BASE_COLOR_FACTOR, Some(TextureInfo(i, 0)))
  }

  /** A triangle-fan primitive over a position and a texcoord accessor. */
  function TexturedFan(positionAccessor: nat, texcoordAccessor: nat, material: nat): Primitive
  {
    Primitive(map["POSITION" := positionAccessor, "TEXCOORD_0" := texcoordAccessor], MODE_TRIANGLE_FAN, material)
  }

  function MarkerMesh(i: nat): Mesh
  {
    Mesh([TexturedFan(ACCESSORS_PER_MARKER * i, ACCESSORS_PER_MARKER * i + 1, i)])
  }

  /** Image k reads view 2 + k: the first two views are positions and texcoords. */
  function ImageList(count: nat): (r: seq<Image>)
    ensures |r| == count
  {
    seq(count, k requires 0 <= k < count => Image(2 + k, PNG_MIME_TYPE))
  }

  function TextureList(count: nat): (r: seq<Texture>)
    ensures |r| == count
  {
    seq(count, k requires 0 <= k < count => Texture(k, 0))
  }

  function MaterialList(n: nat): (r: seq<Material>)
    ensures |r| == n
  {
    seq(n, i requires 0 <= i < n => MarkerMaterial(i))
  }

  function MeshList(n: nat): (r: seq<Mesh>)
    ensures |r| == n
  {
    seq(n, i requires 0 <= i < n => MarkerMesh(i))
  }

  function NodeList(n: nat): (r: seq<Node>)
    ensures |r| == n
  {
    seq(n, i requires 0 <= i < n => Node(i))
  }

  lemma MaterialListSnoc(n: nat)
    ensures MaterialList(n + 1) == MaterialList(n) + [MarkerMaterial(n)]
  {
    assert forall i :: 0 <= i < n ==> MaterialList(n + 1)[i] == MaterialList(n)[i];
  }

  lemma MeshListSnoc(n: nat)
    ensures MeshList(n + 1) == MeshList(n) + [MarkerMesh(n)]
  {
    assert forall i :: 0 <= i < n ==> MeshList(n + 1)[i] == MeshList(n)[i];
  }

  /** `std::iota` over n scene slots: 0, 1, ..., n - 1. */
  function Iota(n: nat): (r: seq<nat>)
    ensures |r| == n
  {
    seq(n, i requires 0 <= i < n => i)
  }

  /** The scene `produce_board_model` returns for `markers`, given the PNG
      encoding of each marker id's image in id order. */
  function BoardModel(markers: seq<Corners>, pngs: seq<seq<bv8>>): Model
  {
    var n := |markers|;
    Model(
      [Buffer(EncodeFloats(GeometryData(markers)) + ImageBytes(pngs))],
      [PositionsView(n), TexcoordsView(n)] + ImageViews((POSITION_BYTES + TEXCOORD_BYTES) * n, pngs),
      MarkerAccessors(markers),
      [MARKER_SAMPLER],
      ImageList(|pngs|),
      TextureList(|pngs|),
      MaterialList(n),
      MeshList(n),
      NodeList(n),
      [Scene(Iota(n))],
      0)
  }

  // ---------------------------------------------------------------------------
  // The exporter's code

  /** Writes one marker's corners, back to front, into the twelve floats at
      `positionStart` and the fixed texcoord quad into the eight floats at
      `texcoordStart`. */
  method FillMarkerData(corners: Corners, geometry: array<real>, positionStart: nat, texcoordStart: nat)
    requires positionStart + POSITION_FLOATS <= geometry.Length
    requires texcoordStart + TEXCOORD_FLOATS <= geometry.Length
    requires positionStart + POSITION_FLOATS <= texcoordStart || texcoordStart + TEXCOORD_FLOATS <= positionStart
    modifies geometry
    ensures geometry[positionStart..positionStart + POSITION_FLOATS] == MarkerPositions(corners)
    ensures geometry[texcoordStart..texcoordStart + TEXCOORD_FLOATS] == TEXTURE_COORDINATES
    ensures forall j ::
              (0 <= j < geometry.Length && !(positionStart <= j < positionStart + POSITION_FLOATS) &&
               !(texcoordStart <= j < texcoordStart + TEXCOORD_FLOATS)) ==> geometry[j] == old(geometry[j])
  {
    ghost var expected := MarkerPositions(corners);
    var outIndex := 0;
    var corner := CORNERS_PER_MARKER;
    while corner > 0
      invariant 0 <= corner <= CORNERS_PER_MARKER
      invariant outIndex == FLOATS_PER_POSITION * (CORNERS_PER_MARKER - corner)
      invariant forall j :: positionStart <= j < positionStart + outIndex ==> geometry[j] == expected[j - positionStart]
      invariant forall j :: 0 <= j < geometry.Length && !(positionStart <= j < positionStart + outIndex) ==>
                  geometry[j] == old(geometry[j])
    {
      corner := corner - 1;
      MarkerPositionsAt(corners, 3 - corner, 0);
      MarkerPositionsAt(corners, 3 - corner, 1);
      MarkerPositionsAt(corners, 3 - corner, 2);
      geometry[positionStart + outIndex] := corners[corner].x;
      outIndex := outIndex + 1;
      geometry[positionStart + outIndex] := corners[corner].y;
      outIndex := outIndex + 1;
      geometry[positionStart + outIndex] := corners[corner].z;
      outIndex := outIndex + 1;
    }
    forall j | texcoordStart <= j < texcoordStart + TEXCOORD_FLOATS {
      geometry[j] := TEXTURE_COORDINATES[j - texcoordStart];
    }
  }

  /** The first `i` markers' blocks are in place in a float array sized for `|markers|` markers. */
  ghost predicate Filled(g: seq<real>, markers: seq<Corners>, i: nat)
  {
    var n := |markers|;
    && i <= n
    && |g| == POSITION_FLOATS * n + TEXCOORD_FLOATS * n
    && g[..POSITION_FLOATS * i] == Positions(markers[..i])
    && g[POSITION_FLOATS * n..POSITION_FLOATS * n + TEXCOORD_FLOATS * i] == Texcoords(i)
  }

  /** Filling marker i's two blocks extends what is in place by that marker. */
  lemma FillStep(before: seq<real>, after: seq<real>, markers: seq<Corners>, i: nat)
    requires Filled(before, markers, i) && i < |markers| && |after| == |before|
    requires after[POSITION_FLOATS * i..POSITION_FLOATS * i + POSITION_FLOATS] == MarkerPositions(markers[i])
    requires var t := POSITION_FLOATS * |markers| + TEXCOORD_FLOATS * i;
             after[t..t + TEXCOORD_FLOATS] == TEXTURE_COORDINATES
    requires forall j :: 0 <= j < POSITION_FLOATS * i ==> after[j] == before[j]
    requires forall j :: POSITION_FLOATS * |markers| <= j < POSITION_FLOATS * |markers| + TEXCOORD_FLOATS * i ==>
               after[j] == before[j]
    ensures Filled(after, markers, i + 1)
  {
    var n := |markers|;
    var p := POSITION_FLOATS * i;
    var t := POSITION_FLOATS * n + TEXCOORD_FLOATS * i;
    assert markers[..i + 1][..i] == markers[..i];
    assert after[..p] == before[..p];
    assert after[..p + POSITION_FLOATS] == after[..p] + after[p..p + POSITION_FLOATS];
    assert after[POSITION_FLOATS * n..t] == before[POSITION_FLOATS * n..t];
    assert after[POSITION_FLOATS * n..t + TEXCOORD_FLOATS]
        == after[POSITION_FLOATS * n..t] + after[t..t + TEXCOORD_FLOATS];
  }

  /** The float array of `produce_board_model` (lines 87-110): every marker's
      position block, then every marker's texcoord block. */
  method FillGeometry(markers: seq<Corners>) returns (geometry: seq<real>)
    ensures geometry == GeometryData(markers)
  {
    var n := |markers|;
    var numPositionFloats := n * POSITION_FLOATS;
    var numTexcoordFloats := n * TEXCOORD_FLOATS;
    assert numPositionFloats == POSITION_FLOATS * n && numTexcoordFloats == TEXCOORD_FLOATS * n;
    var data := new real[numPositionFloats + numTexcoordFloats](_ => 0.0);

    var positionIndex, texcoordIndex := 0, 0;
    for i := 0 to n
      invariant positionIndex == POSITION_FLOATS * i && texcoordIndex == TEXCOORD_FLOATS * i
      invariant Filled(data[..], markers, i)
    {
      assert positionIndex + POSITION_FLOATS == POSITION_FLOATS * (i + 1) <= numPositionFloats;
      assert texcoordIndex + TEXCOORD_FLOATS == TEXCOORD_FLOATS * (i + 1) <= numTexcoordFloats;
      ghost var before := data[..];
      FillMarkerData(markers[i], data, positionIndex, numPositionFloats + texcoordIndex);
      FillStep(before, data[..], markers, i);
      positionIndex := positionIndex + POSITION_FLOATS;
      texcoordIndex := texcoordIndex + TEXCOORD_FLOATS;
    }
    geometry := data[..];
    assert markers[..n] == markers;
    assert geometry == geometry[..numPositionFloats] + geometry[numPositionFloats..numPositionFloats + texcoordIndex];
  }

  /** Lines 141-167: each id's PNG is appended to the buffer, with a view over
      exactly its bytes, an image reading that view and a texture on sampler 0. */
  method AppendImages(geometryBytes: seq<Octet>, pngs: seq<seq<bv8>>)
    returns (data: seq<Octet>, imageViews: seq<BufferView>, images: seq<Image>, textures: seq<Texture>)
    ensures data == geometryBytes + ImageBytes(pngs)
    ensures imageViews == ImageViews(|geometryBytes|, pngs)
    ensures images == ImageList(|pngs|)
    ensures textures == TextureList(|pngs|)
  {
    data := geometryBytes;
    imageViews := [];
    images := [];
    textures := [];
    for k := 0 to |pngs|
      invariant data == geometryBytes + ImageBytes(pngs[..k])
      invariant imageViews == ImageViews(|geometryBytes|, pngs[..k])
      invariant |images| == k && forall j :: 0 <= j < k ==> images[j] == Image(2 + j, PNG_MIME_TYPE)
      invariant |textures| == k && forall j :: 0 <= j < k ==> textures[j] == Texture(j, 0)
    {
      assert pngs[..k + 1][..k] == pngs[..k];
      var imageViewOffset := |data|;
      data := data + RawBytes(pngs[k]);
      imageViews := imageViews + [BufferView(0, imageViewOffset, |pngs[k]|, 0, 0)];
      // The first two views are the position and texcoord views.
      images := images + [Image(2 + |imageViews| - 1, PNG_MIME_TYPE)];
      textures := textures + [Texture(|images| - 1, 0)];
    }
    assert pngs[..|pngs|] == pngs;
  }

  /** One iteration of the per-marker loop: the accessor pair (position bounds
      scanned from the marker's position block), the material and the mesh. */
  method MarkerDrawable(markers: seq<Corners>, geometry: seq<real>, markerIndex: nat)
    returns (positionAccessor: Accessor, texcoordAccessor: Accessor, material: Material, mesh: Mesh)
    requires geometry == GeometryData(markers) && markerIndex < |markers|
    ensures positionAccessor == PositionAccessor(markerIndex, markers[markerIndex])
    ensures texcoordAccessor == TexcoordAccessor(markerIndex)
    ensures material == MarkerMaterial(markerIndex)
    ensures mesh == MarkerMesh(markerIndex)
  {
    assert markerIndex * ACCESSORS_PER_MARKER == 2 * markerIndex;
    assert markerIndex * POSITION_FLOATS == POSITION_FLOATS * markerIndex == 12 * markerIndex;
    assert (markerIndex + 1) * POSITION_FLOATS == POSITION_FLOATS * (markerIndex + 1) == 12 * markerIndex + 12;
    assert markerIndex * POSITION_FLOATS * FLOAT_SIZE == POSITION_BYTES * markerIndex == 48 * markerIndex;
    assert markerIndex * TEXCOORD_FLOATS * FLOAT_SIZE == TEXCOORD_BYTES * markerIndex == 32 * markerIndex;
    var positionAccessorIndex := markerIndex * ACCESSORS_PER_MARKER;
    var texcoordAccessorIndex := positionAccessorIndex + 1;
    PositionsSlice(markers, markerIndex);
    var cornerPositions := geometry[markerIndex * POSITION_FLOATS..(markerIndex + 1) * POSITION_FLOATS];
    assert cornerPositions == MarkerPositions(markers[markerIndex]);
    var minValues, maxValues := ScanBounds(cornerPositions);
    positionAccessor := Accessor(0, markerIndex * POSITION_FLOATS * FLOAT_SIZE, CORNERS_PER_MARKER,
                                 COMPONENT_TYPE_FLOAT, TYPE_VEC3, minValues, maxValues);
    texcoordAccessor := Accessor(1, markerIndex * TEXCOORD_FLOATS * FLOAT_SIZE, CORNERS_PER_MARKER,
                                 COMPONENT_TYPE_FLOAT, TYPE_VEC2, [], []);
    material := Material(MATERIAL_PREFIX + NatToString(markerIndex), DEFAULT_BASE_COLOR_FACTOR,
                         Some(TextureInfo(markerIndex, 0)));
    mesh := Mesh([TexturedFan(positionAccessorIndex, texcoordAccessorIndex, markerIndex)]);
  }

  /** The per-marker loop of `produce_board_model`. */
  method MarkerDrawables(markers: seq<Corners>, geometry: seq<real>)
    returns (accessors: seq<Accessor>, materials: seq<Material>, meshes: seq<Mesh>)
    requires geometry == GeometryData(markers)
    ensures accessors == MarkerAccessors(markers)
    ensures materials == MaterialList(|markers|)
    ensures meshes == MeshList(|markers|)
  {
    var n := |markers|;
    accessors, materials, meshes := [], [], [];
    for markerIndex := 0 to n
      invariant accessors == MarkerAccessors(markers[..markerIndex])
      invariant materials == MaterialList(markerIndex)
      invariant meshes == MeshList(markerIndex)
    {
      assert markers[..markerIndex + 1][..markerIndex] == markers[..markerIndex];
      var positionAccessor, texcoordAccessor, material, mesh := MarkerDrawable(markers, geometry, markerIndex);
      accessors := accessors + [positionAccessor, texcoordAccessor];
      materials := materials + [material];
      MaterialListSnoc(markerIndex);
      meshes := meshes + [mesh];
      MeshListSnoc(markerIndex);
    }
    assert markers[..n] == markers;
  }

  /** `produce_board_model`: the glTF scene of a board's markers. */
  method ProduceBoardModel(markers: seq<Corners>, pngs: seq<seq<bv8>>) returns (model: Model)
    ensures model == BoardModel(markers, pngs)
  {
    var n := |markers|;
    var geometry := FillGeometry(markers);
    var geometryBytes := EncodeFloats(geometry);
    assert n * POSITION_FLOATS * FLOAT_SIZE == POSITION_BYTES * n;
    assert n * TEXCOORD_FLOATS * FLOAT_SIZE == TEXCOORD_BYTES * n;
    var positionsView :=
      BufferView(0, 0, n * POSITION_FLOATS * FLOAT_SIZE, FLOATS_PER_POSITION * FLOAT_SIZE, TARGET_ARRAY_BUFFER);
    var texcoordsView :=
      BufferView(0, n * POSITION_FLOATS * FLOAT_SIZE, n * TEXCOORD_FLOATS * FLOAT_SIZE,
                 FLOATS_PER_TEXCOORD * FLOAT_SIZE, TARGET_ARRAY_BUFFER);
    var samplers := [MARKER_SAMPLER];
    var data, imageViews, images, textures := AppendImages(geometryBytes, pngs);
    var accessors, materials, meshes := MarkerDrawables(markers, geometry);

    var nodes: seq<Node> := [];
    for markerIndex := 0 to n
      invariant |nodes| == markerIndex && forall i :: 0 <= i < markerIndex ==> nodes[i] == Node(i)
    {
      nodes := nodes + [Node(markerIndex)];
    }

    var sceneNodes := Iota(n);
    assert nodes == NodeList(n);
    model := Model([Buffer(data)], [positionsView, texcoordsView] + imageViews, accessors, samplers, images,
                   textures, materials, meshes, nodes, [Scene(sceneNodes)], 0);
    assert |geometryBytes| == (POSITION_BYTES + TEXCOORD_BYTES) * n;
    assert positionsView == PositionsView(n) && texcoordsView == TexcoordsView(n);
  }
}
