/**
 * What the marker scene of `produce_board_model` guarantees: the buffer
 * layout and its views, the corner order and texcoords read back from the
 * buffer, the index wiring between accessors, materials, textures, meshes,
 * nodes and the scene, the per-marker accessor bounds, distinct material
 * names, and the glTF well-formedness rules.
 */
module MarkerLayout {
  import opened Wrappers
  import opened FloatBytes
  import opened Gltf
  import opened Boards
  import opened Decimal
  import opened MarkerScene
  import opened SeqFacts

  function BufferData(markers: seq<Corners>, pngs: seq<seq<bv8>>): seq<Octet>
  {
    BoardModel(markers, pngs).buffers[0].data
  }

  /** Bytes at the start of the buffer: 48 per marker of positions, then 32 per marker of texcoords. */
  function GeometryBytes(n: nat): nat
  {
    80 * n
  }

  /** The buffer holds the encoded float array, 80 bytes per marker, followed
      by the PNGs; view 2 + k onwards are the image views. */
  lemma BufferLength(markers: seq<Corners>, pngs: seq<seq<bv8>>)
    ensures |BoardModel(markers, pngs).buffers| == 1
    ensures |EncodeFloats(GeometryData(markers))| == GeometryBytes(|markers|)
    ensures BufferData(markers, pngs) == EncodeFloats(GeometryData(markers)) + ImageBytes(pngs)
    ensures |BufferData(markers, pngs)| == GeometryBytes(|markers|) + TotalBytes(pngs)
    ensures BoardModel(markers, pngs).bufferViews[2..] == ImageViews(GeometryBytes(|markers|), pngs)
  {
    var n := |markers|;
    var g := GeometryData(markers);
    assert |g| == 20 * n;
    assert |EncodeFloats(g)| == 4 * |g| == 80 * n;
    assert (POSITION_BYTES + TEXCOORD_BYTES) * n == 80 * n;
  }

  /** The float whose bytes start at `offset` inside the geometry bytes reads back
      from the geometry array. */
  lemma GeometryFloatAt(markers: seq<Corners>, pngs: seq<seq<bv8>>, j: nat)
    requires j < (POSITION_FLOATS + TEXCOORD_FLOATS) * |markers|
    ensures FloatAt(BufferData(markers, pngs), FLOAT_SIZE * j) == Some(GeometryData(markers)[j])
  {
    var g := GeometryData(markers);
    var e := EncodeFloats(g);
    var data := BufferData(markers, pngs);
    var n := |markers|;
    assert (POSITION_FLOATS + TEXCOORD_FLOATS) * n == 20 * n;
    assert |e| == FLOAT_SIZE * |g| == 4 * |g|;
    var offset := 4 * j;
    assert FLOAT_SIZE * j == offset && offset + 4 <= |e|;
    assert data == e + ImageBytes(pngs);
    FloatAtEncode(g, j);
    assert data[offset..offset + 4] == e[offset..offset + 4];
  }

  /** Corner order in the buffer: vertex k of marker i, read back from the
      position region, is input corner 3 - k. */
  lemma PositionInBuffer(markers: seq<Corners>, pngs: seq<seq<bv8>>, i: nat, k: nat, axis: nat)
    requires i < |markers| && k < CORNERS_PER_MARKER && axis < 3
    ensures FloatAt(BufferData(markers, pngs), POSITION_BYTES * i + 12 * k + FLOAT_SIZE * axis)
            == Some(Coord(markers[i][3 - k], axis))
  {
    var n := |markers|;
    var j := 12 * i + 3 * k + axis;
    assert POSITION_FLOATS * i + FLOATS_PER_POSITION * k + axis == j < 12 * n;
    assert (POSITION_FLOATS + TEXCOORD_FLOATS) * n == 20 * n;
    assert FLOAT_SIZE * j == 4 * j;
    assert POSITION_BYTES * i + 12 * k + FLOAT_SIZE * axis == 48 * i + 12 * k + 4 * axis;
    GeometryFloatAt(markers, pngs, j);
    CornerOrder(markers, i, k, axis);
    assert |Positions(markers)| == POSITION_FLOATS * n == 12 * n;
    assert GeometryData(markers)[j] == Positions(markers)[j];
  }

  /** Texcoords in the buffer: float j of marker i's texcoord block is entry j
      of the fixed quad, whatever the marker. */
  lemma TexcoordInBuffer(markers: seq<Corners>, pngs: seq<seq<bv8>>, i: nat, j: nat)
    requires i < |markers| && j < TEXCOORD_FLOATS
    ensures FloatAt(BufferData(markers, pngs), POSITION_BYTES * |markers| + TEXCOORD_BYTES * i + FLOAT_SIZE * j)
            == Some(TEXTURE_COORDINATES[j])
  {
    var n := |markers|;
    var t := 8 * i + j;
    var f := 12 * n + t;
    assert TEXCOORD_FLOATS * i + j == t && t < 8 * n;
    assert (POSITION_FLOATS + TEXCOORD_FLOATS) * n == 20 * n;
    assert FLOAT_SIZE * f == 4 * f;
    assert POSITION_BYTES * n + TEXCOORD_BYTES * i + FLOAT_SIZE * j == 48 * n + 32 * i + 4 * j;
    GeometryFloatAt(markers, pngs, f);
    FixedTexcoords(n, i, j);
    assert |Positions(markers)| == POSITION_FLOATS * n == 12 * n;
    assert GeometryData(markers)[f] == Texcoords(n)[t];
  }

  lemma {:induction false} ImageViewsAt(start: nat, pngs: seq<seq<bv8>>, k: nat)
    requires k < |pngs|
    ensures ImageViews(start, pngs)[k] == BufferView(0, start + TotalBytes(pngs[..k]), |pngs[k]|, 0, 0)
  {
    var init := pngs[..|pngs| - 1];
    if k < |pngs| - 1 {
      ImageViewsAt(start, init, k);
      assert init[..k] == pngs[..k];
    } else {
      assert init == pngs[..k];
    }
  }

  lemma {:induction false} ImageBytesAt(pngs: seq<seq<bv8>>, k: nat)
    requires k < |pngs|
    ensures TotalBytes(pngs[..k]) + |pngs[k]| <= TotalBytes(pngs)
    ensures ImageBytes(pngs)[TotalBytes(pngs[..k])..TotalBytes(pngs[..k]) + |pngs[k]|] == RawBytes(pngs[k])
  {
    var init := pngs[..|pngs| - 1];
    if k < |pngs| - 1 {
      ImageBytesAt(init, k);
      assert init[..k] == pngs[..k];
      assert ImageBytes(pngs)[..TotalBytes(init)] == ImageBytes(init);
    } else {
      assert init == pngs[..k];
    }
  }

  /** Image k reads view 2 + k, which starts where the buffer ended before
      the PNG was appended and spans exactly that PNG's length; texture k
      shows image k through the one sampler. */
  lemma ImageView(markers: seq<Corners>, pngs: seq<seq<bv8>>, k: nat)
    requires k < |pngs|
    ensures |BoardModel(markers, pngs).bufferViews| == 2 + |pngs|
    ensures BoardModel(markers, pngs).images[k] == Image(2 + k, PNG_MIME_TYPE)
    ensures BoardModel(markers, pngs).textures[k] == Texture(k, 0)
    ensures BoardModel(markers, pngs).bufferViews[2 + k]
            == BufferView(0, GeometryBytes(|markers|) + TotalBytes(pngs[..k]), |pngs[k]|, 0, 0)
  {
    var views := BoardModel(markers, pngs).bufferViews;
    BufferLength(markers, pngs);
    ImageViewsAt(GeometryBytes(|markers|), pngs, k);
    assert views[2 + k] == views[2..][k];
  }

  lemma ImageSlice(geometry: seq<Octet>, pngs: seq<seq<bv8>>, k: nat)
    requires k < |pngs|
    ensures |geometry| + TotalBytes(pngs[..k]) + |pngs[k]| <= |geometry + ImageBytes(pngs)|
    ensures (geometry + ImageBytes(pngs))[|geometry| + TotalBytes(pngs[..k])..
                                          |geometry| + TotalBytes(pngs[..k]) + |pngs[k]|]
            == RawBytes(pngs[k])
  {
    var lo := TotalBytes(pngs[..k]);
    ImageBytesAt(pngs, k);
    SliceOfAppend(geometry, ImageBytes(pngs), |geometry| + lo, |geometry| + lo + |pngs[k]|);
  }

  /** The bytes that view 2 + k spans are exactly PNG k. */
  lemma ImageData(markers: seq<Corners>, pngs: seq<seq<bv8>>, k: nat)
    requires k < |pngs|
    ensures GeometryBytes(|markers|) + TotalBytes(pngs[..k]) + |pngs[k]| <= |BufferData(markers, pngs)|
    ensures BufferData(markers, pngs)[GeometryBytes(|markers|) + TotalBytes(pngs[..k])..
                                      GeometryBytes(|markers|) + TotalBytes(pngs[..k]) + |pngs[k]|]
            == RawBytes(pngs[k])
  {
    BufferLength(markers, pngs);
    ImageSlice(EncodeFloats(GeometryData(markers)), pngs, k);
  }

  lemma {:induction false} ImageViewsConsecutive(start: nat, pngs: seq<seq<bv8>>)
    ensures Consecutive(ImageViews(start, pngs))
    ensures pngs != [] ==> ImageViews(start, pngs)[0].byteOffset == start
    ensures pngs != [] ==> ViewEnd(ImageViews(start, pngs)[|pngs| - 1]) == start + TotalBytes(pngs)
  {
    if pngs != [] {
      var init := pngs[..|pngs| - 1];
      ImageViewsConsecutive(start, init);
      if init != [] {
        ImageViewsAt(start, pngs, 0);
      }
    }
  }

  /** The views tile the buffer: the position view starts at 0, each view starts
      where the previous ends, and the last ends at the end of the buffer. */
  lemma ViewsTileBuffer(markers: seq<Corners>, pngs: seq<seq<bv8>>)
    ensures var views := BoardModel(markers, pngs).bufferViews;
            && |views| == 2 + |pngs|
            && views[0] == BufferView(0, 0, POSITION_BYTES * |markers|, 12, TARGET_ARRAY_BUFFER)
            && views[1] == BufferView(0, POSITION_BYTES * |markers|, TEXCOORD_BYTES * |markers|, 8, TARGET_ARRAY_BUFFER)
            && Consecutive(views)
            && ViewEnd(views[|views| - 1]) == |BufferData(markers, pngs)|
            && forall v :: 0 <= v < |views| ==> views[v].buffer == 0 && StrideValid(views[v])
  {
    var views := BoardModel(markers, pngs).bufferViews;
    var n := |markers|;
    var start := GeometryBytes(n);
    var images := ImageViews(start, pngs);
    BufferLength(markers, pngs);
    ImageViewsConsecutive(start, pngs);
    assert views == [PositionsView(n), TexcoordsView(n)] + images;
    assert ViewEnd(views[1]) == start by {
      assert POSITION_BYTES * n + TEXCOORD_BYTES * n == 80 * n;
    }
    forall v | 0 <= v < |views| - 1
      ensures ViewEnd(views[v]) == views[v + 1].byteOffset
    {
      if v >= 2 {
        assert views[v] == images[v - 2] && views[v + 1] == images[v - 1];
      }
    }
    forall v | 2 <= v < |views|
      ensures views[v].buffer == 0 && views[v].byteStride == 0
    {
      ImageViewsAt(start, pngs, v - 2);
      assert views[v] == images[v - 2];
    }
  }

  /** No two views of the marker scene overlap, and each lies inside the buffer. */
  lemma ViewsDisjointInBuffer(markers: seq<Corners>, pngs: seq<seq<bv8>>)
    ensures var m := BoardModel(markers, pngs);
            && ViewsDisjoint(m.bufferViews)
            && forall v :: 0 <= v < |m.bufferViews| ==> ViewInBuffer(m, m.bufferViews[v])
  {
    var m := BoardModel(markers, pngs);
    var views := m.bufferViews;
    ViewsTileBuffer(markers, pngs);
    ConsecutiveDisjoint(views);
    forall v | 0 <= v < |views|
      ensures ViewInBuffer(m, views[v])
    {
      if v < |views| - 1 {
        ConsecutiveOrdered(views, v, |views| - 1);
      }
    }
  }

  lemma ImageViewsNonEmpty(start: nat, pngs: seq<seq<bv8>>)
    ensures ViewsNonEmpty(ImageViews(start, pngs)) <==> forall k :: 0 <= k < |pngs| ==> |pngs[k]| >= 1
  {
    var views := ImageViews(start, pngs);
    if ViewsNonEmpty(views) {
      forall k | 0 <= k < |pngs|
        ensures |pngs[k]| >= 1
      {
        ImageViewsAt(start, pngs, k);
        assert views[k] in views;
      }
    }
    if forall k :: 0 <= k < |pngs| ==> |pngs[k]| >= 1 {
      forall v | v in views
        ensures v.byteLength >= 1
      {
        var k :| 0 <= k < |views| && views[k] == v;
        ImageViewsAt(start, pngs, k);
      }
    }
  }

  /** Every view of the marker scene spans at least one byte exactly when the
      board has a marker and no PNG is empty: an empty board gets a position
      and a texcoord view of zero bytes. */
  lemma ViewsNonEmptyIff(markers: seq<Corners>, pngs: seq<seq<bv8>>)
    ensures ViewsNonEmpty(BoardModel(markers, pngs).bufferViews)
            <==> |markers| >= 1 && forall k :: 0 <= k < |pngs| ==> |pngs[k]| >= 1
  {
    var n := |markers|;
    var geometry := [PositionsView(n), TexcoordsView(n)];
    var images := ImageViews(GeometryBytes(n), pngs);
    BufferLength(markers, pngs);
    assert BoardModel(markers, pngs).bufferViews == geometry + images;
    ViewsNonEmptyAppend(geometry, images);
    ImageViewsNonEmpty(GeometryBytes(n), pngs);
    assert ViewsNonEmpty(geometry) <==> n >= 1 by {
      assert POSITION_BYTES * n == 48 * n && TEXCOORD_BYTES * n == 32 * n;
      assert geometry[0] in geometry && geometry[1] in geometry;
    }
  }

  /** The accessors of the first m markers are the first 2m accessors. */
  lemma {:induction false} MarkerAccessorsPrefix(markers: seq<Corners>, m: nat)
    requires m <= |markers|
    ensures 2 * m <= |MarkerAccessors(markers)|
    ensures MarkerAccessors(markers)[..2 * m] == MarkerAccessors(markers[..m])
    decreases |markers|
  {
    var all := MarkerAccessors(markers);
    assert |all| == ACCESSORS_PER_MARKER * |markers| == 2 * |markers|;
    if m < |markers| {
      var last := |markers| - 1;
      var init := MarkerAccessors(markers[..last]);
      assert |init| == ACCESSORS_PER_MARKER * last == 2 * last;
      MarkerAccessorsPrefix(markers[..last], m);
      PrefixOfPrefix(markers, last, m);
      assert all == init + [PositionAccessor(last, markers[last]), TexcoordAccessor(last)];
      PrefixOfAppend(init, [PositionAccessor(last, markers[last]), TexcoordAccessor(last)], 2 * m);
    } else {
      assert markers[..m] == markers;
    }
  }

  lemma MarkerAccessorsAt(markers: seq<Corners>, i: nat)
    requires i < |markers|
    ensures |MarkerAccessors(markers)| == 2 * |markers|
    ensures MarkerAccessors(markers)[2 * i] == PositionAccessor(i, markers[i])
    ensures MarkerAccessors(markers)[2 * i + 1] == TexcoordAccessor(i)
  {
    var all := MarkerAccessors(markers);
    assert |all| == ACCESSORS_PER_MARKER * |markers| == 2 * |markers|;
    MarkerAccessorsPrefix(markers, i + 1);
    var upTo := markers[..i + 1];
    var init := MarkerAccessors(upTo[..i]);
    assert |init| == ACCESSORS_PER_MARKER * i == 2 * i;
    var pair := [PositionAccessor(i, upTo[i]), TexcoordAccessor(i)];
    assert MarkerAccessors(upTo) == init + pair;
    assert all[2 * i] == all[..2 * i + 2][2 * i] == (init + pair)[2 * i];
    assert all[2 * i + 1] == all[..2 * i + 2][2 * i + 1] == (init + pair)[2 * i + 1];
  }

  /** Marker i owns accessors 2i (positions: view 0, byte offset 48i, four VEC3
      floats) and 2i + 1 (texcoords: view 1, byte offset 32i, four VEC2 floats). */
  lemma MarkerAccessorWiring(markers: seq<Corners>, pngs: seq<seq<bv8>>, i: nat)
    requires i < |markers|
    ensures var accessors := BoardModel(markers, pngs).accessors;
            && |accessors| == 2 * |markers|
            && accessors[2 * i].bufferView == 0
            && accessors[2 * i].byteOffset == POSITION_BYTES * i
            && accessors[2 * i].count == 4
            && accessors[2 * i].componentType == COMPONENT_TYPE_FLOAT
            && accessors[2 * i].elementType == TYPE_VEC3
            && accessors[2 * i + 1].bufferView == 1
            && accessors[2 * i + 1].byteOffset == TEXCOORD_BYTES * i
            && accessors[2 * i + 1].count == 4
            && accessors[2 * i + 1].componentType == COMPONENT_TYPE_FLOAT
            && accessors[2 * i + 1].elementType == TYPE_VEC2
  {
    MarkerAccessorsAt(markers, i);
  }

  /** Marker i has material i (texture i, named "material" followed by i), mesh i
      (one textured fan over accessors 2i and 2i + 1 with material i) and node i
      (mesh i); the one scene is the default and lists node i at position i. */
  lemma MarkerDrawableWiring(markers: seq<Corners>, pngs: seq<seq<bv8>>, i: nat)
    requires i < |markers|
    ensures var m := BoardModel(markers, pngs);
            && |m.materials| == |markers|
            && m.materials[i] == Material(MATERIAL_PREFIX + NatToString(i), DEFAULT_BASE_COLOR_FACTOR, Some(TextureInfo(i, 0)))
            && |m.meshes| == |markers|
            && m.meshes[i].primitives
               == [Primitive(map["POSITION" := 2 * i, "TEXCOORD_0" := 2 * i + 1], MODE_TRIANGLE_FAN, i)]
            && |m.nodes| == |markers| && m.nodes[i] == Node(i)
            && |m.scenes| == 1 && m.defaultScene == 0
            && |m.scenes[0].nodes| == |markers| && m.scenes[0].nodes[i] == i
  {
  }

  /** The bounds computed from one marker's position block bracket its four
      corners on `axis`, and each bound is one of those corners' coordinates. */
  lemma CornerBounds(c: Corners, axis: nat)
    requires axis < 3
    ensures var block := MarkerPositions(c);
            && (forall k :: 0 <= k < CORNERS_PER_MARKER ==>
                  BlockMin(block)[axis] <= Coord(c[k], axis) <= BlockMax(block)[axis])
            && (exists k :: 0 <= k < CORNERS_PER_MARKER && BlockMin(block)[axis] == Coord(c[k], axis))
            && (exists k :: 0 <= k < CORNERS_PER_MARKER && BlockMax(block)[axis] == Coord(c[k], axis))
  {
    var block := MarkerPositions(c);
    var xs := AxisValues(block, axis);
    MarkerPositionsAt(c, 0, axis);
    MarkerPositionsAt(c, 1, axis);
    MarkerPositionsAt(c, 2, axis);
    MarkerPositionsAt(c, 3, axis);
    assert xs == [Coord(c[3], axis), Coord(c[2], axis), Coord(c[1], axis), Coord(c[0], axis)];
    var lo := Lo(xs);
    var hi := Hi(xs);
    assert BlockMin(block)[axis] == lo && BlockMax(block)[axis] == hi;
    forall k | 0 <= k < CORNERS_PER_MARKER
      ensures lo <= Coord(c[k], axis) <= hi
    {
      assert Coord(c[k], axis) == xs[3 - k];
      assert xs[3 - k] in xs;
    }
    var lm :| 0 <= lm < 4 && xs[lm] == lo;
    assert lo == Coord(c[3 - lm], axis);
    var hm :| 0 <= hm < 4 && xs[hm] == hi;
    assert hi == Coord(c[3 - hm], axis);
  }

  /** The bounds of marker i's position accessor bracket that marker's own
      corners on every axis, and each bound is attained by one of them. */
  lemma MarkerBounds(markers: seq<Corners>, pngs: seq<seq<bv8>>, i: nat, axis: nat)
    requires i < |markers| && axis < 3
    ensures var a := BoardModel(markers, pngs).accessors[2 * i];
            && |a.minValues| == 3 && |a.maxValues| == 3
            && (forall k :: 0 <= k < CORNERS_PER_MARKER ==>
                  a.minValues[axis] <= Coord(markers[i][k], axis) <= a.maxValues[axis])
            && (exists k :: 0 <= k < CORNERS_PER_MARKER && a.minValues[axis] == Coord(markers[i][k], axis))
            && (exists k :: 0 <= k < CORNERS_PER_MARKER && a.maxValues[axis] == Coord(markers[i][k], axis))
  {
    MarkerAccessorsAt(markers, i);
    CornerBounds(markers[i], axis);
  }

  /** Every material name is distinct ("material0", "material1", ...). */
  lemma MaterialNamesDistinct(markers: seq<Corners>, pngs: seq<seq<bv8>>)
    ensures DistinctMaterialNames(BoardModel(markers, pngs).materials)
  {
    var materials := BoardModel(markers, pngs).materials;
    forall i, j | 0 <= i < j < |materials|
      ensures materials[i].name != materials[j].name
    {
      PrefixedNameInjective(MATERIAL_PREFIX, i, j);
    }
  }

  /** The position accessor's bounds are one ordered pair per axis. */
  lemma PositionBoundsValid(i: nat, corners: Corners)
    ensures BoundsValid(PositionAccessor(i, corners))
  {
    var a := PositionAccessor(i, corners);
    var block := MarkerPositions(corners);
    forall c | 0 <= c < 3
      ensures a.minValues[c] <= a.maxValues[c]
    {
      var values := AxisValues(block, c);
      assert values[0] in values;
    }
  }

  /** Marker i's position accessor is a float accessor inside the position view. */
  lemma PositionAccessorValid(markers: seq<Corners>, pngs: seq<seq<bv8>>, i: nat)
    requires i < |markers|
    ensures AccessorValid(BoardModel(markers, pngs), PositionAccessor(i, markers[i]))
  {
    var m := BoardModel(markers, pngs);
    var n := |markers|;
    assert m.bufferViews[0] == PositionsView(n);
    PositionBoundsValid(i, markers[i]);
    assert POSITION_BYTES * i + 12 * 3 + 12 <= POSITION_BYTES * n by {
      assert POSITION_BYTES * i == 48 * i && POSITION_BYTES * n == 48 * n;
    }
    assert (POSITION_BYTES * i) % FLOAT_SIZE == 0 by {
      assert POSITION_BYTES * i == FLOAT_SIZE * (12 * i);
    }
  }

  /** Marker i's texcoord accessor is a float accessor inside the texcoord view. */
  lemma TexcoordAccessorValid(markers: seq<Corners>, pngs: seq<seq<bv8>>, i: nat)
    requires i < |markers|
    ensures AccessorValid(BoardModel(markers, pngs), TexcoordAccessor(i))
  {
    var m := BoardModel(markers, pngs);
    var n := |markers|;
    assert m.bufferViews[1] == TexcoordsView(n);
    assert TEXCOORD_BYTES * i + 8 * 3 + 8 <= TEXCOORD_BYTES * n by {
      assert TEXCOORD_BYTES * i == 32 * i && TEXCOORD_BYTES * n == 32 * n;
    }
    assert (TEXCOORD_BYTES * i) % FLOAT_SIZE == 0 by {
      assert TEXCOORD_BYTES * i == FLOAT_SIZE * (8 * i);
    }
  }

  /** Both accessors of marker i are float accessors inside their views. */
  lemma MarkerAccessorsValid(markers: seq<Corners>, pngs: seq<seq<bv8>>, i: nat)
    requires i < |markers|
    ensures |BoardModel(markers, pngs).accessors| == 2 * |markers|
    ensures AccessorValid(BoardModel(markers, pngs), BoardModel(markers, pngs).accessors[2 * i])
    ensures AccessorValid(BoardModel(markers, pngs), BoardModel(markers, pngs).accessors[2 * i + 1])
  {
    MarkerAccessorsAt(markers, i);
    PositionAccessorValid(markers, pngs, i);
    TexcoordAccessorValid(markers, pngs, i);
  }

  /** Every accessor of the marker scene is a float accessor inside its view. */
  lemma AccessorValidAt(markers: seq<Corners>, pngs: seq<seq<bv8>>, j: nat)
    requires j < ACCESSORS_PER_MARKER * |markers|
    ensures AccessorValid(BoardModel(markers, pngs), BoardModel(markers, pngs).accessors[j])
  {
    var i := j / 2;
    assert ACCESSORS_PER_MARKER * |markers| == 2 * |markers|;
    MarkerAccessorsValid(markers, pngs, i);
    assert j == 2 * i || j == 2 * i + 1;
  }

  lemma MarkerAccessorsAllValid(markers: seq<Corners>, pngs: seq<seq<bv8>>)
    ensures var m := BoardModel(markers, pngs);
            forall a :: a in m.accessors ==> AccessorValid(m, a)
  {
    var m := BoardModel(markers, pngs);
    forall a | a in m.accessors
      ensures AccessorValid(m, a)
    {
      var j :| 0 <= j < |m.accessors| && m.accessors[j] == a;
      AccessorValidAt(markers, pngs, j);
    }
  }

  lemma MarkerMeshesValid(markers: seq<Corners>, pngs: seq<seq<bv8>>)
    ensures var m := BoardModel(markers, pngs);
            forall mesh :: mesh in m.meshes ==> forall p :: p in mesh.primitives ==> PrimitiveValid(m, p)
  {
    var m := BoardModel(markers, pngs);
    forall mesh | mesh in m.meshes
      ensures forall p :: p in mesh.primitives ==> PrimitiveValid(m, p)
    {
      var i :| 0 <= i < |markers| && m.meshes[i] == mesh;
    }
  }

  /** With one PNG per marker (the board has one id per marker), the marker
      scene satisfies the index, range, stride and alignment rules of `WellFormed`. */
  lemma BoardModelWellFormed(markers: seq<Corners>, pngs: seq<seq<bv8>>)
    requires |pngs| == |markers|
    ensures WellFormed(BoardModel(markers, pngs))
  {
    var m := BoardModel(markers, pngs);
    ViewsDisjointInBuffer(markers, pngs);
    MarkerAccessorsAllValid(markers, pngs);
    MarkerMeshesValid(markers, pngs);
    forall v | v in m.bufferViews
      ensures ViewInBuffer(m, v)
    {
      var k :| 0 <= k < |m.bufferViews| && m.bufferViews[k] == v;
    }
  }
}
