/**
 * The in-memory glTF 2.0 scene description the exporter fills in (the parts of
 * `tinygltf::Model` it touches), and the index, range and alignment rules of
 * section 3.6 of the glTF 2.0 specification: every index refers to an
 * existing object, every buffer view lies inside its buffer with a valid
 * stride, every accessor lies inside its buffer view at an offset aligned to
 * its component size. The rule that a view spans at least one byte is stated
 * apart (`ViewsNonEmpty`), since the exporter breaks it for an empty board.
 */
module Gltf {
  import opened Wrappers
  import opened FloatBytes

  const TARGET_ARRAY_BUFFER: nat := 34962
  const COMPONENT_TYPE_FLOAT: nat := 5126
  const TYPE_VEC2: nat := 2
  const TYPE_VEC3: nat := 3
  const MODE_TRIANGLE_FAN: nat := 6
  const TEXTURE_WRAP_CLAMP_TO_EDGE: nat := 33071
  const TEXTURE_FILTER_NEAREST: nat := 9728

  datatype Buffer = Buffer(data: seq<Octet>)

  /** A byte range of a buffer; `byteStride` and `target` are 0 when unset. */
  datatype BufferView = BufferView(buffer: nat, byteOffset: nat, byteLength: nat, byteStride: nat, target: nat)

  /** `elementType` is the accessor's `type` (VEC2, VEC3); empty bounds mean unset. */
  datatype Accessor = Accessor(
    bufferView: nat, byteOffset: nat, count: nat, componentType: nat, elementType: nat,
    minValues: seq<real>, maxValues: seq<real>)

  datatype Sampler = Sampler(magFilter: nat, minFilter: nat, wrapS: nat, wrapT: nat)

  datatype Image = Image(bufferView: nat, mimeType: string)

  datatype Texture = Texture(source: nat, sampler: nat)

  datatype TextureInfo = TextureInfo(index: nat, texCoord: nat)

  /** The RGBA factor a material starts with when none is set (opaque white). */
  const DEFAULT_BASE_COLOR_FACTOR: seq<real> := [1.0, 1.0, 1.0, 1.0]

  /** The metallic-roughness base colour is flattened into the material. */
  datatype Material = Material(name: string, baseColorFactor: seq<real>, baseColorTexture: Option<TextureInfo>)

  /** `attributes` maps an attribute name to an accessor index. */
  datatype Primitive = Primitive(attributes: map<string, nat>, mode: nat, material: nat)

  datatype Mesh = Mesh(primitives: seq<Primitive>)

  datatype Node = Node(mesh: nat)

  datatype Scene = Scene(nodes: seq<nat>)

  datatype Model = Model(
    buffers: seq<Buffer>,
    bufferViews: seq<BufferView>,
    accessors: seq<Accessor>,
    samplers: seq<Sampler>,
    images: seq<Image>,
    textures: seq<Texture>,
    materials: seq<Material>,
    meshes: seq<Mesh>,
    nodes: seq<Node>,
    scenes: seq<Scene>,
    defaultScene: nat)

  /** Number of components of an accessor element type (0 for an unknown type). */
  function ComponentCount(elementType: nat): nat
  {
    if elementType == TYPE_VEC2 then 2 else if elementType == TYPE_VEC3 then 3 else 0
  }

  function ViewEnd(v: BufferView): nat
  {
    v.byteOffset + v.byteLength
  }

  /** A stride is unset (0) or a multiple of 4 from 4 to 252. */
  predicate StrideValid(v: BufferView)
  {
    v.byteStride == 0 || (4 <= v.byteStride <= 252 && v.byteStride % 4 == 0)
  }

  /** A view with a valid stride inside an existing buffer. */
  predicate ViewInBuffer(m: Model, v: BufferView)
  {
    v.buffer < |m.buffers| && ViewEnd(v) <= |m.buffers[v.buffer].data| && StrideValid(v)
  }

  /** Every view spans at least one byte (a rule `WellFormed` does not include). */
  predicate ViewsNonEmpty(views: seq<BufferView>)
  {
    forall v :: v in views ==> v.byteLength >= 1
  }

  lemma ViewsNonEmptyAppend(a: seq<BufferView>, b: seq<BufferView>)
    ensures ViewsNonEmpty(a + b) <==> ViewsNonEmpty(a) && ViewsNonEmpty(b)
  {
    if ViewsNonEmpty(a + b) {
      forall v | v in a ensures v.byteLength >= 1 { assert v in a + b; }
      forall v | v in b ensures v.byteLength >= 1 { assert v in a + b; }
    }
  }

  /** The bytes of `count` elements of `size` bytes, `stride` apart from
      `byteOffset`, lie inside a view of `viewLength` bytes. */
  predicate ElementsFit(byteOffset: nat, count: nat, size: nat, stride: nat, viewLength: nat)
  {
    count > 0 && stride >= size && byteOffset + stride * (count - 1) + size <= viewLength
  }

  /** Bounds are either absent or one ordered pair per component. */
  predicate BoundsValid(a: Accessor)
  {
    || (a.minValues == [] && a.maxValues == [])
    || (&& |a.minValues| == ComponentCount(a.elementType)
        && |a.maxValues| == ComponentCount(a.elementType)
        && forall c :: 0 <= c < |a.minValues| ==> a.minValues[c] <= a.maxValues[c])
  }

  /** A float accessor of known type that lies inside its buffer view. */
  predicate AccessorValid(m: Model, a: Accessor)
  {
    && a.componentType == COMPONENT_TYPE_FLOAT
    && ComponentCount(a.elementType) > 0
    && a.byteOffset % FLOAT_SIZE == 0
    && a.bufferView < |m.bufferViews|
    && (m.bufferViews[a.bufferView].byteOffset + a.byteOffset) % FLOAT_SIZE == 0
    && ElementsFit(a.byteOffset, a.count, FLOAT_SIZE * ComponentCount(a.elementType),
                   Stride(m.bufferViews[a.bufferView], a), m.bufferViews[a.bufferView].byteLength)
    && BoundsValid(a)
  }

  /** Distance between consecutive elements: the view's stride, or the element size when unset. */
  function Stride(v: BufferView, a: Accessor): nat
  {
    if v.byteStride == 0 then FLOAT_SIZE * ComponentCount(a.elementType) else v.byteStride
  }

  predicate PrimitiveValid(m: Model, p: Primitive)
  {
    && (forall name :: name in p.attributes ==> p.attributes[name] < |m.accessors|)
    && p.material < |m.materials|
  }

  /** Every cross reference of the model resolves and every range fits. */
  predicate WellFormed(m: Model)
  {
    && (forall v :: v in m.bufferViews ==> ViewInBuffer(m, v))
    && (forall a :: a in m.accessors ==> AccessorValid(m, a))
    && (forall im :: im in m.images ==> im.bufferView < |m.bufferViews|)
    && (forall t :: t in m.textures ==> t.source < |m.images| && t.sampler < |m.samplers|)
    && (forall mat :: mat in m.materials && mat.baseColorTexture.Some? ==>
          mat.baseColorTexture.value.index < |m.textures|)
    && (forall mesh :: mesh in m.meshes ==>
          forall p :: p in mesh.primitives ==> PrimitiveValid(m, p))
    && (forall node :: node in m.nodes ==> node.mesh < |m.meshes|)
    && (forall s :: s in m.scenes ==> forall k :: k in s.nodes ==> k < |m.nodes|)
    && m.defaultScene < |m.scenes|
  }

  /** The buffer views occupy disjoint byte ranges of the buffer. */
  predicate ViewsDisjoint(views: seq<BufferView>)
  {
    forall i, j :: 0 <= i < j < |views| ==>
      ViewEnd(views[i]) <= views[j].byteOffset || ViewEnd(views[j]) <= views[i].byteOffset
  }

  /** Material names are pairwise distinct (a requirement of the simulator's importer). */
  predicate DistinctMaterialNames(materials: seq<Material>)
  {
    forall i, j :: 0 <= i < j < |materials| ==> materials[i].name != materials[j].name
  }

  /** Each view starts where the previous one ends. */
  predicate Consecutive(views: seq<BufferView>)
  {
    forall v :: 0 <= v < |views| - 1 ==> ViewEnd(views[v]) == views[v + 1].byteOffset
  }

  lemma {:induction false} ConsecutiveOrdered(views: seq<BufferView>, i: nat, j: nat)
    requires Consecutive(views) && i < j < |views|
    ensures ViewEnd(views[i]) <= views[j].byteOffset
  {
    if j > i + 1 {
      ConsecutiveOrdered(views, i, j - 1);
    }
  }

  /** Consecutive views never overlap. */
  lemma ConsecutiveDisjoint(views: seq<BufferView>)
    requires Consecutive(views)
    ensures ViewsDisjoint(views)
  {
    forall i, j | 0 <= i < j < |views|
      ensures ViewEnd(views[i]) <= views[j].byteOffset
    {
      ConsecutiveOrdered(views, i, j);
    }
  }
}
