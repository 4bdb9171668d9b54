# ArUco board exporter: glTF scene and SDFormat model

`aruco/apps/gltf_exporter.cpp` turns a list of ArUco board descriptions into
one binary glTF scene per board and, on request, an SDFormat model that the
Gazebo simulator loads. This project models the exporter's core and proves
what it guarantees about its output:

- **Marker scene** (`MarkerScene`, `MarkerLayout`). `fill_marker_data` and
  `produce_board_model` build one glTF buffer. The buffer holds each marker's
  four corners, written back to front, then each marker's fixed texture
  quad, then one PNG per marker id. On top of it sit two array views, one
  view per image, and two accessors per marker, with position bounds scanned
  from the corners. Each marker also gets a material on its own texture, a
  triangle-fan mesh and a node, and one scene shows every node.
  `ProduceBoardModel` builds the scene the way the exporter does, with a float
  array filled in place. It is proved to produce the declarative scene
  `BoardModel`. The lemmas cover:
  - the corner order and the texcoords, read back from the buffer bytes;
  - views that tile the buffer without overlap;
  - the index wiring;
  - position bounds that are attained by a corner;
  - distinct material names;
  - the index, range, stride and alignment rules of a glTF reader
    (`Gltf.WellFormed`), and exactly when every view is non-empty.
- **Box** (`BoxScene`). For a box board, `produce_board` appends the unit cube
  `cube_vertices`, scaled to 0.995 of the box size, at the next 4-byte aligned
  offset. It adds one view, six face accessors with per-face bounds, a
  material, a mesh and a node, and adds the node to the scene. `AddBox` is
  proved to append only. The lemmas cover the zero padding and alignment, the
  scaled vertices read back from the buffer, bounds that are exactly each
  face's extent, and the preservation of disjointness, distinct names and
  well-formedness.
- **SDF** (`Sdf`). `produce_sdf`, `produce_sdf_model_extras` and
  `produce_sdf_link_extras` drive tinyxml2's `XMLPrinter`. The printer is the
  class `XmlPrinter`: a stack of open element names and the list of printing
  events it has emitted. `ProduceSdf` is proved to print exactly the element
  tree `SdfDocument`. The lemmas state that tree's shape:
  - SDFormat version 1.11 and the model name;
  - a static grid board without collision or inertial;
  - for a box board, a collision box whose size is the box dimensions, a
    density of 10.0 and an automatic inertial;
  - the pose `0 0 0 90 0 90` in degrees;
  - the mesh URI `model://` followed by the glTF path.
  
  The lemmas also prove that the printed events are balanced and contain no
  NUL.
- **Top level** (`Exporter`). `ExportBoard` covers the per-board step of
  `main`: the stem `board_<i>`, the scene `produce_board` returns for either
  board kind, and the SDF document when it is wanted. Output names are proved
  distinct per board.

The board-geometry library (`bananas_aruco/board.h`, `box_board.h`,
`grid_board.h`, `concrete_board.h`) is not part of this model. The marker
corners it computes and the PNG encoding OpenCV produces for each marker id
are parameters.

## Model

| member | source | states |
|---|---|---|
| MarkerScene.MarkerPositionsAt | aruco/apps/gltf_exporter.cpp:63-69 | float `3k+axis` of a marker's position block is coordinate `axis` of input corner `3-k` (corners reversed) |
| MarkerScene.FillMarkerData | aruco/apps/gltf_exporter.cpp:59-80 | writes the reversed corners into the 12 floats at the position start and the fixed quad into the 8 floats at the texcoord start; every other float is unchanged |
| MarkerScene.FillStep | aruco/apps/gltf_exporter.cpp:97-110 | one loop pass extends the filled prefix of both regions by one marker |
| MarkerScene.FillGeometry | aruco/apps/gltf_exporter.cpp:87-110 | the float array is all position blocks in marker order, then all texcoord blocks (`GeometryData`) |
| MarkerScene.CornerOrder | aruco/apps/gltf_exporter.cpp:64-69 | in the geometry array, vertex k of marker i is input corner `3-k` |
| MarkerScene.FixedTexcoords | aruco/apps/gltf_exporter.cpp:71-79 | texcoord float j of every marker is entry j of the quad (0,1),(1,1),(1,0),(0,0), whatever the marker |
| MarkerScene.Lo | aruco/apps/gltf_exporter.cpp:193-204 | the result is a minimum of a non-empty list: a member below or equal to every element |
| MarkerScene.Hi | aruco/apps/gltf_exporter.cpp:193-204 | the result is a maximum of a non-empty list: a member above or equal to every element |
| MarkerScene.MinScanStep | aruco/apps/gltf_exporter.cpp:197-200 | one `std::min` step, starting from +infinity, keeps the running minimum of each axis seen so far, attained at a recorded index |
| MarkerScene.MaxScanStep | aruco/apps/gltf_exporter.cpp:201-203 | one `std::max` step, starting from -infinity, keeps the running maximum of each axis seen so far, attained at a recorded index |
| MarkerScene.ScanBounds | aruco/apps/gltf_exporter.cpp:189-204 | the scan over a marker's 12 floats returns, per axis, the minimum and maximum of that axis' four values |
| MarkerScene.LowestIsLo | aruco/apps/gltf_exporter.cpp:193-200 | a value of the axis at or below all of them is that axis' minimum |
| MarkerScene.HighestIsHi | aruco/apps/gltf_exporter.cpp:195-203 | a value of the axis at or above all of them is that axis' maximum |
| MarkerScene.AppendImages | aruco/apps/gltf_exporter.cpp:141-167 | the PNGs follow the geometry bytes in id order; view k spans PNG k; image k reads view 2+k as image/png; texture k shows image k on sampler 0 |
| MarkerScene.MarkerDrawable | aruco/apps/gltf_exporter.cpp:174-225 | one loop pass builds marker i's position accessor (bounds from the corners), texcoord accessor, material `material<i>` and mesh |
| MarkerScene.MarkerDrawables | aruco/apps/gltf_exporter.cpp:169-225 | the loop builds accessors 2i and 2i+1, material i and mesh i for every marker |
| MarkerScene.ProduceBoardModel | aruco/apps/gltf_exporter.cpp:83-239 | builds exactly `BoardModel(markers, pngs)`, the scene the lemmas below are about |
| MarkerScene.MaterialListSnoc | aruco/apps/gltf_exporter.cpp:214-218 | the material list grows by material n at position n |
| MarkerScene.MeshListSnoc | aruco/apps/gltf_exporter.cpp:220-224 | the mesh list grows by mesh n at position n |
| FloatBytes.DecodeEncode | aruco/apps/gltf_exporter.cpp:112-117 | the bytes copied from the float array read back as exactly that array |
| FloatBytes.FloatAtEncode | aruco/apps/gltf_exporter.cpp:112-117 | the 4 bytes at offset `4j` of an encoded array read back as float j |
| FloatBytes.EncodeFloatsAppend | aruco/apps/gltf_exporter.cpp:91-95 | the bytes of the concatenated position and texcoord regions are the bytes of each, one after the other |
| MarkerLayout.BufferLength | aruco/apps/gltf_exporter.cpp:113-157 | one buffer: 80 bytes of geometry per marker, then the PNGs; its length is their sum |
| MarkerLayout.GeometryFloatAt | aruco/apps/gltf_exporter.cpp:112-117 | the float at byte `4j` of the buffer is float j of the geometry array |
| MarkerLayout.PositionInBuffer | aruco/apps/gltf_exporter.cpp:64-69 | read from the buffer bytes at `48i+12k+4axis`, vertex k of marker i is input corner `3-k` |
| MarkerLayout.TexcoordInBuffer | aruco/apps/gltf_exporter.cpp:71-79 | read from the buffer bytes at `48n+32i+4j`, the texcoord float is entry j of the fixed quad |
| MarkerLayout.ImageView | aruco/apps/gltf_exporter.cpp:141-166 | image k reads view 2+k; texture k shows image k; view 2+k starts after the geometry and the earlier PNGs and is as long as PNG k |
| MarkerLayout.ImageData | aruco/apps/gltf_exporter.cpp:142-158 | the bytes view 2+k spans are exactly PNG k |
| MarkerLayout.ViewsTileBuffer | aruco/apps/gltf_exporter.cpp:120-158 | position view at 0 (stride 12), texcoord view after it (stride 8), each image view starting where the previous view ends, the last ending at the end of the buffer |
| MarkerLayout.ViewsDisjointInBuffer | aruco/apps/gltf_exporter.cpp:120-158 | no two views overlap and every view lies inside the buffer |
| Gltf.ConsecutiveDisjoint | aruco/apps/gltf_exporter.cpp:120-158 | views laid back to back never overlap |
| MarkerLayout.ImageViewsNonEmpty | aruco/apps/gltf_exporter.cpp:141-158 | the image views are all non-empty exactly when every PNG is non-empty |
| MarkerLayout.ViewsNonEmptyIff | aruco/apps/gltf_exporter.cpp:120-158 | every view spans at least one byte exactly when the board has a marker and no PNG is empty |
| Exporter.BoardSceneViewsNonEmpty | aruco/apps/gltf_exporter.cpp:290-298 | the same holds with the box: its 288-byte view is never empty |
| MarkerLayout.MarkerAccessorsAt | aruco/apps/gltf_exporter.cpp:169-212 | accessor 2i is marker i's position accessor and 2i+1 its texcoord accessor |
| MarkerLayout.MarkerAccessorWiring | aruco/apps/gltf_exporter.cpp:176-212 | accessor 2i: view 0, offset 48i, 4 float VEC3; accessor 2i+1: view 1, offset 32i, 4 float VEC2 |
| MarkerLayout.MarkerDrawableWiring | aruco/apps/gltf_exporter.cpp:214-236 | material i is `material<i>` on texture i; mesh i is one triangle fan of accessors 2i and 2i+1 with material i; node i shows mesh i; the one default scene lists node i at i |
| MarkerLayout.CornerBounds | aruco/apps/gltf_exporter.cpp:189-204 | each axis' scanned minimum and maximum bound all four corners and are attained by one |
| MarkerLayout.MarkerBounds | aruco/apps/gltf_exporter.cpp:193-204 | position accessor 2i holds 3 minima and 3 maxima that bound marker i's corners and are attained |
| MarkerLayout.MaterialNamesDistinct | aruco/apps/gltf_exporter.cpp:217-218 | the marker materials' names are pairwise distinct |
| MarkerLayout.PositionAccessorValid | aruco/apps/gltf_exporter.cpp:181-204 | marker i's position accessor is float-aligned (its own offset and with the view's), fits its view and has min <= max |
| MarkerLayout.TexcoordAccessorValid | aruco/apps/gltf_exporter.cpp:206-212 | marker i's texcoord accessor is float-aligned and fits its view |
| MarkerLayout.AccessorValidAt | aruco/apps/gltf_exporter.cpp:169-212 | every accessor of the marker scene is valid |
| MarkerLayout.MarkerMeshesValid | aruco/apps/gltf_exporter.cpp:220-224 | every primitive refers to existing accessors and an existing material |
| MarkerLayout.BoardModelWellFormed | aruco/apps/gltf_exporter.cpp:83-239 | with one PNG per marker, the marker scene satisfies every index, range, stride and alignment rule of `Gltf.WellFormed` |
| BoxScene.CubeVerticesByFace | aruco/apps/gltf_exporter.cpp:241-276 | `cube_vertices` is the six faces forward, backward, left, right, up, down, in order |
| BoxScene.CubeFaceShape | aruco/apps/gltf_exporter.cpp:243-276 | on its own axis a face is constant at +0.5 (even faces) or -0.5 (odd faces); on the other axes it takes both +0.5 and -0.5 and nothing else |
| BoxScene.ScaleVertices | aruco/apps/gltf_exporter.cpp:310-315 | in place, each vertex's x, y and z are multiplied by the scaled width, height and depth |
| BoxScene.ScaleCubeVertices | aruco/apps/gltf_exporter.cpp:303-315 | returns the cube scaled by the box size times 0.995 |
| BoxScene.ScaledCubeFaceAxis | aruco/apps/gltf_exporter.cpp:303-315 | corner k of a scaled face is the cube's corner scaled by that axis' factor |
| BoxScene.AlignUp | aruco/apps/gltf_exporter.cpp:290-291 | the start offset is the least multiple of 4 at or above the buffer's length |
| BoxScene.AddBox | aruco/apps/gltf_exporter.cpp:279-360 | returns exactly `WithBox(model, size)`, the scene the box lemmas are about |
| BoxScene.BoxAppends | aruco/apps/gltf_exporter.cpp:287-357 | the box only appends: buffer prefix, views, accessors (+6), materials, meshes, nodes (+1 each) are kept; samplers, images, textures and default scene are unchanged; scene 0 gains the new node |
| BoxScene.BoxViewAligned | aruco/apps/gltf_exporter.cpp:290-299 | the box view is 288 bytes with stride 12, 4-byte aligned, less than 4 bytes after the old end, zero-padded before it, and ends the buffer |
| BoxScene.BoxVertexInBuffer | aruco/apps/gltf_exporter.cpp:299-322 | the float at face f, vertex k, axis a of the box view is the cube coordinate scaled by that axis' factor |
| BoxScene.FaceBoundsExact | aruco/apps/gltf_exporter.cpp:339-346 | for a non-negative size, each face accessor's min and max per axis are exactly the minimum and maximum of that face's scaled coordinates |
| BoxScene.BoxAccessorWiring | aruco/apps/gltf_exporter.cpp:330-346 | face accessor f reads the box view at offset 48f: 4 float VEC3 with the face bounds |
| BoxScene.BoxMeshWiring | aruco/apps/gltf_exporter.cpp:324-355 | the box mesh's primitive f is a triangle fan of face accessor f with the new cardboard material; the new node shows the new mesh |
| BoxScene.BoxKeepsViewsDisjoint | aruco/apps/gltf_exporter.cpp:290-299 | the box view overlaps no earlier view |
| BoxScene.BoxKeepsNamesDistinct | aruco/apps/gltf_exporter.cpp:324-327 | the unnamed box material keeps material names distinct when the earlier names are non-empty |
| BoxScene.FaceAccessorValid | aruco/apps/gltf_exporter.cpp:290-346 | each face accessor is aligned to 4 bytes, counting the box view's rounded-up start, fits the box view and has min <= max |
| BoxScene.BoxKeepsWellFormed | aruco/apps/gltf_exporter.cpp:279-360 | appending a box of non-negative size keeps a well-formed scene well-formed |
| Exporter.ProduceBoxBoard | aruco/apps/gltf_exporter.cpp:279-360 | a box board's scene is its marker scene with the box appended |
| Exporter.ProduceGridBoard | aruco/apps/gltf_exporter.cpp:362-366 | a grid board's scene is its marker scene alone |
| Exporter.ProduceBoard | aruco/apps/gltf_exporter.cpp:527-532 | the visit picks the overload for the board's kind |
| Exporter.BoardSceneWellFormed | aruco/apps/gltf_exporter.cpp:279-366 | either board kind's scene is well-formed (one PNG per marker; non-negative box size) |
| Exporter.BoardSceneViewsDisjoint | aruco/apps/gltf_exporter.cpp:279-366 | no two views of either board kind's scene overlap |
| Exporter.BoardSceneNamesDistinct | aruco/apps/gltf_exporter.cpp:214-218 | material names stay pairwise distinct with the box material |
| Exporter.BoardSceneCounts | aruco/apps/gltf_exporter.cpp:83-360 | one buffer; 2+ids(+1) views; 2n(+6) accessors; n(+1) materials, meshes and nodes; one image and texture per id; one sampler; one default scene listing every node in order |
| Decimal.ParseNatToString | aruco/apps/gltf_exporter.cpp:218 | `std::to_string` of a count reads back as that count |
| Decimal.NatToStringInjective | aruco/apps/gltf_exporter.cpp:218 | distinct numbers have distinct decimal strings |
| Decimal.PrefixedNameInjective | aruco/apps/gltf_exporter.cpp:525 | a fixed prefix followed by the decimal number names different numbers differently |
| Exporter.OutputNamesDistinct | aruco/apps/gltf_exporter.cpp:525-563 | stems, `.glb` names and `.sdf` names coincide only for the same board, and a glb name never equals an sdf name |
| Exporter.ExportBoard | aruco/apps/gltf_exporter.cpp:524-572 | stem `board_<i>`; the board's scene; exactly when SDF is wanted, the balanced NUL-free SDF document named after the stem |
| Sdf.CString | aruco/apps/gltf_exporter.cpp:426 | `c_str()` as the printer reads it: the longest NUL-free prefix, ended by a NUL or by the end of the string |
| Sdf.CStringOfNulFree | aruco/apps/gltf_exporter.cpp:426 | a NUL-free name reaches the printer unchanged |
| Sdf.CStringAppend | aruco/apps/gltf_exporter.cpp:452-453 | `model://` followed by the path is cut at the path's first NUL only |
| Sdf.XmlPrinter.constructor | aruco/apps/gltf_exporter.cpp:417 | a new printer has no open element and no output |
| Sdf.XmlPrinter.PushHeader | aruco/apps/gltf_exporter.cpp:418 | appends the XML declaration when one is asked for; the open elements are kept (the byte order mark is not modelled) |
| Sdf.XmlPrinter.OpenElement | aruco/apps/gltf_exporter.cpp:373 | emits the opening and pushes the name |
| Sdf.XmlPrinter.PushAttribute | aruco/apps/gltf_exporter.cpp:382 | emits a string attribute of the element just opened |
| Sdf.XmlPrinter.PushBoolAttribute | aruco/apps/gltf_exporter.cpp:406 | emits `true` or `false` as an attribute of the element just opened |
| Sdf.XmlPrinter.PushText | aruco/apps/gltf_exporter.cpp:374 | emits text |
| Sdf.XmlPrinter.PushNumber | aruco/apps/gltf_exporter.cpp:393 | emits a number as text |
| Sdf.XmlPrinter.CloseElement | aruco/apps/gltf_exporter.cpp:375 | emits the closing of the innermost open element and pops it |
| Sdf.PrintAppends | aruco/apps/gltf_exporter.cpp:414-467 | printing an element tree appends exactly its serialization (open, attributes, text, children, close) |
| Sdf.PrintAllAppends | aruco/apps/gltf_exporter.cpp:414-467 | printing a list of siblings appends their serializations in order |
| Sdf.SerializeNested | aruco/apps/gltf_exporter.cpp:414-467 | a serialized element closes exactly what it opens, in last-opened-first-closed order |
| Sdf.DocumentBalanced | aruco/apps/gltf_exporter.cpp:418-467 | the declaration followed by a serialized element is balanced |
| Sdf.SerializeNulFree | aruco/apps/gltf_exporter.cpp:414-467 | an element tree with NUL-free names, attributes and text serializes to NUL-free events |
| Sdf.PrintTextElement | aruco/apps/gltf_exporter.cpp:373-375 | open, text, close prints a text element |
| Sdf.PrintStatic | aruco/apps/gltf_exporter.cpp:373-375 | prints `<static>true</static>` |
| Sdf.ProduceModelExtras | aruco/apps/gltf_exporter.cpp:368-376 | a grid board's model extras are the static flag; a box board's are nothing |
| Sdf.PrintSize | aruco/apps/gltf_exporter.cpp:392-398 | prints `<size>` with width, height and depth separated by single spaces |
| Sdf.PrintBoxGeometry | aruco/apps/gltf_exporter.cpp:389-401 | prints geometry, box, size, nested in that order |
| Sdf.PrintCollision | aruco/apps/gltf_exporter.cpp:380-403 | prints the collision named `collision` holding density `10.0` and the box geometry |
| Sdf.PrintInertial | aruco/apps/gltf_exporter.cpp:404-408 | prints `<inertial auto="true"/>` |
| Sdf.ProduceLinkExtras | aruco/apps/gltf_exporter.cpp:378-412 | a box board's link extras are collision then inertial; a grid board's are nothing |
| Sdf.PrintPose | aruco/apps/gltf_exporter.cpp:434-444 | prints the pose `0 0 0 90 0 90` with `degrees="true"` |
| Sdf.PrintVisual | aruco/apps/gltf_exporter.cpp:445-459 | prints the visual named `visual` whose mesh URI is `model://` followed by the path |
| Sdf.PrintLink | aruco/apps/gltf_exporter.cpp:432-465 | prints the link named `link`: pose, visual, then the link extras |
| Sdf.PrintModel | aruco/apps/gltf_exporter.cpp:425-466 | prints the model named after the given name: model extras, then the link |
| Sdf.ProduceSdf | aruco/apps/gltf_exporter.cpp:414-471 | the printed events are the declaration, then exactly the document tree `SdfDocument` |
| Sdf.PrintedDocument | aruco/apps/gltf_exporter.cpp:414-471 | what `produce_sdf` prints is the declaration followed by the document's serialization, balanced and free of NUL |
| Sdf.DocumentRoot | aruco/apps/gltf_exporter.cpp:420-432 | the root is `sdf` with version `1.11`, holding one model named by the name up to its first NUL (the name itself when NUL-free), whose last child is the link |
| Sdf.FindLink | aruco/apps/gltf_exporter.cpp:432-465 | searching the link finds the pose, the URI, and for a box board the collision, size and inertial, and nothing else |
| Sdf.FindDocument | aruco/apps/gltf_exporter.cpp:420-467 | searching the document finds a grid board's static flag, then what the link holds |
| Sdf.GridDocument | aruco/apps/gltf_exporter.cpp:371-376 | a grid board's document has `<static>true</static>` and no collision and no inertial |
| Sdf.BoxDocument | aruco/apps/gltf_exporter.cpp:378-409 | a box board's document has no static flag, one collision named `collision` with density `10.0`, one size listing width, height and depth, and `<inertial auto="true"/>` |
| Sdf.LinkPoseAndUri | aruco/apps/gltf_exporter.cpp:434-459 | every document has one pose `0 0 0 90 0 90` in degrees and one URI, `model://` followed by the path when the path is NUL-free |
| Sdf.SdfDocumentNulFree | aruco/apps/gltf_exporter.cpp:426-453 | no text, name or attribute handed to the printer contains NUL |

## Left out

- Command-line parsing, reading the JSON board list, opening and writing the output files, and the failure diagnostics in `main` (lines 490-584) are left out. `ExportBoard` covers one loop pass without that I/O.
- Exporter.ExportBoard: the path joining the output directory and the glTF file name is a parameter (`gltfPath`). The filesystem path type is not modelled.
- Board construction (`board::make_board`, `board::to_cv`) and the predefined marker dictionary are left out, because they belong to the board-geometry library. The marker corners are a parameter.
- Marker image generation and PNG encoding (`generateImageMarker`, `cv::imencode`) are left out, because they belong to OpenCV. Each id's PNG bytes are a parameter (`pngs`), so the ids themselves drop out.
- Writing the scene as binary glTF (`TinyGLTF::WriteGltfSceneToStream`) is left out, because it is a foreign library. The model stops at the `tinygltf::Model` value.
- tinyxml2's text output (escaping, indentation, number formatting, the byte order mark) is left out, because tinyxml2 is not part of this model. The printer's output is a list of printing events, and numbers stay numbers (`Number`).
- `produce_sdf` writes `CStrSize() - 1` bytes, the printer's text without its terminating NUL. In the model, the returned event list simply has no terminator.
- BoxScene.Product: single-precision arithmetic is not modelled. The 0.995 shrink and the vertex scaling are exact real products, and corner coordinates are reals rather than `float` or `double`.
- FloatBytes.EncodeFloat: the IEEE 754 bit pattern of a float is not modelled. The four bytes of a float are abstract lanes, enough to state that a float array reads back from the buffer.
- BoxScene.FaceBoundsExact: requires a non-negative box size. For a negative size the source's per-face minimum is above its maximum, so no bounds claim holds.
- Exporter.BoardSceneWellFormed: requires a non-negative box size, for the same reason, and one PNG per marker, which the board library guarantees (one id per marker).
- `std::size_t` and `int` widths are not modelled. Indices and offsets are unbounded naturals. The source narrows counts to `int` (lines 161, 165, 174, 228); the accessor index `2 * marker_index` stays below `INT_MAX` only for boards with fewer than 2^30 markers, which every real marker dictionary satisfies.
- MarkerScene.Corners: every marker has exactly four corners. The source converts each marker with `gsl::span<const cv::Point3f, 4>` (line 101) and aborts on any other size. The board library always gives four corners, so that error path is not modelled.
- Gltf.WellFormed: it covers the index, range, stride and alignment rules of section 3.6 of the glTF 2.0 specification. It does not include the rule that a buffer view spans at least one byte. That rule is stated apart, as `Gltf.ViewsNonEmpty`. `MarkerLayout.ViewsNonEmptyIff` shows that the exporter breaks it for a board without markers (two zero-byte views) and for an empty PNG. The other glTF rules (accessor `count` limits, attribute semantics, image and sampler enums) are not modelled.
