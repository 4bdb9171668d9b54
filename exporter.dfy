/**
 * The exporter's top level in aruco/apps/gltf_exporter.cpp: `produce_board`
 * for each kind of board (the marker scene, with a box appended for a box
 * board), and the per-board output names of `main`. The marker corners and the
 * PNG encoding of each marker's image, which the exporter obtains from the
 * board-geometry library and OpenCV, are parameters here.
 */
module Exporter {
  import opened Wrappers
  import opened Gltf
  import opened Boards
  import opened Decimal
  import opened MarkerScene
  import opened MarkerLayout
  import opened BoxScene
  import opened Sdf

  /** The scene `produce_board` returns: the marker scene, plus the box for a box board. */
  function BoardScene(markers: seq<Corners>, pngs: seq<seq<bv8>>, board: ConcreteBoard): Model
  {
    match board
    case BoxBoard(box) => WithBox(BoardModel(markers, pngs), box.size)
    case GridBoard(_) => BoardModel(markers, pngs)
  }

  /** `produce_board` for a box board: the markers first, then the box. */
  method ProduceBoxBoard(markers: seq<Corners>, pngs: seq<seq<bv8>>, box: BoxSettings) returns (model: Model)
    ensures model == BoardScene(markers, pngs, BoxBoard(box))
  {
    var markerModel := ProduceBoardModel(markers, pngs);
    assert |markerModel.buffers| > 0 && |markerModel.scenes| > 0;
    model := AddBox(markerModel, box.size);
  }

  /** `produce_board` for a grid board: the markers only. */
  method ProduceGridBoard(markers: seq<Corners>, pngs: seq<seq<bv8>>, grid: GridSettings) returns (model: Model)
    ensures model == BoardScene(markers, pngs, GridBoard(grid))
  {
    model := ProduceBoardModel(markers, pngs);
  }

  /** The visit in `main` that picks the `produce_board` overload. */
  method ProduceBoard(markers: seq<Corners>, pngs: seq<seq<bv8>>, board: ConcreteBoard) returns (model: Model)
    ensures model == BoardScene(markers, pngs, board)
  {
    match board
    case BoxBoard(box) => model := ProduceBoxBoard(markers, pngs, box);
    case GridBoard(grid) => model := ProduceGridBoard(markers, pngs, grid);
  }

  predicate NonNegativeSize(board: ConcreteBoard)
  {
    board.BoxBoard? ==> board.box.size.width >= 0.0 && board.box.size.height >= 0.0 && board.box.size.depth >= 0.0
  }

  /** With one image per marker, every index of the exported scene resolves and
      every view and accessor lies inside its buffer or view (for a box of
      non-negative size; a negative size gives the box accessors a minimum
      above their maximum). */
  lemma BoardSceneWellFormed(markers: seq<Corners>, pngs: seq<seq<bv8>>, board: ConcreteBoard)
    requires |pngs| == |markers|
    requires NonNegativeSize(board)
    ensures WellFormed(BoardScene(markers, pngs, board))
  {
    BoardModelWellFormed(markers, pngs);
    if board.BoxBoard? {
      BoxKeepsWellFormed(BoardModel(markers, pngs), board.box.size);
    }
  }

  /** No two buffer views of the exported scene overlap. */
  lemma BoardSceneViewsDisjoint(markers: seq<Corners>, pngs: seq<seq<bv8>>, board: ConcreteBoard)
    ensures ViewsDisjoint(BoardScene(markers, pngs, board).bufferViews)
  {
    ViewsDisjointInBuffer(markers, pngs);
    if board.BoxBoard? {
      var m := BoardModel(markers, pngs);
      ViewsTileBuffer(markers, pngs);
      forall v | v in m.bufferViews
        ensures ViewInBuffer(m, v) && v.buffer == 0
      {
        var k :| 0 <= k < |m.bufferViews| && m.bufferViews[k] == v;
      }
      BoxKeepsViewsDisjoint(m, board.box.size);
    }
  }

  /** Every view of the exported scene spans at least one byte exactly when
      the board has a marker and no PNG is empty; the box view never is empty. */
  lemma BoardSceneViewsNonEmpty(markers: seq<Corners>, pngs: seq<seq<bv8>>, board: ConcreteBoard)
    ensures ViewsNonEmpty(BoardScene(markers, pngs, board).bufferViews)
            <==> |markers| >= 1 && forall k :: 0 <= k < |pngs| ==> |pngs[k]| >= 1
  {
    var base := BoardModel(markers, pngs).bufferViews;
    ViewsNonEmptyIff(markers, pngs);
    if board.BoxBoard? {
      var views := BoardScene(markers, pngs, board).bufferViews;
      BufferLength(markers, pngs);
      assert views == base + [BoxView(views[|base|].byteOffset)];
      assert ViewsNonEmpty(views) <==> ViewsNonEmpty(base) by {
        if ViewsNonEmpty(views) {
          forall v | v in base
            ensures v.byteLength >= 1
          {
            assert v in views;
          }
        }
      }
    }
  }

  /** The material names of the exported scene are pairwise distinct: the
      markers' are numbered and the box's is empty. */
  lemma BoardSceneNamesDistinct(markers: seq<Corners>, pngs: seq<seq<bv8>>, board: ConcreteBoard)
    ensures DistinctMaterialNames(BoardScene(markers, pngs, board).materials)
  {
    MaterialNamesDistinct(markers, pngs);
    if board.BoxBoard? {
      var m := BoardModel(markers, pngs);
      forall mat | mat in m.materials
        ensures mat.name != ""
      {
        var i :| 0 <= i < |m.materials| && m.materials[i] == mat;
        assert |mat.name| >= |MATERIAL_PREFIX|;
      }
      BoxKeepsNamesDistinct(m, board.box.size);
    }
  }

  /** How many of each object the scene holds: two accessors, a material, a
      mesh and a node per marker, one view per marker image, and for a box
      one more view, material, mesh and node and six accessors; the one scene
      shows every node, in order. */
  lemma BoardSceneCounts(markers: seq<Corners>, pngs: seq<seq<bv8>>, board: ConcreteBoard)
    ensures var m := BoardScene(markers, pngs, board);
            var n := |markers|;
            var box := if board.BoxBoard? then 1 else 0;
            && |m.buffers| == 1
            && |m.bufferViews| == 2 + |pngs| + box
            && |m.accessors| == 2 * n + 6 * box
            && |m.materials| == n + box
            && |m.meshes| == n + box
            && |m.nodes| == n + box
            && |m.images| == |pngs| && |m.textures| == |pngs| && |m.samplers| == 1
            && m.scenes == [Scene(Iota(|m.nodes|))] && m.defaultScene == 0
  {
    var base := BoardModel(markers, pngs);
    var n := |markers|;
    BufferLength(markers, pngs);
    if board.BoxBoard? {
      BoxAppends(base, board.box.size);
      var m := WithBox(base, board.box.size);
      assert m.scenes[0].nodes == Iota(n) + [n];
      assert Iota(n) + [n] == Iota(n + 1);
      assert m.scenes == [Scene(Iota(n + 1))];
    }
  }

  // ---------------------------------------------------------------------------
  // Output names

  const OUTPUT_PREFIX: string := "board_"

  /** The stem of the files written for the `i`-th board of the input file. */
  function OutputStem(i: nat): string
  {
    OUTPUT_PREFIX + NatToString(i)
  }

  function GltfFileName(i: nat): string
  {
    OutputStem(i) + ".glb"
  }

  function SdfFileName(i: nat): string
  {
    OutputStem(i) + ".sdf"
  }

  lemma SuffixCancel(a: string, b: string, suffix: string)
    requires a + suffix == b + suffix
    ensures a == b
  {
    assert a == (a + suffix)[..|a|];
    assert b == (b + suffix)[..|b|];
  }

  /** Each board gets files of its own: the names of two boards' files
      coincide only for the same board, and a glTF file is never named like
      an SDF file. */
  lemma OutputNamesDistinct(i: nat, j: nat)
    ensures OutputStem(i) == OutputStem(j) <==> i == j
    ensures GltfFileName(i) == GltfFileName(j) <==> i == j
    ensures SdfFileName(i) == SdfFileName(j) <==> i == j
    ensures GltfFileName(i) != SdfFileName(j)
  {
    PrefixedNameInjective(OUTPUT_PREFIX, i, j);
    if GltfFileName(i) == GltfFileName(j) {
      SuffixCancel(OutputStem(i), OutputStem(j), ".glb");
    }
    if SdfFileName(i) == SdfFileName(j) {
      SuffixCancel(OutputStem(i), OutputStem(j), ".sdf");
    }
    var g := GltfFileName(i);
    var s := SdfFileName(j);
    assert g[|g| - 1] == 'b' && s[|s| - 1] == 'f';
  }

  /** One pass of the loop in `main` without its file I/O: the stem, the
      scene written to the glTF file, and, when SDF output is wanted, the SDF
      events naming the model after the stem and pointing at the glTF file's
      path (`gltfPath`, the output directory joined with `GltfFileName(i)`). */
  method ExportBoard(i: nat, markers: seq<Corners>, pngs: seq<seq<bv8>>, board: ConcreteBoard,
                     gltfPath: string, wantSdf: bool)
    returns (stem: string, model: Model, document: Option<seq<Event>>)
    ensures stem == OutputStem(i)
    ensures model == BoardScene(markers, pngs, board)
    ensures document.Some? <==> wantSdf
    ensures document.Some? ==>
              && document.value == [Declaration(XML_DECLARATION)] + Serialize(SdfDocument(stem, gltfPath, board))
              && Balanced(document.value) && EventsNulFree(document.value)
  {
    stem := OUTPUT_PREFIX + NatToString(i);
    model := ProduceBoard(markers, pngs, board);
    if wantSdf {
      var events := ProduceSdf(stem, gltfPath, board);
      PrintedDocument(stem, gltfPath, board);
      document := Some(events);
    } else {
      document := None;
    }
  }
}
