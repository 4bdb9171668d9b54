/**
 * What the exporter receives from the board-geometry library: marker corners
 * (`cv::Point3f`, here with real coordinates) and the two board kinds. Only the
 * fields the exporter reads are kept; the marker layout parameters are consumed
 * by board construction, which is not part of this model.
 */
module Boards {

  datatype Point3 = Point3(x: real, y: real, z: real)

  /** Coordinate `axis` (0 = x, 1 = y, 2 = z) of a point. */
  function Coord(p: Point3, axis: nat): real
    requires axis < 3
  {
    if axis == 0 then p.x else if axis == 1 then p.y else p.z
  }

  /** External dimensions of a box board. */
  datatype BoxSize = BoxSize(width: real, height: real, depth: real)

  datatype BoxSettings = BoxSettings(size: BoxSize)

  datatype GridSettings = GridSettings

  /** `board::ConcreteBoard`, the closed choice between the two kinds. */
  datatype ConcreteBoard = BoxBoard(box: BoxSettings) | GridBoard(grid: GridSettings)
}
