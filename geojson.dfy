/**
 * The GeoJSON-shaped values that flow through the pipeline.
 * PHP strings are byte strings; a `string` here holds one char per byte.
 */
module GeoJson {
  import opened Common

  /** One coordinate as PHP holds it: a finite float, or NaN / an infinity. */
  datatype Num = Finite(value: real) | NonFinite

  /**
   * A position [longitude, latitude] or [longitude, latitude, elevation].
   * `z` is None when the third entry is absent or null (PHP `isset` is false).
   */
  datatype Point = Point(x: Num, y: Num, z: Option<real>)

  type Line = seq<Point>

  /**
   * A geometry object. `OtherGeometry` stands for any `type` other than
   * LineString and MultiLineString (including a missing type), with its
   * coordinates read as a list of lines.
   */
  datatype Geometry =
    | LineString(line: Line)
    | MultiLineString(lines: seq<Line>)
    | OtherGeometry(lines: seq<Line>)

  /** Both planar coordinates are finite numbers (PHP `is_finite` on each). */
  predicate Planar(p: Point) {
    p.x.Finite? && p.y.Finite?
  }
}
