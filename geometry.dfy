/** Values shared by the annotation session and the region extractor. */
module Geometry {

  /** The conventional Some/None datatype. */
  datatype Option<+T> = None | Some(value: T)

  /** A pixel position as the pointer reports it: no ordering constraint, and it may be negative. */
  datatype Point = Point(x: int, y: int)

  /**
   * A rectangle as the session records it: the anchor (where the button went down)
   * and the release point (where it came up). Nothing is normalized at capture time,
   * so the anchor may lie right of or below the release point.
   */
  datatype RawRect = RawRect(anchor: Point, release: Point)
}
