/** Small shared vocabulary of the drawing surface: optional values, the two
    drawing tools and pointer positions in canvas-local coordinates. */
module Basics {

  /** A value that may be absent (a missing canvas, no pending frame, ...). */
  datatype Option<+T> = None | Some(value: T)

  /** The two drawing tools (`"pen" | "eraser"` in the source). */
  datatype Tool = Pen | Eraser

  /** A canvas-local position. Browser coordinates are floating point; they
      are modelled as exact reals. */
  datatype Point = Point(x: real, y: real)

  /** One pointer sample: where the pointer is and the pressure it reports. */
  datatype Sample = Sample(at: Point, pressure: real)
}
