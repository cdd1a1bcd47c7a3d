/** The value types shared by the geometry and image code. */
module Geometry {
  /** An integer point (euclid's `Point2D<N>`). */
  datatype Point = Point(x: int, y: int)

  /** Width and height (euclid's `Size2D<N>`). */
  datatype Size = Size(width: int, height: int)

  /** A grey pixel value (the image crate's `Luma<u8>`). */
  type Byte = v: int | 0 <= v < 256
}
