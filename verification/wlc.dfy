/**
 The value types the border code borrows from the compositor library:
 a rectangle with a signed origin and an unsigned size, and an opaque
 output handle.
 */
module Wlc {
  import opened RustTypes

  datatype Point = Point(x: i32, y: i32)

  datatype Size = Size(w: u32, h: u32)

  /** A rectangle on screen: `origin` is its top-left corner. */
  datatype Geometry = Geometry(origin: Point, size: Size)

  /** An output (a physical display); the border code only stores and hands back this handle. */
  datatype Output = Output(handle: nat)

  /**
   The library's `calculate_stride`: the byte width of one pixel row of
   the given width. It is foreign code, so every operation that needs it
   takes it as a parameter; the only assumption is that the stride of an
   allocated width fits `i32` (see `BorderBuffer.Allocate`).
   */
  type Stride = u32 -> u32
}
