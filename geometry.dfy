/** Viewport geometry shared by the pointer-driven effects: pointer samples,
    element bounding boxes and 2-D displacements, all in CSS pixels. */
module Geometry {

  /** A displacement or a position local to an element. */
  datatype Point = Point(x: real, y: real)

  const Origin: Point := Point(0.0, 0.0)

  /** The viewport coordinates carried by a pointer event. */
  datatype Pointer = Pointer(clientX: real, clientY: real)

  /** An element's bounding box in viewport coordinates, as the layout reports it. */
  datatype Bounds = Bounds(left: real, top: real, width: real, height: real)

  /** `Math.abs` on a real. */
  function Abs(x: real): (r: real)
    ensures r >= 0.0
    ensures r == x || r == -x
  {
    if x < 0.0 then -x else x
  }

  /** `Math.min` on two reals. */
  function Min(a: real, b: real): (r: real)
    ensures r <= a && r <= b
    ensures r == a || r == b
  {
    if a <= b then a else b
  }
}
