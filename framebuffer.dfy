/**
 * The framebuffer as the render loop uses it. Its pixel and depth buffers
 * and the depth test inside `point` are in a file that is not part of this
 * model; what the render loop does to it is recorded instead: the colour it
 * sets and every `point(x, y, depth)` call, with the colour current at the
 * time of the call.
 */
module Frame {
  import opened Numerics

  /** One `point(x, y, depth)` call, drawn in colour `color`. */
  datatype PointCall = PointCall(x: nat, y: nat, depth: real, color: u32)

  class Framebuffer {
    const width: nat
    const height: nat
    var currentColor: u32
    var points: seq<PointCall>

    /** Every recorded point call lies inside the buffer. */
    ghost predicate Valid()
      reads this
    {
      forall i :: 0 <= i < |points| ==> points[i].x < width && points[i].y < height
    }

    /** `set_current_color`. */
    method SetCurrentColor(color: u32)
      modifies this
      ensures currentColor == color && points == old(points)
      ensures Valid() == old(Valid())
    {
      currentColor := color;
    }

    /**
     * `point(x, y, depth)`: callers keep (x, y) inside the buffer; the call
     * is recorded with the current colour.
     */
    method Point(x: nat, y: nat, depth: real)
      requires x < width && y < height
      requires Valid()
      modifies this
      ensures points == old(points) + [PointCall(x, y, depth, currentColor)]
      ensures currentColor == old(currentColor)
      ensures Valid()
    {
      points := points + [PointCall(x, y, depth, currentColor)];
    }
  }
}
