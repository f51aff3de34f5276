/**
 * The viewport matrix built once per frame, which carries normalised device
 * coordinates ([-1, 1] on each axis, y up) to pixel coordinates (origin at
 * the top-left corner, y down).
 */
module Transforms {
  import opened Linalg

  /** `create_viewport_matrix(width, height)`; where it sends points is `ViewportMaps`. */
  function ViewportMatrix(width: real, height: real): Mat4
  {
    Mat4(Vec4(width / 2.0, 0.0, 0.0, width / 2.0),
         Vec4(0.0, -height / 2.0, 0.0, height / 2.0),
         Vec4(0.0, 0.0, 1.0, 0.0),
         Vec4(0.0, 0.0, 0.0, 1.0))
  }

  /**
   * The viewport map on a point with w = 1: x is shifted by one and scaled
   * by half the width, y is flipped and scaled by half the height, z and w
   * are kept.
   */
  lemma ViewportMaps(width: real, height: real, x: real, y: real, z: real)
    ensures MulMV4(ViewportMatrix(width, height), Vec4(x, y, z, 1.0))
         == Vec4(width / 2.0 * (x + 1.0), height / 2.0 * (1.0 - y), z, 1.0)
  {
  }

  /** The top-left corner (-1, 1) of the device square lands on pixel (0, 0). */
  lemma ViewportTopLeft(width: real, height: real)
    ensures Xyz(MulMV4(ViewportMatrix(width, height), Vec4(-1.0, 1.0, 0.0, 1.0))) == Vec3(0.0, 0.0, 0.0)
  {
  }

  /** The centre of the device square lands on the middle of the screen. */
  lemma ViewportCentre(width: real, height: real)
    ensures Xyz(MulMV4(ViewportMatrix(width, height), Vec4(0.0, 0.0, 0.0, 1.0))) == Vec3(width / 2.0, height / 2.0, 0.0)
  {
    var p := MulMV4(ViewportMatrix(width, height), Vec4(0.0, 0.0, 0.0, 1.0));
    assert p.x == width / 2.0 * 0.0 + 0.0 * 0.0 + 0.0 * 0.0 + width / 2.0 * 1.0;
    assert p.y == 0.0 * 0.0 + -height / 2.0 * 0.0 + 0.0 * 0.0 + height / 2.0 * 1.0;
  }

  /** The bottom-right corner (1, -1) lands on (width, height). */
  lemma ViewportBottomRight(width: real, height: real)
    ensures Xyz(MulMV4(ViewportMatrix(width, height), Vec4(1.0, -1.0, 0.0, 1.0))) == Vec3(width, height, 0.0)
  {
  }

  /**
   * Every point of the device square lands inside the screen rectangle
   * [0, width] x [0, height].
   */
  lemma ViewportInside(width: real, height: real, x: real, y: real, z: real)
    requires 0.0 <= width && 0.0 <= height
    requires -1.0 <= x <= 1.0 && -1.0 <= y <= 1.0
    ensures 0.0 <= MulMV4(ViewportMatrix(width, height), Vec4(x, y, z, 1.0)).x <= width
    ensures 0.0 <= MulMV4(ViewportMatrix(width, height), Vec4(x, y, z, 1.0)).y <= height
  {
    HalfScaled(width, x + 1.0);
    HalfScaled(height, 1.0 - y);
  }

  /** `size / 2 * u` lies in [0, size] for `u` in [0, 2]. */
  lemma HalfScaled(size: real, u: real)
    requires 0.0 <= size && 0.0 <= u <= 2.0
    ensures 0.0 <= size / 2.0 * u <= size
  {
    var half := size / 2.0;
    assert 0.0 <= half;
    assert half * u <= half * 2.0;
  }
}
