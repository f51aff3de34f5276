/**
 * The camera as the input handler drives it. How it orbits, pans and zooms
 * is in a file that is not part of this model; the calls made on it are
 * recorded, in order.
 */
module Cameras {
  import opened Linalg

  datatype CameraCall =
    | Orbit(deltaYaw: real, deltaPitch: real)
    | MoveCenter(direction: Vec3)
    | Zoom(delta: real)

  class Camera {
    var calls: seq<CameraCall>

    /** `orbit(delta_yaw, delta_pitch)`. */
    method Orbit(deltaYaw: real, deltaPitch: real)
      modifies this
      ensures calls == old(calls) + [CameraCall.Orbit(deltaYaw, deltaPitch)]
    {
      calls := calls + [CameraCall.Orbit(deltaYaw, deltaPitch)];
    }

    /** `move_center(direction)`. */
    method MoveCenter(direction: Vec3)
      modifies this
      ensures calls == old(calls) + [CameraCall.MoveCenter(direction)]
    {
      calls := calls + [CameraCall.MoveCenter(direction)];
    }

    /** `zoom(delta)`. */
    method Zoom(delta: real)
      modifies this
      ensures calls == old(calls) + [CameraCall.Zoom(delta)]
    {
      calls := calls + [CameraCall.Zoom(delta)];
    }
  }
}
