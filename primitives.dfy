/**
 * The values that flow through the pipeline: vertices, the fragments the
 * rasteriser produces, and the per-frame uniforms. `Vertex` and `Fragment`
 * are declared in files that are not part of this model; their fields are
 * the ones the shaders and the render loop read and write.
 */
module Primitives {
  import opened Numerics
  import opened Linalg
  import opened Colors

  datatype Vertex = Vertex(
    position: Vec3,
    normal: Vec3,
    texCoords: Vec2,
    color: Color,
    transformedPosition: Vec3,
    transformedNormal: Vec3)

  /** One covered pixel: screen position, depth, the shading coordinate `vertex_position` (whatever the rasteriser stores there) and light intensity. */
  datatype Fragment = Fragment(
    position: Vec2,
    depth: real,
    vertexPosition: Vec3,
    intensity: real)

  /** `Uniforms`: the four matrices of the frame and the frame counter. */
  datatype Uniforms = Uniforms(
    model: Mat4,
    view: Mat4,
    projection: Mat4,
    viewport: Mat4,
    time: u32)
}
