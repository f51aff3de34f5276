/**
 * Colours as the shaders see them. The `Color` type lives in a file that is
 * not part of this model; the shaders only build colours from three 8-bit
 * channels, blend two of them (`lerp`), scale one by a light intensity
 * (`Color * f32`) and pack one into `0xRRGGBB` (`to_hex`). Those three
 * operations are passed in as a `ColorOps` value.
 */
module Colors {
  import opened Numerics

  type u8 = x: int | 0 <= x < 256

  datatype Color = Color(r: u8, g: u8, b: u8)

  /** The colour arithmetic the shaders and the render loop call. */
  datatype ColorOps = ColorOps(
    lerp: (Color, Color, real) -> Color,
    scale: (Color, real) -> Color,
    toHex: Color -> u32)
}
