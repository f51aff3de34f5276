/**
 * The part of nalgebra-glm the renderer uses, over `real`: vectors, 3x3 and
 * 4x4 matrices stored by rows (the order `Mat4::new` takes its entries),
 * products, transposition, the upper-left block and the 3x3 inverse.
 */
module Linalg {

  datatype Option<T> = None | Some(value: T)

  datatype Vec2 = Vec2(x: real, y: real)
  datatype Vec3 = Vec3(x: real, y: real, z: real)
  datatype Vec4 = Vec4(x: real, y: real, z: real, w: real)

  datatype Mat3 = Mat3(r0: Vec3, r1: Vec3, r2: Vec3)
  datatype Mat4 = Mat4(r0: Vec4, r1: Vec4, r2: Vec4, r3: Vec4)

  function Dot3(a: Vec3, b: Vec3): real { a.x * b.x + a.y * b.y + a.z * b.z }
  function Dot4(a: Vec4, b: Vec4): real { a.x * b.x + a.y * b.y + a.z * b.z + a.w * b.w }

  /** `m * v` for a column vector `v`. */
  function MulMV3(m: Mat3, v: Vec3): Vec3 { Vec3(Dot3(m.r0, v), Dot3(m.r1, v), Dot3(m.r2, v)) }
  function MulMV4(m: Mat4, v: Vec4): Vec4 { Vec4(Dot4(m.r0, v), Dot4(m.r1, v), Dot4(m.r2, v), Dot4(m.r3, v)) }

  function Transpose3(m: Mat3): Mat3
  {
    Mat3(Vec3(m.r0.x, m.r1.x, m.r2.x),
         Vec3(m.r0.y, m.r1.y, m.r2.y),
         Vec3(m.r0.z, m.r1.z, m.r2.z))
  }

  /** `a * b`: entry (i, j) is row i of `a` against column j of `b`. */
  function MulMM3(a: Mat3, b: Mat3): Mat3
  {
    Mat3(Vec3(a.r0.x * b.r0.x + a.r0.y * b.r1.x + a.r0.z * b.r2.x,
              a.r0.x * b.r0.y + a.r0.y * b.r1.y + a.r0.z * b.r2.y,
              a.r0.x * b.r0.z + a.r0.y * b.r1.z + a.r0.z * b.r2.z),
         Vec3(a.r1.x * b.r0.x + a.r1.y * b.r1.x + a.r1.z * b.r2.x,
              a.r1.x * b.r0.y + a.r1.y * b.r1.y + a.r1.z * b.r2.y,
              a.r1.x * b.r0.z + a.r1.y * b.r1.z + a.r1.z * b.r2.z),
         Vec3(a.r2.x * b.r0.x + a.r2.y * b.r1.x + a.r2.z * b.r2.x,
              a.r2.x * b.r0.y + a.r2.y * b.r1.y + a.r2.z * b.r2.y,
              a.r2.x * b.r0.z + a.r2.y * b.r1.z + a.r2.z * b.r2.z))
  }

  /** `a * b`: row i is row i of `a` times `b`. */
  function MulMM4(a: Mat4, b: Mat4): Mat4
  {
    Mat4(RowTimes4(a.r0, b), RowTimes4(a.r1, b), RowTimes4(a.r2, b), RowTimes4(a.r3, b))
  }

  /** A row vector times `b`: the rows of `b` weighted by the row's entries. */
  function RowTimes4(r: Vec4, b: Mat4): Vec4
  {
    Add4(Add4(Scale4(r.x, b.r0), Scale4(r.y, b.r1)), Add4(Scale4(r.z, b.r2), Scale4(r.w, b.r3)))
  }

  /** `k * u` and `u + w` on homogeneous vectors. */
  function Scale4(k: real, u: Vec4): Vec4 { Vec4(u.x * k, u.y * k, u.z * k, u.w * k) }
  function Add4(u: Vec4, w: Vec4): Vec4 { Vec4(u.x + w.x, u.y + w.y, u.z + w.z, u.w + w.w) }

  function Identity3(): Mat3 { Mat3(Vec3(1.0, 0.0, 0.0), Vec3(0.0, 1.0, 0.0), Vec3(0.0, 0.0, 1.0)) }

  function Identity4(): Mat4
  {
    Mat4(Vec4(1.0, 0.0, 0.0, 0.0), Vec4(0.0, 1.0, 0.0, 0.0),
         Vec4(0.0, 0.0, 1.0, 0.0), Vec4(0.0, 0.0, 0.0, 1.0))
  }

  /** `mat4_to_mat3`: the upper-left 3x3 block. */
  function Upper3(m: Mat4): Mat3
  {
    Mat3(Vec3(m.r0.x, m.r0.y, m.r0.z), Vec3(m.r1.x, m.r1.y, m.r1.z), Vec3(m.r2.x, m.r2.y, m.r2.z))
  }

  /** Xyz of a homogeneous vector, as `Vec3::new(v.x, v.y, v.z)`. */
  function Xyz(v: Vec4): Vec3 { Vec3(v.x, v.y, v.z) }

  function Det3(m: Mat3): real
  {
    DetOf(m.r0.x, m.r0.y, m.r0.z, m.r1.x, m.r1.y, m.r1.z, m.r2.x, m.r2.y, m.r2.z)
  }

  /** The determinant of [[a, b, c], [d, e, f], [g, h, i]], expanded along its first row. */
  function DetOf(a: real, b: real, c: real, d: real, e: real, f: real, g: real, h: real, i: real): real
  {
    a * (e * i - f * h) - b * (d * i - f * g) + c * (d * h - e * g)
  }

  /** The adjugate: the transposed matrix of cofactors. */
  function Adjugate3(m: Mat3): Mat3
  {
    AdjugateOf(m.r0.x, m.r0.y, m.r0.z, m.r1.x, m.r1.y, m.r1.z, m.r2.x, m.r2.y, m.r2.z)
  }

  function AdjugateOf(a: real, b: real, c: real, d: real, e: real, f: real, g: real, h: real, i: real): Mat3
  {
    Mat3(Vec3(e * i - f * h, c * h - b * i, b * f - c * e),
         Vec3(f * g - d * i, a * i - c * g, c * d - a * f),
         Vec3(d * h - e * g, b * g - a * h, a * e - b * d))
  }

  /**
   * The inverse of a matrix with non-zero determinant, as nalgebra computes
   * it: each entry of the adjugate divided by the determinant.
   */
  function Inverse3(m: Mat3): Mat3
    requires Det3(m) != 0.0
  {
    var a := Adjugate3(m);
    var d := Det3(m);
    Mat3(Vec3(a.r0.x / d, a.r0.y / d, a.r0.z / d),
         Vec3(a.r1.x / d, a.r1.y / d, a.r1.z / d),
         Vec3(a.r2.x / d, a.r2.y / d, a.r2.z / d))
  }

  /** Row 0 of the adjugate against the columns of `m`: the determinant on the diagonal, 0 elsewhere. */
  lemma AdjugateRow0(m: Mat3)
    ensures Dot3(Adjugate3(m).r0, Vec3(m.r0.x, m.r1.x, m.r2.x)) == Det3(m)
    ensures Dot3(Adjugate3(m).r0, Vec3(m.r0.y, m.r1.y, m.r2.y)) == 0.0
    ensures Dot3(Adjugate3(m).r0, Vec3(m.r0.z, m.r1.z, m.r2.z)) == 0.0
  {
    AdjugateTimes0(m.r0.x, m.r0.y, m.r0.z, m.r1.x, m.r1.y, m.r1.z, m.r2.x, m.r2.y, m.r2.z);
  }

  /** Row 1 of the adjugate against the columns of `m`: the determinant on the diagonal, 0 elsewhere. */
  lemma AdjugateRow1(m: Mat3)
    ensures Dot3(Adjugate3(m).r1, Vec3(m.r0.x, m.r1.x, m.r2.x)) == 0.0
    ensures Dot3(Adjugate3(m).r1, Vec3(m.r0.y, m.r1.y, m.r2.y)) == Det3(m)
    ensures Dot3(Adjugate3(m).r1, Vec3(m.r0.z, m.r1.z, m.r2.z)) == 0.0
  {
    AdjugateTimes1(m.r0.x, m.r0.y, m.r0.z, m.r1.x, m.r1.y, m.r1.z, m.r2.x, m.r2.y, m.r2.z);
  }

  /** Row 2 of the adjugate against the columns of `m`: the determinant on the diagonal, 0 elsewhere. */
  lemma AdjugateRow2(m: Mat3)
    ensures Dot3(Adjugate3(m).r2, Vec3(m.r0.x, m.r1.x, m.r2.x)) == 0.0
    ensures Dot3(Adjugate3(m).r2, Vec3(m.r0.y, m.r1.y, m.r2.y)) == 0.0
    ensures Dot3(Adjugate3(m).r2, Vec3(m.r0.z, m.r1.z, m.r2.z)) == Det3(m)
  {
    AdjugateTimes2(m.r0.x, m.r0.y, m.r0.z, m.r1.x, m.r1.y, m.r1.z, m.r2.x, m.r2.y, m.r2.z);
  }


  /** The adjugate against the columns of [[a, b, c], [d, e, f], [g, h, i]]: the determinant on the diagonal, 0 elsewhere. */
  lemma AdjugateTimes0(a: real, b: real, c: real, d: real, e: real, f: real, g: real, h: real, i: real)
    ensures Dot3(AdjugateOf(a, b, c, d, e, f, g, h, i).r0, Vec3(a, d, g)) == DetOf(a, b, c, d, e, f, g, h, i)
    ensures Dot3(AdjugateOf(a, b, c, d, e, f, g, h, i).r0, Vec3(b, e, h)) == 0.0
    ensures Dot3(AdjugateOf(a, b, c, d, e, f, g, h, i).r0, Vec3(c, f, i)) == 0.0
  {
    AdjugateTimes00(a, b, c, d, e, f, g, h, i);
    AdjugateTimes01(a, b, c, d, e, f, g, h, i);
    AdjugateTimes02(a, b, c, d, e, f, g, h, i);
  }

  lemma AdjugateTimes00(a: real, b: real, c: real, d: real, e: real, f: real, g: real, h: real, i: real)
    ensures Dot3(AdjugateOf(a, b, c, d, e, f, g, h, i).r0, Vec3(a, d, g)) == DetOf(a, b, c, d, e, f, g, h, i)
  {
  }

  lemma AdjugateTimes01(a: real, b: real, c: real, d: real, e: real, f: real, g: real, h: real, i: real)
    ensures Dot3(AdjugateOf(a, b, c, d, e, f, g, h, i).r0, Vec3(b, e, h)) == 0.0
  {
  }

  lemma AdjugateTimes02(a: real, b: real, c: real, d: real, e: real, f: real, g: real, h: real, i: real)
    ensures Dot3(AdjugateOf(a, b, c, d, e, f, g, h, i).r0, Vec3(c, f, i)) == 0.0
  {
  }

  lemma AdjugateTimes1(a: real, b: real, c: real, d: real, e: real, f: real, g: real, h: real, i: real)
    ensures Dot3(AdjugateOf(a, b, c, d, e, f, g, h, i).r1, Vec3(a, d, g)) == 0.0
    ensures Dot3(AdjugateOf(a, b, c, d, e, f, g, h, i).r1, Vec3(b, e, h)) == DetOf(a, b, c, d, e, f, g, h, i)
    ensures Dot3(AdjugateOf(a, b, c, d, e, f, g, h, i).r1, Vec3(c, f, i)) == 0.0
  {
    AdjugateTimes10(a, b, c, d, e, f, g, h, i);
    AdjugateTimes11(a, b, c, d, e, f, g, h, i);
    AdjugateTimes12(a, b, c, d, e, f, g, h, i);
  }

  lemma AdjugateTimes10(a: real, b: real, c: real, d: real, e: real, f: real, g: real, h: real, i: real)
    ensures Dot3(AdjugateOf(a, b, c, d, e, f, g, h, i).r1, Vec3(a, d, g)) == 0.0
  {
  }

  lemma AdjugateTimes11(a: real, b: real, c: real, d: real, e: real, f: real, g: real, h: real, i: real)
    ensures Dot3(AdjugateOf(a, b, c, d, e, f, g, h, i).r1, Vec3(b, e, h)) == DetOf(a, b, c, d, e, f, g, h, i)
  {
  }

  lemma AdjugateTimes12(a: real, b: real, c: real, d: real, e: real, f: real, g: real, h: real, i: real)
    ensures Dot3(AdjugateOf(a, b, c, d, e, f, g, h, i).r1, Vec3(c, f, i)) == 0.0
  {
  }

  lemma AdjugateTimes2(a: real, b: real, c: real, d: real, e: real, f: real, g: real, h: real, i: real)
    ensures Dot3(AdjugateOf(a, b, c, d, e, f, g, h, i).r2, Vec3(a, d, g)) == 0.0
    ensures Dot3(AdjugateOf(a, b, c, d, e, f, g, h, i).r2, Vec3(b, e, h)) == 0.0
    ensures Dot3(AdjugateOf(a, b, c, d, e, f, g, h, i).r2, Vec3(c, f, i)) == DetOf(a, b, c, d, e, f, g, h, i)
  {
    AdjugateTimes20(a, b, c, d, e, f, g, h, i);
    AdjugateTimes21(a, b, c, d, e, f, g, h, i);
    AdjugateTimes22(a, b, c, d, e, f, g, h, i);
  }

  lemma AdjugateTimes20(a: real, b: real, c: real, d: real, e: real, f: real, g: real, h: real, i: real)
    ensures Dot3(AdjugateOf(a, b, c, d, e, f, g, h, i).r2, Vec3(a, d, g)) == 0.0
  {
  }

  lemma AdjugateTimes21(a: real, b: real, c: real, d: real, e: real, f: real, g: real, h: real, i: real)
    ensures Dot3(AdjugateOf(a, b, c, d, e, f, g, h, i).r2, Vec3(b, e, h)) == 0.0
  {
  }

  lemma AdjugateTimes22(a: real, b: real, c: real, d: real, e: real, f: real, g: real, h: real, i: real)
    ensures Dot3(AdjugateOf(a, b, c, d, e, f, g, h, i).r2, Vec3(c, f, i)) == DetOf(a, b, c, d, e, f, g, h, i)
  {
  }

  /** The rows of [[a, b, c], [d, e, f], [g, h, i]] against the columns of its adjugate. */
  lemma TimesAdjugate0(a: real, b: real, c: real, d: real, e: real, f: real, g: real, h: real, i: real)
    ensures Dot3(Vec3(a, b, c), Vec3(AdjugateOf(a, b, c, d, e, f, g, h, i).r0.x, AdjugateOf(a, b, c, d, e, f, g, h, i).r1.x, AdjugateOf(a, b, c, d, e, f, g, h, i).r2.x)) == DetOf(a, b, c, d, e, f, g, h, i)
    ensures Dot3(Vec3(a, b, c), Vec3(AdjugateOf(a, b, c, d, e, f, g, h, i).r0.y, AdjugateOf(a, b, c, d, e, f, g, h, i).r1.y, AdjugateOf(a, b, c, d, e, f, g, h, i).r2.y)) == 0.0
    ensures Dot3(Vec3(a, b, c), Vec3(AdjugateOf(a, b, c, d, e, f, g, h, i).r0.z, AdjugateOf(a, b, c, d, e, f, g, h, i).r1.z, AdjugateOf(a, b, c, d, e, f, g, h, i).r2.z)) == 0.0
  {
    TimesAdjugate00(a, b, c, d, e, f, g, h, i);
    TimesAdjugate01(a, b, c, d, e, f, g, h, i);
    TimesAdjugate02(a, b, c, d, e, f, g, h, i);
  }

  lemma TimesAdjugate00(a: real, b: real, c: real, d: real, e: real, f: real, g: real, h: real, i: real)
    ensures Dot3(Vec3(a, b, c), Vec3(AdjugateOf(a, b, c, d, e, f, g, h, i).r0.x, AdjugateOf(a, b, c, d, e, f, g, h, i).r1.x, AdjugateOf(a, b, c, d, e, f, g, h, i).r2.x)) == DetOf(a, b, c, d, e, f, g, h, i)
  {
  }

  lemma TimesAdjugate01(a: real, b: real, c: real, d: real, e: real, f: real, g: real, h: real, i: real)
    ensures Dot3(Vec3(a, b, c), Vec3(AdjugateOf(a, b, c, d, e, f, g, h, i).r0.y, AdjugateOf(a, b, c, d, e, f, g, h, i).r1.y, AdjugateOf(a, b, c, d, e, f, g, h, i).r2.y)) == 0.0
  {
  }

  lemma TimesAdjugate02(a: real, b: real, c: real, d: real, e: real, f: real, g: real, h: real, i: real)
    ensures Dot3(Vec3(a, b, c), Vec3(AdjugateOf(a, b, c, d, e, f, g, h, i).r0.z, AdjugateOf(a, b, c, d, e, f, g, h, i).r1.z, AdjugateOf(a, b, c, d, e, f, g, h, i).r2.z)) == 0.0
  {
  }

  lemma TimesAdjugate1(a: real, b: real, c: real, d: real, e: real, f: real, g: real, h: real, i: real)
    ensures Dot3(Vec3(d, e, f), Vec3(AdjugateOf(a, b, c, d, e, f, g, h, i).r0.x, AdjugateOf(a, b, c, d, e, f, g, h, i).r1.x, AdjugateOf(a, b, c, d, e, f, g, h, i).r2.x)) == 0.0
    ensures Dot3(Vec3(d, e, f), Vec3(AdjugateOf(a, b, c, d, e, f, g, h, i).r0.y, AdjugateOf(a, b, c, d, e, f, g, h, i).r1.y, AdjugateOf(a, b, c, d, e, f, g, h, i).r2.y)) == DetOf(a, b, c, d, e, f, g, h, i)
    ensures Dot3(Vec3(d, e, f), Vec3(AdjugateOf(a, b, c, d, e, f, g, h, i).r0.z, AdjugateOf(a, b, c, d, e, f, g, h, i).r1.z, AdjugateOf(a, b, c, d, e, f, g, h, i).r2.z)) == 0.0
  {
    TimesAdjugate10(a, b, c, d, e, f, g, h, i);
    TimesAdjugate11(a, b, c, d, e, f, g, h, i);
    TimesAdjugate12(a, b, c, d, e, f, g, h, i);
  }

  lemma TimesAdjugate10(a: real, b: real, c: real, d: real, e: real, f: real, g: real, h: real, i: real)
    ensures Dot3(Vec3(d, e, f), Vec3(AdjugateOf(a, b, c, d, e, f, g, h, i).r0.x, AdjugateOf(a, b, c, d, e, f, g, h, i).r1.x, AdjugateOf(a, b, c, d, e, f, g, h, i).r2.x)) == 0.0
  {
  }

  lemma TimesAdjugate11(a: real, b: real, c: real, d: real, e: real, f: real, g: real, h: real, i: real)
    ensures Dot3(Vec3(d, e, f), Vec3(AdjugateOf(a, b, c, d, e, f, g, h, i).r0.y, AdjugateOf(a, b, c, d, e, f, g, h, i).r1.y, AdjugateOf(a, b, c, d, e, f, g, h, i).r2.y)) == DetOf(a, b, c, d, e, f, g, h, i)
  {
  }

  lemma TimesAdjugate12(a: real, b: real, c: real, d: real, e: real, f: real, g: real, h: real, i: real)
    ensures Dot3(Vec3(d, e, f), Vec3(AdjugateOf(a, b, c, d, e, f, g, h, i).r0.z, AdjugateOf(a, b, c, d, e, f, g, h, i).r1.z, AdjugateOf(a, b, c, d, e, f, g, h, i).r2.z)) == 0.0
  {
  }

  lemma TimesAdjugate2(a: real, b: real, c: real, d: real, e: real, f: real, g: real, h: real, i: real)
    ensures Dot3(Vec3(g, h, i), Vec3(AdjugateOf(a, b, c, d, e, f, g, h, i).r0.x, AdjugateOf(a, b, c, d, e, f, g, h, i).r1.x, AdjugateOf(a, b, c, d, e, f, g, h, i).r2.x)) == 0.0
    ensures Dot3(Vec3(g, h, i), Vec3(AdjugateOf(a, b, c, d, e, f, g, h, i).r0.y, AdjugateOf(a, b, c, d, e, f, g, h, i).r1.y, AdjugateOf(a, b, c, d, e, f, g, h, i).r2.y)) == 0.0
    ensures Dot3(Vec3(g, h, i), Vec3(AdjugateOf(a, b, c, d, e, f, g, h, i).r0.z, AdjugateOf(a, b, c, d, e, f, g, h, i).r1.z, AdjugateOf(a, b, c, d, e, f, g, h, i).r2.z)) == DetOf(a, b, c, d, e, f, g, h, i)
  {
    TimesAdjugate20(a, b, c, d, e, f, g, h, i);
    TimesAdjugate21(a, b, c, d, e, f, g, h, i);
    TimesAdjugate22(a, b, c, d, e, f, g, h, i);
  }

  lemma TimesAdjugate20(a: real, b: real, c: real, d: real, e: real, f: real, g: real, h: real, i: real)
    ensures Dot3(Vec3(g, h, i), Vec3(AdjugateOf(a, b, c, d, e, f, g, h, i).r0.x, AdjugateOf(a, b, c, d, e, f, g, h, i).r1.x, AdjugateOf(a, b, c, d, e, f, g, h, i).r2.x)) == 0.0
  {
  }

  lemma TimesAdjugate21(a: real, b: real, c: real, d: real, e: real, f: real, g: real, h: real, i: real)
    ensures Dot3(Vec3(g, h, i), Vec3(AdjugateOf(a, b, c, d, e, f, g, h, i).r0.y, AdjugateOf(a, b, c, d, e, f, g, h, i).r1.y, AdjugateOf(a, b, c, d, e, f, g, h, i).r2.y)) == 0.0
  {
  }

  lemma TimesAdjugate22(a: real, b: real, c: real, d: real, e: real, f: real, g: real, h: real, i: real)
    ensures Dot3(Vec3(g, h, i), Vec3(AdjugateOf(a, b, c, d, e, f, g, h, i).r0.z, AdjugateOf(a, b, c, d, e, f, g, h, i).r1.z, AdjugateOf(a, b, c, d, e, f, g, h, i).r2.z)) == DetOf(a, b, c, d, e, f, g, h, i)
  {
  }

  /** Dividing a row by `d` divides each of its products with a column by `d`. */
  lemma DotScaled(p: Vec3, c: Vec3, d: real)
    requires d != 0.0
    ensures Dot3(Vec3(p.x / d, p.y / d, p.z / d), c) == Dot3(p, c) / d
  {
    assert p.x / d * c.x == p.x * c.x / d;
    assert p.y / d * c.y == p.y * c.y / d;
    assert p.z / d * c.z == p.z * c.z / d;
  }

  /** Row `r` of `a * b`, as the products of row `r` of `a` with the columns of `b`. */
  lemma ProductRow0(a: Mat3, b: Mat3)
    ensures MulMM3(a, b).r0 == Vec3(Dot3(a.r0, Vec3(b.r0.x, b.r1.x, b.r2.x)), Dot3(a.r0, Vec3(b.r0.y, b.r1.y, b.r2.y)), Dot3(a.r0, Vec3(b.r0.z, b.r1.z, b.r2.z)))
  {
  }

  lemma ProductRow1(a: Mat3, b: Mat3)
    ensures MulMM3(a, b).r1 == Vec3(Dot3(a.r1, Vec3(b.r0.x, b.r1.x, b.r2.x)), Dot3(a.r1, Vec3(b.r0.y, b.r1.y, b.r2.y)), Dot3(a.r1, Vec3(b.r0.z, b.r1.z, b.r2.z)))
  {
  }

  lemma ProductRow2(a: Mat3, b: Mat3)
    ensures MulMM3(a, b).r2 == Vec3(Dot3(a.r2, Vec3(b.r0.x, b.r1.x, b.r2.x)), Dot3(a.r2, Vec3(b.r0.y, b.r1.y, b.r2.y)), Dot3(a.r2, Vec3(b.r0.z, b.r1.z, b.r2.z)))
  {
  }

  /** The inverse undoes the matrix: `Inverse3(m) * m` is the identity. */
  lemma InverseLeft(m: Mat3)
    requires Det3(m) != 0.0
    ensures MulMM3(Inverse3(m), m) == Identity3()
  {
    var a, d := Adjugate3(m), Det3(m);
    var c0, c1, c2 := Vec3(m.r0.x, m.r1.x, m.r2.x), Vec3(m.r0.y, m.r1.y, m.r2.y), Vec3(m.r0.z, m.r1.z, m.r2.z);
    ProductRow0(Inverse3(m), m);
    ProductRow1(Inverse3(m), m);
    ProductRow2(Inverse3(m), m);
    AdjugateRow0(m);
    AdjugateRow1(m);
    AdjugateRow2(m);
    DotScaled(a.r0, c0, d); DotScaled(a.r0, c1, d); DotScaled(a.r0, c2, d);
    DotScaled(a.r1, c0, d); DotScaled(a.r1, c1, d); DotScaled(a.r1, c2, d);
    DotScaled(a.r2, c0, d); DotScaled(a.r2, c1, d); DotScaled(a.r2, c2, d);
  }

  /** Row 0 of `m` against the columns of its adjugate. */
  lemma RowAdjugate0(m: Mat3)
    ensures Dot3(m.r0, Vec3(Adjugate3(m).r0.x, Adjugate3(m).r1.x, Adjugate3(m).r2.x)) == Det3(m)
    ensures Dot3(m.r0, Vec3(Adjugate3(m).r0.y, Adjugate3(m).r1.y, Adjugate3(m).r2.y)) == 0.0
    ensures Dot3(m.r0, Vec3(Adjugate3(m).r0.z, Adjugate3(m).r1.z, Adjugate3(m).r2.z)) == 0.0
  {
    TimesAdjugate0(m.r0.x, m.r0.y, m.r0.z, m.r1.x, m.r1.y, m.r1.z, m.r2.x, m.r2.y, m.r2.z);
  }

  /** Row 1 of `m` against the columns of its adjugate. */
  lemma RowAdjugate1(m: Mat3)
    ensures Dot3(m.r1, Vec3(Adjugate3(m).r0.x, Adjugate3(m).r1.x, Adjugate3(m).r2.x)) == 0.0
    ensures Dot3(m.r1, Vec3(Adjugate3(m).r0.y, Adjugate3(m).r1.y, Adjugate3(m).r2.y)) == Det3(m)
    ensures Dot3(m.r1, Vec3(Adjugate3(m).r0.z, Adjugate3(m).r1.z, Adjugate3(m).r2.z)) == 0.0
  {
    TimesAdjugate1(m.r0.x, m.r0.y, m.r0.z, m.r1.x, m.r1.y, m.r1.z, m.r2.x, m.r2.y, m.r2.z);
  }

  /** Row 2 of `m` against the columns of its adjugate. */
  lemma RowAdjugate2(m: Mat3)
    ensures Dot3(m.r2, Vec3(Adjugate3(m).r0.x, Adjugate3(m).r1.x, Adjugate3(m).r2.x)) == 0.0
    ensures Dot3(m.r2, Vec3(Adjugate3(m).r0.y, Adjugate3(m).r1.y, Adjugate3(m).r2.y)) == 0.0
    ensures Dot3(m.r2, Vec3(Adjugate3(m).r0.z, Adjugate3(m).r1.z, Adjugate3(m).r2.z)) == Det3(m)
  {
    TimesAdjugate2(m.r0.x, m.r0.y, m.r0.z, m.r1.x, m.r1.y, m.r1.z, m.r2.x, m.r2.y, m.r2.z);
  }

  lemma ScaledDot(p: Vec3, c: Vec3, d: real)
    requires d != 0.0
    ensures Dot3(p, Vec3(c.x / d, c.y / d, c.z / d)) == Dot3(p, c) / d
  {
    assert p.x * (c.x / d) == p.x * c.x / d;
    assert p.y * (c.y / d) == p.y * c.y / d;
    assert p.z * (c.z / d) == p.z * c.z / d;
  }

  /** `m * Inverse3(m)` is the identity too. */
  lemma InverseRight(m: Mat3)
    requires Det3(m) != 0.0
    ensures MulMM3(m, Inverse3(m)) == Identity3()
  {
    var a, d := Adjugate3(m), Det3(m);
    var c0, c1, c2 := Vec3(a.r0.x, a.r1.x, a.r2.x), Vec3(a.r0.y, a.r1.y, a.r2.y), Vec3(a.r0.z, a.r1.z, a.r2.z);
    ProductRow0(m, Inverse3(m));
    ProductRow1(m, Inverse3(m));
    ProductRow2(m, Inverse3(m));
    RowAdjugate0(m);
    RowAdjugate1(m);
    RowAdjugate2(m);
    ScaledDot(m.r0, c0, d); ScaledDot(m.r0, c1, d); ScaledDot(m.r0, c2, d);
    ScaledDot(m.r1, c0, d); ScaledDot(m.r1, c1, d); ScaledDot(m.r1, c2, d);
    ScaledDot(m.r2, c0, d); ScaledDot(m.r2, c1, d); ScaledDot(m.r2, c2, d);
  }

  /**
   * `try_inverse` on a 3x3 matrix: no inverse when the determinant is zero,
   * otherwise the cofactor inverse, which is a two-sided inverse.
   */
  function TryInverse3(m: Mat3): (r: Option<Mat3>)
    ensures r.None? <==> Det3(m) == 0.0
    ensures r.Some? ==> r.value == Inverse3(m)
    ensures r.Some? ==> MulMM3(r.value, m) == Identity3() && MulMM3(m, r.value) == Identity3()
  {
    if Det3(m) == 0.0 then None
    else
      InverseLeft(m);
      InverseRight(m);
      Some(Inverse3(m))
  }

  lemma DotAdd(u: Vec4, w: Vec4, v: Vec4)
    ensures Dot4(Add4(u, w), v) == Dot4(u, v) + Dot4(w, v)
  {
  }

  lemma DotScale(k: real, u: Vec4, v: Vec4)
    ensures Dot4(Scale4(k, u), v) == k * Dot4(u, v)
  {
  }

  /** A row times `b`, then against `v`, is the row against `b * v`. */
  lemma RowThenColumn(r: Vec4, b: Mat4, v: Vec4)
    ensures Dot4(RowTimes4(r, b), v) == Dot4(r, MulMV4(b, v))
  {
    var s0, s1, s2, s3 := Scale4(r.x, b.r0), Scale4(r.y, b.r1), Scale4(r.z, b.r2), Scale4(r.w, b.r3);
    DotAdd(Add4(s0, s1), Add4(s2, s3), v);
    DotAdd(s0, s1, v);
    DotAdd(s2, s3, v);
    DotScale(r.x, b.r0, v);
    DotScale(r.y, b.r1, v);
    DotScale(r.z, b.r2, v);
    DotScale(r.w, b.r3, v);
  }

  /** Applying a product of matrices is applying its factors, right to left. */
  lemma MulMM4Apply(a: Mat4, b: Mat4, v: Vec4)
    ensures MulMV4(MulMM4(a, b), v) == MulMV4(a, MulMV4(b, v))
  {
    RowThenColumn(a.r0, b, v);
    RowThenColumn(a.r1, b, v);
    RowThenColumn(a.r2, b, v);
    RowThenColumn(a.r3, b, v);
  }

  lemma MulMM3IdentityRight(m: Mat3)
    ensures MulMM3(m, Identity3()) == m
  {
  }

  lemma MulMV3Identity(v: Vec3)
    ensures MulMV3(Identity3(), v) == v
  {
  }

  lemma MulMV4Identity(v: Vec4)
    ensures MulMV4(Identity4(), v) == v
  {
  }

  lemma MulMM4IdentityLeft(m: Mat4)
    ensures MulMM4(Identity4(), m) == m
  {
    WeightsOneZero(m.r0, m.r1, m.r2, m.r3);
  }

  /** The rows of the identity pick out one row each: weight 1 on it, 0 on the others. */
  lemma WeightsOneZero(p: Vec4, q: Vec4, s: Vec4, t: Vec4)
    ensures Scale4(1.0, p) == p && Scale4(1.0, q) == q && Scale4(1.0, s) == s && Scale4(1.0, t) == t
    ensures Scale4(0.0, p) == Vec4(0.0, 0.0, 0.0, 0.0) && Scale4(0.0, q) == Vec4(0.0, 0.0, 0.0, 0.0)
    ensures Scale4(0.0, s) == Vec4(0.0, 0.0, 0.0, 0.0) && Scale4(0.0, t) == Vec4(0.0, 0.0, 0.0, 0.0)
  {
  }
}
