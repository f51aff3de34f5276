/**
 * Scalar numerics of the renderer: `f32` idealised as `real`, the integer
 * widths that appear in the program, the saturating `f32 as usize` cast,
 * and the two libm functions the shaders call (`sqrt`, `sin`), which are
 * passed in rather than defined.
 */
module Numerics {

  /** Rust's `u32`, the type of the frame counter and of packed colours. */
  type u32 = x: int | 0 <= x < 0x1_0000_0000

  /** The largest `usize` on a 64-bit target. */
  const UsizeMax: int := 0xFFFF_FFFF_FFFF_FFFF

  /** `std::f32::consts::PI`, idealised to its decimal expansion. */
  const Pi: real := 3.14159265358979323846

  /**
   * `v as usize` for an `f32` value: Rust casts saturate, so anything below
   * zero becomes 0, anything above the range becomes `usize::MAX`, and the
   * rest is truncated toward zero.
   */
  function AsUsize(v: real): (n: nat)
    ensures n <= UsizeMax
    ensures v < 1.0 ==> n == 0
    ensures 0.0 <= v < UsizeMax as real ==> n as real <= v < n as real + 1.0
    ensures UsizeMax as real <= v ==> n == UsizeMax
  {
    if v < 0.0 then 0
    else if v >= UsizeMax as real then UsizeMax
    else v.Floor
  }

  /**
   * For a bound `limit` that is itself a `usize`, the cast value lies below
   * it exactly when the real value does. There is no lower bound: every
   * negative value passes.
   */
  lemma AsUsizeBelow(v: real, limit: nat)
    requires 1 <= limit <= UsizeMax
    ensures AsUsize(v) < limit <==> v < limit as real
  {
    if 0.0 <= v < UsizeMax as real {
      var n := AsUsize(v);
      if n < limit {
        assert n + 1 <= limit;
        assert v < (n + 1) as real <= limit as real;
      }
    }
  }

  /** The libm functions the program calls, supplied by the caller. */
  datatype Libm = Libm(sqrt: real -> real, sin: real -> real)

  /**
   * What the model assumes of `sqrt` and `sin`: the square root of a
   * non-negative value is the non-negative number whose square it is, and
   * `sin` stays within [-1, 1].
   */
  ghost predicate Lawful(m: Libm)
  {
    && (forall x: real :: 0.0 <= x ==> 0.0 <= m.sqrt(x) && m.sqrt(x) * m.sqrt(x) == x)
    && (forall x: real :: -1.0 <= m.sin(x) <= 1.0)
  }

  /** Squaring is strictly monotone on the non-negative reals. */
  lemma SquareMonotone(a: real, b: real)
    requires 0.0 <= a && 0.0 <= b
    ensures a < b <==> a * a < b * b
  {
    var aa, ab, bb := a * a, a * b, b * b;
    if a < b {
      assert aa <= ab;
      assert ab < bb;
    } else {
      assert bb <= ab;
      assert ab <= aa;
    }
  }

  /** Under `Lawful`, comparing a square root with a constant is comparing squares. */
  lemma SqrtBelow(m: Libm, s: real, c: real)
    requires Lawful(m)
    requires 0.0 <= s && 0.0 <= c
    ensures m.sqrt(s) < c <==> s < c * c
  {
    SquareMonotone(m.sqrt(s), c);
  }

  /** Under `Lawful`, a square root is positive exactly when its argument is. */
  lemma SqrtPositive(m: Libm, s: real)
    requires Lawful(m)
    requires 0.0 <= s
    ensures m.sqrt(s) > 0.0 <==> s > 0.0
  {
    var r := m.sqrt(s);
    assert 0.0 <= r && r * r == s;
    SquareMonotone(0.0, r);
  }
}
