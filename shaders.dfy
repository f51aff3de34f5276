/**
 * The shaders: the vertex shader, which carries a mesh vertex to the
 * screen, and the fragment shaders, which colour a covered pixel. The
 * fragment shader in use is the sun gradient; the banded gas-planet shader
 * is present but not called.
 */
module Shaders {
  import opened Numerics
  import opened Linalg
  import opened Colors
  import opened Primitives
  import opened Transforms

  // ---------------------------------------------------------------- vertex

  /**
   * `projection * view * model * (position, 1)`: the matrices are multiplied
   * left to right first, which is the same as carrying the point through
   * the model, view and projection transforms in turn.
   */
  function ClipPosition(v: Vertex, u: Uniforms): (c: Vec4)
    ensures c == MulMV4(u.projection, MulMV4(u.view, MulMV4(u.model, Vec4(v.position.x, v.position.y, v.position.z, 1.0))))
  {
    var p := Vec4(v.position.x, v.position.y, v.position.z, 1.0);
    MulMM4Apply(MulMM4(u.projection, u.view), u.model, p);
    MulMM4Apply(u.projection, u.view, MulMV4(u.model, p));
    MulMV4(MulMM4(MulMM4(u.projection, u.view), u.model), p)
  }

  /** The perspective division, with w reset to 1. */
  function Ndc(c: Vec4): (n: Vec4)
    requires c.w != 0.0
    ensures n.w == 1.0
    ensures Vec4(n.x * c.w, n.y * c.w, n.z * c.w, c.w) == c
  {
    Vec4(c.x / c.w, c.y / c.w, c.z / c.w, 1.0)
  }

  /**
   * The normal matrix: the inverse of the transposed upper-left block of the
   * model matrix (a two-sided inverse, by `Linalg.TryInverse3`), or the
   * identity when that block has no inverse.
   */
  function NormalMatrix(model: Mat4): (n: Mat3)
    ensures Det3(Upper3(model)) == 0.0 ==> n == Identity3()
    ensures Det3(Upper3(model)) != 0.0 ==> n == Inverse3(Transpose3(Upper3(model)))
    ensures Det3(Upper3(model)) != 0.0 ==>
              MulMM3(n, Transpose3(Upper3(model))) == Identity3() && MulMM3(Transpose3(Upper3(model)), n) == Identity3()
  {
    Det3Transpose(Upper3(model));
    match TryInverse3(Transpose3(Upper3(model)))
    case Some(inv) => inv
    case None => Identity3()
  }

  /** Transposition keeps the determinant. */
  lemma Det3Transpose(m: Mat3)
    ensures Det3(Transpose3(m)) == Det3(m)
  {
  }

  /**
   * `vertex_shader`: the vertex attributes are copied, the position is
   * projected, divided by w and mapped by the viewport matrix, and the
   * normal is carried by the normal matrix. The division by w is an
   * idealisation: the model demands w != 0 where `f32` would give an
   * infinity or NaN.
   */
  function VertexShader(v: Vertex, u: Uniforms): (r: Vertex)
    requires ClipPosition(v, u).w != 0.0
    ensures r.position == v.position && r.normal == v.normal
    ensures r.texCoords == v.texCoords && r.color == v.color
    ensures r.transformedPosition == Xyz(MulMV4(u.viewport, Ndc(ClipPosition(v, u))))
    ensures r.transformedNormal == MulMV3(NormalMatrix(u.model), v.normal)
  {
    var screen := MulMV4(u.viewport, Ndc(ClipPosition(v, u)));
    Vertex(v.position, v.normal, v.texCoords, v.color,
           Vec3(screen.x, screen.y, screen.z),
           MulMV3(NormalMatrix(u.model), v.normal))
  }

  /**
   * With the viewport matrix of a `width` x `height` framebuffer, the
   * shaded position is the device position (clip position over w) with x
   * shifted and scaled to [0, width], y flipped and scaled to [0, height],
   * and the depth kept.
   */
  lemma ScreenPosition(v: Vertex, u: Uniforms, width: real, height: real)
    requires ClipPosition(v, u).w != 0.0
    requires u.viewport == ViewportMatrix(width, height)
    ensures var n := Ndc(ClipPosition(v, u));
            VertexShader(v, u).transformedPosition == Vec3(width / 2.0 * (n.x + 1.0), height / 2.0 * (1.0 - n.y), n.z)
  {
    ShadedScreenPosition(VertexShader(v, u), Ndc(ClipPosition(v, u)), width, height);
  }

  /** A shaded position that is the viewport image of a device point, in pixel terms. */
  lemma ShadedScreenPosition(r: Vertex, n: Vec4, width: real, height: real)
    requires n.w == 1.0
    requires r.transformedPosition == Xyz(MulMV4(ViewportMatrix(width, height), n))
    ensures r.transformedPosition == Vec3(width / 2.0 * (n.x + 1.0), height / 2.0 * (1.0 - n.y), n.z)
  {
    DeviceToScreen(n, width, height);
  }

  lemma DeviceToScreen(n: Vec4, width: real, height: real)
    requires n.w == 1.0
    ensures Xyz(MulMV4(ViewportMatrix(width, height), n))
         == Vec3(width / 2.0 * (n.x + 1.0), height / 2.0 * (1.0 - n.y), n.z)
  {
    ViewportMaps(width, height, n.x, n.y, n.z);
  }

  /** With identity model, view and projection matrices the clip position is the model position. */
  lemma ClipUnderIdentity(v: Vertex, u: Uniforms)
    requires u.model == Identity4() && u.view == Identity4() && u.projection == Identity4()
    ensures ClipPosition(v, u) == Vec4(v.position.x, v.position.y, v.position.z, 1.0)
  {
    MulMM4IdentityLeft(Identity4());
    MulMM4IdentityLeft(Identity4());
    MulMV4Identity(Vec4(v.position.x, v.position.y, v.position.z, 1.0));
  }

  /** The normal matrix of the identity is the identity. */
  lemma NormalMatrixIdentity()
    ensures NormalMatrix(Identity4()) == Identity3()
  {
    assert Transpose3(Upper3(Identity4())) == Identity3();
    assert Det3(Identity3()) == 1.0;
    MulMM3IdentityRight(NormalMatrix(Identity4()));
  }

  /** An identity model matrix leaves normals as they are. */
  lemma NormalUnderIdentity(v: Vertex, u: Uniforms)
    requires u.model == Identity4()
    requires ClipPosition(v, u).w != 0.0
    ensures VertexShader(v, u).transformedNormal == v.normal
  {
    NormalMatrixIdentity();
    MulMV3Identity(v.normal);
  }

  /**
   * A uniform scaling by s != 0 scales normals by 1 / s: the inverse
   * transpose undoes the scaling rather than repeating it.
   */
  lemma NormalUnderUniformScale(s: real, n: Vec3)
    requires s != 0.0
    ensures MulMV3(NormalMatrix(Mat4(Vec4(s, 0.0, 0.0, 0.0), Vec4(0.0, s, 0.0, 0.0),
                                     Vec4(0.0, 0.0, s, 0.0), Vec4(0.0, 0.0, 0.0, 1.0))), n)
         == Vec3(n.x / s, n.y / s, n.z / s)
  {
  }

  /**
   * Drawn with identity transforms, the model origin is the centre of the
   * device square at depth 0, which the viewport matrix sends to the
   * centre of the screen (`Transforms.ViewportCentre`).
   */
  lemma OriginToCentre(v: Vertex, u: Uniforms)
    requires u.model == Identity4() && u.view == Identity4() && u.projection == Identity4()
    requires v.position == Vec3(0.0, 0.0, 0.0)
    ensures ClipPosition(v, u).w == 1.0
    ensures Ndc(ClipPosition(v, u)) == Vec4(0.0, 0.0, 0.0, 1.0)
  {
    ClipUnderIdentity(v, u);
    NdcOfOrigin(ClipPosition(v, u));
  }

  lemma NdcOfOrigin(c: Vec4)
    requires c == Vec4(0.0, 0.0, 0.0, 1.0)
    ensures Ndc(c) == c
  {
  }

  // -------------------------------------------------------------- fragment

  /**
   * `fragment_shader`: always the sun gradient, whatever the uniforms (the
   * frame counter included); `planet1` is never called.
   */
  function FragmentShader(f: Fragment, u: Uniforms, m: Libm, ops: ColorOps): (c: Color)
    ensures forall w: Uniforms :: c == SunShader(f, w, m, ops)
  {
    SunShader(f, u, m, ops)
  }

  /** Rust's `f32::clamp` on ordered bounds (NaN is not modelled). */
  function Clamp(v: real, lo: real, hi: real): (r: real)
    requires lo <= hi
    ensures lo <= r <= hi
    ensures lo <= v <= hi ==> r == v
  {
    if v < lo then lo else if v > hi then hi else v
  }

  /** The four colours of the sun, from the centre outwards. */
  const SunWhite := Color(255, 255, 255)
  const SunPastel := Color(255, 230, 28)
  const SunAmber := Color(255, 178, 51)
  const SunOrange := Color(204, 102, 0)

  /** Which two colours a gradient position blends, and by how much. */
  datatype Blend = Blend(from: Color, to: Color, factor: real)

  /**
   * The three bands of the sun gradient for a position t in [0, 1]. The
   * first band reaches out to 0.53 although its factor is scaled for a band
   * ending at 0.33, so its factor runs up to 53/33; the second band starts
   * at 0.53 with a factor of 20/33; only the third band keeps its factor
   * within [0, 1].
   */
  function SunGradient(t: real): (b: Blend)
    requires 0.0 <= t <= 1.0
    ensures t < 0.53 ==> b.from == SunWhite && b.to == SunPastel && 0.0 <= b.factor < 53.0 / 33.0
    ensures 0.53 <= t < 0.66 ==> b.from == SunPastel && b.to == SunAmber && 20.0 / 33.0 <= b.factor < 1.0
    ensures 0.66 <= t ==> b.from == SunAmber && b.to == SunOrange && 0.0 <= b.factor <= 1.0
  {
    if t < 0.53 then Blend(SunWhite, SunPastel, t / 0.33)
    else if t < 0.66 then Blend(SunPastel, SunAmber, (t - 0.33) / 0.33)
    else Blend(SunAmber, SunOrange, (t - 0.66) / 0.34)
  }

  /** The squared length of the x and y of the fragment's `vertex_position`. */
  function SqDist(f: Fragment): (s: real)
    ensures 0.0 <= s
  {
    f.vertexPosition.x * f.vertexPosition.x + f.vertexPosition.y * f.vertexPosition.y
  }

  /** `radius.clamp(0.0, 1.0)` for the square root of a squared distance. */
  function ClampedRadius(s: real, m: Libm): (t: real)
    ensures 0.0 <= t <= 1.0
  {
    Clamp(m.sqrt(s), 0.0, 1.0)
  }

  /**
   * Under `Lawful`, the clamped radius lies below a threshold c in (0, 1]
   * exactly when the squared distance lies below c * c, and it is the
   * square root itself inside the unit disc.
   */
  lemma ClampedRadiusBelow(s: real, m: Libm, c: real)
    requires Lawful(m)
    requires 0.0 <= s && 0.0 < c <= 1.0
    ensures ClampedRadius(s, m) < c <==> s < c * c
    ensures s <= 1.0 ==> ClampedRadius(s, m) == m.sqrt(s)
  {
    SqrtBelow(m, s, c);
    SqrtBelow(m, s, 1.0);
    assert 0.0 <= m.sqrt(s);
  }

  /** The length of the x and y of `vertex_position`, clamped to [0, 1]. */
  function SunRadius(f: Fragment, m: Libm): (t: real)
    ensures 0.0 <= t <= 1.0
  {
    ClampedRadius(SqDist(f), m)
  }

  /**
   * `sun_shader`: the gradient colour at the fragment's clamped radius t:
   * white to pastel by t / 0.33 below 0.53, pastel to amber by
   * (t - 0.33) / 0.33 below 0.66, amber to orange by (t - 0.66) / 0.34 from
   * there on.
   */
  function SunShader(f: Fragment, u: Uniforms, m: Libm, ops: ColorOps): (c: Color)
    ensures SunRadius(f, m) < 0.53 ==> c == ops.lerp(SunWhite, SunPastel, SunRadius(f, m) / 0.33)
    ensures 0.53 <= SunRadius(f, m) < 0.66 ==> c == ops.lerp(SunPastel, SunAmber, (SunRadius(f, m) - 0.33) / 0.33)
    ensures 0.66 <= SunRadius(f, m) ==> c == ops.lerp(SunAmber, SunOrange, (SunRadius(f, m) - 0.66) / 0.34)
  {
    var b := SunGradient(SunRadius(f, m));
    ops.lerp(b.from, b.to, b.factor)
  }

  /**
   * Inside radius 0.53 (squared distance below 0.2809) the sun blends white
   * towards pastel yellow by the radius over 0.33.
   */
  lemma SunCore(f: Fragment, u: Uniforms, m: Libm, ops: ColorOps)
    requires Lawful(m)
    requires SqDist(f) < 0.2809
    ensures SunRadius(f, m) < 0.53
    ensures SunShader(f, u, m, ops) == ops.lerp(SunWhite, SunPastel, SunRadius(f, m) / 0.33)
  {
    ClampedRadiusBelow(SqDist(f), m, 0.53);
  }

  /**
   * Between radius 0.53 and 0.66 (squared distance in [0.2809, 0.4356)) the
   * sun blends pastel yellow towards amber.
   */
  lemma SunMiddle(f: Fragment, u: Uniforms, m: Libm, ops: ColorOps)
    requires Lawful(m)
    requires 0.2809 <= SqDist(f) < 0.4356
    ensures 0.53 <= SunRadius(f, m) < 0.66
    ensures SunShader(f, u, m, ops) == ops.lerp(SunPastel, SunAmber, (SunRadius(f, m) - 0.33) / 0.33)
  {
    ClampedRadiusBelow(SqDist(f), m, 0.53);
    ClampedRadiusBelow(SqDist(f), m, 0.66);
  }

  /**
   * From radius 0.66 outwards (squared distance at least 0.4356) the sun
   * blends amber towards dark orange, and from radius 1 on the factor is 1.
   */
  lemma SunRim(f: Fragment, u: Uniforms, m: Libm, ops: ColorOps)
    requires Lawful(m)
    requires 0.4356 <= SqDist(f)
    ensures 0.66 <= SunRadius(f, m)
    ensures SunShader(f, u, m, ops) == ops.lerp(SunAmber, SunOrange, (SunRadius(f, m) - 0.66) / 0.34)
    ensures 1.0 <= SqDist(f) ==> SunShader(f, u, m, ops) == ops.lerp(SunAmber, SunOrange, 1.0)
  {
    ClampedRadiusBelow(SqDist(f), m, 0.66);
    ClampedRadiusBelow(SqDist(f), m, 1.0);
  }

  /** At the centre the sun is the white-to-pastel blend taken with factor 0. */
  lemma SunCentre(f: Fragment, u: Uniforms, m: Libm, ops: ColorOps)
    requires Lawful(m)
    requires f.vertexPosition.x == 0.0 && f.vertexPosition.y == 0.0
    ensures SunShader(f, u, m, ops) == ops.lerp(SunWhite, SunPastel, 0.0)
  {
    SqrtPositive(m, 0.0);
  }

  /**
   * The first band overshoots: at radius 0.5 its factor is 50/33, beyond the
   * pastel end of its blend.
   */
  lemma SunFirstBandOvershoots()
    ensures SunGradient(0.5).factor > 1.0
  {
  }

  /**
   * The gradient jumps at radius 0.53: just inside, the blend has gone past
   * pastel yellow; at 0.53 it restarts part way from pastel towards amber.
   */
  lemma SunJumpAtBandEdge()
    ensures SunGradient(0.52).to == SunPastel && SunGradient(0.52).factor > 1.5
    ensures SunGradient(0.53).from == SunPastel && SunGradient(0.53).factor == 20.0 / 33.0
  {
  }

  /**
   * The sun depends on the fragment only through the x and y of its
   * `vertex_position`: not on the uniforms (time included), the screen
   * position, the depth or the light intensity.
   */
  lemma SunShaderLocal(f: Fragment, g: Fragment, u: Uniforms, w: Uniforms, m: Libm, ops: ColorOps)
    requires f.vertexPosition.x == g.vertexPosition.x && f.vertexPosition.y == g.vertexPosition.y
    ensures FragmentShader(f, u, m, ops) == FragmentShader(g, w, m, ops)
  {
    assert SqDist(f) == SqDist(g);
  }

  /** The two colours of the gas planet's stripes. */
  const PlanetUmber := Color(134, 100, 35)
  const PlanetSand := Color(169, 141, 86)

  /**
   * The stripe factor of `planet1` at height y and frame `time`: a sine of
   * the height shifted by 0.001 per frame, in units of stripes 0.2 wide,
   * mapped from [-1, 1] to [0, 1].
   */
  function StripeFactor(y: real, time: real, m: Libm): real
  {
    m.sin(((y + time * 0.001) / 0.2) * Pi) * 0.5 + 0.5
  }

  /** With a lawful `sin` the stripe factor is a blend weight in [0, 1]. */
  lemma StripeFactorRange(y: real, time: real, m: Libm)
    requires Lawful(m)
    ensures 0.0 <= StripeFactor(y, time, m) <= 1.0
  {
    assert -1.0 <= m.sin(((y + time * 0.001) / 0.2) * Pi) <= 1.0;
  }

  /**
   * The stripes drift: `k` frames later, the factor at height y is the one
   * found 0.001 * k higher up now.
   */
  lemma StripesDrift(y: real, time: real, k: real, m: Libm)
    ensures StripeFactor(y, time + k, m) == StripeFactor(y + k * 0.001, time, m)
  {
    var p, q := y + (time + k) * 0.001, (y + k * 0.001) + time * 0.001;
    assert p == q;
    assert (p / 0.2) * Pi == (q / 0.2) * Pi;
    assert StripeFactor(y, time + k, m) == m.sin((p / 0.2) * Pi) * 0.5 + 0.5;
    assert StripeFactor(y + k * 0.001, time, m) == m.sin((q / 0.2) * Pi) * 0.5 + 0.5;
  }

  /**
   * `planet1`: the umber-to-sand blend weighted by the stripe factor at the
   * fragment's height and the frame counter, scaled by the light intensity;
   * with a lawful `sin` the weight is a blend weight in [0, 1].
   */
  function Planet1(f: Fragment, u: Uniforms, m: Libm, ops: ColorOps): (c: Color)
    ensures c == ops.scale(ops.lerp(PlanetUmber, PlanetSand, StripeFactor(f.vertexPosition.y, u.time as real, m)), f.intensity)
    ensures Lawful(m) ==> exists s: real {:trigger ops.lerp(PlanetUmber, PlanetSand, s)} ::
              0.0 <= s <= 1.0 && c == ops.scale(ops.lerp(PlanetUmber, PlanetSand, s), f.intensity)
  {
    var s := StripeFactor(f.vertexPosition.y, u.time as real, m);
    assert Lawful(m) ==> 0.0 <= s <= 1.0 by {
      if Lawful(m) {
        StripeFactorRange(f.vertexPosition.y, u.time as real, m);
      }
    }
    ops.scale(ops.lerp(PlanetUmber, PlanetSand, s), f.intensity)
  }

  /**
   * The planet's stripes move toward smaller y: at a later frame counter the
   * planet shades a fragment as the earlier frame shaded the height
   * 0.001 higher for every frame in between.
   */
  lemma Planet1Drift(f: Fragment, u: Uniforms, w: Uniforms, m: Libm, ops: ColorOps)
    ensures Planet1(f, w, m, ops)
         == ops.scale(ops.lerp(PlanetUmber, PlanetSand,
              StripeFactor(f.vertexPosition.y + (w.time as real - u.time as real) * 0.001, u.time as real, m)), f.intensity)
  {
    StripesDrift(f.vertexPosition.y, u.time as real, w.time as real - u.time as real, m);
    assert u.time as real + (w.time as real - u.time as real) == w.time as real;
  }

  /**
   * The planet's colour at a fragment is the stripe blend for its height and
   * the frame counter, dimmed by its intensity; the blend weight lies in
   * [0, 1] and nothing but the height, the frame counter and the intensity
   * matters.
   */
  lemma Planet1Shading(f: Fragment, g: Fragment, u: Uniforms, m: Libm, ops: ColorOps)
    requires Lawful(m)
    requires f.vertexPosition.y == g.vertexPosition.y && f.intensity == g.intensity
    ensures 0.0 <= StripeFactor(f.vertexPosition.y, u.time as real, m) <= 1.0
    ensures Planet1(f, u, m, ops) == Planet1(g, u, m, ops)
  {
    StripeFactorRange(f.vertexPosition.y, u.time as real, m);
  }
}
