/**
 * `render`: the four stages of the pipeline for one object. Each stage is a
 * loop over a sequence and is proved against a function that specifies
 * it; the last stage writes the accepted fragments into the framebuffer.
 * The triangle rasteriser is in a file that is not part of this model and
 * is passed in.
 */
module Render {
  import opened Numerics
  import opened Linalg
  import opened Colors
  import opened Primitives
  import opened Shaders
  import opened Frame

  datatype Triangle = Triangle(a: Vertex, b: Vertex, c: Vertex)

  /** `triangle(v1, v2, v3)`: the fragments covering a shaded triangle. */
  type Rasterizer = (Vertex, Vertex, Vertex) -> seq<Fragment>

  /** Every vertex has a non-zero clip w, so the perspective division is defined. */
  predicate Drawable(vs: seq<Vertex>, u: Uniforms)
  {
    forall i :: 0 <= i < |vs| ==> ClipPosition(vs[i], u).w != 0.0
  }

  // ------------------------------------------------------- vertex stage

  /** The vertex stage: the vertex shader applied to each vertex, in order. */
  function VertexStage(vs: seq<Vertex>, u: Uniforms): (ts: seq<Vertex>)
    requires Drawable(vs, u)
    ensures |ts| == |vs|
    ensures forall i :: 0 <= i < |vs| ==> ts[i] == VertexShader(vs[i], u)
  {
    if vs == [] then []
    else [VertexShader(vs[0], u)] + VertexStage(vs[1..], u)
  }

  /** The vertex shader loop of `render`. */
  method TransformVertices(vs: seq<Vertex>, u: Uniforms) returns (ts: seq<Vertex>)
    requires Drawable(vs, u)
    ensures ts == VertexStage(vs, u)
  {
    ts := [];
    for i := 0 to |vs|
      invariant |ts| == i
      invariant forall j :: 0 <= j < i ==> ts[j] == VertexShader(vs[j], u)
    {
      ts := ts + [VertexShader(vs[i], u)];
    }
  }

  // ---------------------------------------------------- primitive stage

  /**
   * Primitive assembly: consecutive groups of three vertices become
   * triangles; a trailing group of one or two vertices is dropped.
   */
  function Assemble(ts: seq<Vertex>): (tris: seq<Triangle>)
    ensures |tris| == |ts| / 3
    ensures forall k :: 0 <= k < |tris| ==> tris[k] == Triangle(ts[3 * k], ts[3 * k + 1], ts[3 * k + 2])
  {
    if |ts| < 3 then []
    else [Triangle(ts[0], ts[1], ts[2])] + Assemble(ts[3..])
  }

  /** Assembling two runs, the first a whole number of triangles, assembles each. */
  lemma {:induction false} AssembleAppend(a: seq<Vertex>, b: seq<Vertex>)
    requires |a| % 3 == 0
    ensures Assemble(a + b) == Assemble(a) + Assemble(b)
  {
    if |a| != 0 {
      assert (a + b)[3..] == a[3..] + b;
      AssembleAppend(a[3..], b);
    }
  }

  /**
   * The primitive assembly loop of `render`: i runs over 0, 3, 6, ... below
   * the vertex count, and a triangle is pushed when i + 2 is still in range.
   */
  method AssemblePrimitives(ts: seq<Vertex>) returns (tris: seq<Triangle>)
    ensures tris == Assemble(ts)
  {
    tris := [];
    var i := 0;
    while i < |ts|
      invariant 0 <= i && i % 3 == 0
      invariant |tris| == (if i <= |ts| then i else |ts|) / 3
      invariant forall k :: 0 <= k < |tris| ==> tris[k] == Triangle(ts[3 * k], ts[3 * k + 1], ts[3 * k + 2])
      decreases |ts| - i
    {
      if i + 2 < |ts| {
        tris := tris + [Triangle(ts[i], ts[i + 1], ts[i + 2])];
      }
      i := i + 3;
    }
  }

  // ---------------------------------------------------- raster stage

  /** The fragments the rasteriser makes of one triangle. */
  function Covered(t: Triangle, raster: Rasterizer): seq<Fragment>
  {
    raster(t.a, t.b, t.c)
  }

  /**
   * Rasterisation: the fragments of each triangle, triangle after triangle.
   * Nothing is lost (every triangle's fragments are all there, as often as
   * the rasteriser made them) and nothing is invented (every fragment comes
   * from one of the triangles).
   */
  function Rasterize(tris: seq<Triangle>, raster: Rasterizer): (frags: seq<Fragment>)
    ensures forall k :: 0 <= k < |tris| ==> multiset(Covered(tris[k], raster)) <= multiset(frags)
    ensures forall fr :: fr in frags ==> exists k :: 0 <= k < |tris| && fr in Covered(tris[k], raster)
  {
    if tris == [] then []
    else
      var init, t := tris[..|tris| - 1], tris[|tris| - 1];
      var frags := Rasterize(init, raster) + Covered(t, raster);
      assert multiset(frags) == multiset(Rasterize(init, raster)) + multiset(Covered(t, raster));
      assert forall k :: 0 <= k < |init| ==> init[k] == tris[k];
      frags
  }

  /** Rasterising two runs of triangles concatenates their fragments. */
  lemma {:induction false} RasterizeAppend(a: seq<Triangle>, b: seq<Triangle>, raster: Rasterizer)
    ensures Rasterize(a + b, raster) == Rasterize(a, raster) + Rasterize(b, raster)
  {
    if b != [] {
      assert (a + b)[..|a + b| - 1] == a + b[..|b| - 1];
      RasterizeAppend(a, b[..|b| - 1], raster);
    } else {
      assert a + b == a;
    }
  }

  /** The rasterisation loop of `render`. */
  method RasterizeAll(tris: seq<Triangle>, raster: Rasterizer) returns (frags: seq<Fragment>)
    ensures frags == Rasterize(tris, raster)
  {
    frags := [];
    for i := 0 to |tris|
      invariant frags == Rasterize(tris[..i], raster)
    {
      assert tris[..i + 1][..i] == tris[..i];
      frags := frags + Covered(tris[i], raster);
    }
    assert tris[..|tris|] == tris;
  }

  /** The fragments of a vertex array: vertex stage, assembly, rasterisation. */
  function Fragments(vs: seq<Vertex>, u: Uniforms, raster: Rasterizer): seq<Fragment>
    requires Drawable(vs, u)
  {
    Rasterize(Assemble(VertexStage(vs, u)), raster)
  }

  // --------------------------------------------------- fragment stage

  /**
   * The bounds test of the fragment loop: both coordinates, cast to `usize`
   * with saturation, lie below the framebuffer size.
   */
  predicate Accepts(f: Fragment, width: nat, height: nat)
  {
    AsUsize(f.position.x) < width && AsUsize(f.position.y) < height
  }

  /**
   * For a framebuffer of at least one pixel each way, a fragment is kept
   * exactly when its real coordinates lie below the width and height.
   * There is no lower bound: the saturating cast sends every negative
   * coordinate to row or column 0.
   */
  lemma AcceptsExactly(f: Fragment, width: nat, height: nat)
    requires 1 <= width <= UsizeMax && 1 <= height <= UsizeMax
    ensures Accepts(f, width, height) <==> f.position.x < width as real && f.position.y < height as real
    ensures f.position.x < 0.0 ==> AsUsize(f.position.x) == 0
  {
    AsUsizeBelow(f.position.x, width);
    AsUsizeBelow(f.position.y, height);
  }

  /** The point call made for an accepted fragment: its pixel, depth and shaded colour. */
  function Write(f: Fragment, u: Uniforms, m: Libm, ops: ColorOps): PointCall
  {
    PointCall(AsUsize(f.position.x), AsUsize(f.position.y), f.depth,
              ops.toHex(FragmentShader(f, u, m, ops)))
  }

  /**
   * The point calls the fragment loop makes: one per accepted fragment, in
   * fragment order, none for the others; every one is inside the buffer.
   */
  function FragmentWrites(frags: seq<Fragment>, width: nat, height: nat, u: Uniforms, m: Libm, ops: ColorOps)
    : (ws: seq<PointCall>)
    ensures |ws| <= |frags|
    ensures forall i :: 0 <= i < |ws| ==> ws[i].x < width && ws[i].y < height
  {
    if frags == [] then []
    else
      var f := frags[|frags| - 1];
      FragmentWrites(frags[..|frags| - 1], width, height, u, m, ops)
      + (if Accepts(f, width, height) then [Write(f, u, m, ops)] else [])
  }

  /** The writes for two runs of fragments are the writes of each, in order. */
  lemma {:induction false} FragmentWritesAppend(a: seq<Fragment>, b: seq<Fragment>, width: nat, height: nat,
                                                u: Uniforms, m: Libm, ops: ColorOps)
    ensures FragmentWrites(a + b, width, height, u, m, ops)
         == FragmentWrites(a, width, height, u, m, ops) + FragmentWrites(b, width, height, u, m, ops)
  {
    if b != [] {
      assert (a + b)[..|a + b| - 1] == a + b[..|b| - 1];
      FragmentWritesAppend(a, b[..|b| - 1], width, height, u, m, ops);
    } else {
      assert a + b == a;
    }
  }

  /** When every fragment is accepted, fragment i makes the i-th write. */
  lemma {:induction false} AllAcceptedAllWritten(frags: seq<Fragment>, width: nat, height: nat,
                                                 u: Uniforms, m: Libm, ops: ColorOps)
    requires forall i :: 0 <= i < |frags| ==> Accepts(frags[i], width, height)
    ensures |FragmentWrites(frags, width, height, u, m, ops)| == |frags|
    ensures forall i :: 0 <= i < |frags| ==> FragmentWrites(frags, width, height, u, m, ops)[i] == Write(frags[i], u, m, ops)
  {
    if frags != [] {
      var init := frags[..|frags| - 1];
      AllAcceptedAllWritten(init, width, height, u, m, ops);
    }
  }

  /** When no fragment is accepted, nothing is written. */
  lemma {:induction false} NoneAcceptedNoneWritten(frags: seq<Fragment>, width: nat, height: nat,
                                                   u: Uniforms, m: Libm, ops: ColorOps)
    requires forall i :: 0 <= i < |frags| ==> !Accepts(frags[i], width, height)
    ensures FragmentWrites(frags, width, height, u, m, ops) == []
  {
    if frags != [] {
      NoneAcceptedNoneWritten(frags[..|frags| - 1], width, height, u, m, ops);
    }
  }

  /** The colour left current after a run of writes: the last one's, or the old one. */
  function LastColor(ws: seq<PointCall>, old_color: u32): u32
  {
    if ws == [] then old_color else ws[|ws| - 1].color
  }

  // ------------------------------------------------------------ render

  /**
   * The fragment loop of `render`: each fragment whose saturated pixel
   * coordinates fall inside the buffer is shaded, its colour made current
   * and its point drawn; the others are skipped.
   */
  method ShadeFragments(fb: Framebuffer, fragments: seq<Fragment>, u: Uniforms, m: Libm, ops: ColorOps)
    requires fb.Valid()
    modifies fb
    ensures fb.points == old(fb.points) + FragmentWrites(fragments, fb.width, fb.height, u, m, ops)
    ensures fb.currentColor == LastColor(FragmentWrites(fragments, fb.width, fb.height, u, m, ops), old(fb.currentColor))
    ensures fb.Valid()
  {
    for i := 0 to |fragments|
      invariant fb.points == old(fb.points) + FragmentWrites(fragments[..i], fb.width, fb.height, u, m, ops)
      invariant fb.currentColor == LastColor(FragmentWrites(fragments[..i], fb.width, fb.height, u, m, ops),
                                             old(fb.currentColor))
      invariant fb.Valid()
    {
      var fragment := fragments[i];
      assert fragments[..i + 1][..i] == fragments[..i];
      var x := AsUsize(fragment.position.x);
      var y := AsUsize(fragment.position.y);
      if x < fb.width && y < fb.height {
        var color := ops.toHex(FragmentShader(fragment, u, m, ops));
        fb.SetCurrentColor(color);
        fb.Point(x, y, fragment.depth);
      }
    }
    assert fragments[..|fragments|] == fragments;
  }

  /**
   * `render(framebuffer, uniforms, vertex_array, id)`: runs the stages and
   * makes exactly the point calls `FragmentWrites` lists for the
   * pipeline's fragments, each in the colour its fragment was shaded with;
   * the colour left current is that of the last write. `id` is not used.
   */
  method Render(fb: Framebuffer, u: Uniforms, vertexArray: seq<Vertex>, id: real,
                m: Libm, ops: ColorOps, raster: Rasterizer)
    requires Drawable(vertexArray, u)
    requires fb.Valid()
    modifies fb
    ensures fb.points == old(fb.points) + FragmentWrites(Fragments(vertexArray, u, raster), fb.width, fb.height, u, m, ops)
    ensures fb.currentColor == LastColor(FragmentWrites(Fragments(vertexArray, u, raster), fb.width, fb.height, u, m, ops),
                                         old(fb.currentColor))
    ensures fb.Valid()
  {
    var transformed := TransformVertices(vertexArray, u);
    var triangles := AssemblePrimitives(transformed);
    var fragments := RasterizeAll(triangles, raster);
    ShadeFragments(fb, fragments, u, m, ops);
  }
}
