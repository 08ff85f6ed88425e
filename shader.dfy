/** The two shaders of the full-screen quad: the vertex shader that gives
    each of the six vertices a clip-space corner and one corner of each
    rectangle, and the BLURRY fragment shader's choice of sample points. */
module Shader {
  import opened Geometry

  /** A point in texture space (`vec2` in the shaders). */
  datatype UV = UV(u: real, v: real)

  /** Vertex ids of `glDrawArrays(GL_TRIANGLES, 0, 6)`. */
  type VertexId = i: int | 0 <= i < 6

  /** The four corners of the quad: Q0 top left, Q1 top right, Q2 bottom
      right, Q3 bottom left. */
  datatype Corner = Q0 | Q1 | Q2 | Q3

  /** The `IS_Q*` tests of the vertex shader. */
  function CornerOf(id: VertexId): Corner {
    if id == 0 || id == 3 then Q0
    else if id == 1 then Q1
    else if id == 2 || id == 4 then Q2
    else Q3
  }

  /** Clip-space position of a corner. */
  function ClipOf(c: Corner): UV {
    match c
    case Q0 => UV(-1.0, 1.0)
    case Q1 => UV(1.0, 1.0)
    case Q2 => UV(1.0, -1.0)
    case Q3 => UV(-1.0, -1.0)
  }

  /** The swizzle of a rectangle uniform read at a corner: `.xy`, `.zy`,
      `.zw` or `.xw` of (x0, y0, x1, y1). */
  function Swizzle(r: Rect, c: Corner): UV {
    match c
    case Q0 => UV(r.x0, r.y0)
    case Q1 => UV(r.x1, r.y0)
    case Q2 => UV(r.x1, r.y1)
    case Q3 => UV(r.x0, r.y1)
  }

  /** What the vertex shader outputs for one vertex. */
  datatype VertexOut = VertexOut(pos: UV, uv0: UV, uv1: UV)

  /** The vertex shader's `if` chain: each branch sets the clip position
      and reads both rectangle uniforms with its own swizzle. */
  function VertexShader(id: VertexId, rect0: Rect, rect1: Rect): VertexOut {
    if id == 0 || id == 3 then
      VertexOut(UV(-1.0, 1.0), UV(rect0.x0, rect0.y0), UV(rect1.x0, rect1.y0))
    else if id == 1 then
      VertexOut(UV(1.0, 1.0), UV(rect0.x1, rect0.y0), UV(rect1.x1, rect1.y0))
    else if id == 2 || id == 4 then
      VertexOut(UV(1.0, -1.0), UV(rect0.x1, rect0.y1), UV(rect1.x1, rect1.y1))
    else
      VertexOut(UV(-1.0, -1.0), UV(rect0.x0, rect0.y1), UV(rect1.x0, rect1.y1))
  }

  /** Every branch agrees with the corner its test names: the clip
      position is that corner's, and both rectangles are read at it. */
  lemma VertexIsCorner(id: VertexId, rect0: Rect, rect1: Rect)
    ensures var c := CornerOf(id);
      VertexShader(id, rect0, rect1) == VertexOut(ClipOf(c), Swizzle(rect0, c), Swizzle(rect1, c))
  {
  }

  /** Twice the signed area of a triangle of clip positions. */
  function Cross(a: UV, b: UV, c: UV): real {
    (b.u - a.u) * (c.v - a.v) - (b.v - a.v) * (c.u - a.u)
  }

  /** Vertices 0 and 3 coincide, as do 2 and 4; each triangle has three
      distinct corners and together they use all four; they share exactly
      the diagonal Q0-Q2, so they tile the quad; both have the same
      winding. */
  lemma QuadTriangles(rect0: Rect, rect1: Rect)
    ensures VertexShader(0, rect0, rect1) == VertexShader(3, rect0, rect1)
    ensures VertexShader(2, rect0, rect1) == VertexShader(4, rect0, rect1)
    ensures CornerOf(0) != CornerOf(1) && CornerOf(1) != CornerOf(2) && CornerOf(0) != CornerOf(2)
    ensures CornerOf(3) != CornerOf(4) && CornerOf(4) != CornerOf(5) && CornerOf(3) != CornerOf(5)
    ensures {CornerOf(0), CornerOf(1), CornerOf(2), CornerOf(3), CornerOf(4), CornerOf(5)} == {Q0, Q1, Q2, Q3}
    ensures {CornerOf(0), CornerOf(1), CornerOf(2)} * {CornerOf(3), CornerOf(4), CornerOf(5)} == {Q0, Q2}
    ensures Cross(ClipOf(CornerOf(0)), ClipOf(CornerOf(1)), ClipOf(CornerOf(2))) ==
            Cross(ClipOf(CornerOf(3)), ClipOf(CornerOf(4)), ClipOf(CornerOf(5))) == -4.0
  {
  }

  /** Clip corner and texture corner agree: the left edge (-1) takes x0,
      the right (+1) x1, the top (+1) y0 and the bottom (-1) y1, for both
      rectangles alike. */
  lemma CornersAgree(id: VertexId, rect0: Rect, rect1: Rect)
    ensures var o := VertexShader(id, rect0, rect1);
      (o.pos.u == -1.0 || o.pos.u == 1.0) && (o.pos.v == -1.0 || o.pos.v == 1.0) &&
      (o.pos.u == -1.0 ==> o.uv0.u == rect0.x0 && o.uv1.u == rect1.x0) &&
      (o.pos.u == 1.0 ==> o.uv0.u == rect0.x1 && o.uv1.u == rect1.x1) &&
      (o.pos.v == 1.0 ==> o.uv0.v == rect0.y0 && o.uv1.v == rect1.y0) &&
      (o.pos.v == -1.0 ==> o.uv0.v == rect0.y1 && o.uv1.v == rect1.y1)
  {
  }

  /** Both rectangles go through the same swizzle: in every branch the
      read of `u_rect1` mirrors the read of `u_rect0`. */
  lemma SameSwizzle(id: VertexId, rect0: Rect, rect1: Rect)
    ensures VertexShader(id, rect0, rect1).uv1 == VertexShader(id, rect1, rect0).uv0
  {
  }

  // ---- BLURRY fragment shader ----

  /** Number of samples per fragment. */
  const N: int := 8

  /** GLSL `mix`: x * (1 - a) + y * a. */
  function Mix(x: UV, y: UV, a: real): UV {
    UV(x.u * (1.0 - a) + y.u * a, x.v * (1.0 - a) + y.v * a)
  }

  /** The parameter of sample i along the line from v_uv0 to v_uv1. */
  function Param(i: int): real {
    i as real / N as real
  }

  function SamplePoint(uv0: UV, uv1: UV, i: int): UV {
    Mix(uv0, uv1, Param(i))
  }

  /** The inclusion test: only points of the unit square are sampled. */
  predicate InUnit(p: UV) {
    0.0 <= p.u <= 1.0 && 0.0 <= p.v <= 1.0
  }

  /** One colour channel of the captured image, as a function of position.
      Texel values are not modelled; only where the shader looks. */
  type Texture = UV -> real

  /** The contribution of sample i: its texel if included, else nothing. */
  function Contribution(tex: Texture, uv0: UV, uv1: UV, i: int): real {
    var p := SamplePoint(uv0, uv1, i);
    if InUnit(p) then tex(p) else 0.0
  }

  /** The accumulator after the first k samples. */
  function Accumulated(tex: Texture, uv0: UV, uv1: UV, k: nat): real {
    if k == 0 then 0.0 else Accumulated(tex, uv0, uv1, k - 1) + Contribution(tex, uv0, uv1, k - 1)
  }

  /** Number of included samples among the first k. */
  function IncludedCount(uv0: UV, uv1: UV, k: nat): nat {
    if k == 0 then 0 else IncludedCount(uv0, uv1, k - 1) + (if InUnit(SamplePoint(uv0, uv1, k - 1)) then 1 else 0)
  }

  /** The colour channel the fragment ends with: the sum of included
      samples divided by the fixed N. */
  function BlurryColor(tex: Texture, uv0: UV, uv1: UV): real {
    Accumulated(tex, uv0, uv1, N) * (1.0 / N as real)
  }

  /** The fragment shader's loop, per channel. */
  method Blurry(tex: Texture, uv0: UV, uv1: UV) returns (acc: real)
    ensures acc == BlurryColor(tex, uv0, uv1)
  {
    acc := 0.0;
    for i := 0 to N
      invariant acc == Accumulated(tex, uv0, uv1, i)
    {
      var uv := Mix(uv0, uv1, i as real / N as real);
      if 0.0 <= uv.u && uv.u <= 1.0 && 0.0 <= uv.v && uv.v <= 1.0 {
        acc := acc + tex(uv);
      }
    }
    acc := acc * (1.0 / N as real);
  }

  /** Sample parameters are 0, 1/8, ..., 7/8: the line is never sampled at
      v_uv1 itself unless it coincides with v_uv0. */
  lemma SamplesStopShortOfEnd(uv0: UV, uv1: UV, i: int)
    requires 0 <= i < N
    ensures 0.0 <= Param(i) < 1.0
    ensures SamplePoint(uv0, uv1, i) == uv1 ==> uv0 == uv1
    ensures i == 0 ==> SamplePoint(uv0, uv1, i) == uv0
  {
    var a := Param(i);
    if SamplePoint(uv0, uv1, i) == uv1 {
      assert (uv1.u - uv0.u) * (1.0 - a) == 0.0;
      assert (uv1.v - uv0.v) * (1.0 - a) == 0.0;
    }
  }

  /** With no divergence every sample is the same point. */
  lemma {:induction false} NoDivergenceAccumulates(tex: Texture, uv: UV, k: nat)
    requires InUnit(uv)
    ensures Accumulated(tex, uv, uv, k) == k as real * tex(uv)
  {
    if k > 0 {
      NoDivergenceAccumulates(tex, uv, k - 1);
      var a := Param(k - 1);
      assert SamplePoint(uv, uv, k - 1) == uv by {
        assert uv.u * (1.0 - a) + uv.u * a == uv.u;
        assert uv.v * (1.0 - a) + uv.v * a == uv.v;
      }
      assert Contribution(tex, uv, uv, k - 1) == tex(uv);
      assert (k - 1) as real * tex(uv) + tex(uv) == k as real * tex(uv);
    }
  }

  /** Zero divergence and an in-range point give the crisp texel. */
  lemma CrispWithoutDivergence(tex: Texture, uv: UV)
    requires InUnit(uv)
    ensures BlurryColor(tex, uv, uv) == tex(uv)
  {
    NoDivergenceAccumulates(tex, uv, N as nat);
  }

  /** Dividing by the fixed N (not by the number of included samples): on
      a uniformly white image the result is the fraction of samples that
      fell inside the unit square. */
  lemma {:induction false} WhiteAccumulatesCount(tex: Texture, uv0: UV, uv1: UV, k: nat)
    requires forall p :: tex(p) == 1.0
    ensures Accumulated(tex, uv0, uv1, k) == IncludedCount(uv0, uv1, k) as real
  {
    if k > 0 {
      WhiteAccumulatesCount(tex, uv0, uv1, k - 1);
    }
  }

  lemma FixedDivisor(tex: Texture, uv0: UV, uv1: UV)
    requires forall p :: tex(p) == 1.0
    ensures BlurryColor(tex, uv0, uv1) == IncludedCount(uv0, uv1, N as nat) as real / 8.0
    ensures IncludedCount(uv0, uv1, N as nat) <= 8
  {
    WhiteAccumulatesCount(tex, uv0, uv1, N as nat);
    CountBounded(uv0, uv1, N as nat);
  }

  lemma {:induction false} CountBounded(uv0: UV, uv1: UV, k: nat)
    ensures IncludedCount(uv0, uv1, k) <= k
  {
    if k > 0 {
      CountBounded(uv0, uv1, k - 1);
    }
  }

  /** Samples outside the unit square contribute nothing: if none is
      inside, the fragment is black. */
  lemma {:induction false} NothingInside(tex: Texture, uv0: UV, uv1: UV, k: nat)
    requires forall i :: 0 <= i < k ==> !InUnit(SamplePoint(uv0, uv1, i))
    ensures Accumulated(tex, uv0, uv1, k) == 0.0
  {
    if k > 0 {
      NothingInside(tex, uv0, uv1, k - 1);
    }
  }

  /** The unit square is convex: when both ends are inside, every sample is. */
  lemma SamplesInsideBetweenInsideEnds(uv0: UV, uv1: UV, i: int)
    requires InUnit(uv0) && InUnit(uv1) && 0 <= i < N
    ensures InUnit(SamplePoint(uv0, uv1, i))
  {
    var a := Param(i);
    MixInUnit(uv0.u, uv1.u, a);
    MixInUnit(uv0.v, uv1.v, a);
  }

  lemma MixInUnit(x: real, y: real, a: real)
    requires 0.0 <= x <= 1.0 && 0.0 <= y <= 1.0 && 0.0 <= a <= 1.0
    ensures 0.0 <= x * (1.0 - a) + y * a <= 1.0
  {
    assert 0.0 <= x * (1.0 - a) <= 1.0 - a;
    assert 0.0 <= y * a <= a;
  }
}
