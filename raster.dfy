/**
 * Triangle setup of HandleRenderBB (Renderer.cpp): the bounding box and its
 * gate, the pixel ranges of the two loops, the three edge functions at a
 * pixel centre, the barycentric weights and the inside test, the one-vertex
 * cull decision and the interpolated depth with its depth test; and the
 * number of triangles RenderMeshTriangleList walks over an index list.
 */
module Raster {
  import opened Math
  import opened Datatypes

  /** FLT_MAX, the value every depth cell is reset to at frame start */
  const FltMax: real := 340282346638528859811704183484516925440.0

  /** std::max and std::min on floats: max returns the first argument unless it is less */
  function Max(a: real, b: real): real { if a < b then b else a }
  function Min(a: real, b: real): real { if b < a then b else a }

  /** The screen-space x, y of a vertex */
  function XY(v: VertexOut): Vec2 { Vec2(v.position.x, v.position.y) }

  datatype Box = Box(minX: real, maxX: real, minY: real, maxY: real)

  /** The axis-aligned bounding box of the first three vertices */
  function BoundingBox(verts: seq<VertexOut>): (b: Box)
    requires |verts| >= 3
    ensures forall k :: 0 <= k < 3 ==>
      b.minX <= verts[k].position.x <= b.maxX && b.minY <= verts[k].position.y <= b.maxY
    ensures b.minX == verts[0].position.x || b.minX == verts[1].position.x || b.minX == verts[2].position.x
    ensures b.maxX == verts[0].position.x || b.maxX == verts[1].position.x || b.maxX == verts[2].position.x
    ensures b.minY == verts[0].position.y || b.minY == verts[1].position.y || b.minY == verts[2].position.y
    ensures b.maxY == verts[0].position.y || b.maxY == verts[1].position.y || b.maxY == verts[2].position.y
  {
    var v0, v1, v2 := XY(verts[0]), XY(verts[1]), XY(verts[2]);
    Box(Min(Min(v0.x, v1.x), Min(v2.x, v0.x)), Max(Max(v2.x, v0.x), Max(v0.x, v1.x)),
        Min(Min(v0.y, v1.y), Min(v2.y, v0.y)), Max(Max(v0.y, v1.y), Max(v2.y, v0.y)))
  }

  /** The only pixels ever touched lie in boxes that fit the screen with a one-pixel margin */
  predicate Gate(b: Box, width: int, height: int)
  {
    b.minX >= 0.0 && b.maxX <= (width - 1) as real && b.minY >= 0.0 && b.maxY <= (height - 1) as real
  }

  /** The pixels the two loops visit: px from static_cast<int>(minX) while px < ceil(maxX), py likewise */
  predicate InBox(b: Box, px: int, py: int)
  {
    Trunc(b.minX) <= px < Ceil(b.maxX) && Trunc(b.minY) <= py < Ceil(b.maxY)
  }

  /** The loops start no later than they end */
  lemma LoopRangesOrdered(b: Box)
    requires b.minX <= b.maxX && b.minY <= b.maxY
    ensures Trunc(b.minX) <= Ceil(b.maxX) && Trunc(b.minY) <= Ceil(b.maxY)
  {
  }

  /** Behind the gate, every visited pixel lies strictly inside the screen, and so does its index */
  lemma {:induction false} GatedPixelInScreen(b: Box, width: int, height: int, px: int, py: int)
    requires Gate(b, width, height) && InBox(b, px, py)
    ensures 0 <= px < width - 1 && 0 <= py < height - 1
    ensures 0 <= px + py * width < width * height
  {
    assert (Ceil(b.maxX) - 1) as real < (width - 1) as real;
    assert (Ceil(b.maxY) - 1) as real < (height - 1) as real;
    assert py * width <= (height - 2) * width by {
      assert py <= height - 2;
      MulMonotone(py, height - 2, width);
    }
    assert (height - 2) * width + width - 2 < height * width;
  }

  lemma MulMonotone(a: int, b: int, c: int)
    requires a <= b && c >= 0
    ensures a * c <= b * c
  {
    assert (b - a) * c >= 0;
  }

  // ---- edge functions and barycentric weights ----

  datatype Edges = Edges(e0: real, e1: real, e2: real) {
    function Sum(): real { e0 + e1 + e2 }
  }

  /** The centre of pixel (px, py) */
  function PixelCentre(px: int, py: int): Vec2 { Vec2(px as real + 0.5, py as real + 0.5) }

  /**
   * The three edge functions at p: edge b = v2 - v1 against p - v1, edge c = v0 - v2
   * against p - v2, edge a = v1 - v0 against p - v0. The i-th value is the one opposite vertex i.
   */
  function EdgesAt(verts: seq<VertexOut>, p: Vec2): Edges
    requires |verts| >= 3
  {
    var v0, v1, v2 := XY(verts[0]), XY(verts[1]), XY(verts[2]);
    var a, b, c := v1.Minus(v0), v2.Minus(v1), v0.Minus(v2);
    Edges(b.Cross(p.Minus(v1)), c.Cross(p.Minus(v2)), a.Cross(p.Minus(v0)))
  }

  /** Twice the signed area of the triangle */
  function TwiceArea(verts: seq<VertexOut>): real
    requires |verts| >= 3
  {
    XY(verts[1]).Minus(XY(verts[0])).Cross(XY(verts[2]).Minus(XY(verts[0])))
  }

  /** The edge sum (the program's "triangleArea") is the same at every point: twice the signed area */
  lemma EdgeSumIsTwiceArea(verts: seq<VertexOut>, p: Vec2)
    requires |verts| >= 3
    ensures EdgesAt(verts, p).Sum() == TwiceArea(verts)
  {
    var v0, v1, v2 := XY(verts[0]), XY(verts[1]), XY(verts[2]);
    var e := EdgesAt(verts, p);
    assert e.e0 == (v2.x - v1.x) * (p.y - v1.y) - (v2.y - v1.y) * (p.x - v1.x);
    assert e.e1 == (v0.x - v2.x) * (p.y - v2.y) - (v0.y - v2.y) * (p.x - v2.x);
    assert e.e2 == (v1.x - v0.x) * (p.y - v0.y) - (v1.y - v0.y) * (p.x - v0.x);
  }

  /** Each edge function is the full area at its own vertex and zero at the two others */
  lemma EdgesAtVertices(verts: seq<VertexOut>)
    requires |verts| >= 3
    ensures EdgesAt(verts, XY(verts[0])) == Edges(TwiceArea(verts), 0.0, 0.0)
    ensures EdgesAt(verts, XY(verts[1])) == Edges(0.0, TwiceArea(verts), 0.0)
    ensures EdgesAt(verts, XY(verts[2])) == Edges(0.0, 0.0, TwiceArea(verts))
  {
    EdgeSumIsTwiceArea(verts, XY(verts[0]));
    EdgeSumIsTwiceArea(verts, XY(verts[1]));
    EdgeSumIsTwiceArea(verts, XY(verts[2]));
  }

  datatype Weights = Weights(w0: real, w1: real, w2: real)

  /** w_i = edge_i / edge sum; over the reals they add up to one */
  function WeightsOf(e: Edges): (w: Weights)
    requires e.Sum() != 0.0
    ensures w.w0 + w.w1 + w.w2 == 1.0
    ensures w.w0 * e.Sum() == e.e0 && w.w1 * e.Sum() == e.e1 && w.w2 * e.Sum() == e.e2
  {
    var s := e.Sum();
    var w0, w1, w2 := e.e0 / s, e.e1 / s, e.e2 / s;
    QuotientsSumToOne(e.e0, e.e1, e.e2);
    Weights(w0, w1, w2)
  }

  lemma QuotientsSumToOne(a: real, b: real, c: real)
    requires a + b + c != 0.0
    ensures a / (a + b + c) + b / (a + b + c) + c / (a + b + c) == 1.0
  {
    var s := a + b + c;
    assert a / s + b / s == (a + b) / s;
    assert (a + b) / s + c / s == s / s;
  }

  /** At vertex i the weights are the i-th unit weight */
  lemma WeightsAtVertices(verts: seq<VertexOut>)
    requires |verts| >= 3 && TwiceArea(verts) != 0.0
    ensures EdgesAt(verts, XY(verts[0])).Sum() != 0.0 && WeightsOf(EdgesAt(verts, XY(verts[0]))) == Weights(1.0, 0.0, 0.0)
    ensures EdgesAt(verts, XY(verts[1])).Sum() != 0.0 && WeightsOf(EdgesAt(verts, XY(verts[1]))) == Weights(0.0, 1.0, 0.0)
    ensures EdgesAt(verts, XY(verts[2])).Sum() != 0.0 && WeightsOf(EdgesAt(verts, XY(verts[2]))) == Weights(0.0, 0.0, 1.0)
  {
    EdgesAtVertices(verts);
  }

  /** The pixel is covered when all three weights are strictly positive; a zero edge sum covers nothing */
  predicate Inside(e: Edges)
  {
    e.Sum() != 0.0 && e.e0 / e.Sum() > 0.0 && e.e1 / e.Sum() > 0.0 && e.e2 / e.Sum() > 0.0
  }

  lemma QuotientPositive(a: real, s: real)
    requires s != 0.0
    ensures a / s > 0.0 <==> (a > 0.0 && s > 0.0) || (a < 0.0 && s < 0.0)
  {
    MulDivCancel(a, a / s, s);
    if a / s > 0.0 {
      assert a == (a / s) * s;
    }
  }

  /** Covered exactly when the three edge values share a strict sign, whichever the winding */
  lemma InsideIffSameSign(e: Edges)
    ensures Inside(e) <==> (e.e0 > 0.0 && e.e1 > 0.0 && e.e2 > 0.0) || (e.e0 < 0.0 && e.e1 < 0.0 && e.e2 < 0.0)
  {
    if e.Sum() != 0.0 {
      QuotientPositive(e.e0, e.Sum());
      QuotientPositive(e.e1, e.Sum());
      QuotientPositive(e.e2, e.Sum());
    }
  }

  /** A degenerate triangle (zero area) covers no pixel */
  lemma DegenerateCoversNothing(verts: seq<VertexOut>, p: Vec2)
    requires |verts| >= 3 && TwiceArea(verts) == 0.0
    ensures !Inside(EdgesAt(verts, p))
  {
    EdgeSumIsTwiceArea(verts, p);
  }

  /** The inside test at a pixel centre */
  predicate InsideAt(verts: seq<VertexOut>, px: int, py: int)
    requires |verts| >= 3
  {
    Inside(EdgesAt(verts, PixelCentre(px, py)))
  }

  // ---- culling ----

  /** The cull decision looks at vertex 0 only: its normal against its view direction */
  predicate Culls(mode: CullMode, verts: seq<VertexOut>)
    requires |verts| >= 3
  {
    var d := verts[0].normal.Dot(verts[0].viewDirection);
    match mode
    case Back => d < 0.0
    case Front => d > 0.0
    case None => false
  }

  /** None never culls, Back and Front never both cull, and only vertex 0 matters */
  lemma CullDecision(verts: seq<VertexOut>, other: seq<VertexOut>)
    requires |verts| >= 3 && |other| >= 3 && other[0] == verts[0]
    ensures !Culls(None, verts)
    ensures !(Culls(Back, verts) && Culls(Front, verts))
    ensures forall m: CullMode :: Culls(m, verts) == Culls(m, other)
  {
  }

  // ---- depth ----

  /** The interpolated depth: infinite when its denominator is zero (1 / 0 in float) */
  datatype Depth = Finite(value: real) | Infinite

  /** What the rasterizer needs of a screen-space triangle: three vertices, no zero z and positive w */
  predicate Renderable(verts: seq<VertexOut>)
  {
    && |verts| >= 3
    && verts[0].position.z != 0.0 && verts[1].position.z != 0.0 && verts[2].position.z != 0.0
    && verts[0].position.w > 0.0 && verts[1].position.w > 0.0 && verts[2].position.w > 0.0
  }

  /** 1 / (w0 / z0 + w1 / z1 + w2 / z2): depth interpolated through its reciprocal */
  function PixelDepth(verts: seq<VertexOut>, w: Weights): Depth
    requires Renderable(verts)
  {
    var den := (1.0 / verts[0].position.z) * w.w0 + (1.0 / verts[1].position.z) * w.w1
               + (1.0 / verts[2].position.z) * w.w2;
    if den == 0.0 then Infinite else Finite(1.0 / den)
  }

  /** The depth test: skipped when the new depth is greater than the stored one */
  predicate Passes(d: Depth, stored: real)
  {
    d.Finite? && !(d.value > stored)
  }

  /** A triangle at constant depth z gets depth z at every covered pixel */
  lemma ConstantDepthReproduced(verts: seq<VertexOut>, w: Weights)
    requires Renderable(verts) && w.w0 + w.w1 + w.w2 == 1.0
    requires verts[1].position.z == verts[0].position.z && verts[2].position.z == verts[0].position.z
    ensures PixelDepth(verts, w) == Finite(verts[0].position.z)
  {
    var z := verts[0].position.z;
    assert (1.0 / z) * w.w0 + (1.0 / z) * w.w1 + (1.0 / z) * w.w2 == (1.0 / z) * (w.w0 + w.w1 + w.w2);
    MulDivCancel(1.0, 1.0 / z, z);
    MulDivCancel(1.0, z, 1.0 / z);
  }

  /** A written depth never exceeds the stored one */
  lemma PassedDepthIsMin(d: Depth, stored: real)
    requires Passes(d, stored)
    ensures d.value <= stored
  {
  }

  // ---- triangle count ----

  /** size_t and uint32_t moduli */
  const SizeMod: int := 0x1_0000_0000_0000_0000
  const U32Mod: int := 0x1_0000_0000

  /** uint32_t((indices.size() - 2) / 3), with the size_t subtraction wrapping */
  function TriangleCount(n: nat): (c: nat)
    requires n < SizeMod
    ensures c < U32Mod
  {
    (((n - 2) % SizeMod) / 3) % U32Mod
  }

  /** For a list of at least two indices the count is (n - 2) / 3, and every index read is in range */
  lemma TriangleIndicesInBounds(n: nat, i: nat)
    requires 2 <= n < U32Mod && i < TriangleCount(n)
    ensures TriangleCount(n) == (n - 2) / 3
    ensures 3 * i + 2 < n
  {
    assert (n - 2) % SizeMod == n - 2;
  }

  /** One past INT_MAX: the loop body keeps 3i in an int and casts every stored index to int */
  const IntLimit: int := 0x8000_0000

  /** With at most IntLimit indices, every position 3i, 3i + 1, 3i + 2 the loop body reads fits in an int */
  lemma TriangleIndicesFitInt(n: nat, i: nat)
    requires 2 <= n <= IntLimit && i < TriangleCount(n)
    ensures 3 * i + 2 < IntLimit
  {
    TriangleIndicesInBounds(n, i);
  }

  /** For 3k indices (k whole triangles) the loop visits only k - 1 of them: the last triangle is dropped */
  lemma TriangleCountDropsLast(k: nat)
    requires 1 <= k && 3 * k < U32Mod
    ensures TriangleCount(3 * k) == k - 1
  {
    assert (3 * k - 2) % SizeMod == 3 * (k - 1) + 1;
  }

  /** Fewer than two indices wrap around to a huge count */
  lemma TriangleCountUnderflow()
    ensures TriangleCount(0) == 1431655764 && TriangleCount(1) == 1431655765
  {
  }
}
