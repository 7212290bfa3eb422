/**
 * The per-pixel work of the software rasterizer (Renderer.cpp):
 * CalculateVertexWithAttributes, which interpolates the vertex attributes
 * perspective-correctly and samples the four textures, and PixelShading,
 * which switches on the lighting mode. Texture sampling (Texture.cpp is not
 * part of this model) is abstract in `Textures`.
 */
module Shading {
  import opened Math
  import opened Datatypes
  import opened Materials
  import opened Config
  import opened Raster

  /** Texture::Sample of the diffuse, normal, gloss and specular maps */
  datatype Textures = Textures(
    diffuse: Vec2 -> ColorRGB, normal: Vec2 -> ColorRGB,
    gloss: Vec2 -> ColorRGB, specular: Vec2 -> ColorRGB)

  // ---- perspective-correct interpolation ----

  /** w0 / W0 + w1 / W1 + w2 / W2, where W is each vertex's homogeneous w */
  function RecipWSum(verts: seq<VertexOut>, w: Weights): real
    requires |verts| >= 3
    requires verts[0].position.w != 0.0 && verts[1].position.w != 0.0 && verts[2].position.w != 0.0
  {
    (1.0 / verts[0].position.w) * w.w0 + (1.0 / verts[1].position.w) * w.w1 + (1.0 / verts[2].position.w) * w.w2
  }

  /** What the interpolation divides by */
  predicate PerspectiveDefined(verts: seq<VertexOut>, w: Weights)
  {
    && |verts| >= 3
    && verts[0].position.w != 0.0 && verts[1].position.w != 0.0 && verts[2].position.w != 0.0
    && RecipWSum(verts, w) != 0.0
  }

  /** interpolatedDepthW: the w at the pixel, interpolated through its reciprocal */
  function DepthW(verts: seq<VertexOut>, w: Weights): real
    requires PerspectiveDefined(verts, w)
  {
    1.0 / RecipWSum(verts, w)
  }

  /** On a covered pixel of a triangle with positive w everywhere, the interpolation is defined */
  lemma CoveredIsDefined(verts: seq<VertexOut>, e: Edges)
    requires Renderable(verts) && Inside(e)
    ensures PerspectiveDefined(verts, WeightsOf(e))
    ensures RecipWSum(verts, WeightsOf(e)) > 0.0
  {
    var w := WeightsOf(e);
    InsideIffSameSign(e);
    assert w.w0 > 0.0 && w.w1 > 0.0 && w.w2 > 0.0;
    assert (1.0 / verts[0].position.w) * w.w0 > 0.0;
    assert (1.0 / verts[1].position.w) * w.w1 > 0.0;
    assert (1.0 / verts[2].position.w) * w.w2 > 0.0;
  }

  /** One scalar attribute: (a0 / W0 * w0 + a1 / W1 * w1 + a2 / W2 * w2) * depthW */
  function Persp(a0: real, a1: real, a2: real, verts: seq<VertexOut>, w: Weights): real
    requires PerspectiveDefined(verts, w)
  {
    ((a0 / verts[0].position.w) * w.w0 + (a1 / verts[1].position.w) * w.w1
     + (a2 / verts[2].position.w) * w.w2) * DepthW(verts, w)
  }

  function PerspVec2(a0: Vec2, a1: Vec2, a2: Vec2, verts: seq<VertexOut>, w: Weights): Vec2
    requires PerspectiveDefined(verts, w)
  {
    Vec2(Persp(a0.x, a1.x, a2.x, verts, w), Persp(a0.y, a1.y, a2.y, verts, w))
  }

  function PerspVec3(a0: Vec3, a1: Vec3, a2: Vec3, verts: seq<VertexOut>, w: Weights): Vec3
    requires PerspectiveDefined(verts, w)
  {
    Vec3(Persp(a0.x, a1.x, a2.x, verts, w), Persp(a0.y, a1.y, a2.y, verts, w), Persp(a0.z, a1.z, a2.z, verts, w))
  }

  /** The position is weighted without the division by each vertex's w: (p0 w0 + p1 w1 + p2 w2) * depthW */
  function InterpolatedPosition(verts: seq<VertexOut>, w: Weights): Vec4
    requires PerspectiveDefined(verts, w)
  {
    verts[0].position.Scale(w.w0).Plus(verts[1].position.Scale(w.w1))
      .Plus(verts[2].position.Scale(w.w2)).Scale(DepthW(verts, w))
  }

  /** The effective weights (w_i / W_i) * depthW add up to one */
  lemma PerspectiveWeightsSumToOne(verts: seq<VertexOut>, w: Weights)
    requires PerspectiveDefined(verts, w)
    ensures (1.0 / verts[0].position.w) * w.w0 * DepthW(verts, w)
          + (1.0 / verts[1].position.w) * w.w1 * DepthW(verts, w)
          + (1.0 / verts[2].position.w) * w.w2 * DepthW(verts, w) == 1.0
  {
    var s, d := RecipWSum(verts, w), DepthW(verts, w);
    var l0, l1, l2 := (1.0 / verts[0].position.w) * w.w0, (1.0 / verts[1].position.w) * w.w1,
                      (1.0 / verts[2].position.w) * w.w2;
    assert l0 * d + l1 * d + l2 * d == (l0 + l1 + l2) * d;
    assert l0 + l1 + l2 == s;
    assert s * d == 1.0;
  }

  /** a / W * w == a * ((1 / W) * w) */
  lemma ScaledQuotient(a: real, bigW: real, w: real)
    requires bigW != 0.0
    ensures (a / bigW) * w == a * ((1.0 / bigW) * w)
  {
  }

  /** An attribute with the same value at the three vertices is reproduced exactly */
  lemma {:induction false} ConstantAttributeReproduced(a: real, verts: seq<VertexOut>, w: Weights)
    requires PerspectiveDefined(verts, w)
    ensures Persp(a, a, a, verts, w) == a
  {
    var s, d := RecipWSum(verts, w), DepthW(verts, w);
    var l0, l1, l2 := (1.0 / verts[0].position.w) * w.w0, (1.0 / verts[1].position.w) * w.w1,
                      (1.0 / verts[2].position.w) * w.w2;
    ScaledQuotient(a, verts[0].position.w, w.w0);
    ScaledQuotient(a, verts[1].position.w, w.w1);
    ScaledQuotient(a, verts[2].position.w, w.w2);
    assert s == l0 + l1 + l2;
    assert a * l0 + a * l1 + a * l2 == a * s;
    assert s * d == 1.0;
    assert (a * s) * d == a * (s * d);
  }

  /** With the same w at all three vertices, the interpolated w is that w */
  lemma {:induction false} EqualWDepth(verts: seq<VertexOut>, w: Weights)
    requires PerspectiveDefined(verts, w) && w.w0 + w.w1 + w.w2 == 1.0
    requires verts[1].position.w == verts[0].position.w && verts[2].position.w == verts[0].position.w
    ensures DepthW(verts, w) == verts[0].position.w
  {
    var bigW := verts[0].position.w;
    assert RecipWSum(verts, w) == (1.0 / bigW) * (w.w0 + w.w1 + w.w2);
    MulDivCancel(1.0, bigW, 1.0 / bigW);
  }

  /** With the same w at all three vertices, interpolation is the plain affine combination */
  lemma {:induction false} EqualWIsAffine(a0: real, a1: real, a2: real, verts: seq<VertexOut>, w: Weights)
    requires PerspectiveDefined(verts, w) && w.w0 + w.w1 + w.w2 == 1.0
    requires verts[1].position.w == verts[0].position.w && verts[2].position.w == verts[0].position.w
    ensures Persp(a0, a1, a2, verts, w) == a0 * w.w0 + a1 * w.w1 + a2 * w.w2
  {
    var bigW := verts[0].position.w;
    EqualWDepth(verts, w);
    var d := DepthW(verts, w);
    ScaledQuotient(a0, bigW, w.w0);
    ScaledQuotient(a1, bigW, w.w1);
    ScaledQuotient(a2, bigW, w.w2);
    var sum := (a0 / bigW) * w.w0 + (a1 / bigW) * w.w1 + (a2 / bigW) * w.w2;
    assert sum == (a0 * w.w0 + a1 * w.w1 + a2 * w.w2) * (1.0 / bigW);
    assert sum * d == (a0 * w.w0 + a1 * w.w1 + a2 * w.w2) * ((1.0 / bigW) * bigW);
  }

  /** The plain affine combination p0 w0 + p1 w1 + p2 w2 of the three positions */
  function AffinePosition(verts: seq<VertexOut>, w: Weights): Vec4
    requires |verts| >= 3
  {
    verts[0].position.Scale(w.w0).Plus(verts[1].position.Scale(w.w1)).Plus(verts[2].position.Scale(w.w2))
  }

  /** ... while the position, weighted without the division by w, is the affine one scaled by w:
      x, y and z pick up a factor w, and the interpolated w becomes w * w */
  lemma {:induction false} EqualWPositionKeepsW(verts: seq<VertexOut>, w: Weights)
    requires PerspectiveDefined(verts, w) && w.w0 + w.w1 + w.w2 == 1.0
    requires verts[1].position.w == verts[0].position.w && verts[2].position.w == verts[0].position.w
    ensures InterpolatedPosition(verts, w) == AffinePosition(verts, w).Scale(verts[0].position.w)
    ensures AffinePosition(verts, w).w == verts[0].position.w
    ensures InterpolatedPosition(verts, w).w == verts[0].position.w * verts[0].position.w
  {
    var bigW := verts[0].position.w;
    EqualWDepth(verts, w);
    assert AffinePosition(verts, w).w == bigW * (w.w0 + w.w1 + w.w2);
  }

  // ---- the attributes at a pixel ----

  /** The vertex at the pixel, and the gloss and specular colour sampled for it (the two out-parameters) */
  datatype Fragment = Fragment(vertex: VertexOut, gloss: real, specularKS: ColorRGB)

  /** A normal-map texel in [0, 1] to a tangent-space vector: (2 N - 1) / 255 */
  function DecodeNormal(c: ColorRGB): Vec3
  {
    Vec3(2.0 * c.r - 1.0, 2.0 * c.g - 1.0, 2.0 * c.b - 1.0).Over(255.0)
  }

  /** The tangent-space matrix with rows T, B, N applied to a vector (Math.h's TransformVector) */
  function TangentToWorld(t: Vec3, b: Vec3, n: Vec3, s: Vec3): Vec3
  {
    t.Scale(s.x).Plus(b.Scale(s.y)).Plus(n.Scale(s.z))
  }

  /** CalculateVertexWithAttributes: all attributes interpolated, the textures sampled at the
      interpolated uv, the normal optionally replaced by the normal map's */
  function CalculateVertexWithAttributes(verts: seq<VertexOut>, w: Weights, hasNormalMap: bool,
                                         tex: Textures, geo: Geometry): Fragment
    requires PerspectiveDefined(verts, w)
  {
    var uv := PerspVec2(verts[0].uv, verts[1].uv, verts[2].uv, verts, w);
    var normal := PerspVec3(verts[0].normal, verts[1].normal, verts[2].normal, verts, w);
    var tangent := PerspVec3(verts[0].tangent, verts[1].tangent, verts[2].tangent, verts, w);
    var view := PerspVec3(verts[0].viewDirection, verts[1].viewDirection, verts[2].viewDirection, verts, w);
    var binormal := normal.Cross(tangent);
    var sampled := geo.normalized(TangentToWorld(tangent, binormal, normal, DecodeNormal(tex.normal(uv))));
    Fragment(
      VertexOut(InterpolatedPosition(verts, w), tex.diffuse(uv), uv,
                if hasNormalMap then geo.normalized(sampled) else normal,
                tangent, geo.normalized(view)),
      tex.gloss(uv).r, tex.specular(uv))
  }

  /** The fragment's uv is the perspective-interpolated uv and every texture is sampled there; without
      normal mapping the normal is interpolated the same way; the position is weighted without 1/w.
      A triangle with one uv everywhere samples exactly that uv. */
  lemma FragmentAttributes(verts: seq<VertexOut>, w: Weights, hasNormalMap: bool, tex: Textures, geo: Geometry)
    requires PerspectiveDefined(verts, w)
    ensures var f := CalculateVertexWithAttributes(verts, w, hasNormalMap, tex, geo);
      && f.vertex.uv == PerspVec2(verts[0].uv, verts[1].uv, verts[2].uv, verts, w)
      && f.vertex.color == tex.diffuse(f.vertex.uv)
      && f.gloss == tex.gloss(f.vertex.uv).r && f.specularKS == tex.specular(f.vertex.uv)
      && (!hasNormalMap ==> f.vertex.normal == PerspVec3(verts[0].normal, verts[1].normal, verts[2].normal, verts, w))
      && f.vertex.position == InterpolatedPosition(verts, w)
    ensures verts[1].uv == verts[0].uv && verts[2].uv == verts[0].uv ==>
      var f := CalculateVertexWithAttributes(verts, w, hasNormalMap, tex, geo);
      f.vertex.uv == verts[0].uv && f.vertex.color == tex.diffuse(verts[0].uv)
  {
    ConstantAttributeReproduced(verts[0].uv.x, verts, w);
    ConstantAttributeReproduced(verts[0].uv.y, verts, w);
  }

  // ---- PixelShading ----

  /** The observed-area term: the cosine between the normal and the light, clamped to [0, 1] */
  function ObservedAreaTerm(v: VertexOut): (t: real)
    ensures 0.0 <= t <= 1.0
    ensures 0.0 <= v.normal.Dot(LightDirection.Neg()) <= 1.0 ==> t == v.normal.Dot(LightDirection.Neg())
  {
    Clamp(v.normal.Dot(LightDirection.Neg()), 0.0, 1.0)
  }

  /** A Lambert material of the vertex colour at the light intensity, scaled by the observed area */
  function DiffuseTerm(v: VertexOut, brdf: Brdf, geo: Geometry): ColorRGB
  {
    Shade(Lambert(v.color, LightIntensity as real), brdf, geo, v, Zero3, Zero3).Scale(ObservedAreaTerm(v))
  }

  /** Phong with the sampled specular colour, exponent gloss * shininess, seen along the view direction */
  function SpecularTerm(v: VertexOut, gloss: real, ks: ColorRGB, brdf: Brdf): ColorRGB
  {
    brdf.phong(ks, gloss * Shininess as real, LightDirection, v.viewDirection, v.normal)
  }

  function PixelShading(v: VertexOut, gloss: real, ks: ColorRGB, mode: LightingMode,
                        brdf: Brdf, geo: Geometry): ColorRGB
  {
    match mode
    case ObservedArea => Gray(ObservedAreaTerm(v))
    case Diffuse => DiffuseTerm(v, brdf, geo)
    case Specular => SpecularTerm(v, gloss, ks, brdf)
    case Combined => DiffuseTerm(v, brdf, geo).Plus(SpecularTerm(v, gloss, ks, brdf))
  }

  /** What each lighting mode returns */
  lemma PixelShadingModes(v: VertexOut, gloss: real, ks: ColorRGB, brdf: Brdf, geo: Geometry)
    ensures PixelShading(v, gloss, ks, ObservedArea, brdf, geo) == Gray(ObservedAreaTerm(v))
    ensures var t := PixelShading(v, gloss, ks, ObservedArea, brdf, geo);
            t.r == t.g == t.b && 0.0 <= t.r <= 1.0
    ensures PixelShading(v, gloss, ks, Diffuse, brdf, geo)
         == brdf.lambert(LightIntensity as real, v.color).Scale(ObservedAreaTerm(v))
    ensures PixelShading(v, gloss, ks, Specular, brdf, geo)
         == brdf.phong(ks, gloss * 25.0, LightDirection, v.viewDirection, v.normal)
    ensures PixelShading(v, gloss, ks, Combined, brdf, geo)
         == PixelShading(v, gloss, ks, Diffuse, brdf, geo).Plus(PixelShading(v, gloss, ks, Specular, brdf, geo))
  {
  }

  /** A normal facing away from the light (or perpendicular to it) leaves only the specular lobe:
      observed area and diffuse are black, and Combined is Specular alone */
  lemma UnlitKeepsOnlySpecular(v: VertexOut, gloss: real, ks: ColorRGB, brdf: Brdf, geo: Geometry)
    requires v.normal.Dot(LightDirection.Neg()) <= 0.0
    ensures PixelShading(v, gloss, ks, ObservedArea, brdf, geo) == Black
    ensures PixelShading(v, gloss, ks, Diffuse, brdf, geo) == Black
    ensures PixelShading(v, gloss, ks, Combined, brdf, geo) == PixelShading(v, gloss, ks, Specular, brdf, geo)
  {
  }
}
