/**
 * The vertex records and the three configuration enums of Datatypes.h.
 * An enum class value is modelled by a datatype with one constructor per
 * enumerator; `Ordinal` gives the integer the declaration order assigns,
 * which the renderer's cycle functions compute with.
 */
module Datatypes {
  import opened Math

  /** A model-space vertex: a three-component position */
  datatype Vertex = Vertex(
    position: Vec3, color: ColorRGB, uv: Vec2,
    normal: Vec3, tangent: Vec3, viewDirection: Vec3)

  /** A screen-space vertex: a four-component position that keeps the homogeneous w */
  datatype VertexOut = VertexOut(
    position: Vec4, color: ColorRGB, uv: Vec2,
    normal: Vec3, tangent: Vec3, viewDirection: Vec3)

  /** The value-initialised records: every member zero except the colour */
  const DefaultVertex := Vertex(Zero3, White, Zero2, Zero3, Zero3, Zero3)
  const DefaultVertexOut := VertexOut(Zero4, White, Zero2, Zero3, Zero3, Zero3)

  lemma DefaultColorsAreWhite()
    ensures DefaultVertex.color == White && DefaultVertexOut.color == White
    ensures DefaultVertexOut.position.w == 0.0
  {
  }

  datatype LightingMode = ObservedArea | Diffuse | Specular | Combined
  datatype CullMode = None | Front | Back
  datatype SampleMode = Point | Linear | Anisotropic

  const LightingModeCount := 4
  const CullModeCount := 3
  const SampleModeCount := 3

  function LightingOrdinal(m: LightingMode): (k: nat)
    ensures k < LightingModeCount
  {
    match m
    case ObservedArea => 0
    case Diffuse => 1
    case Specular => 2
    case Combined => 3
  }

  /** LightingMode(k), the conversion from the underlying integer */
  function LightingFromOrdinal(k: nat): (m: LightingMode)
    requires k < LightingModeCount
    ensures LightingOrdinal(m) == k
  {
    if k == 0 then ObservedArea else if k == 1 then Diffuse else if k == 2 then Specular else Combined
  }

  function CullOrdinal(m: CullMode): (k: nat)
    ensures k < CullModeCount
  {
    match m
    case None => 0
    case Front => 1
    case Back => 2
  }

  function CullFromOrdinal(k: nat): (m: CullMode)
    requires k < CullModeCount
    ensures CullOrdinal(m) == k
  {
    if k == 0 then None else if k == 1 then Front else Back
  }

  function SampleOrdinal(m: SampleMode): (k: nat)
    ensures k < SampleModeCount
  {
    match m
    case Point => 0
    case Linear => 1
    case Anisotropic => 2
  }

  function SampleFromOrdinal(k: nat): (m: SampleMode)
    requires k < SampleModeCount
    ensures SampleOrdinal(m) == k
  {
    if k == 0 then Point else if k == 1 then Linear else Anisotropic
  }

  /** The declaration order is a bijection onto 0 .. count-1, for each enum */
  lemma OrdinalsRoundTrip(l: LightingMode, c: CullMode, s: SampleMode)
    ensures LightingFromOrdinal(LightingOrdinal(l)) == l
    ensures CullFromOrdinal(CullOrdinal(c)) == c
    ensures SampleFromOrdinal(SampleOrdinal(s)) == s
  {
  }
}
