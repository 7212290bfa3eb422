/**
 * The closed set of materials of Material.h, as one datatype with a pure
 * `Shade`. Each variant keeps the fields its constructor stores once; the
 * BRDF terms (BRDF.h is not part of this model) are abstract functions
 * gathered in `Brdf`.
 */
module Materials {
  import opened Math
  import opened Datatypes

  /** BRDF::Lambert (both overloads), BRDF::Phong, Schlick's Fresnel, GGX and Smith */
  datatype Brdf = Brdf(
    lambert: (real, ColorRGB) -> ColorRGB,
    lambertKd: (ColorRGB, ColorRGB) -> ColorRGB,
    phong: (ColorRGB, real, Vec3, Vec3, Vec3) -> ColorRGB,
    schlick: (Vec3, Vec3, ColorRGB) -> ColorRGB,
    ggx: (Vec3, Vec3, real) -> real,
    smith: (Vec3, Vec3, Vec3, real) -> real)

  datatype Material =
    | SolidColor(color: ColorRGB)
    | Lambert(diffuseColor: ColorRGB, diffuseReflectance: real)
    | LambertPhong(diffuseColor: ColorRGB, diffuseReflectance: real,
                   specularReflectance: ColorRGB, phongExponent: real)
    | CookTorrence(albedo: ColorRGB, metalness: real, roughness: real)

  /** The member initialisers of Material_CookTorrence: copper, fully metallic, smooth */
  const CopperAlbedo := ColorRGB(0.955, 0.637, 0.538)
  const DefaultCookTorrence := CookTorrence(CopperAlbedo, 1.0, 0.1)

  /** Reflectance at normal incidence: 0.04 for a dielectric, the albedo for a metal */
  function F0(metalness: real, albedo: ColorRGB): ColorRGB
  {
    if metalness == 0.0 then Gray(0.04) else albedo
  }

  /** Diffuse weight: none for a metal, what the Fresnel term leaves for a dielectric */
  function Kd(metalness: real, fresnel: ColorRGB): ColorRGB
  {
    if metalness != 0.0 then Black else White.Minus(fresnel)
  }

  /** The alpha handed to GGX and Smith: roughness squared */
  function Alpha(roughness: real): real { roughness * roughness }

  /** The half vector (v - l) / |v - l| */
  function HalfVector(geo: Geometry, l: Vec3, v: Vec3): Vec3
    requires geo.magnitude(v.Plus(l.Neg())) != 0.0
  {
    v.Plus(l.Neg()).Over(geo.magnitude(v.Plus(l.Neg())))
  }

  /** What Material_CookTorrence::Shade divides by */
  predicate CookTorrenceDefined(geo: Geometry, vert: VertexOut, l: Vec3, v: Vec3)
  {
    geo.magnitude(v.Plus(l.Neg())) != 0.0 &&
    4.0 * v.Dot(vert.normal) * l.Neg().Dot(vert.normal) != 0.0
  }

  predicate ShadeDefined(m: Material, geo: Geometry, vert: VertexOut, l: Vec3, v: Vec3)
  {
    m.CookTorrence? ==> CookTorrenceDefined(geo, vert, l, v)
  }

  function Shade(m: Material, brdf: Brdf, geo: Geometry, vert: VertexOut, l: Vec3, v: Vec3): ColorRGB
    requires ShadeDefined(m, geo, vert, l, v)
  {
    match m
    case SolidColor(c) => c
    case Lambert(cd, kd) => brdf.lambert(kd, cd)
    case LambertPhong(cd, kd, ks, e) => brdf.lambert(kd, cd).Plus(brdf.phong(ks, e, l, v.Neg(), vert.normal))
    case CookTorrence(albedo, metalness, roughness) =>
      var a := Alpha(roughness);
      var h := HalfVector(geo, l, v);
      var f := brdf.schlick(geo.normalized(h), geo.normalized(v), F0(metalness, albedo));
      var d := brdf.ggx(vert.normal.Neg(), geo.normalized(h), a);
      var gs := brdf.smith(vert.normal.Neg(), v, l.Neg(), a);
      var spec := f.Scale(d * gs).Over(4.0 * v.Dot(vert.normal) * l.Neg().Dot(vert.normal));
      spec.Plus(brdf.lambertKd(Kd(metalness, f), albedo))
  }

  /** A solid colour is returned whatever the vertex, light and view */
  lemma SolidColorIgnoresInputs(c: ColorRGB, brdf: Brdf, geo: Geometry,
                                vert: VertexOut, l: Vec3, v: Vec3)
    ensures Shade(SolidColor(c), brdf, geo, vert, l, v) == c
  {
  }

  /** A Lambert material does not depend on the vertex, light or view */
  lemma LambertIgnoresInputs(cd: ColorRGB, kd: real, brdf: Brdf, geo: Geometry,
                             vert: VertexOut, l: Vec3, v: Vec3,
                             vert': VertexOut, l': Vec3, v': Vec3)
    ensures Shade(Lambert(cd, kd), brdf, geo, vert, l, v) == brdf.lambert(kd, cd)
    ensures Shade(Lambert(cd, kd), brdf, geo, vert, l, v) == Shade(Lambert(cd, kd), brdf, geo, vert', l', v')
  {
  }

  /** Lambert-Phong is the Lambert material plus a Phong lobe seen from the negated view direction */
  lemma LambertPhongAddsPhong(cd: ColorRGB, kd: real, ks: ColorRGB, e: real, brdf: Brdf, geo: Geometry,
                              vert: VertexOut, l: Vec3, v: Vec3)
    ensures Shade(LambertPhong(cd, kd, ks, e), brdf, geo, vert, l, v)
         == Shade(Lambert(cd, kd), brdf, geo, vert, l, v).Plus(brdf.phong(ks, e, l, v.Neg(), vert.normal))
  {
  }

  /** For a dielectric the diffuse weight and the Fresnel term add up to white; a metal has no diffuse weight */
  lemma KdComplementsFresnel(metalness: real, f: ColorRGB)
    ensures metalness == 0.0 ==> Kd(metalness, f).Plus(f) == White
    ensures metalness != 0.0 ==> Kd(metalness, f) == Black
  {
  }

  /** Cook-Torrance feeds Schlick with f0 = 0.04 grey exactly when the material is not metallic,
      and hands roughness squared to GGX and Smith */
  lemma CookTorrenceInputs(albedo: ColorRGB, metalness: real, roughness: real)
    ensures metalness == 0.0 ==> F0(metalness, albedo) == Gray(0.04)
    ensures metalness != 0.0 ==> F0(metalness, albedo) == albedo
    ensures Alpha(roughness) == roughness * roughness && Alpha(-roughness) == Alpha(roughness)
  {
  }

  /** The default material is copper, a metal, with alpha 0.01 */
  lemma DefaultCookTorrenceIsCopperMetal(brdf: Brdf, geo: Geometry, vert: VertexOut, l: Vec3, v: Vec3)
    requires CookTorrenceDefined(geo, vert, l, v)
    ensures DefaultCookTorrence.albedo == CopperAlbedo
    ensures F0(DefaultCookTorrence.metalness, CopperAlbedo) == CopperAlbedo
    ensures Alpha(DefaultCookTorrence.roughness) == 0.01
    ensures Kd(DefaultCookTorrence.metalness, brdf.schlick(
              geo.normalized(HalfVector(geo, l, v)), geo.normalized(v), CopperAlbedo)) == Black
  {
  }
}
