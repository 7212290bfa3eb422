/**
 * The user-facing configuration of the renderer (Renderer.h): the three
 * modes, the boolean flags flipped by the Toggle* key handlers, the clear
 * colours and the light constants. `Settings` is a snapshot of those
 * fields; the renderer class keeps them as mutable fields and its methods
 * are specified through the pure functions here.
 */
module Config {
  import opened Math
  import opened Datatypes

  const LightIntensity: int := 7
  const Shininess: int := 25
  const LightDirection := Vec3(0.577, -0.577, 0.577)

  const UniformColor := Gray(0.1)
  const HardwareColor := ColorRGB(0.39, 0.59, 0.93)
  const SoftwareColor := Gray(0.39)

  /** The camera's clipping planes, used by the depth visualisation */
  const NearZ := 0.1
  const FarZ := 100.0

  /** The boolean fields a Toggle* method flips */
  datatype Flag = Hardware | Rotation | NormalMap | BoundingBox | Fire | DepthBuffer | ClearColor

  datatype Settings = Settings(
    cullMode: CullMode, sampleMode: SampleMode, lightingMode: LightingMode,
    isInitialized: bool, isHardware: bool,
    hasRotation: bool, hasNormalMap: bool, hasFire: bool,
    isShowDepthBuffer: bool, hasBB: bool, hasClearColor: bool,
    selectedColor: ColorRGB)
  {
    function Get(f: Flag): bool
    {
      match f
      case Hardware => isHardware
      case Rotation => hasRotation
      case NormalMap => hasNormalMap
      case BoundingBox => hasBB
      case Fire => hasFire
      case DepthBuffer => isShowDepthBuffer
      case ClearColor => hasClearColor
    }
  }

  /** The member initialisers of Renderer */
  const DefaultSettings := Settings(
    Back, Point, Combined,
    false, false,
    true, true, true,
    false, false, false,
    SoftwareColor)

  /** Two snapshots agree on everything except, possibly, flag f */
  predicate AgreeExcept(s: Settings, t: Settings, f: Flag)
  {
    && t.cullMode == s.cullMode && t.sampleMode == s.sampleMode && t.lightingMode == s.lightingMode
    && t.isInitialized == s.isInitialized && t.selectedColor == s.selectedColor
    && forall g: Flag :: g != f ==> t.Get(g) == s.Get(g)
  }

  /** The effect of one Toggle* method: flag f negated */
  function Toggled(s: Settings, f: Flag): (t: Settings)
    ensures t.Get(f) == !s.Get(f)
  {
    match f
    case Hardware => s.(isHardware := !s.isHardware)
    case Rotation => s.(hasRotation := !s.hasRotation)
    case NormalMap => s.(hasNormalMap := !s.hasNormalMap)
    case BoundingBox => s.(hasBB := !s.hasBB)
    case Fire => s.(hasFire := !s.hasFire)
    case DepthBuffer => s.(isShowDepthBuffer := !s.isShowDepthBuffer)
    case ClearColor => s.(hasClearColor := !s.hasClearColor)
  }

  /** A toggle changes nothing but its own flag */
  lemma ToggleChangesOnlyItsFlag(s: Settings, f: Flag)
    ensures AgreeExcept(s, Toggled(s, f), f)
  {
    forall g | g != f ensures Toggled(s, f).Get(g) == s.Get(g) {
    }
  }

  /** A snapshot is determined by its modes, its colour, the initialised flag and the seven flags */
  lemma {:induction false} SettingsExtensional(s: Settings, t: Settings)
    requires t.cullMode == s.cullMode && t.sampleMode == s.sampleMode && t.lightingMode == s.lightingMode
    requires t.isInitialized == s.isInitialized && t.selectedColor == s.selectedColor
    requires forall g: Flag :: t.Get(g) == s.Get(g)
    ensures s == t
  {
    assert t.Get(Hardware) == s.Get(Hardware) && t.Get(Rotation) == s.Get(Rotation);
    assert t.Get(NormalMap) == s.Get(NormalMap) && t.Get(BoundingBox) == s.Get(BoundingBox);
    assert t.Get(Fire) == s.Get(Fire) && t.Get(DepthBuffer) == s.Get(DepthBuffer);
    assert t.Get(ClearColor) == s.Get(ClearColor);
  }

  /** Toggling the same flag twice restores the snapshot */
  lemma ToggleInvolution(s: Settings, f: Flag)
    ensures Toggled(Toggled(s, f), f) == s
  {
    var t := Toggled(s, f);
    ToggleChangesOnlyItsFlag(s, f);
    ToggleChangesOnlyItsFlag(t, f);
    RestoredFlagRestores(s, t, Toggled(t, f), f);
  }

  /** Two changes confined to flag f that bring f back give back the snapshot */
  lemma RestoredFlagRestores(s: Settings, t: Settings, u: Settings, f: Flag)
    requires AgreeExcept(s, t, f) && AgreeExcept(t, u, f) && u.Get(f) == s.Get(f)
    ensures u == s
  {
    forall g: Flag ensures u.Get(g) == s.Get(g) {
      if g != f {
        assert t.Get(g) == s.Get(g) && u.Get(g) == t.Get(g);
      }
    }
    SettingsExtensional(s, u);
  }

  // ---- mode cycling: the ternaries of CycleLightingMode, CycleCullMode, CycleSampler ----

  function NextLightingMode(m: LightingMode): (r: LightingMode)
    ensures LightingOrdinal(r) == (LightingOrdinal(m) + 1) % LightingModeCount
  {
    if m == Combined then LightingFromOrdinal(0) else LightingFromOrdinal(LightingOrdinal(m) + 1)
  }

  function NextCullMode(m: CullMode): (r: CullMode)
    ensures CullOrdinal(r) == (CullOrdinal(m) + 1) % CullModeCount
  {
    if m == Back then CullFromOrdinal(0) else CullFromOrdinal(CullOrdinal(m) + 1)
  }

  function NextSampleMode(m: SampleMode): (r: SampleMode)
    ensures SampleOrdinal(r) == (SampleOrdinal(m) + 1) % SampleModeCount
  {
    if m == Anisotropic then SampleFromOrdinal(0) else SampleFromOrdinal(SampleOrdinal(m) + 1)
  }

  /** k presses of the lighting-mode key */
  function CycleLightingN(m: LightingMode, k: nat): LightingMode
  {
    if k == 0 then m else NextLightingMode(CycleLightingN(m, k - 1))
  }

  function CycleCullN(m: CullMode, k: nat): CullMode
  {
    if k == 0 then m else NextCullMode(CycleCullN(m, k - 1))
  }

  function CycleSampleN(m: SampleMode, k: nat): SampleMode
  {
    if k == 0 then m else NextSampleMode(CycleSampleN(m, k - 1))
  }

  lemma {:induction false} CycleLightingOrdinal(m: LightingMode, k: nat)
    ensures LightingOrdinal(CycleLightingN(m, k)) == (LightingOrdinal(m) + k) % LightingModeCount
  {
    if k > 0 {
      CycleLightingOrdinal(m, k - 1);
    }
  }

  lemma {:induction false} CycleCullOrdinal(m: CullMode, k: nat)
    ensures CullOrdinal(CycleCullN(m, k)) == (CullOrdinal(m) + k) % CullModeCount
  {
    if k > 0 {
      CycleCullOrdinal(m, k - 1);
    }
  }

  lemma {:induction false} CycleSampleOrdinal(m: SampleMode, k: nat)
    ensures SampleOrdinal(CycleSampleN(m, k)) == (SampleOrdinal(m) + k) % SampleModeCount
  {
    if k > 0 {
      CycleSampleOrdinal(m, k - 1);
    }
  }

  /** Stepping from ordinal a by (b - a) mod 4 lands on b */
  lemma StepMod4(a: int, b: int)
    requires 0 <= a < 4 && 0 <= b < 4
    ensures (a + (b - a) % 4) % 4 == b && (a + 4) % 4 == a
  {
  }

  /** Stepping from ordinal a by (b - a) mod 3 lands on b */
  lemma StepMod3(a: int, b: int)
    requires 0 <= a < 3 && 0 <= b < 3
    ensures (a + (b - a) % 3) % 3 == b && (a + 3) % 3 == a
  {
  }

  /** The lighting modes form one cycle of period 4 that reaches every mode */
  lemma LightingCycleCoversAll(m: LightingMode, t: LightingMode)
    ensures CycleLightingN(m, LightingModeCount) == m
    ensures CycleLightingN(m, (LightingOrdinal(t) - LightingOrdinal(m)) % LightingModeCount) == t
  {
    LightingCycleReturns(m);
    StepMod4(LightingOrdinal(m), LightingOrdinal(t));
    LightingCycleReaches(m, t, (LightingOrdinal(t) - LightingOrdinal(m)) % LightingModeCount);
  }

  /** A full round of lighting cycles comes back to the start */
  lemma LightingCycleReturns(m: LightingMode)
    ensures CycleLightingN(m, LightingModeCount) == m
  {
    StepMod4(LightingOrdinal(m), LightingOrdinal(m));
    LightingCycleReaches(m, m, LightingModeCount);
  }

  /** k steps from m land on t whenever the ordinals say so */
  lemma LightingCycleReaches(m: LightingMode, t: LightingMode, k: nat)
    requires (LightingOrdinal(m) + k) % LightingModeCount == LightingOrdinal(t)
    ensures CycleLightingN(m, k) == t
  {
    CycleLightingOrdinal(m, k);
    LightingOrdinalInjective(CycleLightingN(m, k), t);
  }

  /** Equal ordinals mean equal modes */
  lemma LightingOrdinalInjective(a: LightingMode, b: LightingMode)
    requires LightingOrdinal(a) == LightingOrdinal(b)
    ensures a == b
  {
    OrdinalsRoundTrip(a, None, Point);
    OrdinalsRoundTrip(b, None, Point);
  }

  /** The cull modes form one cycle of period 3 that reaches every mode */
  lemma CullCycleCoversAll(m: CullMode, t: CullMode)
    ensures CycleCullN(m, CullModeCount) == m
    ensures CycleCullN(m, (CullOrdinal(t) - CullOrdinal(m)) % CullModeCount) == t
  {
    CullCycleReturns(m);
    StepMod3(CullOrdinal(m), CullOrdinal(t));
    CullCycleReaches(m, t, (CullOrdinal(t) - CullOrdinal(m)) % CullModeCount);
  }

  /** A full round of cull cycles comes back to the start */
  lemma CullCycleReturns(m: CullMode)
    ensures CycleCullN(m, CullModeCount) == m
  {
    StepMod3(CullOrdinal(m), CullOrdinal(m));
    CullCycleReaches(m, m, CullModeCount);
  }

  /** k steps from m land on t whenever the ordinals say so */
  lemma CullCycleReaches(m: CullMode, t: CullMode, k: nat)
    requires (CullOrdinal(m) + k) % CullModeCount == CullOrdinal(t)
    ensures CycleCullN(m, k) == t
  {
    CycleCullOrdinal(m, k);
    CullOrdinalInjective(CycleCullN(m, k), t);
  }

  /** Equal ordinals mean equal modes */
  lemma CullOrdinalInjective(a: CullMode, b: CullMode)
    requires CullOrdinal(a) == CullOrdinal(b)
    ensures a == b
  {
    OrdinalsRoundTrip(ObservedArea, a, Point);
    OrdinalsRoundTrip(ObservedArea, b, Point);
  }

  /** The sample modes form one cycle of period 3 that reaches every mode */
  lemma SampleCycleCoversAll(m: SampleMode, t: SampleMode)
    ensures CycleSampleN(m, SampleModeCount) == m
    ensures CycleSampleN(m, (SampleOrdinal(t) - SampleOrdinal(m)) % SampleModeCount) == t
  {
    SampleCycleReturns(m);
    StepMod3(SampleOrdinal(m), SampleOrdinal(t));
    SampleCycleReaches(m, t, (SampleOrdinal(t) - SampleOrdinal(m)) % SampleModeCount);
  }

  /** A full round of sample cycles comes back to the start */
  lemma SampleCycleReturns(m: SampleMode)
    ensures CycleSampleN(m, SampleModeCount) == m
  {
    StepMod3(SampleOrdinal(m), SampleOrdinal(m));
    SampleCycleReaches(m, m, SampleModeCount);
  }

  /** k steps from m land on t whenever the ordinals say so */
  lemma SampleCycleReaches(m: SampleMode, t: SampleMode, k: nat)
    requires (SampleOrdinal(m) + k) % SampleModeCount == SampleOrdinal(t)
    ensures CycleSampleN(m, k) == t
  {
    CycleSampleOrdinal(m, k);
    SampleOrdinalInjective(CycleSampleN(m, k), t);
  }

  /** Equal ordinals mean equal modes */
  lemma SampleOrdinalInjective(a: SampleMode, b: SampleMode)
    requires SampleOrdinal(a) == SampleOrdinal(b)
    ensures a == b
  {
    OrdinalsRoundTrip(ObservedArea, None, a);
    OrdinalsRoundTrip(ObservedArea, None, b);
  }

  /** The wrap-around points named by the source */
  lemma CycleWrapPoints()
    ensures NextLightingMode(Combined) == ObservedArea && NextLightingMode(ObservedArea) == Diffuse
    ensures NextCullMode(Back) == None && NextCullMode(None) == Front
    ensures NextSampleMode(Anisotropic) == Point && NextSampleMode(Point) == Linear
  {
  }
}
