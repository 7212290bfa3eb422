/**
 * Vector and colour values the renderer computes with. Every float of the
 * program is a `real` here; Math.h is not part of this model, so only the
 * componentwise operations the renderer relies on are spelled out, and the
 * two operations that need a square root (Magnitude, Normalized) are kept
 * abstract in `Geometry`.
 */
module Math {

  datatype Vec2 = Vec2(x: real, y: real) {
    function Plus(o: Vec2): Vec2 { Vec2(x + o.x, y + o.y) }
    function Minus(o: Vec2): Vec2 { Vec2(x - o.x, y - o.y) }
    function Scale(s: real): Vec2 { Vec2(x * s, y * s) }
    function Over(s: real): Vec2 requires s != 0.0 { Vec2(x / s, y / s) }
    /** 2D cross product, the edge function of the rasterizer */
    function Cross(o: Vec2): real { x * o.y - y * o.x }
  }

  datatype Vec3 = Vec3(x: real, y: real, z: real) {
    function Plus(o: Vec3): Vec3 { Vec3(x + o.x, y + o.y, z + o.z) }
    function Minus(o: Vec3): Vec3 { Vec3(x - o.x, y - o.y, z - o.z) }
    function Neg(): Vec3 { Vec3(-x, -y, -z) }
    function Scale(s: real): Vec3 { Vec3(x * s, y * s, z * s) }
    function Over(s: real): Vec3 requires s != 0.0 { Vec3(x / s, y / s, z / s) }
    function Dot(o: Vec3): real { x * o.x + y * o.y + z * o.z }
    function Cross(o: Vec3): Vec3 { Vec3(y * o.z - z * o.y, z * o.x - x * o.z, x * o.y - y * o.x) }
  }

  datatype Vec4 = Vec4(x: real, y: real, z: real, w: real) {
    function Plus(o: Vec4): Vec4 { Vec4(x + o.x, y + o.y, z + o.z, w + o.w) }
    function Scale(s: real): Vec4 { Vec4(x * s, y * s, z * s, w * s) }
    /** The first three components, as a Vector3 built from a Vector4 */
    function Xyz(): Vec3 { Vec3(x, y, z) }
  }

  datatype ColorRGB = ColorRGB(r: real, g: real, b: real) {
    function Plus(o: ColorRGB): ColorRGB { ColorRGB(r + o.r, g + o.g, b + o.b) }
    function Minus(o: ColorRGB): ColorRGB { ColorRGB(r - o.r, g - o.g, b - o.b) }
    function Scale(s: real): ColorRGB { ColorRGB(r * s, g * s, b * s) }
    function Over(s: real): ColorRGB requires s != 0.0 { ColorRGB(r / s, g / s, b / s) }
  }

  const Zero2 := Vec2(0.0, 0.0)
  const Zero3 := Vec3(0.0, 0.0, 0.0)
  const Zero4 := Vec4(0.0, 0.0, 0.0, 0.0)
  const White := ColorRGB(1.0, 1.0, 1.0)
  const Black := ColorRGB(0.0, 0.0, 0.0)

  function Gray(v: real): ColorRGB { ColorRGB(v, v, v) }

  /** The operations of Math.h the model keeps abstract (they need a square root). */
  datatype Geometry = Geometry(normalized: Vec3 -> Vec3, magnitude: Vec3 -> real)

  /** Clamp(v, lo, hi) of the program's math utilities */
  function Clamp(v: real, lo: real, hi: real): (r: real)
    requires lo <= hi
    ensures lo <= r <= hi
    ensures lo <= v <= hi ==> r == v
  {
    if v < lo then lo else if v > hi then hi else v
  }

  /** std::ceil on a real, as an integer */
  function Ceil(v: real): (c: int)
    ensures (c - 1) as real < v <= c as real
  {
    if v.Floor as real == v then v.Floor else v.Floor + 1
  }

  /** static_cast<int> of a float: truncation toward zero */
  function Trunc(v: real): (t: int)
    ensures v >= 0.0 ==> t as real <= v < t as real + 1.0
    ensures v < 0.0 ==> t as real - 1.0 < v <= t as real
  {
    if v >= 0.0 then v.Floor else -((-v).Floor)
  }

  /** A product divided by its nonzero factor w gives back the other factor */
  lemma MulDivCancel(p: real, a: real, w: real)
    requires w != 0.0 && p == a * w
    ensures p / w == a
  {
    var q := p / w;
    assert q * w == p;
    assert (q - a) * w == 0.0;
  }
}
