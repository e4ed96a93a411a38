/**
 * Vector, colour and scalar helpers the rasterizer is written against
 * (Vector2/Vector3/Vector4, ColorRGB, the C++ integer conversion and Clamp).
 * Floats are modelled as Dafny reals.
 */
module Geometry {

  datatype Vec2 = Vec2(x: real, y: real)
  datatype Vec3 = Vec3(x: real, y: real, z: real)
  datatype Vec4 = Vec4(x: real, y: real, z: real, w: real)
  datatype ColorRGB = ColorRGB(r: real, g: real, b: real)

  /** Componentwise difference of two 2D points. */
  function Sub(a: Vec2, b: Vec2): Vec2 {
    Vec2(a.x - b.x, a.y - b.y)
  }

  /** The 2D cross product (signed parallelogram area) of `Vector2::Cross`. */
  function Cross(a: Vec2, b: Vec2): real {
    a.x * b.y - a.y * b.x
  }

  /** A gray colour with all three channels equal to `v`. */
  function Gray(v: real): (c: ColorRGB)
    ensures c.r == c.g == c.b == v
  {
    ColorRGB(v, v, v)
  }

  function Add(a: ColorRGB, b: ColorRGB): ColorRGB {
    ColorRGB(a.r + b.r, a.g + b.g, a.b + b.b)
  }

  function Scale(a: ColorRGB, s: real): ColorRGB {
    ColorRGB(a.r * s, a.g * s, a.b * s)
  }

  function Min(a: real, b: real): real {
    if a <= b then a else b
  }

  function Max(a: real, b: real): real {
    if a >= b then a else b
  }

  /**
   * The C++ conversion `(int)f` (and `Uint32(f)` on non-negative values):
   * truncation toward zero, not Dafny's `Floor`.
   */
  function Trunc(f: real): (t: int)
    ensures f >= 0.0 ==> 0 <= t && t as real <= f < t as real + 1.0
    ensures f < 0.0 ==> t <= 0 && t as real - 1.0 < f <= t as real
  {
    if f >= 0.0 then f.Floor else -((-f).Floor)
  }

  /** `Clamp(v, lo, hi)`: the value of `v` forced into `[lo, hi]`. */
  function Clamp(v: int, lo: int, hi: int): (r: int)
    requires lo <= hi
    ensures lo <= r <= hi
    ensures lo <= v <= hi ==> r == v
    ensures v < lo ==> r == lo
    ensures v > hi ==> r == hi
  {
    if v < lo then lo else if v > hi then hi else v
  }

  lemma TruncMonotone(a: real, b: real)
    requires a <= b
    ensures Trunc(a) <= Trunc(b)
  {
  }

  lemma ClampMonotone(a: int, b: int, lo: int, hi: int)
    requires a <= b && lo <= hi
    ensures Clamp(a, lo, hi) <= Clamp(b, lo, hi)
  {
  }

  lemma MulLower(d: int, n: nat)
    requires d >= 1
    ensures d * n >= n
  {
  }

  /** Euclidean division is unique: `q * n + r` with `0 <= r < n` divides back to `q`, `r`. */
  lemma DivModUnique(k: int, n: int, q: int, r: int)
    requires n > 0 && 0 <= r < n && k == q * n + r
    ensures k / n == q && k % n == r
  {
    var q', r' := k / n, k % n;
    assert k == q' * n + r';
    assert (q' - q) * n == r - r';
    if q' - q >= 1 {
      MulLower(q' - q, n);
    } else if q - q' >= 1 {
      MulLower(q - q', n);
    }
  }
}
