/**
 * Specification of one call of `SoftwareRenderer::RenderTriangle`: the
 * bounding box, the edge-function coverage test, the barycentric weights,
 * reciprocal-z depth interpolation, the depth range reject, the depth test,
 * and which entries of the depth buffer (indexed `px * H + py`) and the
 * colour buffer (indexed `px + py * W`) it writes.
 */
module Raster {
  import opened Geometry

  /** `FLT_MAX`, the depth every entry is reset to at the start of a frame. */
  const FltMax: real := 340282346638528859811704183484516925440.0

  newtype uint32 = x: int | 0 <= x < 0x1_0000_0000

  /** `0xFF000000 | 100 | 100 << 8 | 100 << 16`, the frame's background colour. */
  const ClearColor: uint32 := 0xFF64_6464

  /**
   * The part of `Vertex_Out` the rasterizer reads: position (screen x and
   * y after the raster mapping, NDC z, clip-space w) and uv.
   */
  datatype VertexOut = VertexOut(position: Vec4, uv: Vec2)

  datatype Triangle = Triangle(v0: VertexOut, v1: VertexOut, v2: VertexOut)

  function XY(v: VertexOut): Vec2 {
    Vec2(v.position.x, v.position.y)
  }

  /** `pixelPos`: the integer pixel coordinates as a point (no half-pixel offset). */
  function PixelPos(px: int, py: int): Vec2 {
    Vec2(px as real, py as real)
  }

  // ---- Bounding box ----

  /** Pixels `xMin <= px < xMax`, `yMin <= py < yMax` (exclusive upper bounds). */
  datatype Box = Box(xMin: int, xMax: int, yMin: int, yMax: int)

  /** `topLeft` before clamping: 2 below v0 and v1, 1 below v2. */
  function LowX(t: Triangle): real {
    Min(Min(t.v0.position.x - 1.0, t.v1.position.x - 1.0) - 1.0, t.v2.position.x - 1.0)
  }
  function LowY(t: Triangle): real {
    Min(Min(t.v0.position.y - 1.0, t.v1.position.y - 1.0) - 1.0, t.v2.position.y - 1.0)
  }
  /** `bottomRight` before clamping: 2 above v0 and v1, 1 above v2. */
  function HighX(t: Triangle): real {
    Max(Max(t.v0.position.x + 1.0, t.v1.position.x + 1.0) + 1.0, t.v2.position.x + 1.0)
  }
  function HighY(t: Triangle): real {
    Max(Max(t.v0.position.y + 1.0, t.v1.position.y + 1.0) + 1.0, t.v2.position.y + 1.0)
  }

  /**
   * The box corners truncated to int and clamped to the screen. Because
   * the loops stop before the clamped upper corner, the last column
   * (`W - 1`) and the last row (`H - 1`) are never visited.
   */
  function BoundingBox(t: Triangle, width: int, height: int): (b: Box)
    requires width >= 1 && height >= 1
    ensures 0 <= b.xMin <= b.xMax <= width - 1
    ensures 0 <= b.yMin <= b.yMax <= height - 1
  {
    TruncMonotone(LowX(t), HighX(t));
    TruncMonotone(LowY(t), HighY(t));
    ClampMonotone(Trunc(LowX(t)), Trunc(HighX(t)), 0, width - 1);
    ClampMonotone(Trunc(LowY(t)), Trunc(HighY(t)), 0, height - 1);
    Box(Clamp(Trunc(LowX(t)), 0, width - 1), Clamp(Trunc(HighX(t)), 0, width - 1),
        Clamp(Trunc(LowY(t)), 0, height - 1), Clamp(Trunc(HighY(t)), 0, height - 1))
  }

  predicate InBox(b: Box, px: int, py: int) {
    b.xMin <= px < b.xMax && b.yMin <= py < b.yMax
  }

  // ---- Coverage ----

  /** `crossA`: side v0->v1 against v0->pixel. */
  function EdgeA(t: Triangle, p: Vec2): real {
    Cross(Sub(XY(t.v1), XY(t.v0)), Sub(p, XY(t.v0)))
  }
  /** `crossB`: side v1->v2 against v1->pixel. */
  function EdgeB(t: Triangle, p: Vec2): real {
    Cross(Sub(XY(t.v2), XY(t.v1)), Sub(p, XY(t.v1)))
  }
  /** `crossC`: side v2->v0 against v2->pixel. */
  function EdgeC(t: Triangle, p: Vec2): real {
    Cross(Sub(XY(t.v0), XY(t.v2)), Sub(p, XY(t.v2)))
  }

  /** The pixel is drawn only if none of the three cross products is negative. */
  predicate Covers(t: Triangle, p: Vec2) {
    EdgeA(t, p) >= 0.0 && EdgeB(t, p) >= 0.0 && EdgeC(t, p) >= 0.0
  }

  /** Twice the signed area of the triangle. */
  function DoubleArea(t: Triangle): real {
    Cross(XY(t.v0), XY(t.v1)) + Cross(XY(t.v1), XY(t.v2)) + Cross(XY(t.v2), XY(t.v0))
  }

  /** `totalWeight` does not depend on the pixel: it is twice the signed area. */
  lemma EdgeSumIsDoubleArea(t: Triangle, p: Vec2)
    ensures EdgeA(t, p) + EdgeB(t, p) + EdgeC(t, p) == DoubleArea(t)
  {
  }

  /** A covered pixel exists only for a triangle of non-negative signed area. */
  lemma CoveredMeansNonNegativeArea(t: Triangle, p: Vec2)
    requires Covers(t, p)
    ensures DoubleArea(t) >= 0.0
  {
    EdgeSumIsDoubleArea(t, p);
  }

  // ---- Barycentric weights ----

  datatype Weights = Weights(w0: real, w1: real, w2: real)

  /**
   * `weight0 = crossB`, `weight1 = crossC`, `weight2 = crossA`, each divided
   * by their sum: the weight of a vertex is the edge function of the side
   * opposite it. They always sum to 1 and lie in [0, 1] for a covered pixel.
   */
  function BarycentricWeights(t: Triangle, p: Vec2): (w: Weights)
    requires DoubleArea(t) != 0.0
    ensures w.w0 + w.w1 + w.w2 == 1.0
    ensures Covers(t, p) ==> 0.0 <= w.w0 <= 1.0 && 0.0 <= w.w1 <= 1.0 && 0.0 <= w.w2 <= 1.0
  {
    EdgeSumIsDoubleArea(t, p);
    var total := EdgeB(t, p) + EdgeC(t, p) + EdgeA(t, p);
    var w := Weights(EdgeB(t, p) / total, EdgeC(t, p) / total, EdgeA(t, p) / total);
    FractionsSumToOne(EdgeB(t, p), EdgeC(t, p), EdgeA(t, p));
    if Covers(t, p) then
      FractionInUnit(EdgeB(t, p), EdgeC(t, p) + EdgeA(t, p));
      FractionInUnit(EdgeC(t, p), EdgeB(t, p) + EdgeA(t, p));
      FractionInUnit(EdgeA(t, p), EdgeB(t, p) + EdgeC(t, p));
      w
    else
      w
  }

  lemma FractionsSumToOne(a: real, b: real, c: real)
    requires a + b + c != 0.0
    ensures a / (a + b + c) + b / (a + b + c) + c / (a + b + c) == 1.0
  {
    var s := a + b + c;
    assert a / s + b / s + c / s == (a + b + c) / s;
  }

  lemma FractionInUnit(a: real, rest: real)
    requires a >= 0.0 && rest >= 0.0 && a + rest != 0.0
    ensures 0.0 <= a / (a + rest) <= 1.0
  {
    var s := a + rest;
    assert s > 0.0;
    assert a / s * s == a;
  }

  /** The weighted vertices give back the pixel: the weights are its barycentric coordinates. */
  lemma WeightsReproducePixel(t: Triangle, p: Vec2)
    requires DoubleArea(t) != 0.0
    ensures var w := BarycentricWeights(t, p);
      w.w0 * t.v0.position.x + w.w1 * t.v1.position.x + w.w2 * t.v2.position.x == p.x &&
      w.w0 * t.v0.position.y + w.w1 * t.v1.position.y + w.w2 * t.v2.position.y == p.y
  {
    EdgeSumIsDoubleArea(t, p);
    var eA, eB, eC := EdgeA(t, p), EdgeB(t, p), EdgeC(t, p);
    var a, b, c := XY(t.v0), XY(t.v1), XY(t.v2);
    EdgeCombination(a.x, a.y, b.x, b.y, c.x, c.y, p.x, p.y);
    NormalisedCombination(eB, eC, eA, a.x, b.x, c.x, p.x);
    NormalisedCombination(eB, eC, eA, a.y, b.y, c.y, p.y);
  }

  /** The edge functions, as weights on the opposite vertices, sum the vertices to their total times the point. */
  lemma EdgeCombination(x0: real, y0: real, x1: real, y1: real, x2: real, y2: real, px: real, py: real)
    ensures var eA := (x1 - x0) * (py - y0) - (y1 - y0) * (px - x0);
      var eB := (x2 - x1) * (py - y1) - (y2 - y1) * (px - x1);
      var eC := (x0 - x2) * (py - y2) - (y0 - y2) * (px - x2);
      eB * x0 + eC * x1 + eA * x2 == (eB + eC + eA) * px &&
      eB * y0 + eC * y1 + eA * y2 == (eB + eC + eA) * py
  {
  }

  /** Dividing the weights of a combination by their sum divides the combination by it. */
  lemma NormalisedCombination(k0: real, k1: real, k2: real, x0: real, x1: real, x2: real, v: real)
    requires k0 + k1 + k2 != 0.0
    requires k0 * x0 + k1 * x1 + k2 * x2 == (k0 + k1 + k2) * v
    ensures (k0 / (k0 + k1 + k2)) * x0 + (k1 / (k0 + k1 + k2)) * x1 + (k2 / (k0 + k1 + k2)) * x2 == v
  {
    var s := k0 + k1 + k2;
    assert (k0 / s) * x0 + (k1 / s) * x1 + (k2 / s) * x2 == (k0 * x0 + k1 * x1 + k2 * x2) / s;
  }

  // ---- Depth and perspective-correct interpolation ----

  predicate OneSign(a: real, b: real, c: real) {
    (a > 0.0 && b > 0.0 && c > 0.0) || (a < 0.0 && b < 0.0 && c < 0.0)
  }

  /**
   * What the unguarded divisions of `RenderTriangle` need: a triangle of
   * non-zero area (`totalWeight`), and vertex z and w values that are
   * non-zero and of one sign, so that the interpolated reciprocals are
   * never zero either.
   */
  predicate SafeDivisors(t: Triangle) {
    DoubleArea(t) != 0.0 &&
    OneSign(t.v0.position.z, t.v1.position.z, t.v2.position.z) &&
    OneSign(t.v0.position.w, t.v1.position.w, t.v2.position.w)
  }

  predicate Convex(w: Weights) {
    w.w0 >= 0.0 && w.w1 >= 0.0 && w.w2 >= 0.0 && w.w0 + w.w1 + w.w2 == 1.0
  }

  /** `(1/a0)*w0 + (1/a1)*w1 + (1/a2)*w2`: the interpolated reciprocal. */
  function ReciprocalBlend(a0: real, a1: real, a2: real, w: Weights): (r: real)
    requires OneSign(a0, a1, a2)
    requires Convex(w)
    ensures a0 > 0.0 ==> r > 0.0
    ensures a0 < 0.0 ==> r < 0.0
  {
    var r := (1.0 / a0) * w.w0 + (1.0 / a1) * w.w1 + (1.0 / a2) * w.w2;
    if a0 > 0.0 then
      assert 1.0 / a0 > 0.0 && 1.0 / a1 > 0.0 && 1.0 / a2 > 0.0;
      PositiveBlend(1.0 / a0, 1.0 / a1, 1.0 / a2, w);
      r
    else
      assert 1.0 / a0 < 0.0 && 1.0 / a1 < 0.0 && 1.0 / a2 < 0.0;
      PositiveBlend(-(1.0 / a0), -(1.0 / a1), -(1.0 / a2), w);
      r
  }

  lemma PositiveBlend(c0: real, c1: real, c2: real, w: Weights)
    requires c0 > 0.0 && c1 > 0.0 && c2 > 0.0 && Convex(w)
    ensures c0 * w.w0 + c1 * w.w1 + c2 * w.w2 > 0.0
  {
    assert c0 * w.w0 >= 0.0 && c1 * w.w1 >= 0.0 && c2 * w.w2 >= 0.0;
    if w.w0 > 0.0 {
      assert c0 * w.w0 > 0.0;
    } else if w.w1 > 0.0 {
      assert c1 * w.w1 > 0.0;
    } else {
      assert w.w2 > 0.0;
      assert c2 * w.w2 > 0.0;
    }
  }

  /** `interpolatedZDepth`: the reciprocal of the blended reciprocal z. */
  function PixelDepth(t: Triangle, p: Vec2): real
    requires SafeDivisors(t) && Covers(t, p)
  {
    1.0 / ReciprocalBlend(t.v0.position.z, t.v1.position.z, t.v2.position.z, BarycentricWeights(t, p))
  }

  /** `interpolatedWDepth`: the reciprocal of the blended reciprocal w. */
  function PixelW(t: Triangle, p: Vec2): real
    requires SafeDivisors(t) && Covers(t, p)
  {
    1.0 / ReciprocalBlend(t.v0.position.w, t.v1.position.w, t.v2.position.w, BarycentricWeights(t, p))
  }

  /** One perspective-correct attribute: each value divided by its vertex's w, blended, times the interpolated w. */
  function PerspectiveBlend(x0: real, x1: real, x2: real, a: real, b: real, c: real, w: Weights, wd: real): real
    requires a != 0.0 && b != 0.0 && c != 0.0
  {
    ((x0 / a) * w.w0 + (x1 / b) * w.w1 + (x2 / c) * w.w2) * wd
  }

  /** `interpolatedUV`. */
  function PixelUV(t: Triangle, p: Vec2): Vec2
    requires SafeDivisors(t) && Covers(t, p)
  {
    var w := BarycentricWeights(t, p);
    var wd := PixelW(t, p);
    var a, b, c := t.v0.position.w, t.v1.position.w, t.v2.position.w;
    Vec2(PerspectiveBlend(t.v0.uv.x, t.v1.uv.x, t.v2.uv.x, a, b, c, w, wd),
         PerspectiveBlend(t.v0.uv.y, t.v1.uv.y, t.v2.uv.y, a, b, c, w, wd))
  }

  /** Perspective-correct interpolation reproduces a uv that all three vertices share. */
  lemma UniformUVIsKept(t: Triangle, p: Vec2)
    requires SafeDivisors(t) && Covers(t, p)
    requires t.v0.uv == t.v1.uv == t.v2.uv
    ensures PixelUV(t, p) == t.v0.uv
  {
    var w := BarycentricWeights(t, p);
    var a, b, c := t.v0.position.w, t.v1.position.w, t.v2.position.w;
    UniformBlend(t.v0.uv.x, a, b, c, w);
    UniformBlend(t.v0.uv.y, a, b, c, w);
  }

  /** A value shared by the three vertices comes back unchanged from the perspective-correct blend. */
  lemma UniformBlend(u: real, a: real, b: real, c: real, w: Weights)
    requires OneSign(a, b, c) && Convex(w)
    ensures PerspectiveBlend(u, u, u, a, b, c, w, 1.0 / ReciprocalBlend(a, b, c, w)) == u
  {
    var blend := ReciprocalBlend(a, b, c, w);
    assert blend == (1.0 / a) * w.w0 + (1.0 / b) * w.w1 + (1.0 / c) * w.w2;
    assert (u / a) * w.w0 + (u / b) * w.w1 + (u / c) * w.w2 == u * blend;
    assert u * blend * (1.0 / blend) == u;
  }

  /** The fragment handed to `PixelShading`: pixel position, depth, w and uv. */
  function Fragment(t: Triangle, px: int, py: int): VertexOut
    requires SafeDivisors(t) && Covers(t, PixelPos(px, py))
  {
    var p := PixelPos(px, py);
    VertexOut(Vec4(p.x, p.y, PixelDepth(t, p), PixelW(t, p)), PixelUV(t, p))
  }

  // ---- Depth test and buffer indices ----

  /** The z range reject: `interpolatedZDepth < 0 || interpolatedZDepth > 1` skips the pixel. */
  predicate DepthInRange(z: real) {
    !(z < 0.0 || z > 1.0)
  }

  /** The depth test skips only when the stored depth is strictly smaller. */
  predicate PassesDepthTest(stored: real, z: real) {
    !(stored < z)
  }

  /** `px * m_Height + py`, the depth-buffer entry of a pixel. */
  function DepthIndex(px: int, py: int, height: int): int {
    px * height + py
  }

  /** `px + py * m_Width`, the colour-buffer entry of a pixel. */
  function ColorIndex(px: int, py: int, width: int): int {
    px + py * width
  }

  /** Both buffer indices of an on-screen pixel lie in `[0, W * H)`. */
  lemma {:induction false} IndicesInRange(px: int, py: int, width: int, height: int)
    requires 0 <= px < width && 0 <= py < height
    ensures 0 <= DepthIndex(px, py, height) < width * height
    ensures 0 <= ColorIndex(px, py, width) < width * height
  {
    MulLeMono(px, width - 1, height);
    MulLeMono(py, height - 1, width);
    assert (width - 1) * height == width * height - height;
    assert (height - 1) * width == width * height - width;
  }

  lemma MulLeMono(a: int, b: int, c: nat)
    requires a <= b
    ensures a * c <= b * c
  {
  }

  /** Both indices are one-to-one on the screen: each entry belongs to exactly one pixel. */
  lemma {:induction false} IndicesInvert(px: int, py: int, width: int, height: int)
    requires 0 <= px < width && 0 <= py < height
    ensures DepthIndex(px, py, height) / height == px && DepthIndex(px, py, height) % height == py
    ensures ColorIndex(px, py, width) % width == px && ColorIndex(px, py, width) / width == py
  {
    DivModUnique(DepthIndex(px, py, height), height, px, py);
    DivModUnique(ColorIndex(px, py, width), width, py, px);
  }

  predicate Screen(width: int, height: int, depth: seq<real>) {
    width >= 1 && height >= 1 && |depth| == width * height
  }

  /** The depth of pixel `(px, py)` read from the buffer, `px * H + py`. */
  function StoredDepth(width: int, height: int, depth: seq<real>, px: int, py: int): real
    requires Screen(width, height, depth) && 0 <= px < width && 0 <= py < height
  {
    IndicesInRange(px, py, width, height);
    depth[DepthIndex(px, py, height)]
  }

  /**
   * Pixel `(px, py)` survives every test of the loop body against the
   * depth buffer as it was before the triangle: inside the box, covered,
   * depth in [0, 1], and not behind the stored depth. Exactly these
   * pixels get a depth write and a colour write.
   */
  predicate Writes(t: Triangle, width: int, height: int, depth: seq<real>, px: int, py: int)
    requires Screen(width, height, depth) && SafeDivisors(t)
  {
    InBox(BoundingBox(t, width, height), px, py) &&
    Covers(t, PixelPos(px, py)) &&
    DepthInRange(PixelDepth(t, PixelPos(px, py))) &&
    PassesDepthTest(StoredDepth(width, height, depth, px, py), PixelDepth(t, PixelPos(px, py)))
  }

  /** The depth buffer after `RenderTriangle`. */
  function RasterDepth(t: Triangle, width: int, height: int, depth: seq<real>): (r: seq<real>)
    requires Screen(width, height, depth) && SafeDivisors(t)
    ensures |r| == |depth|
  {
    seq(|depth|, k requires 0 <= k < |depth| =>
      if Writes(t, width, height, depth, k / height, k % height)
      then PixelDepth(t, PixelPos(k / height, k % height)) else depth[k])
  }

  /** The colour buffer after `RenderTriangle`; `shade` stands for `PixelShading`, `MaxToOne` and `SDL_MapRGB`. */
  function RasterColor(t: Triangle, width: int, height: int, depth: seq<real>, color: seq<uint32>,
                       shade: VertexOut -> uint32): (r: seq<uint32>)
    requires Screen(width, height, depth) && |color| == width * height && SafeDivisors(t)
    ensures |r| == |color|
  {
    seq(|color|, j requires 0 <= j < |color| =>
      if Writes(t, width, height, depth, j % width, j / width)
      then shade(Fragment(t, j % width, j / width)) else color[j])
  }
}
