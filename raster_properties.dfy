/**
 * What one `RenderTriangle` call does to the two buffers, pixel by pixel:
 * the bounding box misses no covered pixel except the last row and
 * column, the depth test keeps the minimum with ties going to the new
 * triangle, depths never grow and stay FLT_MAX or in [0, 1], colour is
 * written exactly where depth is, and the nearer of two triangles wins
 * whatever the drawing order.
 */
module RasterProperties {
  import opened Geometry
  import opened Raster

  /** `k / n` of an entry below `m * n` is a row index below `m`. */
  lemma QuotientBelow(k: int, n: int, m: int)
    requires n >= 1 && m >= 1 && 0 <= k < m * n
    ensures 0 <= k / n < m && 0 <= k % n < n && k == (k / n) * n + k % n
  {
    var q := k / n;
    assert k == q * n + k % n;
    if q >= m {
      MulLeMono(m, q, n);
      assert false;
    }
  }

  /** Every buffer entry belongs to one on-screen pixel, its pre-image under the index map. */
  lemma {:induction false} PixelOfEntry(k: int, width: int, height: int)
    requires width >= 1 && height >= 1 && 0 <= k < width * height
    ensures 0 <= k / height < width && 0 <= k % height < height
    ensures DepthIndex(k / height, k % height, height) == k
    ensures 0 <= k % width < width && 0 <= k / width < height
    ensures ColorIndex(k % width, k / width, width) == k
  {
    QuotientBelow(k, height, width);
    assert width * height == height * width;
    QuotientBelow(k, width, height);
  }

  /** The rasterized buffers, read at one pixel. */
  lemma {:induction false} RasterAtPixel(t: Triangle, width: int, height: int, depth: seq<real>,
                                         color: seq<uint32>, shade: VertexOut -> uint32, px: int, py: int)
    requires Screen(width, height, depth) && |color| == width * height && SafeDivisors(t)
    requires 0 <= px < width && 0 <= py < height
    ensures 0 <= DepthIndex(px, py, height) < |depth| && 0 <= ColorIndex(px, py, width) < |color|
    ensures RasterDepth(t, width, height, depth)[DepthIndex(px, py, height)]
         == if Writes(t, width, height, depth, px, py) then PixelDepth(t, PixelPos(px, py))
            else depth[DepthIndex(px, py, height)]
    ensures RasterColor(t, width, height, depth, color, shade)[ColorIndex(px, py, width)]
         == if Writes(t, width, height, depth, px, py) then shade(Fragment(t, px, py))
            else color[ColorIndex(px, py, width)]
  {
    IndicesInRange(px, py, width, height);
    IndicesInvert(px, py, width, height);
  }

  /**
   * The depth test at a covered pixel of the box: a depth outside [0, 1]
   * changes neither buffer; otherwise the entry becomes the minimum of the
   * stored and the new depth, and the colour is written when the new depth
   * is not behind the stored one, ties included.
   */
  lemma {:induction false} DepthTestAtPixel(t: Triangle, width: int, height: int, depth: seq<real>,
                                            color: seq<uint32>, shade: VertexOut -> uint32, px: int, py: int)
    requires Screen(width, height, depth) && |color| == width * height && SafeDivisors(t)
    requires InBox(BoundingBox(t, width, height), px, py) && Covers(t, PixelPos(px, py))
    ensures 0 <= DepthIndex(px, py, height) < |depth| && 0 <= ColorIndex(px, py, width) < |color|
    ensures var z, stored := PixelDepth(t, PixelPos(px, py)), depth[DepthIndex(px, py, height)];
      var d', c' := RasterDepth(t, width, height, depth), RasterColor(t, width, height, depth, color, shade);
      (!DepthInRange(z) ==> d'[DepthIndex(px, py, height)] == stored &&
                            c'[ColorIndex(px, py, width)] == color[ColorIndex(px, py, width)]) &&
      (DepthInRange(z) ==> d'[DepthIndex(px, py, height)] == Min(stored, z)) &&
      (DepthInRange(z) && stored == z ==> c'[ColorIndex(px, py, width)] == shade(Fragment(t, px, py))) &&
      (DepthInRange(z) && stored < z ==> c'[ColorIndex(px, py, width)] == color[ColorIndex(px, py, width)])
  {
    RasterAtPixel(t, width, height, depth, color, shade, px, py);
  }

  /** The last column and the last row of the screen are never written. */
  lemma {:induction false} LastColumnAndRowKept(t: Triangle, width: int, height: int, depth: seq<real>,
                                                color: seq<uint32>, shade: VertexOut -> uint32, px: int, py: int)
    requires Screen(width, height, depth) && |color| == width * height && SafeDivisors(t)
    requires 0 <= px < width && 0 <= py < height && (px == width - 1 || py == height - 1)
    ensures 0 <= DepthIndex(px, py, height) < |depth| && 0 <= ColorIndex(px, py, width) < |color|
    ensures RasterDepth(t, width, height, depth)[DepthIndex(px, py, height)] == depth[DepthIndex(px, py, height)]
    ensures RasterColor(t, width, height, depth, color, shade)[ColorIndex(px, py, width)]
         == color[ColorIndex(px, py, width)]
  {
    RasterAtPixel(t, width, height, depth, color, shade, px, py);
  }

  /** No depth entry ever grows. */
  lemma {:induction false} DepthNeverIncreases(t: Triangle, width: int, height: int, depth: seq<real>)
    requires Screen(width, height, depth) && SafeDivisors(t)
    ensures forall k :: 0 <= k < |depth| ==> RasterDepth(t, width, height, depth)[k] <= depth[k]
  {
    forall k | 0 <= k < |depth| ensures RasterDepth(t, width, height, depth)[k] <= depth[k] {
      PixelOfEntry(k, width, height);
    }
  }

  /** Every depth entry is the clear value FLT_MAX or a depth in [0, 1]. */
  predicate DepthsValid(depth: seq<real>) {
    forall k :: 0 <= k < |depth| ==> depth[k] == FltMax || 0.0 <= depth[k] <= 1.0
  }

  lemma {:induction false} RasterKeepsDepthsValid(t: Triangle, width: int, height: int, depth: seq<real>)
    requires Screen(width, height, depth) && SafeDivisors(t) && DepthsValid(depth)
    ensures DepthsValid(RasterDepth(t, width, height, depth))
  {
    var d' := RasterDepth(t, width, height, depth);
    forall k | 0 <= k < |d'| ensures d'[k] == FltMax || 0.0 <= d'[k] <= 1.0 {
      PixelOfEntry(k, width, height);
    }
  }

  /** The colour of pixel `(px, py)` read from the buffer, `px + py * W`. */
  function StoredColor(width: int, height: int, color: seq<uint32>, px: int, py: int): uint32
    requires width >= 1 && height >= 1 && |color| == width * height
    requires 0 <= px < width && 0 <= py < height
  {
    IndicesInRange(px, py, width, height);
    color[ColorIndex(px, py, width)]
  }

  /** A pixel whose depth entry still holds FLT_MAX still shows the clear colour. */
  predicate UnwrittenKeepClear(width: int, height: int, depth: seq<real>, color: seq<uint32>)
    requires Screen(width, height, depth) && |color| == width * height
  {
    forall px, py :: 0 <= px < width && 0 <= py < height ==>
      StoredDepth(width, height, depth, px, py) == FltMax ==> StoredColor(width, height, color, px, py) == ClearColor
  }

  /**
   * Colour is written only together with a depth in [0, 1], so a pixel
   * that still has the clear depth keeps the clear colour.
   */
  lemma {:induction false} RasterKeepsUnwrittenClear(t: Triangle, width: int, height: int, depth: seq<real>,
                                                     color: seq<uint32>, shade: VertexOut -> uint32)
    requires Screen(width, height, depth) && |color| == width * height && SafeDivisors(t)
    requires UnwrittenKeepClear(width, height, depth, color)
    ensures UnwrittenKeepClear(width, height, RasterDepth(t, width, height, depth),
                               RasterColor(t, width, height, depth, color, shade))
  {
    var d', c' := RasterDepth(t, width, height, depth), RasterColor(t, width, height, depth, color, shade);
    forall px, py | 0 <= px < width && 0 <= py < height && StoredDepth(width, height, d', px, py) == FltMax
      ensures StoredColor(width, height, c', px, py) == ClearColor
    {
      RasterAtPixel(t, width, height, depth, color, shade, px, py);
      if !Writes(t, width, height, depth, px, py) {
        assert StoredDepth(width, height, depth, px, py) == FltMax;
        assert StoredColor(width, height, color, px, py) == ClearColor;
      }
    }
  }

  /**
   * Two triangles covering one pixel at depths `z1 < z2` in [0, 1] over a
   * stored depth no nearer than `z2`: whichever is drawn first, the pixel
   * ends with depth `z1` and the nearer triangle's colour.
   */
  lemma {:induction false} NearerTriangleWins(t1: Triangle, t2: Triangle, width: int, height: int,
                                              depth: seq<real>, color: seq<uint32>, shade: VertexOut -> uint32,
                                              px: int, py: int)
    requires Screen(width, height, depth) && |color| == width * height
    requires SafeDivisors(t1) && SafeDivisors(t2)
    requires InBox(BoundingBox(t1, width, height), px, py) && Covers(t1, PixelPos(px, py))
    requires InBox(BoundingBox(t2, width, height), px, py) && Covers(t2, PixelPos(px, py))
    requires 0.0 <= PixelDepth(t1, PixelPos(px, py)) < PixelDepth(t2, PixelPos(px, py)) <= 1.0
    requires StoredDepth(width, height, depth, px, py) >= PixelDepth(t2, PixelPos(px, py))
    ensures 0 <= DepthIndex(px, py, height) < |depth| && 0 <= ColorIndex(px, py, width) < |color|
    // t1 first, then t2
    ensures var d1, c1 := RasterDepth(t1, width, height, depth), RasterColor(t1, width, height, depth, color, shade);
      RasterDepth(t2, width, height, d1)[DepthIndex(px, py, height)] == PixelDepth(t1, PixelPos(px, py)) &&
      RasterColor(t2, width, height, d1, c1, shade)[ColorIndex(px, py, width)] == shade(Fragment(t1, px, py))
    // t2 first, then t1
    ensures var d2, c2 := RasterDepth(t2, width, height, depth), RasterColor(t2, width, height, depth, color, shade);
      RasterDepth(t1, width, height, d2)[DepthIndex(px, py, height)] == PixelDepth(t1, PixelPos(px, py)) &&
      RasterColor(t1, width, height, d2, c2, shade)[ColorIndex(px, py, width)] == shade(Fragment(t1, px, py))
  {
    IndicesInRange(px, py, width, height);
    var d1, c1 := RasterDepth(t1, width, height, depth), RasterColor(t1, width, height, depth, color, shade);
    RasterAtPixel(t1, width, height, depth, color, shade, px, py);
    RasterAtPixel(t2, width, height, d1, c1, shade, px, py);
    var d2, c2 := RasterDepth(t2, width, height, depth), RasterColor(t2, width, height, depth, color, shade);
    RasterAtPixel(t2, width, height, depth, color, shade, px, py);
    RasterAtPixel(t1, width, height, d2, c2, shade, px, py);
  }

  lemma NonNegProduct(k: real, x: real)
    requires k >= 0.0 && x >= 0.0
    ensures k * x >= 0.0
  {
  }

  /** A convex combination lies at or above the smallest of its points. */
  lemma ConvexAbove(w0: real, w1: real, w2: real, lo: real, a: real, b: real, c: real)
    requires w0 >= 0.0 && w1 >= 0.0 && w2 >= 0.0 && w0 + w1 + w2 == 1.0
    requires lo <= a && lo <= b && lo <= c
    ensures lo <= w0 * a + w1 * b + w2 * c
  {
    NonNegProduct(w0, a - lo); NonNegProduct(w1, b - lo); NonNegProduct(w2, c - lo);
    var w2' := 1.0 - w0 - w1;
    assert w0 * (a - lo) + w1 * (b - lo) + w2' * (c - lo) == w0 * a + w1 * b + w2' * c - lo;
  }

  /** A convex combination lies between the smallest and the largest of its points. */
  lemma ConvexBetween(w: Weights, a: real, b: real, c: real)
    requires Convex(w)
    ensures Min(Min(a, b), c) <= w.w0 * a + w.w1 * b + w.w2 * c <= Max(Max(a, b), c)
  {
    var lo, hi := Min(Min(a, b), c), Max(Max(a, b), c);
    ConvexAbove(w.w0, w.w1, w.w2, lo, a, b, c);
    ConvexAbove(w.w0, w.w1, w.w2, -hi, -a, -b, -c);
    assert w.w0 * -a + w.w1 * -b + w.w2 * -c == -(w.w0 * a + w.w1 * b + w.w2 * c);
  }

  lemma BoxCoversCoordinate(p: int, low: real, high: real, size: int, v0: real, v1: real, v2: real)
    requires size >= 1 && 0 <= p < size - 1
    requires low == Min(Min(v0 - 1.0, v1 - 1.0) - 1.0, v2 - 1.0)
    requires high == Max(Max(v0 + 1.0, v1 + 1.0) + 1.0, v2 + 1.0)
    requires Min(Min(v0, v1), v2) <= p as real <= Max(Max(v0, v1), v2)
    ensures Clamp(Trunc(low), 0, size - 1) <= p < Clamp(Trunc(high), 0, size - 1)
  {
    assert low <= p as real - 1.0;
    assert high >= p as real + 1.0;
  }

  /** A covered point lies within the x and y extent of the triangle's vertices. */
  lemma {:induction false} CoveredPointInHull(t: Triangle, p: Vec2)
    requires DoubleArea(t) != 0.0 && Covers(t, p)
    ensures Min(Min(t.v0.position.x, t.v1.position.x), t.v2.position.x) <= p.x
    ensures p.x <= Max(Max(t.v0.position.x, t.v1.position.x), t.v2.position.x)
    ensures Min(Min(t.v0.position.y, t.v1.position.y), t.v2.position.y) <= p.y
    ensures p.y <= Max(Max(t.v0.position.y, t.v1.position.y), t.v2.position.y)
  {
    var w := BarycentricWeights(t, p);
    WeightsReproducePixel(t, p);
    assert Convex(w);
    HullBound(w, t.v0.position.x, t.v1.position.x, t.v2.position.x, p.x);
    HullBound(w, t.v0.position.y, t.v1.position.y, t.v2.position.y, p.y);
  }

  lemma HullBound(w: Weights, a: real, b: real, c: real, v: real)
    requires Convex(w) && w.w0 * a + w.w1 * b + w.w2 * c == v
    ensures Min(Min(a, b), c) <= v <= Max(Max(a, b), c)
  {
    ConvexBetween(w, a, b, c);
  }

  /**
   * The bounding box loses no covered pixel except those of the last
   * column and row, which its exclusive clamped bounds cut off.
   */
  lemma {:induction false} CoveredPixelsInBox(t: Triangle, width: int, height: int, px: int, py: int)
    requires width >= 1 && height >= 1 && DoubleArea(t) != 0.0
    requires Covers(t, PixelPos(px, py))
    requires 0 <= px < width - 1 && 0 <= py < height - 1
    ensures InBox(BoundingBox(t, width, height), px, py)
  {
    CoveredPointInHull(t, PixelPos(px, py));
    BoxCoversCoordinate(px, LowX(t), HighX(t), width, t.v0.position.x, t.v1.position.x, t.v2.position.x);
    BoxCoversCoordinate(py, LowY(t), HighY(t), height, t.v0.position.y, t.v1.position.y, t.v2.position.y);
  }
}
