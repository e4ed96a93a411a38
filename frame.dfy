/**
 * Specification of one frame of `SoftwareRenderer::RenderMesh`: the
 * vertex transform's perspective divide, the whole-triangle NDC discard,
 * the NDC-to-raster mapping, and the buffers after every triangle of the
 * topology walk has been rasterized into freshly cleared buffers.
 */
module Frame {
  import opened Geometry
  import opened Raster
  import opened RasterProperties
  import opened Topology
  import opened Shading

  /** The part of `Vertex_PosTex` the software path keeps: position and texture coordinate. */
  datatype VertexIn = VertexIn(position: Vec3, texCoord: Vec2)

  /** Divide x, y and z by w and keep w for perspective-correct interpolation. */
  function PerspectiveDivide(c: Vec4): (r: Vec4)
    requires c.w != 0.0
    ensures r.w == c.w
    ensures r.x * r.w == c.x && r.y * r.w == c.y && r.z * r.w == c.z
  {
    Vec4(c.x / c.w, c.y / c.w, c.z / c.w, c.w)
  }

  /**
   * One iteration of `VertexTransformationFunction`: `wvp` stands for the
   * world-view-projection `TransformPoint`, then the divide; uv is copied.
   */
  function TransformVertex(v: VertexIn, wvp: Vec3 -> Vec4): VertexOut
    requires wvp(v.position).w != 0.0
  {
    VertexOut(PerspectiveDivide(wvp(v.position)), v.texCoord)
  }

  predicate ProjectableVertices(vertices: seq<VertexIn>, wvp: Vec3 -> Vec4) {
    forall i :: 0 <= i < |vertices| ==> wvp(vertices[i].position).w != 0.0
  }

  /** `vertices_out` after the transform: one output per input, in order. */
  function TransformVertices(vertices: seq<VertexIn>, wvp: Vec3 -> Vec4): (out: seq<VertexOut>)
    requires ProjectableVertices(vertices, wvp)
    ensures |out| == |vertices|
    ensures forall i :: 0 <= i < |vertices| ==> out[i].uv == vertices[i].texCoord
  {
    seq(|vertices|, i requires 0 <= i < |vertices| => TransformVertex(vertices[i], wvp))
  }

  /** The per-vertex frustum test: x and y both in [-1, 1]. */
  predicate InNdc(v: VertexOut) {
    !((v.position.x < -1.0 || v.position.x > 1.0) || (v.position.y < -1.0 || v.position.y > 1.0))
  }

  /** NDC to raster space: `x' = (x + 1) / 2 * W`, `y' = (1 - y) / 2 * H` (y flipped). */
  function ToRaster(v: VertexOut, width: int, height: int): VertexOut {
    VertexOut(Vec4((v.position.x + 1.0) / 2.0 * width as real, (1.0 - v.position.y) / 2.0 * height as real,
                   v.position.z, v.position.w), v.uv)
  }

  /** A vertex that passes the NDC test lands inside `[0, W] x [0, H]`. */
  lemma RasterMappingBounds(v: VertexOut, width: int, height: int)
    requires InNdc(v) && width >= 0 && height >= 0
    ensures 0.0 <= ToRaster(v, width, height).position.x <= width as real
    ensures 0.0 <= ToRaster(v, width, height).position.y <= height as real
  {
    var fx, fy := (v.position.x + 1.0) / 2.0, (1.0 - v.position.y) / 2.0;
    assert 0.0 <= fx <= 1.0 && 0.0 <= fy <= 1.0;
    ScaleUnit(fx, width as real);
    ScaleUnit(fy, height as real);
  }

  lemma ScaleUnit(f: real, n: real)
    requires 0.0 <= f <= 1.0 && n >= 0.0
    ensures 0.0 <= f * n <= n
  {
    assert f * n <= 1.0 * n;
  }

  predicate IndicesIn(vertices: seq<VertexOut>, tri: IndexTriple) {
    tri.i0 < |vertices| && tri.i1 < |vertices| && tri.i2 < |vertices|
  }

  /** The three transformed vertices all pass the NDC test. */
  predicate Visible(vertices: seq<VertexOut>, tri: IndexTriple)
    requires IndicesIn(vertices, tri)
  {
    InNdc(vertices[tri.i0]) && InNdc(vertices[tri.i1]) && InNdc(vertices[tri.i2])
  }

  /** The triangle handed to `RenderTriangle`, in raster space. */
  function ScreenTriangle(vertices: seq<VertexOut>, tri: IndexTriple, width: int, height: int): Triangle
    requires IndicesIn(vertices, tri)
  {
    Triangle(ToRaster(vertices[tri.i0], width, height), ToRaster(vertices[tri.i1], width, height),
             ToRaster(vertices[tri.i2], width, height))
  }

  /** The triangle reads existing vertices and, when it is drawn, divides by nothing that is zero. */
  predicate Drawable(vertices: seq<VertexOut>, tri: IndexTriple, width: int, height: int) {
    IndicesIn(vertices, tri) &&
    (Visible(vertices, tri) ==> SafeDivisors(ScreenTriangle(vertices, tri, width, height)))
  }

  predicate AllDrawable(vertices: seq<VertexOut>, tris: seq<IndexTriple>, width: int, height: int) {
    forall j :: 0 <= j < |tris| ==> Drawable(vertices, tris[j], width, height)
  }

  datatype Buffers = Buffers(depth: seq<real>, color: seq<uint32>)

  predicate Sized(b: Buffers, width: int, height: int) {
    Screen(width, height, b.depth) && |b.color| == width * height
  }

  /** `std::fill_n` of the depth buffer with FLT_MAX and `SDL_FillRect` with the clear colour. */
  function ClearedBuffers(width: int, height: int): (b: Buffers)
    requires width >= 1 && height >= 1
    ensures Sized(b, width, height)
  {
    Buffers(seq(width * height, _ => FltMax), seq(width * height, _ => ClearColor))
  }

  /** One triangle of the walk: discarded unless all three vertices are in NDC, else rasterized. */
  function DrawTriangle(b: Buffers, vertices: seq<VertexOut>, tri: IndexTriple, width: int, height: int,
                        shade: VertexOut -> uint32): (r: Buffers)
    requires Sized(b, width, height) && Drawable(vertices, tri, width, height)
    ensures Sized(r, width, height)
  {
    if Visible(vertices, tri) then
      var t := ScreenTriangle(vertices, tri, width, height);
      Buffers(RasterDepth(t, width, height, b.depth), RasterColor(t, width, height, b.depth, b.color, shade))
    else b
  }

  /** The buffers after drawing the triangles `tris` in order. */
  function DrawTriangles(b: Buffers, vertices: seq<VertexOut>, tris: seq<IndexTriple>, width: int, height: int,
                         shade: VertexOut -> uint32): (r: Buffers)
    requires Sized(b, width, height) && AllDrawable(vertices, tris, width, height)
    ensures Sized(r, width, height)
    decreases |tris|
  {
    if tris == [] then b
    else
      var last := |tris| - 1;
      DrawTriangle(DrawTriangles(b, vertices, tris[..last], width, height, shade), vertices, tris[last],
                   width, height, shade)
  }

  /** The buffers at the end of `RenderMesh`. */
  function RenderedFrame(vertices: seq<VertexOut>, indices: seq<nat>, topology: PrimitiveTopology,
                         width: int, height: int, shade: VertexOut -> uint32): Buffers
    requires width >= 1 && height >= 1
    requires AllDrawable(vertices, MeshTriangles(indices, topology), width, height)
  {
    DrawTriangles(ClearedBuffers(width, height), vertices, MeshTriangles(indices, topology), width, height, shade)
  }

  // ---- Frame properties ----

  /** Throughout a frame every depth entry is FLT_MAX or a depth in [0, 1]. */
  lemma {:induction false} FrameDepthsValid(b: Buffers, vertices: seq<VertexOut>, tris: seq<IndexTriple>,
                                            width: int, height: int, shade: VertexOut -> uint32)
    requires Sized(b, width, height) && AllDrawable(vertices, tris, width, height) && DepthsValid(b.depth)
    ensures DepthsValid(DrawTriangles(b, vertices, tris, width, height, shade).depth)
    decreases |tris|
  {
    if tris != [] {
      var last := |tris| - 1;
      var prefix := tris[..last];
      FrameDepthsValid(b, vertices, prefix, width, height, shade);
      var mid := DrawTriangles(b, vertices, prefix, width, height, shade);
      if Visible(vertices, tris[last]) {
        RasterKeepsDepthsValid(ScreenTriangle(vertices, tris[last], width, height), width, height, mid.depth);
      }
    }
  }

  /** In the finished frame every pixel still at depth FLT_MAX shows the clear colour. */
  lemma {:induction false} FrameUnwrittenClear(b: Buffers, vertices: seq<VertexOut>, tris: seq<IndexTriple>,
                                               width: int, height: int, shade: VertexOut -> uint32)
    requires Sized(b, width, height) && AllDrawable(vertices, tris, width, height)
    requires UnwrittenKeepClear(width, height, b.depth, b.color)
    ensures var r := DrawTriangles(b, vertices, tris, width, height, shade);
      UnwrittenKeepClear(width, height, r.depth, r.color)
    decreases |tris|
  {
    if tris != [] {
      var last := |tris| - 1;
      var prefix := tris[..last];
      FrameUnwrittenClear(b, vertices, prefix, width, height, shade);
      var mid := DrawTriangles(b, vertices, prefix, width, height, shade);
      if Visible(vertices, tris[last]) {
        RasterKeepsUnwrittenClear(ScreenTriangle(vertices, tris[last], width, height), width, height,
                                  mid.depth, mid.color, shade);
      }
    }
  }

  /** Freshly cleared buffers: every pixel has depth FLT_MAX and the clear colour. */
  lemma ClearedIsClear(width: int, height: int, px: int, py: int)
    requires width >= 1 && height >= 1 && 0 <= px < width && 0 <= py < height
    ensures var b := ClearedBuffers(width, height);
      StoredDepth(width, height, b.depth, px, py) == FltMax &&
      StoredColor(width, height, b.color, px, py) == ClearColor
  {
    IndicesInRange(px, py, width, height);
  }

  /** A pixel of the last column or row keeps the values it had before the triangles. */
  lemma {:induction false} FrameEdgesKept(b: Buffers, vertices: seq<VertexOut>, tris: seq<IndexTriple>,
                                          width: int, height: int, shade: VertexOut -> uint32, px: int, py: int)
    requires Sized(b, width, height) && AllDrawable(vertices, tris, width, height)
    requires 0 <= px < width && 0 <= py < height && (px == width - 1 || py == height - 1)
    ensures var r := DrawTriangles(b, vertices, tris, width, height, shade);
      StoredDepth(width, height, r.depth, px, py) == StoredDepth(width, height, b.depth, px, py) &&
      StoredColor(width, height, r.color, px, py) == StoredColor(width, height, b.color, px, py)
    decreases |tris|
  {
    if tris != [] {
      var last := |tris| - 1;
      var prefix := tris[..last];
      FrameEdgesKept(b, vertices, prefix, width, height, shade, px, py);
      var mid := DrawTriangles(b, vertices, prefix, width, height, shade);
      if Visible(vertices, tris[last]) {
        LastColumnAndRowKept(ScreenTriangle(vertices, tris[last], width, height), width, height,
                             mid.depth, mid.color, shade, px, py);
      }
    }
  }

  /** Drawing more triangles never raises a depth entry: depths only decrease during a frame. */
  lemma {:induction false} FrameDepthMonotone(b: Buffers, vertices: seq<VertexOut>, tris: seq<IndexTriple>,
                                              width: int, height: int, shade: VertexOut -> uint32, i: nat, k: int)
    requires Sized(b, width, height) && AllDrawable(vertices, tris, width, height)
    requires i <= |tris| && 0 <= k < width * height
    ensures DrawTriangles(b, vertices, tris, width, height, shade).depth[k]
         <= DrawTriangles(b, vertices, tris[..i], width, height, shade).depth[k]
    decreases |tris|
  {
    if i < |tris| {
      var last := |tris| - 1;
      var prefix := tris[..last];
      assert prefix[..i] == tris[..i];
      FrameDepthMonotone(b, vertices, prefix, width, height, shade, i, k);
      var mid := DrawTriangles(b, vertices, prefix, width, height, shade);
      if Visible(vertices, tris[last]) {
        DepthNeverIncreases(ScreenTriangle(vertices, tris[last], width, height), width, height, mid.depth);
      }
    } else {
      assert tris[..i] == tris;
    }
  }

  /**
   * The finished frame: depths are FLT_MAX or in [0, 1], a pixel left at
   * FLT_MAX shows the clear colour, and the last column and row are
   * never drawn.
   */
  lemma FrameProperties(vertices: seq<VertexOut>, indices: seq<nat>, topology: PrimitiveTopology,
                        width: int, height: int, shade: VertexOut -> uint32)
    requires width >= 1 && height >= 1
    requires AllDrawable(vertices, MeshTriangles(indices, topology), width, height)
    ensures var r := RenderedFrame(vertices, indices, topology, width, height, shade);
      DepthsValid(r.depth) && UnwrittenKeepClear(width, height, r.depth, r.color)
    ensures var r := RenderedFrame(vertices, indices, topology, width, height, shade);
      forall px, py :: 0 <= px < width && 0 <= py < height && (px == width - 1 || py == height - 1) ==>
        StoredDepth(width, height, r.depth, px, py) == FltMax &&
        StoredColor(width, height, r.color, px, py) == ClearColor
  {
    var b := ClearedBuffers(width, height);
    var tris := MeshTriangles(indices, topology);
    assert DepthsValid(b.depth);
    FrameDepthsValid(b, vertices, tris, width, height, shade);
    forall px, py | 0 <= px < width && 0 <= py < height
      ensures StoredDepth(width, height, b.depth, px, py) == FltMax ==>
              StoredColor(width, height, b.color, px, py) == ClearColor
    {
      ClearedIsClear(width, height, px, py);
    }
    FrameUnwrittenClear(b, vertices, tris, width, height, shade);
    forall px, py | 0 <= px < width && 0 <= py < height && (px == width - 1 || py == height - 1)
      ensures var r := RenderedFrame(vertices, indices, topology, width, height, shade);
        StoredDepth(width, height, r.depth, px, py) == FltMax &&
        StoredColor(width, height, r.color, px, py) == ClearColor
    {
      ClearedIsClear(width, height, px, py);
      FrameEdgesKept(b, vertices, tris, width, height, shade, px, py);
    }
  }
}
