/**
 * `SoftwareRenderer` and its mesh: the depth and back buffers as arrays
 * updated in place by `RenderTriangle`, the frame loop of `RenderMesh`,
 * the vertex transform, and the key-driven state toggles.
 */
module SoftwareRendering {
  import opened Geometry
  import opened Raster
  import opened RasterProperties
  import opened Topology
  import opened Shading
  import opened Frame

  /**
   * The lighting inputs of `PixelShading` (normal-map sample, Lambert
   * cosine, diffuse sample, Phong, depth remap), computed from the
   * fragment and the normal-map switch, and the conversion of the final
   * colour to a pixel (`MaxToOne`, the 255 scale, `SDL_MapRGB`).
   */
  datatype Shader = Shader(lighting: (bool, VertexOut) -> ShadingTerms, pack: ColorRGB -> uint32)

  /** The pixel value written for a fragment in a given mode. */
  function ShadeFragment(sh: Shader, state: RenderState, usingNormalMap: bool): VertexOut -> uint32 {
    v => sh.pack(PixelShading(state, sh.lighting(usingNormalMap, v)))
  }

  /** Entry `k` of the depth buffer belongs to a pixel already visited by the row-major loops. */
  predicate Visited(b: Box, row: int, col: int, px: int, py: int) {
    (b.yMin <= py < row && b.xMin <= px < b.xMax) || (py == row && b.xMin <= px < col)
  }

  /** The depth buffer part-way through `RenderTriangle`: visited pixels as `RasterDepth`, the rest as before. */
  ghost predicate DepthSoFar(t: Triangle, width: int, height: int, d0: seq<real>, cur: seq<real>,
                             row: int, col: int)
    requires Screen(width, height, d0) && SafeDivisors(t)
  {
    |cur| == |d0| &&
    forall k :: 0 <= k < |d0| ==>
      cur[k] == (if Visited(BoundingBox(t, width, height), row, col, k / height, k % height) &&
                    Writes(t, width, height, d0, k / height, k % height)
                 then PixelDepth(t, PixelPos(k / height, k % height)) else d0[k])
  }

  /** The back buffer part-way through `RenderTriangle`. */
  ghost predicate ColorSoFar(t: Triangle, width: int, height: int, d0: seq<real>, c0: seq<uint32>,
                             cur: seq<uint32>, shade: VertexOut -> uint32, row: int, col: int)
    requires Screen(width, height, d0) && |c0| == width * height && SafeDivisors(t)
  {
    |cur| == |c0| &&
    forall j :: 0 <= j < |c0| ==>
      cur[j] == (if Visited(BoundingBox(t, width, height), row, col, j % width, j / width) &&
                    Writes(t, width, height, d0, j % width, j / width)
                 then shade(Fragment(t, j % width, j / width)) else c0[j])
  }

  /** One pixel of the loop body: its entry is still the original one, and writing it (or not) advances `DepthSoFar`. */
  lemma {:induction false} DepthStep(t: Triangle, width: int, height: int, d0: seq<real>, prev: seq<real>,
                                     row: int, col: int)
    requires Screen(width, height, d0) && SafeDivisors(t)
    requires BoundingBox(t, width, height).yMin <= row < BoundingBox(t, width, height).yMax
    requires BoundingBox(t, width, height).xMin <= col < BoundingBox(t, width, height).xMax
    requires DepthSoFar(t, width, height, d0, prev, row, col)
    ensures 0 <= DepthIndex(col, row, height) < |prev|
    ensures prev[DepthIndex(col, row, height)] == d0[DepthIndex(col, row, height)]
    ensures Writes(t, width, height, d0, col, row) ==>
      DepthSoFar(t, width, height, d0,
                 prev[DepthIndex(col, row, height) := PixelDepth(t, PixelPos(col, row))], row, col + 1)
    ensures !Writes(t, width, height, d0, col, row) ==> DepthSoFar(t, width, height, d0, prev, row, col + 1)
  {
    var k0 := DepthIndex(col, row, height);
    IndicesInRange(col, row, width, height);
    IndicesInvert(col, row, width, height);
    var next := if Writes(t, width, height, d0, col, row) then prev[k0 := PixelDepth(t, PixelPos(col, row))] else prev;
    forall k | 0 <= k < |d0|
      ensures next[k] == (if Visited(BoundingBox(t, width, height), row, col + 1, k / height, k % height) &&
                             Writes(t, width, height, d0, k / height, k % height)
                          then PixelDepth(t, PixelPos(k / height, k % height)) else d0[k])
    {
      PixelOfEntry(k, width, height);
    }
  }

  /** The colour counterpart of `DepthStep`. */
  lemma {:induction false} ColorStep(t: Triangle, width: int, height: int, d0: seq<real>, c0: seq<uint32>,
                                     prev: seq<uint32>, shade: VertexOut -> uint32, row: int, col: int)
    requires Screen(width, height, d0) && |c0| == width * height && SafeDivisors(t)
    requires BoundingBox(t, width, height).yMin <= row < BoundingBox(t, width, height).yMax
    requires BoundingBox(t, width, height).xMin <= col < BoundingBox(t, width, height).xMax
    requires ColorSoFar(t, width, height, d0, c0, prev, shade, row, col)
    ensures 0 <= ColorIndex(col, row, width) < |prev|
    ensures Writes(t, width, height, d0, col, row) ==>
      ColorSoFar(t, width, height, d0, c0,
                 prev[ColorIndex(col, row, width) := shade(Fragment(t, col, row))], shade, row, col + 1)
    ensures !Writes(t, width, height, d0, col, row) ==> ColorSoFar(t, width, height, d0, c0, prev, shade, row, col + 1)
  {
    var j0 := ColorIndex(col, row, width);
    IndicesInRange(col, row, width, height);
    IndicesInvert(col, row, width, height);
    var next := if Writes(t, width, height, d0, col, row) then prev[j0 := shade(Fragment(t, col, row))] else prev;
    forall j | 0 <= j < |c0|
      ensures next[j] == (if Visited(BoundingBox(t, width, height), row, col + 1, j % width, j / width) &&
                             Writes(t, width, height, d0, j % width, j / width)
                          then shade(Fragment(t, j % width, j / width)) else c0[j])
    {
      PixelOfEntry(j, width, height);
    }
  }

  /** Once every row of the box is visited, the partial buffers are the rasterized ones. */
  lemma {:induction false} DepthDone(t: Triangle, width: int, height: int, d0: seq<real>, cur: seq<real>)
    requires Screen(width, height, d0) && SafeDivisors(t)
    requires DepthSoFar(t, width, height, d0, cur, BoundingBox(t, width, height).yMax, BoundingBox(t, width, height).xMin)
    ensures cur == RasterDepth(t, width, height, d0)
  {
    var r := RasterDepth(t, width, height, d0);
    forall k | 0 <= k < |d0|
      ensures cur[k] == r[k]
    {
      PixelOfEntry(k, width, height);
    }
  }

  lemma {:induction false} ColorDone(t: Triangle, width: int, height: int, d0: seq<real>, c0: seq<uint32>,
                                     cur: seq<uint32>, shade: VertexOut -> uint32)
    requires Screen(width, height, d0) && |c0| == width * height && SafeDivisors(t)
    requires ColorSoFar(t, width, height, d0, c0, cur, shade, BoundingBox(t, width, height).yMax,
                        BoundingBox(t, width, height).xMin)
    ensures cur == RasterColor(t, width, height, d0, c0, shade)
  {
    var r := RasterColor(t, width, height, d0, c0, shade);
    forall j | 0 <= j < |c0|
      ensures cur[j] == r[j]
    {
      PixelOfEntry(j, width, height);
      var b := BoundingBox(t, width, height);
      assert Visited(b, b.yMax, b.xMin, j % width, j / width) <==> InBox(b, j % width, j / width);
      assert r[j] == (if Writes(t, width, height, d0, j % width, j / width)
                      then shade(Fragment(t, j % width, j / width)) else c0[j]);
      assert cur[j] == (if Visited(b, b.yMax, b.xMin, j % width, j / width) &&
                    Writes(t, width, height, d0, j % width, j / width)
                 then shade(Fragment(t, j % width, j / width)) else c0[j]);
    }
  }

  /**
   * `Mesh_PosTexSoftwareVehicle`: the vertex and index buffers and the
   * topology tag are fixed after construction; `verticesOut` is rewritten
   * every frame, and the world matrix is kept as the time it has been
   * rotated about y at pi/4 rad per second.
   */
  class SoftwareMesh {
    const vertices: seq<VertexIn>
    const indices: seq<nat>
    const topology: PrimitiveTopology
    var verticesOut: seq<VertexOut>
    var rotatedSeconds: real

    constructor (vertices: seq<VertexIn>, indices: seq<nat>, topology: PrimitiveTopology)
      ensures this.vertices == vertices && this.indices == indices && this.topology == topology
      ensures verticesOut == [] && rotatedSeconds == 0.0
    {
      this.vertices := vertices;
      this.indices := indices;
      this.topology := topology;
      verticesOut := [];
      rotatedSeconds := 0.0;
    }
  }

  class SoftwareRenderer {
    const width: int
    const height: int
    /** `m_pDepthBufferPixels`, indexed `px * height + py`. */
    const depthBuffer: array<real>
    /** `m_pBackBufferPixels`, indexed `px + py * width`. */
    const backBuffer: array<uint32>
    const shader: Shader
    const mesh: SoftwareMesh
    /**
     * World-view-projection of a model point for a mesh rotated for the
     * given number of seconds, before the perspective divide.
     */
    const transform: (real, Vec3) -> Vec4
    var state: RenderState
    var usingNormalMap: bool
    /** `BaseRenderer::m_IsRotating`. */
    var isRotating: bool
    /** `BaseRenderer::m_ShouldUseUniformColor`. */
    var shouldUseUniformColor: bool
    /** Flags flipped by `ToggleDepthView`, `ToggleBoundingBoxView` and `CycleCullingMode`. */
    var depthView: bool
    var boundingBoxView: bool
    var cullModeFlipped: bool

    ghost predicate Valid()
      reads this
    {
      width >= 1 && height >= 1 &&
      depthBuffer.Length == width * height && backBuffer.Length == width * height
    }

    constructor (width: int, height: int, shader: Shader, mesh: SoftwareMesh, transform: (real, Vec3) -> Vec4)
      requires width >= 1 && height >= 1
      ensures Valid() && fresh(depthBuffer) && fresh(backBuffer)
      ensures this.width == width && this.height == height && this.shader == shader
      ensures this.mesh == mesh && this.transform == transform
      ensures state == Texture && usingNormalMap && isRotating && !shouldUseUniformColor
      ensures !depthView && !boundingBoxView && !cullModeFlipped
    {
      this.width := width;
      this.height := height;
      this.shader := shader;
      this.mesh := mesh;
      this.transform := transform;
      depthBuffer := new real[width * height];
      backBuffer := new uint32[width * height];
      state := Texture;
      usingNormalMap := true;
      isRotating := true;
      shouldUseUniformColor := false;
      depthView := false;
      boundingBoxView := false;
      cullModeFlipped := false;
    }

    /** The world-view-projection for the mesh's current world matrix. */
    function WorldViewProjection(): Vec3 -> Vec4
      reads this, mesh`rotatedSeconds
    {
      var seconds := mesh.rotatedSeconds;
      p => transform(seconds, p)
    }

    /** The pixel value `RenderTriangle` writes for a fragment in the current mode. */
    function Shade(): VertexOut -> uint32
      reads this
    {
      ShadeFragment(shader, state, usingNormalMap)
    }

    /**
     * What the unguarded divisions of a frame need: every vertex has a
     * non-zero clip w, and every triangle drawn reads existing vertices and
     * meets `SafeDivisors` in raster space.
     */
    ghost predicate CanRender()
      reads this, mesh`rotatedSeconds
    {
      Valid() &&
      ProjectableVertices(mesh.vertices, WorldViewProjection()) &&
      AllDrawable(TransformVertices(mesh.vertices, WorldViewProjection()),
                  MeshTriangles(mesh.indices, mesh.topology), width, height)
    }

    /**
     * Rasterize one raster-space triangle into the buffers: every pixel of
     * the bounding box that the triangle covers, whose interpolated depth
     * is in [0, 1] and not behind the stored depth, gets that depth and its
     * shaded colour; every other entry is left as it was.
     */
    method RenderTriangle(t: Triangle)
      requires Valid() && SafeDivisors(t)
      modifies depthBuffer, backBuffer
      ensures depthBuffer[..] == RasterDepth(t, width, height, old(depthBuffer[..]))
      ensures backBuffer[..] == RasterColor(t, width, height, old(depthBuffer[..]), old(backBuffer[..]),
                                            Shade())
    {
      ghost var d0, c0 := depthBuffer[..], backBuffer[..];
      var shade := Shade();
      var box := BoundingBox(t, width, height);
      var py := box.yMin;
      while py < box.yMax
        invariant box.yMin <= py <= box.yMax
        invariant DepthSoFar(t, width, height, d0, depthBuffer[..], py, box.xMin)
        invariant ColorSoFar(t, width, height, d0, c0, backBuffer[..], shade, py, box.xMin)
      {
        var px := box.xMin;
        while px < box.xMax
          invariant box.xMin <= px <= box.xMax
          invariant DepthSoFar(t, width, height, d0, depthBuffer[..], py, px)
          invariant ColorSoFar(t, width, height, d0, c0, backBuffer[..], shade, py, px)
        {
          ghost var dPrev, cPrev := depthBuffer[..], backBuffer[..];
          DepthStep(t, width, height, d0, dPrev, py, px);
          ColorStep(t, width, height, d0, c0, cPrev, shade, py, px);
          var p := PixelPos(px, py);
          var crossA := EdgeA(t, p);
          if crossA >= 0.0 {
            var crossB := EdgeB(t, p);
            if crossB >= 0.0 {
              var crossC := EdgeC(t, p);
              if crossC >= 0.0 {
                EdgeSumIsDoubleArea(t, p);
                var total := crossB + crossC + crossA;
                var weights := Weights(crossB / total, crossC / total, crossA / total);
                assert weights == BarycentricWeights(t, p);
                var z := 1.0 / ReciprocalBlend(t.v0.position.z, t.v1.position.z, t.v2.position.z, weights);
                assert z == PixelDepth(t, p);
                if !(z < 0.0 || z > 1.0) {
                  if !(depthBuffer[px * height + py] < z) {
                    assert Writes(t, width, height, d0, px, py);
                    depthBuffer[px * height + py] := z;
                    var wDepth := 1.0 / ReciprocalBlend(t.v0.position.w, t.v1.position.w, t.v2.position.w, weights);
                    var fragment := VertexOut(Vec4(p.x, p.y, z, wDepth), PixelUV(t, p));
                    assert fragment == Fragment(t, px, py);
                    backBuffer[px + py * width] := shade(fragment);
                  }
                }
              }
            }
          }
          px := px + 1;
        }
        py := py + 1;
      }
      DepthDone(t, width, height, d0, depthBuffer[..]);
      ColorDone(t, width, height, d0, c0, backBuffer[..], shade);
    }

    /**
     * The vertex transform: one output per input, the perspective-divided
     * clip position and the copied texture coordinate.
     */
    method VertexTransformationFunction(verticesIn: seq<VertexIn>, wvp: Vec3 -> Vec4)
      returns (verticesOut: seq<VertexOut>)
      requires ProjectableVertices(verticesIn, wvp)
      ensures |verticesOut| == |verticesIn|
      ensures forall i :: 0 <= i < |verticesIn| ==>
        verticesOut[i].position == PerspectiveDivide(wvp(verticesIn[i].position)) &&
        verticesOut[i].uv == verticesIn[i].texCoord
      ensures verticesOut == TransformVertices(verticesIn, wvp)
    {
      verticesOut := [];
      for i := 0 to |verticesIn|
        invariant |verticesOut| == i
        invariant forall j :: 0 <= j < i ==> verticesOut[j] == TransformVertex(verticesIn[j], wvp)
      {
        var clip := wvp(verticesIn[i].position);
        var position := Vec4(clip.x / clip.w, clip.y / clip.w, clip.z / clip.w, clip.w);
        verticesOut := verticesOut + [VertexOut(position, verticesIn[i].texCoord)];
      }
    }

    /**
     * One triangle of the walk: skipped when a vertex is outside the NDC
     * square, otherwise mapped to raster space and rasterized.
     */
    method DrawIndexedTriangle(vertices: seq<VertexOut>, tri: IndexTriple)
      requires Valid() && Drawable(vertices, tri, width, height)
      modifies depthBuffer, backBuffer
      ensures Buffers(depthBuffer[..], backBuffer[..])
           == DrawTriangle(Buffers(old(depthBuffer[..]), old(backBuffer[..])), vertices, tri, width, height, Shade())
    {
      var v0, v1, v2 := vertices[tri.i0], vertices[tri.i1], vertices[tri.i2];
      if !InNdc(v0) || !InNdc(v1) || !InNdc(v2) {
        return;
      }
      v0, v1, v2 := ToRaster(v0, width, height), ToRaster(v1, width, height), ToRaster(v2, width, height);
      RenderTriangle(Triangle(v0, v1, v2));
    }

    /** `std::fill_n` of the depth buffer with FLT_MAX and the fill of the back buffer with the clear colour. */
    method ClearBuffers()
      requires Valid()
      modifies depthBuffer, backBuffer
      ensures Buffers(depthBuffer[..], backBuffer[..]) == ClearedBuffers(width, height)
    {
      for k := 0 to width * height
        invariant forall j :: 0 <= j < k ==> depthBuffer[j] == FltMax
      {
        depthBuffer[k] := FltMax;
      }
      for k := 0 to width * height
        invariant forall j :: 0 <= j < k ==> backBuffer[j] == ClearColor
        invariant forall j :: 0 <= j < width * height ==> depthBuffer[j] == FltMax
      {
        backBuffer[k] := ClearColor;
      }
      assert Buffers(depthBuffer[..], backBuffer[..]) == ClearedBuffers(width, height);
    }

    /** The triangle-list walk: triangle `i` is entries `3i, 3i+1, 3i+2`, for `i < N / 3`. */
    method DrawTriangleList(vertices: seq<VertexOut>, idx: seq<nat>)
      requires Valid() && AllDrawable(vertices, ListTriangles(idx), width, height)
      modifies depthBuffer, backBuffer
      ensures Buffers(depthBuffer[..], backBuffer[..])
           == DrawTriangles(Buffers(old(depthBuffer[..]), old(backBuffer[..])), vertices, ListTriangles(idx),
                            width, height, Shade())
    {
      ghost var start := Buffers(depthBuffer[..], backBuffer[..]);
      ghost var tris := ListTriangles(idx);
      ListTrianglesAt(idx);
      for i := 0 to |idx| / 3
        invariant Buffers(depthBuffer[..], backBuffer[..]) == DrawTriangles(start, vertices, tris[..i], width, height, Shade())
      {
        assert tris[..i + 1][..i] == tris[..i];
        assert 3 * i == i * 3;
        DrawIndexedTriangle(vertices, IndexTriple(idx[i * 3], idx[i * 3 + 1], idx[i * 3 + 2]));
      }
      assert tris[..|tris|] == tris;
    }

    /**
     * The triangle-strip walk over the windows `i < N - 2` (none when
     * `N < 2`): even windows keep the index order, odd ones swap the last two.
     */
    method DrawTriangleStrip(vertices: seq<VertexOut>, idx: seq<nat>)
      requires Valid() && AllDrawable(vertices, StripTriangles(idx, false), width, height)
      modifies depthBuffer, backBuffer
      ensures Buffers(depthBuffer[..], backBuffer[..])
           == DrawTriangles(Buffers(old(depthBuffer[..]), old(backBuffer[..])), vertices, StripTriangles(idx, false),
                            width, height, Shade())
    {
      ghost var start := Buffers(depthBuffer[..], backBuffer[..]);
      ghost var tris := StripTriangles(idx, false);
      StripTrianglesAt(idx, false);
      for i := 0 to StripTriangleCount(|idx|)
        invariant Buffers(depthBuffer[..], backBuffer[..]) == DrawTriangles(start, vertices, tris[..i], width, height, Shade())
      {
        assert tris[..i + 1][..i] == tris[..i];
        assert tris[i] == StripWindow(idx, i, i % 2 == 1);
        if i % 2 != 0 {
          DrawIndexedTriangle(vertices, IndexTriple(idx[i], idx[i + 2], idx[i + 1]));
        } else {
          DrawIndexedTriangle(vertices, IndexTriple(idx[i], idx[i + 1], idx[i + 2]));
        }
      }
      assert tris[..|tris|] == tris;
    }

    /**
     * One frame: clear both buffers, transform the vertices into the
     * mesh's `verticesOut`, then draw the list or strip triangles in order.
     */
    method RenderMesh()
      requires CanRender()
      modifies depthBuffer, backBuffer, mesh`verticesOut
      ensures mesh.verticesOut == TransformVertices(mesh.vertices, WorldViewProjection())
      ensures Buffers(depthBuffer[..], backBuffer[..])
           == RenderedFrame(mesh.verticesOut, mesh.indices, mesh.topology, width, height, Shade())
    {
      ClearBuffers();
      var out := VertexTransformationFunction(mesh.vertices, WorldViewProjection());
      mesh.verticesOut := out;
      if mesh.topology == TriangleList {
        DrawTriangleList(out, mesh.indices);
      } else {
        DrawTriangleStrip(out, mesh.indices);
      }
    }

    /** `Render`: one frame of `RenderMesh` into the back buffer (surface lock, blit and present are left out). */
    method Render()
      requires CanRender()
      modifies depthBuffer, backBuffer, mesh`verticesOut
      ensures mesh.verticesOut == TransformVertices(mesh.vertices, WorldViewProjection())
      ensures Buffers(depthBuffer[..], backBuffer[..])
           == RenderedFrame(mesh.verticesOut, mesh.indices, mesh.topology, width, height, Shade())
    {
      RenderMesh();
    }

    /** `Update`: while rotating, the mesh turns for the elapsed time; otherwise nothing changes. */
    method Update(elapsed: real)
      modifies mesh`rotatedSeconds
      ensures mesh.rotatedSeconds == if isRotating then old(mesh.rotatedSeconds) + elapsed else old(mesh.rotatedSeconds)
    {
      if isRotating {
        mesh.rotatedSeconds := mesh.rotatedSeconds + elapsed;
      }
    }

    /** `CycleRenderState`: texture, depth, observed area, phong, texture. */
    method CycleRenderState()
      modifies this`state
      ensures state == NextRenderState(old(state))
    {
      match state
      case Texture => state := Depth;
      case Depth => state := ObservedArea;
      case ObservedArea => state := Phong;
      case Phong => state := Texture;
    }

    /** `ToggleNormalMap`: an involution on the normal-map switch. */
    method ToggleNormalMap()
      modifies this`usingNormalMap
      ensures usingNormalMap == !old(usingNormalMap)
    {
      usingNormalMap := !usingNormalMap;
    }

    /** `BaseRenderer::CycleRotation`. */
    method CycleRotation()
      modifies this`isRotating
      ensures isRotating == !old(isRotating)
    {
      isRotating := !isRotating;
    }

    method ToggleUniformColor()
      modifies this`shouldUseUniformColor
      ensures shouldUseUniformColor == !old(shouldUseUniformColor)
    {
      shouldUseUniformColor := !shouldUseUniformColor;
    }

    method ToggleDepthView()
      modifies this`depthView
      ensures depthView == !old(depthView)
    {
      depthView := !depthView;
    }

    method ToggleBoundingBoxView()
      modifies this`boundingBoxView
      ensures boundingBoxView == !old(boundingBoxView)
    {
      boundingBoxView := !boundingBoxView;
    }

    method CycleCullingMode()
      modifies this`cullModeFlipped
      ensures cullModeFlipped == !old(cullModeFlipped)
    {
      cullModeFlipped := !cullModeFlipped;
    }
  }
}
