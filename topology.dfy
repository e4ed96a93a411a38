/**
 * The mesh topology walk of `SoftwareRenderer::RenderMesh`: how an index
 * buffer is cut into triangles for a triangle list and a triangle strip.
 */
module Topology {

  datatype PrimitiveTopology = TriangleList | TriangleStrip

  /** The three index-buffer entries of one triangle, in drawing order. */
  datatype IndexTriple = IndexTriple(i0: nat, i1: nat, i2: nat)

  /** Reference reading of a triangle list: peel off one triple at a time. */
  function ListTriangles(idx: seq<nat>): seq<IndexTriple>
    decreases |idx|
  {
    if |idx| < 3 then [] else [IndexTriple(idx[0], idx[1], idx[2])] + ListTriangles(idx[3..])
  }

  /**
   * The list walk visits `N / 3` triangles, the `i`-th made of the entries
   * `3i, 3i+1, 3i+2`; a trailing incomplete triple is ignored.
   */
  lemma {:induction false} ListTrianglesAt(idx: seq<nat>)
    ensures |ListTriangles(idx)| == |idx| / 3
    ensures forall i :: 0 <= i < |idx| / 3 ==>
      ListTriangles(idx)[i] == IndexTriple(idx[3 * i], idx[3 * i + 1], idx[3 * i + 2])
  {
    if |idx| >= 3 {
      var rest := idx[3..];
      ListTrianglesAt(rest);
      forall i | 0 <= i < |idx| / 3
        ensures ListTriangles(idx)[i] == IndexTriple(idx[3 * i], idx[3 * i + 1], idx[3 * i + 2])
      {
        if i > 0 {
          assert ListTriangles(idx)[i] == ListTriangles(rest)[i - 1];
          assert rest[3 * (i - 1)] == idx[3 * i];
        }
      }
    }
  }

  /** One strip triangle at window start `i`: odd windows swap the last two vertices. */
  function StripWindow(idx: seq<nat>, i: nat, odd: bool): IndexTriple
    requires i + 2 < |idx|
  {
    if odd then IndexTriple(idx[i], idx[i + 2], idx[i + 1])
    else IndexTriple(idx[i], idx[i + 1], idx[i + 2])
  }

  /**
   * Reference reading of a strip: slide a three-wide window one entry at a
   * time, flipping the winding on every second window. `odd` says whether
   * the first window of `idx` is an odd one.
   */
  function StripTriangles(idx: seq<nat>, odd: bool): seq<IndexTriple>
    decreases |idx|
  {
    if |idx| < 3 then [] else [StripWindow(idx, 0, odd)] + StripTriangles(idx[1..], !odd)
  }

  /**
   * Number of strip triangles the walk draws: `N - 2`, and none for a
   * buffer of fewer than two entries.
   */
  function StripTriangleCount(n: nat): (c: nat)
    ensures n >= 2 ==> c == n - 2
    ensures c == 0 || c + 2 <= n
  {
    if n >= 2 then n - 2 else 0
  }

  /**
   * The strip walk visits `N - 2` windows; window `i` is
   * `(idx[i], idx[i+1], idx[i+2])` when `i` is even and
   * `(idx[i], idx[i+2], idx[i+1])` when `i` is odd.
   */
  lemma {:induction false} StripTrianglesAt(idx: seq<nat>, odd: bool)
    ensures |StripTriangles(idx, odd)| == StripTriangleCount(|idx|)
    ensures forall i :: 0 <= i < StripTriangleCount(|idx|) ==>
      StripTriangles(idx, odd)[i] == StripWindow(idx, i, odd != (i % 2 == 1))
  {
    if |idx| >= 3 {
      var rest := idx[1..];
      StripTrianglesAt(rest, !odd);
      forall i | 0 <= i < StripTriangleCount(|idx|)
        ensures StripTriangles(idx, odd)[i] == StripWindow(idx, i, odd != (i % 2 == 1))
      {
        if i > 0 {
          var parity := !odd != ((i - 1) % 2 == 1);
          assert parity == (odd != (i % 2 == 1));
          assert StripTriangles(idx, odd)[i] == StripTriangles(rest, !odd)[i - 1];
          WindowShift(idx, i, parity);
        }
      }
    }
  }

  lemma WindowShift(idx: seq<nat>, i: nat, odd: bool)
    requires 0 < i && i + 2 < |idx|
    ensures StripWindow(idx[1..], i - 1, odd) == StripWindow(idx, i, odd)
  {
  }

  /** The triangles the walk draws for a topology tag. */
  function MeshTriangles(idx: seq<nat>, topology: PrimitiveTopology): seq<IndexTriple> {
    match topology
    case TriangleList => ListTriangles(idx)
    case TriangleStrip => StripTriangles(idx, false)
  }

  /** Every triangle the walk draws only reads entries of the index buffer. */
  lemma {:induction false} MeshTrianglesReadIndexBuffer(idx: seq<nat>, topology: PrimitiveTopology, t: int)
    requires 0 <= t < |MeshTriangles(idx, topology)|
    ensures var tri := MeshTriangles(idx, topology)[t];
      tri.i0 in idx && tri.i1 in idx && tri.i2 in idx
  {
    match topology
    case TriangleList =>
      ListTrianglesAt(idx);
      assert 3 * t + 2 < |idx|;
    case TriangleStrip =>
      StripTrianglesAt(idx, false);
  }

  // ---- The strip loop bound as written ----

  /** `size_t` is 64 bits wide on the platform the renderer targets. */
  const SizeModulus: int := 0x1_0000_0000_0000_0000

  /**
   * The strip loop bound `GetIndices().size() - 2`, computed on the
   * unsigned `size_t`, so it wraps around for fewer than two indices.
   */
  function StripLoopBoundAsWritten(n: nat): (b: nat)
    requires n < SizeModulus
    ensures n >= 2 ==> b == StripTriangleCount(n)
  {
    (n - 2) % SizeModulus
  }

  /**
   * For an index buffer of zero or one entries the loop bound as written
   * wraps to nearly `2^64`, so the first window (`i = 0`) runs and reads
   * entry 1 or 2, past the end of the buffer; the intended count is 0.
   */
  lemma StripBoundWrapsOnShortBuffer(n: nat)
    requires n < 2
    ensures StripLoopBoundAsWritten(n) == SizeModulus + n - 2
    ensures StripLoopBoundAsWritten(n) > 0 && 0 + 2 >= n
    ensures StripTriangleCount(n) == 0
  {
  }
}
