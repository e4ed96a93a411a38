/**
 * `Texture::Sample`: nearest-texel lookup of a UV coordinate in a decoded
 * image stored row by row, returning the texel's channels scaled to [0, 1].
 */
module Textures {
  import opened Geometry

  newtype byte = x: int | 0 <= x < 256

  /** The r, g and b bytes `SDL_GetRGB` extracts from one surface pixel. */
  datatype Texel = Texel(r: byte, g: byte, b: byte)

  /** A decoded surface: `width` x `height` texels, row after row. */
  datatype Image = Image(width: nat, height: nat, texels: seq<Texel>)

  predicate ValidImage(img: Image) {
    |img.texels| == img.width * img.height
  }

  /** UV coordinates the sampler reads inside the image: both in [0, 1). */
  predicate InRangeUV(uv: Vec2) {
    0.0 <= uv.x < 1.0 && 0.0 <= uv.y < 1.0
  }

  /** Column of the texel: `Uint32(w * uv.x)`. */
  function TexelX(width: nat, uv: Vec2): nat
    requires uv.x >= 0.0
  {
    Trunc(width as real * uv.x)
  }

  /** Row of the texel: `Uint32(h * uv.y)`. */
  function TexelY(height: nat, uv: Vec2): nat
    requires uv.y >= 0.0
  {
    Trunc(height as real * uv.y)
  }

  /** The texel index `pixelX + pixelY * w`; there is no bounds check. */
  function TexelIndex(width: nat, height: nat, uv: Vec2): nat
    requires uv.x >= 0.0 && uv.y >= 0.0
  {
    TexelX(width, uv) + TexelY(height, uv) * width
  }

  /** A byte divided by 255, as `texelColor /= 255.0f` does per channel. */
  function Normalise(b: byte): (c: real)
    ensures 0.0 <= c <= 1.0
    ensures c == 0.0 <==> b == 0
    ensures c == 1.0 <==> b == 255
  {
    b as real / 255.0
  }

  function TexelColor(t: Texel): ColorRGB {
    ColorRGB(Normalise(t.r), Normalise(t.g), Normalise(t.b))
  }

  lemma ScaledFractionBelow(n: nat, f: real)
    requires 0.0 <= f < 1.0
    ensures Trunc(n as real * f) < n || n == 0
  {
    if n > 0 {
      assert n as real * f < n as real;
    }
  }

  /**
   * For in-range UV the column is below the width and the row below the
   * height, so the index lies inside the `w * h` texels and decomposes
   * back into that column and row (row-major addressing).
   */
  lemma {:induction false} TexelIndexRowMajor(width: nat, height: nat, uv: Vec2)
    requires InRangeUV(uv) && width > 0 && height > 0
    ensures TexelX(width, uv) < width && TexelY(height, uv) < height
    ensures TexelIndex(width, height, uv) < width * height
    ensures TexelIndex(width, height, uv) % width == TexelX(width, uv)
    ensures TexelIndex(width, height, uv) / width == TexelY(height, uv)
  {
    var px, py := TexelX(width, uv), TexelY(height, uv);
    assert px < width by { ScaledFractionBelow(width, uv.x); }
    assert py < height by { ScaledFractionBelow(height, uv.y); }
    assert TexelIndex(width, height, uv) == px + py * width;
    RowMajorBound(px, py, width, height);
    RowMajorDecompose(px, py, width);
  }

  lemma RowMajorBound(px: nat, py: nat, width: nat, height: nat)
    requires px < width && py < height
    ensures px + py * width < width * height
  {
    assert py * width <= (height - 1) * width;
  }

  lemma RowMajorDecompose(px: nat, py: nat, width: nat)
    requires px < width
    ensures (px + py * width) % width == px
    ensures (px + py * width) / width == py
  {
    DivModUnique(px + py * width, width, py, px);
  }

  /** UV (0, 0) addresses the first texel of the image. */
  lemma OriginReadsFirstTexel(width: nat, height: nat)
    ensures TexelIndex(width, height, Vec2(0.0, 0.0)) == 0
  {
  }

  /**
   * Without a bounds check, v = 1 (the bottom edge of the UV square)
   * addresses the texel one past the last row.
   */
  lemma BottomEdgeOverruns(width: nat, height: nat, u: real)
    requires 0.0 <= u < 1.0 && width > 0
    ensures TexelIndex(width, height, Vec2(u, 1.0)) >= width * height
  {
    assert Trunc(height as real * 1.0) == height;
  }

  /**
   * `Texture::Sample`: the texel at the row-major index of `uv`, each
   * channel divided by 255. The lookup has no bounds check, so the UV must
   * be in range.
   */
  function Sample(img: Image, uv: Vec2): (c: ColorRGB)
    requires ValidImage(img) && InRangeUV(uv) && img.width > 0 && img.height > 0
    ensures TexelIndex(img.width, img.height, uv) < |img.texels|
    ensures c == TexelColor(img.texels[TexelIndex(img.width, img.height, uv)])
    ensures 0.0 <= c.r <= 1.0 && 0.0 <= c.g <= 1.0 && 0.0 <= c.b <= 1.0
    ensures uv == Vec2(0.0, 0.0) ==> c == TexelColor(img.texels[0])
  {
    TexelIndexRowMajor(img.width, img.height, uv);
    TexelColor(img.texels[TexelIndex(img.width, img.height, uv)])
  }
}
