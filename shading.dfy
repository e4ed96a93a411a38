/**
 * The visualisation modes of the software renderer (`RenderState`), the
 * `CycleRenderState` transition, and the mode switch at the end of
 * `SoftwareRenderer::PixelShading`. The lighting terms the switch chooses
 * from (normal mapping, Lambert, Phong, depth remap) are inputs here.
 */
module Shading {
  import opened Geometry

  datatype RenderState = Texture | Depth | ObservedArea | Phong

  /** The `CycleRenderState` switch: texture, depth, observed area, phong, texture. */
  function NextRenderState(s: RenderState): RenderState {
    match s
    case Texture => Depth
    case Depth => ObservedArea
    case ObservedArea => Phong
    case Phong => Texture
  }

  /** The render state after `n` presses of the shading-mode key. */
  function CycleRenderStateN(s: RenderState, n: nat): RenderState
    decreases n
  {
    if n == 0 then s else CycleRenderStateN(NextRenderState(s), n - 1)
  }

  /** Cycling is periodic with period four: every four presses restore the mode. */
  lemma {:induction false} RenderStatePeriodFour(s: RenderState, n: nat)
    ensures CycleRenderStateN(s, n + 4) == CycleRenderStateN(s, n)
    decreases n
  {
    if n == 0 {
      var s1 := NextRenderState(s);
      var s2 := NextRenderState(s1);
      var s3 := NextRenderState(s2);
      assert CycleRenderStateN(s, 4) == CycleRenderStateN(s1, 3) == CycleRenderStateN(s2, 2)
          == CycleRenderStateN(s3, 1) == CycleRenderStateN(NextRenderState(s3), 0);
    } else {
      RenderStatePeriodFour(NextRenderState(s), n - 1);
    }
  }

  /** Four is the least period: fewer than four presses (but at least one) always change the mode. */
  lemma {:induction false} RenderStateVisitsAllFour(s: RenderState, k: nat)
    requires 0 < k < 4
    ensures CycleRenderStateN(s, k) != s
  {
    var s1 := NextRenderState(s);
    var s2 := NextRenderState(s1);
    assert CycleRenderStateN(s, 1) == CycleRenderStateN(s1, 0);
    assert CycleRenderStateN(s, 2) == CycleRenderStateN(s1, 1) == CycleRenderStateN(s2, 0);
    assert CycleRenderStateN(s, 3) == CycleRenderStateN(s1, 2) == CycleRenderStateN(s2, 1)
        == CycleRenderStateN(NextRenderState(s2), 0);
  }

  /**
   * The per-fragment quantities the mode switch chooses from: the raw
   * cosine `dot(normal, -lightDirection)`, the diffuse sample divided by
   * pi, the Phong colour and the remapped depth.
   */
  datatype ShadingTerms = ShadingTerms(cosine: real, diffuse: ColorRGB, phong: ColorRGB, depthRemap: real)

  /** The renderer's fixed directional light: intensity 7, ambient 0.025 gray. */
  const LightIntensity: real := 7.0
  const AmbientColor: ColorRGB := ColorRGB(0.025, 0.025, 0.025)

  /** `Saturate`: clamp into [0, 1]. */
  function Saturate(x: real): (r: real)
    ensures 0.0 <= r <= 1.0
    ensures 0.0 <= x <= 1.0 ==> r == x
    ensures x < 0.0 ==> r == 0.0
    ensures x > 1.0 ==> r == 1.0
  {
    if x < 0.0 then 0.0 else if x > 1.0 then 1.0 else x
  }

  /** The combined (texture) mode: light times diffuse times cosine, plus Phong, plus ambient. */
  function CombinedColor(t: ShadingTerms): ColorRGB {
    Add(Add(Scale(t.diffuse, LightIntensity * Saturate(t.cosine)), t.phong), AmbientColor)
  }

  /** The `switch (m_State)` of `PixelShading`. */
  function PixelShading(state: RenderState, t: ShadingTerms): (c: ColorRGB)
    ensures state == ObservedArea ==> c == Gray(Saturate(t.cosine)) && 0.0 <= c.r <= 1.0
    ensures state == Depth ==> c == Gray(t.depthRemap)
    ensures state == Phong ==> c == t.phong
  {
    match state
    case Texture => CombinedColor(t)
    case Depth => Gray(t.depthRemap)
    case ObservedArea => Gray(Saturate(t.cosine))
    case Phong => t.phong
  }

  /**
   * In combined mode a surface turned away from the light (cosine at most
   * 0) shows only Phong plus ambient, and with non-negative diffuse and
   * Phong terms no channel falls below the ambient 0.025.
   */
  lemma CombinedShading(t: ShadingTerms)
    ensures t.cosine <= 0.0 ==> PixelShading(Texture, t) == Add(t.phong, AmbientColor)
    ensures t.diffuse.r >= 0.0 && t.phong.r >= 0.0 ==> PixelShading(Texture, t).r >= AmbientColor.r
    ensures t.diffuse.g >= 0.0 && t.phong.g >= 0.0 ==> PixelShading(Texture, t).g >= AmbientColor.g
    ensures t.diffuse.b >= 0.0 && t.phong.b >= 0.0 ==> PixelShading(Texture, t).b >= AmbientColor.b
  {
    var k := LightIntensity * Saturate(t.cosine);
    assert k >= 0.0;
    var c := PixelShading(Texture, t);
    assert c == CombinedColor(t);
    assert c.r == t.diffuse.r * k + t.phong.r + AmbientColor.r;
    assert c.g == t.diffuse.g * k + t.phong.g + AmbientColor.g;
    assert c.b == t.diffuse.b * k + t.phong.b + AmbientColor.b;
    if t.diffuse.r >= 0.0 { assert t.diffuse.r * k >= 0.0; }
    if t.diffuse.g >= 0.0 { assert t.diffuse.g * k >= 0.0; }
    if t.diffuse.b >= 0.0 { assert t.diffuse.b * k >= 0.0; }
  }
}
