/**
 * The state of `HardwareRenderer` that the render manager drives: the
 * rotation and uniform-colour switches it shares with the software
 * renderer, the fire-effect switch, the two meshes' sampler-carrying
 * effects and rotations, and the frames it submits. The Direct3D device,
 * swap chain and draw calls are represented only by the record of what
 * each submitted frame clears to and whether it draws the fire mesh.
 */
module HardwareRendering {
  import opened Geometry
  import opened Effects

  /** The clear colours of `Render`: the uniform gray 0.1, or cornflower blue. */
  const UniformColor: ColorRGB := ColorRGB(0.1, 0.1, 0.1)
  const DefaultClearColor: ColorRGB := ColorRGB(0.39, 0.59, 0.93)

  /** One presented frame: its clear colour, and whether the fire mesh was drawn after the vehicle. */
  datatype SubmittedFrame = SubmittedFrame(clear: ColorRGB, fireDrawn: bool)

  /** The clear colour for the uniform-colour switch. */
  function ClearColorFor(useUniform: bool): (c: ColorRGB)
    ensures useUniform <==> c == UniformColor
  {
    if useUniform then UniformColor else DefaultClearColor
  }

  class HardwareRenderer {
    /** `m_IsInitialized`: whether `InitializeDirectX` succeeded. */
    const isInitialized: bool
    /** The effects of the vehicle mesh and of the fire mesh. */
    const meshEffect: EffectPosTex
    const fireEffect: EffectPosTex
    var isRotating: bool
    var shouldUseUniformColor: bool
    var renderFire: bool
    /** Flag flipped by the mesh's `CycleCullingMode`. */
    var cullModeFlipped: bool
    /** The world matrices of the two meshes, as seconds rotated about y at pi/4 rad per second. */
    var meshRotatedSeconds: real
    var fireRotatedSeconds: real
    var presented: seq<SubmittedFrame>

    ghost predicate Valid()
      reads this
    {
      meshEffect != fireEffect
    }

    /** The initial fire switch is given, as its declaration is not part of this model. */
    constructor (isInitialized: bool, meshEffect: EffectPosTex, fireEffect: EffectPosTex, renderFire: bool)
      requires meshEffect != fireEffect
      ensures Valid()
      ensures this.isInitialized == isInitialized && this.meshEffect == meshEffect && this.fireEffect == fireEffect
      ensures this.renderFire == renderFire && isRotating && !shouldUseUniformColor && !cullModeFlipped
      ensures meshRotatedSeconds == 0.0 && fireRotatedSeconds == 0.0 && presented == []
    {
      this.isInitialized := isInitialized;
      this.meshEffect := meshEffect;
      this.fireEffect := fireEffect;
      this.renderFire := renderFire;
      isRotating := true;
      shouldUseUniformColor := false;
      cullModeFlipped := false;
      meshRotatedSeconds := 0.0;
      fireRotatedSeconds := 0.0;
      presented := [];
    }

    /** `Update`: while rotating, both meshes turn by the same elapsed time. */
    method Update(elapsed: real)
      modifies this`meshRotatedSeconds, this`fireRotatedSeconds
      ensures isRotating ==> meshRotatedSeconds == old(meshRotatedSeconds) + elapsed &&
                             fireRotatedSeconds == old(fireRotatedSeconds) + elapsed
      ensures !isRotating ==> meshRotatedSeconds == old(meshRotatedSeconds) &&
                              fireRotatedSeconds == old(fireRotatedSeconds)
    {
      if isRotating {
        meshRotatedSeconds := meshRotatedSeconds + elapsed;
        fireRotatedSeconds := fireRotatedSeconds + elapsed;
      }
    }

    /** `Render`: nothing without a device; otherwise clear, draw the vehicle, the fire if enabled, and present. */
    method Render()
      modifies this`presented
      ensures !isInitialized ==> presented == old(presented)
      ensures isInitialized ==>
        presented == old(presented) + [SubmittedFrame(ClearColorFor(shouldUseUniformColor), renderFire)]
    {
      if !isInitialized {
        return;
      }
      var clear := if shouldUseUniformColor then UniformColor else DefaultClearColor;
      presented := presented + [SubmittedFrame(clear, renderFire)];
    }

    /** `CycleSamplerState`: both meshes' effects advance their sampler state. */
    method CycleSamplerState()
      requires Valid()
      modifies meshEffect, fireEffect
      ensures meshEffect.currentSamplerState == NextSamplerState(old(meshEffect.currentSamplerState))
      ensures fireEffect.currentSamplerState == NextSamplerState(old(fireEffect.currentSamplerState))
      ensures meshEffect.installedSampler == Some(SamplerFor(meshEffect.currentSamplerState))
      ensures fireEffect.installedSampler == Some(SamplerFor(fireEffect.currentSamplerState))
    {
      meshEffect.CycleSampleState();
      fireEffect.CycleSampleState();
    }

    method CycleCullingMode()
      modifies this`cullModeFlipped
      ensures cullModeFlipped == !old(cullModeFlipped)
    {
      cullModeFlipped := !cullModeFlipped;
    }

    method ToggleFireFX()
      modifies this`renderFire
      ensures renderFire == !old(renderFire)
    {
      renderFire := !renderFire;
    }

    /** `BaseRenderer::CycleRotation`. */
    method CycleRotation()
      modifies this`isRotating
      ensures isRotating == !old(isRotating)
    {
      isRotating := !isRotating;
    }

    method ToggleUniformColor()
      modifies this`shouldUseUniformColor
      ensures shouldUseUniformColor == !old(shouldUseUniformColor)
    {
      shouldUseUniformColor := !shouldUseUniformColor;
    }
  }
}
