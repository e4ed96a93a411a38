/**
 * `RenderManager`: a two-state machine choosing which renderer draws,
 * with commands that are shared, hardware-only or software-only.
 */
module RenderManagement {
  import opened Frame
  import opened Shading
  import opened Effects
  import opened SoftwareRendering
  import opened HardwareRendering

  datatype RenderType = Software | Hardware

  /** `ToggleRenderType`'s switch on the render type. */
  function OtherRenderType(t: RenderType): (r: RenderType)
    ensures r != t
  {
    match t
    case Software => Hardware
    case Hardware => Software
  }

  /** Two toggles restore the render type. */
  lemma ToggleRenderTypeTwice(t: RenderType)
    ensures OtherRenderType(OtherRenderType(t)) == t
  {
  }

  class RenderManager {
    const software: SoftwareRenderer
    const hardware: HardwareRenderer
    var renderType: RenderType
    /** `m_pCurrentRenderer`. */
    var current: object

    /** The current renderer is the one the render type names. */
    ghost predicate Valid()
      reads this, software, hardware
    {
      software.Valid() && hardware.Valid() &&
      (renderType == Software ==> current == software) &&
      (renderType == Hardware ==> current == hardware)
    }

    /** The renderers are built first; the manager starts on the hardware one. */
    constructor (software: SoftwareRenderer, hardware: HardwareRenderer)
      requires software.Valid() && hardware.Valid()
      ensures Valid() && renderType == Hardware && current == hardware
      ensures this.software == software && this.hardware == hardware
    {
      this.software := software;
      this.hardware := hardware;
      renderType := Hardware;
      current := hardware;
    }

    /** `Update` advances both renderers, whichever is current. */
    method Update(elapsed: real)
      modifies hardware`meshRotatedSeconds, hardware`fireRotatedSeconds, software.mesh`rotatedSeconds
      ensures hardware.isRotating ==> hardware.meshRotatedSeconds == old(hardware.meshRotatedSeconds) + elapsed &&
                                      hardware.fireRotatedSeconds == old(hardware.fireRotatedSeconds) + elapsed
      ensures !hardware.isRotating ==> hardware.meshRotatedSeconds == old(hardware.meshRotatedSeconds) &&
                                       hardware.fireRotatedSeconds == old(hardware.fireRotatedSeconds)
      ensures software.mesh.rotatedSeconds
           == if software.isRotating then old(software.mesh.rotatedSeconds) + elapsed
              else old(software.mesh.rotatedSeconds)
    {
      hardware.Update(elapsed);
      software.Update(elapsed);
    }

    /** `Render` draws with the current renderer only; the other one is untouched. */
    method Render()
      requires Valid()
      requires renderType == Software ==> software.CanRender()
      modifies software.depthBuffer, software.backBuffer, software.mesh`verticesOut, hardware`presented
      ensures renderType == Software ==>
        software.mesh.verticesOut == TransformVertices(software.mesh.vertices, software.WorldViewProjection()) &&
        Buffers(software.depthBuffer[..], software.backBuffer[..])
          == RenderedFrame(software.mesh.verticesOut, software.mesh.indices, software.mesh.topology,
                           software.width, software.height, software.Shade()) &&
        hardware.presented == old(hardware.presented)
      ensures renderType == Hardware ==>
        hardware.presented == (if hardware.isInitialized
                               then old(hardware.presented) + [SubmittedFrame(ClearColorFor(hardware.shouldUseUniformColor),
                                                                              hardware.renderFire)]
                               else old(hardware.presented)) &&
        software.depthBuffer[..] == old(software.depthBuffer[..]) &&
        software.backBuffer[..] == old(software.backBuffer[..]) &&
        software.mesh.verticesOut == old(software.mesh.verticesOut)
    {
      if current == software {
        software.Render();
      } else if current == hardware {
        hardware.Render();
      }
    }

    /** `ToggleRenderType`: flip the type and point the current renderer at the matching one. */
    method ToggleRenderType()
      requires Valid()
      modifies this`renderType, this`current
      ensures Valid() && renderType == OtherRenderType(old(renderType))
    {
      match renderType
      case Software =>
        current := hardware;
        renderType := Hardware;
      case Hardware =>
        current := software;
        renderType := Software;
    }

    /** `CycleRotation` flips both rotation switches, so switches that agree keep agreeing. */
    method CycleRotation()
      modifies hardware`isRotating, software`isRotating
      ensures hardware.isRotating == !old(hardware.isRotating) && software.isRotating == !old(software.isRotating)
      ensures old(hardware.isRotating) == old(software.isRotating) ==> hardware.isRotating == software.isRotating
    {
      hardware.CycleRotation();
      software.CycleRotation();
    }

    method CycleCullMode()
      modifies hardware`cullModeFlipped, software`cullModeFlipped
      ensures hardware.cullModeFlipped == !old(hardware.cullModeFlipped)
      ensures software.cullModeFlipped == !old(software.cullModeFlipped)
    {
      hardware.CycleCullingMode();
      software.CycleCullingMode();
    }

    method ToggleUniformColor()
      modifies hardware`shouldUseUniformColor, software`shouldUseUniformColor
      ensures hardware.shouldUseUniformColor == !old(hardware.shouldUseUniformColor)
      ensures software.shouldUseUniformColor == !old(software.shouldUseUniformColor)
    {
      hardware.ToggleUniformColor();
      software.ToggleUniformColor();
    }

    // ---- Hardware-only commands ----

    method ToggleFireFx()
      modifies hardware`renderFire
      ensures hardware.renderFire == if renderType == Hardware then !old(hardware.renderFire) else old(hardware.renderFire)
    {
      if renderType == Hardware {
        hardware.ToggleFireFX();
      }
    }

    method CycleSamplerState()
      requires Valid()
      modifies hardware.meshEffect, hardware.fireEffect
      ensures renderType == Hardware ==>
        hardware.meshEffect.currentSamplerState == NextSamplerState(old(hardware.meshEffect.currentSamplerState)) &&
        hardware.fireEffect.currentSamplerState == NextSamplerState(old(hardware.fireEffect.currentSamplerState)) &&
        hardware.meshEffect.installedSampler == Some(SamplerFor(hardware.meshEffect.currentSamplerState)) &&
        hardware.fireEffect.installedSampler == Some(SamplerFor(hardware.fireEffect.currentSamplerState))
      ensures renderType == Software ==> unchanged(hardware.meshEffect, hardware.fireEffect)
    {
      if renderType == Hardware {
        hardware.CycleSamplerState();
      }
    }

    // ---- Software-only commands ----

    method CycleShadingMode()
      modifies software`state
      ensures software.state == if renderType == Software then NextRenderState(old(software.state)) else old(software.state)
    {
      if renderType == Software {
        software.CycleRenderState();
      }
    }

    method ToggleNormalMap()
      modifies software`usingNormalMap
      ensures software.usingNormalMap
           == if renderType == Software then !old(software.usingNormalMap) else old(software.usingNormalMap)
    {
      if renderType == Software {
        software.ToggleNormalMap();
      }
    }

    method ToggleDepthBuffer()
      modifies software`depthView
      ensures software.depthView == if renderType == Software then !old(software.depthView) else old(software.depthView)
    {
      if renderType == Software {
        software.ToggleDepthView();
      }
    }

    method ToggleBoundingBoxView()
      modifies software`boundingBoxView
      ensures software.boundingBoxView
           == if renderType == Software then !old(software.boundingBoxView) else old(software.boundingBoxView)
    {
      if renderType == Software {
        software.ToggleBoundingBoxView();
      }
    }
  }
}
