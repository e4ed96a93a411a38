/**
 * Sampler-state selection of `Effect_PosTex` (and of its vehicle and fire
 * subclasses, whose `SetSamplerState` overrides are identical): a stored
 * state that `CycleSampleState` advances, and the sampler object that
 * `SetSamplerState` installs on the effect's `gSampler` variable.
 */
module Effects {

  datatype SamplerState = Point | Linear | Anisotropic

  /** The three sampler objects the effect creates once: point, linear, anisotropic filtering. */
  datatype Sampler = PointSampler | LinearSampler | AnisotropicSampler

  datatype Option<T> = None | Some(value: T)

  /** The `CycleSampleState` switch: point, linear, anisotropic, point. */
  function NextSamplerState(s: SamplerState): SamplerState {
    match s
    case Point => Linear
    case Linear => Anisotropic
    case Anisotropic => Point
  }

  /** The `SetSamplerState` switch: the sampler object bound for each state. */
  function SamplerFor(s: SamplerState): Sampler {
    match s
    case Point => PointSampler
    case Linear => LinearSampler
    case Anisotropic => AnisotropicSampler
  }

  /** Each state has its own sampler, so the installed sampler identifies the state. */
  lemma SamplerForInjective(a: SamplerState, b: SamplerState)
    ensures SamplerFor(a) == SamplerFor(b) <==> a == b
  {
  }

  /** The sampler state after `n` presses of the sampler key. */
  function CycleSamplerStateN(s: SamplerState, n: nat): SamplerState
    decreases n
  {
    if n == 0 then s else CycleSamplerStateN(NextSamplerState(s), n - 1)
  }

  /** Cycling is periodic with period three. */
  lemma {:induction false} SamplerStatePeriodThree(s: SamplerState, n: nat)
    ensures CycleSamplerStateN(s, n + 3) == CycleSamplerStateN(s, n)
    decreases n
  {
    if n == 0 {
      var s1 := NextSamplerState(s);
      var s2 := NextSamplerState(s1);
      assert CycleSamplerStateN(s, 3) == CycleSamplerStateN(s1, 2) == CycleSamplerStateN(s2, 1)
          == CycleSamplerStateN(NextSamplerState(s2), 0);
    } else {
      SamplerStatePeriodThree(NextSamplerState(s), n - 1);
    }
  }

  class EffectPosTex {
    /** `m_currentSamplerState`. */
    var currentSamplerState: SamplerState
    /** The sampler bound to `gSampler`; `None` while the effect file's own default is in place. */
    var installedSampler: Option<Sampler>

    /**
     * The constructor installs no sampler; the initial stored state is
     * given, since the class declaration that initialises it is not part
     * of this model.
     */
    constructor (initial: SamplerState)
      ensures currentSamplerState == initial && installedSampler == None
    {
      currentSamplerState := initial;
      installedSampler := None;
    }

    /** `SetSamplerState`: bind the sampler object that belongs to `state`. */
    method SetSamplerState(state: SamplerState)
      modifies this`installedSampler
      ensures installedSampler == Some(SamplerFor(state))
    {
      match state
      case Point => installedSampler := Some(PointSampler);
      case Linear => installedSampler := Some(LinearSampler);
      case Anisotropic => installedSampler := Some(AnisotropicSampler);
    }

    /**
     * `CycleSampleState`: advance the stored state and install the sampler
     * of the new state, so stored state and bound sampler agree afterwards.
     */
    method CycleSampleState()
      modifies this
      ensures currentSamplerState == NextSamplerState(old(currentSamplerState))
      ensures installedSampler == Some(SamplerFor(currentSamplerState))
    {
      match currentSamplerState
      case Point =>
        currentSamplerState := Linear;
        SetSamplerState(Linear);
      case Linear =>
        currentSamplerState := Anisotropic;
        SetSamplerState(Anisotropic);
      case Anisotropic =>
        currentSamplerState := Point;
        SetSamplerState(Point);
    }
  }
}
