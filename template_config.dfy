/** The processing configuration of the reference kernel
    (create/template/rust/kernel/src/config.rs), recomputed from the whole
    parameter map. */
module TemplateConfig {
  import opened Common
  import opened KernelTypes
  import opened TemplateParams

  datatype Config = Config(gain: real, bypass: bool)

  /** The map holds both parameters `from_params` looks up. */
  predicate HasParams(paramSet: map<uint64, real>) {
    Address(Gain) in paramSet && Address(Bypass) in paramSet
  }

  /** `from_params`: the gain is the Gain value, and the kernel is bypassed
      exactly when the Bypass value is 1. A missing key panics in the
      source; here it is excluded by the precondition. */
  function FromParams(format: AudioFormat, paramSet: map<uint64, real>): (c: Config)
    requires HasParams(paramSet)
    ensures c.gain == paramSet[Address(Gain)]
    ensures c.bypass <==> paramSet[Address(Bypass)] == 1.0
  {
    Config(paramSet[Address(Gain)], paramSet[Address(Bypass)] == 1.0)
  }

  /** The configuration depends on the two parameter values alone: not on
      the audio format and not on any other entry of the map. */
  lemma FromParamsDependsOnlyOnTheTwoValues(f1: AudioFormat, m1: map<uint64, real>, f2: AudioFormat, m2: map<uint64, real>)
    requires HasParams(m1) && HasParams(m2)
    requires m1[Address(Gain)] == m2[Address(Gain)] && m1[Address(Bypass)] == m2[Address(Bypass)]
    ensures FromParams(f1, m1) == FromParams(f2, m2)
  {
  }

  /** Only a Bypass value of exactly 1 bypasses: 0.5, for one, does not. */
  lemma HalfIsNotBypass(format: AudioFormat, paramSet: map<uint64, real>)
    requires HasParams(paramSet) && paramSet[Address(Bypass)] == 0.5
    ensures !FromParams(format, paramSet).bypass
  {
  }
}
