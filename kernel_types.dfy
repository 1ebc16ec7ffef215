/** The data a kernel exchanges with its host: time-stamped events, parameter
    descriptors, audio formats and the static kernel description
    (rust/kernel/src/event.rs, parameter.rs, audio_format.rs, lib.rs).
    Floating-point values are modelled as exact reals. */
module KernelTypes {
  import opened Common

  /** The three data bytes of a short MIDI message. */
  type MidiBytes = s: seq<uint8> | |s| == 3 witness [0, 0, 0]

  /** What an event carries. */
  datatype Data =
    | ParameterChange(address: uint64, value: real)
    | RampedParameterChange(address: uint64, value: real, rampTime: uint32)
    | MidiMessage(cable: uint8, validBytes: uint16, bytes: MidiBytes)

  /** An event, `time` samples after the start of the current buffer. */
  datatype Event = Event(time: int64, data: Data)

  datatype Unit = Generic | Percent | Second | SampleFrames | Rate | Custom(name: string)

  datatype Details =
    | Numeric(min: real, max: real, unit: Unit, defaultValue: real)
    | Indexed(names: seq<string>, defaultIndex: uint64)

  datatype DisplayScale = Linear | Logarithmic

  datatype Flags = Flags(writable: bool, readable: bool, scale: DisplayScale)

  /** The declaration of one parameter. */
  datatype Info = Info(
    id: string,
    address: uint64,
    name: string,
    details: Details,
    flags: Flags,
    dependentParameters: seq<uint64>)

  /** The value a parameter starts from: a numeric default, or an indexed
      default read as a number. */
  function DefaultOf(info: Info): real {
    match info.details
    case Numeric(_, _, _, d) => d
    case Indexed(_, d) => d as real
  }

  datatype AudioFormat = AudioFormat(inputChannelCount: uint32, outputChannelCount: uint32, sampleRate: real)

  datatype AllowedChannels = AnyChannelCountAllowed | ChannelCountAllowed(count: uint32)

  datatype AllowedFormat = AllowedFormat(inputChannels: AllowedChannels, outputChannels: AllowedChannels)

  /** rust/kernel/src/kernel_type.rs is not part of this model: the kind of
      kernel is kept as the two cases the host distinguishes. */
  datatype KernelType = Effect | Instrument

  /** The static description of a kernel. */
  datatype KernelInfo = KernelInfo(
    params: seq<Info>,
    bypassParam: Option<uint64>,
    kernelType: KernelType,
    formats: seq<AllowedFormat>)

  /** The addresses the declarations use. */
  function Addresses(infos: seq<Info>): set<uint64> {
    set i | 0 <= i < |infos| :: infos[i].address
  }

  predicate DistinctAddresses(infos: seq<Info>) {
    forall i, j | 0 <= i < j < |infos| :: infos[i].address != infos[j].address
  }

  /** Each declared address mapped to its default, the later of two
      declarations of one address winning (collecting pairs into a map). */
  function Defaults(infos: seq<Info>): (m: map<uint64, real>)
    ensures m.Keys == Addresses(infos)
  {
    if infos == [] then map[]
    else
      var last := infos[|infos| - 1];
      assert Addresses(infos) == Addresses(infos[..|infos| - 1]) + {last.address};
      Defaults(infos[..|infos| - 1])[last.address := DefaultOf(last)]
  }

  /** With distinct addresses every declared address starts at its own
      parameter's default. */
  lemma {:induction false} DefaultsAt(infos: seq<Info>, i: nat)
    requires DistinctAddresses(infos) && i < |infos|
    ensures Defaults(infos)[infos[i].address] == DefaultOf(infos[i])
  {
    if i < |infos| - 1 {
      var init := infos[..|infos| - 1];
      assert DistinctAddresses(init);
      assert init[i] == infos[i];
      DefaultsAt(init, i);
    }
  }
}
