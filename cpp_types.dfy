/** The host side's data (cpp/kernel/Audio_event.h, Parameter.h,
    KernelFactory.h): events, parameter declarations in the host's form and
    the description a kernel factory gives. `float` and `double` are exact
    reals. */
module CppTypes {
  import opened Common
  import KernelTypes

  /** `Audio_event`, a variant of the three kinds of event. */
  datatype AudioEvent =
    | ParameterChange(bufferOffsetTime: int64, address: uint64, value: real)
    | RampedParameterChange(bufferOffsetTime: int64, address: uint64, value: real, rampLength: uint32)
    | MidiMessage(bufferOffsetTime: int64, cable: uint8, validBytes: uint16, data: KernelTypes.MidiBytes)

  /** `variant<AudioUnitParameterUnit, string>`: a numeric unit code or a
      custom unit's name. */
  datatype ParameterUnit = UnitCode(code: uint32) | UnitName(name: string)

  /** `variant<Numeric_parameter_info, Indexed_parameter_info>`. */
  datatype ParameterDetails =
    | NumericInfo(min: real, max: real, unit: ParameterUnit, defaultValue: real)
    | IndexedInfo(valueStrings: seq<string>, defaultIndex: nat)

  /** `Parameter_info`; `flags` is the 32-bit option word. */
  datatype ParameterInfo = ParameterInfo(
    identifierString: string,
    address: uint64,
    name: string,
    flags: bv32,
    info: ParameterDetails,
    dependentParameters: seq<uint64>)

  /** The visit that reads a declaration's default, an index read as a
      number. */
  function DefaultValue(p: ParameterInfo): real {
    match p.info
    case NumericInfo(_, _, _, d) => d
    case IndexedInfo(_, d) => d as real
  }

  /** The addresses a list of declarations uses. */
  function Addresses(params: seq<ParameterInfo>): set<uint64> {
    set i | 0 <= i < |params| :: params[i].address
  }

  /** `variant<Any_channel_count, Channel_count>`. */
  datatype ChannelCount = AnyChannelCount | Count(channels: uint64)

  datatype AllowedChannelConfiguration = AllowedChannelConfiguration(inputChannels: ChannelCount, outputChannels: ChannelCount)

  /** `KernelFactory::Type`. */
  datatype FactoryType = EffectType | InstrumentType

  /** `KernelFactory::Info`. */
  datatype FactoryInfo = FactoryInfo(
    kind: FactoryType,
    allowedChannelConfigurations: seq<AllowedChannelConfiguration>,
    parameters: seq<ParameterInfo>,
    bypassParameter: Option<uint64>)
}
