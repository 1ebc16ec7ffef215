/** The Rust half of the host boundary (rust/glue/src/detail.rs): the codes
    and words a kernel's static description is flattened into, the calls it
    is reported through, and the decoding of the host's flat event record.

    Pointers become values: a C string is the `string` it spells, a null
    pointer is `None`, and a callback the host passes in is the sequence of
    calls it receives. */
module RustGlue {
  import opened Common
  import opened KernelTypes

  /** `convert_unit`: the host's numeric unit code; only a custom unit gets
      code 26. */
  function ConvertUnit(unit: Unit): (code: uint64)
    ensures code == 26 <==> unit.Custom?
    ensures code in {0, 3, 4, 5, 7, 26}
  {
    match unit
    case Generic => 0
    case Percent => 3
    case Second => 4
    case SampleFrames => 5
    case Rate => 7
    case Custom(_) => 26
  }

  /** The bits of the host's parameter option word that the flag word sets. */
  const ReadableBit: bv64 := 1 << 30
  const WritableBit: bv64 := 1 << 31
  const LogarithmicBit: bv64 := 1 << 22

  /** `convert_flags`: bit 30 for a readable parameter, bit 31 for a writable
      one, bit 22 for a logarithmic display, and no other bit. */
  function ConvertFlags(readable: bool, writable: bool, scale: DisplayScale): (w: bv64)
    ensures (w & ReadableBit != 0) == readable
    ensures (w & WritableBit != 0) == writable
    ensures (w & LogarithmicBit != 0) == scale.Logarithmic?
    ensures w & !(ReadableBit | WritableBit | LogarithmicBit) == 0
  {
    (if readable then ReadableBit else 0)
    | (if writable then WritableBit else 0)
    | (match scale
       case Linear => 0
       case Logarithmic => LogarithmicBit)
  }

  /** The flag word loses nothing: different flags give different words. */
  lemma ConvertFlagsInjective(r1: bool, w1: bool, s1: DisplayScale, r2: bool, w2: bool, s2: DisplayScale)
    requires ConvertFlags(r1, w1, s1) == ConvertFlags(r2, w2, s2)
    ensures r1 == r2 && w1 == w2 && s1 == s2
  {
    var a := ConvertFlags(r1, w1, s1);
    assert (a & ReadableBit != 0) == r1 == r2;
    assert (a & WritableBit != 0) == w1 == w2;
    assert (a & LogarithmicBit != 0) == s1.Logarithmic? == s2.Logarithmic?;
  }

  /** `x as i32` on a `u32`: the same 32 bits read as a two's-complement
      number. */
  function AsInt32(x: uint32): (n: int32)
    ensures n as int % 0x1_0000_0000 == x as int
    ensures n >= 0 <==> x < 0x8000_0000
  {
    if x < 0x8000_0000 then x else x - 0x1_0000_0000
  }

  /** The `serialize` closure of `get_kernel_allowed_channel_formats`: any
      count is -1, a fixed count its 32 bits as a signed number. */
  function Serialize(channels: AllowedChannels): (n: int32)
    ensures n < 0 <==> channels.AnyChannelCountAllowed? || channels.count >= 0x8000_0000
    ensures channels.ChannelCountAllowed? ==> n as int % 0x1_0000_0000 == channels.count
  {
    match channels
    case AnyChannelCountAllowed => -1
    case ChannelCountAllowed(x) => AsInt32(x)
  }

  /** `get_kernel_allowed_channel_formats`: one `add_format` call per allowed
      format, in declaration order, with the serialised input and output
      counts. */
  method GetKernelAllowedChannelFormats(info: KernelInfo) returns (calls: seq<(int32, int32)>)
    ensures |calls| == |info.formats|
    ensures forall i | 0 <= i < |calls| ::
      calls[i] == (Serialize(info.formats[i].inputChannels), Serialize(info.formats[i].outputChannels))
  {
    calls := [];
    for i := 0 to |info.formats|
      invariant |calls| == i
      invariant forall j | 0 <= j < i ::
        calls[j] == (Serialize(info.formats[j].inputChannels), Serialize(info.formats[j].outputChannels))
    {
      var format := info.formats[i];
      calls := calls + [(Serialize(format.inputChannels), Serialize(format.outputChannels))];
    }
  }

  /** `get_has_bypass_param`: 1 exactly when a bypass parameter is declared,
      0 otherwise. */
  function GetHasBypassParam(info: KernelInfo): (has: uint64)
    ensures has == 1 <==> info.bypassParam.Some?
    ensures has == 0 <==> info.bypassParam.None?
  {
    match info.bypassParam
    case None => 0
    case Some(_) => 1
  }

  /** `get_bypass_param`: the declared bypass address, 0 when there is none. */
  function GetBypassParam(info: KernelInfo): (address: uint64)
    ensures info.bypassParam.Some? ==> address == info.bypassParam.value
    ensures info.bypassParam.None? ==> address == 0
  {
    match info.bypassParam
    case None => 0
    case Some(n) => n
  }

  // ---------------------------------------------------------------------
  // Parameter descriptors

  /** `CString::new(..).unwrap()` panics on an interior NUL byte. */
  predicate CStringSafe(s: string) {
    forall i | 0 <= i < |s| :: s[i] != '\0'
  }

  /** Every string of a declaration survives the conversion to a C string. */
  predicate Describable(info: Info) {
    CStringSafe(info.id) && CStringSafe(info.name) &&
    (info.details.Numeric? && info.details.unit.Custom? ==> CStringSafe(info.details.unit.name)) &&
    (info.details.Indexed? ==> forall j | 0 <= j < |info.details.names| :: CStringSafe(info.details.names[j]))
  }

  /** One call of `numeric_param` or `indexed_param`. The custom unit name is
      `None` for a null pointer; a list is passed as its elements. */
  datatype ParamCall =
    | NumericCall(id: string, address: uint64, name: string, flags: bv64,
                  min: real, max: real, unitNum: uint64, unitCustomName: Option<string>,
                  defaultValue: real, dependents: seq<uint64>)
    | IndexedCall(id: string, address: uint64, name: string, flags: bv64,
                  valueStrings: seq<string>, defaultIndex: uint64, dependents: seq<uint64>)

  /** The flag word `get_params` reports for a declaration. */
  function DescriptorFlags(info: Info): (w: bv64)
    ensures (w & ReadableBit != 0) == info.flags.readable
    ensures (w & WritableBit != 0) == info.flags.writable
    ensures (w & LogarithmicBit != 0) == info.flags.scale.Logarithmic?
  {
    ConvertFlags(info.flags.readable, info.flags.writable, info.flags.scale)
  }

  /** The flag word as `get_params` computes it: the declaration's
      `(writable, readable)` go into `convert_flags(readable, writable, ..)`. */
  function DescriptorFlagsAsWritten(info: Info): (w: bv64)
    ensures (w & ReadableBit != 0) == info.flags.writable
    ensures (w & WritableBit != 0) == info.flags.readable
    ensures (w & LogarithmicBit != 0) == info.flags.scale.Logarithmic?
  {
    ConvertFlags(info.flags.writable, info.flags.readable, info.flags.scale)
  }

  /** As written, a write-only parameter is reported readable and not
      writable. */
  lemma WriteOnlyReportedReadable()
    ensures var info := Info("p", 0, "P", Numeric(0.0, 1.0, Generic, 0.0), Flags(true, false, Linear), []);
      DescriptorFlagsAsWritten(info) & ReadableBit != 0 && DescriptorFlagsAsWritten(info) & WritableBit == 0
  {
    var info := Info("p", 0, "P", Numeric(0.0, 1.0, Generic, 0.0), Flags(true, false, Linear), []);
    assert DescriptorFlagsAsWritten(info) == ConvertFlags(true, false, Linear);
  }

  /** The swap is harmless exactly when a parameter is as readable as it is
      writable (as for every parameter of the reference kernel). */
  lemma SwapHarmlessIff(info: Info)
    ensures DescriptorFlagsAsWritten(info) == DescriptorFlags(info) <==> info.flags.readable == info.flags.writable
  {
    if DescriptorFlagsAsWritten(info) == DescriptorFlags(info) {
      ConvertFlagsInjective(info.flags.writable, info.flags.readable, info.flags.scale,
                            info.flags.readable, info.flags.writable, info.flags.scale);
    }
  }

  /** The call `get_params` makes for one declaration: id, address, name and
      dependents as declared, the flag word, and the details; a custom unit
      also passes its name, every other unit a null name. */
  function Describe(info: Info): (call: ParamCall)
    ensures call.id == info.id && call.address == info.address && call.name == info.name
    ensures call.flags == DescriptorFlags(info) && call.dependents == info.dependentParameters
    ensures call.NumericCall? <==> info.details.Numeric?
    ensures call.NumericCall? ==>
      call.unitNum == ConvertUnit(info.details.unit) &&
      (call.unitCustomName.Some? <==> info.details.unit.Custom?) &&
      (call.unitCustomName.Some? ==> call.unitCustomName.value == info.details.unit.name)
  {
    match info.details
    case Numeric(min, max, unit, d) =>
      NumericCall(info.id, info.address, info.name, DescriptorFlags(info), min, max, ConvertUnit(unit),
                  if unit.Custom? then Some(unit.name) else None, d, info.dependentParameters)
    case Indexed(names, d) =>
      IndexedCall(info.id, info.address, info.name, DescriptorFlags(info), names, d, info.dependentParameters)
  }

  /** `get_params`: one call per declaration, in declaration order. */
  method GetParams(info: KernelInfo) returns (calls: seq<ParamCall>)
    requires forall i | 0 <= i < |info.params| :: Describable(info.params[i])
    ensures |calls| == |info.params|
    ensures forall i | 0 <= i < |calls| :: calls[i] == Describe(info.params[i])
  {
    calls := [];
    for i := 0 to |info.params|
      invariant |calls| == i
      invariant forall j | 0 <= j < i :: calls[j] == Describe(info.params[j])
    {
      calls := calls + [Describe(info.params[i])];
    }
  }

  // ---------------------------------------------------------------------
  // The flat event record

  /** `GlueEvent`: one record for every kind of event, `ty` telling which
      fields are meant. */
  datatype GlueEvent = GlueEvent(
    time: int64,
    ty: uint64,
    paramAddr: uint64,
    paramValue: real,
    paramRampTime: uint32,
    midiCable: uint8,
    midiValidBytes: uint16,
    midiBytes: MidiBytes)

  /** `GlueEventStream::next` on the record the host's function returns
      (`None` for a null pointer): nothing at a null record; otherwise the
      time as recorded, and data chosen by the tag, where 1 is a ramped
      change, 2 a MIDI message, and 0 and every unknown tag a plain
      parameter change. */
  function Next(record: Option<GlueEvent>): (e: Option<Event>)
    ensures e.None? <==> record.None?
    ensures record.Some? ==> e.value.time == record.value.time
    ensures record.Some? ==> (e.value.data.RampedParameterChange? <==> record.value.ty == 1)
    ensures record.Some? ==> (e.value.data.MidiMessage? <==> record.value.ty == 2)
    ensures record.Some? && !e.value.data.MidiMessage? ==>
      e.value.data.address == record.value.paramAddr && e.value.data.value == record.value.paramValue
  {
    match record
    case None => None
    case Some(ge) =>
      Some(Event(ge.time,
        match ge.ty
        case 0 => ParameterChange(ge.paramAddr, ge.paramValue)
        case 1 => RampedParameterChange(ge.paramAddr, ge.paramValue, ge.paramRampTime)
        case 2 => MidiMessage(ge.midiCable, ge.midiValidBytes, ge.midiBytes)
        case _ => ParameterChange(ge.paramAddr, ge.paramValue)))
  }

  /** The decoder reads only the fields the tag selects: records that agree
      on those decode alike. */
  lemma NextReadsOnlyTaggedFields(a: GlueEvent, b: GlueEvent)
    requires a.time == b.time && a.ty == b.ty
    requires a.ty != 2 ==> a.paramAddr == b.paramAddr && a.paramValue == b.paramValue
    requires a.ty == 1 ==> a.paramRampTime == b.paramRampTime
    requires a.ty == 2 ==> a.midiCable == b.midiCable && a.midiValidBytes == b.midiValidBytes && a.midiBytes == b.midiBytes
    ensures Next(Some(a)) == Next(Some(b))
  {
  }
}
