/** The C++ half of the host boundary (cpp/glue/Make_kernel_factory.cpp): the
    event record the host fills for the Rust stream, and the decoding of the
    flattened kernel description back into the host's types.

    As on the Rust side, a callback is the sequence of its calls, a C string
    its `string` and a null pointer `None`. */
module CppGlue {
  import opened Common
  import KernelTypes
  import RustGlue
  import C = CppTypes

  // ---------------------------------------------------------------------
  // Events: `glue_event_stream`

  /** What an event of the host means as an event of the kernel: the same
      kind, time and fields. */
  function ToKernelEvent(e: C.AudioEvent): (r: KernelTypes.Event)
    ensures r.time == e.bufferOffsetTime
  {
    match e
    case ParameterChange(t, a, v) =>
      KernelTypes.Event(t, KernelTypes.ParameterChange(a, v))
    case RampedParameterChange(t, a, v, ramp) =>
      KernelTypes.Event(t, KernelTypes.RampedParameterChange(a, v, ramp))
    case MidiMessage(t, cable, validBytes, data) =>
      KernelTypes.Event(t, KernelTypes.MidiMessage(cable, validBytes, data))
  }

  /** The record after `glue_event_stream` has written event `e` over
      `prev`: the time, the tag and the fields of `e`'s kind are written,
      every other field keeps what an earlier event left in it. */
  function Encoded(prev: RustGlue.GlueEvent, e: C.AudioEvent): (r: RustGlue.GlueEvent)
    ensures r.time == e.bufferOffsetTime
    ensures r.ty == (match e case ParameterChange(_, _, _) => 0 case RampedParameterChange(_, _, _, _) => 1 case MidiMessage(_, _, _, _) => 2)
    ensures e.MidiMessage? ==> r.paramAddr == prev.paramAddr && r.paramValue == prev.paramValue && r.paramRampTime == prev.paramRampTime
    ensures !e.MidiMessage? ==> r.midiCable == prev.midiCable && r.midiValidBytes == prev.midiValidBytes && r.midiBytes == prev.midiBytes
    ensures e.ParameterChange? ==> r.paramRampTime == prev.paramRampTime
  {
    match e
    case ParameterChange(t, a, v) =>
      prev.(time := t, ty := 0, paramAddr := a, paramValue := v)
    case RampedParameterChange(t, a, v, ramp) =>
      prev.(time := t, ty := 1, paramAddr := a, paramValue := v, paramRampTime := ramp)
    case MidiMessage(t, cable, validBytes, data) =>
      prev.(time := t, ty := 2, midiCable := cable, midiValidBytes := validBytes, midiBytes := data)
  }

  /** The round trip across the boundary: whatever an earlier event left in
      the record, decoding the record `glue_event_stream` wrote gives back
      the event. */
  lemma EncodeThenNext(prev: RustGlue.GlueEvent, e: C.AudioEvent)
    ensures RustGlue.Next(Some(Encoded(prev, e))) == Some(ToKernelEvent(e))
  {
  }

  /** The record `kernel_impl::process` pairs with the event generator; one
      is reused for every event of a call. */
  class GlueRecord {
    var time: int64
    var ty: uint64
    var paramAddr: uint64
    var paramValue: real
    var paramRampTime: uint32
    var midiCable: uint8
    var midiValidBytes: uint16
    var midiBytes: KernelTypes.MidiBytes

    /** The record's fields as one value. */
    function Value(): RustGlue.GlueEvent
      reads this
    {
      RustGlue.GlueEvent(time, ty, paramAddr, paramValue, paramRampTime, midiCable, midiValidBytes, midiBytes)
    }

    /** `glue_event {}`: every field zero. */
    constructor ()
      ensures Value() == RustGlue.GlueEvent(0, 0, 0, 0.0, 0, 0, 0, [0, 0, 0])
    {
      time, ty, paramAddr, paramValue, paramRampTime := 0, 0, 0, 0.0, 0;
      midiCable, midiValidBytes, midiBytes := 0, 0, [0, 0, 0];
    }

    /** The body of the `std::visit` in `glue_event_stream`. */
    method Write(e: C.AudioEvent)
      modifies this
      ensures Value() == Encoded(old(Value()), e)
    {
      match e
      case ParameterChange(t, a, v) =>
        time, ty, paramAddr, paramValue := t, 0, a, v;
      case RampedParameterChange(t, a, v, ramp) =>
        time, ty, paramAddr, paramValue, paramRampTime := t, 1, a, v, ramp;
      case MidiMessage(t, cable, validBytes, data) =>
        time, ty, midiCable, midiValidBytes, midiBytes := t, 2, cable, validBytes, data;
    }

    /** `glue_event_stream`: `next` is what the generator yields. An event is
      written into the record and the record returned; an exhausted
      generator gives a null pointer and leaves the record alone. */
    method Pull(next: Option<C.AudioEvent>) returns (returned: Option<RustGlue.GlueEvent>)
      modifies this
      ensures returned.None? <==> next.None?
      ensures next.Some? ==> Value() == Encoded(old(Value()), next.value) && returned == Some(Value())
      ensures next.None? ==> Value() == old(Value())
    {
      if next.Some? {
        Write(next.value);
        return Some(Value());
      }
      return None;
    }
  }

  /** One `process` call's events as the Rust kernel receives them: a fresh
      zeroed record, then `GlueEventStream::next` pulling through
      `glue_event_stream` until the null record. Every event arrives as
      itself, in order, although the record is reused. */
  method StreamEvents(events: seq<C.AudioEvent>) returns (received: seq<KernelTypes.Event>)
    ensures |received| == |events|
    ensures forall i | 0 <= i < |events| :: received[i] == ToKernelEvent(events[i])
  {
    var record := new GlueRecord();
    var k := 0;
    received := [];
    while true
      invariant k <= |events| && |received| == k
      invariant forall i | 0 <= i < k :: received[i] == ToKernelEvent(events[i])
      decreases |events| - k
    {
      var next := if k < |events| then Some(events[k]) else None;
      ghost var prev := record.Value();
      var returned := record.Pull(next);
      var e := RustGlue.Next(returned);
      if e.None? {
        break;
      }
      EncodeThenNext(prev, events[k]);
      received := received + [e.value];
      k := k + 1;
    }
  }

  // ---------------------------------------------------------------------
  // Channel formats: the `add_format` lambda

  /** The channel count a serialised count stands for: non-negative is that
      many channels, negative is any number. */
  function DecodeChannels(n: int32): (c: C.ChannelCount)
    ensures c.Count? <==> n >= 0
    ensures c.Count? ==> c.channels == n
  {
    if n >= 0 then C.Count(n) else C.AnyChannelCount
  }

  /** The host form of a kernel's allowed channel count. */
  function ToHostChannels(a: KernelTypes.AllowedChannels): C.ChannelCount {
    match a
    case AnyChannelCountAllowed => C.AnyChannelCount
    case ChannelCountAllowed(x) => C.Count(x)
  }

  /** Serialising on the Rust side and decoding on the C++ side gives back
      the allowed count exactly when it is "any" or below 2^31; a count of
      2^31 or more wraps to a negative number and comes back as "any". */
  lemma ChannelsRoundTripIff(a: KernelTypes.AllowedChannels)
    ensures DecodeChannels(RustGlue.Serialize(a)) == ToHostChannels(a)
        <==> a.AnyChannelCountAllowed? || a.count < 0x8000_0000
    ensures a.ChannelCountAllowed? && a.count >= 0x8000_0000 ==> DecodeChannels(RustGlue.Serialize(a)) == C.AnyChannelCount
  {
  }

  /** `get_kernel_allowed_channels`: each reported pair decoded and appended,
      in the order reported. */
  method GetKernelAllowedChannels(calls: seq<(int32, int32)>) returns (ret: seq<C.AllowedChannelConfiguration>)
    ensures |ret| == |calls|
    ensures forall i | 0 <= i < |calls| ::
      ret[i] == C.AllowedChannelConfiguration(DecodeChannels(calls[i].0), DecodeChannels(calls[i].1))
  {
    ret := [];
    for i := 0 to |calls|
      invariant |ret| == i
      invariant forall j | 0 <= j < i ::
        ret[j] == C.AllowedChannelConfiguration(DecodeChannels(calls[j].0), DecodeChannels(calls[j].1))
    {
      var (input, output) := calls[i];
      ret := ret + [C.AllowedChannelConfiguration(DecodeChannels(input), DecodeChannels(output))];
    }
  }

  // ---------------------------------------------------------------------
  // Parameters: `apply_numeric_fn`/`addNumeric`, `apply_indexed_fn`/`addIndexed`

  /** The unit of a numeric parameter: a null name reads as the empty
      string; a non-empty name is a custom unit, otherwise the numeric code,
      cut to the 32 bits of `AudioUnitParameterUnit`. */
  function DecodeUnit(unit: uint64, unitName: Option<string>): (u: C.ParameterUnit)
    ensures u.UnitName? <==> unitName.Some? && unitName.value != ""
    ensures u.UnitName? ==> u.name == unitName.value
    ensures u.UnitCode? ==> u.code == unit % 0x1_0000_0000
  {
    var name := if unitName.Some? then unitName.value else "";
    if name != "" then C.UnitName(name) else C.UnitCode(unit % 0x1_0000_0000)
  }

  /** The unit survives the boundary: a custom unit with a name arrives as
      that name, every other unit as its numeric code (a custom unit with an
      empty name as the custom code 26). */
  lemma UnitRoundTrip(unit: KernelTypes.Unit)
    ensures var u := DecodeUnit(RustGlue.ConvertUnit(unit), if unit.Custom? then Some(unit.name) else None);
      (u.UnitName? <==> unit.Custom? && unit.name != "") &&
      (u.UnitName? ==> u.name == unit.name) &&
      (u.UnitCode? ==> u.code == RustGlue.ConvertUnit(unit))
  {
  }

  /** `uint32_t(flags)`: the low 32 bits of the flag word. */
  function Truncate(flags: bv64): (w: bv32) {
    (flags & 0xFFFF_FFFF) as bv32
  }

  /** The low 32 bits keep the readable, writable and logarithmic bits. */
  lemma TruncateKeepsFlagBits(flags: bv64)
    ensures (Truncate(flags) & (1 << 30) != 0) == (flags & RustGlue.ReadableBit != 0)
    ensures (Truncate(flags) & (1 << 31) != 0) == (flags & RustGlue.WritableBit != 0)
    ensures (Truncate(flags) & (1 << 22) != 0) == (flags & RustGlue.LogarithmicBit != 0)
  {
  }

  /** The `Parameter_info` one reported declaration becomes. */
  function DecodeParam(call: RustGlue.ParamCall): (p: C.ParameterInfo)
    ensures p.identifierString == call.id && p.address == call.address && p.name == call.name
    ensures p.flags == Truncate(call.flags) && p.dependentParameters == call.dependents
    ensures p.info.NumericInfo? <==> call.NumericCall?
  {
    match call
    case NumericCall(id, address, name, flags, min, max, unitNum, unitName, d, deps) =>
      C.ParameterInfo(id, address, name, Truncate(flags),
                      C.NumericInfo(min, max, DecodeUnit(unitNum, unitName), d), deps)
    case IndexedCall(id, address, name, flags, valueStrings, d, deps) =>
      C.ParameterInfo(id, address, name, Truncate(flags), C.IndexedInfo(valueStrings, d), deps)
  }

  /** `get_kernel_impl_params`: each reported declaration decoded and
      appended, in the order reported. */
  method GetKernelImplParams(calls: seq<RustGlue.ParamCall>) returns (ret: seq<C.ParameterInfo>)
    ensures |ret| == |calls|
    ensures forall i | 0 <= i < |calls| :: ret[i] == DecodeParam(calls[i])
  {
    ret := [];
    for i := 0 to |calls|
      invariant |ret| == i
      invariant forall j | 0 <= j < i :: ret[j] == DecodeParam(calls[j])
    {
      ret := ret + [DecodeParam(calls[i])];
    }
  }

  /** What the host must know of a kernel's declaration after the round
      trip: its id, address, name, dependents and default, its kind, its
      readable/writable/logarithmic bits, and range and unit or names. */
  ghost predicate Transferred(info: KernelTypes.Info, p: C.ParameterInfo) {
    p.identifierString == info.id && p.address == info.address && p.name == info.name &&
    p.dependentParameters == info.dependentParameters &&
    C.DefaultValue(p) == KernelTypes.DefaultOf(info) &&
    (p.flags & (1 << 30) != 0) == info.flags.readable &&
    (p.flags & (1 << 31) != 0) == info.flags.writable &&
    (p.flags & (1 << 22) != 0) == info.flags.scale.Logarithmic? &&
    match info.details
    case Numeric(min, max, unit, _) =>
      p.info.NumericInfo? && p.info.min == min && p.info.max == max &&
      (p.info.unit.UnitName? <==> unit.Custom? && unit.name != "") &&
      (p.info.unit.UnitName? ==> p.info.unit.name == unit.name) &&
      (p.info.unit.UnitCode? ==> p.info.unit.code == RustGlue.ConvertUnit(unit))
    case Indexed(names, _) =>
      p.info.IndexedInfo? && p.info.valueStrings == names
  }

  /** A declaration described by `get_params` and decoded by the host keeps
      everything `Transferred` names. */
  lemma DescribeThenDecode(info: KernelTypes.Info)
    ensures Transferred(info, DecodeParam(RustGlue.Describe(info)))
  {
    var call := RustGlue.Describe(info);
    TruncateKeepsFlagBits(call.flags);
    if info.details.Numeric? {
      UnitRoundTrip(info.details.unit);
    }
  }

  /** With the flag word as `get_params` computes it, the host's readable
      bit is the declaration's writable flag and its writable bit the
      readable flag. */
  lemma HostSeesSwappedFlagsAsWritten(info: KernelTypes.Info)
    ensures (Truncate(RustGlue.DescriptorFlagsAsWritten(info)) & (1 << 30) != 0) == info.flags.writable
    ensures (Truncate(RustGlue.DescriptorFlagsAsWritten(info)) & (1 << 31) != 0) == info.flags.readable
  {
    TruncateKeepsFlagBits(RustGlue.DescriptorFlagsAsWritten(info));
  }

  // ---------------------------------------------------------------------
  // The factory description: `Rust_kernel_factory`

  /** Kernel type 1 is an instrument, every other code an effect. */
  function DecodeType(code: uint32): (t: C.FactoryType)
    ensures t.InstrumentType? <==> code == 1
  {
    if code == 1 then C.InstrumentType else C.EffectType
  }

  /** A bypass parameter exists when the has-flag is non-zero, and then sits
      at the reported address. */
  function DecodeBypass(has: uint64, address: uint64): (b: Option<uint64>)
    ensures b.Some? <==> has != 0
    ensures b.Some? ==> b.value == address
  {
    if has != 0 then Some(address) else None
  }

  /** The bypass round trip. */
  lemma BypassRoundTrip(info: KernelTypes.KernelInfo)
    ensures DecodeBypass(RustGlue.GetHasBypassParam(info), RustGlue.GetBypassParam(info)) == info.bypassParam
  {
  }

  /** The `Rust_kernel_factory` constructor over the Rust kernel's
      description; `typeCode` is what `get_kernel_type` reports
      (rust/kernel/src/kernel_type.rs is not part of this model). The host
      ends up with the kernel's bypass parameter, its allowed formats (a
      fixed count below 2^31 exactly), and every declaration, transferred. */
  method RustKernelFactory(info: KernelTypes.KernelInfo, typeCode: uint32) returns (fi: C.FactoryInfo)
    requires forall i | 0 <= i < |info.params| :: RustGlue.Describable(info.params[i])
    ensures fi.kind == DecodeType(typeCode)
    ensures fi.bypassParameter == info.bypassParam
    ensures |fi.allowedChannelConfigurations| == |info.formats|
    ensures forall i | 0 <= i < |info.formats| ::
      var f := info.formats[i];
      var c := fi.allowedChannelConfigurations[i];
      (f.inputChannels.AnyChannelCountAllowed? || f.inputChannels.count < 0x8000_0000 ==> c.inputChannels == ToHostChannels(f.inputChannels)) &&
      (f.outputChannels.AnyChannelCountAllowed? || f.outputChannels.count < 0x8000_0000 ==> c.outputChannels == ToHostChannels(f.outputChannels))
    ensures |fi.parameters| == |info.params|
    ensures forall i | 0 <= i < |info.params| :: Transferred(info.params[i], fi.parameters[i])
  {
    var formatCalls := RustGlue.GetKernelAllowedChannelFormats(info);
    var channels := GetKernelAllowedChannels(formatCalls);
    var paramCalls := RustGlue.GetParams(info);
    var params := GetKernelImplParams(paramCalls);
    forall i | 0 <= i < |info.formats|
      ensures DecodeChannels(RustGlue.Serialize(info.formats[i].inputChannels)) == ToHostChannels(info.formats[i].inputChannels)
          <==> info.formats[i].inputChannels.AnyChannelCountAllowed? || info.formats[i].inputChannels.count < 0x8000_0000
      ensures DecodeChannels(RustGlue.Serialize(info.formats[i].outputChannels)) == ToHostChannels(info.formats[i].outputChannels)
          <==> info.formats[i].outputChannels.AnyChannelCountAllowed? || info.formats[i].outputChannels.count < 0x8000_0000
    {
      ChannelsRoundTripIff(info.formats[i].inputChannels);
      ChannelsRoundTripIff(info.formats[i].outputChannels);
    }
    forall i | 0 <= i < |info.params|
      ensures Transferred(info.params[i], params[i])
    {
      DescribeThenDecode(info.params[i]);
    }
    BypassRoundTrip(info);
    fi := C.FactoryInfo(DecodeType(typeCode), channels, params,
                        DecodeBypass(RustGlue.GetHasBypassParam(info), RustGlue.GetBypassParam(info)));
  }
}
