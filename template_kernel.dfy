/** The reference effect kernel (create/template/rust/kernel/src/lib.rs): a
    parameter map seeded from the declared defaults, a configuration
    recomputed from the whole map on every write, and a gain stage that is
    skipped while bypassed.

    rust/.../state.rs is not part of this model: the DSP state is a value of
    a type parameter, and `State::default()` is the value the kernel is
    created with. Samples are exact reals. */
module TemplateKernel {
  import opened Common
  import opened KernelTypes
  import opened TemplateParams
  import opened TemplateConfig
  import Deinterleaved
  import Interleave

  /** `KERNEL_INFO`: the table of parameters, bypass at the Bypass address,
      an effect, mono-to-mono or stereo-to-stereo. */
  const KernelInfoValue: KernelInfo := KernelInfo(
    Params(),
    Some(Address(Bypass)),
    Effect,
    [ AllowedFormat(ChannelCountAllowed(1), ChannelCountAllowed(1)),
      AllowedFormat(ChannelCountAllowed(2), ChannelCountAllowed(2)) ])

  /** The map a new kernel starts from. */
  function InitialParams(): (m: map<uint64, real>)
    ensures HasParams(m)
    ensures m.Keys == {Address(Bypass), Address(Gain)}
    ensures forall p :: m[Address(p)] == DefaultOf(InfoOf(p))
  {
    ParamsAreTheEnum();
    DefaultsAt(Params(), 0);
    DefaultsAt(Params(), 1);
    Defaults(Params())
  }

  /** The parameter map after one event: both kinds of parameter change
      write the value (a ramp time is ignored); MIDI leaves it alone. */
  function Handle(m: map<uint64, real>, data: Data): map<uint64, real> {
    match data
    case ParameterChange(a, v) => m[a := v]
    case RampedParameterChange(a, v, _) => m[a := v]
    case MidiMessage(_, _, _) => m
  }

  function Scale(s: seq<real>, gain: real): (r: seq<real>)
    ensures |r| == |s| && forall i | 0 <= i < |s| :: r[i] == s[i] * gain
  {
    seq(|s|, i requires 0 <= i < |s| => s[i] * gain)
  }

  /** One channel after `run_audio` on frames `[lo, hi)` with configuration
      `config`: untouched while bypassed, otherwise those frames times the
      gain. */
  function ChannelStep(s: seq<real>, lo: nat, hi: nat, config: Config): (r: seq<real>)
    ensures |r| == |s|
  {
    seq(|s|, j requires 0 <= j < |s| => if !config.bypass && lo <= j < hi then s[j] * config.gain else s[j])
  }

  /** The samples after `run_audio` on frames `[lo, hi)` of `b`: every
      channel stepped alike. */
  function AudioStep(b: Deinterleaved.Buffer<real>, lo: nat, hi: nat, config: Config): (r: Deinterleaved.Buffer<real>)
    ensures |r| == |b| && forall c | 0 <= c < |b| :: |r[c]| == |b[c]|
  {
    seq(|b|, c requires 0 <= c < |b| => ChannelStep(b[c], lo, hi, config))
  }

  /** The parameter map and the samples after the callback has received the
      calls `trace` of a run over `events`; an audio call is processed with
      the configuration in force after every earlier event call. */
  function Replay(format: AudioFormat, m: map<uint64, real>, b: Deinterleaved.Buffer<real>,
                  trace: seq<Interleave.Item>, events: seq<Event>): (r: (map<uint64, real>, Deinterleaved.Buffer<real>))
    requires HasParams(m)
    requires forall p | 0 <= p < |trace| && trace[p].EventAt? :: trace[p].index < |events|
    ensures HasParams(r.0)
    ensures |r.1| == |b| && forall c | 0 <= c < |b| :: |r.1[c]| == |b[c]|
    decreases |trace|
  {
    if trace == [] then (m, b)
    else
      var prev := Replay(format, m, b, trace[..|trace| - 1], events);
      match trace[|trace| - 1]
      case EventAt(i) => (Handle(prev.0, events[i].data), prev.1)
      case Audio(lo, hi) => (prev.0, AudioStep(prev.1, lo, hi, FromParams(format, prev.0)))
  }

  /** The same map after the events at positions `indices`, in that order. */
  function HandleAll(m: map<uint64, real>, events: seq<Event>, indices: seq<nat>): map<uint64, real>
    requires forall j | 0 <= j < |indices| :: indices[j] < |events|
  {
    if indices == [] then m
    else Handle(HandleAll(m, events, indices[..|indices| - 1]), events[indices[|indices| - 1]].data)
  }

  /** Scaling every sample of a window's array the way `run_audio` does: the
      `n` samples from `start` are multiplied, all others are kept. */
  ghost predicate ScaledWindow(a: seq<real>, a0: seq<real>, start: nat, n: nat, gain: real) {
    |a| == |a0| && forall k | 0 <= k < |a| :: a[k] == if start <= k < start + n then a0[k] * gain else a0[k]
  }

  /** The samples of an array outside the window `[start, start + n)` are
      those of `a0`. */
  ghost predicate SameOutside(a: seq<real>, a0: seq<real>, start: nat, n: nat) {
    |a| == |a0| && forall k | 0 <= k < |a| && !(start <= k < start + n) :: a[k] == a0[k]
  }

  /** Scaling a sub-window keeps everything outside the enclosing window. */
  lemma ScaledInside(a: seq<real>, a0: seq<real>, start: nat, n: nat, lo: nat, hi: nat, gain: real)
    requires lo <= hi <= n && ScaledWindow(a, a0, start + lo, hi - lo, gain)
    ensures SameOutside(a, a0, start, n)
  {
  }

  /** With the arrays' contents `now` and `before`, every channel's array
      keeps its samples outside the channel's window. */
  ghost predicate KeptOutside(audio: Deinterleaved.View<real>, now: seq<seq<real>>, before: seq<seq<real>>) {
    |now| == |before| == |audio| &&
    forall c | 0 <= c < |audio| :: SameOutside(now[c], before[c], audio[c].start, audio[c].len)
  }

  /** Two steps that each keep the outside of the windows keep it together. */
  lemma KeptOutsideTrans(audio: Deinterleaved.View<real>, a: seq<seq<real>>, b: seq<seq<real>>, c: seq<seq<real>>)
    requires KeptOutside(audio, a, b) && KeptOutside(audio, b, c)
    ensures KeptOutside(audio, a, c)
  {
  }

  class Kernel<S> {
    var format: AudioFormat
    var paramSet: map<uint64, real>
    var config: Config
    var state: S
    /** `State::default()`. */
    const defaultState: S

    /** The configuration is always the one the current map gives. */
    ghost predicate Valid()
      reads this
    {
      HasParams(paramSet) && config == FromParams(format, paramSet)
    }

    /** `Kernel::new`: every declared address at its default, the
      configuration computed from that map, the default DSP state. */
    constructor (format: AudioFormat, defaultState: S)
      ensures Valid()
      ensures this.format == format && this.defaultState == defaultState && state == defaultState
      ensures paramSet == InitialParams()
    {
      this.format := format;
      this.defaultState := defaultState;
      var m := InitialParams();
      paramSet := m;
      config := FromParams(format, m);
      state := defaultState;
    }

    /** `set_parameter`: any address is written (absent ones are added), and
      the configuration is recomputed from the entire map. */
    method SetParameter(address: uint64, value: real)
      requires Valid()
      modifies this
      ensures Valid()
      ensures paramSet == old(paramSet)[address := value] && GetParameter(address) == value
      ensures format == old(format) && state == old(state)
    {
      paramSet := paramSet[address := value];
      config := FromParams(format, paramSet);
    }

    /** `get_parameter`: the stored value, which for Gain is the gain in
      force and for Bypass bypasses exactly at 1. An absent address panics
      in the source. */
    function GetParameter(address: uint64): (v: real)
      requires address in paramSet
      reads this
      ensures Valid() && address == Address(Gain) ==> v == config.gain
      ensures Valid() && address == Address(Bypass) ==> (v == 1.0 <==> config.bypass)
    {
      paramSet[address]
    }

    /** `reset`: only the DSP state goes back to its default. */
    method Reset()
      modifies this
      ensures state == defaultState
      ensures format == old(format) && paramSet == old(paramSet) && config == old(config)
    {
      state := defaultState;
    }

    /** `handle_event`. */
    method HandleEvent(data: Data)
      requires Valid()
      modifies this
      ensures Valid()
      ensures paramSet == Handle(old(paramSet), data)
      ensures format == old(format) && state == old(state)
    {
      match data
      case ParameterChange(a, v) =>
        SetParameter(a, v);
      case RampedParameterChange(a, v, _) =>
        SetParameter(a, v);
      case MidiMessage(_, _, _) =>
    }

    /** `run_audio`: returns at once while bypassed; otherwise every sample
      of every channel, channel by channel, is multiplied by the gain. */
    method RunAudio(audio: Deinterleaved.View<real>)
      requires Deinterleaved.Valid(audio) && Deinterleaved.Exclusive(audio)
      modifies Deinterleaved.Storage(audio)
      ensures config.bypass ==> forall c | 0 <= c < |audio| :: audio[c].data[..] == old(audio[c].data[..])
      ensures !config.bypass ==> forall c | 0 <= c < |audio| ::
        ScaledWindow(audio[c].data[..], old(audio[c].data[..]), audio[c].start, audio[c].len, config.gain)
    {
      if config.bypass {
        return;
      }
      var gain := config.gain;
      for c := 0 to |audio|
        invariant forall d | 0 <= d < c ::
          ScaledWindow(audio[d].data[..], old(audio[d].data[..]), audio[d].start, audio[d].len, gain)
        invariant forall d | c <= d < |audio| :: audio[d].data[..] == old(audio[d].data[..])
      {
        var channel := audio[c];
        for i := 0 to channel.len
          invariant ScaledWindow(channel.data[..], old(channel.data[..]), channel.start, i, gain)
          invariant forall d | 0 <= d < c ::
            ScaledWindow(audio[d].data[..], old(audio[d].data[..]), audio[d].start, audio[d].len, gain)
          invariant forall d | c < d < |audio| :: audio[d].data[..] == old(audio[d].data[..])
        {
          channel.data[channel.start + i] := channel.data[channel.start + i] * gain;
        }
      }
    }

    /** The audio arm of the callback in `process`: `run_audio` on the
      slice `lo..hi` the interleaver hands over. The windows take one
      `AudioStep`, and no sample outside them changes. */
    method RunAudioSlice(audio: Deinterleaved.View<real>, lo: nat, hi: nat)
      requires Deinterleaved.Valid(audio) && Deinterleaved.Exclusive(audio)
      requires lo <= hi && forall c | 0 <= c < |audio| :: hi <= audio[c].len
      modifies Deinterleaved.Storage(audio)
      ensures Deinterleaved.Freeze(audio) == AudioStep(old(Deinterleaved.Freeze(audio)), lo, hi, config)
      ensures KeptOutside(audio, Contents(audio), old(Contents(audio)))
    {
      ghost var before := Deinterleaved.Freeze(audio);
      ghost var olds := Contents(audio);
      assert forall c | 0 <= c < |audio| :: before[c] == olds[c][audio[c].start..audio[c].start + audio[c].len];
      RunAudioOnArrays(audio, lo, hi);
      SliceRan(audio, lo, hi, olds, before, config);
    }

    /** `run_audio` on `slice(lo..hi)`, seen on the parent's arrays. */
    method RunAudioOnArrays(audio: Deinterleaved.View<real>, lo: nat, hi: nat)
      requires Deinterleaved.Valid(audio) && Deinterleaved.Exclusive(audio)
      requires lo <= hi && forall c | 0 <= c < |audio| :: hi <= audio[c].len
      modifies Deinterleaved.Storage(audio)
      ensures config.bypass ==> forall c | 0 <= c < |audio| :: audio[c].data[..] == old(audio[c].data[..])
      ensures !config.bypass ==> forall c | 0 <= c < |audio| ::
        ScaledWindow(audio[c].data[..], old(audio[c].data[..]), audio[c].start + lo, hi - lo, config.gain)
    {
      var sub := Deinterleaved.Slice(audio, lo, hi);
      RunAudio(sub);
    }

    /** `process`: the block is cut at the event times; each event call goes
      to `handle_event` and each audio call to `run_audio` on that slice.
      `panicked` reports the interleaver's assertion on a late event, which
      aborts the source; the calls made before it have taken effect. No
      sample outside the channels' windows changes. */
    method Process(audio: Deinterleaved.View<real>, events: seq<Event>) returns (panicked: bool)
      requires Valid()
      requires |audio| > 0 && Deinterleaved.Valid(audio) && Deinterleaved.Exclusive(audio)
      modifies this, Deinterleaved.Storage(audio)
      ensures Valid()
      ensures format == old(format) && state == old(state)
      ensures panicked == Interleave.Split(Deinterleaved.Len(audio), events).panicked
      ensures Interleave.ItemsFit(Interleave.Split(Deinterleaved.Len(audio), events).trace, Deinterleaved.Len(audio), |events|)
      ensures (paramSet, Deinterleaved.Freeze(audio))
           == Replay(format, old(paramSet), old(Deinterleaved.Freeze(audio)),
                     Interleave.Split(Deinterleaved.Len(audio), events).trace, events)
      ensures KeptOutside(audio, Contents(audio), old(Contents(audio)))
    {
      var len := Deinterleaved.Len(audio);
      var trace;
      trace, panicked := Interleave.RunSplitAtEvents(audio, events);
      Interleave.ItemsInRange(len, events);
      ghost var m0 := paramSet;
      ghost var b0 := Deinterleaved.Freeze(audio);
      ghost var a0 := Contents(audio);
      assert trace[..0] == [];
      for p := 0 to |trace|
        invariant Valid() && format == old(format) && state == old(state)
        invariant paramSet == Replay(format, m0, b0, trace[..p], events).0
        invariant Deinterleaved.Freeze(audio) == Replay(format, m0, b0, trace[..p], events).1
        invariant KeptOutside(audio, Contents(audio), a0)
      {
        ReplayStep(format, m0, b0, trace, events, p);
        match trace[p]
        case EventAt(i) =>
          HandleEvent(events[i].data);
        case Audio(lo, hi) =>
          ghost var mid := Contents(audio);
          RunAudioSlice(audio, lo, hi);
          KeptOutsideTrans(audio, Contents(audio), mid, a0);
      }
      assert trace[..|trace|] == trace;
      assert a0 == old(Contents(audio));
    }
  }

  /** One more call of the callback. */
  lemma ReplayStep(format: AudioFormat, m: map<uint64, real>, b: Deinterleaved.Buffer<real>,
                   trace: seq<Interleave.Item>, events: seq<Event>, p: nat)
    requires HasParams(m) && p < |trace|
    requires forall q | 0 <= q < |trace| && trace[q].EventAt? :: trace[q].index < |events|
    ensures var prev := Replay(format, m, b, trace[..p], events);
      Replay(format, m, b, trace[..p + 1], events)
        == match trace[p]
           case EventAt(i) => (Handle(prev.0, events[i].data), prev.1)
           case Audio(lo, hi) => (prev.0, AudioStep(prev.1, lo, hi, FromParams(format, prev.0)))
  {
    assert trace[..p + 1][..p] == trace[..p] && trace[..p + 1][p] == trace[p];
  }

  /** The contents of every channel's whole array. */
  function Contents(audio: Deinterleaved.View<real>): (r: seq<seq<real>>)
    reads Deinterleaved.Storage(audio)
    ensures |r| == |audio| && forall c | 0 <= c < |audio| :: r[c] == audio[c].data[..]
  {
    seq(|audio|, c requires 0 <= c < |audio| reads Deinterleaved.Storage(audio) => audio[c].data[..])
  }

  /** The arrays after `run_audio` on `slice(lo..hi)`, in the current heap,
      against their contents `olds` and windows `before` from before it. */
  lemma SliceRan(audio: Deinterleaved.View<real>, lo: nat, hi: nat, olds: seq<seq<real>>,
                 before: Deinterleaved.Buffer<real>, config: Config)
    requires Deinterleaved.Valid(audio)
    requires lo <= hi && forall c | 0 <= c < |audio| :: hi <= audio[c].len
    requires |olds| == |before| == |audio|
    requires forall c | 0 <= c < |audio| :: |olds[c]| == audio[c].data.Length
    requires forall c | 0 <= c < |audio| :: before[c] == olds[c][audio[c].start..audio[c].start + audio[c].len]
    requires config.bypass ==> forall c | 0 <= c < |audio| :: audio[c].data[..] == olds[c]
    requires !config.bypass ==> forall c | 0 <= c < |audio| ::
      ScaledWindow(audio[c].data[..], olds[c], audio[c].start + lo, hi - lo, config.gain)
    ensures Deinterleaved.Freeze(audio) == AudioStep(before, lo, hi, config)
    ensures KeptOutside(audio, Contents(audio), olds)
  {
    var news := Contents(audio);
    var after := Deinterleaved.Freeze(audio);
    assert forall c | 0 <= c < |audio| :: after[c] == news[c][audio[c].start..audio[c].start + audio[c].len];
    SliceStep(audio, olds, news, before, after, lo, hi, config);
  }

  /** `run_audio` on `slice(lo..hi)`, seen from the parent view: with the
      arrays' contents before (`olds`) and after (`news`), the windows of the
      parent take one `AudioStep`. */
  lemma SliceStep(audio: Deinterleaved.View<real>, olds: seq<seq<real>>, news: seq<seq<real>>,
                  before: Deinterleaved.Buffer<real>, after: Deinterleaved.Buffer<real>,
                  lo: nat, hi: nat, config: Config)
    requires |olds| == |news| == |before| == |after| == |audio|
    requires lo <= hi
    requires forall c | 0 <= c < |audio| ::
      hi <= audio[c].len && audio[c].start + audio[c].len <= |olds[c]| == |news[c]|
    requires forall c | 0 <= c < |audio| :: before[c] == olds[c][audio[c].start..audio[c].start + audio[c].len]
    requires forall c | 0 <= c < |audio| :: after[c] == news[c][audio[c].start..audio[c].start + audio[c].len]
    requires config.bypass ==> forall c | 0 <= c < |audio| :: news[c] == olds[c]
    requires !config.bypass ==> forall c | 0 <= c < |audio| ::
      ScaledWindow(news[c], olds[c], audio[c].start + lo, hi - lo, config.gain)
    ensures after == AudioStep(before, lo, hi, config)
    ensures KeptOutside(audio, news, olds)
  {
    forall c | 0 <= c < |audio|
      ensures after[c] == AudioStep(before, lo, hi, config)[c]
      ensures SameOutside(news[c], olds[c], audio[c].start, audio[c].len)
    {
      WindowStep(news[c], olds[c], audio[c].start, audio[c].len, lo, hi, config);
    }
  }

  /** One array under `run_audio` on a slice: the window `[start, start +
      len)` of the parent channel is stepped, frames `lo..hi` of it scaled. */
  lemma WindowStep(a: seq<real>, a0: seq<real>, start: nat, len: nat, lo: nat, hi: nat, config: Config)
    requires start + len <= |a0| && lo <= hi <= len
    requires config.bypass ==> a == a0
    requires !config.bypass ==> ScaledWindow(a, a0, start + lo, hi - lo, config.gain)
    ensures a[start..start + len] == ChannelStep(a0[start..start + len], lo, hi, config)
    ensures SameOutside(a, a0, start, len)
  {
    if !config.bypass {
      ScaledInside(a, a0, start, len, lo, hi, config.gain);
    }
    var r := ChannelStep(a0[start..start + len], lo, hi, config);
    forall j | 0 <= j < len
      ensures a[start..start + len][j] == r[j]
    {
      assert a[start..start + len][j] == a[start + j];
    }
  }

  // ---------------------------------------------------------------------
  // Properties of the kernel

  /** The parameter map a run ends with is the one the event calls would
      give, in the order they were made. */
  lemma {:induction false} ReplayParams(format: AudioFormat, m: map<uint64, real>, b: Deinterleaved.Buffer<real>,
                                        trace: seq<Interleave.Item>, events: seq<Event>)
    requires HasParams(m)
    requires forall p | 0 <= p < |trace| && trace[p].EventAt? :: trace[p].index < |events|
    ensures var idx := Interleave.EventIndices(trace);
      (forall j | 0 <= j < |idx| :: idx[j] < |events|) &&
      Replay(format, m, b, trace, events).0 == HandleAll(m, events, idx)
    decreases |trace|
  {
    if trace != [] {
      var init := trace[..|trace| - 1];
      var last := trace[|trace| - 1];
      ReplayParams(format, m, b, init, events);
      assert trace == init + [last];
      Interleave.EventIndicesSnoc(init, last);
      var idx := Interleave.EventIndices(trace);
      assert last.EventAt? ==> last.index < |events|;
      if last.EventAt? {
        assert idx == Interleave.EventIndices(init) + [last.index];
        assert idx[..|idx| - 1] == Interleave.EventIndices(init);
      } else {
        assert idx == Interleave.EventIndices(init);
      }
    }
  }

  /** A run that does not fail its assertion applies every event, each
      once, in input order. */
  lemma ProcessAppliesEveryEvent(format: AudioFormat, m: map<uint64, real>, b: Deinterleaved.Buffer<real>,
                                 len: nat, events: seq<Event>)
    requires HasParams(m) && !Interleave.Split(len, events).panicked
    ensures Interleave.ItemsFit(Interleave.Split(len, events).trace, len, |events|)
    ensures Replay(format, m, b, Interleave.Split(len, events).trace, events).0
         == HandleAll(m, events, Interleave.Range(0, |events|))
  {
    Interleave.ItemsInRange(len, events);
    Interleave.ExactlyOnceInOrder(len, events);
    ReplayParams(format, m, b, Interleave.Split(len, events).trace, events);
  }

  /** Without events the whole block is processed with the configuration
      the map gives: all of it times the gain, or none of it when bypassed. */
  lemma ProcessWithoutEvents(format: AudioFormat, m: map<uint64, real>, b: Deinterleaved.Buffer<real>, len: nat)
    requires HasParams(m) && forall c | 0 <= c < |b| :: |b[c]| == len
    ensures var r := Replay(format, m, b, Interleave.Split(len, []).trace, []);
      r.0 == m &&
      (m[Address(Bypass)] == 1.0 ==> r.1 == b) &&
      (m[Address(Bypass)] != 1.0 ==> forall c | 0 <= c < |b| :: r.1[c] == Scale(b[c], m[Address(Gain)]))
  {
    Interleave.NoEvents(len);
    var t := [Interleave.Audio(0, len)];
    assert t[..0] == [];
    var r := Replay(format, m, b, t, []);
    assert Replay(format, m, b, t[..0], []) == (m, b);
    assert r == (m, AudioStep(b, 0, len, FromParams(format, m)));
    forall c | 0 <= c < |b|
      ensures m[Address(Bypass)] == 1.0 ==> r.1[c] == b[c]
      ensures m[Address(Bypass)] != 1.0 ==> r.1[c] == Scale(b[c], m[Address(Gain)])
    {
      assert r.1[c] == ChannelStep(b[c], 0, len, FromParams(format, m));
    }
  }

  /** The defaults round trip: writing every declared parameter's default,
      in declaration order, to any kernel gives it the configuration of a
      freshly constructed one. */
  lemma SetDefaultsGivesFreshConfig(format: AudioFormat, m: map<uint64, real>)
    requires HasParams(m)
    ensures var written := m[Params()[0].address := DefaultOf(Params()[0])][Params()[1].address := DefaultOf(Params()[1])];
      HasParams(written) && FromParams(format, written) == FromParams(format, InitialParams())
  {
  }

  /** The initial configuration: gain 0.1, not bypassed. */
  lemma InitialConfig(format: AudioFormat)
    ensures FromParams(format, InitialParams()) == Config(0.1, false)
  {
  }
}
