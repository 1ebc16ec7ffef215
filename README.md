# brinicle core, modelled in Dafny

brinicle is a framework for audio plug-ins. The DSP kernel is written in Rust. A C++ host layer wraps it as an Audio Unit and mirrors its parameters between the UI thread and the DSP thread. This project models the sequential core of both halves and proves what each part promises.

**The Rust DSP layer**
- The event/audio interleaver (`run_split_at_events`). It cuts a block at event times, delivering each event at its sample position between audio segments.
- The multichannel audio view. Its channels are windows over sample buffers, and slicing writes through to the parent buffers.
- The polyphonic voice allocator. It hands out the lowest free voice, drops notes when full, reclaims voices that end by themselves, and sends note-off to every slot playing a note.
- The MIDI short-message decoder: a cable/channel filter, then Note On/Note Off. Note On with velocity 0 is a Note Off, as in the MIDI 1.0 channel voice messages.
- The reference ("template") gain kernel. It keeps a parameter map and a configuration recomputed on every write, and routes events to the parameter map. While bypassed it leaves the audio alone. `process` drives the interleaver.

**The host boundary**
- The Rust encoders in `detail.rs`: unit codes, the flag word, the channel-count serialisation, the bypass queries, the parameter descriptors, and the decoding of the flat event record.
- The C++ decoders and the event-record encoder in `Make_kernel_factory.cpp`. Events are proved to round-trip with the Rust side. Parameter descriptors are proved to round-trip with the flag arguments in the corrected order (see "## Findings"); as written, the host sees a parameter's readable and writable flags exchanged.

**The C++ thread helpers**
- The parameter-state helpers (`get_default_state`, `get_param_state`, `set_param_state`, `apply_defaults`).
- The parameter mirror, with its compare-and-copy sync passes between the UI, atomic and DSP maps.
- The grab mirror, with its pending counters, saturating ungrab and transition-only callbacks.
- The event stream's subscribe/emit, with token lifetime as an `alive` flag.

**How it is modelled**
- Code that updates state in place is modelled as it is written. Objects are classes whose methods carry `modifies` clauses, buffers are `array`s, and loops are `for`/`while` loops with invariants. Each method's `ensures` ties the new state or the result to a specification function.
- The properties are proved about those specification functions as lemmas.
- Pure code becomes functions and lemmas over datatypes.
- Samples and parameter values are `real`: exact, with no rounding.
- Fixed-width integers are subset types of `int`. Wrap-around is written out where the source has it: `++` and `+=` on `uint64_t`, and `x as i32` on a `u32`.
- Callbacks the host or the kernel passes in become the sequence of calls they receive. A getter the code calls (`g` in the mirror's DSP sync) is a function parameter.

## Model

| member | source | states |
|---|---|---|
| Interleave.RunSplitAtEvents | rust/kernel/src/utils.rs:9-45 | the callback sequence and the assertion failure of a run are exactly those of `Split` over the block length and the events |
| Interleave.Coverage | rust/kernel/src/utils.rs:16-44 | the audio segments are contiguous, non-overlapping, in increasing order, and cover exactly `[0, len)`, so their lengths add up to `len` |
| Interleave.ExactlyOnceInOrder | rust/kernel/src/utils.rs:17-40 | the event calls name the events `0, 1, …, n-1`, each once, in input order |
| Interleave.DeliveryTime | rust/kernel/src/utils.rs:17-40 | event `i` is delivered after exactly as many frames as the largest time among events `0..i` (and at least 0) |
| Interleave.SampleAccurate | rust/kernel/src/utils.rs:17-44 | with ascending in-block times nothing panics and each event is delivered after exactly `time` frames |
| Interleave.PanicsIff | rust/kernel/src/utils.rs:25-26 | a run fails its assertion exactly when some event lies after the cursor and at or past the end of the block |
| Interleave.ImmediateNeighbours | rust/kernel/src/utils.rs:20-39 | an event at or before the cursor follows the previous call with no audio between; a later event follows exactly one segment from the cursor to its time |
| Interleave.AudioCallCount | rust/kernel/src/utils.rs:17-44 | there is one audio call more than there are events that advanced the cursor, and the last call is always `[cursor, len)`, even when empty |
| Interleave.ItemsInRange | rust/kernel/src/utils.rs:9-45 | whatever the events, every call names an input event or a window inside the block |
| Deinterleaved.AllSame | rust/deinterleaved/src/lib.rs:12-29 | true exactly when every element equals the first, so true for empty and one-element inputs |
| Deinterleaved.New | rust/deinterleaved/src/lib.rs:34-38 | a view is built exactly when all channels have one length; otherwise the assertion fails (`None`) |
| Deinterleaved.NewBuffer | rust/deinterleaved/src/lib.rs:133-137 | the immutable view is built exactly when all channels have one length |
| Deinterleaved.Len | rust/deinterleaved/src/lib.rs:49-51 | the length of channel 0, which every channel of a valid view shares |
| Deinterleaved.NumChannels | rust/deinterleaved/src/lib.rs:57-59 | one per channel slice and, in an exclusive view, one per distinct buffer |
| Deinterleaved.IsEmpty | rust/deinterleaved/src/lib.rs:53-55 | true exactly when the channels of a valid view are empty |
| Deinterleaved.Slice | rust/deinterleaved/src/lib.rs:40-47 | the slice keeps the channel count and each channel's buffer, has length `hi - lo`, and stays exclusive |
| Deinterleaved.SliceSamples | rust/deinterleaved/src/lib.rs:40-47 | frame `i` of a sliced channel is frame `lo + i` of the parent channel |
| Deinterleaved.SetSample | rust/deinterleaved/src/lib.rs:120-124 | writing frame `i` of channel `c` changes that frame of its buffer and, in an exclusive view, no other channel |
| Deinterleaved.SetThroughSlice | rust/deinterleaved/src/lib.rs:40-47 | writing frame `i` of a slice changes element `start + lo + i` of that channel's buffer and no other element of it, and nothing in any other channel |
| Deinterleaved.SplitFirstMut | rust/deinterleaved/src/lib.rs:61-66 | `None` exactly for no channels; otherwise channel 0 and a view of the other `n-1` channels in order, still valid and exclusive |
| Deinterleaved.Index | rust/deinterleaved/src/lib.rs:112-124 | channel `i`'s samples, as long as the view |
| Deinterleaved.BufferLen | rust/deinterleaved/src/lib.rs:148-150 | the length every channel of a valid immutable view shares |
| Deinterleaved.BufferIsEmpty | rust/deinterleaved/src/lib.rs:152-154 | true exactly when every channel is empty |
| Deinterleaved.BufferSlice | rust/deinterleaved/src/lib.rs:139-146 | same channel count; channel `c` frame `i` is parent frame `lo + i` |
| Deinterleaved.BufferSplitFirst | rust/deinterleaved/src/lib.rs:160-165 | `None` exactly for no channels; otherwise channel 0 and the rest, in order |
| Deinterleaved.BufferIndex | rust/deinterleaved/src/lib.rs:217-223 | channel `i`, as long as the view |
| Deinterleaved.Freeze | rust/deinterleaved/src/lib.rs:186-190 | the immutable view has the same channels with the same contents, and all of one length |
| Voices.VoiceNoteOn | rust/voices/tests/lib.rs:15-18 | the mock voice is running and has logged the note-on call |
| Voices.VoiceNoteOff | rust/voices/tests/lib.rs:19-22 | the mock voice has stopped and has logged the note-off velocity |
| Voices.Fresh | rust/voices/src/lib.rs:28-34 | the state of a new manager is well formed, with nothing used and nothing free |
| Voices.Manager.constructor | rust/voices/src/lib.rs:28-34 | a manager for `n` voices with no used entries and an empty free set |
| Voices.RetainRunning | rust/voices/src/lib.rs:67-68 | the used entries whose voice is still running, in their old order |
| Voices.FirstFree | rust/voices/src/lib.rs:77 | `None` exactly when no voice is free, otherwise the lowest free slot |
| Voices.Manager.NoteOnWithConfig | rust/voices/src/lib.rs:55-83 | the new used list, free set and voices are `AfterNoteOn` of the old ones |
| Voices.Manager.NoteOffWithConfig | rust/voices/src/lib.rs:86-104 | the new used list, free set and voices are `AfterNoteOff` of the old ones |
| Voices.Manager.NoteOn | rust/voices/src/lib.rs:36-43 | the same as `note_on_with_config` with the default configuration |
| Voices.Manager.NoteOff | rust/voices/src/lib.rs:45-52 | the same as `note_off_with_config` with the default configuration |
| Voices.NoteOnLowest | rust/voices/src/lib.rs:67-82 | with a free voice, the lowest one gets the note: it leaves the free set, gets one note-on, and `(slot, note)` is appended after the still-running entries |
| Voices.NoteOnDropped | rust/voices/src/lib.rs:76-82 | with no free voice the note is dropped: no voice is called and nothing is appended |
| Voices.NoStealing | rust/voices/src/lib.rs:70-82 | a running voice is never handed a new note |
| Voices.DroppedWhenFull | rust/voices/tests/lib.rs:93-116 | when every voice is running, a note-on changes nothing |
| Voices.NoteOnKeepsFreeSilent | rust/voices/src/lib.rs:70-82 | the free set stays made of silent voices across a note-on |
| Voices.NoteOffKeepsOthers | rust/voices/src/lib.rs:94-97 | note-off removes exactly the entries for that note, keeping the others in order |
| Voices.NoteOffEachSlot | rust/voices/src/lib.rs:94-103 | a voice gets a note-off exactly when it holds the note and is still running; every other voice is untouched |
| Voices.NoteOffTwice | rust/voices/tests/lib.rs:52-62 | a second note-off for the same note changes nothing and calls nothing |
| Voices.NoteOffKeepsFreeSilent | rust/voices/src/lib.rs:94-103 | note-off keeps the free set silent and leaves it unchanged |
| Voices.NoteOnOffGetsCalled | rust/voices/tests/lib.rs:39-49 | on one voice, note-on then note-off log `(32, 88)` and `89` |
| Voices.TwoNotesOn | rust/voices/tests/lib.rs:75-91 | two notes on two fresh voices land on slots 0 and 1 |
| Voices.TwoNotesOff | rust/voices/tests/lib.rs:75-91 | releasing both notes sends each voice its own note-off and empties the used list |
| Voices.NotesDistributed | rust/voices/tests/lib.rs:75-91 | each of the two voices logs exactly its own note-on and one note-off |
| Voices.FirstVoiceRepeats | rust/voices/tests/lib.rs:93-105 | after note 32 is played and released, note 33 reuses voice 0 and voice 1 stays unused |
| Voices.RepeatNoteOn | rust/voices/tests/lib.rs:107-116 | a voice that ended by itself is reused by the next note |
| Voices.NoNoteOffIfSelfEnded | rust/voices/tests/lib.rs:118-127 | a voice that ended by itself gets no note-off |
| Midi.ParseMidi | rust/midi/src/lib.rs:22-25 | empty input gives no message |
| Midi.MasksAreNibbles | rust/midi/src/lib.rs:27-58 | `& 0x0F` on a byte is its low nibble, and `& 0xF0` clears it |
| Midi.PassesMeaning | rust/midi/src/lib.rs:27-50 | the filter passes exactly when the cable and the channel match wherever the behaviour names them |
| Midi.FilterFirst | rust/midi/src/lib.rs:27-50 | any decoded message came from three bytes that passed the filter |
| Midi.NoteOffIff | rust/midi/src/lib.rs:52-66 | a Note Off comes out exactly for a passing 3-byte `0x8n` message, or a `0x9n` message with velocity 0, carrying bytes 1 and 2 |
| Midi.NoteOnIff | rust/midi/src/lib.rs:58-66 | a Note On comes out exactly for a passing 3-byte `0x9n` message with non-zero velocity, carrying bytes 1 and 2 |
| Midi.OtherwiseNone | rust/midi/src/lib.rs:52-68 | any other status, or a length other than 3, gives no message |
| TemplateParams.Params | create/template/rust/kernel/src/params.rs:8-47 | two declarations, each at the position its address names, which is the enum's declaration order |
| TemplateParams.InfoOf | create/template/rust/kernel/src/params.rs:8-47 | every parameter of the enum has its declaration in the table, at its address |
| TemplateParams.ParamsAreTheEnum | create/template/rust/kernel/src/params.rs:3-47 | exactly two declarations, Bypass at 0 and Gain at 1, with distinct ids, one per enum case |
| TemplateParams.ParamsDeclarations | create/template/rust/kernel/src/params.rs:9-44 | both parameters are numeric on `[0, 1]` with the Generic unit, readable, writable and without dependents; Bypass is linear with default 0 and Gain logarithmic with default 0.1 |
| TemplateConfig.FromParams | create/template/rust/kernel/src/config.rs:10-17 | the gain is the Gain value, and the kernel is bypassed exactly when the Bypass value is 1 |
| TemplateConfig.FromParamsDependsOnlyOnTheTwoValues | create/template/rust/kernel/src/config.rs:10-17 | the configuration depends only on the Gain and Bypass values, not on the format or any other entry |
| TemplateConfig.HalfIsNotBypass | create/template/rust/kernel/src/config.rs:13 | a Bypass value of 0.5 does not bypass: only exactly 1 does |
| KernelTypes.Defaults | create/template/rust/kernel/src/lib.rs:79-90 | collecting `(address, default)` pairs gives a map over exactly the declared addresses |
| KernelTypes.DefaultsAt | create/template/rust/kernel/src/lib.rs:79-90 | with distinct addresses, each address maps to its own declaration's default |
| TemplateKernel.InitialParams | create/template/rust/kernel/src/lib.rs:78-90 | the initial map has exactly the Bypass and Gain addresses, each at its default |
| TemplateKernel.InitialConfig | create/template/rust/kernel/src/lib.rs:91 | the fresh configuration is gain 0.1, not bypassed |
| TemplateKernel.Kernel.constructor | create/template/rust/kernel/src/lib.rs:78-98 | format as given, the defaults map, the configuration computed from it, the default DSP state |
| TemplateKernel.Kernel.SetParameter | create/template/rust/kernel/src/lib.rs:100-107 | the map gets `address ↦ value`, the configuration is recomputed from the whole map, format and state are kept, and `get_parameter(address)` then gives `value` |
| TemplateKernel.Kernel.GetParameter | create/template/rust/kernel/src/lib.rs:105-107 | the stored value; in a consistent kernel the Gain value is the gain in force, and the Bypass value is 1 exactly when the kernel is bypassed |
| TemplateKernel.Kernel.Reset | create/template/rust/kernel/src/lib.rs:116-118 | only the DSP state returns to its default; map and configuration are untouched |
| TemplateKernel.Kernel.HandleEvent | create/template/rust/kernel/src/lib.rs:38-46 | both kinds of parameter change set the value, ignoring the ramp; MIDI messages change nothing |
| TemplateKernel.Kernel.RunAudio | create/template/rust/kernel/src/lib.rs:48-57 | bypassed, every channel buffer is unchanged; otherwise exactly the view's frames are multiplied by the gain |
| TemplateKernel.Kernel.RunAudioOnArrays | create/template/rust/kernel/src/lib.rs:66-69 | `run_audio` on the slice `lo..hi`, seen on the parent's buffers: bypassed, every buffer is unchanged; otherwise exactly parent frames `lo..hi` of each channel are multiplied by the gain |
| TemplateKernel.Kernel.RunAudioSlice | create/template/rust/kernel/src/lib.rs:66-69 | running audio on the slice `lo..hi` transforms the view's contents as one audio step of the current configuration, and no buffer element outside the view's windows changes |
| TemplateKernel.Kernel.Process | create/template/rust/kernel/src/lib.rs:59-71 | `panicked` is the interleaver's assertion failure, which aborts the source; the map and audio are the replay of the calls made: each segment is processed with the configuration left by all earlier events; no buffer element outside the view's windows changes |
| TemplateKernel.ReplayParams | create/template/rust/kernel/src/lib.rs:59-71 | the map after a replay is the old map with the events applied in call order |
| TemplateKernel.ProcessAppliesEveryEvent | create/template/rust/kernel/src/lib.rs:59-71 | after `process` every event has been applied once, in input order |
| TemplateKernel.ProcessWithoutEvents | create/template/rust/kernel/src/lib.rs:48-71 | without events the map is untouched, and the block is unchanged when bypassed and scaled by the gain otherwise |
| TemplateKernel.SetDefaultsGivesFreshConfig | create/template/rust/kernel/src/lib.rs:79-102 | setting both parameters to their defaults reproduces the configuration of a fresh kernel, whatever the map was |
| RustGlue.ConvertUnit | rust/glue/src/detail.rs:9-18 | the code is one of 0, 3, 4, 5, 7, 26, and 26 exactly for a custom unit |
| RustGlue.ConvertFlags | rust/glue/src/detail.rs:20-27 | bit 30 iff readable, bit 31 iff writable, bit 22 iff logarithmic, and no other bit |
| RustGlue.ConvertFlagsInjective | rust/glue/src/detail.rs:20-27 | different flag triples give different words |
| RustGlue.AsInt32 | rust/glue/src/detail.rs:45 | `x as i32` is `x` modulo 2^32, non-negative exactly below 2^31 |
| RustGlue.Serialize | rust/glue/src/detail.rs:42-47 | negative exactly for "any" or a count of 2^31 or more; a count is carried modulo 2^32 |
| RustGlue.GetKernelAllowedChannelFormats | rust/glue/src/detail.rs:37-55 | one call per allowed format, in order, with its two serialised counts |
| RustGlue.GetHasBypassParam | rust/glue/src/detail.rs:57-62 | 1 exactly when there is a bypass parameter, 0 exactly when there is none |
| RustGlue.GetBypassParam | rust/glue/src/detail.rs:64-69 | the bypass address when there is one, 0 otherwise |
| RustGlue.DescriptorFlags | rust/glue/src/detail.rs:105-109 | the flag word reports a declaration's readable, writable and logarithmic flags |
| RustGlue.DescriptorFlagsAsWritten | rust/glue/src/detail.rs:105-109 | with the arguments as written, the readable bit reports the declaration's writable flag and the writable bit its readable flag |
| RustGlue.WriteOnlyReportedReadable | rust/glue/src/detail.rs:105-109 | with the arguments as written, a write-only parameter is reported readable and not writable |
| RustGlue.SwapHarmlessIff | rust/glue/src/detail.rs:105-109 | the swapped arguments are harmless exactly for parameters that are as readable as they are writable |
| RustGlue.Describe | rust/glue/src/detail.rs:102-158 | the call for one declaration carries its id, address, name, flags (in the corrected order of `DescriptorFlags`), dependents and details; the unit code, and the custom unit's name exactly for a custom unit |
| RustGlue.GetParams | rust/glue/src/detail.rs:71-160 | one descriptor call per declaration, in declaration order |
| RustGlue.Next | rust/glue/src/detail.rs:219-248 | no event exactly for a null record; the time is copied; tag 1 gives a ramped change, tag 2 a MIDI message, and every other tag a parameter change with the record's address and value |
| RustGlue.NextReadsOnlyTaggedFields | rust/glue/src/detail.rs:227-246 | the decoded event depends only on the time, the tag and the fields that tag uses |
| CppGlue.ToKernelEvent | cpp/kernel/Audio_event.h:1-47 | the kernel event a host event stands for keeps its time |
| CppGlue.Encoded | cpp/glue/Make_kernel_factory.cpp:86-107 | the record gets the event's time and the tag 0, 1 or 2 by kind, and keeps the fields that kind does not write from the previous event |
| CppGlue.EncodeThenNext | cpp/glue/Make_kernel_factory.cpp:86-108 | decoding an encoded event on the Rust side gives back the same event, whatever the record held before |
| CppGlue.GlueRecord.constructor | cpp/glue/Make_kernel_factory.cpp:135 | the record starts zeroed |
| CppGlue.GlueRecord.Write | cpp/glue/Make_kernel_factory.cpp:86-107 | the record becomes the encoding of the event over its previous contents |
| CppGlue.GlueRecord.Pull | cpp/glue/Make_kernel_factory.cpp:79-113 | an exhausted generator yields a null record and leaves the record alone; otherwise the record is re-encoded and returned |
| CppGlue.StreamEvents | cpp/glue/Make_kernel_factory.cpp:133-142 | over one `process` call the kernel receives exactly the host's events, in order, each converted |
| CppGlue.DecodeChannels | cpp/glue/Make_kernel_factory.cpp:286-295 | a count exactly for `n >= 0`, and that count; any negative value means any channel count |
| CppGlue.ChannelsRoundTripIff | cpp/glue/Make_kernel_factory.cpp:286-295 | serialising then decoding gives back the allowed channels exactly for "any" or a count below 2^31; a larger count comes back as "any" |
| CppGlue.GetKernelAllowedChannels | cpp/glue/Make_kernel_factory.cpp:283-300 | one configuration per reported format, in order, each count decoded |
| CppGlue.DecodeUnit | cpp/glue/Make_kernel_factory.cpp:257-259 | a custom string unit exactly for a non-empty name (a null name reads as empty), otherwise the numeric code |
| CppGlue.UnitRoundTrip | cpp/glue/Make_kernel_factory.cpp:200 | a unit crosses the boundary intact, except that a custom unit with an empty name becomes code 26 |
| CppGlue.TruncateKeepsFlagBits | cpp/glue/Make_kernel_factory.cpp:253 | cutting the flag word to 32 bits keeps the readable, writable and logarithmic bits |
| CppGlue.DecodeParam | cpp/glue/Make_kernel_factory.cpp:239-277 | the host declaration keeps the call's id, address, name, dependents and kind, with the flags cut to 32 bits |
| CppGlue.GetKernelImplParams | cpp/glue/Make_kernel_factory.cpp:236-281 | one host declaration per descriptor call, in order |
| CppGlue.DescribeThenDecode | cpp/glue/Make_kernel_factory.cpp:236-281 | with the corrected flag order, a declaration described on the Rust side and decoded on the C++ side keeps its id, address, name, default, flags, range, unit and value names |
| CppGlue.HostSeesSwappedFlagsAsWritten | cpp/glue/Make_kernel_factory.cpp:253 | with the flag word as written, the host's readable bit is the declaration's writable flag and its writable bit the readable flag |
| CppGlue.DecodeType | cpp/glue/Make_kernel_factory.cpp:306 | code 1 means instrument; anything else means effect |
| CppGlue.DecodeBypass | cpp/glue/Make_kernel_factory.cpp:309-310 | a bypass parameter exactly when the flag is non-zero, at the reported address |
| CppGlue.BypassRoundTrip | cpp/glue/Make_kernel_factory.cpp:309-310 | the host sees exactly the kernel's bypass parameter |
| CppGlue.RustKernelFactory | cpp/glue/Make_kernel_factory.cpp:305-312 | the host's description has the decoded type, the kernel's bypass parameter, one channel configuration per format (intact below 2^31) and every declaration transferred, flags in the corrected order |
| CppParameter.ParameterSet.SetParameter | cpp/kernel/Parameter.cpp:39 | the value is stored at the address and the call recorded; reading the address then gives the value |
| CppParameter.DefaultStateAt | cpp/kernel/Parameter.cpp:13-22 | each address maps to the default of its last declaration |
| CppParameter.GetDefaultState | cpp/kernel/Parameter.cpp:13-22 | the default state: every declared address at its declaration's default |
| CppParameter.GetParamState | cpp/kernel/Parameter.cpp:24-32 | the declared addresses and no others, each at the value the set reports |
| CppParameter.UIGetParamState | cpp/thread/UI_parameter.cpp:5-13 | the declared addresses and no others, each at the value the UI set reports; the set is only read |
| CppParameter.SetParamState | cpp/kernel/Parameter.cpp:34-41 | one `set_parameter` call per declaration, in order, with the state's value at its address; afterwards the set holds the state at the declared addresses and is unchanged elsewhere |
| CppParameter.ApplyDefaults | cpp/kernel/Parameter.cpp:7-11 | the defaults are written in declaration order, after which the set reports the default state at every declared address |
| CppParameter.DefaultsReadBack | cpp/kernel/Parameter.cpp:7-32 | reading the state back after `apply_defaults` gives exactly `get_default_state` |
| ParamMirror.Mirror.constructor | cpp/thread/Param_mirror.cpp:6-27 | the UI, atomic and DSP mirrors all start as the default state, so the DSP keys lie within the atomic keys and those within the UI keys (`Valid`) |
| ParamMirror.Mirror.GetFromUiThread | cpp/thread/Param_mirror.cpp:31-34 | the UI mirror's value; `.at` on an unknown address is a precondition |
| ParamMirror.Mirror.SetFromUiThread | cpp/thread/Param_mirror.cpp:31-40 | the UI and atomic entries become the value, the DSP mirror is kept, and `get_from_ui_thread` then gives the value |
| ParamMirror.CopyPass | cpp/thread/Param_mirror.h:27-33 | one walk copying every differing source value in key order, as `CopyChanged` states |
| ParamMirror.CopyChangedMeaning | cpp/thread/Param_mirror.h:27-33 | the copy calls `f` exactly for the differing addresses, in key order, with the new value, and the target then agrees on every walked address and is unchanged elsewhere |
| ParamMirror.DifferingComplete | cpp/thread/Param_mirror.h:29-31 | every walked address whose values differ gets its call |
| ParamMirror.PushPass | cpp/thread/Param_mirror.h:36-42 | one walk pushing `g`'s value wherever it differs, as `PushChanged` states |
| ParamMirror.PushChangedAt | cpp/thread/Param_mirror.h:36-42 | where `g` differs, both the DSP and atomic entries become `g`'s value; everything else is kept |
| ParamMirror.Mirror.SyncFromDspThread | cpp/thread/Param_mirror.h:24-43 | `f` is called for each atomic value that differs from the DSP mirror; afterwards the DSP and atomic mirrors agree with `g` everywhere and the UI mirror is kept |
| ParamMirror.DspSyncAgreesWithKernel | cpp/thread/Param_mirror.h:24-43 | after the DSP sync, both mirrors report `g` at every address |
| ParamMirror.Mirror.SyncFromUiThread | cpp/thread/Param_mirror.h:45-55 | `f` is called for each atomic value that differs from the UI mirror; afterwards the UI mirror agrees with the atomic one |
| ParamMirror.CopyTwiceSilent | cpp/thread/Param_mirror.h:27-33 | a second copy pass with no writes in between makes no calls and changes nothing |
| ParamMirror.SecondUiSyncSilent | cpp/thread/Param_mirror.h:45-55 | a second UI sync with no writes in between calls `f` zero times |
| GrabMirror.Increment | cpp/thread/Grab_mirror.cpp:14-16 | `++` on a 64-bit counter, wrapping modulo 2^64 |
| GrabMirror.Add | cpp/thread/Grab_mirror.h:20 | `+=` on a 64-bit count, wrapping modulo 2^64 |
| GrabMirror.SaturatingSub | cpp/thread/Grab_mirror.h:33-35 | the difference, or 0 when more ungrabs are pending than grabs counted |
| GrabMirror.Mirror.constructor | cpp/thread/Grab_mirror.cpp:5-12 | every declared address has count, pending grabs and pending ungrabs 0 |
| GrabMirror.Mirror.GrabFromUiThread | cpp/thread/Grab_mirror.cpp:14 | only the address's pending-grab counter goes up by one |
| GrabMirror.Mirror.UngrabFromUiThread | cpp/thread/Grab_mirror.cpp:16 | only the address's pending-ungrab counter goes up by one |
| GrabMirror.RunCheck | cpp/thread/Grab_mirror.h:15-41 | one walk over the pending keys in key order, as `Check` states |
| GrabMirror.CheckMeaning | cpp/thread/Grab_mirror.h:15-41 | each pending counter is zeroed and folded into its count, other counts are kept, and the reported keys are exactly those whose count flipped, in key order |
| GrabMirror.FlipsComplete | cpp/thread/Grab_mirror.h:21-23 | every key whose count flipped is reported |
| GrabMirror.Mirror.CheckPendingGrabsFromDspThread | cpp/thread/Grab_mirror.h:15-26 | pending grabs become 0 and are added to their counts; `grab` is called for exactly the addresses whose count flipped, at most once each |
| GrabMirror.GrabReportedIffGrabbed | cpp/thread/Grab_mirror.h:19-24 | without overflow, a grab is reported exactly when a count goes from 0 to non-zero |
| GrabMirror.Mirror.CheckPendingUngrabsFromDspThread | cpp/thread/Grab_mirror.h:28-41 | pending ungrabs become 0 and are subtracted from their counts, saturating at 0; `ungrab` is called for exactly the addresses whose count flipped |
| GrabMirror.UngrabReportedIffReleased | cpp/thread/Grab_mirror.h:32-38 | an ungrab is reported exactly when a non-zero count drops to 0 |
| GrabMirror.IdleCheck | cpp/thread/Grab_mirror.h:15-41 | with nothing pending a check changes nothing and reports nothing |
| GrabMirror.RepeatCheckSilent | cpp/thread/Grab_mirror.h:15-41 | a check repeated with no new pending counts changes nothing and reports nothing |
| EventStream.MakeEvent | cpp/thread/Event_stream.h:82-89 | a new emitter with no subscribers, and a stream referring to it |
| EventStream.Stream.Subscribe | cpp/thread/Event_stream.h:56-65 | always a fresh held token; the callback is registered under it exactly when the emitter is still alive |
| EventStream.Emitter.Emit | cpp/thread/Event_stream.h:67-80 | every subscriber with a held token is called exactly once with the arguments; expired ones are erased uncalled, and live ones stay registered |
| EventStream.DroppedSubscriberNotCalled | cpp/thread/Event_stream.h:67-80 | of two subscribers, the one whose token was dropped is not called and is no longer registered |
| EventStream.SubscribeAfterEmitterGone | cpp/thread/Event_stream.h:61-63 | once the emitter is gone, subscribing registers nothing |

## Left out

- rust/pitch/src/lib.rs: equal-temperament pitch maths is floating-point numerics.
- Floating point: `f32`, `f64`, `float` and `double` are exact reals. Rounding is not modelled. The `as f32`/`as f64`, `float(…)` and `double(…)` conversions are therefore identities, and so are `*sample *= gain` and the Bypass `== 1.0` test.
- Concurrency: atomics, `exchange`, cross-thread visibility and eventual consistency are not modelled. Each mirror operation is one sequential step, and `exchange(0)` is a read followed by a write. Nothing is claimed about interleaved calls.
- cpp/thread/Wrapped_kernel.h and Wrapped_kernel.cpp are not part of this model. Their point is thread coordination with mutexes, timing and weak host callbacks.
- FFI and pointer plumbing:
  - `create_kernel`/`delete_kernel`;
  - the raw-slice construction in `process_kernel`;
  - `vec_as_ptr` and the C string handling;
  - the callback trampolines and `kernel_impl`'s forwarding.
  A C string is the string it spells, and a null pointer is `None`.
- RustGlue.Describe: the custom unit's C string is dropped at the end of its `if let` block (rust/glue/src/detail.rs:126-131), so the pointer handed to the host dangles. The model passes the name itself, because object lifetimes are not modelled.
- rust/kernel/src/kernel_type.rs and the template's state.rs are not part of this model. The kernel type is the two cases the host tells apart, and the DSP state is a type parameter with a given default.
- `get_kernel_type`'s numeric code is a parameter of CppGlue.RustKernelFactory, because the enum's representation is not part of this model.
- Panics are preconditions: an `assert_eq!`, an index out of range, `map[&k]`, `.at` on a missing key, and `CString::new` on a string with a NUL byte. Two cases are modelled as outcomes instead, because what happens there is part of the behaviour. Building a view with unequal channel lengths returns `None`. The interleaver's assertion is a `panicked` flag after the calls already made.
- Voices.Manager.NoteOnWithConfig: the `assert_eq!` on the number of voices is a precondition rather than an outcome.
- TemplateConfig.FromParams: a missing Gain or Bypass entry panics in the source. Here it is excluded by the precondition.
- Deinterleaved.Slice: a range past a channel's end panics in the source. Here the precondition excludes it.
- Deinterleaved.Exclusive: a mutable view's channels are pairwise distinct arrays. This is stronger than Rust's borrow rule, which also allows disjoint windows of one buffer.
- Shared and weak pointers in cpp/thread/Event_stream.h are `alive` flags on tokens and on the emitter.
- EventStream.Stream.Subscribe: the source keys the subscriber map by the raw `Token*` (cpp/thread/Event_stream.h:40-43), and `unordered_map::insert` (line 62) does not overwrite. An expired entry stays until the next emit erases it (lines 70-74). So a new token allocated at a dead token's address is not registered, and that emit then erases the stale entry. The model keys by token identity and overwrites, so it does not capture this address reuse.
- RustGlue.GetParams, CppGlue.DescribeThenDecode and CppGlue.RustKernelFactory use the corrected flag order. With the order as written, the host sees a parameter's readable and writable flags exchanged, as CppGlue.HostSeesSwappedFlagsAsWritten states.
- EventStream.Emitter.Emit: the callbacks are recorded rather than run, so a callback that subscribes or emits again while the walk is running is not modelled. The unordered map's walk order is left arbitrary.
- The `std::map` walks in the mirrors go in ascending key order, which the model follows by taking the least remaining key.
- cpp/thread/UI_parameter.h's grab interface (`grab_parameter`, `Grabbed_parameter`) is not part of this model. Only the getter is used by the helpers.
- The JavaScript, Objective-C, React Native and UI sources are left out, because they are user interface and build tooling.
- Iteration over the view's channels (`IntoIterator`) is the view's own channel order, `seq` indexing. It is not a separate member.
- TemplateKernel.Kernel.SetParameter: the code inserts any address into the map (create/template/rust/kernel/src/lib.rs:100-103), so an unknown address is kept and ignored by the configuration.
- ParamMirror.Mirror.SetFromUiThread: an unknown address is inserted into the UI and atomic mirrors but not the DSP mirror. A later DSP sync's `.at` then fails. That is why the DSP sync requires the atomic mirror's keys to be among the DSP mirror's. The UI sync's `.at` cannot fail, because every atomic key is a UI key (`Valid`).
- GrabMirror.GrabReportedIffGrabbed: the "grabbed iff the count went from 0 to non-zero" form assumes the 64-bit count does not wrap. With wrap-around, a check reports exactly the keys whose zero-ness flipped, as CheckMeaning states.

## Findings

| source | as written | input that shows it | evidently intended | confidence | as-written member | corrected member |
|---|---|---|---|---|---|---|
| rust/glue/src/detail.rs:105-109 | `get_params` passes `(writable, readable)` to `convert_flags(readable, writable, ..)`, so bit 30 reports writability and bit 31 readability | a write-only parameter, `Flags(readable = false, writable = true)`, is reported readable and not writable | bit 30 carries `readable` and bit 31 `writable`, as `convert_flags` names them | not executed; both of the reference kernel's parameters are readable and writable, where the swap is harmless | RustGlue.DescriptorFlagsAsWritten, RustGlue.WriteOnlyReportedReadable, CppGlue.HostSeesSwappedFlagsAsWritten | RustGlue.DescriptorFlags, RustGlue.Describe, RustGlue.GetParams, RustGlue.SwapHarmlessIff, CppGlue.DescribeThenDecode |
