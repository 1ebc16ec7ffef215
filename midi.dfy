/** Decoding of short MIDI 1.0 channel voice messages (`parse_midi` in
    rust/midi/src/lib.rs): a cable/channel filter, then Note On and Note Off,
    where a Note On with velocity 0 is a Note Off. */
module Midi {
  import opened Common

  /** Which messages a listener accepts. */
  datatype Behavior =
    | Omni
    | CableOmni(cable: uint8)
    | ChannelOmni(channel: uint8)
    | Specific(cable: uint8, channel: uint8)

  /** `Behavior::default()`. */
  const DefaultBehavior: Behavior := Omni

  datatype Message = NoteOn(note: uint8, velocity: uint8) | NoteOff(note: uint8, velocity: uint8)

  /** `b & 0xF`, the channel of a status byte: its low nibble. */
  function ChannelOf(b: uint8): uint8 {
    b % 16
  }

  /** `b & 0xF0`, the kind of a status byte: its high nibble, in place. */
  function KindOf(b: uint8): uint8 {
    b - b % 16
  }

  /** The masks are the nibbles: on a byte, `& 0x0F` keeps the remainder by
      16 and `& 0xF0` clears it. */
  lemma MasksAreNibbles(x: bv8)
    ensures x & 0x0F == x % 16 && x & 0xF0 == x - x % 16
  {
  }

  /** The filter step: whether `behavior` lets a message on `cable` and
      `channel` through. */
  function Passes(behavior: Behavior, cable: uint8, channel: uint8): bool {
    match behavior
    case Omni => true
    case CableOmni(c) => c == cable
    case ChannelOmni(c) => c == channel
    case Specific(c, ch) => c == cable && ch == channel
  }

  /** `parse_midi`. */
  function ParseMidi(cable: uint8, bytes: seq<uint8>, behavior: Behavior): (r: Option<Message>)
    ensures bytes == [] ==> r.None?
  {
    if bytes == [] then None
    else if !Passes(behavior, cable, ChannelOf(bytes[0])) then None
    else if KindOf(bytes[0]) == 0x80 && |bytes| == 3 then Some(NoteOff(bytes[1], bytes[2]))
    else if KindOf(bytes[0]) == 0x90 && |bytes| == 3 then
      if bytes[2] != 0 then Some(NoteOn(bytes[1], bytes[2])) else Some(NoteOff(bytes[1], bytes[2]))
    else None
  }

  /** The filter in words: a listener bound to a cable accepts only that
      cable, one bound to a channel accepts only that channel, and `Omni`
      accepts everything. */
  lemma PassesMeaning(behavior: Behavior, cable: uint8, channel: uint8)
    ensures Passes(behavior, cable, channel)
        <==> (((behavior.CableOmni? || behavior.Specific?) ==> behavior.cable == cable) &&
              ((behavior.ChannelOmni? || behavior.Specific?) ==> behavior.channel == channel))
  {
  }

  /** A message is decoded only if the filter lets it through. */
  lemma FilterFirst(cable: uint8, bytes: seq<uint8>, behavior: Behavior)
    requires ParseMidi(cable, bytes, behavior).Some?
    ensures |bytes| == 3 && Passes(behavior, cable, ChannelOf(bytes[0]))
  {
  }

  /** Note Off: a three-byte message with status 0x80..0x8F, or with status
      0x90..0x9F and velocity 0. */
  lemma NoteOffIff(cable: uint8, bytes: seq<uint8>, behavior: Behavior, note: uint8, velocity: uint8)
    ensures ParseMidi(cable, bytes, behavior) == Some(NoteOff(note, velocity))
        <==> |bytes| == 3 && Passes(behavior, cable, ChannelOf(bytes[0])) &&
             (0x80 <= bytes[0] < 0x90 || (0x90 <= bytes[0] < 0xA0 && velocity == 0)) &&
             note == bytes[1] && velocity == bytes[2]
  {
  }

  /** Note On: a three-byte message with status 0x90..0x9F and a non-zero
      velocity. */
  lemma NoteOnIff(cable: uint8, bytes: seq<uint8>, behavior: Behavior, note: uint8, velocity: uint8)
    ensures ParseMidi(cable, bytes, behavior) == Some(NoteOn(note, velocity))
        <==> |bytes| == 3 && Passes(behavior, cable, ChannelOf(bytes[0])) &&
             0x90 <= bytes[0] < 0xA0 && velocity != 0 &&
             note == bytes[1] && velocity == bytes[2]
  {
  }

  /** Everything else (other statuses, other lengths) decodes to nothing. */
  lemma OtherwiseNone(cable: uint8, bytes: seq<uint8>, behavior: Behavior)
    requires |bytes| != 3 || !(0x80 <= bytes[0] < 0xA0)
    ensures ParseMidi(cable, bytes, behavior).None?
  {
  }
}
