/** The polyphonic voice allocator (`Manager` in rust/voices/src/lib.rs).

    A manager owns a list of (slot, note) pairs for the voices it has started
    and a set of slots known to be free; the voices themselves belong to the
    caller. Voices are modelled by the test double of
    rust/voices/tests/lib.rs: a running flag and a log of the calls received. */
module Voices {
  import opened Common

  /** A voice: whether it still sounds, and the calls it has received. */
  datatype MockVoice = MockVoice(running: bool, noteOnCalls: seq<(uint8, uint8)>, noteOffCalls: seq<uint8>)

  /** A voice that has never been played. */
  const Silent: MockVoice := MockVoice(false, [], [])

  /** The configuration handed to every voice call; the mock ignores it. */
  datatype Configuration = Configuration

  /** `Voice::note_on` of the mock: it starts sounding and logs the call. */
  function VoiceNoteOn(v: MockVoice, note: uint8, velocity: uint8): (r: MockVoice)
    ensures r.running && r.noteOnCalls == v.noteOnCalls + [(note, velocity)] && r.noteOffCalls == v.noteOffCalls
  {
    v.(running := true, noteOnCalls := v.noteOnCalls + [(note, velocity)])
  }

  /** `Voice::note_off` of the mock: it stops and logs the call. */
  function VoiceNoteOff(v: MockVoice, velocity: uint8): (r: MockVoice)
    ensures !r.running && r.noteOffCalls == v.noteOffCalls + [velocity] && r.noteOnCalls == v.noteOnCalls
  {
    v.(running := false, noteOffCalls := v.noteOffCalls + [velocity])
  }

  /** A voice started by the manager: its slot and the note it plays. */
  type Entry = (nat, uint8)

  /** The manager's lists together with the caller's voices. */
  datatype State = State(used: seq<Entry>, free: set<nat>, voices: seq<MockVoice>)

  /** Every slot the manager holds names one of the voices. */
  predicate Sound(s: State) {
    (forall e | e in s.used :: e.0 < |s.voices|) && (forall i | i in s.free :: i < |s.voices|)
  }

  /** The free set only holds voices that are silent, so handing one out
      never cuts off a sounding note. */
  predicate FreeAreSilent(s: State) requires Sound(s) {
    forall i | i in s.free :: !s.voices[i].running
  }

  /** The state right after `Manager::new`: nothing used, nothing known free. */
  function Fresh(n: nat): (s: State)
    ensures Sound(s) && FreeAreSilent(s) && |s.voices| == n
  {
    State([], {}, seq(n, _ => Silent))
  }

  /** The items of `xs` that satisfy `p`, in their order (`Vec::retain`). */
  function Filter<T>(xs: seq<T>, p: T -> bool): (r: seq<T>)
    ensures |r| <= |xs|
    ensures forall i | 0 <= i < |r| :: r[i] in xs && p(r[i])
    ensures forall i | 0 <= i < |xs| && p(xs[i]) :: xs[i] in r
  {
    if xs == [] then [] else (if p(xs[0]) then [xs[0]] else []) + Filter(xs[1..], p)
  }

  lemma {:induction false} FilterAppend<T>(xs: seq<T>, ys: seq<T>, p: T -> bool)
    ensures Filter(xs + ys, p) == Filter(xs, p) + Filter(ys, p)
  {
    if xs != [] {
      assert (xs + ys)[0] == xs[0] && (xs + ys)[1..] == xs[1..] + ys;
      FilterAppend(xs[1..], ys, p);
      var head := if p(xs[0]) then [xs[0]] else [];
      calc {
        Filter(xs + ys, p);
        head + Filter(xs[1..] + ys, p);
        head + (Filter(xs[1..], p) + Filter(ys, p));
        (head + Filter(xs[1..], p)) + Filter(ys, p);
        Filter(xs, p) + Filter(ys, p);
      }
    } else {
      assert xs + ys == ys;
    }
  }

  /** Filtering keeps everything when everything passes. */
  lemma {:induction false} FilterAll<T>(xs: seq<T>, p: T -> bool)
    requires forall x | x in xs :: p(x)
    ensures Filter(xs, p) == xs
  {
    if xs != [] {
      FilterAll(xs[1..], p);
    }
  }

  /** Entries whose voice still sounds. */
  function StillRunning(voices: seq<MockVoice>): Entry -> bool {
    (e: Entry) => e.0 < |voices| && voices[e.0].running
  }

  /** Entries for another note. */
  function OtherNote(note: uint8): Entry -> bool {
    (e: Entry) => e.1 != note
  }

  /** The silent voices among slots `0..n`. */
  function SilentBelow(voices: seq<MockVoice>, n: nat): set<nat>
    requires n <= |voices|
  {
    set i | 0 <= i < n && !voices[i].running
  }

  lemma SilentBelowStep(voices: seq<MockVoice>, n: nat)
    requires n < |voices|
    ensures SilentBelow(voices, n + 1) == SilentBelow(voices, n) + (if voices[n].running then {} else {n})
  {
  }

  /** The slots `note_on` may hand out: the known free ones and every
      silent voice. */
  function Candidates(s: State): set<nat>
  {
    s.free + SilentBelow(s.voices, |s.voices|)
  }

  /** `note_on_with_config` on values: drop entries of voices that ended by
      themselves, learn every silent voice as free, then start the note on
      the lowest free slot, or drop the note when there is none. */
  ghost function AfterNoteOn(s: State, note: uint8, velocity: uint8): (r: State)
    requires Sound(s)
    ensures Sound(r) && |r.voices| == |s.voices|
  {
    var kept := Filter(s.used, StillRunning(s.voices));
    var free := Candidates(s);
    if free == {} then State(kept, free, s.voices)
    else
      var i := Least(free);
      State(kept + [(i, note)], free - {i}, s.voices[i := VoiceNoteOn(s.voices[i], note, velocity)])
  }

  /** The `retain` of `note_off_with_config`, entry by entry: an entry for
      `note` is removed, and its voice gets `note_off` if it still sounds.
      Returns the kept entries and the voices afterwards. */
  function NoteOffFrom(used: seq<Entry>, voices: seq<MockVoice>, note: uint8, velocity: uint8): (r: (seq<Entry>, seq<MockVoice>))
    requires forall e | e in used :: e.0 < |voices|
    ensures |r.1| == |voices|
    ensures forall e | e in r.0 :: e in used
  {
    if used == [] then ([], voices)
    else
      var e := used[0];
      if e.1 != note then
        var rest := NoteOffFrom(used[1..], voices, note, velocity);
        ([e] + rest.0, rest.1)
      else
        var vs := if voices[e.0].running then voices[e.0 := VoiceNoteOff(voices[e.0], velocity)] else voices;
        NoteOffFrom(used[1..], vs, note, velocity)
  }

  /** `note_off_with_config` on values. */
  function AfterNoteOff(s: State, note: uint8, velocity: uint8): (r: State)
    requires Sound(s)
    ensures Sound(r) && |r.voices| == |s.voices| && r.free == s.free
  {
    var r := NoteOffFrom(s.used, s.voices, note, velocity);
    State(r.0, s.free, r.1)
  }

  /** `used_voices.retain(|e| voices[e.0].is_running())`. */
  method RetainRunning(used: seq<Entry>, voices: array<MockVoice>) returns (kept: seq<Entry>)
    requires forall e | e in used :: e.0 < voices.Length
    ensures kept == Filter(used, StillRunning(voices[..]))
  {
    kept := [];
    for k := 0 to |used|
      invariant kept == Filter(used[..k], StillRunning(voices[..]))
    {
      var e := used[k];
      assert used[..k + 1] == used[..k] + [e];
      FilterAppend<Entry>(used[..k], [e], StillRunning(voices[..]));
      if voices[e.0].running {
        kept := kept + [e];
      }
    }
    assert used[..|used|] == used;
  }

  /** `free_voices.iter().next()`: the lowest slot of a bit set over
      `0..n`, if any. */
  method FirstFree(free: set<nat>, n: nat) returns (first: Option<nat>)
    requires forall i | i in free :: i < n
    ensures first.None? <==> free == {}
    ensures first.Some? ==> IsLeast(first.value, free)
  {
    var i := 0;
    while i < n && i !in free
      invariant i <= n
      invariant forall j | 0 <= j < i :: j !in free
    {
      i := i + 1;
    }
    if i < n {
      return Some(i);
    }
    assert free == {};
    return None;
  }

  class Manager {
    const numVoices: nat
    var usedVoices: seq<Entry>
    var freeVoices: set<nat>

    ghost predicate Valid()
      reads this
    {
      (forall e | e in usedVoices :: e.0 < numVoices) && (forall i | i in freeVoices :: i < numVoices)
    }

    /** `Manager::new`. */
    constructor (numVoices: nat)
      ensures Valid()
      ensures this.numVoices == numVoices && usedVoices == [] && freeVoices == {}
    {
      this.numVoices := numVoices;
      usedVoices := [];
      freeVoices := {};
    }

    method NoteOnWithConfig(voices: array<MockVoice>, config: Configuration, note: uint8, velocity: uint8)
      requires Valid() && voices.Length == numVoices
      modifies this, voices
      ensures Valid()
      ensures State(usedVoices, freeVoices, voices[..])
           == AfterNoteOn(old(State(usedVoices, freeVoices, voices[..])), note, velocity)
    {
      ghost var s := State(usedVoices, freeVoices, voices[..]);
      var kept := RetainRunning(usedVoices, voices);
      var free := freeVoices;
      for i := 0 to voices.Length
        invariant voices[..] == s.voices
        invariant free == s.free + SilentBelow(s.voices, i)
      {
        SilentBelowStep(s.voices, i);
        if !voices[i].running {
          free := free + {i};
        }
      }
      assert free == Candidates(s);
      var first := FirstFree(free, numVoices);
      if first.Some? {
        var i := first.value;
        NoteOnLowest(s, note, velocity, i);
        voices[i] := VoiceNoteOn(voices[i], note, velocity);
        usedVoices := kept + [(i, note)];
        freeVoices := free - {i};
      } else {
        NoteOnDropped(s, note, velocity);
        usedVoices := kept;
        freeVoices := free;
      }
    }

    method NoteOffWithConfig(voices: array<MockVoice>, config: Configuration, note: uint8, velocity: uint8)
      requires Valid() && voices.Length == numVoices
      modifies this, voices
      ensures Valid()
      ensures State(usedVoices, freeVoices, voices[..])
           == AfterNoteOff(old(State(usedVoices, freeVoices, voices[..])), note, velocity)
    {
      ghost var vs0 := voices[..];
      var used := usedVoices;
      var kept: seq<Entry> := [];
      assert used[0..] == used;
      assert [] + NoteOffFrom(used, vs0, note, velocity).0 == NoteOffFrom(used, vs0, note, velocity).0;
      for k := 0 to |used|
        invariant usedVoices == used && freeVoices == old(freeVoices)
        invariant forall e | e in kept :: e.0 < numVoices
        invariant NoteOffFrom(used, vs0, note, velocity)
               == (kept + NoteOffFrom(used[k..], voices[..], note, velocity).0,
                   NoteOffFrom(used[k..], voices[..], note, velocity).1)
      {
        var e := used[k];
        assert used[k..][0] == e && used[k..][1..] == used[k + 1..];
        if e.1 != note {
          assert kept + [e] + NoteOffFrom(used[k + 1..], voices[..], note, velocity).0
              == kept + ([e] + NoteOffFrom(used[k + 1..], voices[..], note, velocity).0);
          kept := kept + [e];
        } else if voices[e.0].running {
          voices[e.0] := VoiceNoteOff(voices[e.0], velocity);
        }
      }
      assert used[|used|..] == [];
      usedVoices := kept;
    }

    /** `note_on` with the default configuration. */
    method NoteOn(voices: array<MockVoice>, note: uint8, velocity: uint8)
      requires Valid() && voices.Length == numVoices
      modifies this, voices
      ensures Valid()
      ensures State(usedVoices, freeVoices, voices[..])
           == AfterNoteOn(old(State(usedVoices, freeVoices, voices[..])), note, velocity)
    {
      NoteOnWithConfig(voices, Configuration, note, velocity);
    }

    /** `note_off` with the default configuration. */
    method NoteOff(voices: array<MockVoice>, note: uint8, velocity: uint8)
      requires Valid() && voices.Length == numVoices
      modifies this, voices
      ensures Valid()
      ensures State(usedVoices, freeVoices, voices[..])
           == AfterNoteOff(old(State(usedVoices, freeVoices, voices[..])), note, velocity)
    {
      NoteOffWithConfig(voices, Configuration, note, velocity);
    }
  }

  // ---------------------------------------------------------------------
  // What note_on promises

  /** When a slot can be handed out, `note_on` keeps the entries whose voice
      still sounds, in their order, appends the new note on the lowest such
      slot, calls `note_on` on that voice alone and takes the slot out of the
      free set. */
  lemma NoteOnLowest(s: State, note: uint8, velocity: uint8, i: nat)
    requires Sound(s) && IsLeast(i, Candidates(s))
    ensures i < |s.voices|
    ensures AfterNoteOn(s, note, velocity)
         == State(Filter(s.used, StillRunning(s.voices)) + [(i, note)], Candidates(s) - {i},
                  s.voices[i := VoiceNoteOn(s.voices[i], note, velocity)])
  {
    LeastUnique(i, Candidates(s));
  }

  /** When no slot can be handed out the note is dropped: no voice is called
      and nothing is appended. */
  lemma NoteOnDropped(s: State, note: uint8, velocity: uint8)
    requires Sound(s) && Candidates(s) == {}
    ensures AfterNoteOn(s, note, velocity) == State(Filter(s.used, StillRunning(s.voices)), {}, s.voices)
  {
  }

  /** `note_on` keeps the free set silent. */
  lemma NoteOnKeepsFreeSilent(s: State, note: uint8, velocity: uint8)
    requires Sound(s) && FreeAreSilent(s)
    ensures FreeAreSilent(AfterNoteOn(s, note, velocity))
  {
    var candidates := Candidates(s);
    if candidates != {} {
      var i := Least(candidates);
      var r := AfterNoteOn(s, note, velocity);
      forall j | j in r.free ensures !r.voices[j].running {
        assert j != i && j in candidates;
      }
    }
  }

  /** No stealing: while the free set is silent, a sounding voice is never
      given the new note; its state and its call log stay as they were. */
  lemma NoStealing(s: State, note: uint8, velocity: uint8)
    requires Sound(s) && FreeAreSilent(s)
    ensures forall j | 0 <= j < |s.voices| && s.voices[j].running :: AfterNoteOn(s, note, velocity).voices[j] == s.voices[j]
  {
    var candidates := Candidates(s);
    if candidates != {} {
      var i := Least(candidates);
      assert !s.voices[i].running;
    }
  }

  /** When every voice sounds and none is known free the note is dropped:
      no call is made and nothing is added. */
  lemma DroppedWhenFull(s: State, note: uint8, velocity: uint8)
    requires Sound(s) && s.free == {}
    requires forall j | 0 <= j < |s.voices| :: s.voices[j].running
    ensures AfterNoteOn(s, note, velocity) == s
  {
    assert SilentBelow(s.voices, |s.voices|) == {};
    FilterAll(s.used, StillRunning(s.voices));
  }

  // ---------------------------------------------------------------------
  // What note_off promises

  /** note_off keeps exactly the entries for other notes, in their order. */
  lemma {:induction false} NoteOffKeepsOthers(used: seq<Entry>, voices: seq<MockVoice>, note: uint8, velocity: uint8)
    requires forall e | e in used :: e.0 < |voices|
    ensures NoteOffFrom(used, voices, note, velocity).0 == Filter(used, OtherNote(note))
  {
    if used != [] {
      var e := used[0];
      var vs := if e.1 == note && voices[e.0].running then voices[e.0 := VoiceNoteOff(voices[e.0], velocity)] else voices;
      NoteOffKeepsOthers(used[1..], vs, note, velocity);
    }
  }

  /** A slot gets exactly one `note_off(velocity)` if some entry plays `note`
      on it and its voice still sounds; otherwise it is left alone. */
  lemma {:induction false} NoteOffEachSlot(used: seq<Entry>, voices: seq<MockVoice>, note: uint8, velocity: uint8)
    requires forall e | e in used :: e.0 < |voices|
    ensures var vs := NoteOffFrom(used, voices, note, velocity).1;
      forall j | 0 <= j < |voices| ::
        vs[j] == if (exists e | e in used :: e.0 == j && e.1 == note) && voices[j].running
                 then VoiceNoteOff(voices[j], velocity) else voices[j]
  {
    if used != [] {
      var e := used[0];
      var vs := if e.1 == note && voices[e.0].running then voices[e.0 := VoiceNoteOff(voices[e.0], velocity)] else voices;
      NoteOffEachSlot(used[1..], vs, note, velocity);
      assert used == [e] + used[1..];
    }
  }

  /** A repeated note_off, like a note_off for a note not playing, changes
      nothing and makes no call. */
  lemma NoteOffTwice(s: State, note: uint8, velocity: uint8, velocity2: uint8)
    requires Sound(s)
    ensures Sound(AfterNoteOff(s, note, velocity))
    ensures var r := AfterNoteOff(s, note, velocity);
      AfterNoteOff(r, note, velocity2) == r
  {
    var r := AfterNoteOff(s, note, velocity);
    NoteOffKeepsOthers(s.used, s.voices, note, velocity);
    NoteOffKeepsOthers(r.used, r.voices, note, velocity2);
    FilterAll(r.used, OtherNote(note));
    NoteOffEachSlot(r.used, r.voices, note, velocity2);
  }

  /** `note_off` keeps the manager's invariants. */
  lemma NoteOffKeepsFreeSilent(s: State, note: uint8, velocity: uint8)
    requires Sound(s) && FreeAreSilent(s)
    ensures Sound(AfterNoteOff(s, note, velocity)) && FreeAreSilent(AfterNoteOff(s, note, velocity))
  {
    NoteOffKeepsOthers(s.used, s.voices, note, velocity);
    NoteOffEachSlot(s.used, s.voices, note, velocity);
  }

  // ---------------------------------------------------------------------
  // The scenarios of rust/voices/tests/lib.rs

  /** One voice: note on, then note off, reaches the voice once each. */
  lemma NoteOnOffGetsCalled()
    ensures var s := AfterNoteOff(AfterNoteOn(Fresh(1), 32, 88), 32, 89);
      s.voices[0].noteOnCalls == [(32, 88)] && s.voices[0].noteOffCalls == [89]
  {
    var s0 := Fresh(1);
    LeastUnique(0, s0.free + SilentBelow(s0.voices, 1));
  }

  /** Two overlapping notes on two voices land on slots 0 and 1, and each
      gets its own note off. */
  lemma NotesDistributed()
    ensures var s1 := AfterNoteOn(Fresh(2), 32, 88);
      var s2 := AfterNoteOn(s1, 33, 88);
      var s4 := AfterNoteOff(AfterNoteOff(s2, 33, 89), 32, 89);
      s4.voices[0].noteOnCalls == [(32, 88)] && s4.voices[0].noteOffCalls == [89] &&
      s4.voices[1].noteOnCalls == [(33, 88)] && s4.voices[1].noteOffCalls == [89]
  {
    TwoNotesOn();
    TwoNotesOff();
  }

  /** Releasing the two notes of `TwoNotesOn`, the later one first. */
  lemma TwoNotesOff()
    ensures var v0, v1 := VoiceNoteOn(Silent, 32, 88), VoiceNoteOn(Silent, 33, 88);
      var s2 := State([(0, 32), (1, 33)], {}, [v0, v1]);
      AfterNoteOff(AfterNoteOff(s2, 33, 89), 32, 89)
        == State([], {}, [VoiceNoteOff(v0, 89), VoiceNoteOff(v1, 89)])
  {
    var v0, v1 := VoiceNoteOn(Silent, 32, 88), VoiceNoteOn(Silent, 33, 88);
    var used: seq<Entry> := [(0, 32), (1, 33)];
    assert used[1..] == [(1, 33)] && [(1, 33)][1..] == [] && [(0, 32)][1..] == [];
    assert [v0, v1][1 := VoiceNoteOff(v1, 89)] == [v0, VoiceNoteOff(v1, 89)];
    assert [v0, VoiceNoteOff(v1, 89)][0 := VoiceNoteOff(v0, 89)] == [VoiceNoteOff(v0, 89), VoiceNoteOff(v1, 89)];
    assert NoteOffFrom([(1, 33)], [v0, v1], 33, 89) == ([], [v0, VoiceNoteOff(v1, 89)]);
    assert [(0, 32)] + [] == [(0, 32)];
    assert NoteOffFrom(used, [v0, v1], 33, 89) == ([(0, 32)], [v0, VoiceNoteOff(v1, 89)]);
    assert NoteOffFrom([(0, 32)], [v0, VoiceNoteOff(v1, 89)], 32, 89)
        == ([], [VoiceNoteOff(v0, 89), VoiceNoteOff(v1, 89)]);
  }

  /** The first two notes on two fresh voices go to slots 0 and 1. */
  lemma TwoNotesOn()
    ensures AfterNoteOn(AfterNoteOn(Fresh(2), 32, 88), 33, 88)
         == State([(0, 32), (1, 33)], {}, [VoiceNoteOn(Silent, 32, 88), VoiceNoteOn(Silent, 33, 88)])
  {
    var s0 := Fresh(2);
    assert SilentBelow(s0.voices, 2) == {0, 1};
    LeastUnique(0, {0, 1});
    var s1 := AfterNoteOn(s0, 32, 88);
    assert s1 == State([(0, 32)], {1}, [VoiceNoteOn(Silent, 32, 88), Silent]);
    assert SilentBelow(s1.voices, 2) == {1};
    LeastUnique(1, {1});
    assert Filter(s1.used, StillRunning(s1.voices)) == s1.used;
  }

  /** A slot freed by note off is the one the next note gets again. */
  lemma FirstVoiceRepeats()
    ensures var s2 := AfterNoteOff(AfterNoteOn(Fresh(2), 32, 88), 32, 89);
      var s4 := AfterNoteOff(AfterNoteOn(s2, 33, 88), 33, 89);
      |s4.voices[0].noteOnCalls| == 2 && |s4.voices[0].noteOffCalls| == 2 &&
      s4.voices[1].noteOnCalls == [] && s4.voices[1].noteOffCalls == []
  {
    var s0 := Fresh(2);
    assert SilentBelow(s0.voices, 2) == {0, 1};
    LeastUnique(0, {0, 1});
    var s1 := AfterNoteOn(s0, 32, 88);
    NoteOffEachSlot(s1.used, s1.voices, 32, 89);
    var s2 := AfterNoteOff(s1, 32, 89);
    NoteOffKeepsOthers(s1.used, s1.voices, 32, 89);
    assert s2.used == [];
    assert SilentBelow(s2.voices, 2) == {0, 1};
    var s3 := AfterNoteOn(s2, 33, 88);
    NoteOffEachSlot(s3.used, s3.voices, 33, 89);
  }

  /** A voice that ended by itself is reused by the next note. */
  lemma RepeatNoteOn()
    ensures var s1 := AfterNoteOn(Fresh(2), 32, 88);
      var ended := s1.(voices := s1.voices[0 := s1.voices[0].(running := false)]);
      var s2 := AfterNoteOn(ended, 33, 88);
      |s2.voices[0].noteOnCalls| == 2 && s2.voices[1].noteOnCalls == []
  {
    var s0 := Fresh(2);
    assert SilentBelow(s0.voices, 2) == {0, 1};
    LeastUnique(0, {0, 1});
    var s1 := AfterNoteOn(s0, 32, 88);
    var ended := s1.(voices := s1.voices[0 := s1.voices[0].(running := false)]);
    assert ended.free + SilentBelow(ended.voices, 2) == {0, 1};
  }

  /** A voice that ended by itself gets no note off. */
  lemma NoNoteOffIfSelfEnded()
    ensures var s1 := AfterNoteOn(Fresh(2), 32, 88);
      var ended := s1.(voices := s1.voices[0 := s1.voices[0].(running := false)]);
      var s2 := AfterNoteOff(ended, 32, 88);
      |s2.voices[0].noteOnCalls| == 1 && s2.voices[0].noteOffCalls == []
  {
    var s0 := Fresh(2);
    assert SilentBelow(s0.voices, 2) == {0, 1};
    LeastUnique(0, {0, 1});
    var s1 := AfterNoteOn(s0, 32, 88);
    var ended := s1.(voices := s1.voices[0 := s1.voices[0].(running := false)]);
    NoteOffEachSlot(ended.used, ended.voices, 32, 88);
  }
}
