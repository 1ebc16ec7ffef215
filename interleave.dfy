/** Cutting one audio block at the times of its events
    (`run_split_at_events` in rust/kernel/src/utils.rs).

    The callback is modelled by the sequence of calls it receives: event `i`
    of the input (`EventAt(i)`) or the audio frames `[start, end)` of the
    block (`Audio(start, end)`, which the callback sees as
    `Deinterleaved.Slice(audio, start, end)`). */
module Interleave {
  import opened Common
  import opened KernelTypes
  import Deinterleaved

  /** One call of the callback (`EventOrAudio`). */
  datatype Item = EventAt(index: nat) | Audio(start: nat, end: nat)

  /** The calls made, and whether the run ended at the failed assertion
      `time < buffer_len` (calls before it have already been made). */
  datatype Run = Run(trace: seq<Item>, panicked: bool)

  /** The calls that `events[k..]` and the trailing audio cause when the
      cursor stands at `cursor`. */
  function SplitFrom(len: nat, events: seq<Event>, k: nat, cursor: nat): Run
    requires k <= |events| && cursor <= len
    decreases |events| - k
  {
    if k == |events| then
      Run([Audio(cursor, len)], false)
    else if events[k].time <= cursor then
      var rest := SplitFrom(len, events, k + 1, cursor);
      Run([EventAt(k)] + rest.trace, rest.panicked)
    else if events[k].time >= len then
      Run([], true)
    else
      var rest := SplitFrom(len, events, k + 1, events[k].time as nat);
      Run([Audio(cursor, events[k].time as nat), EventAt(k)] + rest.trace, rest.panicked)
  }

  /** The calls one block of `len` frames with `events` causes. */
  function Split(len: nat, events: seq<Event>): Run {
    SplitFrom(len, events, 0, 0)
  }

  /** `run_split_at_events`: the cursor starts at 0; an event at or before
      the cursor fires at once; a later one first releases the audio up to
      its time; the rest of the block comes last. */
  method RunSplitAtEvents<T>(audio: Deinterleaved.View<T>, events: seq<Event>) returns (trace: seq<Item>, panicked: bool)
    requires |audio| > 0
    ensures Run(trace, panicked) == Split(Deinterleaved.Len(audio), events)
  {
    var bufferLen := Deinterleaved.Len(audio);
    var cursor: nat := 0;
    trace := [];
    for k := 0 to |events|
      invariant cursor <= bufferLen
      invariant Split(bufferLen, events)
             == Run(trace + SplitFrom(bufferLen, events, k, cursor).trace,
                    SplitFrom(bufferLen, events, k, cursor).panicked)
    {
      var ev := events[k];
      if ev.time <= cursor {
        trace := trace + [EventAt(k)];
        continue;
      }
      var time := ev.time as nat;
      if time >= bufferLen {
        return trace, true;
      }
      trace := trace + [Audio(cursor, time)];
      cursor := time;
      trace := trace + [EventAt(k)];
    }
    trace := trace + [Audio(cursor, bufferLen)];
    panicked := false;
  }

  // ---------------------------------------------------------------------
  // Reading a trace

  /** The audio calls, in order, as frame ranges. */
  function Segments(t: seq<Item>): seq<(nat, nat)> {
    if t == [] then []
    else (if t[0].Audio? then [(t[0].start, t[0].end)] else []) + Segments(t[1..])
  }

  /** The event calls, in order, as input positions. */
  function EventIndices(t: seq<Item>): seq<nat> {
    if t == [] then []
    else (if t[0].EventAt? then [t[0].index] else []) + EventIndices(t[1..])
  }

  /** For each event call, in order, how many frames of audio the callback had
      received before it, starting from `pos`. */
  function Positions(t: seq<Item>, pos: int): seq<int> {
    if t == [] then []
    else match t[0]
      case EventAt(_) => [pos] + Positions(t[1..], pos)
      case Audio(s, e) => Positions(t[1..], pos + (e - s))
  }

  /** Segments that follow one another without gap or overlap and together
      cover exactly `[lo, hi)`. */
  predicate Tiles(segs: seq<(nat, nat)>, lo: nat, hi: nat)
    decreases |segs|
  {
    |segs| > 0 && segs[0].0 == lo && segs[0].0 <= segs[0].1 &&
    if |segs| == 1 then segs[0].1 == hi else Tiles(segs[1..], segs[0].1, hi)
  }

  function TotalLength(segs: seq<(nat, nat)>): int {
    if segs == [] then 0 else (segs[0].1 - segs[0].0) + TotalLength(segs[1..])
  }

  function Range(k: nat, n: nat): (r: seq<nat>)
    requires k <= n
    ensures |r| == n - k && forall i | 0 <= i < n - k :: r[i] == k + i
  {
    seq(n - k, i requires 0 <= i < n - k => k + i)
  }

  /** The cursor once `events[k..j]` have been handled from `c`: the largest
      of `c` and those events' times. */
  function Peak(events: seq<Event>, k: nat, c: nat, j: nat): nat
    requires k <= j <= |events|
    decreases j - k
  {
    if j == k then c
    else
      var p := Peak(events, k, c, j - 1);
      if events[j - 1].time > p then events[j - 1].time as nat else p
  }

  /** How many of `events[k..j]` arrived after the cursor. */
  function Advances(events: seq<Event>, k: nat, c: nat, j: nat): nat
    requires k <= j <= |events|
    decreases j - k
  {
    if j == k then 0
    else Advances(events, k, c, j - 1) + (if events[j - 1].time > Peak(events, k, c, j - 1) then 1 else 0)
  }

  /** Each event call is preceded by what the algorithm promises: an event at
      or before the cursor by the previous event (or by nothing, if it is the
      first), a later one by exactly the audio from the cursor to its time. */
  predicate Preceded(events: seq<Event>, k: nat, c: nat, t: seq<Item>)
    requires k <= |events|
  {
    forall p | 0 <= p < |t| :: PrecededAt(events, k, c, t, p)
  }

  /** The call at `p`, if it is an event, is preceded as promised. */
  predicate PrecededAt(events: seq<Event>, k: nat, c: nat, t: seq<Item>, p: nat)
    requires k <= |events| && p < |t|
  {
    t[p].EventAt? ==>
      k <= t[p].index < |events| &&
      var i := t[p].index;
      if events[i].time <= Peak(events, k, c, i) then
        if i == k then p == 0 else p > 0 && t[p - 1] == EventAt(i - 1)
      else
        p > 0 && t[p - 1] == Audio(Peak(events, k, c, i), events[i].time as nat)
  }

  // ---------------------------------------------------------------------
  // Small facts about the readers

  lemma SegmentsCons(x: Item, t: seq<Item>)
    ensures Segments([x] + t) == (if x.Audio? then [(x.start, x.end)] else []) + Segments(t)
  {
    assert ([x] + t)[1..] == t;
  }

  lemma EventIndicesCons(x: Item, t: seq<Item>)
    ensures EventIndices([x] + t) == (if x.EventAt? then [x.index] else []) + EventIndices(t)
  {
    assert ([x] + t)[1..] == t;
  }

  lemma PositionsCons(x: Item, t: seq<Item>, pos: int)
    ensures Positions([x] + t, pos)
         == if x.EventAt? then [pos] + Positions(t, pos) else Positions(t, pos + (x.end - x.start))
  {
    assert ([x] + t)[1..] == t;
  }

  /** Handling `events[k]` first and then the rest from the new cursor gives
      the same cursor. */
  lemma {:induction false} PeakShift(events: seq<Event>, k: nat, c: nat, j: nat)
    requires k < j <= |events|
    ensures Peak(events, k, c, j) == Peak(events, k + 1, Peak(events, k, c, k + 1), j)
  {
    if j > k + 1 {
      PeakShift(events, k, c, j - 1);
    }
  }

  lemma {:induction false} AdvancesShift(events: seq<Event>, k: nat, c: nat, j: nat)
    requires k < j <= |events|
    ensures Advances(events, k, c, j)
         == (if events[k].time > c then 1 else 0) + Advances(events, k + 1, Peak(events, k, c, k + 1), j)
  {
    if j > k + 1 {
      AdvancesShift(events, k, c, j - 1);
      PeakShift(events, k, c, j - 1);
    }
  }

  lemma {:induction false} TilesLength(segs: seq<(nat, nat)>, lo: nat, hi: nat)
    requires Tiles(segs, lo, hi)
    ensures lo <= hi && TotalLength(segs) == hi - lo
    decreases |segs|
  {
    if |segs| > 1 {
      TilesLength(segs[1..], segs[0].1, hi);
    }
  }

  // ---------------------------------------------------------------------
  // What a run promises, from any starting point

  lemma TilesCons(seg: (nat, nat), segs: seq<(nat, nat)>, hi: nat)
    requires seg.0 <= seg.1 && Tiles(segs, seg.1, hi)
    ensures Tiles([seg] + segs, seg.0, hi)
  {
    assert ([seg] + segs)[1..] == segs;
  }

  /** The cursor after one more event. */
  lemma PeakStep(events: seq<Event>, k: nat, c: nat)
    requires k < |events|
    ensures Peak(events, k, c, k + 1) == if events[k].time > c then events[k].time as nat else c
  {
  }

  /** One step of a run that does not stop there. */
  lemma SplitStep(len: nat, events: seq<Event>, k: nat, c: nat)
    requires k < |events| && c <= len
    requires events[k].time <= c || events[k].time < len
    ensures Peak(events, k, c, k + 1) <= len
    ensures var c' := Peak(events, k, c, k + 1);
      var rest := SplitFrom(len, events, k + 1, c');
      SplitFrom(len, events, k, c)
        == Run((if events[k].time <= c then [] else [Audio(c, c')]) + [EventAt(k)] + rest.trace, rest.panicked)
  {
    PeakStep(events, k, c);
    var c' := Peak(events, k, c, k + 1);
    var rest := SplitFrom(len, events, k + 1, c');
    if events[k].time <= c {
      assert [] + [EventAt(k)] + rest.trace == [EventAt(k)] + rest.trace;
    } else {
      assert [Audio(c, c')] + [EventAt(k)] + rest.trace == [Audio(c, c'), EventAt(k)] + rest.trace;
    }
  }

  lemma {:induction false} CoverageFrom(len: nat, events: seq<Event>, k: nat, c: nat)
    requires k <= |events| && c <= len
    requires !SplitFrom(len, events, k, c).panicked
    ensures Tiles(Segments(SplitFrom(len, events, k, c).trace), c, len)
    decreases |events| - k
  {
    if k == |events| {
      SegmentsCons(Audio(c, len), []);
      assert Segments([Audio(c, len)]) == [(c, len)];
    } else {
      SplitStep(len, events, k, c);
      var c' := Peak(events, k, c, k + 1);
      var rest := SplitFrom(len, events, k + 1, c').trace;
      CoverageFrom(len, events, k + 1, c');
      if events[k].time > c {
        SegmentsAfterGap(c, c', k, rest);
        TilesCons((c, c'), Segments(rest), len);
      } else {
        SegmentsAfterEvent(k, rest);
      }
    }
  }

  /** An audio gap followed by an event call contributes just the gap. */
  lemma SegmentsAfterGap(c: nat, c': nat, k: nat, rest: seq<Item>)
    ensures Segments([Audio(c, c')] + [EventAt(k)] + rest) == [(c, c')] + Segments(rest)
  {
    assert [Audio(c, c')] + [EventAt(k)] + rest == [Audio(c, c')] + ([EventAt(k)] + rest);
    SegmentsCons(Audio(c, c'), [EventAt(k)] + rest);
    SegmentsCons(EventAt(k), rest);
  }

  /** An event call with no gap before it contributes nothing. */
  lemma SegmentsAfterEvent(k: nat, rest: seq<Item>)
    ensures Segments([] + [EventAt(k)] + rest) == Segments(rest)
  {
    assert [] + [EventAt(k)] + rest == [EventAt(k)] + rest;
    SegmentsCons(EventAt(k), rest);
  }

  lemma {:induction false} EventsFrom(len: nat, events: seq<Event>, k: nat, c: nat)
    requires k <= |events| && c <= len
    requires !SplitFrom(len, events, k, c).panicked
    ensures EventIndices(SplitFrom(len, events, k, c).trace) == Range(k, |events|)
    decreases |events| - k
  {
    if k == |events| {
      EventIndicesCons(Audio(c, len), []);
    } else {
      SplitStep(len, events, k, c);
      var c' := Peak(events, k, c, k + 1);
      var rest := SplitFrom(len, events, k + 1, c').trace;
      EventsFrom(len, events, k + 1, c');
      EventIndicesCons(EventAt(k), rest);
      if events[k].time > c {
        assert [Audio(c, c')] + [EventAt(k)] + rest == [Audio(c, c')] + ([EventAt(k)] + rest);
        EventIndicesCons(Audio(c, c'), [EventAt(k)] + rest);
      } else {
        assert [] + [EventAt(k)] + rest == [EventAt(k)] + rest;
      }
      assert [k] + Range(k + 1, |events|) == Range(k, |events|);
    }
  }

  lemma {:induction false} PositionsFrom(len: nat, events: seq<Event>, k: nat, c: nat)
    requires k <= |events| && c <= len
    requires !SplitFrom(len, events, k, c).panicked
    ensures var ps := Positions(SplitFrom(len, events, k, c).trace, c);
      |ps| == |events| - k &&
      forall j | 0 <= j < |ps| :: ps[j] == Peak(events, k, c, k + j + 1)
    decreases |events| - k
  {
    var ps := Positions(SplitFrom(len, events, k, c).trace, c);
    if k == |events| {
      PositionsCons(Audio(c, len), [], c);
    } else {
      SplitStep(len, events, k, c);
      var c' := Peak(events, k, c, k + 1);
      var rest := SplitFrom(len, events, k + 1, c').trace;
      PositionsFrom(len, events, k + 1, c');
      PositionsCons(EventAt(k), rest, c');
      if events[k].time > c {
        assert [Audio(c, c')] + [EventAt(k)] + rest == [Audio(c, c')] + ([EventAt(k)] + rest);
        PositionsCons(Audio(c, c'), [EventAt(k)] + rest, c);
      } else {
        assert [] + [EventAt(k)] + rest == [EventAt(k)] + rest;
      }
      assert ps == [c'] + Positions(rest, c');
      forall j | 0 <= j < |ps|
        ensures ps[j] == Peak(events, k, c, k + j + 1)
      {
        if j > 0 {
          PeakShift(events, k, c, k + j + 1);
        }
      }
    }
  }

  lemma {:induction false} CountFrom(len: nat, events: seq<Event>, k: nat, c: nat)
    requires k <= |events| && c <= len
    requires !SplitFrom(len, events, k, c).panicked
    ensures |Segments(SplitFrom(len, events, k, c).trace)| == 1 + Advances(events, k, c, |events|)
    decreases |events| - k
  {
    if k == |events| {
      SegmentsCons(Audio(c, len), []);
    } else {
      SplitStep(len, events, k, c);
      var c' := Peak(events, k, c, k + 1);
      var rest := SplitFrom(len, events, k + 1, c').trace;
      CountFrom(len, events, k + 1, c');
      SegmentsCons(EventAt(k), rest);
      if events[k].time > c {
        assert [Audio(c, c')] + [EventAt(k)] + rest == [Audio(c, c')] + ([EventAt(k)] + rest);
        SegmentsCons(Audio(c, c'), [EventAt(k)] + rest);
        assert Segments(SplitFrom(len, events, k, c).trace) == [(c, c')] + Segments(rest);
      } else {
        assert [] + [EventAt(k)] + rest == [EventAt(k)] + rest;
        assert Segments(SplitFrom(len, events, k, c).trace) == Segments(rest);
      }
      AdvancesShift(events, k, c, |events|);
    }
  }

  lemma {:induction false} LastFrom(len: nat, events: seq<Event>, k: nat, c: nat)
    requires k <= |events| && c <= len
    requires !SplitFrom(len, events, k, c).panicked
    ensures var t := SplitFrom(len, events, k, c).trace;
      |t| > 0 && t[|t| - 1] == Audio(Peak(events, k, c, |events|), len)
    decreases |events| - k
  {
    if k < |events| {
      SplitStep(len, events, k, c);
      var c' := Peak(events, k, c, k + 1);
      LastFrom(len, events, k + 1, c');
      PeakShift(events, k, c, |events|);
    }
  }

  lemma {:induction false} PanicFrom(len: nat, events: seq<Event>, k: nat, c: nat)
    requires k <= |events| && c <= len
    ensures SplitFrom(len, events, k, c).panicked
        <==> exists i | k <= i < |events| :: events[i].time > Peak(events, k, c, i) && events[i].time >= len
    decreases |events| - k
  {
    if k < |events| {
      if events[k].time <= c || events[k].time < len {
        SplitStep(len, events, k, c);
        var c' := Peak(events, k, c, k + 1);
        PanicFrom(len, events, k + 1, c');
        forall i | k + 1 <= i < |events|
          ensures Peak(events, k, c, i) == Peak(events, k + 1, c', i)
        {
          PeakShift(events, k, c, i);
        }
        assert !(events[k].time > Peak(events, k, c, k) && events[k].time >= len);
      } else {
        assert events[k].time > Peak(events, k, c, k);
      }
    }
  }

  /** A call of the rest of the run keeps its promise once the first event's
      calls are put in front. */
  lemma PrecededShift(events: seq<Event>, k: nat, c: nat, t: seq<Item>, shift: nat, rest: seq<Item>, p: nat)
    requires k < |events|
    requires shift == if events[k].time <= c then 1 else 2
    requires |t| == shift + |rest| && t[shift..] == rest
    requires t[shift - 1] == EventAt(k)
    requires shift == 2 ==> t[0] == Audio(c, events[k].time as nat)
    requires Preceded(events, k + 1, Peak(events, k, c, k + 1), rest)
    requires p < |t|
    ensures PrecededAt(events, k, c, t, p)
  {
    if p >= shift && t[p].EventAt? {
      assert t[p] == rest[p - shift];
      assert PrecededAt(events, k + 1, Peak(events, k, c, k + 1), rest, p - shift);
      PeakShift(events, k, c, t[p].index);
      if p - shift > 0 {
        assert t[p - 1] == rest[p - shift - 1];
      }
    }
  }

  lemma {:induction false} PrecededFrom(len: nat, events: seq<Event>, k: nat, c: nat)
    requires k <= |events| && c <= len
    ensures Preceded(events, k, c, SplitFrom(len, events, k, c).trace)
    decreases |events| - k
  {
    var t := SplitFrom(len, events, k, c).trace;
    if k < |events| && (events[k].time <= c || events[k].time < len) {
      SplitStep(len, events, k, c);
      var c' := Peak(events, k, c, k + 1);
      var rest := SplitFrom(len, events, k + 1, c').trace;
      PrecededFrom(len, events, k + 1, c');
      var shift := if events[k].time <= c then 1 else 2;
      assert t[shift..] == rest;
      forall p | 0 <= p < |t|
        ensures PrecededAt(events, k, c, t, p)
      {
        PrecededShift(events, k, c, t, shift, rest, p);
      }
    }
  }

  /** Every call a run makes, even one that stops at the assertion, names an
      input event or frames inside the block. */
  predicate ItemsFit(t: seq<Item>, len: nat, n: nat) {
    forall p | 0 <= p < |t| ::
      (t[p].EventAt? ==> t[p].index < n) && (t[p].Audio? ==> t[p].start <= t[p].end <= len)
  }

  lemma {:induction false} ItemsFitFrom(len: nat, events: seq<Event>, k: nat, c: nat)
    requires k <= |events| && c <= len
    ensures ItemsFit(SplitFrom(len, events, k, c).trace, len, |events|)
    decreases |events| - k
  {
    if k < |events| && (events[k].time <= c || events[k].time < len) {
      SplitStep(len, events, k, c);
      var c' := Peak(events, k, c, k + 1);
      ItemsFitFrom(len, events, k + 1, c');
      var t := SplitFrom(len, events, k, c).trace;
      var rest := SplitFrom(len, events, k + 1, c').trace;
      var shift := if events[k].time <= c then 1 else 2;
      assert t[shift..] == rest;
      forall p | 0 <= p < |t| && p >= shift
        ensures (t[p].EventAt? ==> t[p].index < |events|) && (t[p].Audio? ==> t[p].start <= t[p].end <= len)
      {
        assert t[p] == rest[p - shift];
      }
    }
  }

  lemma {:induction false} EventIndicesSnoc(t: seq<Item>, x: Item)
    ensures EventIndices(t + [x]) == EventIndices(t) + (if x.EventAt? then [x.index] else [])
  {
    if t == [] {
      EventIndicesCons(x, []);
    } else {
      assert (t + [x])[1..] == t[1..] + [x];
      EventIndicesSnoc(t[1..], x);
      EventIndicesCons(t[0], t[1..] + [x]);
      assert t + [x] == [t[0]] + (t[1..] + [x]);
      EventIndicesCons(t[0], t[1..]);
      assert t == [t[0]] + t[1..];
    }
  }

  // ---------------------------------------------------------------------
  // What a run promises, for a whole block

  /** The audio calls follow one another without gap or overlap, cover
      exactly the block `[0, len)`, and so add up to `len` frames. */
  lemma Coverage(len: nat, events: seq<Event>)
    requires !Split(len, events).panicked
    ensures Tiles(Segments(Split(len, events).trace), 0, len)
    ensures TotalLength(Segments(Split(len, events).trace)) == len
  {
    CoverageFrom(len, events, 0, 0);
    TilesLength(Segments(Split(len, events).trace), 0, len);
  }

  /** Every event is passed to the callback exactly once, in input order. */
  lemma ExactlyOnceInOrder(len: nat, events: seq<Event>)
    requires !Split(len, events).panicked
    ensures EventIndices(Split(len, events).trace) == Range(0, |events|)
  {
    EventsFrom(len, events, 0, 0);
  }

  /** Event `i` reaches the callback once exactly as many frames have gone
      by as the latest time among events `0..i` (and at least 0). */
  lemma DeliveryTime(len: nat, events: seq<Event>)
    requires !Split(len, events).panicked
    ensures var ps := Positions(Split(len, events).trace, 0);
      |ps| == |events| && forall i | 0 <= i < |events| :: ps[i] == Peak(events, 0, 0, i + 1)
  {
    PositionsFrom(len, events, 0, 0);
  }

  predicate Ascending(events: seq<Event>) {
    forall i, j | 0 <= i < j < |events| :: events[i].time <= events[j].time
  }

  lemma {:induction false} PeakOfAscending(events: seq<Event>, j: nat)
    requires Ascending(events) && 0 < j <= |events|
    requires forall i | 0 <= i < |events| :: events[i].time >= 0
    ensures Peak(events, 0, 0, j) == events[j - 1].time
  {
    if j > 1 {
      PeakOfAscending(events, j - 1);
    }
  }

  /** With the times the host guarantees (ascending, inside the block),
      nothing panics and each event is delivered after exactly `time`
      frames: sample-accurate timing. */
  lemma SampleAccurate(len: nat, events: seq<Event>)
    requires Ascending(events)
    requires forall i | 0 <= i < |events| :: 0 <= events[i].time < len
    ensures !Split(len, events).panicked
    ensures var ps := Positions(Split(len, events).trace, 0);
      |ps| == |events| && forall i | 0 <= i < |events| :: ps[i] == events[i].time
  {
    PanicFrom(len, events, 0, 0);
    DeliveryTime(len, events);
    forall i | 0 <= i < |events|
      ensures Peak(events, 0, 0, i + 1) == events[i].time
    {
      PeakOfAscending(events, i + 1);
    }
  }

  /** The run fails its assertion exactly when some event comes after the
      cursor and at or past the end of the block. */
  lemma PanicsIff(len: nat, events: seq<Event>)
    ensures Split(len, events).panicked
        <==> exists i | 0 <= i < |events| :: events[i].time > Peak(events, 0, 0, i) && events[i].time >= len
  {
    PanicFrom(len, events, 0, 0);
  }

  /** An event at or before the cursor comes right after the previous event
      (or first of all), with no audio in between; a later event comes right
      after the single segment from the cursor to its time. */
  lemma ImmediateNeighbours(len: nat, events: seq<Event>)
    ensures Preceded(events, 0, 0, Split(len, events).trace)
  {
    PrecededFrom(len, events, 0, 0);
  }

  /** There is one audio call more than there are events that came after the
      cursor, and the last call is always the rest of the block, even when it
      is empty. */
  lemma AudioCallCount(len: nat, events: seq<Event>)
    requires !Split(len, events).panicked
    ensures |Segments(Split(len, events).trace)| == 1 + Advances(events, 0, 0, |events|)
    ensures var t := Split(len, events).trace;
      |t| > 0 && t[|t| - 1] == Audio(Peak(events, 0, 0, |events|), len)
  {
    CountFrom(len, events, 0, 0);
    LastFrom(len, events, 0, 0);
  }

  /** Whatever the events, the calls name only input events and frames of
      the block. */
  lemma ItemsInRange(len: nat, events: seq<Event>)
    ensures ItemsFit(Split(len, events).trace, len, |events|)
  {
    ItemsFitFrom(len, events, 0, 0);
  }

  /** Without events the callback gets one call: the whole block. */
  lemma NoEvents(len: nat)
    ensures Split(len, []) == Run([Audio(0, len)], false)
  {
  }
}
