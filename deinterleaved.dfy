/** Non-owning multichannel audio views (rust/deinterleaved/src/lib.rs).

    A mutable view (`AudioBufferMut`) is a sequence of channel windows into
    caller-owned sample buffers: slicing makes new windows over the same
    buffers, so writes through a slice land in the parent. An immutable view
    (`AudioBuffer`) is modelled by the values it lets one read: a sequence of
    channels, each a sequence of samples. */
module Deinterleaved {
  import opened Common

  /** One borrowed channel: the window `data[start .. start + len]` of a
      caller-owned sample buffer. */
  datatype Channel<T> = Channel(data: array<T>, start: nat, len: nat)

  predicate InBounds<T>(c: Channel<T>) {
    c.start + c.len <= c.data.Length
  }

  /** The samples a channel window shows. */
  function Samples<T>(c: Channel<T>): (s: seq<T>)
    requires InBounds(c)
    reads c.data
    ensures |s| == c.len
  {
    c.data[c.start .. c.start + c.len]
  }

  /** A mutable multichannel view. */
  type View<T> = seq<Channel<T>>

  predicate AllInBounds<T>(v: View<T>) {
    forall c | 0 <= c < |v| :: InBounds(v[c])
  }

  predicate SameLength<T>(v: View<T>) {
    forall c | 0 <= c < |v| :: v[c].len == v[0].len
  }

  /** What every view keeps: each window lies in its buffer and all channels
      have one length. */
  predicate Valid<T>(v: View<T>) {
    AllInBounds(v) && SameLength(v)
  }

  /** The channels of a mutable view live in pairwise distinct buffers, so a
      write through one channel is seen by no other. */
  predicate Exclusive<T>(v: View<T>) {
    forall c, d | 0 <= c < d < |v| :: v[c].data != v[d].data
  }

  /** The buffers a view writes to. */
  function Storage<T>(v: View<T>): set<array<T>> {
    set c | 0 <= c < |v| :: v[c].data
  }

  function Lengths<T>(v: View<T>): (ls: seq<nat>)
    ensures |ls| == |v| && forall c | 0 <= c < |v| :: ls[c] == v[c].len
  {
    seq(|v|, c requires 0 <= c < |v| => v[c].len)
  }

  /** `all_same`: whether every item equals the first one (so true for no
      items and for one item). */
  method AllSame<T(==)>(xs: seq<T>) returns (same: bool)
    ensures same <==> forall i | 0 <= i < |xs| :: xs[i] == xs[0]
  {
    var v: Option<T> := None;
    for i := 0 to |xs|
      invariant v == if i == 0 then None else Some(xs[0])
      invariant forall j | 0 <= j < i :: xs[j] == xs[0]
    {
      match v {
        case None =>
          v := Some(xs[i]);
        case Some(first) =>
          if xs[i] != first {
            return false;
          }
          v := Some(first);
      }
    }
    return true;
  }

  /** `AudioBufferMut::new`: the view over `buf` if all its channels have one
      length; `None` stands for the failed assertion. */
  method New<T>(buf: View<T>) returns (r: Option<View<T>>)
    requires AllInBounds(buf)
    ensures r.Some? <==> SameLength(buf)
    ensures r.Some? ==> r.value == buf && Valid(r.value)
  {
    var same := AllSame(Lengths(buf));
    if same {
      r := Some(buf);
    } else {
      r := None;
    }
  }

  /** `len`: the length of channel 0, which is every channel's length. */
  function Len<T>(v: View<T>): (n: nat)
    requires |v| > 0
    ensures SameLength(v) ==> forall c | 0 <= c < |v| :: v[c].len == n
  {
    v[0].len
  }

  /** `is_empty`: whether the channels hold no samples. */
  function IsEmpty<T>(v: View<T>): (empty: bool)
    requires |v| > 0
    ensures SameLength(v) ==> (empty <==> forall c | 0 <= c < |v| :: v[c].len == 0)
  {
    v[0].len == 0
  }

  /** `num_channels`: one per slice, and so, when no two channels share a
      buffer, one per buffer. */
  function NumChannels<T>(v: View<T>): (n: nat)
    ensures n == |Lengths(v)|
    ensures Exclusive(v) ==> |Storage(v)| == n
  {
    StorageCount(v);
    |v|
  }

  /** The buffers of an exclusive view are as many as its channels. */
  lemma {:induction false} StorageCount<T>(v: View<T>)
    ensures Exclusive(v) ==> |Storage(v)| == |v|
  {
    if |v| > 0 && Exclusive(v) {
      var front := v[..|v| - 1];
      assert Exclusive(front);
      StorageCount(front);
      assert Storage(v) == Storage(front) + {v[|v| - 1].data};
      assert v[|v| - 1].data !in Storage(front);
    }
  }

  /** `slice(lo..hi)` of a mutable view: the same channels, in their own
      buffers, narrowed to frames `[lo, hi)`. A range past a channel's end
      panics in the source; here it is excluded by the precondition. */
  function Slice<T>(v: View<T>, lo: nat, hi: nat): (r: View<T>)
    requires Valid(v)
    requires lo <= hi && forall c | 0 <= c < |v| :: hi <= v[c].len
    ensures NumChannels(r) == NumChannels(v) && Valid(r)
    ensures forall c | 0 <= c < |r| :: r[c].data == v[c].data && r[c].start == v[c].start + lo && r[c].len == hi - lo
    ensures Exclusive(v) ==> Exclusive(r)
    ensures Storage(r) == Storage(v)
  {
    seq(|v|, c requires 0 <= c < |v| => Channel(v[c].data, v[c].start + lo, hi - lo))
  }

  /** Frame `i` of a slice is frame `lo + i` of the parent, channel by channel. */
  lemma SliceSamples<T>(v: View<T>, lo: nat, hi: nat)
    requires Valid(v)
    requires lo <= hi && forall c | 0 <= c < |v| :: hi <= v[c].len
    ensures forall c | 0 <= c < |v| :: Samples(Slice(v, lo, hi)[c]) == Samples(v[c])[lo .. hi]
  {
    var r := Slice(v, lo, hi);
    forall c | 0 <= c < |v|
      ensures Samples(r[c]) == Samples(v[c])[lo .. hi]
    {
      assert r[c] == Channel(v[c].data, v[c].start + lo, hi - lo);
      assert InBounds(v[c]);
      var whole := Samples(v[c]);
      forall i | 0 <= i < hi - lo
        ensures Samples(r[c])[i] == whole[lo .. hi][i]
      {
        assert Samples(r[c])[i] == v[c].data[v[c].start + lo + i] == whole[lo + i];
      }
    }
  }

  /** `IndexMut` followed by a sample write (`v[c][i] = x`): only that
      sample of that buffer changes. */
  method SetSample<T>(v: View<T>, c: nat, i: nat, x: T)
    requires Valid(v) && c < |v| && i < v[c].len
    modifies v[c].data
    ensures v[c].data[..] == old(v[c].data[..])[v[c].start + i := x]
    ensures Samples(v[c]) == old(Samples(v[c]))[i := x]
    ensures Exclusive(v) ==> forall d | 0 <= d < |v| && d != c :: Samples(v[d]) == old(Samples(v[d]))
  {
    v[c].data[v[c].start + i] := x;
  }

  /** Writing frame `i` of channel `c` of `slice(lo..hi)` changes frame
      `lo + i` of that channel of the parent, and nothing else. */
  method SetThroughSlice<T>(v: View<T>, lo: nat, hi: nat, c: nat, i: nat, x: T)
    requires Valid(v) && Exclusive(v)
    requires lo <= hi && forall d | 0 <= d < |v| :: hi <= v[d].len
    requires c < |v| && i < hi - lo
    modifies v[c].data
    ensures v[c].data[..] == old(v[c].data[..])[v[c].start + lo + i := x]
    ensures Samples(v[c]) == old(Samples(v[c]))[lo + i := x]
    ensures forall d | 0 <= d < |v| && d != c :: Samples(v[d]) == old(Samples(v[d]))
  {
    var sub := Slice(v, lo, hi);
    SetSample(sub, c, i, x);
  }

  /** `split_first_mut`: `None` for a view without channels, otherwise
      channel 0 and a view over the remaining channels in order. */
  function SplitFirstMut<T>(v: View<T>): (r: Option<(Channel<T>, View<T>)>)
    ensures r.None? <==> |v| == 0
    ensures r.Some? ==> [r.value.0] + r.value.1 == v
    ensures r.Some? ==> NumChannels(r.value.1) == NumChannels(v) - 1
    ensures r.Some? && Valid(v) ==> Valid(r.value.1)
    ensures r.Some? && Exclusive(v) ==> Exclusive(r.value.1)
  {
    if |v| == 0 then None else Some((v[0], v[1..]))
  }

  /** `Index`/`IndexMut`: the samples of channel `i`, as long as the view. */
  function Index<T>(v: View<T>, i: nat): (s: seq<T>)
    requires Valid(v) && i < |v|
    reads v[i].data
    ensures |s| == Len(v)
  {
    Samples(v[i])
  }

  /** An immutable view, modelled by the samples it shows. */
  type Buffer<T> = seq<seq<T>>

  predicate BufferValid<T>(b: Buffer<T>) {
    forall c | 0 <= c < |b| :: |b[c]| == |b[0]|
  }

  /** `AudioBuffer::new`: the view if all channels have one length; `None`
      stands for the failed assertion. */
  method NewBuffer<T>(buf: Buffer<T>) returns (r: Option<Buffer<T>>)
    ensures r.Some? <==> BufferValid(buf)
    ensures r.Some? ==> r.value == buf
  {
    var lengths := seq(|buf|, c requires 0 <= c < |buf| => |buf[c]|);
    assert forall c | 0 <= c < |buf| :: lengths[c] == |buf[c]|;
    var same := AllSame(lengths);
    if same {
      r := Some(buf);
    } else {
      r := None;
    }
  }

  /** `AudioBuffer::len`. */
  function BufferLen<T>(b: Buffer<T>): (n: nat)
    requires |b| > 0
    ensures BufferValid(b) ==> forall c | 0 <= c < |b| :: |b[c]| == n
  {
    |b[0]|
  }

  /** `AudioBuffer::is_empty`. */
  function BufferIsEmpty<T>(b: Buffer<T>): (empty: bool)
    requires |b| > 0
    ensures BufferValid(b) ==> (empty <==> forall c | 0 <= c < |b| :: b[c] == [])
  {
    |b[0]| == 0
  }

  /** `AudioBuffer::slice(lo..hi)`. */
  function BufferSlice<T>(b: Buffer<T>, lo: nat, hi: nat): (r: Buffer<T>)
    requires lo <= hi && forall c | 0 <= c < |b| :: hi <= |b[c]|
    ensures |r| == |b| && BufferValid(r)
    ensures forall c, i | 0 <= c < |b| && 0 <= i < hi - lo :: |r[c]| == hi - lo && r[c][i] == b[c][lo + i]
  {
    seq(|b|, c requires 0 <= c < |b| && hi <= |b[c]| => b[c][lo .. hi])
  }

  /** `AudioBuffer::split_first`. */
  function BufferSplitFirst<T>(b: Buffer<T>): (r: Option<(seq<T>, Buffer<T>)>)
    ensures r.None? <==> |b| == 0
    ensures r.Some? ==> [r.value.0] + r.value.1 == b
    ensures r.Some? && BufferValid(b) ==> BufferValid(r.value.1)
  {
    if |b| == 0 then None else Some((b[0], b[1..]))
  }

  /** `AudioBuffer`'s `Index`: channel `i`, as long as the view. */
  function BufferIndex<T>(b: Buffer<T>, i: nat): (s: seq<T>)
    requires BufferValid(b) && i < |b|
    ensures |s| == BufferLen(b)
  {
    b[i]
  }

  /** `From<AudioBufferMut> for AudioBuffer`: the immutable view shows the
      same channels with the same samples. */
  function Freeze<T>(v: View<T>): (b: Buffer<T>)
    requires AllInBounds(v)
    reads Storage(v)
    ensures |b| == |v|
    ensures forall c | 0 <= c < |v| :: b[c] == Samples(v[c])
    ensures Valid(v) ==> BufferValid(b)
  {
    seq(|v|, c requires 0 <= c < |v| && InBounds(v[c]) reads Storage(v) => Samples(v[c]))
  }
}
