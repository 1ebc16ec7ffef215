/** The grab mirror (cpp/thread/Grab_mirror.h, Grab_mirror.cpp): the UI thread
    counts grabs and ungrabs of each parameter in pending counters; the DSP
    thread folds them into its own grab count per parameter and reports a
    parameter whose count changed between zero and non-zero.

    Each call is one sequential update of the maps; the atomics are plain
    map entries and `exchange(0)` is a read followed by a write of 0. The
    counters are `uint64_t`: an increment wraps modulo 2^64. A walk over a
    `std::map` visits keys in ascending order (`First`). The `grab` and
    `ungrab` callbacks are the sequences of addresses they receive. */
module GrabMirror {
  import opened Common
  import C = CppTypes

  /** `++` on a `uint64_t`. */
  function Increment(n: uint64): (r: uint64)
    ensures r as int == (n as int + 1) % UINT64_MODULUS
  {
    if n == 0xFFFF_FFFF_FFFF_FFFF then 0 else n + 1
  }

  /** `+=` on a `uint64_t`. */
  function Add(c: uint64, n: uint64): (r: uint64)
    ensures r as int == (c as int + n as int) % UINT64_MODULUS
  {
    ((c as int + n as int) % UINT64_MODULUS) as uint64
  }

  /** The ungrab update: the count less the pending ungrabs, and 0 where
      they exceed it. */
  function SaturatingSub(c: uint64, n: uint64): (r: uint64)
    ensures r as int == if n > c then 0 else c as int - n as int
    ensures r <= c
  {
    if n > c then 0 else c - n
  }

  /** `operator[]` on a read: a missing key reads as a value-initialised 0
      (and is inserted). */
  function Get(m: map<uint64, uint64>, address: uint64): uint64 {
    if address in m then m[address] else 0
  }

  /** Which of the two DSP-side checks runs. */
  datatype Direction = Grabs | Ungrabs

  /** The new grab count from the old one and the pending counter. */
  function Update(direction: Direction, c: uint64, n: uint64): uint64 {
    match direction
    case Grabs => Add(c, n)
    case Ungrabs => SaturatingSub(c, n)
  }

  /** Whether a count change is reported: the count became zero or stopped
      being zero. */
  predicate Flipped(before: uint64, after: uint64) {
    (before != 0) != (after != 0)
  }

  /** A check over the pending keys `keys` in ascending order: each pending
      counter is read and zeroed, the grab count updated by it, and the key
      reported when that flipped its count. Gives the new counts, the new
      pending counters and the reported keys. */
  ghost function Check(keys: set<uint64>, direction: Direction, count: map<uint64, uint64>, pending: map<uint64, uint64>): (r: (map<uint64, uint64>, map<uint64, uint64>, seq<uint64>))
    requires keys <= pending.Keys && keys <= count.Keys
    ensures r.0.Keys == count.Keys && r.1.Keys == pending.Keys
    decreases |keys|
  {
    if keys == {} then (count, pending, [])
    else
      var k := First(keys);
      var c := Update(direction, count[k], pending[k]);
      var rest := Check(keys - {k}, direction, count[k := c], pending[k := 0]);
      (rest.0, rest.1, (if Flipped(count[k], c) then [k] else []) + rest.2)
  }

  /** The keys a check reports, read off the maps before it: the keys in
      ascending order whose count the update flips, each once. */
  ghost function Flips(keys: set<uint64>, direction: Direction, count: map<uint64, uint64>, pending: map<uint64, uint64>): (r: seq<uint64>)
    requires keys <= pending.Keys && keys <= count.Keys
    ensures forall j | 0 <= j < |r| :: r[j] in keys && Flipped(count[r[j]], Update(direction, count[r[j]], pending[r[j]]))
    ensures forall i, j | 0 <= i < j < |r| :: r[i] < r[j]
    decreases |keys|
  {
    if keys == {} then []
    else
      var k := First(keys);
      (if Flipped(count[k], Update(direction, count[k], pending[k])) then [k] else [])
        + Flips(keys - {k}, direction, count, pending)
  }

  /** Every flipped key is reported. */
  lemma {:induction false} FlipsComplete(keys: set<uint64>, direction: Direction, count: map<uint64, uint64>, pending: map<uint64, uint64>, k: uint64)
    requires keys <= pending.Keys && keys <= count.Keys
    requires k in keys && Flipped(count[k], Update(direction, count[k], pending[k]))
    ensures k in Flips(keys, direction, count, pending)
    decreases |keys|
  {
    var m := First(keys);
    if k != m {
      FlipsComplete(keys - {m}, direction, count, pending, k);
    }
  }

  /** `Flips` only looks at the keys it is given. */
  lemma {:induction false} FlipsFrame(keys: set<uint64>, direction: Direction,
                                      count: map<uint64, uint64>, pending: map<uint64, uint64>,
                                      count': map<uint64, uint64>, pending': map<uint64, uint64>)
    requires keys <= pending.Keys && keys <= count.Keys && keys <= pending'.Keys && keys <= count'.Keys
    requires forall k | k in keys :: count[k] == count'[k] && pending[k] == pending'[k]
    ensures Flips(keys, direction, count, pending) == Flips(keys, direction, count', pending')
    decreases |keys|
  {
    if keys != {} {
      FlipsFrame(keys - {First(keys)}, direction, count, pending, count', pending');
    }
  }

  /** A check leaves each walked key's count updated by its pending counter
      and that counter at 0, every other entry unchanged, and reports exactly
      the flipped keys, in ascending order. */
  lemma {:induction false} CheckMeaning(keys: set<uint64>, direction: Direction, count: map<uint64, uint64>, pending: map<uint64, uint64>)
    requires keys <= pending.Keys && keys <= count.Keys
    ensures forall k | k in count ::
      Check(keys, direction, count, pending).0[k] == if k in keys then Update(direction, count[k], pending[k]) else count[k]
    ensures forall k | k in pending ::
      Check(keys, direction, count, pending).1[k] == if k in keys then 0 else pending[k]
    ensures Check(keys, direction, count, pending).2 == Flips(keys, direction, count, pending)
    decreases |keys|
  {
    if keys != {} {
      var k := First(keys);
      var c := Update(direction, count[k], pending[k]);
      CheckMeaning(keys - {k}, direction, count[k := c], pending[k := 0]);
      FlipsFrame(keys - {k}, direction, count, pending, count[k := c], pending[k := 0]);
    }
  }

  /** A grab is reported exactly when the count leaves zero, provided the
      count does not wrap around. */
  lemma GrabReportedIffGrabbed(c: uint64, n: uint64)
    requires c as int + n as int < UINT64_MODULUS
    ensures Flipped(c, Update(Grabs, c, n)) <==> c == 0 && n != 0
  {
  }

  /** An ungrab is reported exactly when the count drops to zero: it was
      non-zero and the pending ungrabs reach it. */
  lemma UngrabReportedIffReleased(c: uint64, n: uint64)
    ensures Flipped(c, Update(Ungrabs, c, n)) <==> c != 0 && n >= c
  {
  }

  /** With nothing pending, a check changes nothing and reports nothing. */
  lemma {:induction false} IdleCheck(keys: set<uint64>, direction: Direction, count: map<uint64, uint64>, pending: map<uint64, uint64>)
    requires keys <= pending.Keys && keys <= count.Keys
    requires forall k | k in keys :: pending[k] == 0
    ensures Check(keys, direction, count, pending) == (count, pending, [])
    decreases |keys|
  {
    if keys != {} {
      var k := First(keys);
      assert Update(direction, count[k], pending[k]) == count[k];
      assert count[k := count[k]] == count && pending[k := 0] == pending;
      IdleCheck(keys - {k}, direction, count, pending);
      assert [] + Check(keys - {k}, direction, count, pending).2 == [];
    }
  }

  /** Repeating a check with no new pending counts changes nothing and fires
      no callback. */
  lemma RepeatCheckSilent(direction: Direction, count: map<uint64, uint64>, pending: map<uint64, uint64>)
    requires pending.Keys <= count.Keys
    ensures var r := Check(pending.Keys, direction, count, pending);
      Check(r.1.Keys, direction, r.0, r.1) == (r.0, r.1, [])
  {
    CheckMeaning(pending.Keys, direction, count, pending);
    var r := Check(pending.Keys, direction, count, pending);
    IdleCheck(r.1.Keys, direction, r.0, r.1);
  }

  /** One step of a check: the least key first, then the rest. */
  lemma CheckStep(keys: set<uint64>, k: uint64, direction: Direction, count: map<uint64, uint64>, pending: map<uint64, uint64>)
    requires keys != {} && keys <= pending.Keys && keys <= count.Keys && k == First(keys)
    ensures var c := Update(direction, count[k], pending[k]);
      var rest := Check(keys - {k}, direction, count[k := c], pending[k := 0]);
      Check(keys, direction, count, pending) == (rest.0, rest.1, (if Flipped(count[k], c) then [k] else []) + rest.2)
    ensures var c := Update(direction, count[k], pending[k]);
      !Flipped(count[k], c) ==> Check(keys, direction, count, pending) == Check(keys - {k}, direction, count[k := c], pending[k := 0])
  {
    var c := Update(direction, count[k], pending[k]);
    var rest := Check(keys - {k}, direction, count[k := c], pending[k := 0]);
    assert [] + rest.2 == rest.2;
  }

  /** A check as the DSP thread runs it: a walk over the pending map in key
      order. */
  method RunCheck(direction: Direction, count: map<uint64, uint64>, pending: map<uint64, uint64>)
    returns (c: map<uint64, uint64>, p: map<uint64, uint64>, reported: seq<uint64>)
    requires pending.Keys <= count.Keys
    ensures (c, p, reported) == Check(pending.Keys, direction, count, pending)
  {
    c, p, reported := count, pending, [];
    var remaining := pending.Keys;
    assert [] + Check(pending.Keys, direction, count, pending).2 == Check(pending.Keys, direction, count, pending).2;
    while remaining != {}
      invariant remaining <= pending.Keys && c.Keys == count.Keys && p.Keys == pending.Keys
      invariant Check(pending.Keys, direction, count, pending)
             == (Check(remaining, direction, c, p).0, Check(remaining, direction, c, p).1,
                 reported + Check(remaining, direction, c, p).2)
      decreases |remaining|
    {
      var k := TakeLeast(remaining);
      CheckStep(remaining, k, direction, c, p);
      var n := p[k];
      p := p[k := 0];
      var wasGrabbed := c[k] != 0;
      var updated := match direction
        case Grabs => Add(c[k], n)
        case Ungrabs => if n > c[k] then 0 else c[k] - n;
      c := c[k := updated];
      var isGrabbed := c[k] != 0;
      ghost var rest := Check(remaining - {k}, direction, c, p);
      if isGrabbed != wasGrabbed {
        ConcatAssoc(reported, [k], rest.2);
        reported := reported + [k];
      }
      remaining := remaining - {k};
    }
    assert reported + [] == reported;
  }

  /** The map the constructor fills: 0 at every declared address. */
  function Zeros(params: seq<C.ParameterInfo>): (m: map<uint64, uint64>)
    ensures m.Keys == C.Addresses(params)
    ensures forall a | a in m :: m[a] == 0
  {
    map a | a in C.Addresses(params) :: 0
  }

  /** `Grab_mirror`. */
  class Mirror {
    var dspGrabCount: map<uint64, uint64>
    var pendingGrabs: map<uint64, uint64>
    var pendingUngrabs: map<uint64, uint64>

    /** The constructor: the grab count and both pending counters are 0 at
        every declared address. */
    constructor (params: seq<C.ParameterInfo>)
      ensures dspGrabCount == Zeros(params)
      ensures pendingGrabs == Zeros(params) && pendingUngrabs == Zeros(params)
    {
      var z: map<uint64, uint64> := map[];
      for i := 0 to |params|
        invariant z == Zeros(params[..i])
      {
        assert params[..i + 1][..i] == params[..i];
        assert C.Addresses(params[..i + 1]) == C.Addresses(params[..i]) + {params[i].address} by {
          assert params[..i + 1][i] == params[i];
          forall a | a in C.Addresses(params[..i + 1])
            ensures a in C.Addresses(params[..i]) + {params[i].address}
          {
            var j :| 0 <= j < i + 1 && params[..i + 1][j].address == a;
            if j < i {
              assert params[..i][j] == params[..i + 1][j];
            }
          }
          forall a | a in C.Addresses(params[..i])
            ensures a in C.Addresses(params[..i + 1])
          {
            var j :| 0 <= j < i && params[..i][j].address == a;
            assert params[..i + 1][j] == params[..i][j];
          }
        }
        z := z[params[i].address := 0];
      }
      assert params[..|params|] == params;
      dspGrabCount := z;
      pendingGrabs := z;
      pendingUngrabs := z;
    }

    /** `grab_from_ui_thread`: one more pending grab of the address (a new
        entry at an unknown address); nothing else changes. */
    method GrabFromUiThread(address: uint64)
      modifies this
      ensures pendingGrabs == old(pendingGrabs)[address := Increment(Get(old(pendingGrabs), address))]
      ensures dspGrabCount == old(dspGrabCount) && pendingUngrabs == old(pendingUngrabs)
    {
      pendingGrabs := pendingGrabs[address := Increment(Get(pendingGrabs, address))];
    }

    /** `ungrab_from_ui_thread`: one more pending ungrab of the address;
        nothing else changes. */
    method UngrabFromUiThread(address: uint64)
      modifies this
      ensures pendingUngrabs == old(pendingUngrabs)[address := Increment(Get(old(pendingUngrabs), address))]
      ensures dspGrabCount == old(dspGrabCount) && pendingGrabs == old(pendingGrabs)
    {
      pendingUngrabs := pendingUngrabs[address := Increment(Get(pendingUngrabs, address))];
    }

    /** `check_pending_grabs_from_dsp_thread(grab)`: every pending grab
        counter is zeroed and added to its address's count (`.at` fails on a
        pending address without a count). Returns the addresses `grab` is
        called with: those whose count flipped, in ascending order. */
    method CheckPendingGrabsFromDspThread() returns (grabbed: seq<uint64>)
      requires pendingGrabs.Keys <= dspGrabCount.Keys
      modifies this
      ensures (dspGrabCount, pendingGrabs, grabbed) == Check(old(pendingGrabs).Keys, Grabs, old(dspGrabCount), old(pendingGrabs))
      ensures pendingUngrabs == old(pendingUngrabs)
      ensures forall k | k in dspGrabCount ::
        dspGrabCount[k] == if k in old(pendingGrabs) then Add(old(dspGrabCount)[k], old(pendingGrabs)[k]) else old(dspGrabCount)[k]
      ensures pendingGrabs.Keys == old(pendingGrabs).Keys && forall k | k in pendingGrabs :: pendingGrabs[k] == 0
      ensures grabbed == Flips(old(pendingGrabs).Keys, Grabs, old(dspGrabCount), old(pendingGrabs))
    {
      CheckMeaning(pendingGrabs.Keys, Grabs, dspGrabCount, pendingGrabs);
      dspGrabCount, pendingGrabs, grabbed := RunCheck(Grabs, dspGrabCount, pendingGrabs);
    }

    /** `check_pending_ungrabs_from_dsp_thread(ungrab)`: every pending ungrab
        counter is zeroed and taken off its address's count, stopping at 0.
        Returns the addresses `ungrab` is called with: those whose count
        dropped to 0, in ascending order. */
    method CheckPendingUngrabsFromDspThread() returns (ungrabbed: seq<uint64>)
      requires pendingUngrabs.Keys <= dspGrabCount.Keys
      modifies this
      ensures (dspGrabCount, pendingUngrabs, ungrabbed) == Check(old(pendingUngrabs).Keys, Ungrabs, old(dspGrabCount), old(pendingUngrabs))
      ensures pendingGrabs == old(pendingGrabs)
      ensures forall k | k in dspGrabCount ::
        dspGrabCount[k] == if k in old(pendingUngrabs) then SaturatingSub(old(dspGrabCount)[k], old(pendingUngrabs)[k]) else old(dspGrabCount)[k]
      ensures pendingUngrabs.Keys == old(pendingUngrabs).Keys && forall k | k in pendingUngrabs :: pendingUngrabs[k] == 0
      ensures ungrabbed == Flips(old(pendingUngrabs).Keys, Ungrabs, old(dspGrabCount), old(pendingUngrabs))
    {
      CheckMeaning(pendingUngrabs.Keys, Ungrabs, dspGrabCount, pendingUngrabs);
      dspGrabCount, pendingUngrabs, ungrabbed := RunCheck(Ungrabs, dspGrabCount, pendingUngrabs);
    }
  }
}
