/** The parameter mirror (cpp/thread/Param_mirror.h, Param_mirror.cpp): a UI
    copy, a DSP copy and a shared ("atomic") copy of a kernel's parameter
    values, kept eventually consistent by sync passes each thread runs.

    Each call is one sequential update of the three maps; the atomics are
    plain map entries. A walk over a `std::map` visits its keys in ascending
    order, so the passes are specified by recursion on the least key not
    yet visited (`First`). The callbacks are modelled by what they see: `f`,
    the kernel's setter, is the sequence of calls it receives; `g`, the
    kernel's getter, is a function of the address, since the kernel is not
    changed while the second pass of the DSP sync reads it. */
module ParamMirror {
  import opened Common
  import C = CppTypes
  import CppParameter

  /** The copy pass both syncs begin with, over the keys `keys` in ascending
      order: a key whose source value differs from the destination's gets
      the source value there, and one call `f(key, value)`. Gives the new
      destination and the calls. */
  ghost function CopyChanged(keys: set<uint64>, src: map<uint64, real>, dst: map<uint64, real>): (r: (map<uint64, real>, seq<(uint64, real)>))
    requires keys <= src.Keys && keys <= dst.Keys
    ensures r.0.Keys == dst.Keys
    decreases |keys|
  {
    if keys == {} then (dst, [])
    else
      var k := First(keys);
      if src[k] != dst[k] then
        var rest := CopyChanged(keys - {k}, src, dst[k := src[k]]);
        (rest.0, [(k, src[k])] + rest.1)
      else
        CopyChanged(keys - {k}, src, dst)
  }

  /** The entries of `src` that differ from `dst` at the keys `keys`, in
      ascending key order: a reference for the calls of a copy pass, read
      off the maps before it. */
  ghost function Differing(keys: set<uint64>, src: map<uint64, real>, dst: map<uint64, real>): (r: seq<(uint64, real)>)
    requires keys <= src.Keys && keys <= dst.Keys
    ensures forall j | 0 <= j < |r| :: r[j].0 in keys && r[j].1 == src[r[j].0] != dst[r[j].0]
    ensures forall i, j | 0 <= i < j < |r| :: r[i].0 < r[j].0
    decreases |keys|
  {
    if keys == {} then []
    else
      var k := First(keys);
      var rest := Differing(keys - {k}, src, dst);
      (if src[k] != dst[k] then [(k, src[k])] else []) + rest
  }

  /** Every differing key is reported. */
  lemma {:induction false} DifferingComplete(keys: set<uint64>, src: map<uint64, real>, dst: map<uint64, real>, k: uint64)
    requires keys <= src.Keys && keys <= dst.Keys
    requires k in keys && src[k] != dst[k]
    ensures (k, src[k]) in Differing(keys, src, dst)
    decreases |keys|
  {
    var m := First(keys);
    if k != m {
      DifferingComplete(keys - {m}, src, dst, k);
    }
  }

  /** `Differing` only looks at the keys it is given. */
  lemma {:induction false} DifferingFrame(keys: set<uint64>, src: map<uint64, real>, dst: map<uint64, real>, dst': map<uint64, real>)
    requires keys <= src.Keys && keys <= dst.Keys && keys <= dst'.Keys
    requires forall k | k in keys :: dst[k] == dst'[k]
    ensures Differing(keys, src, dst) == Differing(keys, src, dst')
    decreases |keys|
  {
    if keys != {} {
      DifferingFrame(keys - {First(keys)}, src, dst, dst');
    }
  }

  /** Nothing differs where the maps agree. */
  lemma {:induction false} DifferingNone(keys: set<uint64>, src: map<uint64, real>, dst: map<uint64, real>)
    requires keys <= src.Keys && keys <= dst.Keys
    requires forall k | k in keys :: src[k] == dst[k]
    ensures Differing(keys, src, dst) == []
    decreases |keys|
  {
    if keys != {} {
      DifferingNone(keys - {First(keys)}, src, dst);
    }
  }

  /** The copy pass calls `f` exactly for the entries that differed before
      it, in ascending key order, and leaves the destination holding the
      source's value at every key walked and its own value elsewhere. */
  lemma {:induction false} CopyChangedMeaning(keys: set<uint64>, src: map<uint64, real>, dst: map<uint64, real>)
    requires keys <= src.Keys && keys <= dst.Keys
    ensures CopyChanged(keys, src, dst).1 == Differing(keys, src, dst)
    ensures forall k | k in dst :: CopyChanged(keys, src, dst).0[k] == if k in keys then src[k] else dst[k]
    decreases |keys|
  {
    if keys != {} {
      var k := First(keys);
      var rest := keys - {k};
      if src[k] != dst[k] {
        var dst' := dst[k := src[k]];
        CopyChangedMeaning(rest, src, dst');
        DifferingFrame(rest, src, dst, dst');
      } else {
        CopyChangedMeaning(rest, src, dst);
      }
    }
  }

  /** The second pass of the DSP sync, over the keys `keys` in ascending
      order: a key whose DSP value differs from the kernel's `g(key)` gets
      `g(key)` in both the DSP and the shared map. Gives the new DSP and
      shared maps. */
  ghost function PushChanged(keys: set<uint64>, g: uint64 -> real, dsp: map<uint64, real>, atomic: map<uint64, real>): (r: (map<uint64, real>, map<uint64, real>))
    requires keys <= dsp.Keys
    ensures r.0.Keys == dsp.Keys
    decreases |keys|
  {
    if keys == {} then (dsp, atomic)
    else
      var k := First(keys);
      if dsp[k] != g(k) then
        PushChanged(keys - {k}, g, dsp[k := g(k)], atomic[k := g(k)])
      else
        PushChanged(keys - {k}, g, dsp, atomic)
  }

  /** The second pass leaves the DSP map at `g` at every key walked, and the
      shared map at `g` exactly at the walked keys whose DSP value differed
      from it (inserting those it lacked), unchanged at every other key.
      Stated one key at a time. */
  lemma {:induction false} PushChangedAt(keys: set<uint64>, g: uint64 -> real, dsp: map<uint64, real>, atomic: map<uint64, real>, k: uint64)
    requires keys <= dsp.Keys
    ensures k in dsp ==> PushChanged(keys, g, dsp, atomic).0[k] == if k in keys then g(k) else dsp[k]
    ensures k in PushChanged(keys, g, dsp, atomic).1 <==> k in atomic || (k in keys && dsp[k] != g(k))
    ensures k in PushChanged(keys, g, dsp, atomic).1 ==>
      PushChanged(keys, g, dsp, atomic).1[k] == if k in keys && dsp[k] != g(k) then g(k) else atomic[k]
    decreases |keys|
  {
    if keys != {} {
      var h := First(keys);
      if dsp[h] != g(h) {
        PushChangedAt(keys - {h}, g, dsp[h := g(h)], atomic[h := g(h)], k);
      } else {
        PushChangedAt(keys - {h}, g, dsp, atomic, k);
      }
    }
  }

  /** The whole DSP sync, as one value: the copy pass from the shared map
      into the DSP map, then the second pass against `g` over the DSP map's
      keys. Gives the new DSP map, the new shared map and the calls of `f`. */
  ghost function DspSync(g: uint64 -> real, dsp: map<uint64, real>, atomic: map<uint64, real>): (r: (map<uint64, real>, map<uint64, real>, seq<(uint64, real)>))
    requires atomic.Keys <= dsp.Keys
    ensures r.0.Keys == dsp.Keys
  {
    var (dsp1, calls) := CopyChanged(atomic.Keys, atomic, dsp);
    var (dsp2, atomic2) := PushChanged(dsp1.Keys, g, dsp1, atomic);
    (dsp2, atomic2, calls)
  }

  /** After a DSP sync the DSP and shared maps agree with `g` at every key
      they hold; the shared map kept its keys and gained only DSP keys; and
      `f` was called once for each shared value that differed from the DSP
      map, in ascending key order. */
  lemma DspSyncAgreesWithKernel(g: uint64 -> real, dsp: map<uint64, real>, atomic: map<uint64, real>)
    requires atomic.Keys <= dsp.Keys
    ensures forall k | k in DspSync(g, dsp, atomic).0 :: DspSync(g, dsp, atomic).0[k] == g(k)
    ensures forall k | k in DspSync(g, dsp, atomic).1 :: DspSync(g, dsp, atomic).1[k] == g(k)
    ensures atomic.Keys <= DspSync(g, dsp, atomic).1.Keys <= dsp.Keys
    ensures DspSync(g, dsp, atomic).2 == Differing(atomic.Keys, atomic, dsp)
  {
    CopyChangedMeaning(atomic.Keys, atomic, dsp);
    var dsp1 := CopyChanged(atomic.Keys, atomic, dsp).0;
    var r := DspSync(g, dsp, atomic);
    forall k | k in dsp1
      ensures r.0[k] == g(k)
      ensures k in r.1 ==> r.1[k] == g(k)
      ensures k in atomic ==> k in r.1
    {
      PushChangedAt(dsp1.Keys, g, dsp1, atomic, k);
    }
    forall k | k in r.1 ensures k in dsp1 {
      PushChangedAt(dsp1.Keys, g, dsp1, atomic, k);
    }
  }

  /** A copy pass leaves nothing for a second one to do. */
  lemma CopyTwiceSilent(keys: set<uint64>, src: map<uint64, real>, dst: map<uint64, real>)
    requires keys <= src.Keys && keys <= dst.Keys
    ensures CopyChanged(keys, src, CopyChanged(keys, src, dst).0) == (CopyChanged(keys, src, dst).0, [])
  {
    CopyChangedMeaning(keys, src, dst);
    var dst1 := CopyChanged(keys, src, dst).0;
    CopyChangedMeaning(keys, src, dst1);
    DifferingNone(keys, src, dst1);
    var dst2 := CopyChanged(keys, src, dst1).0;
    assert forall k | k in dst2 :: dst2[k] == dst1[k];
    assert dst2 == dst1;
  }

  /** After a UI sync the UI map equals the shared map at every shared key;
      with nothing written in between, a second UI sync calls `f` zero times
      and changes nothing. */
  lemma SecondUiSyncSilent(ui: map<uint64, real>, atomic: map<uint64, real>)
    requires atomic.Keys <= ui.Keys
    ensures forall k | k in atomic :: CopyChanged(atomic.Keys, atomic, ui).0[k] == atomic[k]
    ensures var ui1 := CopyChanged(atomic.Keys, atomic, ui).0;
      CopyChanged(atomic.Keys, atomic, ui1) == (ui1, [])
  {
    CopyChangedMeaning(atomic.Keys, atomic, ui);
    CopyTwiceSilent(atomic.Keys, atomic, ui);
  }

  /** The copy pass as the syncs run it: a walk over the source map in key
      order. */
  method CopyPass(src: map<uint64, real>, dst: map<uint64, real>) returns (d: map<uint64, real>, calls: seq<(uint64, real)>)
    requires src.Keys <= dst.Keys
    ensures (d, calls) == CopyChanged(src.Keys, src, dst)
  {
    d := dst;
    calls := [];
    var remaining := src.Keys;
    assert [] + CopyChanged(src.Keys, src, dst).1 == CopyChanged(src.Keys, src, dst).1;
    while remaining != {}
      invariant remaining <= src.Keys && d.Keys == dst.Keys
      invariant CopyChanged(src.Keys, src, dst)
             == (CopyChanged(remaining, src, d).0, calls + CopyChanged(remaining, src, d).1)
      decreases |remaining|
    {
      var k := TakeLeast(remaining);
      var v := src[k];
      if v != d[k] {
        ghost var rest := CopyChanged(remaining - {k}, src, d[k := v]);
        ConcatAssoc(calls, [(k, v)], rest.1);
        d := d[k := v];
        calls := calls + [(k, v)];
      }
      remaining := remaining - {k};
    }
    assert calls + [] == calls;
  }

  /** The second pass of the DSP sync as it runs: a walk over the DSP map in
      key order. */
  method PushPass(g: uint64 -> real, dsp: map<uint64, real>, atomic: map<uint64, real>) returns (d: map<uint64, real>, a: map<uint64, real>)
    ensures (d, a) == PushChanged(dsp.Keys, g, dsp, atomic)
  {
    d, a := dsp, atomic;
    var remaining := dsp.Keys;
    while remaining != {}
      invariant remaining <= dsp.Keys && d.Keys == dsp.Keys
      invariant PushChanged(dsp.Keys, g, dsp, atomic) == PushChanged(remaining, g, d, a)
      decreases |remaining|
    {
      var k := TakeLeast(remaining);
      var v := g(k);
      if d[k] != v {
        d := d[k := v];
        a := a[k := v];
      }
      remaining := remaining - {k};
    }
  }

  /** `Param_mirror`. */
  class Mirror {
    var ui: map<uint64, real>
    var dsp: map<uint64, real>
    var atomic: map<uint64, real>

    /** The DSP map keeps the declared addresses, and every address the
        shared map holds is also in the UI map. */
    ghost predicate Valid()
      reads this
    {
      dsp.Keys <= atomic.Keys <= ui.Keys
    }

    /** The constructor: the UI and shared maps hold every declared
        address's default, and the DSP map is a copy of the UI map. */
    constructor (params: seq<C.ParameterInfo>)
      ensures ui == CppParameter.DefaultState(params)
      ensures atomic == ui && dsp == ui
      ensures Valid()
    {
      var u: map<uint64, real> := map[];
      var a: map<uint64, real> := map[];
      for i := 0 to |params|
        invariant u == CppParameter.DefaultState(params[..i])
        invariant a == u
      {
        assert params[..i + 1][..i] == params[..i];
        u := u[params[i].address := C.DefaultValue(params[i])];
        a := a[params[i].address := C.DefaultValue(params[i])];
      }
      assert params[..|params|] == params;
      ui := u;
      atomic := a;
      dsp := u;
    }

    /** `get_from_ui_thread`: the UI map's value (`.at` fails on an unknown
        address). */
    function GetFromUiThread(address: uint64): (v: real)
      reads this
      requires address in ui
      ensures v == ui[address]
    {
      ui[address]
    }

    /** `set_from_ui_thread`: the value goes into the UI and shared maps
        (inserted if the address was unknown); the DSP map is unchanged. */
    method SetFromUiThread(address: uint64, value: real)
      requires Valid()
      modifies this
      ensures Valid()
      ensures ui == old(ui)[address := value]
      ensures atomic == old(atomic)[address := value]
      ensures dsp == old(dsp)
      ensures GetFromUiThread(address) == value
    {
      ui := ui[address := value];
      atomic := atomic[address := value];
    }

    /** `sync_from_dsp_thread(f, g)`: the copy pass from the shared map into
        the DSP map (`.at` fails on a shared key the DSP map lacks), then the
        second pass against `g`. Returns the calls of `f`. */
    method SyncFromDspThread(g: uint64 -> real) returns (calls: seq<(uint64, real)>)
      requires Valid() && atomic.Keys <= dsp.Keys
      modifies this
      ensures Valid()
      ensures (dsp, atomic, calls) == DspSync(g, old(dsp), old(atomic))
      ensures ui == old(ui)
      ensures forall k | k in dsp :: dsp[k] == g(k)
      ensures forall k | k in atomic :: atomic[k] == g(k)
      ensures calls == Differing(old(atomic).Keys, old(atomic), old(dsp))
    {
      var d1;
      d1, calls := CopyPass(atomic, dsp);
      var d2, a2 := PushPass(g, d1, atomic);
      DspSyncAgreesWithKernel(g, dsp, atomic);
      dsp, atomic := d2, a2;
    }

    /** `sync_from_ui_thread(f)`: the copy pass from the shared map into the
        UI map (`.at` would fail on a shared key the UI map lacks, which
        `Valid` rules out). Returns the
        calls of `f`; afterwards the UI map equals the shared map at every
        shared key. */
    method SyncFromUiThread() returns (calls: seq<(uint64, real)>)
      requires Valid()
      modifies this
      ensures Valid()
      ensures atomic == old(atomic) && dsp == old(dsp)
      ensures (ui, calls) == CopyChanged(atomic.Keys, atomic, old(ui))
      ensures forall k | k in atomic :: ui[k] == atomic[k]
      ensures calls == Differing(atomic.Keys, atomic, old(ui))
    {
      var u;
      u, calls := CopyPass(atomic, ui);
      CopyChangedMeaning(atomic.Keys, atomic, ui);
      ui := u;
    }
  }
}
