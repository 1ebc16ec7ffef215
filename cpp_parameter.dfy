/** The host's parameter-state helpers (cpp/kernel/Parameter.cpp,
    cpp/thread/UI_parameter.cpp): a parameter state is a map from address
    to value, filled from the declarations' defaults, read from a parameter
    set, or written back into one.

    `Parameter_set` and `UI_parameter_set` are interfaces; they are modelled
    by the sets the helpers are meant for, whose `get_parameter` returns the
    last value set at an address, or an initial value before any. */
module CppParameter {
  import opened Common
  import C = CppTypes

  /** A `Parameter_set` with last-write-wins get and set. `writes` records
      every `set_parameter` call in order. */
  class ParameterSet {
    var values: map<uint64, real>
    var writes: seq<(uint64, real)>
    const initial: uint64 -> real

    constructor (initial: uint64 -> real)
      ensures values == map[] && writes == [] && this.initial == initial
    {
      values := map[];
      writes := [];
      this.initial := initial;
    }

    /** `get_parameter`. */
    function GetParameter(address: uint64): real
      reads this
    {
      if address in values then values[address] else initial(address)
    }

    /** `set_parameter`: the value is stored at the address, and the call is
        recorded. */
    method SetParameter(address: uint64, value: real)
      modifies this
      ensures values == old(values)[address := value]
      ensures writes == old(writes) + [(address, value)]
      ensures GetParameter(address) == value
    {
      values := values[address := value];
      writes := writes + [(address, value)];
    }
  }

  /** A `UI_parameter_set`, as far as the helpers use it: its getter. Grabbing
      a parameter to change it is not part of this model. */
  class UIParameterSet {
    var values: map<uint64, real>
    const initial: uint64 -> real

    constructor (values: map<uint64, real>, initial: uint64 -> real)
      ensures this.values == values && this.initial == initial
    {
      this.values := values;
      this.initial := initial;
    }

    /** `get_parameter`. */
    function GetParameter(address: uint64): real
      reads this
    {
      if address in values then values[address] else initial(address)
    }
  }

  /** The state `get_default_state` builds: every declared address at its
      declaration's default, a later declaration of an address overwriting
      an earlier one. */
  function DefaultState(params: seq<C.ParameterInfo>): (state: map<uint64, real>)
    ensures state.Keys == C.Addresses(params)
    decreases |params|
  {
    if params == [] then map[]
    else
      var last := params[|params| - 1];
      AddressesSnoc(params);
      DefaultState(params[..|params| - 1])[last.address := C.DefaultValue(last)]
  }

  /** The addresses of a list are those of its front and its last entry. */
  lemma AddressesSnoc(params: seq<C.ParameterInfo>)
    requires params != []
    ensures C.Addresses(params) == C.Addresses(params[..|params| - 1]) + {params[|params| - 1].address}
  {
    var front := params[..|params| - 1];
    forall a | a in C.Addresses(params)
      ensures a in C.Addresses(front) + {params[|params| - 1].address}
    {
      var i :| 0 <= i < |params| && params[i].address == a;
      if i < |front| {
        assert front[i] == params[i];
      }
    }
    forall a | a in C.Addresses(front)
      ensures a in C.Addresses(params)
    {
      var i :| 0 <= i < |front| && front[i].address == a;
      assert params[i] == front[i];
    }
  }

  /** The declaration of an address that no later entry redeclares. */
  predicate LastDeclaration(params: seq<C.ParameterInfo>, i: nat) {
    i < |params| && forall j | i < j < |params| :: params[j].address != params[i].address
  }

  /** The default state holds, at each address, the default of the address's
      last declaration; with distinct addresses, of its only one. */
  lemma {:induction false} DefaultStateAt(params: seq<C.ParameterInfo>, i: nat)
    requires LastDeclaration(params, i)
    ensures DefaultState(params)[params[i].address] == C.DefaultValue(params[i])
    decreases |params|
  {
    var n := |params| - 1;
    if i < n {
      var front := params[..n];
      assert front[i] == params[i];
      assert LastDeclaration(front, i) by {
        forall j | i < j < |front| ensures front[j].address != front[i].address {
          assert front[j] == params[j];
        }
      }
      DefaultStateAt(front, i);
      assert params[n].address != params[i].address;
    }
  }

  /** `get_default_state`. */
  method GetDefaultState(params: seq<C.ParameterInfo>) returns (ret: map<uint64, real>)
    ensures ret == DefaultState(params)
  {
    ret := map[];
    for i := 0 to |params|
      invariant ret == DefaultState(params[..i])
    {
      assert params[..i + 1][..i] == params[..i];
      ret := ret[params[i].address := C.DefaultValue(params[i])];
    }
    assert params[..|params|] == params;
  }

  /** An entry's address is among the addresses of its list. */
  lemma AddressOf(params: seq<C.ParameterInfo>, i: nat)
    requires i < |params|
    ensures params[i].address in C.Addresses(params)
  {
  }

  /** `get_param_state` over a `Parameter_set`: the declared addresses and no
      others, each at the value the set reports. */
  method GetParamState(parameterSet: ParameterSet, params: seq<C.ParameterInfo>) returns (ret: map<uint64, real>)
    ensures ret.Keys == C.Addresses(params)
    ensures forall a | a in ret :: ret[a] == parameterSet.GetParameter(a)
  {
    ret := map[];
    for i := 0 to |params|
      invariant ret.Keys == C.Addresses(params[..i])
      invariant forall a | a in ret :: ret[a] == parameterSet.GetParameter(a)
    {
      assert params[..i + 1][..i] == params[..i];
      AddressesSnoc(params[..i + 1]);
      ret := ret[params[i].address := parameterSet.GetParameter(params[i].address)];
    }
    assert params[..|params|] == params;
  }

  /** `get_param_state` over a `UI_parameter_set`: the same state, read from
      the UI's set, which is not changed. */
  method UIGetParamState(parameterSet: UIParameterSet, params: seq<C.ParameterInfo>) returns (ret: map<uint64, real>)
    ensures ret.Keys == C.Addresses(params)
    ensures forall a | a in ret :: ret[a] == parameterSet.GetParameter(a)
  {
    ret := map[];
    for i := 0 to |params|
      invariant ret.Keys == C.Addresses(params[..i])
      invariant forall a | a in ret :: ret[a] == parameterSet.GetParameter(a)
    {
      assert params[..i + 1][..i] == params[..i];
      AddressesSnoc(params[..i + 1]);
      ret := ret[params[i].address := parameterSet.GetParameter(params[i].address)];
    }
    assert params[..|params|] == params;
  }

  /** The state restricted to the declared addresses: what `set_param_state`
      leaves in the set. */
  function Declared(state: map<uint64, real>, params: seq<C.ParameterInfo>): (r: map<uint64, real>)
    requires C.Addresses(params) <= state.Keys
    ensures r.Keys == C.Addresses(params)
    ensures forall a | a in r :: r[a] == state[a]
  {
    map a | a in C.Addresses(params) :: state[a]
  }

  /** Writing entry `i` extends the declared part of the state by its
      address. */
  lemma DeclaredSnoc(values0: map<uint64, real>, state: map<uint64, real>, params: seq<C.ParameterInfo>, i: nat)
    requires i < |params| && C.Addresses(params) <= state.Keys
    ensures C.Addresses(params[..i]) <= state.Keys && C.Addresses(params[..i + 1]) <= state.Keys
    ensures values0 + Declared(state, params[..i + 1])
         == (values0 + Declared(state, params[..i]))[params[i].address := state[params[i].address]]
  {
    assert params[..i + 1][..i] == params[..i];
    AddressesSnoc(params[..i + 1]);
    AddressOf(params, i);
    forall a | a in C.Addresses(params[..i + 1]) ensures a in C.Addresses(params) {
      var j :| 0 <= j < i + 1 && params[..i + 1][j].address == a;
      AddressOf(params, j);
    }
  }

  /** The `set_parameter` calls that writing a state over the declarations
      makes: one per declaration, in order, with the state's value at its
      address. */
  function Writes(state: map<uint64, real>, params: seq<C.ParameterInfo>): (w: seq<(uint64, real)>)
    requires C.Addresses(params) <= state.Keys
    ensures |w| == |params|
    ensures forall i | 0 <= i < |params| :: w[i] == (params[i].address, state[params[i].address])
    decreases |params|
  {
    if params == [] then []
    else
      var front := params[..|params| - 1];
      var last := params[|params| - 1];
      AddressesSnoc(params);
      Writes(state, front) + [(last.address, state[last.address])]
  }

  /** `set_param_state`: one `set_parameter` call per declaration, in
      declaration order, with the state's value at its address (`state.at`
      fails on a missing one); afterwards the set reports the state at every
      declared address and is unchanged elsewhere. */
  method SetParamState(parameterSet: ParameterSet, state: map<uint64, real>, params: seq<C.ParameterInfo>)
    requires C.Addresses(params) <= state.Keys
    modifies parameterSet
    ensures parameterSet.writes == old(parameterSet.writes) + Writes(state, params)
    ensures parameterSet.values == old(parameterSet.values) + Declared(state, params)
  {
    ghost var writes0 := parameterSet.writes;
    ghost var values0 := parameterSet.values;
    for i := 0 to |params|
      invariant C.Addresses(params[..i]) <= state.Keys
      invariant parameterSet.writes == writes0 + Writes(state, params[..i])
      invariant parameterSet.values == values0 + Declared(state, params[..i])
    {
      AddressOf(params, i);
      DeclaredSnoc(values0, state, params, i);
      assert params[..i + 1][..i] == params[..i];
      ConcatAssoc(writes0, Writes(state, params[..i]), [(params[i].address, state[params[i].address])]);
      parameterSet.SetParameter(params[i].address, state[params[i].address]);
    }
    assert params[..|params|] == params;
  }

  /** `apply_defaults`: the defaults written into the set in declaration
      order, after which the set reports the default state at every
      declared address. */
  method ApplyDefaults(parameterSet: ParameterSet, params: seq<C.ParameterInfo>)
    modifies parameterSet
    ensures parameterSet.writes == old(parameterSet.writes) + Writes(DefaultState(params), params)
    ensures parameterSet.values == old(parameterSet.values) + DefaultState(params)
    ensures forall a | a in C.Addresses(params) :: parameterSet.GetParameter(a) == DefaultState(params)[a]
  {
    var defaults := GetDefaultState(params);
    DeclaredWhole(defaults, params);
    SetParamState(parameterSet, defaults, params);
  }

  /** A state with exactly the declared addresses is its own declared part. */
  lemma DeclaredWhole(state: map<uint64, real>, params: seq<C.ParameterInfo>)
    requires state.Keys == C.Addresses(params)
    ensures Declared(state, params) == state
  {
  }

  /** Reading the state back after `apply_defaults` gives `get_default_state`. */
  method DefaultsReadBack(parameterSet: ParameterSet, params: seq<C.ParameterInfo>) returns (state: map<uint64, real>)
    modifies parameterSet
    ensures state == DefaultState(params)
  {
    ApplyDefaults(parameterSet, params);
    state := GetParamState(parameterSet, params);
  }
}
