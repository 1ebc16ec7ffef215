/** The parameters of the reference effect kernel
    (create/template/rust/kernel/src/params.rs): a bypass switch and a gain. */
module TemplateParams {
  import opened Common
  import opened KernelTypes

  datatype Param = Bypass | Gain

  /** `Param::X as u64`: the declaration order. */
  function Address(p: Param): uint64 {
    match p
    case Bypass => 0
    case Gain => 1
  }

  /** `params()`: every parameter sits at the position its address names,
      the enum's declaration order. */
  function Params(): (ps: seq<Info>)
    ensures |ps| == 2
    ensures forall i | 0 <= i < |ps| :: ps[i].address == i as uint64
  {
    var flags := Flags(true, true, Logarithmic);
    [ Info("bypass", Address(Bypass), "Bypass", Numeric(0.0, 1.0, Generic, 0.0), Flags(true, true, Linear), []),
      Info("gain", Address(Gain), "Gain", Numeric(0.0, 1.0, Generic, 0.1), flags, []) ]
  }

  /** The declaration of `p` in the table. */
  function InfoOf(p: Param): (info: Info)
    ensures info in Params() && info.address == Address(p)
  {
    match p
    case Bypass => Params()[0]
    case Gain => Params()[1]
  }

  /** The table declares exactly the two parameters, each once, under
      distinct ids and at distinct addresses. */
  lemma ParamsAreTheEnum()
    ensures |Params()| == 2 && DistinctAddresses(Params())
    ensures Params()[0].id != Params()[1].id
    ensures Addresses(Params()) == {Address(Bypass), Address(Gain)}
    ensures forall info | info in Params() :: exists p :: info == InfoOf(p)
  {
    assert Addresses(Params()) == {Params()[0].address, Params()[1].address};
    assert Params()[0] == InfoOf(Bypass) && Params()[1] == InfoOf(Gain);
    forall info | info in Params() ensures exists p :: info == InfoOf(p) {
      if info == Params()[0] {
        assert info == InfoOf(Bypass);
      } else {
        assert info == InfoOf(Gain);
      }
    }
  }

  /** Both are numeric in `[0, 1]` with the generic unit, readable and
      writable, without dependents, and start inside their range; bypass
      is shown linearly and starts off, gain logarithmically at 0.1. */
  lemma ParamsDeclarations()
    ensures forall info | info in Params() ::
      info.details.Numeric? && info.details.min == 0.0 && info.details.max == 1.0 &&
      info.details.unit == Generic &&
      info.details.min <= info.details.defaultValue <= info.details.max &&
      info.flags.readable && info.flags.writable && info.dependentParameters == []
    ensures InfoOf(Bypass).flags.scale == Linear && DefaultOf(InfoOf(Bypass)) == 0.0
    ensures InfoOf(Gain).flags.scale == Logarithmic && DefaultOf(InfoOf(Gain)) == 0.1
  {
  }
}
