/** Shared vocabulary: an optional value, the fixed-width integer types the
    source's records use, and the least element of a finite set (the order in
    which an ordered map or a bit set is walked). */
module Common {

  datatype Option<T> = None | Some(value: T)

  type uint8 = x: int | 0 <= x < 0x100
  type uint16 = x: int | 0 <= x < 0x1_0000
  type uint32 = x: int | 0 <= x < 0x1_0000_0000
  type uint64 = x: int | 0 <= x < 0x1_0000_0000_0000_0000
  type int32 = x: int | -0x8000_0000 <= x < 0x8000_0000
  type int64 = x: int | -0x8000_0000_0000_0000 <= x < 0x8000_0000_0000_0000

  const UINT64_MODULUS: int := 0x1_0000_0000_0000_0000

  /** `m` is the least element of `s`. */
  predicate IsLeast(m: int, s: set<int>) {
    m in s && forall x :: x in s ==> m <= x
  }

  lemma NonEmptyHasElement(s: set<int>)
    requires s != {}
    ensures exists y :: y in s
  {
    if forall y :: y !in s {
      assert false;
    }
  }

  /** Some element of a non-empty set. */
  ghost function PickFrom(s: set<int>): (x: int)
    requires s != {}
    ensures x in s
  {
    NonEmptyHasElement(s);
    var y :| y in s; y
  }

  /** Every non-empty finite set of integers has a least element. */
  lemma {:induction false} LeastExists(s: set<int>)
    requires s != {}
    ensures exists m :: IsLeast(m, s)
  {
    var x := PickFrom(s);
    if s == {x} {
      assert IsLeast(x, s);
    } else {
      var rest := s - {x};
      LeastExists(rest);
      var m :| IsLeast(m, rest);
      var least := if x < m then x else m;
      forall y | y in s ensures least <= y {
        if y != x {
          assert y in rest;
        }
      }
      assert IsLeast(least, s);
    }
  }

  /** The least element of a non-empty finite set. */
  ghost function Least(s: set<int>): (m: int)
    requires s != {}
    ensures IsLeast(m, s)
  {
    LeastExists(s);
    var m :| IsLeast(m, s); m
  }

  /** The least element is unique. */
  lemma LeastUnique(m: int, s: set<int>)
    requires IsLeast(m, s)
    ensures m == Least(s)
  {
  }

  /** Concatenation regroups. */
  lemma ConcatAssoc<T>(a: seq<T>, b: seq<T>, c: seq<T>)
    ensures a + (b + c) == (a + b) + c
  {
  }

  /** The key an ordered-map walk over the keys `s` visits first: the
      least. */
  ghost function First(s: set<uint64>): (m: uint64)
    requires s != {}
    ensures IsLeast(m, s)
  {
    Least(s) as uint64
  }

  /** The next key an ordered-map walk visits. */
  method TakeLeast(s: set<uint64>) returns (m: uint64)
    requires s != {}
    ensures m == First(s)
  {
    LeastExists(s);
    m :| m in s && IsLeast(m, s);
    LeastUnique(m, s);
  }
}
