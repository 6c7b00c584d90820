/** Definitions shared by all components. */
module Base {

  datatype Option<+T> = None | Some(value: T)

  /** One more than the largest `uint64`. */
  const U64: int := 0x1_0000_0000_0000_0000

  /** The largest `int64`. */
  const MAX_INT64: int := 0x7FFF_FFFF_FFFF_FFFF

  /** The `uint64` value of a sum of two `uint64` values. */
  function Wrap(n: nat): nat {
    if n < U64 then n else n - U64
  }

  function Min(a: nat, b: nat): nat {
    if a <= b then a else b
  }

  lemma Assoc<T>(a: seq<T>, b: seq<T>, c: seq<T>)
    ensures (a + b) + c == a + (b + c)
  {
  }

  lemma Cancel<T>(x: T, a: multiset<T>, b: multiset<T>)
    requires multiset{x} + a == multiset{x} + b
    ensures a == b
  {
    assert a == (multiset{x} + a) - multiset{x};
    assert b == (multiset{x} + b) - multiset{x};
  }
}
