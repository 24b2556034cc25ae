/** Types and arithmetic the other modules share. */
module Basics {

  newtype u8 = x: int | 0 <= x < 256

  /** A Rust string or byte vector, as the bytes it holds. */
  type Text = seq<u8>

  datatype Option<+T> = None | Some(value: T)

  datatype Result<+T, +E> = Ok(value: T) | Err(error: E)

  /** The result of an operation that hands nothing back but a refusal. */
  datatype Outcome<+E> = Pass | Fail(error: E)

  const U64_MAX: nat := 0xFFFF_FFFF_FFFF_FFFF

  /** The value a saturating `u64` holds for the exact amount `n`. */
  function Sat(n: nat): nat {
    if n > U64_MAX then U64_MAX else n
  }

  /** `u64::saturating_add`. */
  function SatAdd(a: nat, b: nat): nat {
    if a + b > U64_MAX then U64_MAX else a + b
  }

  /** Saturating along the way is saturating at the end. */
  lemma SatStep(a: nat, b: nat, sum: nat)
    requires sum == a + b
    ensures SatAdd(Sat(a), b) == SatAdd(a, Sat(b)) == SatAdd(Sat(a), Sat(b)) == Sat(sum)
  {
  }

  lemma SatNested(a: nat, b: nat, c: nat, sum: nat)
    requires sum == a + b + c
    ensures SatAdd(Sat(a), SatAdd(Sat(b), c)) == Sat(sum)
  {
  }
}
