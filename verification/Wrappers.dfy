// Option and Result, and the bounds of the machine integers the node computes with.
module Wrappers {

  datatype Option<+T> = None | Some(value: T)

  datatype Result<+T, +E> = Ok(value: T) | Err(error: E)

  datatype Unit = Unit

  const U64_MAX: nat := 0xFFFF_FFFF_FFFF_FFFF
  const U128_MAX: nat := 0xFFFF_FFFF_FFFF_FFFF_FFFF_FFFF_FFFF_FFFF
  const U256_MAX: nat :=
    0xFFFF_FFFF_FFFF_FFFF_FFFF_FFFF_FFFF_FFFF_FFFF_FFFF_FFFF_FFFF_FFFF_FFFF_FFFF_FFFF

  // Addition as a release build performs it on an unsigned integer with the given maximum.
  function WrappingAdd(a: nat, b: nat, max: nat): (r: nat)
    ensures r <= max
    ensures a + b <= max ==> r == a + b
  {
    (a + b) % (max + 1)
  }
}
