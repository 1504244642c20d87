/** Failure-carrying values and the machine-integer bounds shared by the other modules. */
module Wrappers {
  datatype Option<+T> = None | Some(value: T)

  datatype Result<+T, +E> = Ok(value: T) | Err(error: E)

  const U32_MAX: nat := 0xFFFF_FFFF
  const U64_MAX: nat := 0xFFFF_FFFF_FFFF_FFFF

  type u32 = x: nat | x <= U32_MAX
  type u64 = x: nat | x <= U64_MAX

  /** Rust's `saturating_add(1)` on an unsigned integer whose largest value is `max`. */
  function SaturatingInc(x: nat, max: nat): (r: nat)
    requires x <= max
    ensures r <= max
    ensures x < max ==> r == x + 1
  {
    if x == max then max else x + 1
  }

  /** Rust's `saturating_sub(1)` on an unsigned integer. */
  function SaturatingDec(x: nat): (r: nat)
    ensures 0 < x ==> r == x - 1
  {
    if x == 0 then 0 else x - 1
  }

  /** A 64-bit unsigned integer wraps around. */
  function Wrap64(x: nat): (r: nat)
    ensures r <= U64_MAX
    ensures x <= U64_MAX ==> r == x
  {
    x % 0x1_0000_0000_0000_0000
  }

  lemma WrapAdd(x: nat, y: nat)
    ensures Wrap64(Wrap64(x) + y) == Wrap64(x + y)
  {
  }

  lemma WrapUp(counter: nat, n: nat, x: nat)
    requires counter == Wrap64(n)
    ensures Wrap64(counter + x) == Wrap64(n + x)
  {
    WrapAdd(n, x);
  }
}
