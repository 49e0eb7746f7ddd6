/** The widths of the machine's integers, and two functions on numbers. */
module Integers {
  const U32 := 0x1_0000_0000
  const U64 := 0x1_0000_0000_0000_0000

  function Min(a: nat, b: nat): nat {
    if a < b then a else b
  }

  predicate InRange(p: nat, from: nat, to: nat) {
    from <= p < to
  }
}
