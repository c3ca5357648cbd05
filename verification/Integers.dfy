/** Go's 64-bit integers, and subtraction that stops at zero. */
module Integers {

  const TWO_TO_64: nat := 0x1_0000_0000_0000_0000

  predicate InInt64(i: int) {
    -(TWO_TO_64 / 2) <= i < TWO_TO_64 / 2
  }

  function Minus(a: nat, b: nat): nat {
    if a <= b then 0 else a - b
  }
}
