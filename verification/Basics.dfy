/** Shared vocabulary: optional values, and what every module says about numbers. */
module Basics {

  /** A column that may be NULL, or a reply that may carry no value. */
  datatype Option<+T> = None | Some(value: T)

  function Max(a: int, b: int): int {
    if a < b then b else a
  }

  function Pow2(n: nat): nat {
    if n == 0 then 1 else 2 * Pow2(n - 1)
  }
}
