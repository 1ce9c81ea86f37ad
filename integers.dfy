/** Integer maximum and minimum, shared by the counter components. */
module Integers {
  function Max(a: int, b: int): int { if a >= b then a else b }

  function Min(a: int, b: int): int { if a <= b then a else b }
}
