/** Integer `min`, `max` and `abs`, shared by the Java and the Python models. */
module Ints {
  function Min(a: int, b: int): int { if a <= b then a else b }

  function Max(a: int, b: int): int { if a >= b then a else b }

  function Abs(x: int): nat { if x < 0 then -x else x }
}
