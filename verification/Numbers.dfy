/** Small arithmetic that several parts use. */
module Numbers {

  function Abs(x: int): nat { if x < 0 then -x else x }
  function Min(x: int, y: int): int { if x < y then x else y }
  function Max(x: int, y: int): int { if x > y then x else y }

  /** Division that drops the fraction, for a positive divisor. */
  function Quot(a: int, b: int): int
    requires b > 0
  {
    if a >= 0 then a / b else -(-a / b)
  }
}
