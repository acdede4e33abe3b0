/** Results, JavaScript's safe integers and strings of UTF-16 code units. */
module Foundations {
  datatype Option<+T> = None | Some(value: T)

  datatype Result<+T, +E> = Ok(value: T) | Err(error: E)

  /** A UTF-16 code unit, and the strings JavaScript builds from them. */
  type Unit = x: int | 0 <= x < 0x1_0000
  type Text = seq<Unit>

  const MAX_SAFE_INTEGER: int := 9_007_199_254_740_991

  predicate IsSafe(n: int) {
    -MAX_SAFE_INTEGER <= n <= MAX_SAFE_INTEGER
  }

  function Min(a: int, b: int): int { if a <= b then a else b }
  function Max(a: int, b: int): int { if a <= b then b else a }
}
