/** The smaller and the larger of two integers. */
module Numbers {
  function MinInt(x: int, y: int): int {
    if x < y then x else y
  }

  function MaxInt(x: int, y: int): int {
    if x < y then y else x
  }
}
