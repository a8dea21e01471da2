/**
 The integers that a JavaScript number holds exactly.
 */
module SafeIntegers {
  const MAX_SAFE_INTEGER: int := 0x1F_FFFF_FFFF_FFFF

  predicate IsSafe(n: int) {
    -MAX_SAFE_INTEGER <= n <= MAX_SAFE_INTEGER
  }
}
