/** Go's strings.HasSuffix and its 64-bit integers. */
module GoValues {
  predicate HasSuffix(s: string, suffix: string) {
    |suffix| <= |s| && s[|s| - |suffix|..] == suffix
  }

  const INT64_LIMIT: int := 0x8000_0000_0000_0000

  /** The signed 64-bit value of an integer. */
  function Wrap64(x: int): int {
    (x + INT64_LIMIT) % (2 * INT64_LIMIT) - INT64_LIMIT
  }
}
