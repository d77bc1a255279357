/** Declarations shared by the other modules. */
module Prelude {

  datatype Option<+T> = None | Some(value: T)

  predicate Distinct<T(==)>(s: seq<T>) {
    forall i, j :: 0 <= i < j < |s| ==> s[i] != s[j]
  }

  function Min(a: int, b: int): int { if a <= b then a else b }

  function Max(a: int, b: int): int { if a <= b then b else a }

  type Byte = x: int | 0 <= x < 256

  // The number of values of a uint32.
  const WORD: nat := 0x1_0000_0000

  // Durations and instants are whole nanoseconds, as in Go's time package.
  const MILLISECOND: int := 1_000_000
  const SECOND: int := 1_000_000_000
  const MINUTE: int := 60_000_000_000
  const HOUR: int := 3_600_000_000_000
}
