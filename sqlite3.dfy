/** Symbols from sqlite3.h that the adapter compares against, and the C
    integer types that cross the cgo boundary. */
module Sqlite3 {

  /** C `int`: status codes, type tags, positions and byte lengths. */
  newtype int32 = x: int | -0x8000_0000 <= x < 0x8000_0000

  /** `sqlite3_int64` and Go's `int64`. */
  newtype int64 = x: int | -0x8000_0000_0000_0000 <= x < 0x8000_0000_0000_0000

  newtype byte = x: int | 0 <= x < 0x100

  // Result codes.
  const OK: int32 := 0
  const MISUSE: int32 := 21
  const RANGE: int32 := 25
  const ROW: int32 := 100
  const DONE: int32 := 101

  // Fundamental datatypes (storage classes) reported by sqlite3_column_type.
  const INTEGER: int32 := 1
  const FLOAT: int32 := 2
  const TEXT: int32 := 3
  const BLOB: int32 := 4
  const NULL: int32 := 5

  const MaxCInt: int := 0x7fff_ffff

  /** The Go conversion `C.int(n)` of a length: keeps the low 32 bits as a
      two's-complement value, so it is exact only below 2^31. */
  function CInt(n: int): (r: int32)
    ensures 0 <= n <= MaxCInt ==> r as int == n
    ensures (r as int - n) % 0x1_0000_0000 == 0
  {
    ((n + 0x8000_0000) % 0x1_0000_0000 - 0x8000_0000) as int32
  }
}
