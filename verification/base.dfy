/** Small shared vocabulary: an optional value and Go's `int64` range. */
module Base {

  /** A value that may be absent (Go's nil pointer, a failed parse). */
  datatype Option<+T> = None | Some(value: T)

  const Int64Min: int := -0x8000_0000_0000_0000
  const Int64Max: int := 0x7FFF_FFFF_FFFF_FFFF

  /** Go's `int64`, as used by the preference arrays (`pq.Int64Array`). */
  type Int64 = x: int | Int64Min <= x <= Int64Max
}
