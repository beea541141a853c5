/** Vocabulary shared by the models: optional values and Go's fixed-width integers. */
module Prelude {

  datatype Option<+T> = None | Some(value: T)

  const INT32_MAX := 0x7fff_ffff
  const INT64_MAX := 0x7fff_ffff_ffff_ffff

  type int32 = i: int | -0x8000_0000 <= i < 0x8000_0000
  type int64 = i: int | -0x8000_0000_0000_0000 <= i < 0x8000_0000_0000_0000

  /** Go's `i++` on an int32: wraps around. */
  function Inc32(i: int32): int32 {
    if i == INT32_MAX then -0x8000_0000 else i + 1
  }

  /** Go's `i++` on an int64: wraps around. */
  function Inc64(i: int64): int64 {
    if i == INT64_MAX then -0x8000_0000_0000_0000 else i + 1
  }
}
