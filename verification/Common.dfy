/** Shared by all modules: optional values, the widths of 64-bit integers, and the slots of a cluster. */
module Common {
  datatype Option<+T> = None | Some(value: T)

  const INT64_MAX := 0x7fff_ffff_ffff_ffff
  const INT64_MIN := -0x8000_0000_0000_0000
  const UINT64 := 0x1_0000_0000_0000_0000

  const SLOTS := 16384
}
