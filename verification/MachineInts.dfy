/** The limits of the C integer types. */
module MachineInts {
  const INT_MIN: int := -0x8000_0000
  const INT_MAX: int := 0x7fff_ffff
  const UINT_MAX: int := 0xffff_ffff
  const USHORT_MAX: int := 0xffff
  const U32: nat := 0x1_0000_0000
  const U64: nat := 0x1_0000_0000_0000_0000
}
