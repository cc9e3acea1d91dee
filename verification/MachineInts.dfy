/**
 The fixed-width integer types of the C sources.

 The verifier checks every arithmetic operation on these types against the
 type's range, so code written over them is proved free of overflow.
 Where the C code wraps on purpose, the models write the wrap out.
 */
module MachineInts {

  const TWO_32: nat := 0x1_0000_0000
  const TWO_64: nat := 0x1_0000_0000_0000_0000

  newtype i32 = x: int | -0x8000_0000 <= x < 0x8000_0000
  newtype i64 = x: int | -0x8000_0000_0000_0000 <= x < 0x8000_0000_0000_0000
  newtype u32 = x: int | 0 <= x < 0x1_0000_0000
  newtype u64 = x: int | 0 <= x < 0x1_0000_0000_0000_0000

  newtype byte = x: int | 0 <= x < 0x100
}
