/** Fixed-width unsigned integers of the program, as subset types, the casts that narrow to them, and the signed
    reading of a word. */
module Widths {

  type u8 = x: int | 0 <= x < 0x100
  type u16 = x: int | 0 <= x < 0x1_0000
  type u32 = x: int | 0 <= x < 0x1_0000_0000
  type u64 = x: int | 0 <= x < 0x1_0000_0000_0000_0000

  function ToU8(x: int): u8 { x % 0x100 }
  function ToU16(x: int): u16 { x % 0x1_0000 }
  function ToU32(x: int): u32 { x % 0x1_0000_0000 }
  function ToS32(x: u32): int { if x < 0x8000_0000 then x else x - 0x1_0000_0000 }
}
