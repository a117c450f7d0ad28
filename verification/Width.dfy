/** Machine words of the 32-bit core and its kernel. */
module Width {

  const TWO_32: int := 0x1_0000_0000
  const TWO_64: int := 0x1_0000_0000_0000_0000

  type Byte = x: int | 0 <= x < 256
  type Word = x: int | 0 <= x < 0x1_0000_0000
  type Dword = x: int | 0 <= x < 0x1_0000_0000_0000_0000
}
