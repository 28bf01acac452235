/** Integer widths of the XC8 target the driver is compiled for: plain `char`
    is an unsigned 8-bit byte and `int` is 16 bits wide.  Every `int` the
    driver computes with is modelled by its 16-bit pattern, so a value the C
    code would hold as a negative `int` appears here as its two's-complement
    pattern in 0 .. 0xFFFF. */
module Xc8 {

  /** An unsigned `char`. */
  type u8 = x: int | 0 <= x < 0x100

  /** The 16-bit pattern of an `int` (or `unsigned int`). */
  type u16 = x: int | 0 <= x < 0x1_0000

  /** `(char)(w >> 8)`: the high byte of a 16-bit pattern (the sign bits an
      arithmetic shift brings in are cut off by the cast). */
  function HighByte(w: u16): (r: u8)
    ensures r * 0x100 <= w < (r + 1) * 0x100
  {
    w / 0x100
  }

  /** `(char)w`: the low byte of a 16-bit pattern. */
  function LowByte(w: u16): (r: u8)
    ensures (w - r) % 0x100 == 0
  {
    w % 0x100
  }

  /** `(hi << 8) + lo` on 16-bit `int`s: the big-endian pair of bytes as a word. */
  function BigEndian(hi: u8, lo: u8): u16
  {
    hi * 0x100 + lo
  }

  /** Splitting a word into its bytes and joining them again gives the word back. */
  lemma BigEndianOfBytes(w: u16)
    ensures BigEndian(HighByte(w), LowByte(w)) == w
  {
  }

  /** Two byte pairs make the same word only if they are the same pair. */
  lemma BigEndianInjective(h1: u8, l1: u8, h2: u8, l2: u8)
    requires BigEndian(h1, l1) == BigEndian(h2, l2)
    ensures h1 == h2 && l1 == l2
  {
  }
}
