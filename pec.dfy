/** The packet error code (PEC) of `pec15_calc`: a table-driven CRC-15 over
    a byte sequence.  The remainder starts at 16; every byte picks a table
    entry with `((remainder >> 7) ^ byte) & 0xff` and the remainder becomes
    `(remainder << 8) ^ crc15Table[addr]`, cut to the 16 bits of an XC8
    `int`.  The code returned is the remainder doubled, again in 16 bits, so
    its low bit is always clear. */
module Pec {
  import opened Xc8
  import opened Ltc6804Header

  /** The initial remainder. */
  const PecSeed: bv16 := 16

  /** One turn of the loop of `pec15_calc` on the byte `b`.  The arithmetic
      shift `remainder >> 7` of the C code may bring sign bits into bit 9 and
      above, which the mask `& 0xff` removes, so a logical shift is the same. */
  function PecStep(remainder: bv16, b: u8): bv16
  {
    var addr := ((remainder >> 7) ^ (b as bv16)) & 0xff;
    (remainder << 8) ^ Crc15Table(addr as bv8)
  }

  /** The remainder reached from `remainder` after the bytes of `data`, taken
      first to last. */
  function PecContinue(remainder: bv16, data: seq<u8>): bv16
  {
    if |data| == 0 then remainder
    else PecStep(PecContinue(remainder, data[..|data| - 1]), data[|data| - 1])
  }

  /** The remainder `pec15_calc` holds after the bytes of `data`. */
  function PecRemainder(data: seq<u8>): bv16
  {
    PecContinue(PecSeed, data)
  }

  /** `remainder * 2` as the 16-bit `int` the function returns. */
  function PecOfRemainder(remainder: bv16): (pec: u16)
    ensures pec % 2 == 0
  {
    (remainder << 1) as int
  }

  /** The PEC of a byte sequence. */
  function Pec15(data: seq<u8>): u16
  {
    PecOfRemainder(PecRemainder(data))
  }

  /** Every PEC has its low bit clear. */
  lemma Pec15IsEven(data: seq<u8>)
    ensures Pec15(data) % 2 == 0
  {
  }

  /** The remainder after `a` followed by `b` is the remainder after `a`,
      carried on over `b`: the bytes are processed strictly in order, and a
      PEC can be computed over a message delivered in pieces. */
  lemma {:induction false} PecContinueAppend(remainder: bv16, a: seq<u8>, b: seq<u8>)
    ensures PecContinue(remainder, a + b) == PecContinue(PecContinue(remainder, a), b)
    decreases |b|
  {
    if |b| == 0 {
      assert a + b == a;
    } else {
      var front, last := b[..|b| - 1], b[|b| - 1];
      assert b == front + [last];
      assert a + b == (a + front) + [last];
      PecContinueAppend(remainder, a, front);
      PecContinueSnoc(remainder, a + front, last);
      PecContinueSnoc(PecContinue(remainder, a), front, last);
    }
  }

  /** Carrying on over one more byte is one more step. */
  lemma PecContinueSnoc(remainder: bv16, s: seq<u8>, b: u8)
    ensures PecContinue(remainder, s + [b]) == PecStep(PecContinue(remainder, s), b)
  {
    assert (s + [b])[..|s|] == s;
  }

  /** `pec15_calc(len, &data[start])`: the PEC of the `len` bytes of `data`
      from index `start` on. */
  method Pec15Calc(len: u8, data: array<u8>, start: nat) returns (pec: u16)
    requires start + len <= data.Length
    ensures pec == Pec15(data[start..start + len])
  {
    var remainder: bv16 := PecSeed;
    var i := 0;
    while i < len
      invariant 0 <= i <= len
      invariant remainder == PecRemainder(data[start..start + i])
    {
      remainder := PecStep(remainder, data[start + i]);
      assert data[start..start + i + 1][..i] == data[start..start + i];
      i := i + 1;
    }
    pec := PecOfRemainder(remainder);
  }

  /** The PEC hard-coded into the WRCFG command frame (`00 01 3D 6E`). */
  lemma WrcfgCommandPec()
    ensures Pec15([0x00, 0x01]) == 0x3D6E
  {
    assert [0x00, 0x01][..1] == [0x00 as u8];
    assert [0x00 as u8][..0] == [];
  }

  /** The PEC hard-coded into the RDCFG command frame (`00 02 2B 0A`). */
  lemma RdcfgCommandPec()
    ensures Pec15([0x00, 0x02]) == 0x2B0A
  {
    assert [0x00, 0x02][..1] == [0x00 as u8];
    assert [0x00 as u8][..0] == [];
  }

  /** The PEC of the ADCV opcode left by `LTC6804_initialize`. */
  lemma InitialAdcvPec()
    ensures Pec15([0x03, 0x60]) == 0xF46C
  {
    assert [0x03, 0x60][..1] == [0x03 as u8];
    assert [0x03 as u8][..0] == [];
  }

  /** The PEC of the ADAX opcode left by `LTC6804_initialize`. */
  lemma InitialAdaxPec()
    ensures Pec15([0x05, 0x60]) == 0xD3A0
  {
    assert [0x05, 0x60][..1] == [0x05 as u8];
    assert [0x05 as u8][..0] == [];
  }

  /** The PEC of the CLRCELL opcode. */
  lemma ClrcellCommandPec()
    ensures Pec15([0x07, 0x11]) == 0xC9C0
  {
    assert [0x07, 0x11][..1] == [0x07 as u8];
    assert [0x07 as u8][..0] == [];
  }

  /** The PEC of the CLRAUX opcode. */
  lemma ClrauxCommandPec()
    ensures Pec15([0x07, 0x12]) == 0xDFA4
  {
    assert [0x07, 0x12][..1] == [0x07 as u8];
    assert [0x07 as u8][..0] == [];
  }

  /** The PEC notices a single flipped bit: `00 00` and `00 01` differ in
      bit 0 of their last byte, and their PECs differ. */
  lemma SingleBitFlipChangesPec()
    ensures Pec15([0x00, 0x00]) == 0xB65C && Pec15([0x00, 0x00]) != Pec15([0x00, 0x01])
  {
    ZeroWordPec();
    WrcfgCommandPec();
  }

  /** The PEC of `00 00`. */
  lemma ZeroWordPec()
    ensures Pec15([0x00, 0x00]) == 0xB65C
  {
    assert [0x00, 0x00][..1] == [0x00 as u8];
    assert [0x00 as u8][..0] == [];
  }

  /** The PEC of an all-zero six-byte payload, one prefix at a time. */
  lemma ZeroPayloadPec()
    ensures Pec15([0, 0, 0, 0, 0, 0]) == 0xC212
  {
    var p1: seq<u8> := [0];
    assert p1[..0] == [];
    assert PecRemainder(p1) == 0x1000;
    var p2: seq<u8> := [0, 0];
    assert p2[..1] == p1;
    assert PecRemainder(p2) == 0x5B2E;
    var p3: seq<u8> := [0, 0, 0];
    assert p3[..2] == p2;
    assert PecRemainder(p3) == 0x6CCE;
    var p4: seq<u8> := [0, 0, 0, 0];
    assert p4[..3] == p3;
    assert PecRemainder(p4) == 0x03DF;
    var p5: seq<u8> := [0, 0, 0, 0, 0];
    assert p5[..4] == p4;
    assert PecRemainder(p5) == 0x0CFD;
    var p6: seq<u8> := [0, 0, 0, 0, 0, 0];
    assert p6[..5] == p5;
    assert PecRemainder(p6) == 0x6109;
  }

  /** The PEC of the all-zero payload with bit 0 of its first byte set. */
  lemma FlippedPayloadPec()
    ensures Pec15([1, 0, 0, 0, 0, 0]) == 0xFE4A
  {
    var p1: seq<u8> := [1];
    assert p1[..0] == [];
    assert PecRemainder(p1) == 0xD599;
    var p2: seq<u8> := [1, 0];
    assert p2[..1] == p1;
    assert PecRemainder(p2) == 0x9F08;
    var p3: seq<u8> := [1, 0, 0];
    assert p3[..2] == p2;
    assert PecRemainder(p3) == 0x1CDA;
    var p4: seq<u8> := [1, 0, 0, 0];
    assert p4[..3] == p3;
    assert PecRemainder(p4) == 0x1D27;
    var p5: seq<u8> := [1, 0, 0, 0, 0];
    assert p5[..4] == p4;
    assert PecRemainder(p5) == 0xEB15;
    var p6: seq<u8> := [1, 0, 0, 0, 0, 0];
    assert p6[..5] == p5;
    assert PecRemainder(p6) == 0xFF25;
  }
}
