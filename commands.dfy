/** The command frames the driver sends.  Every LTC6804 command is a
    two-byte opcode (CMD[0] holds bits 15 to 8 of the command code, CMD[1]
    bits 7 to 0) followed by the high and low byte of the PEC of those two
    bytes.  The conversion opcodes ADCV and ADAX are packed by `set_adc` from
    the mode, discharge-permit and channel selectors; the read, clear and
    configuration opcodes are fixed. */
module Commands {
  import opened Xc8
  import opened Ltc6804Header
  import opened Pec

  /** The 16-bit command code an opcode pair stands for. */
  function CommandWord(op: seq<u8>): u16
    requires |op| == 2
  {
    BigEndian(op[0], op[1])
  }

  /** `ADCV` as `set_adc` leaves it: `(MD & 0x02) >> 1` plus 2, then
      `(MD & 0x01) << 7` plus 0x60 plus `DCP << 4` plus `CH`, cut to the
      unsigned `char` the array holds.  On non-negative values `x & 1` is
      `x % 2` and `(x & 2) >> 1` is `(x / 2) % 2`. */
  function AdcvOpcode(md: u8, dcp: u8, ch: u8): (op: seq<u8>)
    ensures |op| == 2
  {
    [(md / 2) % 2 + 0x02, ((md % 2) * 0x80 + 0x60 + dcp * 0x10 + ch) % 0x100]
  }

  /** `ADAX` as `set_adc` leaves it: the same mode bits over base 0x04 and
      0x60 plus `CHG`.  The discharge permit takes no part. */
  function AdaxOpcode(md: u8, chg: u8): (op: seq<u8>)
    ensures |op| == 2
  {
    [(md / 2) % 2 + 0x04, ((md % 2) * 0x80 + 0x60 + chg) % 0x100]
  }

  /** The bit operations `set_adc` applies to MD: `(MD & 0x02) >> 1` is bit
      1 of MD and `(MD & 0x01) << 7` is bit 0 moved to bit 7. */
  lemma ModeBits(md: u8)
    ensures (((md as bv8) & 0x02) >> 1) as int == (md / 2) % 2
    ensures (((md as bv8) & 0x01) << 7) as int == (md % 2) * 0x80
  {
  }

  /** A command code `hi * 0x200 + md * 0x80 + low`, with `md` two bits
      wide and `low` below bit 7, gives its fields back. */
  lemma WordFields(w: int, hi: nat, md: nat, low: nat)
    requires md < 4 && low < 0x80 && w == hi * 0x200 + md * 0x80 + low
    ensures w / 0x200 == hi && (w / 0x80) % 4 == md
    ensures (w / 0x20) % 4 == low / 0x20 && (w / 0x10) % 2 == (low / 0x10) % 2
    ensures (w / 0x08) % 2 == (low / 0x08) % 2 && w % 8 == low % 8
  {
    assert w / 0x80 == hi * 4 + md;
    assert w / 0x20 == hi * 0x10 + md * 4 + low / 0x20;
    assert w / 0x10 == hi * 0x20 + md * 8 + low / 0x10;
    assert w / 0x08 == hi * 0x40 + md * 0x10 + low / 0x08;
  }

  /** With every selector inside its field, ADCV carries the command-code
      layout of the driver's documentation: bit 9 set, MD in bits 8 and 7,
      bits 6 and 5 set, DCP in bit 4, bit 3 clear and CH in bits 2 to 0. */
  lemma AdcvLayout(md: u8, dcp: u8, ch: u8)
    requires md < 4 && dcp < 2 && ch < 8
    ensures CommandWord(AdcvOpcode(md, dcp, ch)) == 0x260 + md * 0x80 + dcp * 0x10 + ch
    ensures var w := CommandWord(AdcvOpcode(md, dcp, ch));
      w / 0x200 == 1 && (w / 0x80) % 4 == md && (w / 0x20) % 4 == 3
      && (w / 0x10) % 2 == dcp && (w / 0x08) % 2 == 0 && w % 8 == ch
  {
    var op := AdcvOpcode(md, dcp, ch);
    assert op[1] == (md % 2) * 0x80 + 0x60 + dcp * 0x10 + ch;
    assert md == 2 * (md / 2) + md % 2;
    var w := CommandWord(op);
    var low := 0x60 + dcp * 0x10 + ch;
    assert w == 0x200 + md * 0x80 + low;
    WordFields(w, 1, md, low);
    assert low / 0x20 == 3 && (low / 0x10) % 2 == dcp && (low / 0x08) % 2 == 0 && low % 8 == ch;
  }

  /** ADAX carries bit 10 set, MD in bits 8 and 7, bits 6 and 5 set and CHG
      in bits 2 to 0.  Bit 4, which the documentation of `set_adc` marks as
      DCP for ADAX too, is always clear. */
  lemma AdaxLayout(md: u8, chg: u8)
    requires md < 4 && chg < 8
    ensures CommandWord(AdaxOpcode(md, chg)) == 0x460 + md * 0x80 + chg
    ensures var w := CommandWord(AdaxOpcode(md, chg));
      w / 0x200 == 2 && (w / 0x80) % 4 == md && (w / 0x20) % 4 == 3
      && (w / 0x10) % 2 == 0 && (w / 0x08) % 2 == 0 && w % 8 == chg
  {
    var op := AdaxOpcode(md, chg);
    assert op[1] == (md % 2) * 0x80 + 0x60 + chg;
    assert md == 2 * (md / 2) + md % 2;
    var w := CommandWord(op);
    var low := 0x60 + chg;
    assert w == 0x400 + md * 0x80 + low;
    WordFields(w, 2, md, low);
    assert low / 0x20 == 3 && (low / 0x10) % 2 == 0 && (low / 0x08) % 2 == 0 && low % 8 == chg;
  }

  /** Different in-field settings give different conversion commands, so the
      device can recover every selector from the opcode. */
  lemma ConversionOpcodesInjective(md1: u8, dcp1: u8, ch1: u8, md2: u8, dcp2: u8, ch2: u8)
    requires md1 < 4 && dcp1 < 2 && ch1 < 8 && md2 < 4 && dcp2 < 2 && ch2 < 8
    ensures AdcvOpcode(md1, dcp1, ch1) == AdcvOpcode(md2, dcp2, ch2) <==> md1 == md2 && dcp1 == dcp2 && ch1 == ch2
    ensures AdaxOpcode(md1, ch1) == AdaxOpcode(md2, ch2) <==> md1 == md2 && ch1 == ch2
  {
    AdcvLayout(md1, dcp1, ch1);
    AdcvLayout(md2, dcp2, ch2);
    AdaxLayout(md1, ch1);
    AdaxLayout(md2, ch2);
  }

  /** The opcodes `LTC6804_initialize` leaves in ADCV and ADAX: normal mode,
      discharge not permitted, all cells and all auxiliary channels. */
  lemma InitialConversionOpcodes()
    ensures AdcvOpcode(MD_NORMAL, DCP_DISABLED, CELL_CH_ALL) == [0x03, 0x60]
    ensures AdaxOpcode(MD_NORMAL, AUX_CH_ALL) == [0x05, 0x60]
  {
  }

  /** RDCVA to RDCVD, the opcodes `LTC6804_rdcv_reg` sends for cell groups
      1 to 4 (any other group leaves the opcode unset in the C code). */
  function RdcvOpcode(reg: u8): (op: seq<u8>)
    requires 1 <= reg <= 4
    ensures |op| == 2 && op[0] == 0x00 && op[1] == 2 * reg + 2
  {
    if reg == 1 then [0x00, 0x04]
    else if reg == 2 then [0x00, 0x06]
    else if reg == 3 then [0x00, 0x08]
    else [0x00, 0x0A]
  }

  /** RDAUXA or RDAUXB, the opcode `LTC6804_rdaux_reg` sends: group 2 reads
      group B and every other value falls back to group A. */
  function RdauxOpcode(reg: u8): (op: seq<u8>)
    ensures |op| == 2 && op[0] == 0x00
    ensures op[1] == 0x0E <==> reg == 2
    ensures op[1] == 0x0C <==> reg != 2
  {
    if reg == 1 then [0x00, 0x0C]
    else if reg == 2 then [0x00, 0x0E]
    else [0x00, 0x0C]
  }

  /** CLRCELL and CLRAUX. */
  const ClrcellOpcode: seq<u8> := [0x07, 0x11]
  const ClrauxOpcode: seq<u8> := [0x07, 0x12]

  /** WRCFG and RDCFG. */
  const WrcfgOpcode: seq<u8> := [0x00, 0x01]
  const RdcfgOpcode: seq<u8> := [0x00, 0x02]

  /** The read opcodes are pairwise distinct, and none is a clear or a
      configuration opcode. */
  lemma ReadOpcodesDistinct(r1: u8, r2: u8, a: u8)
    requires 1 <= r1 <= 4 && 1 <= r2 <= 4
    ensures RdcvOpcode(r1) == RdcvOpcode(r2) <==> r1 == r2
    ensures RdcvOpcode(r1) != RdauxOpcode(a)
    ensures RdcvOpcode(r1) !in {ClrcellOpcode, ClrauxOpcode, WrcfgOpcode, RdcfgOpcode}
    ensures RdauxOpcode(a) !in {ClrcellOpcode, ClrauxOpcode, WrcfgOpcode, RdcfgOpcode}
  {
  }

  /** The four bytes sent for opcode `op`: the opcode, then `(char)(pec >> 8)`
      and `(char)pec` of the PEC of the two opcode bytes. */
  function CommandFrame(op: seq<u8>): (frame: seq<u8>)
    requires |op| == 2
    ensures |frame| == 4 && frame[..2] == op
  {
    var pec := Pec15(op);
    op + [HighByte(pec), LowByte(pec)]
  }

  /** A four-byte frame whose trailing pair is the PEC of its opcode, as the
      receiving device checks it. */
  predicate FrameIntact(frame: seq<u8>)
  {
    |frame| == 4 && BigEndian(frame[2], frame[3]) == Pec15(frame[..2])
  }

  /** The frames that pass the device's check are exactly the frames
      `CommandFrame` builds. */
  lemma FrameIntactIsCommandFrame(frame: seq<u8>)
    ensures FrameIntact(frame) <==> |frame| == 4 && frame == CommandFrame(frame[..2])
  {
    if |frame| == 4 {
      var built := CommandFrame(frame[..2]);
      BigEndianOfBytes(Pec15(frame[..2]));
      if FrameIntact(frame) {
        BigEndianInjective(frame[2], frame[3], built[2], built[3]);
        assert frame == frame[..2] + [frame[2], frame[3]];
      }
    }
  }

  /** The WRCFG and RDCFG frames as the driver hard-codes them. */
  const WrcfgFrame: seq<u8> := [0x00, 0x01, 0x3D, 0x6E]
  const RdcfgFrame: seq<u8> := [0x00, 0x02, 0x2B, 0x0A]

  /** The WRCFG frame the driver hard-codes is the frame of its opcode. */
  lemma WrcfgFrameHeader()
    ensures CommandFrame(WrcfgOpcode) == WrcfgFrame
  {
    WrcfgCommandPec();
  }

  /** The RDCFG frame the driver hard-codes is the frame of its opcode. */
  lemma RdcfgFrameHeader()
    ensures CommandFrame(RdcfgOpcode) == RdcfgFrame
  {
    RdcfgCommandPec();
  }

  /** The ADCV frame `LTC6804_adcv` sends after `LTC6804_initialize`. */
  lemma InitialAdcvFrame()
    ensures CommandFrame([0x03, 0x60]) == [0x03, 0x60, 0xF4, 0x6C]
  {
    var op: seq<u8> := [0x03, 0x60];
    InitialAdcvPec();
    assert Pec15(op) == 0xF46C;
    assert HighByte(0xF46C) == 0xF4 && LowByte(0xF46C) == 0x6C;
  }

  /** The ADAX frame `LTC6804_adax` sends after `LTC6804_initialize`. */
  lemma InitialAdaxFrame()
    ensures CommandFrame([0x05, 0x60]) == [0x05, 0x60, 0xD3, 0xA0]
  {
    var op: seq<u8> := [0x05, 0x60];
    InitialAdaxPec();
    assert Pec15(op) == 0xD3A0;
    assert HighByte(0xD3A0) == 0xD3 && LowByte(0xD3A0) == 0xA0;
  }

  /** The CLRCELL frame. */
  lemma ClrcellFrame()
    ensures CommandFrame(ClrcellOpcode) == [0x07, 0x11, 0xC9, 0xC0]
  {
    var op: seq<u8> := [0x07, 0x11];
    ClrcellCommandPec();
    assert Pec15(op) == 0xC9C0;
    assert HighByte(0xC9C0) == 0xC9 && LowByte(0xC9C0) == 0xC0;
  }

  /** The CLRAUX frame. */
  lemma ClrauxFrame()
    ensures CommandFrame(ClrauxOpcode) == [0x07, 0x12, 0xDF, 0xA4]
  {
    var op: seq<u8> := [0x07, 0x12];
    ClrauxCommandPec();
    assert Pec15(op) == 0xDFA4;
    assert HighByte(0xDFA4) == 0xDF && LowByte(0xDFA4) == 0xA4;
  }
}
