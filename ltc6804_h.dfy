/** The constants of the driver's header file `ltc6804.h`: the CRC-15 lookup
    table behind the packet error code (PEC), the ADC mode, channel-selection
    and discharge-permit selectors that `set_adc` packs into the conversion
    commands, and the discharge-switch bit masks of the configuration
    register. */
module Ltc6804Header {
  import opened Xc8

  /** A lookup table indexed by the bits of a byte, most significant first:
      a `Split` sends indices whose current bit is 0 to `zero` and the others
      to `one`, and an `Entry` holds the value of the one index left. */
  datatype CrcTable = Entry(value: bv16) | Split(zero: CrcTable, one: CrcTable)

  /** `crc15Table`: the 256 precomputed CRC-15 entries in table order, four
      to a line. */
  const Crc15Entries: CrcTable :=
    Split(
      Split(
        Split(
          Split(
            Split(
              Split(
                Split(Split(Entry(0x0000), Entry(0xC599)), Split(Entry(0xCEAB), Entry(0x0B32))),
                Split(Split(Entry(0xD8CF), Entry(0x1D56)), Split(Entry(0x1664), Entry(0xD3FD)))),
              Split(
                Split(Split(Entry(0xF407), Entry(0x319E)), Split(Entry(0x3AAC), Entry(0xFF35))),
                Split(Split(Entry(0x2CC8), Entry(0xE951)), Split(Entry(0xE263), Entry(0x27FA))))),
            Split(
              Split(
                Split(Split(Entry(0xAD97), Entry(0x680E)), Split(Entry(0x633C), Entry(0xA6A5))),
                Split(Split(Entry(0x7558), Entry(0xB0C1)), Split(Entry(0xBBF3), Entry(0x7E6A)))),
              Split(
                Split(Split(Entry(0x5990), Entry(0x9C09)), Split(Entry(0x973B), Entry(0x52A2))),
                Split(Split(Entry(0x815F), Entry(0x44C6)), Split(Entry(0x4FF4), Entry(0x8A6D)))))),
          Split(
            Split(
              Split(
                Split(Split(Entry(0x5B2E), Entry(0x9EB7)), Split(Entry(0x9585), Entry(0x501C))),
                Split(Split(Entry(0x83E1), Entry(0x4678)), Split(Entry(0x4D4A), Entry(0x88D3)))),
              Split(
                Split(Split(Entry(0xAF29), Entry(0x6AB0)), Split(Entry(0x6182), Entry(0xA41B))),
                Split(Split(Entry(0x77E6), Entry(0xB27F)), Split(Entry(0xB94D), Entry(0x7CD4))))),
            Split(
              Split(
                Split(Split(Entry(0xF6B9), Entry(0x3320)), Split(Entry(0x3812), Entry(0xFD8B))),
                Split(Split(Entry(0x2E76), Entry(0xEBEF)), Split(Entry(0xE0DD), Entry(0x2544)))),
              Split(
                Split(Split(Entry(0x02BE), Entry(0xC727)), Split(Entry(0xCC15), Entry(0x098C))),
                Split(Split(Entry(0xDA71), Entry(0x1FE8)), Split(Entry(0x14DA), Entry(0xD143))))))),
        Split(
          Split(
            Split(
              Split(
                Split(Split(Entry(0xF3C5), Entry(0x365C)), Split(Entry(0x3D6E), Entry(0xF8F7))),
                Split(Split(Entry(0x2B0A), Entry(0xEE93)), Split(Entry(0xE5A1), Entry(0x2038)))),
              Split(
                Split(Split(Entry(0x07C2), Entry(0xC25B)), Split(Entry(0xC969), Entry(0x0CF0))),
                Split(Split(Entry(0xDF0D), Entry(0x1A94)), Split(Entry(0x11A6), Entry(0xD43F))))),
            Split(
              Split(
                Split(Split(Entry(0x5E52), Entry(0x9BCB)), Split(Entry(0x90F9), Entry(0x5560))),
                Split(Split(Entry(0x869D), Entry(0x4304)), Split(Entry(0x4836), Entry(0x8DAF)))),
              Split(
                Split(Split(Entry(0xAA55), Entry(0x6FCC)), Split(Entry(0x64FE), Entry(0xA167))),
                Split(Split(Entry(0x729A), Entry(0xB703)), Split(Entry(0xBC31), Entry(0x79A8)))))),
          Split(
            Split(
              Split(
                Split(Split(Entry(0xA8EB), Entry(0x6D72)), Split(Entry(0x6640), Entry(0xA3D9))),
                Split(Split(Entry(0x7024), Entry(0xB5BD)), Split(Entry(0xBE8F), Entry(0x7B16)))),
              Split(
                Split(Split(Entry(0x5CEC), Entry(0x9975)), Split(Entry(0x9247), Entry(0x57DE))),
                Split(Split(Entry(0x8423), Entry(0x41BA)), Split(Entry(0x4A88), Entry(0x8F11))))),
            Split(
              Split(
                Split(Split(Entry(0x057C), Entry(0xC0E5)), Split(Entry(0xCBD7), Entry(0x0E4E))),
                Split(Split(Entry(0xDDB3), Entry(0x182A)), Split(Entry(0x1318), Entry(0xD681)))),
              Split(
                Split(Split(Entry(0xF17B), Entry(0x34E2)), Split(Entry(0x3FD0), Entry(0xFA49))),
                Split(Split(Entry(0x29B4), Entry(0xEC2D)), Split(Entry(0xE71F), Entry(0x2286)))))))),
      Split(
        Split(
          Split(
            Split(
              Split(
                Split(Split(Entry(0xA213), Entry(0x678A)), Split(Entry(0x6CB8), Entry(0xA921))),
                Split(Split(Entry(0x7ADC), Entry(0xBF45)), Split(Entry(0xB477), Entry(0x71EE)))),
              Split(
                Split(Split(Entry(0x5614), Entry(0x938D)), Split(Entry(0x98BF), Entry(0x5D26))),
                Split(Split(Entry(0x8EDB), Entry(0x4B42)), Split(Entry(0x4070), Entry(0x85E9))))),
            Split(
              Split(
                Split(Split(Entry(0x0F84), Entry(0xCA1D)), Split(Entry(0xC12F), Entry(0x04B6))),
                Split(Split(Entry(0xD74B), Entry(0x12D2)), Split(Entry(0x19E0), Entry(0xDC79)))),
              Split(
                Split(Split(Entry(0xFB83), Entry(0x3E1A)), Split(Entry(0x3528), Entry(0xF0B1))),
                Split(Split(Entry(0x234C), Entry(0xE6D5)), Split(Entry(0xEDE7), Entry(0x287E)))))),
          Split(
            Split(
              Split(
                Split(Split(Entry(0xF93D), Entry(0x3CA4)), Split(Entry(0x3796), Entry(0xF20F))),
                Split(Split(Entry(0x21F2), Entry(0xE46B)), Split(Entry(0xEF59), Entry(0x2AC0)))),
              Split(
                Split(Split(Entry(0x0D3A), Entry(0xC8A3)), Split(Entry(0xC391), Entry(0x0608))),
                Split(Split(Entry(0xD5F5), Entry(0x106C)), Split(Entry(0x1B5E), Entry(0xDEC7))))),
            Split(
              Split(
                Split(Split(Entry(0x54AA), Entry(0x9133)), Split(Entry(0x9A01), Entry(0x5F98))),
                Split(Split(Entry(0x8C65), Entry(0x49FC)), Split(Entry(0x42CE), Entry(0x8757)))),
              Split(
                Split(Split(Entry(0xA0AD), Entry(0x6534)), Split(Entry(0x6E06), Entry(0xAB9F))),
                Split(Split(Entry(0x7862), Entry(0xBDFB)), Split(Entry(0xB6C9), Entry(0x7350))))))),
        Split(
          Split(
            Split(
              Split(
                Split(Split(Entry(0x51D6), Entry(0x944F)), Split(Entry(0x9F7D), Entry(0x5AE4))),
                Split(Split(Entry(0x8919), Entry(0x4C80)), Split(Entry(0x47B2), Entry(0x822B)))),
              Split(
                Split(Split(Entry(0xA5D1), Entry(0x6048)), Split(Entry(0x6B7A), Entry(0xAEE3))),
                Split(Split(Entry(0x7D1E), Entry(0xB887)), Split(Entry(0xB3B5), Entry(0x762C))))),
            Split(
              Split(
                Split(Split(Entry(0xFC41), Entry(0x39D8)), Split(Entry(0x32EA), Entry(0xF773))),
                Split(Split(Entry(0x248E), Entry(0xE117)), Split(Entry(0xEA25), Entry(0x2FBC)))),
              Split(
                Split(Split(Entry(0x0846), Entry(0xCDDF)), Split(Entry(0xC6ED), Entry(0x0374))),
                Split(Split(Entry(0xD089), Entry(0x1510)), Split(Entry(0x1E22), Entry(0xDBBB)))))),
          Split(
            Split(
              Split(
                Split(Split(Entry(0x0AF8), Entry(0xCF61)), Split(Entry(0xC453), Entry(0x01CA))),
                Split(Split(Entry(0xD237), Entry(0x17AE)), Split(Entry(0x1C9C), Entry(0xD905)))),
              Split(
                Split(Split(Entry(0xFEFF), Entry(0x3B66)), Split(Entry(0x3054), Entry(0xF5CD))),
                Split(Split(Entry(0x2630), Entry(0xE3A9)), Split(Entry(0xE89B), Entry(0x2D02))))),
            Split(
              Split(
                Split(Split(Entry(0xA76F), Entry(0x62F6)), Split(Entry(0x69C4), Entry(0xAC5D))),
                Split(Split(Entry(0x7FA0), Entry(0xBA39)), Split(Entry(0xB10B), Entry(0x7492)))),
              Split(
                Split(Split(Entry(0x5368), Entry(0x96F1)), Split(Entry(0x9DC3), Entry(0x585A))),
                Split(Split(Entry(0x8BA7), Entry(0x4E3E)), Split(Entry(0x450C), Entry(0x8095)))))))))

  /** One level of the lookup: the half of `t` that `addr` selects by `bit`. */
  function Descend(t: CrcTable, addr: bv8, bit: bv8): CrcTable
  {
    match t
    case Entry(_) => t
    case Split(zero, one) => if addr & bit == 0 then zero else one
  }

  /** `crc15Table[addr]`.  The table has a `Split` on each of the eight index
      bits, so the descent always ends at an `Entry`. */
  function Crc15Table(addr: bv8): bv16
  {
    var t := Descend(Descend(Descend(Descend(Descend(Descend(Descend(Descend(
      Crc15Entries, addr, 0x80), addr, 0x40), addr, 0x20), addr, 0x10), addr, 0x08), addr, 0x04), addr, 0x02), addr, 0x01);
    match t
    case Entry(value) => value
    case Split(_, _) => 0
  }

  // ADC conversion modes (the two-bit MD field).
  const MD_FAST: u8 := 1
  const MD_NORMAL: u8 := 2
  const MD_FILTERED: u8 := 3

  // Cell channels converted by ADCV (the three-bit CH field).
  const CELL_CH_ALL: u8 := 0
  const CELL_CH_1and7: u8 := 1
  const CELL_CH_2and8: u8 := 2
  const CELL_CH_3and9: u8 := 3
  const CELL_CH_4and10: u8 := 4
  const CELL_CH_5and11: u8 := 5
  const CELL_CH_6and12: u8 := 6

  // Auxiliary channels converted by ADAX (the three-bit CHG field).
  const AUX_CH_ALL: u8 := 0
  const AUX_CH_GPIO1: u8 := 1
  const AUX_CH_GPIO2: u8 := 2
  const AUX_CH_GPIO3: u8 := 3
  const AUX_CH_GPIO4: u8 := 4
  const AUX_CH_GPIO5: u8 := 5
  const AUX_CH_VREF2: u8 := 6

  // Discharge permitted during cell conversion (the one-bit DCP field).
  const DCP_DISABLED: u8 := 0
  const DCP_ENABLED: u8 := 1

  // Discharge-switch masks: cells 1 to 8 in one configuration byte, cells 9 to 12 in the next.
  const Discharge_Cell_1: u8 := 0x01
  const Discharge_Cell_2: u8 := 0x02
  const Discharge_Cell_3: u8 := 0x04
  const Discharge_Cell_4: u8 := 0x08
  const Discharge_Cell_5: u8 := 0x10
  const Discharge_Cell_6: u8 := 0x20
  const Discharge_Cell_7: u8 := 0x40
  const Discharge_Cell_8: u8 := 0x80
  const Discharge_Cell_9: u8 := 0x01
  const Discharge_Cell_10: u8 := 0x02
  const Discharge_Cell_11: u8 := 0x04
  const Discharge_Cell_12: u8 := 0x08

  /** The mode selectors, the cell and auxiliary channel selectors and the
      discharge-permit selector, in the order the header lists them. */
  const AdcModes: seq<u8> := [MD_FAST, MD_NORMAL, MD_FILTERED]
  const CellChannels: seq<u8> :=
    [CELL_CH_ALL, CELL_CH_1and7, CELL_CH_2and8, CELL_CH_3and9, CELL_CH_4and10, CELL_CH_5and11, CELL_CH_6and12]
  const AuxChannels: seq<u8> :=
    [AUX_CH_ALL, AUX_CH_GPIO1, AUX_CH_GPIO2, AUX_CH_GPIO3, AUX_CH_GPIO4, AUX_CH_GPIO5, AUX_CH_VREF2]
  const DischargePermits: seq<u8> := [DCP_DISABLED, DCP_ENABLED]

  /** The discharge masks of cells 1 to 8 (first byte) and 9 to 12 (second byte). */
  const DischargeLow: seq<u8> := [Discharge_Cell_1, Discharge_Cell_2, Discharge_Cell_3, Discharge_Cell_4,
                                  Discharge_Cell_5, Discharge_Cell_6, Discharge_Cell_7, Discharge_Cell_8]
  const DischargeHigh: seq<u8> := [Discharge_Cell_9, Discharge_Cell_10, Discharge_Cell_11, Discharge_Cell_12]

  /** 2 to the power k. */
  function Pow2(k: nat): (r: nat)
    ensures r >= 1
  {
    if k == 0 then 1 else 2 * Pow2(k - 1)
  }

  /** The table holds index 0 at entry 0x0000 and, by its type, one 16-bit
      entry for each of the 256 byte values; the first and last entries are
      those of the header. */
  lemma Crc15TableShape()
    ensures Crc15Table(0x00) == 0x0000 && Crc15Table(0x01) == 0xC599
    ensures Crc15Table(0xFE) == 0x450C && Crc15Table(0xFF) == 0x8095
  {
  }

  /** The three mode selectors are distinct and nonzero and fit the two-bit
      MD field that `set_adc` splits over opcode bits 8 and 7. */
  lemma AdcModesFitField()
    ensures forall k :: 0 <= k < |AdcModes| ==> 1 <= AdcModes[k] < 4
    ensures forall k, l :: 0 <= k < l < |AdcModes| ==> AdcModes[k] != AdcModes[l]
  {
  }

  /** Every channel selector is its own position in the header's list, so the
      selectors are distinct and fit the three-bit CH and CHG fields; the
      discharge permit is a single bit. */
  lemma SelectorsFitFields()
    ensures forall k :: 0 <= k < |CellChannels| ==> CellChannels[k] == k < 8
    ensures forall k :: 0 <= k < |AuxChannels| ==> AuxChannels[k] == k < 8
    ensures forall k :: 0 <= k < |DischargePermits| ==> DischargePermits[k] == k < 2
  {
  }

  /** The masks of cells 1 to 8 are the eight single bits of a byte, in order;
      the masks of cells 9 to 12 reuse bits 0 to 3 of the following byte. */
  lemma DischargeMasksAreSingleBits()
    ensures forall k :: 0 <= k < |DischargeLow| ==> DischargeLow[k] == Pow2(k)
    ensures forall k :: 0 <= k < |DischargeHigh| ==> DischargeHigh[k] == Pow2(k)
    ensures forall k, l :: 0 <= k < l < |DischargeLow| ==> DischargeLow[k] != DischargeLow[l]
  {
    assert Pow2(0) == 1 && Pow2(1) == 2 && Pow2(2) == 4 && Pow2(3) == 8;
    assert Pow2(4) == 16 && Pow2(5) == 32 && Pow2(6) == 64 && Pow2(7) == 128;
  }
}
