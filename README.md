# LTC6804-1 daisy-chain driver, modelled in Dafny

This project models the driver a battery-management board uses to talk
to a daisy chain of LTC6804-1 multicell battery monitors over SPI. The
driver is `SDP_BMS.X/ltc6804.c` with the constants of `ltc6804.h`. The
model covers:

- the packet error code (PEC), a table-driven CRC-15 (`pec15_calc`) with
  its 256-entry table;
- the conversion opcodes `set_adc` packs into the globals `ADCV` and
  `ADAX`, and the fixed read, clear and configuration opcodes;
- the four-byte command frames (opcode plus its PEC);
- the register reads `LTC6804_rdcv` / `LTC6804_rdaux`, which demultiplex
  the chain's answer (one 8-byte block per device: three little-endian
  codes and a big-endian PEC) into the caller's code arrays and report
  `-1` when any block fails its PEC check;
- the configuration write `LTC6804_wrcfg`, which sends the most distant
  device's block first, and the configuration read `LTC6804_rdcfg`;
- the retry loop of `measureVoltages`, which reads all cell groups again
  until no PEC error is seen.

The SPI port is a `Bus` object. It records every byte shifted out and
holds a script of the bytes the chain will shift back. `spi_write_array`
and `spi_write_read` are methods over that bus. The XC8 target has an
unsigned 8-bit `char` and a 16-bit `int`. Bytes are `u8` and every `int`
is its 16-bit pattern `u16`. The PEC arithmetic is done on `bv16`.

The files follow the source. `xc8.dfy` holds the integer widths.
`ltc6804_h.dfy` holds the header's table and constants. `pec.dfy` holds
`pec15_calc`. `commands.dfy` holds the opcodes and frames. `registers.dfy`
holds the block layout of the data the chain returns and the
configuration block order. `spi.dfy` holds the bus, and `driver.dfy`
holds the functions of `ltc6804.c`. Each imperative C function is a
method with loops and invariants. It is proved against pure functions
whose properties are proved as lemmas: round trips, checks that accept
exactly what a device sends, and the block order of the configuration.

Two-dimensional C arrays:

- The caller's `cell_codes[][12]` and `aux_codes[][6]` are `array2<u16>`.
- `config[][6]` and `r_config[][8]` are flat `array<u8>` holding the
  rows one after another, because the C code hands `&config[i][0]` to
  `pec15_calc` as a plain byte pointer.

## Model

| member | source | states |
|---|---|---|
| Xc8.HighByte | SDP_BMS.X/ltc6804.c:184 | `(char)(w >> 8)` is the byte `r` with `r * 256 <= w < (r + 1) * 256` |
| Xc8.LowByte | SDP_BMS.X/ltc6804.c:185 | `(char)w` agrees with `w` modulo 256 |
| Xc8.BigEndianOfBytes | SDP_BMS.X/ltc6804.c:327 | joining the high and low byte of a word, `(hi << 8) + lo`, gives the word back |
| Xc8.BigEndianInjective | SDP_BMS.X/ltc6804.c:327-330 | two byte pairs give the same received PEC only when they are the same pair |
| Ltc6804Header.Crc15TableShape | ltc6804.h:14-36 | the table lookup returns the header's entries at both ends (entry 0 is 0x0000, entry 255 is 0x8095); its type gives one 16-bit entry per byte value |
| Ltc6804Header.AdcModesFitField | ltc6804.h:48-50 | MD_FAST, MD_NORMAL and MD_FILTERED are distinct, nonzero and below 4, so they fit the 2-bit MD field |
| Ltc6804Header.SelectorsFitFields | ltc6804.h:65-106 | each CELL_CH_* and AUX_CH_* selector equals its position in the list and is below 8; DCP_DISABLED/DCP_ENABLED are 0 and 1 |
| Ltc6804Header.DischargeMasksAreSingleBits | ltc6804.h:122-133 | Discharge_Cell_1..8 are the bits 2^0..2^7 of a byte and pairwise distinct; Discharge_Cell_9..12 reuse 2^0..2^3 |
| Pec.PecOfRemainder | SDP_BMS.X/ltc6804.c:1006 | the doubled remainder, cut to 16 bits, has its low bit clear |
| Pec.Pec15IsEven | SDP_BMS.X/ltc6804.c:1006 | every PEC is even |
| Pec.PecContinueAppend | SDP_BMS.X/ltc6804.c:1001-1005 | the bytes are processed strictly in order: the remainder after `a + b` is the remainder after `a`, carried on over `b` |
| Pec.Pec15Calc | SDP_BMS.X/ltc6804.c:994-1007 | the loop from remainder 16 returns the PEC of the `len` bytes from `start`, as the recursive specification defines it |
| Pec.WrcfgCommandPec | SDP_BMS.X/ltc6804.c:828-831 | the PEC of `00 01` is 0x3D6E, the bytes hard-coded in WRCFG |
| Pec.RdcfgCommandPec | SDP_BMS.X/ltc6804.c:914-917 | the PEC of `00 02` is 0x2B0A, the bytes hard-coded in RDCFG |
| Pec.InitialAdcvPec | SDP_BMS.X/ltc6804.c:183 | the PEC of the initial ADCV opcode `03 60` is 0xF46C |
| Pec.InitialAdaxPec | SDP_BMS.X/ltc6804.c:229-231 | the PEC of the initial ADAX opcode `05 60` is 0xD3A0 |
| Pec.ClrcellCommandPec | SDP_BMS.X/ltc6804.c:715-721 | the PEC of `07 11` is 0xC9C0 |
| Pec.ClrauxCommandPec | SDP_BMS.X/ltc6804.c:762-768 | the PEC of `07 12` is 0xDFA4 |
| Pec.ZeroWordPec | SDP_BMS.X/ltc6804.c:994-1007 | the PEC of `00 00` is 0xB65C |
| Pec.SingleBitFlipChangesPec | SDP_BMS.X/ltc6804.c:994-1007 | `00 00` and `00 01`, one bit apart, have different PECs |
| Pec.ZeroPayloadPec | SDP_BMS.X/ltc6804.c:994-1007 | the PEC of six zero bytes is 0xC212 |
| Pec.FlippedPayloadPec | SDP_BMS.X/ltc6804.c:994-1007 | the PEC of six zero bytes with bit 0 of the first set is 0xFE4A |
| Commands.ModeBits | SDP_BMS.X/ltc6804.c:141-143 | `(MD & 0x02) >> 1` is bit 1 of MD and `(MD & 0x01) << 7` is bit 0 moved to bit 7 |
| Commands.AdcvLayout | SDP_BMS.X/ltc6804.c:141-144 | for in-range selectors the ADCV command code is `0x260 + MD*0x80 + DCP*0x10 + CH`: bit 9 set, MD in bits 8–7, bits 6–5 set, DCP in bit 4, bit 3 clear, CH in bits 2–0 |
| Commands.AdaxLayout | SDP_BMS.X/ltc6804.c:146-149 | the ADAX code is `0x460 + MD*0x80 + CHG`: bit 10 set, MD in bits 8–7, bits 6–5 set, bit 4 (DCP) always clear, CHG in bits 2–0 |
| Commands.ConversionOpcodesInjective | SDP_BMS.X/ltc6804.c:141-149 | two in-range settings give the same ADCV (ADAX) opcode exactly when MD, DCP and CH (MD and CHG) are equal |
| Commands.InitialConversionOpcodes | SDP_BMS.X/ltc6804.c:112-115 | `set_adc(MD_NORMAL, DCP_DISABLED, CELL_CH_ALL, AUX_CH_ALL)` gives ADCV `03 60` and ADAX `05 60` |
| Commands.RdcvOpcode | SDP_BMS.X/ltc6804.c:434-453 | cell group `reg` in 1..4 reads with opcode `00` then `2*reg + 2` (`04 06 08 0A`) |
| Commands.RdauxOpcode | SDP_BMS.X/ltc6804.c:658-672 | group 2 reads with `00 0E`; every other value, 1 or not, falls back to `00 0C` |
| Commands.ReadOpcodesDistinct | SDP_BMS.X/ltc6804.c:434-453 | the four cell-read opcodes are pairwise distinct, differ from both aux reads and from the clear and configuration opcodes |
| Commands.CommandFrame | SDP_BMS.X/ltc6804.c:183-185 | a frame is 4 bytes and starts with its 2 opcode bytes, followed by the PEC's high and low byte |
| Commands.FrameIntactIsCommandFrame | SDP_BMS.X/ltc6804.c:183-185 | a 4-byte frame whose trailing pair is the PEC of its opcode is exactly the frame the driver builds, in both directions |
| Commands.WrcfgFrameHeader | SDP_BMS.X/ltc6804.c:828-831 | the hard-coded `00 01 3D 6E` is the command frame of WRCFG |
| Commands.RdcfgFrameHeader | SDP_BMS.X/ltc6804.c:914-917 | the hard-coded `00 02 2B 0A` is the command frame of RDCFG |
| Commands.InitialAdcvFrame | SDP_BMS.X/ltc6804.c:179-185 | after initialisation `LTC6804_adcv` sends `03 60 F4 6C` |
| Commands.InitialAdaxFrame | SDP_BMS.X/ltc6804.c:229-233 | after initialisation `LTC6804_adax` sends `05 60 D3 A0` |
| Commands.ClrcellFrame | SDP_BMS.X/ltc6804.c:715-721 | CLRCELL is sent as `07 11 C9 C0` |
| Commands.ClrauxFrame | SDP_BMS.X/ltc6804.c:762-768 | CLRAUX is sent as `07 12 DF A4` |
| Registers.Block | SDP_BMS.X/ltc6804.c:846-848 | a device block is its 6 payload bytes followed by their PEC, high byte first |
| Registers.ResponseIntactNext | SDP_BMS.X/ltc6804.c:327-335 | after device `n` the running status is intact exactly when it was before and block `n` passes |
| Registers.BlockIntactIffBlock | SDP_BMS.X/ltc6804.c:327-333 | the received-PEC check passes exactly when the 8 bytes are the block of their own payload: every block a device sends passes, every damaged PEC fails |
| Registers.ChangedPayloadRejected | SDP_BMS.X/ltc6804.c:327-333 | a block whose payload was replaced by one with a different PEC, its PEC bytes kept, fails the check |
| Registers.ZeroPayloadBlock | SDP_BMS.X/ltc6804.c:327-333 | the all-zero payload is sent as `00 00 00 00 00 00 C2 12` |
| Registers.FlippedBitRejected | SDP_BMS.X/ltc6804.c:327-333 | that block with bit 0 of its first byte flipped fails the check, so a read containing it reports `-1` |
| Registers.GroupBlockRoundTrip | SDP_BMS.X/ltc6804.c:319-333 | parsing the block of three codes, each sent low byte first, gives the codes back and passes the check |
| Registers.ConcatLength | SDP_BMS.X/ltc6804.c:335 | 8-byte device blocks placed end to end take exactly 8 bytes per device |
| Registers.ConcatAt | SDP_BMS.X/ltc6804.c:329 | block `i` of a series sits at offset `8 * i` (`&data[current_ic * NUM_RX_BYT]`) |
| Registers.GroupBlocks | SDP_BMS.X/ltc6804.c:310-335 | one 8-byte block per device of the chain |
| Registers.GroupResponse | SDP_BMS.X/ltc6804.c:310 | the chain's answer to a group read is `8 * total_ic` bytes |
| Registers.GroupResponseAt | SDP_BMS.X/ltc6804.c:319-329 | device `i`'s bytes `8i .. 8i+8` of the answer are the block of its codes |
| Registers.GroupResponseRoundTrip | SDP_BMS.X/ltc6804.c:312-336 | demultiplexing a chain's answer gives device `i` code `j` of its own group, and every block passes its PEC check |
| Registers.BlockOfSlice | SDP_BMS.X/ltc6804.c:319-329 | device `i`'s codes and check depend only on its own 8 bytes |
| Registers.SameBlock | SDP_BMS.X/ltc6804.c:934-938 | the check on the copied row `r_config[i]` gives the same answer as on `rx_data`'s block |
| Registers.ConfigBlock | SDP_BMS.X/ltc6804.c:839-848 | device `i`'s WRCFG block is 8 bytes: `config[i][0..5]` and their PEC |
| Registers.ConfigBlocks | SDP_BMS.X/ltc6804.c:928-935 | the configuration blocks of devices 0 to `n-1`, one 8-byte block each |
| Registers.ConfigDescendingNext | SDP_BMS.X/ltc6804.c:835-850 | one turn of the device loop appends device `current_ic - 1`'s block after the blocks of the devices beyond it |
| Registers.ConfigDescendingPlacement | SDP_BMS.X/ltc6804.c:835-850 | in the WRCFG data device `i`'s block is at offset `8(n-1-i)` (frame offset `4 + 8(n-1-i)`) |
| Registers.ConfigAscendingPlacement | SDP_BMS.X/ltc6804.c:928-935 | in the RDCFG data device `i`'s block is at offset `8i` |
| Registers.BlocksIntact | SDP_BMS.X/ltc6804.c:937-942 | when every device's 8 bytes are a well-formed block, no PEC error is reported |
| Registers.ConfigDescendingIntact | SDP_BMS.X/ltc6804.c:846-848 | every block WRCFG emits passes the check RDCFG makes on it |
| Registers.ConfigAscendingIntact | SDP_BMS.X/ltc6804.c:928-942 | the configuration read back nearest device first passes every check and device `i`'s payload is `config[i][0..5]` |
| Registers.ConfigOrderReversed | SDP_BMS.X/ltc6804.c:835-837 | WRCFG's block `p` is RDCFG's block `n-1-p`: the write order is the read order reversed |
| Spi.Bus.constructor | SDP_BMS.X/ltc6804.c:1037-1054 | a fresh bus has sent nothing and holds the chain's script |
| Spi.Bus.Write | SDP_BMS.X/ltc6804.c:1023 | `spi_write` appends its byte to the sent bytes and consumes nothing |
| Spi.Bus.Read | SDP_BMS.X/ltc6804.c:1051 | `spi_read(0xFF)` sends its argument and returns the next scripted byte, removing it |
| Ltc6804.CellDataOverrun | SDP_BMS.X/ltc6804.c:296-310 | as written, the bytes stored past the 8-byte `cell_data`: none exactly when the chain has at most one device, else `8 * total_ic - 8` |
| Ltc6804.CellDataHoldsOneDevice | SDP_BMS.X/ltc6804.c:296-310 | the declared 8-byte `cell_data` meets the buffer requirement of `LTC6804_rdcv_reg` (`ReceiveBufferHolds`, its `requires`) exactly when the chain has at most one device; otherwise the read overruns it |
| Ltc6804.TwoDevicesOverrunCellData | SDP_BMS.X/ltc6804.c:296-310 | with two devices `cell_data` fails the buffer requirement of `LTC6804_rdcv_reg`, and the read writes 8 bytes past its end |
| Ltc6804.Filler | SDP_BMS.X/ltc6804.c:1049-1052 | `k` bytes of 0xFF, what is shifted out while `k` bytes are read |
| Ltc6804.ReadTrace | SDP_BMS.X/ltc6804.c:456-465 | a register read sends `4 + 8n` bytes, starting with the command frame |
| Ltc6804.AllIntactNext | SDP_BMS.X/ltc6804.c:307-338 | the status over one more group is intact exactly when it was before and the new answer passes |
| Ltc6804.ConfigFrameNext | SDP_BMS.X/ltc6804.c:835-850 | the WRCFG buffer grows by the block of the next nearer device |
| Ltc6804.RetriedNext | SDP_BMS.X/ltc6804.c:83-85 | the loop only repeats after a failed sweep, so every attempt before the last one failed its check |
| Ltc6804.Register.Groups | SDP_BMS.X/ltc6804.c:307 | a sweep reads 4 cell groups (`cell_reg < 5`) or 2 aux groups (`gpio_reg < 3`) |
| Ltc6804.Driver.constructor | SDP_BMS.X/ltc6804.c:101-102 | ADCV and ADAX start as two zero bytes each |
| Ltc6804.Driver.SetAdc | SDP_BMS.X/ltc6804.c:133-151 | ADCV and ADAX hold the packed opcodes of the given mode, discharge permit and channels until the next call |
| Ltc6804.Driver.Initialize | SDP_BMS.X/ltc6804.c:112-115 | ADCV becomes `03 60` and ADAX `05 60` |
| Ltc6804.Driver.SpiWriteArray | SDP_BMS.X/ltc6804.c:1017-1025 | the first `len` bytes go out in order and nothing is read |
| Ltc6804.Driver.SpiWriteRead | SDP_BMS.X/ltc6804.c:1037-1054 | `tx_len` bytes go out, then `rx_len` scripted bytes fill `rx_data[0..rx_len)` while 0xFF goes out; the rest of `rx_data` is untouched |
| Ltc6804.Driver.LoadPec | SDP_BMS.X/ltc6804.c:719-721 | the opcode in `cmd[0..2]` becomes its command frame |
| Ltc6804.Driver.Adcv | SDP_BMS.X/ltc6804.c:172-195 | sends the command frame of the opcode ADCV currently holds |
| Ltc6804.Driver.Adax | SDP_BMS.X/ltc6804.c:224-240 | sends the command frame of the opcode ADAX currently holds |
| Ltc6804.Driver.Clrcell | SDP_BMS.X/ltc6804.c:709-730 | sends the CLRCELL frame and reads nothing |
| Ltc6804.Driver.Clraux | SDP_BMS.X/ltc6804.c:756-776 | sends the CLRAUX frame and reads nothing |
| Ltc6804.Driver.RdcvReg | SDP_BMS.X/ltc6804.c:424-468 | given a buffer that holds `8 * total_ic` bytes (`ReceiveBufferHolds`), sends the read frame of cell group `reg` and stores the next `8 * total_ic` scripted bytes at the front of `data` |
| Ltc6804.Driver.RdauxReg | SDP_BMS.X/ltc6804.c:648-685 | the same for auxiliary group `reg`, group A for any value other than 2 |
| Ltc6804.Driver.CheckBlock | SDP_BMS.X/ltc6804.c:327-333 | reading the received PEC at the running `data_counter` (which must be `8 * ic + 6`), `received_pec != data_pec` is false exactly when device `ic`'s block passes its check |
| Ltc6804.Driver.ParseCodes | SDP_BMS.X/ltc6804.c:316-324 | starting from `data_counter == 8 * ic`, the three codes of device `ic` land in their three slots of row `ic`, every other slot is unchanged, and `data_counter` ends at `8 * ic + 6` without leaving the `char` range |
| Ltc6804.Driver.ParseGroup | SDP_BMS.X/ltc6804.c:309-336 | every device's codes of the group land in slots `3(g-1) .. 3g-1`, others unchanged; the status becomes `-1` exactly when some block fails, and codes are stored whether or not it passes; the running `data_counter` is `8 * i` when device `i` starts (loop invariant) and ends at `8 * total_ic`, the whole answer |
| Ltc6804.Driver.ReadRegister | SDP_BMS.X/ltc6804.c:310 | the read consumes exactly `8 * total_ic` script bytes, which are now `data` |
| Ltc6804.Driver.ReadGroup | SDP_BMS.X/ltc6804.c:344-370 | one group read: the trace of its frame, the consumed answer, the codes of that answer, the status, other slots unchanged |
| Ltc6804.Driver.MergeGroup | SDP_BMS.X/ltc6804.c:312-336 | parsing group `g` keeps the codes of earlier groups and the status covers every answer so far |
| Ltc6804.Driver.NextGroup | SDP_BMS.X/ltc6804.c:307-338 | one pass of the group loop extends the sweep's trace, consumed answers, codes and status by one group |
| Ltc6804.Driver.SweepGroups | SDP_BMS.X/ltc6804.c:304-339 | reading all groups: slot `3g + j` of device `i` holds code `j` of device `i` in answer `g`; status 0 exactly when every block of every answer passes |
| Ltc6804.Driver.Rdcv | SDP_BMS.X/ltc6804.c:286-375 | `LTC6804_rdcv` for `reg` 0..4: the bytes sent, the answers consumed, the codes stored, the status, and every slot outside the groups read unchanged |
| Ltc6804.Driver.Rdaux | SDP_BMS.X/ltc6804.c:509-602 | `LTC6804_rdaux` for `reg` 0..2, with the same statements for the six aux slots |
| Ltc6804.Driver.RdauxGroup | SDP_BMS.X/ltc6804.c:569-599 | the single-group branch of `LTC6804_rdaux` |
| Ltc6804.Driver.PutConfigBlock | SDP_BMS.X/ltc6804.c:839-849 | device `i`'s six bytes and their PEC extend the buffer by its block |
| Ltc6804.Driver.WrcfgBuffer | SDP_BMS.X/ltc6804.c:820-850 | the buffer is exactly `4 + 8n` bytes: `00 01 3D 6E`, then the blocks of devices `n-1` down to 0 |
| Ltc6804.Driver.AppendConfigBlock | SDP_BMS.X/ltc6804.c:835-850 | one turn of the device loop keeps the buffer equal to the header plus the blocks of the devices done so far |
| Ltc6804.Driver.Wrcfg | SDP_BMS.X/ltc6804.c:815-859 | the whole buffer is written to the bus in order and nothing is read |
| Ltc6804.Driver.CopyRow | SDP_BMS.X/ltc6804.c:932-935 | `r_config[i][0..7]` gets `rx_data[8i .. 8i+8]`; the other bytes are unchanged |
| Ltc6804.Driver.UnpackConfig | SDP_BMS.X/ltc6804.c:928-943 | `r_config` holds the answer in forward order, anything past it unchanged; status 0 exactly when every block passes |
| Ltc6804.Driver.Rdcfg | SDP_BMS.X/ltc6804.c:899-948 | sends `00 02 2B 0A` and `8n` filler bytes, copies the next `8n` script bytes into `r_config`, status as above |
| Ltc6804.Driver.RetryRdcv | SDP_BMS.X/ltc6804.c:83-85 | every sweep but the last failed its check; status 0 exactly when the last passed, and then the codes are that sweep's; the bus shows one full sweep per attempt |
| Ltc6804.Driver.MeasureVoltages | SDP_BMS.X/ltc6804.c:77-86 | one ADCV frame and then the retry loop on a zeroed 1 x 12 array; the codes are those of the first sweep that passes |

## Left out

- The error-detection strength of the CRC-15 in general (for instance, that
  every single-bit flip in every payload changes the PEC) is not proved; it
  would mean reasoning over all 2^48 payloads of the table arithmetic.
  `ChangedPayloadRejected` shows that any change of payload that changes the
  PEC is caught. The vectors `SingleBitFlipChangesPec` and
  `FlippedBitRejected` show single-bit flips being caught on fixed inputs.
- `wakeup_idle`, `wakeup_sleep` and the `cs_pin` toggles are pulses on a pin
  with no data. They are not part of the bus trace.
- `spi_write` and `spi_read` live in the SPI port driver, which is not part
  of this model. They are the `Bus.Write` and `Bus.Read` steps.
- `totalVoltage` and the float scaling and `< 0.1` clamp at the end of
  `measureVoltages` are floating-point code. `MeasureVoltages` returns the
  raw codes.
- `malloc` without `free` (the buffers of `rdaux`, `wrcfg` and `rdcfg`) are
  fresh arrays. The leak is not modelled.
- Ltc6804.Driver.RetryRdcv: the C loop retries for ever while the PEC check
  fails. The model also stops when the bus script holds fewer than 32 bytes
  (less than one sweep), so the loop terminates. The contract says which
  case ended it.
- Ltc6804.Driver.MeasureVoltages: has the same loop bound as `RetryRdcv`.
- Ltc6804.Driver.Rdcv: uses a receive buffer of `8 * total_ic` bytes in
  place of the declared 8-byte `cell_data` (see Findings).
- Ltc6804.Driver.Rdcv: `reg` must be 0..4, because `LTC6804_rdcv_reg`
  leaves the opcode uninitialised for any other group.
- Ltc6804.Driver.Rdaux: `reg` must be 0..2. `LTC6804_rdaux_reg` falls back
  to group A for other values, as `RdauxReg` and `RdauxOpcode` model, but
  the parse would then store outside `aux_codes[][6]`.
- Ltc6804.Driver.WrcfgBuffer: `total_ic` must be at most 31, so that the
  `char` length `4 + 8 * total_ic` does not wrap. The same bound (`MaxChain`)
  keeps the `char` read lengths `8 * total_ic` in range in every other
  operation.
- The register reads need enough bytes in the bus script for the answers.
  A real chain always answers, so the model has no error path for a short
  answer.

## Findings

| source | as written | input that shows it | evidently intended | confidence | as-written member | corrected member |
|---|---|---|---|---|---|---|
| SDP_BMS.X/ltc6804.c:296-310 | `LTC6804_rdcv` declares `char cell_data[8]` (its `malloc` of `8 * total_ic` bytes is commented out) but `LTC6804_rdcv_reg` stores `8 * total_ic` bytes into it | `total_ic = 2`: 16 bytes go into an 8-byte buffer, 8 of them past its end | a receive buffer of `8 * total_ic` bytes, as `LTC6804_rdaux` allocates | high (not executed) | Ltc6804.TwoDevicesOverrunCellData | Ltc6804.Driver.Rdcv |
