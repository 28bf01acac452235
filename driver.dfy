/** The driver of `ltc6804.c`: the global ADCV and ADAX opcodes that
    `set_adc` fills in, the commands that send them, the register reads that
    demultiplex a chain's answer into caller arrays, the configuration write
    and read, and the retry loop of `measureVoltages`.  The SPI port is a
    `Bus`; chip select and the wake-up pulses carry no data and are not
    part of the bus trace. */
module Ltc6804 {
  import opened Xc8
  import opened Ltc6804Header
  import opened Pec
  import opened Commands
  import opened Registers
  import opened Spi

  /** The `-1` a read stores in its unsigned `char` status on a PEC
      mismatch. */
  const PecError: u8 := 0xFF

  /** The longest chain for which `8 * total_ic` and `4 + 8 * total_ic` still
      fit the `char` lengths the driver passes around. */
  const MaxChain: nat := 31

  /** The size `LTC6804_rdcv` declares for its receive buffer `cell_data`;
      the allocation of `8 * total_ic` bytes next to it is commented out. */
  const CellDataAsWritten: nat := 8

  /** The bytes a read of `totalIc` devices stores past the end of
      `cell_data` as declared: `LTC6804_rdcv_reg` fills `8 * totalIc` bytes
      of it. */
  function CellDataOverrun(totalIc: nat): (overrun: nat)
    ensures overrun == 0 <==> totalIc <= 1
    ensures totalIc >= 1 ==> CellDataAsWritten + overrun == 8 * totalIc
  {
    if 8 * totalIc <= CellDataAsWritten then 0 else 8 * totalIc - CellDataAsWritten
  }

  /** A receive buffer of `length` bytes holds the answer of a chain of
      `totalIc` devices: what `LTC6804_rdcv_reg` and `LTC6804_rdaux_reg`
      demand of the buffer they are given. */
  predicate ReceiveBufferHolds(length: nat, totalIc: nat)
  {
    8 * totalIc <= length
  }

  /** `cell_data` as declared meets the buffer requirement of
      `LTC6804_rdcv_reg` only on a chain of at most one device; on any
      longer chain the read stores `CellDataOverrun` bytes past its end. */
  lemma CellDataHoldsOneDevice(totalIc: nat)
    ensures ReceiveBufferHolds(CellDataAsWritten, totalIc) <==> totalIc <= 1
    ensures !ReceiveBufferHolds(CellDataAsWritten, totalIc) ==> CellDataOverrun(totalIc) > 0
  {
  }

  /** A chain of two devices already writes a whole block past the end of
      `cell_data`: the read's buffer requirement fails. */
  lemma TwoDevicesOverrunCellData()
    ensures !ReceiveBufferHolds(CellDataAsWritten, 2) && CellDataOverrun(2) == 8
  {
    CellDataHoldsOneDevice(2);
  }

  /** `k` bytes of 0xFF, what `spi_write_read` clocks out while it reads. */
  function Filler(k: nat): (s: seq<u8>)
    ensures |s| == k && forall i :: 0 <= i < k ==> s[i] == 0xFF
  {
    if k == 0 then [] else Filler(k - 1) + [0xFF]
  }

  /** The bytes a register read of `n` devices puts on the bus: the command
      frame, then one filler byte for every byte read back. */
  function ReadTrace(op: seq<u8>, n: nat): (t: seq<u8>)
    requires |op| == 2
    ensures |t| == 4 + 8 * n && t[..4] == CommandFrame(op)
  {
    CommandFrame(op) + Filler(8 * n)
  }

  /** The answers to a series of reads split the script they consumed:
      when `script` is `Concat(answers) + before` and one more read takes
      `answer` off `before`, the series grown by `answer` leaves `after`. */
  lemma ConsumeAnswer(script: seq<u8>, answers: seq<seq<u8>>, before: seq<u8>, answer: seq<u8>, after: seq<u8>)
    requires script == Concat(answers) + before && before == answer + after
    ensures script == Concat(answers + [answer]) + after
  {
    ConcatNext(answers, answer);
  }

  /** A sequence is its first `k` elements followed by the rest. */
  lemma TakeDrop(s: seq<u8>, k: nat)
    requires k <= |s|
    ensures s == s[..k] + s[k..]
  {
  }

  /** Every answer of a series is the `8 * n` bytes a read of `n` devices
      brings back. */
  predicate Answers(answers: seq<seq<u8>>, n: nat)
  {
    forall g :: 0 <= g < |answers| ==> |answers[g]| == 8 * n
  }

  /** All blocks of all answers of a series pass the check. */
  predicate AllIntact(answers: seq<seq<u8>>, n: nat)
    requires Answers(answers, n)
  {
    forall g :: 0 <= g < |answers| ==> ResponseIntact(answers[g], n)
  }

  /** A series of one answer is that answer. */
  lemma OneAnswer(answer: seq<u8>, n: nat)
    requires |answer| == 8 * n
    ensures Answers([answer], n) && Concat([answer]) == answer
    ensures AllIntact([answer], n) <==> ResponseIntact(answer, n)
  {
    ConcatNext([], answer);
    assert [] + [answer] == [answer];
  }

  /** A series grown by one answer is intact exactly when the series was
      and the new answer is. */
  lemma AllIntactNext(answers: seq<seq<u8>>, answer: seq<u8>, n: nat)
    requires Answers(answers, n) && |answer| == 8 * n
    ensures Answers(answers + [answer], n)
    ensures AllIntact(answers + [answer], n) <==> AllIntact(answers, n) && ResponseIntact(answer, n)
  {
    var grown := answers + [answer];
    assert grown[|answers|] == answer;
    assert forall g :: 0 <= g < |answers| ==> grown[g] == answers[g];
    forall g | 0 <= g < |grown|
      ensures |grown[g]| == 8 * n
    {
      if g < |answers| {
        assert grown[g] == answers[g];
      }
    }
    if AllIntact(answers, n) && ResponseIntact(answer, n) {
      forall g | 0 <= g < |grown|
        ensures ResponseIntact(grown[g], n)
      {
        if g < |answers| {
          assert grown[g] == answers[g];
        }
      }
    }
  }

  /** The two kinds of voltage register a read demultiplexes: the cell
      voltage groups A to D, three cells each (twelve slots per device),
      and the auxiliary groups A and B, three GPIO codes each (six slots). */
  datatype Register = CellVoltage | Auxiliary
  {
    /** How many groups a sweep over all of them reads. */
    function Groups(): (k: nat)
      ensures k == 4 || k == 2
    {
      if this == CellVoltage then 4 else 2
    }

    /** The slots of one device's row of codes. */
    function Slots(): nat
    {
      3 * Groups()
    }

    /** The command reading group `group`. */
    function ReadOpcode(group: u8): (op: seq<u8>)
      requires 1 <= group as nat <= Groups()
      ensures |op| == 2
    {
      if this == CellVoltage then RdcvOpcode(group) else RdauxOpcode(group)
    }
  }

  /** What a sweep over groups 1 to `k` of `r` puts on the bus. */
  function SweepTrace(r: Register, n: nat, k: nat): seq<u8>
    requires k <= r.Groups()
  {
    if k == 0 then [] else SweepTrace(r, n, k - 1) + ReadTrace(r.ReadOpcode(k as u8), n)
  }

  /** One more read of a sweep appends its trace to what the bus has
      sent. */
  lemma SweepTraceNext(sent: seq<u8>, r: Register, n: nat, k: nat)
    requires 1 <= k <= r.Groups()
    ensures sent + SweepTrace(r, n, k) == sent + SweepTrace(r, n, k - 1) + ReadTrace(r.ReadOpcode(k as u8), n)
  {
  }

  /** Six configuration bytes of device `i` followed by their PEC, high
      byte first, are device `i`'s block. */
  lemma AppendBlock(done: seq<u8>, config: seq<u8>, i: nat, payload: seq<u8>, framed: seq<u8>)
    requires 6 * i + 6 <= |config|
    requires payload == done + config[6 * i .. 6 * i + 6]
    requires framed == payload + [HighByte(Pec15(config[6 * i .. 6 * i + 6])), LowByte(Pec15(config[6 * i .. 6 * i + 6]))]
    ensures framed == done + ConfigBlock(config, i)
  {
  }

  /** The WRCFG frame grows by the block of the next nearer device. */
  lemma ConfigFrameNext(done: seq<u8>, config: seq<u8>, n: nat, lo: nat, grown: seq<u8>)
    requires 0 < lo <= n && 6 * n <= |config|
    requires done == WrcfgFrame + ConfigDescending(config, n, lo)
    requires grown == done + ConfigBlock(config, lo - 1)
    ensures grown == WrcfgFrame + ConfigDescending(config, n, lo - 1)
  {
    ConfigDescendingNext(config, n, lo);
    AppendAssociative(WrcfgFrame, ConfigDescending(config, n, lo), ConfigBlock(config, lo - 1));
  }

  /** The bytes the sweeps of a retry loop consumed, first sweep first. */
  function Flatten(attempts: seq<seq<seq<u8>>>): seq<u8>
  {
    if |attempts| == 0 then [] else Flatten(attempts[..|attempts| - 1]) + Concat(attempts[|attempts| - 1])
  }

  /** One more sweep appends what it consumed. */
  lemma FlattenNext(attempts: seq<seq<seq<u8>>>, answers: seq<seq<u8>>)
    ensures Flatten(attempts + [answers]) == Flatten(attempts) + Concat(answers)
  {
    assert (attempts + [answers])[..|attempts|] == attempts;
  }

  /** `t`, `k` times over. */
  function Repeat(t: seq<u8>, k: nat): seq<u8>
  {
    if k == 0 then [] else Repeat(t, k - 1) + t
  }

  /** One more sweep of the retry loop: the bus has sent one more sweep
      trace `t` and consumed one more sweep's answers. */
  lemma RetryStep(sent0: seq<u8>, sent1: seq<u8>, sent2: seq<u8>, t: seq<u8>,
                  script0: seq<u8>, script1: seq<u8>, script2: seq<u8>,
                  attempts: seq<seq<seq<u8>>>, answers: seq<seq<u8>>)
    requires sent1 == sent0 + Repeat(t, |attempts|) && sent2 == sent1 + t
    requires script0 == Flatten(attempts) + script1 && script1 == Concat(answers) + script2
    ensures sent2 == sent0 + Repeat(t, |attempts + [answers]|)
    ensures script0 == Flatten(attempts + [answers]) + script2
  {
    FlattenNext(attempts, answers);
    assert Repeat(t, |attempts| + 1) == Repeat(t, |attempts|) + t;
  }

  /** Every attempt of the retry loop is a sweep of the four cell groups of
      one device. */
  predicate Sweeps(attempts: seq<seq<seq<u8>>>)
  {
    forall k :: 0 <= k < |attempts| ==> |attempts[k]| == 4 && Answers(attempts[k], 1)
  }

  /** The last attempt of the retry loop. */
  function LastSweep(attempts: seq<seq<seq<u8>>>): seq<seq<u8>>
    requires 0 < |attempts|
  {
    attempts[|attempts| - 1]
  }

  /** Every attempt before the last one failed its PEC check. */
  predicate Retried(attempts: seq<seq<seq<u8>>>)
    requires Sweeps(attempts)
  {
    forall k :: 0 <= k < |attempts| - 1 ==> !AllIntact(attempts[k], 1)
  }

  /** A failed last attempt followed by a new one keeps the loop's record. */
  lemma RetriedNext(attempts: seq<seq<seq<u8>>>, answers: seq<seq<u8>>)
    requires Sweeps(attempts) && Retried(attempts)
    requires |answers| == 4 && Answers(answers, 1)
    requires 0 < |attempts| ==> !AllIntact(attempts[|attempts| - 1], 1)
    ensures Sweeps(attempts + [answers]) && Retried(attempts + [answers])
    ensures (attempts + [answers])[|attempts|] == answers
  {
    var grown := attempts + [answers];
    assert grown[|attempts|] == answers;
    forall k | 0 <= k < |attempts|
      ensures grown[k] == attempts[k]
    {
    }
  }

  class Driver {
    /** The SPI port. */
    const bus: Bus
    /** `ADCV`, the cell conversion opcode. */
    const adcv: array<u8>
    /** `ADAX`, the GPIO conversion opcode. */
    const adax: array<u8>

    predicate Valid()
    {
      adcv.Length == 2 && adax.Length == 2 && adcv != adax
    }

    /** The driver before `LTC6804_initialize`: the opcode globals hold the
        zeros of static storage. */
    constructor (bus: Bus)
      ensures Valid() && this.bus == bus
      ensures fresh(adcv) && fresh(adax) && adcv[..] == [0, 0] && adax[..] == [0, 0]
    {
      this.bus := bus;
      adcv := new u8[2] [0, 0];
      adax := new u8[2] [0, 0];
    }

    /** `set_adc`: packs mode, discharge permit and channel selectors into
        ADCV and ADAX, which keep them until the next call. */
    method SetAdc(md: u8, dcp: u8, ch: u8, chg: u8)
      requires Valid()
      modifies adcv, adax
      ensures adcv[..] == AdcvOpcode(md, dcp, ch) && adax[..] == AdaxOpcode(md, chg)
    {
      ModeBits(md);
      var mdBits: u8 := (((md as bv8) & 0x02) >> 1) as int;
      adcv[0] := (mdBits + 0x02) % 0x100;
      mdBits := (((md as bv8) & 0x01) << 7) as int;
      adcv[1] := (mdBits + 0x60 + dcp * 0x10 + ch) % 0x100;
      mdBits := (((md as bv8) & 0x02) >> 1) as int;
      adax[0] := (mdBits + 0x04) % 0x100;
      mdBits := (((md as bv8) & 0x01) << 7) as int;
      adax[1] := (mdBits + 0x60 + chg) % 0x100;
    }

    /** `LTC6804_initialize`: normal mode, no discharge, all cells and all
        GPIO channels. */
    method Initialize()
      requires Valid()
      modifies adcv, adax
      ensures adcv[..] == [0x03, 0x60] && adax[..] == [0x05, 0x60]
    {
      SetAdc(MD_NORMAL, DCP_DISABLED, CELL_CH_ALL, AUX_CH_ALL);
      InitialConversionOpcodes();
    }

    /** `spi_write_array`: the first `len` bytes of `data`, in order. */
    method SpiWriteArray(len: u8, data: array<u8>)
      requires len <= data.Length
      modifies bus
      ensures bus.sent == old(bus.sent) + data[..len] && bus.script == old(bus.script)
    {
      var i := 0;
      while i < len
        invariant 0 <= i <= len
        invariant bus.sent == old(bus.sent) + data[..i] && bus.script == old(bus.script)
      {
        bus.Write(data[i]);
        assert data[..i + 1] == data[..i] + [data[i]];
        i := i + 1;
      }
    }

    /** `spi_write_read`: the first `txLen` bytes of `tx` go out, then
        `rxLen` bytes of the answer come in while 0xFF goes out.  A null
        `rx` (the clear commands pass 0) is never written since they read
        nothing. */
    method SpiWriteRead(tx: array<u8>, txLen: u8, rx: array?<u8>, rxLen: u8)
      requires txLen <= tx.Length
      requires 0 < rxLen ==> rx != null && rxLen <= rx.Length
      requires rxLen <= |bus.script|
      modifies bus, rx
      ensures bus.sent == old(bus.sent) + old(tx[..txLen]) + Filler(rxLen)
      ensures bus.script == old(bus.script)[rxLen..]
      ensures rx != null ==> rx[..rxLen] == old(bus.script)[..rxLen] && rx[rxLen..] == old(rx[rxLen..])
    {
      var i := 0;
      while i < txLen
        invariant 0 <= i <= txLen
        invariant bus.sent == old(bus.sent) + old(tx[..i]) && bus.script == old(bus.script)
        invariant unchanged(tx) && (rx != null ==> unchanged(rx))
      {
        bus.Write(tx[i]);
        assert old(tx[..i + 1]) == old(tx[..i]) + [old(tx[i])];
        i := i + 1;
      }
      i := 0;
      while i < rxLen
        invariant 0 <= i <= rxLen
        invariant bus.sent == old(bus.sent) + old(tx[..txLen]) + Filler(i)
        invariant bus.script == old(bus.script)[i..]
        invariant rx != null ==> rx[..i] == old(bus.script)[..i] && rx[i..] == old(rx[i..])
      {
        var b := bus.Read(0xFF);
        rx[i] := b;
        assert old(bus.script)[..i + 1] == old(bus.script)[..i] + [b];
        i := i + 1;
      }
    }

    /** Steps 2 of every fixed command in the C code: the PEC of the two
        opcode bytes in `cmd[0..2]` goes, high byte first, into `cmd[2..4]`. */
    method LoadPec(cmd: array<u8>)
      requires cmd.Length == 4
      modifies cmd
      ensures cmd[..] == CommandFrame(old(cmd[..2]))
    {
      var cmdPec := Pec15Calc(2, cmd, 0);
      cmd[2] := HighByte(cmdPec);
      cmd[3] := LowByte(cmdPec);
      assert cmd[..] == old(cmd[..2]) + [HighByte(cmdPec), LowByte(cmdPec)];
    }

    /** `LTC6804_adcv`: broadcasts the frame of the opcode ADCV holds now. */
    method Adcv()
      requires Valid()
      modifies bus
      ensures bus.sent == old(bus.sent) + CommandFrame(adcv[..]) && bus.script == old(bus.script)
    {
      var cmd := new u8[4];
      cmd[0] := adcv[0];
      cmd[1] := adcv[1];
      var cmdPec := Pec15Calc(2, adcv, 0);
      cmd[2] := HighByte(cmdPec);
      cmd[3] := LowByte(cmdPec);
      assert adcv[0..2] == adcv[..];
      assert cmd[..] == adcv[..] + [HighByte(cmdPec), LowByte(cmdPec)];
      SpiWriteArray(4, cmd);
    }

    /** `LTC6804_adax`: broadcasts the frame of the opcode ADAX holds now. */
    method Adax()
      requires Valid()
      modifies bus
      ensures bus.sent == old(bus.sent) + CommandFrame(adax[..]) && bus.script == old(bus.script)
    {
      var cmd := new u8[4];
      cmd[0] := adax[0];
      cmd[1] := adax[1];
      var cmdPec := Pec15Calc(2, adax, 0);
      cmd[2] := HighByte(cmdPec);
      cmd[3] := LowByte(cmdPec);
      assert adax[0..2] == adax[..];
      assert cmd[..] == adax[..] + [HighByte(cmdPec), LowByte(cmdPec)];
      SpiWriteArray(4, cmd);
    }

    /** `LTC6804_clrcell`: sends CLRCELL and reads nothing back. */
    method Clrcell()
      modifies bus
      ensures bus.sent == old(bus.sent) + CommandFrame(ClrcellOpcode) && bus.script == old(bus.script)
    {
      var cmd := new u8[4];
      cmd[0] := 0x07;
      cmd[1] := 0x11;
      assert cmd[..2] == ClrcellOpcode;
      ClrcellFrame();
      LoadPec(cmd);
      SpiWriteRead(cmd, 4, null, 0);
    }

    /** `LTC6804_clraux`: sends CLRAUX and reads nothing back. */
    method Clraux()
      modifies bus
      ensures bus.sent == old(bus.sent) + CommandFrame(ClrauxOpcode) && bus.script == old(bus.script)
    {
      var cmd := new u8[4];
      cmd[0] := 0x07;
      cmd[1] := 0x12;
      assert cmd[..2] == ClrauxOpcode;
      ClrauxFrame();
      LoadPec(cmd);
      SpiWriteRead(cmd, 4, null, 0);
    }

    /** `LTC6804_rdcv_reg`: sends the read command of cell group `reg` and
        stores the `8 * totalIc` bytes the chain answers at the front of
        `data`. */
    method RdcvReg(reg: u8, totalIc: u8, data: array<u8>)
      requires 1 <= reg <= 4 && totalIc as nat <= MaxChain
      requires ReceiveBufferHolds(data.Length, totalIc as nat) && 8 * totalIc <= |bus.script|
      modifies bus, data
      ensures bus.sent == old(bus.sent) + ReadTrace(RdcvOpcode(reg), totalIc)
      ensures bus.script == old(bus.script)[8 * totalIc..]
      ensures data[..8 * totalIc] == old(bus.script)[..8 * totalIc]
      ensures data[8 * totalIc..] == old(data[8 * totalIc..])
    {
      var cmd := new u8[4];
      if reg == 1 {
        cmd[1] := 0x04;
        cmd[0] := 0x00;
      } else if reg == 2 {
        cmd[1] := 0x06;
        cmd[0] := 0x00;
      } else if reg == 3 {
        cmd[1] := 0x08;
        cmd[0] := 0x00;
      } else if reg == 4 {
        cmd[1] := 0x0A;
        cmd[0] := 0x00;
      }
      assert cmd[..2] == RdcvOpcode(reg);
      LoadPec(cmd);
      SpiWriteRead(cmd, 4, data, 8 * totalIc);
    }

    /** `LTC6804_rdaux_reg`: sends the read command of auxiliary group `reg`
        (group A for any value but 2) and stores the answer at the front of
        `data`. */
    method RdauxReg(reg: u8, totalIc: u8, data: array<u8>)
      requires totalIc as nat <= MaxChain
      requires ReceiveBufferHolds(data.Length, totalIc as nat) && 8 * totalIc <= |bus.script|
      modifies bus, data
      ensures bus.sent == old(bus.sent) + ReadTrace(RdauxOpcode(reg), totalIc)
      ensures bus.script == old(bus.script)[8 * totalIc..]
      ensures data[..8 * totalIc] == old(bus.script)[..8 * totalIc]
      ensures data[8 * totalIc..] == old(data[8 * totalIc..])
    {
      var cmd := new u8[4];
      if reg == 1 {
        cmd[1] := 0x0C;
        cmd[0] := 0x00;
      } else if reg == 2 {
        cmd[1] := 0x0E;
        cmd[0] := 0x00;
      } else {
        cmd[1] := 0x0C;
        cmd[0] := 0x00;
      }
      assert cmd[..2] == RdauxOpcode(reg);
      LoadPec(cmd);
      SpiWriteRead(cmd, 4, data, 8 * totalIc);
    }

    /** The check `LTC6804_rdcv`, `LTC6804_rdaux` and `LTC6804_rdcfg` make
        on the block of device `ic`: the PEC received at `at` and `at + 1`,
        high byte first, against `pec15_calc` of the six bytes from
        `8 * ic` on.  The reads find it at their running `data_counter`,
        `LTC6804_rdcfg` at bytes 6 and 7 of row `ic`; both are `8 * ic + 6`. */
    static method CheckBlock(data: array<u8>, ic: nat, at: nat) returns (intact: bool)
      requires at == 8 * ic + 6 && at + 2 <= data.Length
      ensures intact <==> BlockIntact(data[..], ic)
    {
      var receivedPec: u16 := data[at] as int * 0x100 + data[at + 1] as int;
      assert receivedPec == ReceivedPec(data[..], ic);
      var dataPec := Pec15Calc(6, data, 8 * ic);
      assert data[8 * ic .. 8 * ic + 6] == Payload(data[..], ic);
      intact := receivedPec == dataPec;
    }

    /** The inner loop of the group parse: the three codes of device `ic`,
        low byte first from the running `data_counter` on, go to slots
        `base` to `base + 2` of row `ic`; `data_counter` moves on by two
        bytes per code and is returned.  It is a `char`, and stays below
        256 on a chain of at most `MaxChain` devices. */
    static method ParseCodes(data: array<u8>, dataCounter: u8, ic: nat, base: nat, codes: array2<u16>)
      returns (next: u8)
      requires ic < MaxChain && dataCounter as nat == 8 * ic
      requires 8 * ic + 8 <= data.Length && ic < codes.Length0 && base + 3 <= codes.Length1
      modifies codes
      ensures next as nat == 8 * ic + 6
      ensures forall j :: 0 <= j < 3 ==> codes[ic, base + j] == Code(data[..], ic, j)
      ensures forall i, s :: 0 <= i < codes.Length0 && 0 <= s < codes.Length1 && !(i == ic && base <= s < base + 3) ==>
        codes[i, s] == old(codes[i, s])
    {
      next := dataCounter;
      var cell := 0;
      while cell < 3
        invariant 0 <= cell <= 3
        invariant next as nat == 8 * ic + 2 * cell
        invariant forall j :: 0 <= j < cell ==> codes[ic, base + j] == Code(data[..], ic, j)
        invariant forall i, s :: 0 <= i < codes.Length0 && 0 <= s < codes.Length1 && !(i == ic && base <= s < base + cell) ==>
          codes[i, s] == old(codes[i, s])
      {
        var parsedCell: u16 := data[next] as int + data[next + 1] as int * 0x100;
        codes[ic, cell + base] := parsedCell;
        next := next + 2;
        cell := cell + 1;
      }
    }

    /** The parsing half of `LTC6804_rdcv` and `LTC6804_rdaux` for one
        register group: `data_counter` starts at 0 and runs across the
        devices; for each device `ic` the three codes from `data_counter` on
        go to slots `j + 3 * (group - 1)` of row `ic`, the PEC after them
        is checked, and `data_counter` moves past it, to `8 * (ic + 1)`.
        `status` starts as the caller's `pec_error` and becomes `-1` when
        any device's check fails; codes are stored whether or not the check
        passes.  The final `data_counter`, `8 * totalIc`, is returned: the
        parse used the whole answer. */
    static method ParseGroup(data: array<u8>, totalIc: u8, group: nat, codes: array2<u16>, pecError: u8)
      returns (status: u8, dataCounter: u8)
      requires totalIc as nat <= MaxChain && 8 * totalIc <= data.Length
      requires 1 <= group && 3 * group <= codes.Length1 && totalIc as nat <= codes.Length0
      modifies codes
      ensures dataCounter as nat == 8 * totalIc
      ensures status == if ResponseIntact(data[..], totalIc) then pecError else PecError
      ensures forall i, j :: 0 <= i < totalIc as nat && 0 <= j < 3 ==>
        codes[i, 3 * (group - 1) + j] == Code(data[..], i, j)
      ensures forall i, s :: 0 <= i < codes.Length0 && 0 <= s < codes.Length1 && !(i < totalIc as nat && 3 * (group - 1) <= s < 3 * group) ==>
        codes[i, s] == old(codes[i, s])
    {
      var base := 3 * (group - 1);
      status := pecError;
      dataCounter := 0;
      var ic := 0;
      while ic < totalIc as nat
        invariant 0 <= ic <= totalIc as nat
        invariant dataCounter as nat == 8 * ic
        invariant status == if ResponseIntact(data[..], ic) then pecError else PecError
        invariant forall i, j :: 0 <= i < ic && 0 <= j < 3 ==> codes[i, base + j] == Code(data[..], i, j)
        invariant forall i, s :: 0 <= i < codes.Length0 && 0 <= s < codes.Length1 && !(i < ic && base <= s < base + 3) ==>
          codes[i, s] == old(codes[i, s])
      {
        dataCounter := ParseCodes(data, dataCounter, ic, base, codes);
        var intact := CheckBlock(data, ic, dataCounter as nat);
        ResponseIntactNext(data[..], ic);
        if !intact {
          status := PecError;
        }
        dataCounter := dataCounter + 2;
        ic := ic + 1;
      }
    }

    /** The read half of one register group: `LTC6804_rdcv_reg` or
        `LTC6804_rdaux_reg` for group `group` of `r`.  `answer` is the part
        of the bus script the read consumed, now in `data`. */
    method ReadRegister(r: Register, group: u8, totalIc: u8, data: array<u8>) returns (ghost answer: seq<u8>)
      requires 1 <= group as nat <= r.Groups() && totalIc as nat <= MaxChain && data.Length == 8 * totalIc
      requires 8 * totalIc <= |bus.script|
      modifies bus, data
      ensures answer == data[..] && |answer| == 8 * totalIc && old(bus.script) == answer + bus.script
      ensures bus.sent == old(bus.sent) + ReadTrace(r.ReadOpcode(group), totalIc as nat)
    {
      ghost var script := bus.script;
      if r == CellVoltage {
        RdcvReg(group, totalIc, data);
      } else {
        RdauxReg(group, totalIc, data);
      }
      answer := data[..];
      assert answer == data[..8 * totalIc];
      TakeDrop(script, 8 * totalIc as nat);
    }

    /** One register group of a read (steps a.i to a.iii, and b.i to
        b.iii, of `LTC6804_rdcv` and `LTC6804_rdaux`): group `group` is
        read into `data`, then parsed into `codes`.  `answer` is the part of
        the bus script the read consumed. */
    method ReadGroup(r: Register, group: u8, totalIc: u8, data: array<u8>, codes: array2<u16>, pecError: u8)
      returns (status: u8, ghost answer: seq<u8>)
      requires 1 <= group as nat <= r.Groups() && totalIc as nat <= MaxChain && data.Length == 8 * totalIc
      requires totalIc as nat <= codes.Length0 && codes.Length1 == r.Slots()
      requires 8 * totalIc <= |bus.script|
      modifies bus, data, codes
      ensures |answer| == 8 * totalIc && old(bus.script) == answer + bus.script
      ensures bus.sent == old(bus.sent) + ReadTrace(r.ReadOpcode(group), totalIc as nat)
      ensures status == if ResponseIntact(answer, totalIc as nat) then pecError else PecError
      ensures forall i, j :: 0 <= i < totalIc as nat && 0 <= j < 3 ==>
        codes[i, 3 * (group as nat - 1) + j] == Code(answer, i, j)
      ensures forall i, s :: 0 <= i < codes.Length0 && 0 <= s < codes.Length1 && !(i < totalIc as nat && 3 * (group as nat - 1) <= s < 3 * group as nat) ==>
        codes[i, s] == old(codes[i, s])
    {
      answer := ReadRegister(r, group, totalIc, data);
      var dataCounter;
      status, dataCounter := ParseGroup(data, totalIc, group as nat, codes, pecError);
    }

    /** The parse of group `group` after the groups whose answers are
        `earlier`: the slots of the earlier groups keep their codes, the
        group's own slots get the codes of `data`, and the status covers
        every answer so far. */
    static method MergeGroup(data: array<u8>, totalIc: u8, group: u8, codes: array2<u16>,
                             pecError: u8, ghost earlier: seq<seq<u8>>)
      returns (status: u8)
      requires totalIc as nat <= MaxChain && data.Length == 8 * totalIc
      requires 1 <= group && 3 * group as nat <= codes.Length1 && totalIc as nat <= codes.Length0
      requires |earlier| == group as nat - 1 && Answers(earlier, totalIc as nat)
      requires pecError == if AllIntact(earlier, totalIc as nat) then 0 else PecError
      requires forall i, g, j :: 0 <= i < totalIc as nat && 0 <= g < group as nat - 1 && 0 <= j < 3 ==>
        codes[i, 3 * g + j] == Code(earlier[g], i, j)
      modifies codes
      ensures Answers(earlier + [data[..]], totalIc as nat)
      ensures status == if AllIntact(earlier + [data[..]], totalIc as nat) then 0 else PecError
      ensures forall i, g, j :: 0 <= i < totalIc as nat && 0 <= g < group as nat && 0 <= j < 3 ==>
        codes[i, 3 * g + j] == Code((earlier + [data[..]])[g], i, j)
      ensures forall i, s :: totalIc as nat <= i < codes.Length0 && 0 <= s < codes.Length1 ==>
        codes[i, s] == old(codes[i, s])
    {
      var dataCounter;
      status, dataCounter := ParseGroup(data, totalIc, group as nat, codes, pecError);
      ghost var answer := data[..];
      AllIntactNext(earlier, answer, totalIc as nat);
      ghost var answers := earlier + [answer];
      forall i, g, j | 0 <= i < totalIc as nat && 0 <= g < group as nat && 0 <= j < 3
        ensures codes[i, 3 * g + j] == Code(answers[g], i, j)
      {
        if g < group as nat - 1 {
          assert codes[i, 3 * g + j] == old(codes[i, 3 * g + j]);
          assert answers[g] == earlier[g];
        } else {
          assert answers[g] == answer;
        }
      }
    }

    /** One pass of the group loop of branch 1.a of `LTC6804_rdcv` and
        `LTC6804_rdaux`: group `group` is read and parsed after the groups
        whose answers are `earlier`, extending the sweep's slots and status
        by one group. */
    method NextGroup(r: Register, group: u8, totalIc: u8, data: array<u8>, codes: array2<u16>,
                     pecError: u8, ghost earlier: seq<seq<u8>>, ghost origin: seq<u8>, ghost originSent: seq<u8>)
      returns (status: u8, ghost answer: seq<u8>)
      requires 1 <= group as nat <= r.Groups() && totalIc as nat <= MaxChain && data.Length == 8 * totalIc
      requires totalIc as nat <= codes.Length0 && codes.Length1 == r.Slots()
      requires 8 * totalIc <= |bus.script|
      requires |earlier| == group as nat - 1 && Answers(earlier, totalIc as nat)
      requires origin == Concat(earlier) + bus.script
      requires bus.sent == originSent + SweepTrace(r, totalIc as nat, group as nat - 1)
      requires pecError == if AllIntact(earlier, totalIc as nat) then 0 else PecError
      requires forall i, g, j :: 0 <= i < totalIc as nat && 0 <= g < group as nat - 1 && 0 <= j < 3 ==>
        codes[i, 3 * g + j] == Code(earlier[g], i, j)
      modifies bus, data, codes
      ensures |answer| == 8 * totalIc && old(bus.script) == answer + bus.script
      ensures Answers(earlier + [answer], totalIc as nat)
      ensures origin == Concat(earlier + [answer]) + bus.script
      ensures bus.sent == originSent + SweepTrace(r, totalIc as nat, group as nat)
      ensures status == if AllIntact(earlier + [answer], totalIc as nat) then 0 else PecError
      ensures forall i, g, j :: 0 <= i < totalIc as nat && 0 <= g < group as nat && 0 <= j < 3 ==>
        codes[i, 3 * g + j] == Code((earlier + [answer])[g], i, j)
      ensures forall i, s :: totalIc as nat <= i < codes.Length0 && 0 <= s < codes.Length1 ==>
        codes[i, s] == old(codes[i, s])
    {
      answer := ReadRegister(r, group, totalIc, data);
      ConsumeAnswer(origin, earlier, old(bus.script), answer, bus.script);
      SweepTraceNext(originSent, r, totalIc as nat, group as nat);
      status := MergeGroup(data, totalIc, group, codes, pecError, earlier);
    }

    /** Branch 1.a of `LTC6804_rdcv` and `LTC6804_rdaux`: every group of
        `r` one after another, each read into `data` and parsed into its
        slots of `codes`, with the PEC status carried across the reads. */
    method SweepGroups(r: Register, totalIc: u8, data: array<u8>, codes: array2<u16>)
      returns (status: u8, ghost answers: seq<seq<u8>>)
      requires totalIc as nat <= MaxChain && data.Length == 8 * totalIc
      requires totalIc as nat <= codes.Length0 && codes.Length1 == r.Slots()
      requires r == CellVoltage ==> 32 * totalIc <= |bus.script|
      requires r == Auxiliary ==> 16 * totalIc <= |bus.script|
      modifies bus, data, codes
      ensures |answers| == r.Groups() && Answers(answers, totalIc as nat)
      ensures old(bus.script) == Concat(answers) + bus.script
      ensures status == if AllIntact(answers, totalIc as nat) then 0 else PecError
      ensures bus.sent == old(bus.sent) + SweepTrace(r, totalIc as nat, r.Groups())
      ensures forall i, g, j :: 0 <= i < totalIc as nat && 0 <= g < r.Groups() && 0 <= j < 3 ==>
        codes[i, 3 * g + j] == Code(answers[g], i, j)
      ensures forall i, s :: totalIc as nat <= i < codes.Length0 && 0 <= s < codes.Length1 ==>
        codes[i, s] == old(codes[i, s])
    {
      status := 0;
      answers := [];
      var group := 1;
      while group <= r.Groups()
        invariant 1 <= group <= r.Groups() + 1 && |answers| == group - 1
        invariant Answers(answers, totalIc as nat)
        invariant old(bus.script) == Concat(answers) + bus.script
        invariant group + 3 == r.Groups() ==> |bus.script| >= 32 * totalIc
        invariant group + 2 == r.Groups() ==> |bus.script| >= 24 * totalIc
        invariant group + 1 == r.Groups() ==> |bus.script| >= 16 * totalIc
        invariant group <= r.Groups() ==> |bus.script| >= 8 * totalIc
        invariant bus.sent == old(bus.sent) + SweepTrace(r, totalIc as nat, group - 1)
        invariant status == if AllIntact(answers, totalIc as nat) then 0 else PecError
        invariant forall i, g, j :: 0 <= i < totalIc as nat && 0 <= g < group - 1 && 0 <= j < 3 ==>
          codes[i, 3 * g + j] == Code(answers[g], i, j)
        invariant forall i, s :: totalIc as nat <= i < codes.Length0 && 0 <= s < codes.Length1 ==>
          codes[i, s] == old(codes[i, s])
      {
        ghost var answer;
        status, answer := NextGroup(r, group as u8, totalIc, data, codes, status, answers, old(bus.script), old(bus.sent));
        answers := answers + [answer];
        group := group + 1;
      }
    }

    /** `LTC6804_rdcv`: reads cell group `reg` of every device, or all four
        groups one after another when `reg` is 0, and stores each device's
        codes in its row of `cellCodes`.  `answers` are the chain's answers
        to those reads, in order; the status is 0 when every block of every
        answer passed its PEC check and `-1` otherwise.  The receive buffer
        holds the `8 * totalIc` bytes a read brings back. */
    method Rdcv(reg: u8, totalIc: u8, cellCodes: array2<u16>) returns (status: u8, ghost answers: seq<seq<u8>>)
      requires reg <= 4 && totalIc as nat <= MaxChain
      requires totalIc as nat <= cellCodes.Length0 && cellCodes.Length1 == 12
      requires 8 * totalIc <= |bus.script| && (reg == 0 ==> 32 * totalIc <= |bus.script|)
      modifies bus, cellCodes
      ensures |answers| == (if reg == 0 then 4 else 1)
      ensures Answers(answers, totalIc as nat)
      ensures old(bus.script) == Concat(answers) + bus.script
      ensures status == if AllIntact(answers, totalIc as nat) then 0 else PecError
      ensures reg == 0 ==> bus.sent == old(bus.sent) + SweepTrace(CellVoltage, totalIc as nat, 4)
      ensures reg != 0 ==> bus.sent == old(bus.sent) + ReadTrace(RdcvOpcode(reg), totalIc as nat)
      ensures reg == 0 ==> forall i, g, j :: 0 <= i < totalIc as nat && 0 <= g < 4 && 0 <= j < 3 ==>
        cellCodes[i, 3 * g + j] == Code(answers[g], i, j)
      ensures reg != 0 ==> forall i, j :: 0 <= i < totalIc as nat && 0 <= j < 3 ==>
        cellCodes[i, 3 * (reg - 1) + j] == Code(answers[0], i, j)
      ensures forall i, s :: 0 <= i < cellCodes.Length0 && 0 <= s < 12 ==>
        (i < totalIc as nat && (reg == 0 || 3 * (reg - 1) <= s < 3 * reg)) || cellCodes[i, s] == old(cellCodes[i, s])
    {
      var cellData := new u8[8 * totalIc];
      if reg == 0 {
        status, answers := SweepGroups(CellVoltage, totalIc, cellData, cellCodes);
      } else {
        ghost var answer;
        status, answer := ReadGroup(CellVoltage, reg, totalIc, cellData, cellCodes, 0);
        ConcatNext([], answer);
        answers := [answer];
      }
    }

    /** `LTC6804_rdaux`: reads auxiliary group `reg` of every device, or
        both groups one after the other when `reg` is 0, and stores each
        device's codes in its row of `auxCodes`; the status is as for
        `Rdcv`.  The receive buffer is the `8 * totalIc` bytes the C code
        allocates. */
    method Rdaux(reg: u8, totalIc: u8, auxCodes: array2<u16>) returns (status: u8, ghost answers: seq<seq<u8>>)
      requires reg <= 2 && totalIc as nat <= MaxChain
      requires totalIc as nat <= auxCodes.Length0 && auxCodes.Length1 == 6
      requires 8 * totalIc <= |bus.script| && (reg == 0 ==> 16 * totalIc <= |bus.script|)
      modifies bus, auxCodes
      ensures |answers| == (if reg == 0 then 2 else 1)
      ensures Answers(answers, totalIc as nat)
      ensures old(bus.script) == Concat(answers) + bus.script
      ensures status == if AllIntact(answers, totalIc as nat) then 0 else PecError
      ensures bus.sent == old(bus.sent) + if reg == 0 then SweepTrace(Auxiliary, totalIc as nat, 2) else ReadTrace(RdauxOpcode(reg), totalIc as nat)
      ensures reg == 0 ==> forall i, g, j :: 0 <= i < totalIc as nat && 0 <= g < 2 && 0 <= j < 3 ==>
        auxCodes[i, 3 * g + j] == Code(answers[g], i, j)
      ensures reg != 0 ==> forall i, j :: 0 <= i < totalIc as nat && 0 <= j < 3 ==>
        auxCodes[i, 3 * (reg - 1) + j] == Code(answers[0], i, j)
      ensures forall i, s :: 0 <= i < auxCodes.Length0 && 0 <= s < 6 ==>
        (i < totalIc as nat && (reg == 0 || 3 * (reg - 1) <= s < 3 * reg)) || auxCodes[i, s] == old(auxCodes[i, s])
    {
      var data := new u8[8 * totalIc];
      if reg == 0 {
        status, answers := SweepGroups(Auxiliary, totalIc, data, auxCodes);
      } else {
        status, answers := RdauxGroup(reg, totalIc, data, auxCodes);
      }
    }

    /** `LTC6804_rdaux` for one group `reg` of 1 or 2: a single read whose
        codes land in columns `3 * (reg - 1)` up to `3 * reg - 1`. */
    method RdauxGroup(reg: u8, totalIc: u8, data: array<u8>, auxCodes: array2<u16>) returns (status: u8, ghost answers: seq<seq<u8>>)
      requires 1 <= reg <= 2 && totalIc as nat <= MaxChain && data.Length == 8 * totalIc
      requires totalIc as nat <= auxCodes.Length0 && auxCodes.Length1 == 6
      requires 8 * totalIc <= |bus.script|
      modifies bus, data, auxCodes
      ensures |answers| == 1 && Answers(answers, totalIc as nat)
      ensures old(bus.script) == Concat(answers) + bus.script
      ensures status == if AllIntact(answers, totalIc as nat) then 0 else PecError
      ensures bus.sent == old(bus.sent) + ReadTrace(Auxiliary.ReadOpcode(reg), totalIc as nat)
      ensures forall i, j :: 0 <= i < totalIc as nat && 0 <= j < 3 ==>
        auxCodes[i, 3 * (reg as nat - 1) + j] == Code(answers[0], i, j)
      ensures forall i, s :: 0 <= i < auxCodes.Length0 && 0 <= s < auxCodes.Length1 && !(i < totalIc as nat && 3 * (reg as nat - 1) <= s < 3 * reg as nat) ==>
        auxCodes[i, s] == old(auxCodes[i, s])
    {
      ghost var answer;
      status, answer := ReadGroup(Auxiliary, reg, totalIc, data, auxCodes, 0);
      OneAnswer(answer, totalIc as nat);
      answers := [answer];
    }

    /** `a[k] = x`, seen from the prefix it extends. */
    static method Put(a: array<u8>, k: nat, x: u8)
      requires k < a.Length
      modifies a
      ensures a[..k + 1] == old(a[..k]) + [x]
    {
      a[k] := x;
    }

    /** One turn of the device loop of `LTC6804_wrcfg` (steps 2 and 3):
        the six configuration bytes of device `i`, then their PEC, high byte
        first, written from `cmd[k]` on. */
    static method PutConfigBlock(cmd: array<u8>, k: u8, config: array<u8>, i: u8)
      requires k as nat + 8 <= cmd.Length && 6 * i + 6 <= config.Length && cmd != config
      modifies cmd
      ensures cmd[..k as nat + 8] == old(cmd[..k]) + ConfigBlock(config[..], i as nat)
    {
      ghost var done := cmd[..k];
      var base := 6 * i;
      var cmdIndex := k as nat;
      var b := 0;
      while b < 6
        invariant 0 <= b <= 6 && cmdIndex == k as nat + b
        invariant cmd[..cmdIndex] == done + config[base..base + b]
      {
        Put(cmd, cmdIndex, config[base + b]);
        assert config[base..base + b + 1] == config[base..base + b] + [config[base + b]];
        cmdIndex := cmdIndex + 1;
        b := b + 1;
      }
      ghost var payload := cmd[..cmdIndex];
      var cfgPec := Pec15Calc(6, config, base);
      assert config[..][base..base + 6] == config[base..base + 6];
      Put(cmd, cmdIndex, HighByte(cfgPec));
      Put(cmd, cmdIndex + 1, LowByte(cfgPec));
      assert cmd[..cmdIndex + 2] == payload + [HighByte(cfgPec), LowByte(cfgPec)];
      AppendBlock(done, config[..], i as nat, payload, cmd[..cmdIndex + 2]);
    }

    /** Steps 1 to 3 of `LTC6804_wrcfg`: the `4 + 8 * totalIc` bytes of the
        frame, WRCFG with its PEC followed by the configuration block of
        every device, the most distant device first.  `config` holds the
        rows of the C code's `config[][6]` one after another, device `i` at
        `6 * i`. */
    static method WrcfgBuffer(totalIc: u8, config: array<u8>) returns (cmd: array<u8>)
      requires totalIc as nat <= MaxChain && 6 * totalIc <= config.Length
      ensures fresh(cmd) && cmd.Length == 4 + 8 * totalIc
      ensures cmd[..] == WrcfgFrame + ConfigDescending(config[..], totalIc as nat, 0)
    {
      var cmdLen: u8 := 4 + 8 * totalIc;
      cmd := new u8[cmdLen];
      cmd[0] := 0x00;
      cmd[1] := 0x01;
      cmd[2] := 0x3D;
      cmd[3] := 0x6E;
      var cmdIndex: u8 := 4;
      var ic := totalIc;
      while ic > 0
        invariant 0 <= ic <= totalIc && cmdIndex as nat == 4 + 8 * (totalIc - ic)
        invariant cmd[..cmdIndex] == WrcfgFrame + ConfigDescending(config[..], totalIc as nat, ic as nat)
      {
        AppendConfigBlock(cmd, cmdIndex, config, totalIc, ic);
        cmdIndex := cmdIndex + 8;
        ic := ic - 1;
      }
      assert cmd[..] == cmd[..cmdIndex];
    }

    /** One turn of the loop of `LTC6804_wrcfg`: device `ic - 1`'s block
        follows the blocks of the devices beyond it. */
    static method AppendConfigBlock(cmd: array<u8>, cmdIndex: u8, config: array<u8>, totalIc: u8, ic: u8)
      requires 0 < ic <= totalIc && totalIc as nat <= MaxChain && 6 * totalIc <= config.Length && cmd != config
      requires cmdIndex as nat == 4 + 8 * (totalIc - ic) && cmdIndex as nat + 8 <= cmd.Length
      requires cmd[..cmdIndex] == WrcfgFrame + ConfigDescending(config[..], totalIc as nat, ic as nat)
      modifies cmd
      ensures cmd[..cmdIndex as nat + 8] == WrcfgFrame + ConfigDescending(config[..], totalIc as nat, ic as nat - 1)
    {
      ghost var done := cmd[..cmdIndex];
      PutConfigBlock(cmd, cmdIndex, config, ic - 1);
      ConfigFrameNext(done, config[..], totalIc as nat, ic as nat, cmd[..cmdIndex as nat + 8]);
    }

    /** `LTC6804_wrcfg`: broadcasts the frame `WrcfgBuffer` builds. */
    method Wrcfg(totalIc: u8, config: array<u8>)
      requires totalIc as nat <= MaxChain && 6 * totalIc <= config.Length
      modifies bus
      ensures bus.sent == old(bus.sent) + WrcfgFrame + ConfigDescending(config[..], totalIc as nat, 0)
      ensures bus.script == old(bus.script)
    {
      var cmd := WrcfgBuffer(totalIc, config);
      SpiWriteArray(4 + 8 * totalIc, cmd);
      assert cmd[..4 + 8 * totalIc] == cmd[..];
    }

    /** The byte loop of `LTC6804_rdcfg`: block `ic` of `rxData` goes to
        row `ic` of `rConfig`. */
    static method CopyRow(rxData: array<u8>, ic: nat, rConfig: array<u8>)
      requires 8 * ic + 8 <= rxData.Length <= rConfig.Length && rxData != rConfig
      modifies rConfig
      ensures forall k :: 8 * ic <= k < 8 * ic + 8 ==> rConfig[k] == rxData[k]
      ensures forall k :: 0 <= k < rConfig.Length && !(8 * ic <= k < 8 * ic + 8) ==> rConfig[k] == old(rConfig[k])
    {
      var b := 0;
      while b < 8
        invariant 0 <= b <= 8
        invariant forall k :: 8 * ic <= k < 8 * ic + b ==> rConfig[k] == rxData[k]
        invariant forall k :: 0 <= k < rConfig.Length && !(8 * ic <= k < 8 * ic + b) ==> rConfig[k] == old(rConfig[k])
      {
        rConfig[8 * ic + b] := rxData[b + 8 * ic];
        b := b + 1;
      }
    }

    /** Step 4 of `LTC6804_rdcfg`: the answer in `rxData` goes block by
        block, the nearest device first, into `rConfig` (the rows of
        `r_config[][8]` one after another), and every block's PEC is
        checked. */
    static method UnpackConfig(rxData: array<u8>, totalIc: u8, rConfig: array<u8>) returns (status: u8)
      requires totalIc as nat <= MaxChain && rxData.Length == 8 * totalIc <= rConfig.Length && rxData != rConfig
      modifies rConfig
      ensures rConfig[..8 * totalIc] == rxData[..] && rConfig[8 * totalIc..] == old(rConfig[8 * totalIc..])
      ensures status == if ResponseIntact(rxData[..], totalIc as nat) then 0 else PecError
    {
      status := 0;
      var ic := 0;
      while ic < totalIc as nat
        invariant 0 <= ic <= totalIc as nat
        invariant forall k :: 0 <= k < 8 * ic ==> rConfig[k] == rxData[k]
        invariant forall k :: 8 * totalIc <= k < rConfig.Length ==> rConfig[k] == old(rConfig[k])
        invariant status == if ResponseIntact(rxData[..], ic) then 0 else PecError
      {
        CopyRow(rxData, ic, rConfig);
        var intact := CheckBlock(rConfig, ic, 8 * ic + 6);
        SameBlock(rConfig[..], rxData[..], ic);
        ResponseIntactNext(rxData[..], ic);
        if !intact {
          status := PecError;
        }
        ic := ic + 1;
      }
      assert rConfig[..8 * totalIc] == rxData[..];
      assert rConfig[8 * totalIc..] == old(rConfig[8 * totalIc..]);
    }

    /** `LTC6804_rdcfg`: sends RDCFG, reads one 8-byte block per device and
        unpacks them into `rConfig`.  The status is 0 when every block
        passed its PEC check and `-1` otherwise. */
    method Rdcfg(totalIc: u8, rConfig: array<u8>) returns (status: u8)
      requires totalIc as nat <= MaxChain && 8 * totalIc <= rConfig.Length
      requires 8 * totalIc <= |bus.script|
      modifies bus, rConfig
      ensures bus.sent == old(bus.sent) + RdcfgFrame + Filler(8 * totalIc)
      ensures bus.script == old(bus.script)[8 * totalIc..]
      ensures rConfig[..8 * totalIc] == old(bus.script)[..8 * totalIc]
      ensures rConfig[8 * totalIc..] == old(rConfig[8 * totalIc..])
      ensures status == if ResponseIntact(old(bus.script)[..8 * totalIc], totalIc as nat) then 0 else PecError
    {
      var rxData := new u8[8 * totalIc];
      var cmd := new u8[4];
      cmd[0] := 0x00;
      cmd[1] := 0x02;
      cmd[2] := 0x2B;
      cmd[3] := 0x0A;
      assert cmd[..] == RdcfgFrame;
      SpiWriteRead(cmd, 4, rxData, 8 * totalIc);
      assert rxData[..] == rxData[..8 * totalIc];
      status := UnpackConfig(rxData, totalIc, rConfig);
    }

    /** The `do ... while (pecError != 0)` loop of `measureVoltages`:
        sweeps of all four cell groups of a one-device chain into
        `ltcData` until a sweep passes every PEC check.  `attempts` are the
        sweeps' answers in order; every one but the last failed, and the
        status is 0 exactly when the last one passed, in which case the
        codes are that sweep's.  The loop also stops when the bus has no
        whole sweep left to answer. */
    method RetryRdcv(ltcData: array2<u16>) returns (status: u8, ghost attempts: seq<seq<seq<u8>>>)
      requires ltcData.Length0 == 1 && ltcData.Length1 == 12
      modifies bus, ltcData
      ensures Sweeps(attempts) && Retried(attempts)
      ensures old(bus.script) == Flatten(attempts) + bus.script
      ensures bus.sent == old(bus.sent) + Repeat(SweepTrace(CellVoltage, 1, 4), |attempts|)
      ensures status == 0 <==> 0 < |attempts| && AllIntact(LastSweep(attempts), 1)
      ensures status == 0 || |bus.script| < 32
      ensures |attempts| == 0 ==> forall s :: 0 <= s < 12 ==> ltcData[0, s] == old(ltcData[0, s])
      ensures 0 < |attempts| ==> forall g, j :: 0 <= g < 4 && 0 <= j < 3 ==>
        ltcData[0, 3 * g + j] == Code(LastSweep(attempts)[g], 0, j)
    {
      var totalIc: u8 := 1;
      status := PecError;
      ghost var sweep := SweepTrace(CellVoltage, totalIc as nat, 4);
      attempts := [];
      while status != 0 && 32 <= |bus.script|
        invariant Sweeps(attempts) && Retried(attempts)
        invariant old(bus.script) == Flatten(attempts) + bus.script
        invariant bus.sent == old(bus.sent) + Repeat(sweep, |attempts|)
        invariant status == 0 <==> 0 < |attempts| && AllIntact(LastSweep(attempts), 1)
        invariant |attempts| == 0 ==> status == PecError && forall s :: 0 <= s < 12 ==> ltcData[0, s] == old(ltcData[0, s])
        invariant 0 < |attempts| ==> forall g, j :: 0 <= g < 4 && 0 <= j < 3 ==>
          ltcData[0, 3 * g + j] == Code(LastSweep(attempts)[g], 0, j)
        decreases |bus.script|
      {
        ghost var sent, script := bus.sent, bus.script;
        ghost var answers;
        status, answers := Rdcv(0, totalIc, ltcData);
        ConcatLength(answers);
        RetryStep(old(bus.sent), sent, bus.sent, sweep, old(bus.script), script, bus.script, attempts, answers);
        RetriedNext(attempts, answers);
        attempts := attempts + [answers];
      }
    }

    /** `measureVoltages` up to its floating-point scaling: one ADCV
        broadcast, then the retry loop on a fresh `1 x 12` code array that
        starts at zero.  The status starts at the C code's `-1`. */
    method MeasureVoltages() returns (status: u8, ltcData: array2<u16>, ghost attempts: seq<seq<seq<u8>>>)
      requires Valid()
      modifies bus
      ensures fresh(ltcData) && ltcData.Length0 == 1 && ltcData.Length1 == 12
      ensures Sweeps(attempts) && Retried(attempts)
      ensures old(bus.script) == Flatten(attempts) + bus.script
      ensures bus.sent == old(bus.sent) + CommandFrame(adcv[..]) + Repeat(SweepTrace(CellVoltage, 1, 4), |attempts|)
      ensures status == 0 <==> 0 < |attempts| && AllIntact(LastSweep(attempts), 1)
      ensures status == 0 || |bus.script| < 32
      ensures |attempts| == 0 ==> forall s :: 0 <= s < 12 ==> ltcData[0, s] == 0
      ensures 0 < |attempts| ==> forall g, j :: 0 <= g < 4 && 0 <= j < 3 ==>
        ltcData[0, 3 * g + j] == Code(LastSweep(attempts)[g], 0, j)
    {
      ltcData := new u16[1, 12]((i, s) => 0);
      Adcv();
      status, attempts := RetryRdcv(ltcData);
    }
  }
}
