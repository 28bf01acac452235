/** The layout of the register data a daisy chain of LTC6804-1 devices
    shifts back after a read command.  Each device answers with one 8-byte
    block, the device nearest the host first: six payload bytes followed by
    the PEC of those six bytes, high byte first.  In a cell or auxiliary
    voltage group the payload holds three 16-bit codes, low byte first; in
    the configuration register it is the six configuration bytes.  The
    configuration written by WRCFG travels the other way, so its blocks are
    sent for the most distant device first. */
module Registers {
  import opened Xc8
  import opened Pec

  /** Code `j` (0 to 2) of device `i`: `data[dc] + (data[dc + 1] << 8)` with
      `dc` at `8 * i + 2 * j`. */
  function Code(d: seq<u8>, i: nat, j: nat): u16
    requires j < 3 && 8 * i + 8 <= |d|
  {
    BigEndian(d[8 * i + 2 * j + 1], d[8 * i + 2 * j])
  }

  /** The six payload bytes of device `i`. */
  function Payload(d: seq<u8>, i: nat): (p: seq<u8>)
    requires 8 * i + 8 <= |d|
    ensures |p| == 6
  {
    d[8 * i .. 8 * i + 6]
  }

  /** The PEC device `i` sent, `(data[dc] << 8) + data[dc + 1]` with `dc` at
      `8 * i + 6`. */
  function ReceivedPec(d: seq<u8>, i: nat): u16
    requires 8 * i + 8 <= |d|
  {
    BigEndian(d[8 * i + 6], d[8 * i + 7])
  }

  /** Device `i`'s block passes the check the driver makes on it. */
  predicate BlockIntact(d: seq<u8>, i: nat)
    requires 8 * i + 8 <= |d|
  {
    ReceivedPec(d, i) == Pec15(Payload(d, i))
  }

  /** Every one of the first `n` blocks passes its check: the condition under
      which a read returns status 0. */
  predicate ResponseIntact(d: seq<u8>, n: nat)
    requires 8 * n <= |d|
  {
    forall i :: 0 <= i < n ==> BlockIntact(d, i)
  }

  /** The first `n + 1` blocks pass exactly when the first `n` do and block
      `n` does. */
  lemma ResponseIntactNext(d: seq<u8>, n: nat)
    requires 8 * n + 8 <= |d|
    ensures ResponseIntact(d, n + 1) <==> ResponseIntact(d, n) && BlockIntact(d, n)
  {
  }

  /** The block a device sends for payload `p`. */
  function Block(p: seq<u8>): (b: seq<u8>)
    requires |p| == 6
    ensures |b| == 8 && b[..6] == p
    ensures BigEndian(b[6], b[7]) == Pec15(p)
  {
    var pec := Pec15(p);
    BigEndianOfBytes(pec);
    p + [HighByte(pec), LowByte(pec)]
  }

  /** A block passes its check exactly when it is the block of its own
      payload: the check accepts every block a device sends and rejects
      every block with a damaged PEC. */
  lemma BlockIntactIffBlock(d: seq<u8>, i: nat)
    requires 8 * i + 8 <= |d|
    ensures BlockIntact(d, i) <==> d[8 * i .. 8 * i + 8] == Block(Payload(d, i))
  {
    var own, w := d[8 * i .. 8 * i + 8], Pec15(Payload(d, i));
    assert own[..6] == Payload(d, i) && own[6] == d[8 * i + 6] && own[7] == d[8 * i + 7];
    TrailingWord(own, w);
  }

  /** A block whose payload was changed, in transit, to one with a
      different PEC fails the check: the received PEC no longer matches. */
  lemma ChangedPayloadRejected(p: seq<u8>, q: seq<u8>)
    requires |p| == 6 && |q| == 6 && Pec15(p) != Pec15(q)
    ensures |q + Block(p)[6..]| == 8 && !BlockIntact(q + Block(p)[6..], 0)
  {
    var sent, received := Block(p), q + Block(p)[6..];
    assert Payload(received, 0) == q;
    assert received[6] == sent[6] && received[7] == sent[7];
    assert ReceivedPec(received, 0) == Pec15(p);
  }

  /** The all-zero payload goes out as the block `00 00 00 00 00 00 C2 12`. */
  lemma ZeroPayloadBlock()
    ensures Block([0, 0, 0, 0, 0, 0]) == [0, 0, 0, 0, 0, 0, 0xC2, 0x12]
  {
    ZeroPayloadPec();
    assert HighByte(0xC212) == 0xC2 && LowByte(0xC212) == 0x12;
  }

  /** One flipped bit is caught: the block of the all-zero payload
      (`ZeroPayloadBlock`) with bit 0 of its first byte flipped fails the
      check.  The two payloads' PECs differ (`ZeroPayloadPec`,
      `FlippedPayloadPec`), so this is one instance of
      `ChangedPayloadRejected`. */
  lemma FlippedBitRejected()
    ensures !BlockIntact([1, 0, 0, 0, 0, 0, 0xC2, 0x12], 0)
  {
    var received: seq<u8> := [1, 0, 0, 0, 0, 0, 0xC2, 0x12];
    FlippedPayloadPec();
    assert Payload(received, 0) == [1, 0, 0, 0, 0, 0];
    assert ReceivedPec(received, 0) == 0xC212;
  }

  /** Eight bytes end in the big-endian word `w` exactly when they are their
      first six followed by `w`'s high and low byte. */
  lemma TrailingWord(b: seq<u8>, w: u16)
    requires |b| == 8
    ensures BigEndian(b[6], b[7]) == w <==> b == b[..6] + [HighByte(w), LowByte(w)]
  {
    BigEndianOfBytes(w);
    if BigEndian(b[6], b[7]) == w {
      BigEndianInjective(b[6], b[7], HighByte(w), LowByte(w));
      assert b == b[..6] + [b[6], b[7]];
    }
  }

  /** The three 16-bit codes one device holds in one register group. */
  datatype CodeGroup = CodeGroup(first: u16, second: u16, third: u16)
  {
    /** Code `j` of the group, 0 to 2. */
    function At(j: nat): u16
      requires j < 3
    {
      if j == 0 then first else if j == 1 then second else third
    }
  }

  /** The payload a device sends for a group, each code low byte first. */
  function GroupPayload(g: CodeGroup): (p: seq<u8>)
    ensures |p| == 6
  {
    [LowByte(g.first), HighByte(g.first), LowByte(g.second), HighByte(g.second),
     LowByte(g.third), HighByte(g.third)]
  }

  /** A block made of a group gives back its codes, and its check passes. */
  lemma GroupBlockRoundTrip(g: CodeGroup)
    ensures var b := Block(GroupPayload(g));
      (forall j :: 0 <= j < 3 ==> Code(b, 0, j) == g.At(j)) && BlockIntact(b, 0)
  {
    var p := GroupPayload(g);
    var b := Block(p);
    assert b[..6] == p;
    assert b[0] == p[0] && b[1] == p[1] && b[2] == p[2] && b[3] == p[3] && b[4] == p[4] && b[5] == p[5];
    BigEndianOfBytes(g.first);
    BigEndianOfBytes(g.second);
    BigEndianOfBytes(g.third);
    assert Code(b, 0, 0) == g.first && Code(b, 0, 1) == g.second && Code(b, 0, 2) == g.third;
    assert Payload(b, 0) == p;
  }

  /** The bytes of a series of parts, first part first: the blocks of a
      chain in the order they travel, or the answers a series of reads
      takes off the bus. */
  function Concat(parts: seq<seq<u8>>): seq<u8>
  {
    if |parts| == 0 then [] else Concat(parts[..|parts| - 1]) + parts[|parts| - 1]
  }

  /** One more part appends its bytes. */
  lemma ConcatNext(parts: seq<seq<u8>>, part: seq<u8>)
    ensures Concat(parts + [part]) == Concat(parts) + part
  {
    assert (parts + [part])[..|parts|] == parts;
  }

  /** Every part is one 8-byte device block. */
  predicate Blocks(parts: seq<seq<u8>>)
  {
    forall k :: 0 <= k < |parts| ==> |parts[k]| == 8
  }

  /** The first blocks of a series of blocks are blocks. */
  lemma BlocksFront(blocks: seq<seq<u8>>, m: nat)
    requires Blocks(blocks) && m <= |blocks|
    ensures Blocks(blocks[..m])
  {
    forall k | 0 <= k < m
      ensures |blocks[..m][k]| == 8
    {
      assert blocks[..m][k] == blocks[k];
    }
  }

  /** A series of blocks is 8 bytes per block. */
  lemma {:induction false} ConcatLength(blocks: seq<seq<u8>>)
    requires Blocks(blocks)
    ensures |Concat(blocks)| == 8 * |blocks|
    decreases |blocks|
  {
    if |blocks| != 0 {
      BlocksFront(blocks, |blocks| - 1);
      ConcatLength(blocks[..|blocks| - 1]);
    }
  }

  /** Block `i` of a series sits at offset `8 * i` of its bytes. */
  lemma {:induction false} ConcatAt(blocks: seq<seq<u8>>, i: nat)
    requires Blocks(blocks) && i < |blocks|
    ensures 8 * i + 8 <= |Concat(blocks)| && Concat(blocks)[8 * i .. 8 * i + 8] == blocks[i]
    decreases |blocks|
  {
    var m := |blocks| - 1;
    var front, last := blocks[..m], blocks[m];
    BlocksFront(blocks, m);
    ConcatLength(front);
    assert Concat(blocks) == Concat(front) + last;
    if i < m {
      ConcatAt(front, i);
      assert front[i] == blocks[i];
      SliceOfFront(Concat(front), last, 8 * i, 8 * i + 8);
    } else {
      SliceOfBack(Concat(front), last, 8 * i, 8 * i + 8);
    }
  }

  /** The blocks of a chain whose device `i` holds `groups[i]` in the group
      read, nearest device first. */
  function GroupBlocks(groups: seq<CodeGroup>): (blocks: seq<seq<u8>>)
    ensures |blocks| == |groups| && Blocks(blocks)
  {
    seq(|groups|, i requires 0 <= i < |groups| => Block(GroupPayload(groups[i])))
  }

  /** The response of a chain whose device `i` holds `groups[i]` in the
      group read. */
  function GroupResponse(groups: seq<CodeGroup>): (d: seq<u8>)
    ensures |d| == 8 * |groups|
  {
    ConcatLength(GroupBlocks(groups));
    Concat(GroupBlocks(groups))
  }

  /** Device `i`'s 8 bytes of the response are the block of its group. */
  lemma GroupResponseAt(groups: seq<CodeGroup>, i: nat)
    requires i < |groups|
    ensures GroupResponse(groups)[8 * i .. 8 * i + 8] == Block(GroupPayload(groups[i]))
  {
    ConcatAt(GroupBlocks(groups), i);
  }

  /** Appending in two steps or in one gives the same bytes. */
  lemma AppendAssociative(a: seq<u8>, b: seq<u8>, c: seq<u8>)
    ensures a + (b + c) == (a + b) + c
  {
  }

  /** A slice of `a + b` that lies inside `a`. */
  lemma SliceOfFront(a: seq<u8>, b: seq<u8>, lo: nat, hi: nat)
    requires lo <= hi <= |a|
    ensures (a + b)[lo..hi] == a[lo..hi]
  {
  }

  /** A slice of `a + b` that lies inside `b`. */
  lemma SliceOfBack(a: seq<u8>, b: seq<u8>, lo: nat, hi: nat)
    requires |a| <= lo <= hi <= |a| + |b|
    ensures (a + b)[lo..hi] == b[lo - |a| .. hi - |a|]
  {
  }

  /** Codes and check of device `i` depend on its own 8 bytes only. */
  lemma BlockOfSlice(d: seq<u8>, i: nat)
    requires 8 * i + 8 <= |d|
    ensures var b := d[8 * i .. 8 * i + 8];
      (forall j :: 0 <= j < 3 ==> Code(d, i, j) == Code(b, 0, j))
      && (BlockIntact(d, i) <==> BlockIntact(b, 0))
  {
    var b := d[8 * i .. 8 * i + 8];
    assert Payload(b, 0) == Payload(d, i);
  }

  /** Two responses that agree on device `i`'s 8 bytes agree on its check. */
  lemma SameBlock(d: seq<u8>, e: seq<u8>, i: nat)
    requires 8 * i + 8 <= |d| && 8 * i + 8 <= |e|
    requires forall k :: 8 * i <= k < 8 * i + 8 ==> d[k] == e[k]
    ensures BlockIntact(d, i) <==> BlockIntact(e, i)
  {
    assert Payload(d, i) == Payload(e, i);
  }

  /** Demultiplexing a chain's response gives every device its own codes,
      and every block of it passes its check. */
  lemma GroupResponseRoundTrip(groups: seq<CodeGroup>)
    ensures var d := GroupResponse(groups);
      ResponseIntact(d, |groups|)
      && forall i, j :: 0 <= i < |groups| && 0 <= j < 3 ==> Code(d, i, j) == groups[i].At(j)
  {
    var d := GroupResponse(groups);
    forall i | 0 <= i < |groups|
      ensures BlockIntact(d, i)
      ensures forall j :: 0 <= j < 3 ==> Code(d, i, j) == groups[i].At(j)
    {
      GroupResponseAt(groups, i);
      BlockOfSlice(d, i);
      GroupBlockRoundTrip(groups[i]);
    }
  }

  /** The block WRCFG carries for device `i`: its six configuration bytes
      `config[i][0..5]` and their PEC. */
  function ConfigBlock(config: seq<u8>, i: nat): (b: seq<u8>)
    requires 6 * i + 6 <= |config|
    ensures |b| == 8
  {
    Block(config[6 * i .. 6 * i + 6])
  }

  /** The configuration blocks of devices 0 up to `n - 1`. */
  function ConfigBlocks(config: seq<u8>, n: nat): (blocks: seq<seq<u8>>)
    requires 6 * n <= |config|
    ensures |blocks| == n && Blocks(blocks)
  {
    seq(n, i requires 0 <= i < n => ConfigBlock(config, i))
  }

  /** The blocks of a series in the opposite order. */
  function Reverse(parts: seq<seq<u8>>): (r: seq<seq<u8>>)
    ensures |r| == |parts|
  {
    seq(|parts|, k requires 0 <= k < |parts| => parts[|parts| - 1 - k])
  }

  /** The blocks from `lo` on, last first, are blocks. */
  lemma ReverseBlocks(parts: seq<seq<u8>>, lo: nat)
    requires Blocks(parts) && lo <= |parts|
    ensures Blocks(Reverse(parts[lo..]))
  {
    var r := Reverse(parts[lo..]);
    forall k | 0 <= k < |r|
      ensures |r[k]| == 8
    {
      assert r[k] == parts[|parts| - 1 - k];
    }
  }

  /** Taking one more block at the front of the series appends it to the
      reversed series. */
  lemma ReverseFront(parts: seq<seq<u8>>, lo: nat)
    requires 0 < lo <= |parts|
    ensures Reverse(parts[lo - 1..]) == Reverse(parts[lo..]) + [parts[lo - 1]]
  {
    var grown, r := Reverse(parts[lo - 1..]), Reverse(parts[lo..]);
    assert grown[..|r|] == r;
    assert grown == grown[..|r|] + [grown[|r|]];
  }

  /** Block `p` of the reversed series is block `|parts| - 1 - p` of the
      series. */
  lemma ConcatReverseAt(parts: seq<seq<u8>>, p: nat)
    requires Blocks(parts) && p < |parts|
    ensures |Concat(Reverse(parts))| == |Concat(parts)| == 8 * |parts|
    ensures Concat(Reverse(parts))[8 * p .. 8 * p + 8] == Concat(parts)[8 * (|parts| - 1 - p) .. 8 * (|parts| - p)]
  {
    ReverseBlocks(parts, 0);
    assert parts[0..] == parts;
    ConcatLength(parts);
    ConcatLength(Reverse(parts));
    ConcatAt(Reverse(parts), p);
    ConcatAt(parts, |parts| - 1 - p);
  }

  /** The blocks of devices 0 up to `n - 1`, the order RDCFG receives them. */
  function ConfigAscending(config: seq<u8>, n: nat): (d: seq<u8>)
    requires 6 * n <= |config|
    ensures |d| == 8 * n
  {
    ConcatLength(ConfigBlocks(config, n));
    Concat(ConfigBlocks(config, n))
  }

  /** The blocks of devices `n - 1` down to `lo`, the order WRCFG sends
      them. */
  function ConfigDescending(config: seq<u8>, n: nat, lo: nat): (d: seq<u8>)
    requires lo <= n && 6 * n <= |config|
    ensures |d| == 8 * (n - lo)
  {
    ReverseBlocks(ConfigBlocks(config, n), lo);
    ConcatLength(Reverse(ConfigBlocks(config, n)[lo..]));
    Concat(Reverse(ConfigBlocks(config, n)[lo..]))
  }

  /** The loop of `LTC6804_wrcfg` appends device `lo - 1`'s block after
      those of the more distant devices. */
  lemma ConfigDescendingNext(config: seq<u8>, n: nat, lo: nat)
    requires 0 < lo <= n && 6 * n <= |config|
    ensures ConfigDescending(config, n, lo - 1) == ConfigDescending(config, n, lo) + ConfigBlock(config, lo - 1)
  {
    var blocks := ConfigBlocks(config, n);
    ReverseFront(blocks, lo);
    ConcatNext(Reverse(blocks[lo..]), blocks[lo - 1]);
  }

  /** In the WRCFG data, device `i`'s block sits at offset `8 * (n - 1 - i)`
      (after the 4-byte command, at `4 + 8 * (n - 1 - i)` of the frame). */
  lemma ConfigDescendingPlacement(config: seq<u8>, n: nat, i: nat)
    requires i < n && 6 * n <= |config|
    ensures ConfigDescending(config, n, 0)[8 * (n - 1 - i) .. 8 * (n - i)] == ConfigBlock(config, i)
  {
    var blocks, p := ConfigBlocks(config, n), n - 1 - i;
    assert blocks[0..] == blocks;
    ConcatReverseAt(blocks, p);
    assert n - 1 - p == i && n - p == i + 1;
    ConcatAt(blocks, i);
    assert blocks[i] == ConfigBlock(config, i);
  }

  /** In the RDCFG data, device `i`'s block sits at offset `8 * i`. */
  lemma ConfigAscendingPlacement(config: seq<u8>, n: nat, i: nat)
    requires 6 * n <= |config| && i < n
    ensures ConfigAscending(config, n)[8 * i .. 8 * i + 8] == ConfigBlock(config, i)
  {
    ConcatAt(ConfigBlocks(config, n), i);
  }

  /** Every block of a sequence of device blocks passes its check, whichever
      way round the chain holds them. */
  lemma BlocksIntact(d: seq<u8>, n: nat)
    requires 8 * n <= |d|
    requires forall i :: 0 <= i < n ==> d[8 * i .. 8 * i + 8] == Block(Payload(d, i))
    ensures ResponseIntact(d, n)
  {
    forall i | 0 <= i < n
      ensures BlockIntact(d, i)
    {
      BlockIntactIffBlock(d, i);
    }
  }

  /** Every 8-byte block WRCFG emits passes the check RDCFG makes. */
  lemma ConfigDescendingIntact(config: seq<u8>, n: nat)
    requires 6 * n <= |config|
    ensures ResponseIntact(ConfigDescending(config, n, 0), n)
  {
    var down := ConfigDescending(config, n, 0);
    forall p | 0 <= p < n
      ensures down[8 * p .. 8 * p + 8] == Block(Payload(down, p))
    {
      var i := n - 1 - p;
      ConfigDescendingPlacement(config, n, i);
      var lo, hi := 8 * p, 8 * p + 8;
      var block := down[lo..hi];
      assert block == ConfigBlock(config, i);
      assert Payload(down, p) == block[..6];
    }
    BlocksIntact(down, n);
  }

  /** When the chain returns the configuration nearest device first, every
      block passes the check and device `i`'s payload is `config[i][0..5]`. */
  lemma ConfigAscendingIntact(config: seq<u8>, n: nat)
    requires 6 * n <= |config|
    ensures ResponseIntact(ConfigAscending(config, n), n)
    ensures forall i :: 0 <= i < n ==> Payload(ConfigAscending(config, n), i) == config[6 * i .. 6 * i + 6]
  {
    var up := ConfigAscending(config, n);
    forall i | 0 <= i < n
      ensures up[8 * i .. 8 * i + 8] == Block(Payload(up, i))
      ensures Payload(up, i) == config[6 * i .. 6 * i + 6]
    {
      ConfigAscendingPlacement(config, n, i);
      var lo, hi := 8 * i, 8 * i + 8;
      var block := up[lo..hi];
      assert block == ConfigBlock(config, i);
      assert Payload(up, i) == block[..6];
    }
    BlocksIntact(up, n);
  }

  /** WRCFG's order is RDCFG's order reversed, block by block. */
  lemma ConfigOrderReversed(config: seq<u8>, n: nat, p: nat)
    requires 6 * n <= |config| && p < n
    ensures ConfigDescending(config, n, 0)[8 * p .. 8 * p + 8]
         == ConfigAscending(config, n)[8 * (n - 1 - p) .. 8 * (n - p)]
  {
    var blocks := ConfigBlocks(config, n);
    assert blocks[0..] == blocks;
    ConcatReverseAt(blocks, p);
  }
}
