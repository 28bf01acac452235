/** The SPI port as the driver sees it.  `spi_write` shifts one byte out and
    throws away the byte shifted in; `spi_read` shifts its argument out and
    returns the byte shifted in.  The bus keeps the bytes sent so far, in
    order, and the bytes the devices still have to shift back. */
module Spi {
  import opened Xc8

  class Bus {
    /** Every byte shifted out, oldest first. */
    var sent: seq<u8>
    /** The bytes the daisy chain will shift in, next first. */
    var script: seq<u8>

    /** A bus on which nothing has been sent and whose devices will answer
        with `script`. */
    constructor (script: seq<u8>)
      ensures sent == [] && this.script == script
    {
      sent := [];
      this.script := script;
    }

    /** `spi_write`: the byte goes out and the byte clocked in at the same
        time is dropped.  Only a read consumes the devices' answer, so the
        script stays as it was. */
    method Write(b: u8)
      modifies this
      ensures sent == old(sent) + [b] && script == old(script)
    {
      sent := sent + [b];
    }

    /** `spi_read`: `tx` goes out and the next byte of the answer comes in. */
    method Read(tx: u8) returns (rx: u8)
      requires script != []
      modifies this
      ensures rx == old(script)[0] && script == old(script)[1..]
      ensures sent == old(sent) + [tx]
    {
      sent := sent + [tx];
      rx := script[0];
      script := script[1..];
    }
  }
}
