/**
 * The environment the driver talks to: the serial bus, the chip-select line and
 * the touch-interrupt (PENIRQ) line. The bus is a mock: the n-th byte ever
 * transferred is answered by `reply(n)`, and every transfer and chip-select
 * change is appended to `log`.
 */
module Hardware {
  import opened Ints

  type Byte = uint8

  /** A digital pin level. */
  datatype Level = Low | High

  /** One entry of the bus log: a chip-select write or a byte clocked out. */
  datatype Event = Cs(level: Level) | Xfer(sent: Byte)

  class Bus {
    /** The byte the controller clocks back during the n-th transfer. */
    const reply: nat -> Byte
    /** Number of bytes transferred so far. */
    var consumed: nat
    var log: seq<Event>
    /** Level of the chip-select line (driven by the driver). */
    var cs: Level
    /** Level of the PENIRQ line (driven by the controller; low while pressed). */
    var irq: Level

    constructor (reply: nat -> Byte, irq: Level)
      ensures this.reply == reply && this.irq == irq
      ensures consumed == 0 && log == [] && cs == High
    {
      this.reply := reply;
      this.irq := irq;
      consumed := 0;
      log := [];
      cs := High;
    }

    /** `SPI.transfer(b)`: sends one byte and returns the byte received meanwhile. */
    method Transfer(b: Byte) returns (r: Byte)
      modifies this`consumed, this`log
      ensures r == reply(old(consumed))
      ensures consumed == old(consumed) + 1
      ensures log == old(log) + [Xfer(b)]
    {
      r := reply(consumed);
      consumed := consumed + 1;
      log := log + [Xfer(b)];
    }

    /** `SPI.transfer16(w)`: two byte transfers, most significant byte first. */
    method Transfer16(w: uint16) returns (r: uint16)
      modifies this`consumed, this`log
      ensures r == reply(old(consumed)) * 0x100 + reply(old(consumed) + 1)
      ensures consumed == old(consumed) + 2
      ensures log == old(log) + [Xfer(w / 0x100), Xfer(w % 0x100)]
    {
      var hi := Transfer(w / 0x100);
      var lo := Transfer(w % 0x100);
      r := hi as int * 0x100 + lo;
    }

    /** `digitalWrite(cs_pin, level)`. */
    method WriteCs(level: Level)
      modifies this`cs, this`log
      ensures cs == level
      ensures log == old(log) + [Cs(level)]
    {
      cs := level;
      log := log + [Cs(level)];
    }
  }
}
