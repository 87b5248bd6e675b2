/**
 * The controller's wire protocol: control bytes, the 12-bit sample packed into a
 * 16-clock transfer, the polling loop of `_readLoop` as a specification, and the
 * exact bus traffic of `getRaw` and `powerDown`.
 */
module Protocol {
  import opened Ints
  import opened Hardware

  /** Low nibble: differential reference, converter stays powered (PENIRQ disabled). */
  const CTRL_LO_DFR: Byte := 0x03
  /** Low nibble: single-ended reference, power-down between conversions (PENIRQ armed). */
  const CTRL_LO_SER: Byte := 0x04
  /** High nibble: start bit and the X-position channel, `0b1001 << 4`. */
  const CTRL_HI_X: Byte := 0x90
  /** High nibble: start bit and the Y-position channel, `0b1101 << 4`. */
  const CTRL_HI_Y: Byte := 0xD0

  /** The largest 12-bit sample. */
  const ADC_MAX: nat := 0x0FFF
  /** Initial value of `prev` and `cur` in `_readLoop`; no 12-bit sample equals it. */
  const SENTINEL: nat := 0xFFFF

  /** `adc_ref_t`. */
  const MODE_SER: uint8 := 0
  const MODE_DFR: uint8 := 1
  /** Default arguments of `getRaw` and `getPosition`. */
  const DEFAULT_MODE: uint8 := MODE_DFR
  const DEFAULT_MAX_SAMPLES: uint8 := 0xFF

  datatype Option<T> = None | Some(value: T)

  /** The low nibble `getRaw` uses: anything but `MODE_DFR` selects single-ended. */
  function CtrlLo(mode: uint8): (lo: Byte)
    ensures lo < 0x10
  {
    if mode == MODE_DFR then CTRL_LO_DFR else CTRL_LO_SER
  }

  /** `hi | lo` on two bytes, as the C++ code writes it. */
  function BitOr(a: Byte, b: Byte): Byte
  {
    ((a as bv8) | (b as bv8)) as int
  }

  /**
   * A control byte `hi | lo` for a high nibble `hi` and a low nibble `lo`: the
   * bits do not overlap, so the OR is a sum (see `ControlBytes`).
   */
  function Control(hi: Byte, lo: Byte): Byte
    requires hi % 0x10 == 0 && lo < 0x10
  {
    hi + lo
  }

  /** A control byte carries the start bit (bit 7). */
  predicate IsControl(b: Byte)
  {
    b >= 0x80
  }

  /** Channel address bits A2..A0: 001 selects X, 101 selects Y. */
  function Channel(ctrl: Byte): nat
  {
    ctrl / 0x10 % 8
  }

  /** Power-down bits PD1..PD0 = 00: the converter sleeps between conversions and PENIRQ is enabled. */
  predicate ArmsPenIrq(ctrl: Byte)
  {
    IsControl(ctrl) && ctrl % 4 == 0
  }

  /**
   * The high nibble alone selects the channel and carries the start bit; the
   * power-down bits of the low nibble alone decide whether PENIRQ stays armed.
   */
  lemma ControlFields(hi: Byte, lo: Byte)
    requires hi % 0x10 == 0 && lo < 0x10
    ensures Channel(Control(hi, lo)) == Channel(hi) && IsControl(Control(hi, lo)) == IsControl(hi)
    ensures ArmsPenIrq(Control(hi, lo)) <==> IsControl(hi) && lo % 4 == 0
  {
  }

  /** The four control bytes the driver composes, and what their bits select. */
  lemma ControlBytes()
    ensures Control(CTRL_HI_X, CTRL_LO_DFR) == BitOr(CTRL_HI_X, CTRL_LO_DFR) == 0x93
    ensures Control(CTRL_HI_Y, CTRL_LO_DFR) == BitOr(CTRL_HI_Y, CTRL_LO_DFR) == 0xD3
    ensures Control(CTRL_HI_X, CTRL_LO_SER) == BitOr(CTRL_HI_X, CTRL_LO_SER) == 0x94
    ensures Control(CTRL_HI_Y, CTRL_LO_SER) == BitOr(CTRL_HI_Y, CTRL_LO_SER) == 0xD4
    ensures Channel(0x93) == Channel(0x94) == 1 && Channel(0xD3) == Channel(0xD4) == 5
    ensures !ArmsPenIrq(0x93) && !ArmsPenIrq(0xD3) && ArmsPenIrq(0x94) && ArmsPenIrq(0xD4)
  {
  }

  /**
   * The sample `(b0 << 4) | (b1 >> 4)`: the first byte carries bits 11..4, the
   * top nibble of the second byte bits 3..0 (its low nibble is padding). Shifting
   * left by four leaves the low nibble clear, so the OR adds `b1 >> 4`
   * (`SampleIsBitPacking`).
   */
  function Sample(b0: Byte, b1: Byte): (s: nat)
    ensures s <= ADC_MAX
  {
    b0 * 16 + b1 / 16
  }

  /** The bitwise expression of the source, on 16-bit values. */
  function Packed(b0: bv8, b1: bv8): (s: nat)
    ensures s / 16 == b0 as int && s % 16 == (b1 >> 4) as int
  {
    (((b0 as bv16) << 4) | ((b1 as bv16) >> 4)) as int
  }

  lemma ShiftRight4(b: bv8)
    ensures (b >> 4) as int == b as int / 16
  {
    var h, l := b >> 4, b & 0xF;
    assert b == h * 16 + l;
    assert h as int * 16 + l as int == b as int;
  }

  lemma Recompose(s: int, hi: int, lo: int)
    requires s / 16 == hi && s % 16 == lo / 16
    ensures s == 16 * hi + lo / 16
  {
  }

  /** `Sample` computes exactly the source's shift-and-or. */
  lemma SampleIsBitPacking(b0: bv8, b1: bv8)
    ensures Sample(b0 as int, b1 as int) == Packed(b0, b1)
  {
    ShiftRight4(b1);
    Recompose(Packed(b0, b1), b0 as int, b1 as int);
  }

  /** What the controller clocks out for the sample `v`: bits 11..4, then bits 3..0 and four zero bits. */
  function Encode(v: nat): (r: (Byte, Byte))
    requires v <= ADC_MAX
    ensures r.1 % 16 == 0
  {
    (v / 16, v % 16 * 16)
  }

  /** Decoding recovers every 12-bit sample. */
  lemma DecodeEncode(v: nat)
    requires v <= ADC_MAX
    ensures Sample(Encode(v).0, Encode(v).1) == v
  {
  }

  /** Decoding loses exactly the padding nibble of the second byte. */
  lemma EncodeDecode(b0: Byte, b1: Byte)
    ensures Encode(Sample(b0, b1)) == (b0, b1 - b1 % 16)
  {
  }

  /** The number of loop iterations `_readLoop` can run: `max_samples`, but at least one (do-while). */
  function Cap(maxSamples: uint8): (c: nat)
    ensures c >= 1 && c >= maxSamples
  {
    if maxSamples == 0 then 1 else maxSamples
  }

  /** The sample read in iteration `k` of a loop whose first transfer is the `pos`-th. */
  function SampleAt(reply: nat -> Byte, pos: nat, k: nat): nat
  {
    Sample(reply(pos + 2 * k), reply(pos + 2 * k + 1))
  }

  /** The value of `prev` during iteration `k`. */
  function Previous(reply: nat -> Byte, pos: nat, k: nat): nat
  {
    if k == 0 then SENTINEL else SampleAt(reply, pos, k - 1)
  }

  /** Iteration `k` read the same sample as the one before it. */
  predicate Settled(reply: nat -> Byte, pos: nat, k: nat)
  {
    Previous(reply, pos, k) == SampleAt(reply, pos, k)
  }

  /**
   * How many iterations `_readLoop` runs from iteration `k` on: it stops after the
   * first iteration that settles, or when `++i` reaches `max_samples`.
   */
  function Iterations(reply: nat -> Byte, pos: nat, maxSamples: uint8, k: nat): (n: nat)
    requires k < Cap(maxSamples)
    ensures k < n <= Cap(maxSamples)
    decreases Cap(maxSamples) - k
  {
    if Settled(reply, pos, k) || k + 1 >= maxSamples then k + 1
    else Iterations(reply, pos, maxSamples, k + 1)
  }

  /** The loop runs on only past samples that differ from their predecessor. */
  lemma {:induction false} IterationsUnsettled(reply: nat -> Byte, pos: nat, maxSamples: uint8, k: nat)
    requires k < Cap(maxSamples)
    ensures forall j :: k <= j < Iterations(reply, pos, maxSamples, k) - 1 ==> !Settled(reply, pos, j)
    decreases Cap(maxSamples) - k
  {
    if !(Settled(reply, pos, k) || k + 1 >= maxSamples) {
      IterationsUnsettled(reply, pos, maxSamples, k + 1);
    }
  }

  /** The loop stops only on a settled sample or at the cap. */
  lemma {:induction false} IterationsStop(reply: nat -> Byte, pos: nat, maxSamples: uint8, k: nat)
    requires k < Cap(maxSamples)
    ensures var n := Iterations(reply, pos, maxSamples, k);
            n == Cap(maxSamples) || Settled(reply, pos, n - 1)
    decreases Cap(maxSamples) - k
  {
    if !(Settled(reply, pos, k) || k + 1 >= maxSamples) {
      IterationsStop(reply, pos, maxSamples, k + 1);
    }
  }

  /**
   * The number of samples is determined exactly: if sample `k` is the first one
   * from `m` on that settles or exhausts the budget, the loop takes `k + 1` samples.
   */
  lemma {:induction false} IterationsExact(reply: nat -> Byte, pos: nat, maxSamples: uint8, m: nat, k: nat)
    requires m <= k < Cap(maxSamples)
    requires forall j :: m <= j < k ==> !Settled(reply, pos, j)
    requires Settled(reply, pos, k) || k + 1 >= maxSamples
    ensures Iterations(reply, pos, maxSamples, m) == k + 1
    decreases k - m
  {
    if m < k {
      assert !Settled(reply, pos, m);
      IterationsExact(reply, pos, maxSamples, m + 1, k);
    }
  }

  /** The first iteration never stops by convergence: no sample equals the sentinel. */
  lemma FirstIterationNeverSettles(reply: nat -> Byte, pos: nat)
    ensures !Settled(reply, pos, 0)
  {
  }

  /**
   * If iteration `k` is the first to repeat its predecessor and the cap is not yet
   * reached, the loop runs exactly `k + 1` iterations and returns that sample.
   */
  lemma StopsAtFirstRepeat(reply: nat -> Byte, pos: nat, maxSamples: uint8, k: nat)
    requires 1 <= k < Cap(maxSamples)
    requires Settled(reply, pos, k)
    requires forall j :: 1 <= j < k ==> !Settled(reply, pos, j)
    ensures Iterations(reply, pos, maxSamples, 0) == k + 1
    ensures SampleAt(reply, pos, Iterations(reply, pos, maxSamples, 0) - 1) == SampleAt(reply, pos, k - 1)
  {
    FirstIterationNeverSettles(reply, pos);
    IterationsExact(reply, pos, maxSamples, 0, k);
  }

  /** If no iteration before the last possible one repeats its predecessor, the loop runs to the cap. */
  lemma RunsToCap(reply: nat -> Byte, pos: nat, maxSamples: uint8)
    requires forall j :: 0 <= j < Cap(maxSamples) - 1 ==> !Settled(reply, pos, j)
    ensures Iterations(reply, pos, maxSamples, 0) == Cap(maxSamples)
  {
    IterationsExact(reply, pos, maxSamples, 0, Cap(maxSamples) - 1);
  }

  /** The bytes `_readLoop` sends in `n` iterations: a zero byte, then the control byte, each time. */
  function LoopTrace(ctrl: Byte, n: nat): (t: seq<Event>)
    ensures |t| == 2 * n
    ensures forall i :: 0 <= i < |t| ==> t[i] == if i % 2 == 0 then Xfer(0) else Xfer(ctrl)
  {
    if n == 0 then [] else LoopTrace(ctrl, n - 1) + [Xfer(0), Xfer(ctrl)]
  }

  /** The result of one `getRaw`: the two samples, the bus log it adds and the replies it consumes. */
  datatype Acquisition = Acquisition(x: nat, y: nat, trace: seq<Event>, consumed: nat)

  /** What `getRaw` sends after the Y loop: in DFR mode a spacer and a PD=00 Y conversion, then a 16-bit flush. */
  function Epilogue(mode: uint8): seq<Event>
  {
    (if mode == MODE_DFR then [Xfer(0), Xfer(Control(CTRL_HI_Y, CTRL_LO_SER))] else []) + [Xfer(0), Xfer(0)]
  }

  /**
   * Only differential mode sends a control byte after the loops, and that byte
   * (0xD4, power-down bits 00) re-arms PENIRQ; the flush sends none.
   */
  lemma EpilogueRearms(mode: uint8)
    ensures LastControl(Epilogue(mode)) == if mode == MODE_DFR then Some(Control(CTRL_HI_Y, CTRL_LO_SER)) else None
  {
    var flush := [Xfer(0), Xfer(0)];
    assert LastControl(flush) == None by {
      assert flush[..1] == [Xfer(0)] && [Xfer(0)][..0] == [];
    }
    if mode == MODE_DFR {
      LastControlAfter([Xfer(0)], Control(CTRL_HI_Y, CTRL_LO_SER), flush);
      assert Epilogue(mode) == [Xfer(0)] + [Xfer(Control(CTRL_HI_Y, CTRL_LO_SER))] + flush;
    }
  }

  /** What `getRaw` clocks out between the chip-select edges: the first control byte, both loops and the epilogue. */
  function ExchangeTrace(mode: uint8, nx: nat, ny: nat): seq<Event>
  {
    var lo := CtrlLo(mode);
    [Xfer(Control(CTRL_HI_X, lo))] + LoopTrace(Control(CTRL_HI_X, lo), nx)
      + LoopTrace(Control(CTRL_HI_Y, lo), ny) + Epilogue(mode)
  }

  /** The log of a `getRaw` whose X loop ran `nx` and whose Y loop ran `ny` iterations. */
  function AcquireTrace(mode: uint8, nx: nat, ny: nat): seq<Event>
  {
    [Cs(Low)] + ExchangeTrace(mode, nx, ny) + [Cs(High)]
  }

  /** The acquisition of a `getRaw` whose X loop ran `nx` and whose Y loop ran `ny` iterations. */
  function AcquireWith(reply: nat -> Byte, pos: nat, mode: uint8, nx: nat, ny: nat): (a: Acquisition)
    requires nx >= 1 && ny >= 1
    ensures a.x <= ADC_MAX && a.y <= ADC_MAX
    ensures a.consumed == |a.trace| - 2
  {
    Acquisition(SampleAt(reply, pos + 1, nx - 1), SampleAt(reply, pos + 1 + 2 * nx, ny - 1),
                AcquireTrace(mode, nx, ny), 1 + 2 * nx + 2 * ny + |Epilogue(mode)|)
  }

  /** `getRaw` on a bus whose next transfer is the `pos`-th: the two samples, the bus trace and the bytes consumed. */
  function Acquire(reply: nat -> Byte, pos: nat, mode: uint8, maxSamples: uint8): (a: Acquisition)
    ensures a.x <= ADC_MAX && a.y <= ADC_MAX
    ensures a.consumed == |a.trace| - 2
  {
    var nx := Iterations(reply, pos + 1, maxSamples, 0);
    AcquireWith(reply, pos, mode, nx, Iterations(reply, pos + 1 + 2 * nx, maxSamples, 0))
  }

  /**
   * Chip select stays low for the whole exchange and only bytes are clocked in
   * between; the last control byte sent has power-down bits 00, so PENIRQ is
   * re-armed in both modes.
   */
  lemma AcquireFrames(reply: nat -> Byte, pos: nat, mode: uint8, maxSamples: uint8)
    ensures var a := Acquire(reply, pos, mode, maxSamples);
            |a.trace| >= 2 && a.trace[0] == Cs(Low) && a.trace[|a.trace| - 1] == Cs(High) &&
            (forall i :: 0 < i < |a.trace| - 1 ==> a.trace[i].Xfer?) &&
            LastControl(a.trace) == Some(Control(CTRL_HI_Y, CTRL_LO_SER))
  {
    var nx := Iterations(reply, pos + 1, maxSamples, 0);
    var ny := Iterations(reply, pos + 1 + 2 * nx, maxSamples, 0);
    AcquireParts(reply, pos, mode, maxSamples, nx, ny);
    TraceFrames(mode, nx, ny);
    TraceEndsArmed(mode, nx, ny);
  }

  /** Every acquisition trace is one chip-select frame around byte transfers only. */
  lemma TraceFrames(mode: uint8, nx: nat, ny: nat)
    ensures var t := AcquireTrace(mode, nx, ny);
            |t| >= 2 && t[0] == Cs(Low) && t[|t| - 1] == Cs(High) &&
            forall i :: 0 < i < |t| - 1 ==> t[i].Xfer?
  {
    var body := ExchangeTrace(mode, nx, ny);
    assert forall i :: 0 <= i < |body| ==> body[i].Xfer?;
  }

  /** `Acquire` taken apart: once the two loop lengths are known, the acquisition is fixed by them. */
  lemma AcquireParts(reply: nat -> Byte, pos: nat, mode: uint8, maxSamples: uint8, nx: nat, ny: nat)
    requires nx == Iterations(reply, pos + 1, maxSamples, 0)
    requires ny == Iterations(reply, pos + 1 + 2 * nx, maxSamples, 0)
    ensures Acquire(reply, pos, mode, maxSamples).x == SampleAt(reply, pos + 1, nx - 1)
    ensures Acquire(reply, pos, mode, maxSamples).y == SampleAt(reply, pos + 1 + 2 * nx, ny - 1)
    ensures Acquire(reply, pos, mode, maxSamples).trace == AcquireTrace(mode, nx, ny)
    ensures Acquire(reply, pos, mode, maxSamples).consumed == 1 + 2 * nx + 2 * ny + |Epilogue(mode)|
  {
  }

  /** `powerDown`: a throw-away Y conversion with PD=00 and a 16-bit flush, inside chip-select. */
  function PowerDownTrace(): (t: seq<Event>)
    ensures t == [Cs(Low), Xfer(0xD4), Xfer(0), Xfer(0), Cs(High)]
  {
    [Cs(Low), Xfer(Control(CTRL_HI_Y, CTRL_LO_SER)), Xfer(0), Xfer(0), Cs(High)]
  }

  /** The control byte sent last in a log, which decides the controller's power state afterwards. */
  function LastControl(t: seq<Event>): Option<Byte>
  {
    if |t| == 0 then None
    else if t[|t| - 1].Xfer? && IsControl(t[|t| - 1].sent) then Some(t[|t| - 1].sent)
    else LastControl(t[..|t| - 1])
  }

  /** An event that does not change the controller's configuration. */
  predicate Passive(e: Event)
  {
    !(e.Xfer? && IsControl(e.sent))
  }

  /** After control byte `c`, traffic without another control byte leaves `c` the last one. */
  lemma {:induction false} LastControlAfter(a: seq<Event>, c: Byte, z: seq<Event>)
    requires IsControl(c)
    requires forall i :: 0 <= i < |z| ==> Passive(z[i])
    ensures LastControl(a + [Xfer(c)] + z) == Some(c)
    decreases |z|
  {
    var t := a + [Xfer(c)] + z;
    if |z| > 0 {
      assert t[|t| - 1] == z[|z| - 1];
      assert t[..|t| - 1] == a + [Xfer(c)] + z[..|z| - 1];
      LastControlAfter(a, c, z[..|z| - 1]);
    } else {
      assert t[|t| - 1] == Xfer(c);
    }
  }

  /** Whatever the bus saw before a trace that issues a control byte, the trace's last control byte is the one in force. */
  lemma {:induction false} LastControlIgnoresHistory(h: seq<Event>, t: seq<Event>)
    requires LastControl(t).Some?
    ensures LastControl(h + t) == LastControl(t)
    decreases |t|
  {
    var ht := h + t;
    assert |t| > 0;
    assert ht[|ht| - 1] == t[|t| - 1];
    if !(t[|t| - 1].Xfer? && IsControl(t[|t| - 1].sent)) {
      assert ht[..|ht| - 1] == h + t[..|t| - 1];
      LastControlIgnoresHistory(h, t[..|t| - 1]);
    }
  }

  /** Once the Y loop has run at least once, the log of `getRaw` ends with PENIRQ armed. */
  lemma TraceEndsArmed(mode: uint8, nx: nat, ny: nat)
    requires ny >= 1
    ensures LastControl(AcquireTrace(mode, nx, ny)) == Some(Control(CTRL_HI_Y, CTRL_LO_SER))
  {
    var lo := CtrlLo(mode);
    var xs := [Xfer(Control(CTRL_HI_X, lo))] + LoopTrace(Control(CTRL_HI_X, lo), nx);
    var last := Control(CTRL_HI_Y, CTRL_LO_SER);
    var mid := if mode == MODE_DFR then xs + LoopTrace(Control(CTRL_HI_Y, lo), ny) + [Xfer(0)]
               else xs + LoopTrace(last, ny - 1) + [Xfer(0)];
    assert ExchangeTrace(mode, nx, ny) == mid + [Xfer(last)] + [Xfer(0), Xfer(0)];
    var flush := [Xfer(0), Xfer(0), Cs(High)];
    assert AcquireTrace(mode, nx, ny) == [Cs(Low)] + mid + [Xfer(last)] + flush;
    LastControlAfter([Cs(Low)] + mid, last, flush);
  }

  /** `powerDown` leaves PENIRQ armed too. */
  lemma PowerDownLeavesPenIrqArmed()
    ensures LastControl(PowerDownTrace()) == Some(Control(CTRL_HI_Y, CTRL_LO_SER))
  {
    var flush := [Xfer(0), Xfer(0), Cs(High)];
    assert PowerDownTrace() == [Cs(Low)] + [Xfer(Control(CTRL_HI_Y, CTRL_LO_SER))] + flush;
    LastControlAfter([Cs(Low)], Control(CTRL_HI_Y, CTRL_LO_SER), flush);
  }

  /** The differential-mode trace: `0x93`, X loop, Y loop with `0xD3`, then `0x00, 0xD4, 0x00, 0x00`. */
  lemma DifferentialTrace(nx: nat, ny: nat)
    ensures AcquireTrace(MODE_DFR, nx, ny) ==
      [Cs(Low), Xfer(0x93)] + LoopTrace(0x93, nx) + LoopTrace(0xD3, ny)
      + [Xfer(0), Xfer(0xD4), Xfer(0), Xfer(0), Cs(High)]
  {
  }

  /** The single-ended trace: `0x94`, X loop, Y loop with `0xD4`, then only the flush. */
  lemma SingleEndedTrace(nx: nat, ny: nat)
    ensures AcquireTrace(MODE_SER, nx, ny) ==
      [Cs(Low), Xfer(0x94)] + LoopTrace(0x94, nx) + LoopTrace(0xD4, ny)
      + [Xfer(0), Xfer(0), Cs(High)]
  {
  }

  /** With the header's default arguments `getRaw` runs in differential mode with a budget of 255 samples. */
  lemma DefaultArguments(nx: nat, ny: nat)
    ensures Cap(DEFAULT_MAX_SAMPLES) == 255
    ensures AcquireTrace(DEFAULT_MODE, nx, ny) ==
      [Cs(Low), Xfer(0x93)] + LoopTrace(0x93, nx) + LoopTrace(0xD3, ny)
      + [Xfer(0), Xfer(0xD4), Xfer(0), Xfer(0), Cs(High)]
  {
    DifferentialTrace(nx, ny);
  }
}
