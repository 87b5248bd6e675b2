/**
 * The driver object: its configuration and calibration fields, and the operations
 * that talk to the controller over the bus.
 */
module Driver {
  import opened Ints
  import opened Points
  import opened Hardware
  import opened Protocol
  import opened Calibration
  import opened Transform

  /** `swap` on two `int16_t` references: the values change places. */
  method Swap(a: int16, b: int16) returns (a': int16, b': int16)
    ensures a' == b && b' == a
  {
    var tmp := a;
    a' := b;
    b' := tmp;
  }

  /**
   * Once the two loop lengths are known, `Acquire` is what the conversions and
   * the epilogue produce: the two samples, the bytes consumed, and a trace that
   * frames the exchange with the two chip-select edges.
   */
  lemma AcquireLog(reply: nat -> Byte, pos: nat, mode: uint8, maxSamples: uint8, nx: nat, ny: nat)
    requires nx == Iterations(reply, pos + 1, maxSamples, 0)
    requires ny == Iterations(reply, pos + 1 + 2 * nx, maxSamples, 0)
    ensures Acquire(reply, pos, mode, maxSamples) ==
              Acquisition(SampleAt(reply, pos + 1, nx - 1), SampleAt(reply, pos + 1 + 2 * nx, ny - 1),
                          [Cs(Low)] + ExchangeTrace(mode, nx, ny) + [Cs(High)], 1 + 2 * nx + 2 * ny + |Epilogue(mode)|)
  {
  }

  /** Appending an exchange framed by the chip-select edges appends the whole frame. */
  lemma FrameLog(h: seq<Event>, t: seq<Event>)
    ensures h + [Cs(Low)] + t + [Cs(High)] == h + ([Cs(Low)] + t + [Cs(High)])
  {
  }

  /** Whatever the bus saw before, a `getRaw` leaves PENIRQ armed. */
  lemma AcquireArms(reply: nat -> Byte, pos: nat, mode: uint8, maxSamples: uint8, h: seq<Event>)
    ensures LastControl(h + Acquire(reply, pos, mode, maxSamples).trace) == Some(Control(CTRL_HI_Y, CTRL_LO_SER))
  {
    AcquireFrames(reply, pos, mode, maxSamples);
    LastControlIgnoresHistory(h, Acquire(reply, pos, mode, maxSamples).trace);
  }

  /** The conversions and the epilogue, appended one after the other, form the exchange of `getRaw`. */
  lemma ExchangeLog(h: seq<Event>, mode: uint8, nx: nat, ny: nat)
    ensures var lo := CtrlLo(mode);
            h + [Xfer(Control(CTRL_HI_X, lo))] + LoopTrace(Control(CTRL_HI_X, lo), nx)
              + LoopTrace(Control(CTRL_HI_Y, lo), ny) + Epilogue(mode) == h + ExchangeTrace(mode, nx, ny)
  {
  }

  /** One more sample appends one more pair of transfers to the loop's trace. */
  lemma LoopTraceGrows(h: seq<Event>, ctrl: Byte, n: nat)
    ensures h + LoopTrace(ctrl, n) + [Xfer(0)] + [Xfer(ctrl)] == h + LoopTrace(ctrl, n + 1)
  {
  }

  /** The transfers after the loops of `getRaw` form the epilogue of its mode. */
  lemma EpilogueLog(h: seq<Event>, mode: uint8)
    ensures mode == MODE_DFR ==>
              h + [Xfer(0)] + [Xfer(Control(CTRL_HI_Y, CTRL_LO_SER))] + [Xfer(0), Xfer(0)] == h + Epilogue(mode)
    ensures mode != MODE_DFR ==> h + [Xfer(0), Xfer(0)] == h + Epilogue(mode)
  {
  }

  class Xpt2046 {
    const csPin: uint8
    const irqPin: uint8
    var width: uint16
    var height: uint16
    var rotation: uint8
    var isSwapped: bool
    var calDx: int32
    var calDy: int32
    var cal1: Point
    var cal2: Point
    var cal3: Point
    var cal4: Point

    /** The calibration the driver holds. */
    function Calibration(): State
      reads this
    {
      State(Corners(cal1, cal2, cal3, cal4), isSwapped)
    }

    /**
     * The constructor keeps the pin numbers and starts unswapped. Fields the source
     * leaves uninitialised take the zero of a statically allocated driver.
     */
    constructor (csPin: uint8, irqPin: uint8)
      ensures this.csPin == csPin && this.irqPin == irqPin
      ensures !isSwapped && rotation == ROT_0
      ensures width == 0 && height == 0 && calDx == 0 && calDy == 0
      ensures Calibration() == State(Corners(Origin(), Origin(), Origin(), Origin()), false)
    {
      this.csPin := csPin;
      this.irqPin := irqPin;
      width, height := 0, 0;
      rotation := ROT_0;
      isSwapped := false;
      calDx, calDy := 0, 0;
      cal1, cal2, cal3, cal4 := Origin(), Origin(), Origin(), Origin();
    }

    /**
     * `begin`: records the screen size and the anchor spans, installs the default
     * calibration exactly as the source computes it (always accepted, unswapped)
     * and powers the controller down so that PENIRQ is armed.
     */
    method Begin(bus: Bus, width: uint16, height: uint16)
      requires width > 0 && height > 0
      modifies this, bus`consumed, bus`log, bus`cs
      ensures bus.log == old(bus.log) + PowerDownTrace() && bus.cs == High
      ensures bus.consumed == old(bus.consumed) + 3
      ensures LastControl(bus.log) == Some(Control(CTRL_HI_Y, CTRL_LO_SER))
      ensures this.width == width && this.height == height && rotation == old(rotation)
      ensures calDx == width - 2 * CAL_MARGIN && calDy == height - 2 * CAL_MARGIN
      ensures Calibration() == Calibrate(DefaultCornersAsWritten(width, height), old(isSwapped)).1 && !isSwapped
    {
      this.width := width;
      this.height := height;
      calDx := width - 2 * CAL_MARGIN;
      calDy := height - 2 * CAL_MARGIN;
      var d := DefaultCornersAsWritten(width, height);
      var _ := SetCalibration(d.p1, d.p2, d.p3, d.p4);
      DefaultsAccepted(width, height, old(isSwapped));
      PowerDown(bus);
    }


    /** `setRotation`. */
    method SetRotation(rotation: uint8)
      modifies this`rotation
      ensures this.rotation == rotation
    {
      this.rotation := rotation;
    }

    /** `getCalibrationPoints`: the screen anchors for the current size. */
    method GetCalibrationPoints() returns (p1: Point, p2: Point, p3: Point, p4: Point)
      ensures Corners(p1, p2, p3, p4) == Anchors(width, height)
      ensures Aligned(Corners(p1, p2, p3, p4), false)
    {
      p1 := Point(CAL_MARGIN, CAL_MARGIN);
      p2 := Narrow(width - CAL_MARGIN, CAL_MARGIN);
      p3 := Narrow(CAL_MARGIN, height - CAL_MARGIN);
      p4 := Narrow(width - CAL_MARGIN, height - CAL_MARGIN);
    }

    /**
     * The averaging step of `setCalibration`: each pair of readings on the same
     * edge is replaced by its average, x first, then y.
     */
    method AverageEdges()
      modifies this`cal1, this`cal2, this`cal3, this`cal4
      ensures Calibration() == State(Averaged(old(Calibration().corners), isSwapped), isSwapped)
    {
      if isSwapped {
        var x1 := Average(cal1.x, cal2.x);
        var x2 := Average(cal3.x, cal4.x);
        cal1, cal2 := cal1.(x := x1), cal2.(x := x1);
        cal3, cal4 := cal3.(x := x2), cal4.(x := x2);
        var y1 := Average(cal1.y, cal3.y);
        var y2 := Average(cal2.y, cal4.y);
        cal1, cal3 := cal1.(y := y1), cal3.(y := y1);
        cal2, cal4 := cal2.(y := y2), cal4.(y := y2);
      } else {
        var x1 := Average(cal1.x, cal3.x);
        var x2 := Average(cal2.x, cal4.x);
        cal1, cal3 := cal1.(x := x1), cal3.(x := x1);
        cal2, cal4 := cal2.(x := x2), cal4.(x := x2);
        var y1 := Average(cal1.y, cal2.y);
        var y2 := Average(cal3.y, cal4.y);
        cal1, cal2 := cal1.(y := y1), cal2.(y := y1);
        cal3, cal4 := cal3.(y := y2), cal4.(y := y2);
      }
    }

    /**
     * `setCalibration`: stores the readings, decides the orientation and, unless it
     * rejects them, replaces each edge by the average of its two readings.
     */
    method SetCalibration(p1: Point, p2: Point, p3: Point, p4: Point) returns (ok: bool)
      modifies this`cal1, this`cal2, this`cal3, this`cal4, this`isSwapped
      ensures (ok, Calibration()) == Calibrate(Corners(p1, p2, p3, p4), old(isSwapped))
    {
      cal1, cal2, cal3, cal4 := p1, p2, p3, p4;
      var orientation := Decide(Corners(p1, p2, p3, p4));
      if orientation == Rejected {
        return false;
      }
      isSwapped := orientation == Swapped;
      AverageEdges();
      return true;
    }

    /**
     * The swap decision of `setCalibration`: the axes are swapped when the first
     * edge runs more in y than in x and the second edge more in x than in y; an
     * edge that runs more in y without the second running more in x is rejected.
     */
    method Decide(c: Corners) returns (orientation: Orientation)
      ensures orientation == Orient(c)
    {
      var dx: int16 := Wrap16(c.p2.x - c.p1.x);
      var dy: int16 := Wrap16(c.p2.y - c.p1.y);
      if Abs(dx) < Abs(dy) {
        dx := Wrap16(c.p3.x - c.p1.x);
        dy := Wrap16(c.p3.y - c.p1.y);
        if Abs(dx) > Abs(dy) {
          orientation := Swapped;
        } else {
          orientation := Rejected;
        }
      } else {
        orientation := Unswapped;
      }
    }

    /** `isTouching`: PENIRQ is pulled low while the panel is pressed. */
    method IsTouching(bus: Bus) returns (t: bool)
      ensures t <==> bus.irq == Low
    {
      t := bus.irq == Low;
    }

    /**
     * `_readLoop`: clocks out samples until two consecutive ones agree or the
     * sample budget is spent, and returns the last sample.
     */
    method ReadLoop(bus: Bus, ctrl: Byte, maxSamples: uint8) returns (sample: uint16, ghost n: nat)
      modifies bus`consumed, bus`log
      ensures n == Iterations(bus.reply, old(bus.consumed), maxSamples, 0)
      ensures sample == SampleAt(bus.reply, old(bus.consumed), n - 1)
      ensures bus.consumed == old(bus.consumed) + 2 * n
      ensures bus.log == old(bus.log) + LoopTrace(ctrl, n)
    {
      var pos := bus.consumed;
      ghost var log0 := bus.log;
      var prev: uint16 := SENTINEL;
      var cur: uint16 := SENTINEL;
      var i: uint8 := 0;
      while true
        invariant i < Cap(maxSamples)
        invariant cur == Previous(bus.reply, pos, i)
        invariant forall j :: 0 <= j < i ==> !Settled(bus.reply, pos, j)
        invariant bus.consumed == pos + 2 * i
        invariant bus.log == log0 + LoopTrace(ctrl, i)
        decreases Cap(maxSamples) - i
      {
        prev := cur;
        var hi := bus.Transfer(0);
        var lo := bus.Transfer(ctrl);
        cur := Sample(hi, lo);
        assert cur == SampleAt(bus.reply, pos, i);
        LoopTraceGrows(log0, ctrl, i);
        if prev == cur || !(i as int + 1 < maxSamples) {
          IterationsExact(bus.reply, pos, maxSamples, 0, i);
          return cur, i as nat + 1;
        }
        i := i + 1;
      }
    }

    /**
     * The conversions of `getRaw`: the first control byte, then the x loop and the
     * y loop, each loop's control byte starting the next conversion. The samples
     * are those of `Acquire`, and so is everything but the epilogue.
     */
    method Convert(bus: Bus, mode: uint8, maxSamples: uint8) returns (x: uint16, y: uint16, ghost nx: nat, ghost ny: nat)
      modifies bus`consumed, bus`log
      ensures x == Acquire(bus.reply, old(bus.consumed), mode, maxSamples).x
      ensures y == Acquire(bus.reply, old(bus.consumed), mode, maxSamples).y
      ensures bus.consumed + |Epilogue(mode)| == old(bus.consumed) + Acquire(bus.reply, old(bus.consumed), mode, maxSamples).consumed
      ensures bus.log == old(bus.log) + [Xfer(Control(CTRL_HI_X, CtrlLo(mode)))]
                + LoopTrace(Control(CTRL_HI_X, CtrlLo(mode)), nx) + LoopTrace(Control(CTRL_HI_Y, CtrlLo(mode)), ny)
      ensures Acquire(bus.reply, old(bus.consumed), mode, maxSamples).trace
                == [Cs(Low)] + ExchangeTrace(mode, nx, ny) + [Cs(High)]
    {
      x, y, nx, ny := Conversions(bus, CtrlLo(mode), maxSamples);
      AcquireLog(bus.reply, old(bus.consumed), mode, maxSamples, nx, ny);
    }

    /** The bus traffic of the conversions, with the loop lengths they take. */
    method Conversions(bus: Bus, lo: Byte, maxSamples: uint8) returns (x: uint16, y: uint16, ghost nx: nat, ghost ny: nat)
      requires lo < 0x10
      modifies bus`consumed, bus`log
      ensures nx == Iterations(bus.reply, old(bus.consumed) + 1, maxSamples, 0)
      ensures ny == Iterations(bus.reply, old(bus.consumed) + 1 + 2 * nx, maxSamples, 0)
      ensures x == SampleAt(bus.reply, old(bus.consumed) + 1, nx - 1)
      ensures y == SampleAt(bus.reply, old(bus.consumed) + 1 + 2 * nx, ny - 1)
      ensures bus.consumed == old(bus.consumed) + 1 + 2 * nx + 2 * ny
      ensures bus.log == old(bus.log) + [Xfer(Control(CTRL_HI_X, lo))]
                + LoopTrace(Control(CTRL_HI_X, lo), nx) + LoopTrace(Control(CTRL_HI_Y, lo), ny)
    {
      var _ := bus.Transfer(Control(CTRL_HI_X, lo));
      x, nx := ReadLoop(bus, Control(CTRL_HI_X, lo), maxSamples);
      y, ny := ReadLoop(bus, Control(CTRL_HI_Y, lo), maxSamples);
    }

    /**
     * The end of `getRaw`: in differential mode one more conversion with power-down
     * bits 00 (differential mode's PD = 11 would leave PENIRQ disabled), then a
     * 16-bit flush.
     */
    method Flush(bus: Bus, mode: uint8)
      modifies bus`consumed, bus`log
      ensures bus.log == old(bus.log) + Epilogue(mode)
      ensures bus.consumed == old(bus.consumed) + |Epilogue(mode)|
    {
      EpilogueLog(bus.log, mode);
      if mode == MODE_DFR {
        var _ := bus.Transfer(0);
        var _ := bus.Transfer(Control(CTRL_HI_Y, CTRL_LO_SER));
      }
      var _ := bus.Transfer16(0);
    }

    /**
     * Everything `getRaw` does with chip select low: the conversions, then the
     * epilogue of the mode. The bus sees the inside of the frame of `Acquire`.
     */
    method Exchange(bus: Bus, mode: uint8, maxSamples: uint8) returns (x: uint16, y: uint16, ghost nx: nat, ghost ny: nat)
      modifies bus`consumed, bus`log
      ensures bus.log == old(bus.log) + ExchangeTrace(mode, nx, ny)
      ensures Acquire(bus.reply, old(bus.consumed), mode, maxSamples).trace
                == [Cs(Low)] + ExchangeTrace(mode, nx, ny) + [Cs(High)]
      ensures bus.consumed == old(bus.consumed) + Acquire(bus.reply, old(bus.consumed), mode, maxSamples).consumed
      ensures x == Acquire(bus.reply, old(bus.consumed), mode, maxSamples).x
      ensures y == Acquire(bus.reply, old(bus.consumed), mode, maxSamples).y
    {
      x, y, nx, ny := Convert(bus, mode, maxSamples);
      ExchangeLog(old(bus.log), mode, nx, ny);
      Flush(bus, mode);
    }

    /**
     * `getRaw`: one complete acquisition with chip select held low; the bus sees
     * exactly the trace of `Acquire` and the point holds its two samples.
     */
    method GetRaw(bus: Bus, mode: uint8, maxSamples: uint8) returns (point: Point)
      modifies bus`consumed, bus`log, bus`cs
      ensures var a := Acquire(bus.reply, old(bus.consumed), mode, maxSamples);
              point == Point(a.x, a.y) &&
              bus.log == old(bus.log) + a.trace &&
              bus.consumed == old(bus.consumed) + a.consumed
      ensures bus.cs == High
      ensures LastControl(bus.log) == Some(Control(CTRL_HI_Y, CTRL_LO_SER))
    {
      bus.WriteCs(Low);
      var x, y, nx, ny := Exchange(bus, mode, maxSamples);
      FrameLog(old(bus.log), ExchangeTrace(mode, nx, ny));
      bus.WriteCs(High);
      point := Point(x, y);
      AcquireArms(bus.reply, old(bus.consumed), mode, maxSamples, old(bus.log));
    }

    /**
     * The arithmetic half of `getPosition`: the calibration's linear map, then the
     * rotation, each written the way the driver updates the two coordinates.
     */
    method ScreenPosition(raw: Point) returns (position: Point)
      requires NonDegenerate(Calibration())
      ensures position == ToScreen(Calibration(), calDx, calDy, width, height, rotation, raw)
    {
      var x: int16, y: int16;
      if isSwapped {
        x := MapAxis(calDx, raw.y, cal1.y, cal2.y);
        y := MapAxis(calDy, raw.x, cal1.x, cal3.x);
      } else {
        x := MapAxis(calDx, raw.x, cal1.x, cal2.x);
        y := MapAxis(calDy, raw.y, cal1.y, cal3.y);
      }
      if rotation == ROT_90 {
        x := Wrap16(width - x);
        x, y := Swap(x, y);
      } else if rotation == ROT_180 {
        x := Wrap16(width - x);
        y := Wrap16(height - y);
      } else if rotation == ROT_270 {
        y := Wrap16(height - y);
        x, y := Swap(x, y);
      }
      position := Point(x, y);
    }

    /**
     * `getPosition`: the no-touch marker without any bus traffic when the panel is
     * not pressed; otherwise a raw acquisition mapped through the calibration and
     * the rotation.
     */
    method GetPosition(bus: Bus, mode: uint8, maxSamples: uint8) returns (position: Point)
      requires bus.irq == Low ==> NonDegenerate(Calibration())
      modifies bus`consumed, bus`log, bus`cs
      ensures bus.irq != Low ==> position == NO_TOUCH && unchanged(bus)
      ensures bus.irq == Low ==>
                var a := Acquire(bus.reply, old(bus.consumed), mode, maxSamples);
                position == ToScreen(Calibration(), calDx, calDy, width, height, rotation, Point(a.x, a.y)) &&
                bus.log == old(bus.log) + a.trace &&
                bus.consumed == old(bus.consumed) + a.consumed &&
                bus.cs == High &&
                LastControl(bus.log) == Some(Control(CTRL_HI_Y, CTRL_LO_SER))
    {
      var touching := IsTouching(bus);
      if !touching {
        return NO_TOUCH;
      }
      var raw := GetRaw(bus, mode, maxSamples);
      position := ScreenPosition(raw);
    }

    /** `powerDown`: one throw-away conversion with PD = 00, which re-arms PENIRQ. */
    method PowerDown(bus: Bus)
      modifies bus`consumed, bus`log, bus`cs
      ensures bus.log == old(bus.log) + PowerDownTrace() && bus.cs == High
      ensures bus.consumed == old(bus.consumed) + 3
      ensures LastControl(bus.log) == Some(Control(CTRL_HI_Y, CTRL_LO_SER))
    {
      bus.WriteCs(Low);
      var _ := bus.Transfer(Control(CTRL_HI_Y, CTRL_LO_SER));
      var _ := bus.Transfer16(0);
      bus.WriteCs(High);
      assert bus.log == old(bus.log) + PowerDownTrace();
      PowerDownLeavesPenIrqArmed();
      LastControlIgnoresHistory(old(bus.log), PowerDownTrace());
    }
  }
}
