/**
 * The coordinate pipeline of `getPosition`: the calibration's linear map from raw
 * ADC space to screen space, then one of four rotations.
 */
module Transform {
  import opened Ints
  import opened Points
  import opened Calibration
  import Protocol

  /** `rotation_t`; any other value of the underlying `uint8_t` behaves like `ROT_0`. */
  const ROT_0: uint8 := 0
  const ROT_90: uint8 := 1
  const ROT_180: uint8 := 2
  const ROT_270: uint8 := 3

  /** `position.x = position.y = 0xffff`: the no-touch result once narrowed to `int16_t`. */
  const NO_TOUCH: Point := Narrow(0xFFFF, 0xFFFF)

  lemma NoTouchIsMinusOne()
    ensures NO_TOUCH == Point(-1, -1)
  {
  }

  /**
   * `getCalibrationPoints`: the screen anchors the user is asked to touch, the
   * corners inset by the margin. They are aligned like an unswapped calibration.
   */
  function Anchors(width: uint16, height: uint16): (c: Corners)
    ensures Aligned(c, false)
    ensures c.p1 == Point(CAL_MARGIN, CAL_MARGIN)
    ensures width < 0x8000 ==> c.p2.x == width - CAL_MARGIN
    ensures height < 0x8000 ==> c.p3.y == height - CAL_MARGIN
  {
    Corners(
      Narrow(CAL_MARGIN, CAL_MARGIN),
      Narrow(width - CAL_MARGIN, CAL_MARGIN),
      Narrow(CAL_MARGIN, height - CAL_MARGIN),
      Narrow(width - CAL_MARGIN, height - CAL_MARGIN))
  }

  /**
   * One axis of the map: `CAL_MARGIN + delta * (raw - lo) / (hi - lo)`, computed in
   * 32-bit `int` with C++ division and stored in an `int16_t`.
   */
  function MapAxis(delta: int32, raw: int16, lo: int16, hi: int16): (r: int16)
    requires hi != lo
    ensures raw == lo ==> r == CAL_MARGIN
  {
    TDivExact(0, hi - lo);
    Wrap16(CAL_MARGIN + TDiv(Wrap32(delta * (raw - lo)), hi - lo))
  }

  /** The anchor readings of an axis map to the two anchors: `lo` to the margin, `hi` to `margin + delta`. */
  lemma MapAxisEnds(delta: int32, lo: int16, hi: int16)
    requires hi != lo
    requires -0x8000_0000 <= delta * (hi - lo) < 0x8000_0000
    ensures MapAxis(delta, lo, lo, hi) == CAL_MARGIN
    ensures MapAxis(delta, hi, lo, hi) == Wrap16(CAL_MARGIN + delta)
  {
    TDivExact(0, hi - lo);
    TDivExact(delta, hi - lo);
  }

  /** The linear map of `getPosition`; a swapped panel feeds raw y to screen x and raw x to screen y. */
  function Map(s: State, dx: int32, dy: int32, raw: Point): (r: Point)
    requires NonDegenerate(s)
    ensures raw == s.corners.p1 ==> r == Point(CAL_MARGIN, CAL_MARGIN)
  {
    var c := s.corners;
    if s.swapped then
      Point(MapAxis(dx, raw.y, c.p1.y, c.p2.y), MapAxis(dy, raw.x, c.p1.x, c.p3.x))
    else
      Point(MapAxis(dx, raw.x, c.p1.x, c.p2.x), MapAxis(dy, raw.y, c.p1.y, c.p3.y))
  }

  /** The rotation step of `getPosition`. */
  function Rotate(p: Point, width: uint16, height: uint16, rotation: uint8): (r: Point)
    ensures rotation != ROT_90 && rotation != ROT_180 && rotation != ROT_270 ==> r == p
    ensures rotation == ROT_90 ==> r.x == p.y
    ensures rotation == ROT_270 ==> r.y == p.x
  {
    if rotation == ROT_90 then Point(p.y, Wrap16(width - p.x))
    else if rotation == ROT_180 then Point(Wrap16(width - p.x), Wrap16(height - p.y))
    else if rotation == ROT_270 then Point(Wrap16(height - p.y), p.x)
    else p
  }

  /** The inverse of each rotation, written independently of `Rotate`. */
  function Unrotate(p: Point, width: uint16, height: uint16, rotation: uint8): Point
  {
    if rotation == ROT_90 then Point(Wrap16(width - p.y), p.x)
    else if rotation == ROT_180 then Point(Wrap16(width - p.x), Wrap16(height - p.y))
    else if rotation == ROT_270 then Point(p.y, Wrap16(height - p.x))
    else p
  }

  /** The whole pipeline on a raw reading. */
  function ToScreen(s: State, dx: int32, dy: int32, width: uint16, height: uint16, rotation: uint8, raw: Point): Point
    requires NonDegenerate(s)
  {
    Rotate(Map(s, dx, dy, raw), width, height, rotation)
  }

  /** Reflecting twice about the same size gives back any `int16_t`, even through the 16-bit wrap. */
  lemma ReflectTwice(size: uint16, v: int16)
    ensures Wrap16(size - Wrap16(size - v)) == v
  {
    var w := Wrap16(size - v);
    var k := (size - v + 0x8000) / 0x1_0000;
    assert w == size - v - k * 0x1_0000;
    assert size - w == v + k * 0x1_0000;
    assert (size - w + 0x8000) % 0x1_0000 == v + 0x8000 by {
      assert size - w + 0x8000 == (v + 0x8000) + k * 0x1_0000;
    }
  }

  /** Every rotation is a bijection on points: no two touches end up at the same position. */
  lemma RotationIsInvertible(p: Point, width: uint16, height: uint16, rotation: uint8)
    ensures Unrotate(Rotate(p, width, height, rotation), width, height, rotation) == p
    ensures Rotate(Unrotate(p, width, height, rotation), width, height, rotation) == p
  {
    if rotation == ROT_90 {
      ReflectTwice(width, p.x);
      ReflectTwice(width, p.y);
    } else if rotation == ROT_180 {
      ReflectTwice(width, p.x);
      ReflectTwice(height, p.y);
    } else if rotation == ROT_270 {
      ReflectTwice(height, p.y);
      ReflectTwice(height, p.x);
    }
  }

  /**
   * A position on the unrotated screen stays on the screen after rotation: a
   * quarter turn exchanges the roles of width and height.
   */
  lemma RotationStaysOnScreen(p: Point, width: uint16, height: uint16, rotation: uint8)
    requires width < 0x8000 && height < 0x8000
    requires 0 <= p.x <= width && 0 <= p.y <= height
    ensures var q := Rotate(p, width, height, rotation);
            if rotation == ROT_90 || rotation == ROT_270 then 0 <= q.x <= height && 0 <= q.y <= width
            else 0 <= q.x <= width && 0 <= q.y <= height
  {
  }

  /**
   * For every accepted calibration with non-zero divisors, touching the calibrated
   * readings gives back exactly the anchors `getCalibrationPoints` showed, as long
   * as `delta * (hi - lo)` fits the 32-bit `int`.
   */
  lemma CalibratedCornersMapToAnchors(s: State, width: uint16, height: uint16)
    requires Aligned(s.corners, s.swapped) && NonDegenerate(s)
    requires var c := s.corners;
             var spanX := if s.swapped then c.p2.y - c.p1.y else c.p2.x - c.p1.x;
             var spanY := if s.swapped then c.p3.x - c.p1.x else c.p3.y - c.p1.y;
             -0x8000_0000 <= (width - 2 * CAL_MARGIN) * spanX < 0x8000_0000 &&
             -0x8000_0000 <= (height - 2 * CAL_MARGIN) * spanY < 0x8000_0000
    ensures var dx, dy := width - 2 * CAL_MARGIN, height - 2 * CAL_MARGIN;
            var c, a := s.corners, Anchors(width, height);
            Map(s, dx, dy, c.p1) == a.p1 && Map(s, dx, dy, c.p2) == a.p2 &&
            Map(s, dx, dy, c.p3) == a.p3 && Map(s, dx, dy, c.p4) == a.p4
  {
    var c := s.corners;
    var dx, dy := width - 2 * CAL_MARGIN, height - 2 * CAL_MARGIN;
    if s.swapped {
      MapAxisEnds(dx, c.p1.y, c.p2.y);
      MapAxisEnds(dy, c.p1.x, c.p3.x);
    } else {
      MapAxisEnds(dx, c.p1.x, c.p2.x);
      MapAxisEnds(dy, c.p1.y, c.p3.y);
    }
  }

  /**
   * Worked examples on a 240 x 320 screen: the centre reading under two rotations,
   * the panel mirrored in x (decided unswapped), and `(60, 80)` under each rotation.
   */
  lemma ScreenExamples()
    ensures var s := State(Corners(Point(200, 200), Point(3895, 200), Point(200, 3895), Point(3895, 3895)), false);
            ToScreen(s, 200, 280, 240, 320, ROT_0, Point(2047, 2047)) == Point(119, 159) &&
            ToScreen(s, 200, 280, 240, 320, ROT_90, Point(2047, 2047)) == Point(159, 121)
    ensures var r := Calibrate(Corners(Point(3900, 200), Point(200, 200), Point(3900, 3900), Point(200, 3900)), false);
            r.0 && !r.1.swapped && NonDegenerate(r.1) && ToScreen(r.1, 200, 280, 240, 320, ROT_0, Point(2047, 2047)) == Point(120, 159)
    ensures Rotate(Point(60, 80), 240, 320, ROT_90) == Point(80, 180)
    ensures Rotate(Point(60, 80), 240, 320, ROT_180) == Point(180, 240)
    ensures Rotate(Point(60, 80), 240, 320, ROT_270) == Point(240, 60)
  {
  }

  /**
   * The default calibration as the source computes it, on the default 240 x 320
   * screen: its x divisor is negative, so the raw range maps backwards and far off
   * screen (raw 0 lands at x = 174, raw ADC_MAX at x = -1678).
   */
  lemma AsWrittenDefaultMisplacesTouches()
    ensures var s := Calibrate(DefaultCornersAsWritten(WIDTH, HEIGHT), false).1;
            s.corners.p1.x == 341 && s.corners.p2.x == -101 && NonDegenerate(s) &&
            Map(s, 200, 280, Point(0, 0)).x == 174 &&
            Map(s, 200, 280, Point(Protocol.ADC_MAX, Protocol.ADC_MAX)).x == -1678
  {
    assert Inset(WIDTH) == 341 && Inset(HEIGHT) == 255;
    var c := Corners(Point(341, 255), Point(-101, 255), Point(341, 65), Point(-101, 65));
    assert DefaultCornersAsWritten(WIDTH, HEIGHT) == c;
    assert Orient(c) == Unswapped;
    assert Averaged(c, false) == c;
    var s := State(c, false);
    assert Calibrate(c, false).1 == s;
    assert TDiv(-68200, -442) == 154;
    assert MapAxis(200, 0, 341, -101) == 174;
    assert TDiv(750800, -442) == -1698;
    assert MapAxis(200, Protocol.ADC_MAX, 341, -101) == -1678;
  }

  /** On a 404-pixel-wide screen the source's default calibration leaves the x divisor zero. */
  lemma AsWrittenDefaultDegenerate()
    ensures !NonDegenerate(Calibrate(DefaultCornersAsWritten(404, HEIGHT), false).1)
  {
    assert Inset(404) == 202 && Inset(HEIGHT) == 255;
    var c := Corners(Point(202, 255), Point(202, 255), Point(202, 65), Point(202, 65));
    assert DefaultCornersAsWritten(404, HEIGHT) == c;
    assert Orient(c) == Unswapped;
    assert Averaged(c, false) == c;
  }

  /** The intended default calibration maps the raw corners of the ADC range onto the 240 x 320 screen. */
  lemma DefaultCalibrationCoversScreen()
    ensures var s := Calibrate(DefaultCorners(WIDTH, HEIGHT), false).1;
            NonDegenerate(s) &&
            Map(s, 200, 280, Point(0, 0)) == Point(1, 1) &&
            Map(s, 200, 280, Point(Protocol.ADC_MAX, Protocol.ADC_MAX)) == Point(239, 319)
  {
    assert Inset(WIDTH) == 341 && Inset(HEIGHT) == 255;
    var c := Corners(Point(341, 255), Point(3754, 255), Point(341, 3840), Point(3754, 3840));
    assert DefaultCorners(WIDTH, HEIGHT) == c;
    assert Orient(c) == Unswapped;
    assert Averaged(c, false) == c;
    assert Calibrate(c, false).1 == State(c, false);
    assert TDiv(-68200, 3413) == -19;
    assert TDiv(750800, 3413) == 219;
    assert TDiv(-71400, 3585) == -19;
    assert TDiv(1075200, 3585) == 299;
  }

  /**
   * A panel wired with x and y exchanged produces the transposed readings. When the
   * first edge clearly runs along x and the second along y, the swap test keeps the
   * plain panel unswapped and flags the exchanged one as swapped, and the two
   * calibrations send every touch to the same screen position.
   */
  lemma ExchangedWiringDetected(c: Corners, wasSwapped: bool, dx: int32, dy: int32, raw: Point)
    requires Abs(Wrap16(c.p2.x - c.p1.x)) > Abs(Wrap16(c.p2.y - c.p1.y))
    requires Abs(Wrap16(c.p3.y - c.p1.y)) > Abs(Wrap16(c.p3.x - c.p1.x))
    requires NonDegenerate(Calibrate(c, wasSwapped).1)
    ensures Orient(c) == Unswapped && Orient(Transpose(c)) == Swapped
    ensures var s, t := Calibrate(c, wasSwapped).1, Calibrate(Transpose(c), wasSwapped).1;
            t.swapped && t.corners == Transpose(s.corners) && NonDegenerate(t) &&
            Map(t, dx, dy, Point(raw.y, raw.x)) == Map(s, dx, dy, raw)
  {
    assert Orient(Transpose(c)) == Swapped;
    TransposeAveraged(c);
  }

  /** Averaging the exchanged readings as swapped gives the exchanged averages of the plain ones. */
  lemma TransposeAveraged(c: Corners)
    ensures Averaged(Transpose(c), true) == Transpose(Averaged(c, false))
  {
  }
}
