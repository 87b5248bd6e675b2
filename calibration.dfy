/**
 * Calibration: the four raw readings taken at the screen anchors, the swap
 * decision and pair averaging of `setCalibration`, and the default calibration
 * that `begin` installs.
 */
module Calibration {
  import opened Ints
  import opened Points
  import Protocol

  /** The inset of the calibration anchors from the screen border. */
  const CAL_MARGIN: nat := 20
  /** Default screen size, the default arguments of `begin`. */
  const WIDTH: uint16 := 240
  const HEIGHT: uint16 := 320

  /** Four points in anchor order: upper left, upper right, lower left, lower right. */
  datatype Corners = Corners(p1: Point, p2: Point, p3: Point, p4: Point)

  /** The outcome of the swap test. */
  datatype Orientation = Unswapped | Swapped | Rejected

  /** The calibration a driver holds: `_cal_point_1..4` and `_is_swapped`. */
  datatype State = State(corners: Corners, swapped: bool)

  /**
   * The swap test of `setCalibration`. The deltas are stored in `int16_t` before
   * `abs` sees them; a pair of equal absolute deltas counts as not swapped.
   */
  function Orient(c: Corners): (o: Orientation)
    ensures o == Unswapped <==> Abs(Wrap16(c.p2.x - c.p1.x)) >= Abs(Wrap16(c.p2.y - c.p1.y))
    ensures o == Swapped <==>
              Abs(Wrap16(c.p2.x - c.p1.x)) < Abs(Wrap16(c.p2.y - c.p1.y)) &&
              Abs(Wrap16(c.p3.x - c.p1.x)) > Abs(Wrap16(c.p3.y - c.p1.y))
  {
    var dx, dy := Wrap16(c.p2.x - c.p1.x), Wrap16(c.p2.y - c.p1.y);
    if Abs(dx) < Abs(dy) then
      var ex, ey := Wrap16(c.p3.x - c.p1.x), Wrap16(c.p3.y - c.p1.y);
      if Abs(ex) > Abs(ey) then Swapped else Rejected
    else
      Unswapped
  }

  /** The readings of a panel whose x and y sensing lines are exchanged. */
  function Transpose(c: Corners): Corners
  {
    Corners(Point(c.p1.y, c.p1.x), Point(c.p2.y, c.p2.x), Point(c.p3.y, c.p3.x), Point(c.p4.y, c.p4.x))
  }

  /** Opposite corners share their edge coordinate, as a successful `setCalibration` leaves them. */
  predicate Aligned(c: Corners, swapped: bool)
  {
    if swapped then
      c.p1.x == c.p2.x && c.p3.x == c.p4.x && c.p1.y == c.p3.y && c.p2.y == c.p4.y
    else
      c.p1.x == c.p3.x && c.p2.x == c.p4.x && c.p1.y == c.p2.y && c.p3.y == c.p4.y
  }

  /** The divisors `getPosition` uses are non-zero. */
  predicate NonDegenerate(s: State)
  {
    if s.swapped then
      s.corners.p2.y != s.corners.p1.y && s.corners.p3.x != s.corners.p1.x
    else
      s.corners.p2.x != s.corners.p1.x && s.corners.p3.y != s.corners.p1.y
  }

  /** `(a + b) / 2` in C++: the midpoint, rounded toward zero; it always fits `int16_t`. */
  function Average(a: int16, b: int16): (m: int16)
    ensures Midpoint(m, a, b)
  {
    TDiv(a + b, 2)
  }

  /**
   * `m` is `(a + b) / 2` as C++ computes it: between `a` and `b`, and the exact
   * midpoint rounded toward zero. At most one value qualifies (`MidpointUnique`).
   */
  predicate Midpoint(m: int, a: int, b: int)
  {
    (a <= m <= b || b <= m <= a) &&
    (a + b >= 0 ==> 0 <= a + b - 2 * m <= 1) &&
    (a + b < 0 ==> -1 <= a + b - 2 * m <= 0)
  }

  /** The truncated average is determined by the two readings. */
  lemma MidpointUnique(m: int, m': int, a: int, b: int)
    requires Midpoint(m, a, b) && Midpoint(m', a, b)
    ensures m == m'
  {
  }

  /**
   * The pair averaging of `setCalibration`: each edge gets the truncated average
   * of the two readings on it. The result is aligned, and aligned corners are left
   * as they are.
   */
  function Averaged(c: Corners, swapped: bool): (r: Corners)
    ensures Aligned(r, swapped)
    ensures swapped ==>
              Midpoint(r.p1.x, c.p1.x, c.p2.x) && Midpoint(r.p3.x, c.p3.x, c.p4.x) &&
              Midpoint(r.p1.y, c.p1.y, c.p3.y) && Midpoint(r.p2.y, c.p2.y, c.p4.y)
    ensures !swapped ==>
              Midpoint(r.p1.x, c.p1.x, c.p3.x) && Midpoint(r.p2.x, c.p2.x, c.p4.x) &&
              Midpoint(r.p1.y, c.p1.y, c.p2.y) && Midpoint(r.p3.y, c.p3.y, c.p4.y)
    ensures Aligned(c, swapped) ==> r == c
  {
    if swapped then
      var x1, x2 := Average(c.p1.x, c.p2.x), Average(c.p3.x, c.p4.x);
      var y1, y2 := Average(c.p1.y, c.p3.y), Average(c.p2.y, c.p4.y);
      Corners(Point(x1, y1), Point(x1, y2), Point(x2, y1), Point(x2, y2))
    else
      var x1, x2 := Average(c.p1.x, c.p3.x), Average(c.p2.x, c.p4.x);
      var y1, y2 := Average(c.p1.y, c.p2.y), Average(c.p3.y, c.p4.y);
      Corners(Point(x1, y1), Point(x2, y1), Point(x1, y2), Point(x2, y2))
  }

  /**
   * `setCalibration(c)` on a driver whose swap flag was `wasSwapped`: the result
   * and the state it leaves. On rejection the raw points are already stored and
   * the old flag stays.
   */
  function Calibrate(c: Corners, wasSwapped: bool): (r: (bool, State))
    ensures r.0 <==> Orient(c) != Rejected
    ensures r.0 ==> r.1.swapped == (Orient(c) == Swapped) && Aligned(r.1.corners, r.1.swapped)
    ensures r.0 ==> r.1.corners == Averaged(c, r.1.swapped)
    ensures !r.0 ==> r.1 == State(c, wasSwapped)
  {
    match Orient(c)
    case Rejected => (false, State(c, wasSwapped))
    case Swapped => (true, State(Averaged(c, true), true))
    case Unswapped => (true, State(Averaged(c, false), false))
  }

  /** A 16-bit narrowing is zero only for zero, among differences of two `int16_t` values. */
  lemma Wrap16Zero(v: int)
    requires -0x1_0000 < v < 0x1_0000
    ensures Wrap16(v) == 0 <==> v == 0
  {
    if Wrap16(v) == 0 {
      assert v % 0x1_0000 == 0;
    }
  }

  /**
   * Feeding a stored calibration back into `setCalibration` is accepted and
   * changes nothing, provided its divisors are non-zero.
   */
  lemma RecalibrationIsStable(s: State, wasSwapped: bool)
    requires Aligned(s.corners, s.swapped) && NonDegenerate(s)
    ensures Calibrate(s.corners, wasSwapped) == (true, s)
  {
    var c := s.corners;
    if s.swapped {
      Wrap16Zero(c.p2.y - c.p1.y);
      Wrap16Zero(c.p3.x - c.p1.x);
      assert Orient(c) == Swapped;
    } else {
      assert Orient(c) == Unswapped;
    }
  }

  /** Four identical readings pass the swap test as unswapped, yet leave both divisors zero. */
  lemma IdenticalPointsAccepted(p: Point, wasSwapped: bool)
    ensures Calibrate(Corners(p, p, p, p), wasSwapped) == (true, State(Corners(p, p, p, p), false))
    ensures !NonDegenerate(State(Corners(p, p, p, p), false))
  {
  }

  /** `CAL_MARGIN * ADC_MAX / size`: the anchor inset scaled to ADC units. */
  function Inset(size: uint16): nat
    requires size > 0
  {
    CAL_MARGIN * Protocol.ADC_MAX / size
  }

  /** A screen wider than both margins gives an inset below half the ADC range. */
  lemma InsetBound(size: uint16)
    requires size > 2 * CAL_MARGIN
    ensures Inset(size) <= 1997
  {
    var q := Inset(size);
    assert q == 81900 / size;
    assert q * size + 81900 % size == 81900;
    MulMonotone(q, 41, size);
  }

  lemma MulMonotone(q: nat, a: nat, b: nat)
    requires a <= b
    ensures q * a <= q * b
  {
  }

  /** The default calibration points of `begin`, as the source computes them. */
  function DefaultCornersAsWritten(width: uint16, height: uint16): (c: Corners)
    requires width > 0 && height > 0
    ensures width < 0x8000 && Inset(width) < 0x8000 ==> c.p2.x - c.p1.x == width - 2 * Inset(width)
    ensures height < 0x8000 && Inset(height) < 0x8000 ==> c.p3.y - c.p1.y == height - 2 * Inset(height)
  {
    var a, b := Inset(width), Inset(height);
    Corners(Narrow(a, b), Narrow(width - a, b), Narrow(a, height - b), Narrow(width - a, height - b))
  }

  /**
   * The default calibration points as intended ("map 0..ADC_MAX to 0..width|height"):
   * the anchors inset from both ends of the ADC range.
   */
  function DefaultCorners(width: uint16, height: uint16): (c: Corners)
    requires width > 0 && height > 0
    ensures c.p1.y == c.p2.y
  {
    var a, b := Inset(width), Inset(height);
    var far_a, far_b := Protocol.ADC_MAX - a, Protocol.ADC_MAX - b;
    Corners(Narrow(a, b), Narrow(far_a, b), Narrow(a, far_b), Narrow(far_a, far_b))
  }

  /** Both default calibrations share `p1.y == p2.y`, so `setCalibration` accepts them as unswapped. */
  lemma DefaultsAccepted(width: uint16, height: uint16, wasSwapped: bool)
    requires width > 0 && height > 0
    ensures Orient(DefaultCorners(width, height)) == Unswapped
    ensures Orient(DefaultCornersAsWritten(width, height)) == Unswapped
    ensures !Calibrate(DefaultCorners(width, height), wasSwapped).1.swapped
  {
  }

  /**
   * On any screen larger than the margins, the intended default calibration lies in
   * the ADC range, rises along both axes and so has non-zero divisors.
   */
  lemma DefaultCalibrationIncreasing(width: uint16, height: uint16, wasSwapped: bool)
    requires width > 2 * CAL_MARGIN && height > 2 * CAL_MARGIN
    ensures var s := Calibrate(DefaultCorners(width, height), wasSwapped).1;
            var c := s.corners;
            !s.swapped && NonDegenerate(s) &&
            0 <= c.p1.x < c.p2.x <= Protocol.ADC_MAX && 0 <= c.p1.y < c.p3.y <= Protocol.ADC_MAX
  {
    InsetBound(width);
    InsetBound(height);
    var a, b := Inset(width), Inset(height);
    var d := DefaultCorners(width, height);
    assert d.p1 == Point(a, b) && d.p2 == Point(Protocol.ADC_MAX - a, b);
    assert d.p3 == Point(a, Protocol.ADC_MAX - b) && d.p4 == Point(Protocol.ADC_MAX - a, Protocol.ADC_MAX - b);
    var c := Calibrate(d, wasSwapped).1.corners;
    assert c == Averaged(d, false);
    assert c.p1 == Point(a, b) && c.p2.x == Protocol.ADC_MAX - a && c.p3.y == Protocol.ADC_MAX - b;
  }

  /**
   * The swap test on four calibrations: a plain one, one wired with x and y
   * exchanged, four identical readings (accepted, since `abs(0) < abs(0)` is false),
   * and a panel mirrored in x (unswapped: its first edge runs 3700 in x and 0 in y).
   */
  lemma SwapExamples()
    ensures Orient(Corners(Point(100, 100), Point(900, 110), Point(110, 900), Point(900, 900))) == Unswapped
    ensures Orient(Corners(Point(100, 900), Point(100, 100), Point(900, 900), Point(900, 100))) == Swapped
    ensures Orient(Corners(Point(500, 500), Point(500, 500), Point(500, 500), Point(500, 500))) == Unswapped
    ensures Orient(Corners(Point(3900, 200), Point(200, 200), Point(3900, 3900), Point(200, 3900))) == Unswapped
  {
  }
}
