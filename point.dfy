/** `TS_Point`: a touch point, used for raw readings, calibration anchors and screen positions alike. */
module Points {
  import opened Ints

  datatype Point = Point(x: int16, y: int16)

  /** `TS_Point()`: the default constructor sets both coordinates to zero. */
  function Origin(): (p: Point)
    ensures p.x == 0 && p.y == 0
  {
    Point(0, 0)
  }

  /**
   * `TS_Point(int16_t, int16_t)` called with `int` arguments: each argument is
   * narrowed to `int16_t` on the way in.
   */
  function Narrow(x: int, y: int): (p: Point)
    ensures -0x8000 <= x < 0x8000 ==> p.x == x
    ensures -0x8000 <= y < 0x8000 ==> p.y == y
    ensures (x - p.x) % 0x1_0000 == 0 && (y - p.y) % 0x1_0000 == 0
  {
    Point(Wrap16(x), Wrap16(y))
  }

  /** `operator==`: compares the coordinates one by one, which is exactly equality of points. */
  function Equals(p: Point, other: Point): (r: bool)
    ensures r <==> p == other
  {
    other.x == p.x && other.y == p.y
  }

  /** `operator!=`: written separately in the source, and always the negation of `==`. */
  function NotEquals(p: Point, other: Point): (r: bool)
    ensures r <==> !Equals(p, other)
  {
    other.x != p.x || other.y != p.y
  }
}
