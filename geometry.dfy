/** The three-axis score space shared by every classifier of the system:
    closed intervals, boxes made of three intervals, points, box centres and
    squared Euclidean distances. Distances stay squared: the source takes a
    square root, which is monotone, so every comparison of distances gives
    the same answer on the squares. */
module Geometry {

  datatype Axis = Economic | Culture | Authority

  /** A closed interval `[lo, hi]`, written `[min, max]` in the catalogs. */
  datatype Range = Range(lo: real, hi: real)

  /** A category box: one closed interval per axis. */
  datatype Box = Box(econ: Range, cult: Range, auth: Range)

  /** A score vector `{economic, culture, authority}`. */
  datatype Point = Point(econ: real, cult: real, auth: real)

  /** A catalog entry: a category name with its box. */
  datatype NamedBox = NamedBox(name: string, box: Box)

  function Coord(p: Point, a: Axis): real {
    match a
    case Economic => p.econ
    case Culture => p.cult
    case Authority => p.auth
  }

  predicate InRange(v: real, r: Range) {
    r.lo <= v <= r.hi
  }

  /** Containment on closed intervals, axis by axis. */
  predicate Contains(b: Box, p: Point) {
    InRange(p.econ, b.econ) && InRange(p.cult, b.cult) && InRange(p.auth, b.auth)
  }

  predicate WellFormed(b: Box) {
    b.econ.lo <= b.econ.hi && b.cult.lo <= b.cult.hi && b.auth.lo <= b.auth.hi
  }

  function Mid(r: Range): real {
    (r.lo + r.hi) / 2.0
  }

  /** The geometric centre `((min + max) / 2` per axis). */
  function Center(b: Box): Point {
    Point(Mid(b.econ), Mid(b.cult), Mid(b.auth))
  }

  function Sq(x: real): real {
    x * x
  }

  /** Squared Euclidean distance from `p` to the centre of `b`. */
  function SqDist(p: Point, b: Box): (d: real)
    ensures d >= 0.0
    ensures d == 0.0 <==> p == Center(b)
  {
    var c := Center(b);
    SqNonNeg(p.econ - c.econ);
    SqNonNeg(p.cult - c.cult);
    SqNonNeg(p.auth - c.auth);
    Sq(p.econ - c.econ) + Sq(p.cult - c.cult) + Sq(p.auth - c.auth)
  }

  /** Squared half-diagonal: the squared distance from a centre to a corner. */
  function HalfDiagSq(b: Box): real {
    Sq((b.econ.hi - b.econ.lo) / 2.0) + Sq((b.cult.hi - b.cult.lo) / 2.0) + Sq((b.auth.hi - b.auth.lo) / 2.0)
  }

  /** Squaring is strictly monotone on non-negative reals. */
  lemma SqStrictMonotone(x: real, y: real)
    requires 0.0 <= x < y
    ensures Sq(x) < Sq(y)
  {
    calc {
      Sq(x);
    ==
      x * x;
    <= { assert x * x <= x * y; }
      x * y;
    < { assert x * y < y * y; }
      y * y;
    ==
      Sq(y);
    }
  }

  /** Squaring is monotone on non-negative reals. */
  lemma SqMonotone(x: real, y: real)
    requires 0.0 <= x <= y
    ensures Sq(x) <= Sq(y)
  {
  }

  lemma SqNonNeg(x: real)
    ensures Sq(x) >= 0.0
    ensures x != 0.0 ==> Sq(x) > 0.0
  {
    assert Sq(0.0) == 0.0;
    if x > 0.0 {
      SqStrictMonotone(0.0, x);
    } else if x < 0.0 {
      SqStrictMonotone(0.0, -x);
      assert Sq(x) == Sq(-x);
    }
  }

  /** A point inside an interval is no farther from its midpoint than half its width. */
  lemma AxisNearMid(v: real, r: Range)
    requires InRange(v, r)
    ensures Sq(v - Mid(r)) <= Sq((r.hi - r.lo) / 2.0)
  {
  }

  /** Every point of a box lies within its half-diagonal of the centre. */
  lemma {:induction false} ContainedNearCenter(b: Box, p: Point)
    requires Contains(b, p)
    ensures SqDist(p, b) <= HalfDiagSq(b)
  {
    AxisNearMid(p.econ, b.econ);
    AxisNearMid(p.cult, b.cult);
    AxisNearMid(p.auth, b.auth);
  }

  /** The centre of a well-formed box lies inside it, at distance zero. */
  lemma {:induction false} CenterContained(b: Box)
    requires WellFormed(b)
    ensures Contains(b, Center(b))
    ensures SqDist(Center(b), b) == 0.0
  {
  }
}
