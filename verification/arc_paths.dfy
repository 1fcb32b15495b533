/**
  Arc path builders of the wheel (src/lib/utils.ts).

  A path is a sequence of commands of the SVG path mini-language (section 8.3
  of the SVG 1.1 recommendation): moveto `M x y`, lineto `L x y`, elliptical
  arc `A rx ry x-axis-rotation large-arc-flag sweep-flag x y` and closepath
  `Z`.  The polar projection uses floating-point trigonometry; it is taken as
  a parameter `polar` and never interpreted, so every statement below holds
  for whatever point it returns.  Numbers are exact reals.
*/
module ArcPaths {

  datatype Point = Point(x: real, y: real)

  /** polar(cx, cy, r, deg): the point at angle deg (0 at the top, clockwise) on the circle of radius r around (cx, cy). */
  type Polar = (real, real, real, real) -> Point

  /** An SVG arc flag: 0 or 1. */
  type Flag = b: int | 0 <= b <= 1

  datatype Command =
    | MoveTo(x: real, y: real)
    | LineTo(x: real, y: real)
    | ArcTo(rx: real, ry: real, rotation: real, largeArc: Flag, sweep: Flag, x: real, y: real)
    | ClosePath

  type Path = seq<Command>

  // ---------------------------------------------------------------------------
  // JavaScript's remainder operator on numbers

  /** Rounds toward zero, as the quotient of JavaScript's `%` does. */
  function Trunc(x: real): (n: int)
    ensures x >= 0.0 ==> 0 <= n && n as real <= x < n as real + 1.0
    ensures x < 0.0 ==> n as real - 1.0 < x <= n as real <= 0.0
  {
    if x >= 0.0 then x.Floor else -((-x).Floor)
  }

  /** `a % 360` on JavaScript numbers: the remainder of the truncating division, with the sign of a. */
  function Rem360(a: real): (m: real)
    ensures a >= 0.0 ==> 0.0 <= m < 360.0
    ensures a < 0.0 ==> -360.0 < m <= 0.0
    ensures SameDirection(m, a)
  {
    var t := Trunc(a / 360.0);
    assert (a - 360.0 * t as real - a) / 360.0 == (-t) as real;
    a - 360.0 * t as real
  }

  /** The residue of e - s modulo 360 in [0, 360): how far one turns clockwise from angle s to reach angle e. */
  function ForwardDelta(s: real, e: real): (d: real)
    ensures 0.0 <= d < 360.0
  {
    (e - s) - 360.0 * ((e - s) / 360.0).Floor as real
  }

  /** a and b name the same direction: they differ by a whole number of turns. */
  predicate SameDirection(a: real, b: real)
  {
    ((a - b) / 360.0).Floor as real == (a - b) / 360.0
  }

  /** Same direction is transitive. */
  lemma SameDirectionTrans(a: real, b: real, c: real)
    requires SameDirection(a, b) && SameDirection(b, c)
    ensures SameDirection(a, c)
  {
    var k1 := ((a - b) / 360.0).Floor;
    var k2 := ((b - c) / 360.0).Floor;
    assert (a - c) / 360.0 == (k1 + k2) as real;
  }

  /** The delta describeArc computes: ((endDeg - startDeg) % 360 + 360) % 360. */
  function NormalizedDelta(startDeg: real, endDeg: real): (d: real)
    ensures 0.0 <= d < 360.0
    ensures SameDirection(d, endDeg - startDeg)
  {
    var inner := Rem360(endDeg - startDeg);
    assert SameDirection(inner + 360.0, inner) by {
      assert (inner + 360.0 - inner) / 360.0 == 1.0;
    }
    var d := Rem360(inner + 360.0);
    SameDirectionTrans(d, inner + 360.0, inner);
    SameDirectionTrans(d, inner, endDeg - startDeg);
    d
  }

  /** The two-step JavaScript normalisation agrees with the mathematical residue for every pair of angles. */
  lemma NormalizedDeltaIsForwardDelta(startDeg: real, endDeg: real)
    ensures NormalizedDelta(startDeg, endDeg) == ForwardDelta(startDeg, endDeg)
  {
    ForwardDeltaSameDirection(startDeg, endDeg);
    ResidueUnique(NormalizedDelta(startDeg, endDeg), ForwardDelta(startDeg, endDeg), endDeg - startDeg);
  }

  /** There is one angle in [0, 360) for each direction. */
  lemma ResidueUnique(d1: real, d2: real, x: real)
    requires 0.0 <= d1 < 360.0 && 0.0 <= d2 < 360.0
    requires SameDirection(d1, x) && SameDirection(d2, x)
    ensures d1 == d2
  {
    var k1 := ((d1 - x) / 360.0).Floor;
    var k2 := ((d2 - x) / 360.0).Floor;
    assert d1 - d2 == 360.0 * (k1 - k2) as real;
  }

  lemma ForwardDeltaSameDirection(s: real, e: real)
    ensures SameDirection(ForwardDelta(s, e), e - s)
  {
    var k := ((e - s) / 360.0).Floor;
    assert (ForwardDelta(s, e) - (e - s)) / 360.0 == -k as real;
  }

  /** Turning the start or the end angle by whole turns leaves the delta, and so the large-arc flag, unchanged. */
  lemma NormalizedDeltaShift(startDeg: real, endDeg: real, i: int, j: int)
    ensures NormalizedDelta(startDeg + 360.0 * i as real, endDeg + 360.0 * j as real)
         == NormalizedDelta(startDeg, endDeg)
  {
    var s', e' := startDeg + 360.0 * i as real, endDeg + 360.0 * j as real;
    var d := NormalizedDelta(startDeg, endDeg);
    var k := ((d - (endDeg - startDeg)) / 360.0).Floor;
    assert (d - (e' - s')) / 360.0 == (k - j + i) as real;
    ResidueUnique(NormalizedDelta(s', e'), d, e' - s');
  }

  /** A span already in [0, 360) is its own delta. */
  lemma NormalizedDeltaOfSmallSpan(startDeg: real, endDeg: real)
    requires 0.0 <= endDeg - startDeg < 360.0
    ensures NormalizedDelta(startDeg, endDeg) == endDeg - startDeg
  {
    assert SameDirection(endDeg - startDeg, endDeg - startDeg);
    ResidueUnique(NormalizedDelta(startDeg, endDeg), endDeg - startDeg, endDeg - startDeg);
  }

  // ---------------------------------------------------------------------------
  // describeArc: an open arc

  /**
    describeArc(cx, cy, r, startDeg, endDeg, cw): move to the point at startDeg,
    then one circular arc of radius r to the point at endDeg.  The large-arc
    flag is set when the clockwise turn from startDeg to endDeg exceeds 180
    degrees; the sweep flag is set when cw is (an absent cw is false).
  */
  function DescribeArc(polar: Polar, cx: real, cy: real, r: real, startDeg: real, endDeg: real, cw: bool): (p: Path)
    ensures |p| == 2
    ensures p[0] == MoveTo(polar(cx, cy, r, startDeg).x, polar(cx, cy, r, startDeg).y)
    ensures p[1].ArcTo? && p[1].rx == r && p[1].ry == r && p[1].rotation == 0.0
    ensures p[1].x == polar(cx, cy, r, endDeg).x && p[1].y == polar(cx, cy, r, endDeg).y
    ensures p[1].largeArc == 1 <==> ForwardDelta(startDeg, endDeg) > 180.0
    ensures p[1].sweep == 1 <==> cw
  {
    var start := polar(cx, cy, r, startDeg);
    var end := polar(cx, cy, r, endDeg);
    var delta := NormalizedDelta(startDeg, endDeg);
    NormalizedDeltaIsForwardDelta(startDeg, endDeg);
    var largeArcFlag: Flag := if delta > 180.0 then 1 else 0;
    var sweepFlag: Flag := if cw then 1 else 0;
    [MoveTo(start.x, start.y), ArcTo(r, r, 0.0, largeArcFlag, sweepFlag, end.x, end.y)]
  }

  /** The large-arc flag of an open arc depends only on the directions of its end points. */
  lemma DescribeArcFlagPeriodic(polar: Polar, cx: real, cy: real, r: real, startDeg: real, endDeg: real, cw: bool, i: int, j: int)
    ensures DescribeArc(polar, cx, cy, r, startDeg + 360.0 * i as real, endDeg + 360.0 * j as real, cw)[1].largeArc
         == DescribeArc(polar, cx, cy, r, startDeg, endDeg, cw)[1].largeArc
  {
    NormalizedDeltaShift(startDeg, endDeg, i, j);
    NormalizedDeltaIsForwardDelta(startDeg, endDeg);
    NormalizedDeltaIsForwardDelta(startDeg + 360.0 * i as real, endDeg + 360.0 * j as real);
  }

  /** The two examples of the flag: 0 to 200 degrees takes the long way round, 0 to 100 the short one. */
  lemma DescribeArcFlagExamples(polar: Polar, cx: real, cy: real, r: real, cw: bool)
    ensures DescribeArc(polar, cx, cy, r, 0.0, 200.0, cw)[1].largeArc == 1
    ensures DescribeArc(polar, cx, cy, r, 0.0, 100.0, cw)[1].largeArc == 0
    ensures DescribeArc(polar, cx, cy, r, 350.0, 10.0, cw)[1].largeArc == 0
  {
    assert ForwardDelta(350.0, 10.0) == 20.0 by {
      NormalizedDeltaShift(-10.0, 10.0, 1, 0);
      NormalizedDeltaOfSmallSpan(-10.0, 10.0);
      NormalizedDeltaIsForwardDelta(350.0, 10.0);
    }
  }

  // ---------------------------------------------------------------------------
  // describeArc2: a closed pie wedge

  /**
    describeArc2(x, y, r, startDeg, endDeg, cw): move to the centre, line out
    to the point at endDeg, arc back to the point at startDeg, close.  The end
    points are swapped with respect to describeArc, and the large-arc flag
    compares the raw difference endDeg - startDeg with 180, without reducing
    it modulo 360.
  */
  function DescribeArc2(polar: Polar, x: real, y: real, r: real, startDeg: real, endDeg: real, cw: bool): (p: Path)
    ensures |p| == 4
    ensures p[0] == MoveTo(x, y)
    ensures p[1] == LineTo(polar(x, y, r, endDeg).x, polar(x, y, r, endDeg).y)
    ensures p[2].ArcTo? && p[2].rx == r && p[2].ry == r && p[2].rotation == 0.0
    ensures p[2].x == polar(x, y, r, startDeg).x && p[2].y == polar(x, y, r, startDeg).y
    ensures p[2].largeArc == 0 <==> endDeg - startDeg <= 180.0
    ensures p[2].sweep == 1 <==> cw
    ensures p[3] == ClosePath
  {
    var start := polar(x, y, r, endDeg);
    var end := polar(x, y, r, startDeg);
    var largeArcFlag: Flag := if endDeg - startDeg <= 180.0 then 0 else 1;
    var sweepFlag: Flag := if cw then 1 else 0;
    [MoveTo(x, y), LineTo(start.x, start.y), ArcTo(r, r, 0.0, largeArcFlag, sweepFlag, end.x, end.y), ClosePath]
  }

  /** A wedge whose end angle does not exceed its start angle always gets large-arc flag 0. */
  lemma DescribeArc2NegativeSpan(polar: Polar, x: real, y: real, r: real, startDeg: real, endDeg: real, cw: bool)
    requires endDeg <= startDeg
    ensures DescribeArc2(polar, x, y, r, startDeg, endDeg, cw)[2].largeArc == 0
  {
  }

  /**
    For a span in [0, 360) the wedge's arc is the open arc traced backwards:
    it starts where the open arc ends, ends where the open arc starts, takes
    the same large-arc flag, and turns the opposite way.
  */
  lemma WedgeArcReversesOpenArc(polar: Polar, x: real, y: real, r: real, startDeg: real, endDeg: real, cw: bool)
    requires 0.0 <= endDeg - startDeg < 360.0
    ensures var o := DescribeArc(polar, x, y, r, startDeg, endDeg, !cw);
            var w := DescribeArc2(polar, x, y, r, startDeg, endDeg, cw);
            w[1].x == o[1].x && w[1].y == o[1].y &&
            w[2].x == o[0].x && w[2].y == o[0].y &&
            w[2].rx == o[1].rx && w[2].ry == o[1].ry &&
            w[2].largeArc == o[1].largeArc &&
            w[2].sweep == 1 - o[1].sweep
  {
    NormalizedDeltaOfSmallSpan(startDeg, endDeg);
    NormalizedDeltaIsForwardDelta(startDeg, endDeg);
  }

  /**
    The two flags part ways beyond a full turn: a wedge from 0 to 390 degrees
    takes the long way (raw span 390) where an open arc between the same
    angles takes the short one (delta 30).
  */
  lemma WedgeAndOpenArcFlagsDiverge(polar: Polar, x: real, y: real, r: real, cw: bool)
    ensures DescribeArc2(polar, x, y, r, 0.0, 390.0, cw)[2].largeArc == 1
    ensures DescribeArc(polar, x, y, r, 0.0, 390.0, cw)[1].largeArc == 0
  {
    NormalizedDeltaShift(0.0, 30.0, 0, 1);
    NormalizedDeltaOfSmallSpan(0.0, 30.0);
    NormalizedDeltaIsForwardDelta(0.0, 390.0);
  }
}
