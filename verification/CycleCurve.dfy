/** The stitched curve as one function of the cam angle.

    Because every law starts and ends at rest, the four segments, the lookup and the clamp together
    compute a difference of two clamped laws: the rise law run from angle 0 minus the return law run from
    the start of the return stroke.  `Height` and `Rate` are that difference and its slope. */
module CycleCurve {
  import opened Reals
  import opened Trig
  import opened Smooth
  import opened Law
  import opened LawShape
  import opened Cycle

  ghost predicate Sound(t: Circle, c: Config) {
    c.Valid() && Grounded(t, c.riseLaw) && Grounded(t, c.returnLaw)
  }

  // ---- One stroke -------------------------------------------------------------------------

  /** Displacement of a stroke of lift h over angle b, x degrees after its start. */
  function StrokeHeight(t: Circle, tp: LawName, h: real, b: real, x: real): real
    requires Known(tp) && b != 0.0
  {
    Prod(h, Y(t, tp, x / b))
  }

  /** Its slope, in lift per degree. */
  function StrokeRate(t: Circle, tp: LawName, h: real, b: real, x: real): real
    requires Known(tp) && b != 0.0
  {
    Prod(h / b, Slope(t, tp, x / b))
  }

  function StrokeSpeed(t: Circle, tp: LawName, h: real, b: real): real
    requires Known(tp) && b != 0.0
  {
    Prod(h / b, Peak(t, tp).v1)
  }

  function StrokeBend(t: Circle, tp: LawName, h: real, b: real): real
    requires Known(tp) && b != 0.0
  {
    Prod(h / b, Peak(t, tp).v2 / b)
  }

  lemma StrokeIsSmooth(t: Circle, tp: LawName, h: real, b: real, x: real, y: real)
    requires Grounded(t, tp) && 0.0 < h && 0.0 < b
    ensures SmoothStep(y - x, StrokeHeight(t, tp, h, b, y) - StrokeHeight(t, tp, h, b, x),
                       StrokeRate(t, tp, h, b, x), StrokeRate(t, tp, h, b, y),
                       StrokeSpeed(t, tp, h, b), StrokeBend(t, tp, h, b))
  {
    hide SmoothStep, Y, Slope, Peak, At;
    LawStepOpen(t, tp, x / b, y / b);
    DivSub(y, x, b);
    var k := Peak(t, tp);
    var dy := Y(t, tp, y / b) - Y(t, tp, x / b);
    StrokeDifference(h, Y(t, tp, x / b), Y(t, tp, y / b), dy);
    RescaleTo(y - x, dy, Slope(t, tp, x / b), Slope(t, tp, y / b), k.v1, k.v2, y / b - x / b, h / b, h, b, k.v2 / b,
              StrokeHeight(t, tp, h, b, y) - StrokeHeight(t, tp, h, b, x),
              StrokeRate(t, tp, h, b, x), StrokeRate(t, tp, h, b, y),
              StrokeSpeed(t, tp, h, b), StrokeBend(t, tp, h, b));
  }

  lemma LawStepOpen(t: Circle, tp: LawName, T: real, U: real)
    requires Grounded(t, tp)
    ensures SmoothStep(U - T, Y(t, tp, U) - Y(t, tp, T), Slope(t, tp, T), Slope(t, tp, U),
                       Peak(t, tp).v1, Peak(t, tp).v2)
  {
    hide SmoothStep, EvalSide, ClosedPeaks;
    LawIsSmooth(t, tp, T, U);
  }

  lemma StrokeDifference(h: real, y: real, y': real, dy: real)
    requires dy == y' - y
    ensures h * y' - h * y == h * dy
  {
  }

  /** A stroke is at rest at height 0 before it starts and at rest at height h after it ends. */
  lemma StrokeAtRest(t: Circle, tp: LawName, h: real, b: real, x: real)
    requires Grounded(t, tp) && 0.0 < b
    ensures x <= 0.0 ==> StrokeHeight(t, tp, h, b, x) == 0.0 && StrokeRate(t, tp, h, b, x) == 0.0
    ensures b <= x ==> StrokeHeight(t, tp, h, b, x) == h && StrokeRate(t, tp, h, b, x) == 0.0
  {
    hide Y, Slope;
    AtRest(t, tp, x / b);
    ShareOrder(x, b);
  }

  // ---- The whole turn ---------------------------------------------------------------------

  function RiseHeight(t: Circle, c: Config, theta: real): real
    requires c.Valid()
  {
    StrokeHeight(t, c.riseLaw, c.h, c.riseAngle, theta)
  }

  function ReturnHeight(t: Circle, c: Config, theta: real): real
    requires c.Valid()
  {
    StrokeHeight(t, c.returnLaw, c.h, c.returnAngle, theta - c.ReturnStart())
  }

  function RiseRate(t: Circle, c: Config, theta: real): real
    requires c.Valid()
  {
    StrokeRate(t, c.riseLaw, c.h, c.riseAngle, theta)
  }

  function ReturnRate(t: Circle, c: Config, theta: real): real
    requires c.Valid()
  {
    StrokeRate(t, c.returnLaw, c.h, c.returnAngle, theta - c.ReturnStart())
  }

  function Height(t: Circle, c: Config, theta: real): real
    requires c.Valid()
  {
    RiseHeight(t, c, theta) - ReturnHeight(t, c, theta)
  }

  function Rate(t: Circle, c: Config, theta: real): real
    requires c.Valid()
  {
    RiseRate(t, c, theta) - ReturnRate(t, c, theta)
  }

  /** The larger of the two strokes' peak slopes, and of their peak curvatures. */
  function TurnSpeed(t: Circle, c: Config): real
    requires c.Valid()
  {
    Max(StrokeSpeed(t, c.riseLaw, c.h, c.riseAngle), StrokeSpeed(t, c.returnLaw, c.h, c.returnAngle))
  }

  function TurnBend(t: Circle, c: Config): real
    requires c.Valid()
  {
    Max(StrokeBend(t, c.riseLaw, c.h, c.riseAngle), StrokeBend(t, c.returnLaw, c.h, c.returnAngle))
  }

  ghost predicate TurnStep(t: Circle, c: Config, x: real, y: real)
    requires c.Valid()
  {
    SmoothStep(y - x, Height(t, c, y) - Height(t, c, x), Rate(t, c, x), Rate(t, c, y), TurnSpeed(t, c), TurnBend(t, c))
  }

  /** Up to the start of the return only the rise moves; from the end of the rise on only the return does. */
  lemma OneStrokeMoves(t: Circle, c: Config, theta: real)
    requires Sound(t, c)
    ensures theta <= c.ReturnStart() ==> ReturnHeight(t, c, theta) == 0.0 && ReturnRate(t, c, theta) == 0.0
    ensures c.riseAngle <= theta ==> RiseHeight(t, c, theta) == c.h && RiseRate(t, c, theta) == 0.0
    ensures c.MotionEnd() <= theta ==> ReturnHeight(t, c, theta) == c.h && ReturnRate(t, c, theta) == 0.0
    ensures theta <= 0.0 ==> RiseHeight(t, c, theta) == 0.0 && RiseRate(t, c, theta) == 0.0
  {
    hide StrokeHeight, StrokeRate;
    StrokeAtRest(t, c.riseLaw, c.h, c.riseAngle, theta);
    StrokeAtRest(t, c.returnLaw, c.h, c.returnAngle, theta - c.ReturnStart());
  }

  /** The direct definition of the turn, piece by piece. */
  function FourPieces(t: Circle, c: Config, theta: real): (real, real)
    requires c.Valid()
  {
    var x := theta - c.ReturnStart();
    if theta < c.riseAngle then
      (StrokeHeight(t, c.riseLaw, c.h, c.riseAngle, theta), StrokeRate(t, c.riseLaw, c.h, c.riseAngle, theta))
    else if theta < c.ReturnStart() then (c.h, 0.0)
    else if theta < c.MotionEnd() then
      (c.h - StrokeHeight(t, c.returnLaw, c.h, c.returnAngle, x), -StrokeRate(t, c.returnLaw, c.h, c.returnAngle, x))
    else (0.0, 0.0)
  }

  /** The difference of two clamped strokes is that definition, at every angle. */
  lemma CurveIsFourPieces(t: Circle, c: Config, theta: real)
    requires Sound(t, c)
    ensures FourPieces(t, c, theta) == (Height(t, c, theta), Rate(t, c, theta))
  {
    hide StrokeHeight, StrokeRate;
    OneStrokeMoves(t, c, theta);
  }

  lemma RiseSideStep(t: Circle, c: Config, x: real, y: real)
    requires Sound(t, c) && x <= c.ReturnStart() && y <= c.ReturnStart()
    ensures TurnStep(t, c, x, y)
  {
    hide SmoothStep, StrokeHeight, StrokeRate, StrokeSpeed, StrokeBend;
    OneStrokeMoves(t, c, x);
    OneStrokeMoves(t, c, y);
    StrokeIsSmooth(t, c.riseLaw, c.h, c.riseAngle, x, y);
    Widen(y - x, RiseHeight(t, c, y) - RiseHeight(t, c, x), RiseRate(t, c, x), RiseRate(t, c, y),
          StrokeSpeed(t, c.riseLaw, c.h, c.riseAngle), StrokeBend(t, c.riseLaw, c.h, c.riseAngle),
          TurnSpeed(t, c), TurnBend(t, c));
    assert Height(t, c, y) - Height(t, c, x) == RiseHeight(t, c, y) - RiseHeight(t, c, x);
  }

  lemma ReturnSideStep(t: Circle, c: Config, x: real, y: real)
    requires Sound(t, c) && c.riseAngle <= x && c.riseAngle <= y
    ensures TurnStep(t, c, x, y)
  {
    hide SmoothStep, StrokeHeight, StrokeRate, StrokeSpeed, StrokeBend;
    OneStrokeMoves(t, c, x);
    OneStrokeMoves(t, c, y);
    var a, b := x - c.ReturnStart(), y - c.ReturnStart();
    assert b - a == y - x;
    StrokeIsSmooth(t, c.returnLaw, c.h, c.returnAngle, a, b);
    var k, m := StrokeSpeed(t, c.returnLaw, c.h, c.returnAngle), StrokeBend(t, c.returnLaw, c.h, c.returnAngle);
    var dy := ReturnHeight(t, c, y) - ReturnHeight(t, c, x);
    Mirror(y - x, dy, ReturnRate(t, c, x), ReturnRate(t, c, y), k, m);
    Widen(y - x, -dy, -ReturnRate(t, c, x), -ReturnRate(t, c, y), k, m, TurnSpeed(t, c), TurnBend(t, c));
    assert Height(t, c, y) - Height(t, c, x) == -dy;
    assert Rate(t, c, x) == -ReturnRate(t, c, x) && Rate(t, c, y) == -ReturnRate(t, c, y);
  }

  /** The stitched curve is smooth between any two angles whatever, across every stitch. */
  lemma TurnIsSmooth(t: Circle, c: Config, x: real, y: real)
    requires Sound(t, c)
    ensures TurnStep(t, c, x, y)
  {
    hide SmoothStep, Height, Rate, TurnSpeed, TurnBend;
    if x <= c.ReturnStart() && y <= c.ReturnStart() {
      RiseSideStep(t, c, x, y);
    } else if c.riseAngle <= x && c.riseAngle <= y {
      ReturnSideStep(t, c, x, y);
    } else {
      var m := c.riseAngle;
      if x < m {
        RiseSideStep(t, c, x, m);
        ReturnSideStep(t, c, m, y);
      } else {
        ReturnSideStep(t, c, x, m);
        RiseSideStep(t, c, m, y);
      }
      Chain(m - x, Height(t, c, m) - Height(t, c, x), Rate(t, c, x), y - m, Height(t, c, y) - Height(t, c, m),
            Rate(t, c, m), Rate(t, c, y), TurnSpeed(t, c), TurnBend(t, c));
      assert (m - x) + (y - m) == y - x;
    }
  }
}
