/** The reported acceleration over a turn.

    A cycloid starts and ends without acceleration, so when both laws are cycloids the acceleration too is a
    difference of two clamped strokes.  The slope of the stitched curve is then as smooth as the curve itself. */
module TurnAcceleration {
  import opened Reals
  import opened Results
  import opened Trig
  import opened Smooth
  import opened Law
  import opened LawShape
  import opened Kinematics
  import opened Cycle
  import opened CycleCurve
  import opened CyclePoint
  import opened WholeTurn
  import opened CurveTags
  import opened JointClass
  import opened Derivatives

  // ---- The law --------------------------------------------------------------------------------

  /** The slope of a law and its derivative over the step from a to b. */
  ghost predicate SlopeStep(a: Values, b: Values, d: real, k: Peaks) {
    SmoothStep(d, b.y1 - a.y1, a.y2, b.y2, k.v2, k.v3)
  }

  lemma CycloidSlopeStep(t: Circle, T: real, U: real)
    requires Lawful(t)
    ensures SlopeStep(CycloidAt(t, T), CycloidAt(t, U), U - T, Peak(t, Cycloid))
  {
    hide Lawful, FullTurn, CycloidAt, Peak, Snap, ArcStep, CycloidForm, Lipschitz, Remainder;
    var p, q := FullTurn(t, T), FullTurn(t, U);
    FullTurnShift(t, T, U);
    ArcIsSmooth(t, p, q);
    CycloidFields(t, T, U);
    CycloidHigher(t, T, U);
    CycloidPeak(t);
    CycloidSlopes(2.0 * t.pi, U - T, q - p, t.cos(p), t.cos(q), t.sin(p), t.sin(q), CycloidAt(t, T), CycloidAt(t, U),
                  Peak(t, Cycloid).v3, Snap(t, Cycloid));
  }

  lemma CycloidPeak(t: Circle)
    ensures Peak(t, Cycloid).v2 == 2.0 * t.pi
  {
  }

  lemma CycloidSlopes(k: real, x: real, d: real, c: real, c': real, s: real, s': real, a: Values, b: Values,
                      jerk: real, snap: real)
    requires 0.0 < k && d == Prod(k, x) && ArcStep(d, c, c', s, s') && CycloidForm(k, a, b, c, c', s, s', jerk, snap)
    ensures Lipschitz(x, b.y1 - a.y1, k) && Lipschitz(x, b.y2 - a.y2, jerk)
  {
    hide Lipschitz;
    ScaledChord(b.y1 - a.y1, c' - c, x, d, k, 1.0, k);
    CycloidCurl(k, x, d, s, s', b.y2 - a.y2, jerk);
  }

  lemma CycloidCurl(k: real, x: real, d: real, s: real, s': real, z: real, jerk: real)
    requires 0.0 < k && d == Prod(k, x) && Abs(s' - s) <= Abs(d) && z == k * s' - k * s && jerk == k * k
    ensures Lipschitz(x, z, jerk)
  {
    hide Lipschitz;
    AbsMul(k, s' - s);
    assert z == k * (s' - s);
    ScaledChord(z, s' - s, x, d, k, k, jerk);
  }

  /** Any two arguments, clamped or not. */
  lemma CycloidSlopeIsSmooth(t: Circle, T: real, U: real)
    requires Lawful(t)
    ensures SlopeStep(At(t, Cycloid, T, 0.0), At(t, Cycloid, U, 0.0), U - T, Peak(t, Cycloid))
  {
    hide SmoothStep, CycloidAt, Peak, StartY2, StartY3;
    var c, e := Clamp(T), Clamp(U);
    CycloidSlopeStep(t, c, e);
    LawEnds(t, Cycloid, T, 0.0);
    LawEnds(t, Cycloid, U, 0.0);
    CycloidStarts(t);
    PeaksNonNegative(t, Cycloid);
    var a, b, k := At(t, Cycloid, T, 0.0), At(t, Cycloid, U, 0.0), Peak(t, Cycloid);
    ClampExtension(T, U, b.y1 - a.y1, a.y2, b.y2, k.v2, k.v3);
  }

  lemma CycloidStarts(t: Circle)
    ensures StartY2(t, Cycloid) == 0.0
  {
  }

  // ---- One stroke -------------------------------------------------------------------------------

  /** The second derivative of a stroke, in lift per squared degree. */
  function StrokeCurl(t: Circle, tp: LawName, h: real, b: real, x: real): real
    requires Known(tp) && b != 0.0
  {
    Prod(h / b / b, At(t, tp, x / b, 0.0).y2)
  }

  /** The bound on the third. */
  function StrokeTwist(t: Circle, tp: LawName, h: real, b: real): real
    requires Known(tp) && b != 0.0
  {
    Prod(h / b / b, Peak(t, tp).v3 / b)
  }

  lemma StrokeSlopeIsSmooth(t: Circle, h: real, b: real, x: real, y: real)
    requires Lawful(t) && 0.0 < h && 0.0 < b
    ensures SmoothStep(y - x, StrokeRate(t, Cycloid, h, b, y) - StrokeRate(t, Cycloid, h, b, x),
                       StrokeCurl(t, Cycloid, h, b, x), StrokeCurl(t, Cycloid, h, b, y),
                       StrokeBend(t, Cycloid, h, b), StrokeTwist(t, Cycloid, h, b))
  {
    hide Lawful, SmoothStep, EvalSide, ClosedPeaks;
    CycloidSlopeIsSmooth(t, x / b, y / b);
    DivSub(y, x, b);
    PositiveQuotient(h, b);
    var k, q := Peak(t, Cycloid), h / b;
    var dy := Slope(t, Cycloid, y / b) - Slope(t, Cycloid, x / b);
    StrokeDifference(q, Slope(t, Cycloid, x / b), Slope(t, Cycloid, y / b), dy);
    BendAsCurl(b, k.v2, q);
    RescaleTo(y - x, dy, At(t, Cycloid, x / b, 0.0).y2, At(t, Cycloid, y / b, 0.0).y2, k.v2, k.v3, y / b - x / b,
              q / b, q, b, k.v3 / b,
              StrokeRate(t, Cycloid, h, b, y) - StrokeRate(t, Cycloid, h, b, x),
              StrokeCurl(t, Cycloid, h, b, x), StrokeCurl(t, Cycloid, h, b, y),
              StrokeBend(t, Cycloid, h, b), StrokeTwist(t, Cycloid, h, b));
  }

  lemma BendAsCurl(b: real, v: real, q: real)
    requires b != 0.0
    ensures Prod(q, v / b) == Prod(q / b, v)
  {
    hide Prod;
    QuotientProd(q, b);
    QuotientProd(v, b);
    ProdAssoc(q / b, b, v / b);
    ProdComm(b, v / b);
  }

  /** A cycloid stroke has no acceleration before it starts and after it ends. */
  lemma StrokeCurlAtRest(t: Circle, h: real, b: real, x: real)
    requires Lawful(t) && 0.0 < b && (x <= 0.0 || b <= x)
    ensures StrokeCurl(t, Cycloid, h, b, x) == 0.0
  {
    hide Lawful, EvalSide, StartY2, StartY3;
    LawEnds(t, Cycloid, x / b, 0.0);
    CycloidStarts(t);
    ShareOrder(x, b);
  }

  // ---- The whole turn -----------------------------------------------------------------------------

  ghost predicate Cycloidal(t: Circle, c: Config) {
    Sound(t, c) && c.riseLaw == Cycloid && c.returnLaw == Cycloid
  }

  function RiseCurl(t: Circle, c: Config, theta: real): real
    requires c.Valid()
  {
    StrokeCurl(t, c.riseLaw, c.h, c.riseAngle, theta)
  }

  function ReturnCurl(t: Circle, c: Config, theta: real): real
    requires c.Valid()
  {
    StrokeCurl(t, c.returnLaw, c.h, c.returnAngle, theta - c.ReturnStart())
  }

  function Curl(t: Circle, c: Config, theta: real): real
    requires c.Valid()
  {
    RiseCurl(t, c, theta) - ReturnCurl(t, c, theta)
  }

  function TurnTwist(t: Circle, c: Config): real
    requires c.Valid()
  {
    Max(StrokeTwist(t, c.riseLaw, c.h, c.riseAngle), StrokeTwist(t, c.returnLaw, c.h, c.returnAngle))
  }

  ghost predicate TurnSlopeStep(t: Circle, c: Config, x: real, y: real)
    requires c.Valid()
  {
    SmoothStep(y - x, Rate(t, c, y) - Rate(t, c, x), Curl(t, c, x), Curl(t, c, y), TurnBend(t, c), TurnTwist(t, c))
  }

  lemma OneStrokeTurns(t: Circle, c: Config, theta: real)
    requires Cycloidal(t, c)
    ensures theta <= c.ReturnStart() || c.MotionEnd() <= theta ==> ReturnCurl(t, c, theta) == 0.0
    ensures theta <= 0.0 || c.riseAngle <= theta ==> RiseCurl(t, c, theta) == 0.0
  {
    hide Lawful, StrokeCurl;
    var x := theta - c.ReturnStart();
    if x <= 0.0 || c.returnAngle <= x {
      StrokeCurlAtRest(t, c.h, c.returnAngle, x);
    }
    if theta <= 0.0 || c.riseAngle <= theta {
      StrokeCurlAtRest(t, c.h, c.riseAngle, theta);
    }
  }

  lemma RiseSideSlope(t: Circle, c: Config, x: real, y: real)
    requires Cycloidal(t, c) && x <= c.ReturnStart() && y <= c.ReturnStart()
    ensures TurnSlopeStep(t, c, x, y)
  {
    hide Lawful, SmoothStep, StrokeHeight, StrokeRate, StrokeCurl, StrokeBend, StrokeTwist;
    OneStrokeMoves(t, c, x);
    OneStrokeMoves(t, c, y);
    OneStrokeTurns(t, c, x);
    OneStrokeTurns(t, c, y);
    StrokeSlopeIsSmooth(t, c.h, c.riseAngle, x, y);
    Widen(y - x, RiseRate(t, c, y) - RiseRate(t, c, x), RiseCurl(t, c, x), RiseCurl(t, c, y),
          StrokeBend(t, Cycloid, c.h, c.riseAngle), StrokeTwist(t, Cycloid, c.h, c.riseAngle),
          TurnBend(t, c), TurnTwist(t, c));
    assert Rate(t, c, y) - Rate(t, c, x) == RiseRate(t, c, y) - RiseRate(t, c, x);
  }

  lemma ReturnSideSlope(t: Circle, c: Config, x: real, y: real)
    requires Cycloidal(t, c) && c.riseAngle <= x && c.riseAngle <= y
    ensures TurnSlopeStep(t, c, x, y)
  {
    hide Lawful, SmoothStep, StrokeHeight, StrokeRate, StrokeCurl, StrokeBend, StrokeTwist;
    OneStrokeMoves(t, c, x);
    OneStrokeMoves(t, c, y);
    OneStrokeTurns(t, c, x);
    OneStrokeTurns(t, c, y);
    var a, b := x - c.ReturnStart(), y - c.ReturnStart();
    assert b - a == y - x;
    StrokeSlopeIsSmooth(t, c.h, c.returnAngle, a, b);
    var k, m := StrokeBend(t, Cycloid, c.h, c.returnAngle), StrokeTwist(t, Cycloid, c.h, c.returnAngle);
    var dy := ReturnRate(t, c, y) - ReturnRate(t, c, x);
    Mirror(y - x, dy, ReturnCurl(t, c, x), ReturnCurl(t, c, y), k, m);
    Widen(y - x, -dy, -ReturnCurl(t, c, x), -ReturnCurl(t, c, y), k, m, TurnBend(t, c), TurnTwist(t, c));
    assert Rate(t, c, y) - Rate(t, c, x) == -dy;
    assert Curl(t, c, x) == -ReturnCurl(t, c, x) && Curl(t, c, y) == -ReturnCurl(t, c, y);
  }

  lemma TurnSlopeIsSmooth(t: Circle, c: Config, x: real, y: real)
    requires Cycloidal(t, c)
    ensures TurnSlopeStep(t, c, x, y)
  {
    hide Lawful, SmoothStep, Rate, Curl, TurnBend, TurnTwist;
    var m := c.riseAngle;
    if x <= m && y <= m {
      RiseSideSlope(t, c, x, y);
    } else if m <= x && m <= y {
      ReturnSideSlope(t, c, x, y);
    } else {
      if x < m {
        RiseSideSlope(t, c, x, m);
        ReturnSideSlope(t, c, m, y);
      } else {
        ReturnSideSlope(t, c, x, m);
        RiseSideSlope(t, c, m, y);
      }
      Chain(m - x, Rate(t, c, m) - Rate(t, c, x), Curl(t, c, x), y - m, Rate(t, c, y) - Rate(t, c, m),
            Curl(t, c, m), Curl(t, c, y), TurnBend(t, c), TurnTwist(t, c));
      assert (m - x) + (y - m) == y - x;
    }
  }

  // ---- The reported acceleration --------------------------------------------------------------------

  lemma StrokeSampleCurl(t: Circle, spec: Spec, theta0: real, theta: real, time: real, returning: bool, side: real)
    requires spec.Valid() && spec.tp == Cycloid
    ensures var r := SampleSide(t, spec, theta0, theta, time, returning, side);
      var a := Prod(Square(spec.omega), StrokeCurl(t, Cycloid, spec.h, spec.beta, theta - theta0));
      r.Success? && r.value.a == (if returning then -a else a)
  {
    hide EvalSide, Prod, Square;
    var T := (theta - theta0) / spec.beta;
    LawAnswers(t, Cycloid, T, side);
    CycloidSideFree(t, T, side);
    CurlIdentity(spec.h, spec.omega, spec.beta, At(t, Cycloid, T, side).y2);
  }

  lemma CycloidSideFree(t: Circle, T: real, side: real)
    ensures At(t, Cycloid, T, side) == At(t, Cycloid, T, 0.0)
  {
  }

  /** Two factors omega / b turn h into omega^2 times h / b^2. */
  lemma TwoTurns(h: real, omega: real, b: real)
    requires b != 0.0
    ensures Prod(Prod(h, omega / b), omega / b) == Prod(Square(omega), h / b / b)
  {
    hide Prod;
    var o, q, r := omega / b, h / b, h / b / b;
    QuotientProd(omega, b);
    QuotientProd(h, b);
    QuotientProd(q, b);
    Absorb(h, o, b, omega, q);
    ProdAssoc(r, b, omega);
    ProdComm(b, omega);
    ProdAssoc(r, omega, b);
    Absorb(Prod(q, omega), o, b, omega, Prod(r, omega));
    ProdAssoc(r, omega, omega);
    ProdComm(r, Prod(omega, omega));
  }

  lemma CurlIdentity(h: real, omega: real, b: real, y: real)
    requires b != 0.0
    ensures Prod(Prod(Prod(h, omega / b), omega / b), y) == Prod(Square(omega), Prod(h / b / b, y))
  {
    hide Prod, Square;
    TwoTurns(h, omega, b);
    ProdAssoc(Square(omega), h / b / b, y);
  }

  /** Wherever a segment covers an angle, both of its sides give the stitched acceleration: for two cycloids the
      choice of segment at a shared boundary affects only the jerk. */
  lemma SegmentMatchesCurl(t: Circle, c: Config, kind: Kind, theta: real, side: real)
    requires Cycloidal(t, c) && Covers(c, kind, theta)
    ensures Stitched(c).Usable()
    ensures var r := Stitched(c).SideMotion(t, SegmentOf(c, kind), theta, side);
      r.Success? && r.value.a == Prod(Square(c.omega), Curl(t, c, theta))
  {
    hide Lawful, StrokeCurl, SampleSide, StitchedList, Square;
    StitchedUsable(c);
    OneStrokeTurns(t, c, theta);
    var sg := SegmentOf(c, kind);
    if kind == Rise || kind == Return {
      StrokeSampleCurl(t, sg.spec, sg.start, theta, sg.start / c.omega, kind == Return, side);
    }
  }

  lemma PointIsCurl(t: Circle, c: Config, theta: real)
    requires Cycloidal(t, c) && 0.0 <= theta <= FULL_TURN && (theta < FULL_TURN || Regular(c))
    ensures MotionAt(t, c, theta).a == Prod(Square(c.omega), Curl(t, c, theta))
  {
    hide Lawful, StitchedList, Curl, SampleSide, Sample, Square, Prod;
    PointIsSideMotion(t, c, theta);
    LocateCovers(c, theta);
    var b := Stitched(c);
    SegmentMatchesCurl(t, c, b.all[b.LocateIndex(theta)].kind, theta, 0.0);
  }

  /** The larger closed jerk peak of the two strokes. */
  function JMax(t: Circle, c: Config): real
    requires c.Valid()
  {
    Max(RisePeaks(t, c).jMax, ReturnPeaks(t, c).jMax)
  }

  lemma StrokeJerkPeak(t: Circle, spec: Spec)
    requires spec.Valid()
    ensures var p := ClosedMotionPeaks(t, spec);
      p.Success? && p.value.jMax == Prod(Cube(spec.omega), StrokeTwist(t, spec.tp, spec.h, spec.beta))
  {
    hide ClosedPeaks, Prod, Cube;
    PeaksAnswer(t, spec.tp);
    TwistIdentity(spec.h, spec.omega, spec.beta, Peak(t, spec.tp).v3);
  }

  lemma TwistIdentity(h: real, omega: real, b: real, v: real)
    requires b != 0.0
    ensures Prod(Prod(Prod(Prod(h, omega / b), omega / b), omega / b), v) == Prod(Cube(omega), Prod(h / b / b, v / b))
  {
    hide Prod, Square;
    var o, r, s := omega / b, h / b / b, Square(omega);
    TwoTurns(h, omega, b);
    QuotientProd(omega, b);
    QuotientProd(v, b);
    Absorb(v, o, b, omega, v / b);
    ProdAssoc(Prod(s, r), o, v);
    ProdComm(o, v);
    ProdRegroup(s, r, v / b, omega);
  }

  lemma TurnJerkPeak(t: Circle, c: Config)
    requires c.Valid()
    ensures JMax(t, c) == Prod(Cube(c.omega), TurnTwist(t, c))
  {
    hide Prod, Cube, StrokeTwist, ClosedMotionPeaks;
    StrokeJerkPeak(t, SegmentOf(c, Rise).spec);
    StrokeJerkPeak(t, SegmentOf(c, Return).spec);
    CubePos(c.omega);
    ScaledMax(Cube(c.omega), StrokeTwist(t, c.riseLaw, c.h, c.riseAngle),
              StrokeTwist(t, c.returnLaw, c.h, c.returnAngle));
  }

  /** Acceleration is JMax / omega-Lipschitz: it has no jump. */
  ghost predicate AccelerationSteady(t: Circle, c: Config, x: real, y: real)
    requires c.Valid() && 0.0 <= x <= FULL_TURN && 0.0 <= y <= FULL_TURN
  {
    Lipschitz(y - x, MotionAt(t, c, y).a - MotionAt(t, c, x).a, JMax(t, c) / c.omega)
  }

  /** Acceleration over omega is the derivative of velocity: the linear prediction from x misses the velocity at y
      by at most JMax / (2 omega^2) times the squared angle between them. */
  ghost predicate AccelerationIsDerivative(t: Circle, c: Config, x: real, y: real)
    requires c.Valid() && 0.0 <= x <= FULL_TURN && 0.0 <= y <= FULL_TURN
  {
    Remainder(y - x, MotionAt(t, c, y).v - MotionAt(t, c, x).v, MotionAt(t, c, x).a / c.omega,
              JMax(t, c) / c.omega / c.omega)
  }

  /** The exact condition under which velocity and acceleration follow the stitched curve at 360 too: an inner
      dwell that answers there before it begins does no harm as long as the return has not started. */
  predicate AtRestByThen(c: Config) {
    Regular(c) || FULL_TURN <= c.ReturnStart()
  }

  lemma MotionIsSmoothCurve(t: Circle, c: Config, theta: real)
    requires Cycloidal(t, c) && 0.0 <= theta <= FULL_TURN && (theta < FULL_TURN || AtRestByThen(c))
    ensures MotionAt(t, c, theta).v == Prod(c.omega, Rate(t, c, theta))
    ensures MotionAt(t, c, theta).a == Prod(Square(c.omega), Curl(t, c, theta))
  {
    hide Lawful, MotionAt, Square, Prod, RiseRate, ReturnRate, RiseHeight, ReturnHeight, RiseCurl, ReturnCurl;
    if theta < FULL_TURN || Regular(c) {
      SpeedOfCurve(t, c, theta);
      PointIsCurl(t, c, theta);
    } else {
      EndAtRest(t, c);
      OneStrokeMoves(t, c, theta);
      OneStrokeTurns(t, c, theta);
      ProdLinear(c.omega, 0.0, 0.0);
      ProdLinear(Square(c.omega), 0.0, 0.0);
    }
  }

  lemma SpeedOfCurve(t: Circle, c: Config, theta: real)
    requires Sound(t, c) && 0.0 <= theta <= FULL_TURN && (theta < FULL_TURN || Regular(c))
    ensures MotionAt(t, c, theta).v == Prod(c.omega, Rate(t, c, theta))
  {
    hide MotionAt, Rate, Height;
    MotionIsCurve(t, c, theta);
  }

  /** When both laws are cycloids and the turn is at rest by 360, between any two angles, across any number of
      stitches. */
  lemma CycloidTurnSmooth(t: Circle, c: Config, x: real, y: real)
    requires Cycloidal(t, c) && AtRestByThen(c) && 0.0 <= x <= FULL_TURN && 0.0 <= y <= FULL_TURN
    ensures AccelerationSteady(t, c, x, y)
    ensures AccelerationIsDerivative(t, c, x, y)
  {
    hide Lawful, Rate, Curl, TurnBend, TurnTwist, JMax, AMax, SmoothStep, Prod, Square, Cube, Lipschitz, Remainder,
         MotionAt, AtRestByThen;
    MotionIsSmoothCurve(t, c, x);
    MotionIsSmoothCurve(t, c, y);
    TurnSlopeIsSmooth(t, c, x, y);
    TurnPeaks(t, c);
    TurnJerkPeak(t, c);
    StepInAccelerations(y - x, Rate(t, c, x), Rate(t, c, y), Curl(t, c, x), Curl(t, c, y), TurnBend(t, c),
                        TurnTwist(t, c), c.omega, MotionAt(t, c, x).v, MotionAt(t, c, y).v,
                        MotionAt(t, c, x).a, MotionAt(t, c, y).a, AMax(t, c), JMax(t, c));
  }

  lemma StepInAccelerations(d: real, r: real, r': real, u: real, w: real, bend: real, twist: real, omega: real,
                            v: real, v': real, a: real, a': real, aMax: real, jMax: real)
    requires SmoothStep(d, r' - r, u, w, bend, twist) && 0.0 < omega
    requires v == Prod(omega, r) && v' == Prod(omega, r') && a == Prod(Square(omega), u) && a' == Prod(Square(omega), w)
    requires aMax == Prod(Prod(omega, omega), bend) && jMax == Prod(Cube(omega), twist)
    ensures Lipschitz(d, a' - a, jMax / omega)
    ensures Remainder(d, v' - v, a / omega, jMax / omega / omega)
  {
    hide SmoothStep, Lipschitz, Remainder;
    RescaleTo(d, r' - r, u, w, bend, twist, d, omega, omega, 1.0, twist, v' - v, omega * u, omega * w,
              omega * bend, omega * twist);
    StepInVelocities(d, v' - v, omega * u, omega * w, omega * bend, omega * twist, omega, a, a', aMax, jMax);
  }

  // ---- Exactly when the acceleration is the derivative -----------------------------------------------------

  lemma CycloidMoves(t: Circle, T: real)
    requires Lawful(t) && 0.0 < T < 1.0
    ensures 0.0 < Slope(t, Cycloid, T)
  {
    hide Lawful;
    StrictShare(2.0 * t.pi, T, FullTurn(t, T));
    CosineBelowOne(t, FullTurn(t, T));
  }

  /** A cycloid stroke moves at every angle strictly inside it. */
  lemma StrokeMoves(t: Circle, h: real, b: real, x: real)
    requires Lawful(t) && 0.0 < h && 0.0 < x < b
    ensures 0.0 < StrokeRate(t, Cycloid, h, b, x)
  {
    hide Lawful, Slope, Prod;
    PositiveQuotient(h, b);
    PositiveQuotient(x, b);
    PositiveQuotient(b - x, b);
    DivUnique(b, b, 1.0);
    DivSub(b, x, b);
    CycloidMoves(t, x / b);
    ProdPos(h / b, Slope(t, Cycloid, x / b));
  }

  lemma UnfinishedMoves(t: Circle, c: Config)
    requires Cycloidal(t, c) && !AtRestByThen(c)
    ensures Rate(t, c, FULL_TURN) < 0.0
  {
    hide Lawful, StrokeRate, StrokeHeight;
    OneStrokeMoves(t, c, FULL_TURN);
    StrokeMoves(t, c.h, c.returnAngle, FULL_TURN - c.ReturnStart());
  }

  lemma SlopeNearEnd(t: Circle, c: Config, e: real)
    requires Cycloidal(t, c) && 0.0 <= e
    ensures -Rate(t, c, FULL_TURN) - Prod(TurnBend(t, c), e) <= -Rate(t, c, FULL_TURN - e)
  {
    hide Lawful, Rate, Curl, TurnBend, TurnTwist, Prod, Lipschitz, Remainder;
    var x, y := FULL_TURN - e, FULL_TURN;
    TurnSlopeIsSmooth(t, c, x, y);
    assert y - x == e;
    NegatedLipschitz(e, Rate(t, c, y) - Rate(t, c, x), TurnBend(t, c));
    LipschitzDrop(-Rate(t, c, x), -Rate(t, c, y), e, TurnBend(t, c), e);
  }

  lemma NegatedLipschitz(d: real, dy: real, k: real)
    requires Lipschitz(d, dy, k)
    ensures Lipschitz(d, -dy, k)
  {
  }

  lemma TurnTwistNonNegative(t: Circle, c: Config)
    requires Sound(t, c)
    ensures 0.0 <= TurnTwist(t, c)
  {
    hide Peak, Prod;
    PeaksNonNegative(t, c.riseLaw);
    var h, b, k := c.h, c.riseAngle, Peak(t, c.riseLaw);
    QuotientNonNegative(h, b);
    QuotientNonNegative(h / b, b);
    QuotientNonNegative(k.v3, b);
    ProdNonNeg(h / b / b, k.v3 / b);
  }

  /** A gap seen in slopes per degree is seen in velocities. */
  lemma SpeedGap(omega: real, e: real, s: real, b: real)
    requires 0.0 < omega && !Remainder(e, s, 0.0, b)
    ensures !Remainder(e, -Prod(omega, s), 0.0, Prod(omega, b))
  {
    hide Prod;
    var q := Prod(e, e);
    ProdLinear(e, 0.0, 0.0);
    ProdComm(0.0, e);
    ProdAssoc(omega, b / 2.0, q);
    HalfProd(omega, b);
    GapTimes(omega, Abs(s), Prod(b / 2.0, q));
    AbsProd(omega, s);
  }

  lemma HalfProd(x: real, y: real)
    ensures Prod(x, y) / 2.0 == Prod(x, y / 2.0)
  {
  }

  lemma GapTimes(k: real, x: real, y: real)
    requires 0.0 < k && y < x
    ensures Prod(k, y) < Prod(k, x)
  {
    MulPos(k, x - y);
  }

  lemma AbsProd(k: real, x: real)
    requires 0.0 < k
    ensures Abs(-Prod(k, x)) == Prod(k, Abs(x))
  {
    AbsMul(k, x);
  }

  lemma UnfinishedJump(t: Circle, c: Config) returns (x: real)
    requires Cycloidal(t, c) && !AtRestByThen(c)
    ensures 0.0 <= x <= FULL_TURN && !AccelerationIsDerivative(t, c, FULL_TURN, x)
  {
    hide Lawful, Rate, Curl, TurnSpeed, TurnBend, TurnTwist, JMax, MotionAt, Prod, Square, Lipschitz, Remainder;
    UnfinishedMoves(t, c);
    TurnBoundsNonNegative(t, c);
    TurnTwistNonNegative(t, c);
    var g, k, b, omega := -Rate(t, c, FULL_TURN), TurnBend(t, c), TurnTwist(t, c), c.omega;
    var e := ShortAngle(g, k, b);
    x := FULL_TURN - e;
    SlopeNearEnd(t, c, e);
    SpeedOfCurve(t, c, x);
    EndAtRest(t, c);
    var s := -Rate(t, c, x);
    GapIsSeen(s, g, e, k, b);
    SpeedGap(omega, -e, s, b);
    ProdNegated(omega, s);
    TurnJerkPeak(t, c);
    JerkPerTurn(omega, b, JMax(t, c));
    DivUnique(0.0, omega, 0.0);
    assert x - FULL_TURN == -e;
  }

  lemma ProdNegated(k: real, x: real)
    ensures -Prod(k, x) == Prod(k, -x)
  {
  }

  lemma JerkPerTurn(omega: real, b: real, jMax: real)
    requires 0.0 < omega && jMax == Prod(Cube(omega), b)
    ensures jMax / omega / omega == Prod(omega, b)
  {
    hide Prod;
    ProdAssoc(Square(omega), omega, b);
    PeakQuotients(omega, 0.0, Prod(omega, b), Prod(omega, 0.0), jMax);
  }

  /** For two cycloids the reported acceleration is the derivative of the reported velocity over the whole turn
      exactly when the turn is regular or its return has not started by 360. */
  lemma DerivativeExactlyWhenAtRest(t: Circle, c: Config)
    requires Cycloidal(t, c)
    ensures Regular(c) || FULL_TURN <= c.ReturnStart() <==>
      forall x, y :: 0.0 <= x <= FULL_TURN && 0.0 <= y <= FULL_TURN ==> AccelerationIsDerivative(t, c, x, y)
  {
    hide Lawful, AccelerationIsDerivative, AccelerationSteady;
    if AtRestByThen(c) {
      forall x, y | 0.0 <= x <= FULL_TURN && 0.0 <= y <= FULL_TURN
        ensures AccelerationIsDerivative(t, c, x, y)
      {
        CycloidTurnSmooth(t, c, x, y);
      }
    } else {
      var x := UnfinishedJump(t, c);
    }
  }

  // ---- Between two joints ---------------------------------------------------------------------------------

  lemma InsideStroke(t: Circle, c: Config, kind: Kind, theta: real)
    requires c.Valid() && !IsDwell(kind) && 0.0 <= theta < FULL_TURN
    requires SegmentOf(c, kind).start < theta < SegmentOf(c, kind).end
    ensures var sg := SegmentOf(c, kind);
      SampleSide(t, sg.spec, sg.start, theta, sg.start / c.omega, kind == Return, 0.0) == Success(MotionAt(t, c, theta))
  {
    hide StitchedList, SampleSide, Sample, Segments.LocateIndex;
    StitchedUsable(c);
    PointAnswers(t, c, theta);
    LocateInside(c, theta, kind);
    PointIsSideMotion(t, c, theta);
  }

  /** Whatever the laws, strictly between two joints the reported acceleration is the derivative of the reported
      velocity, and the reported jerk that of the acceleration. */
  lemma BetweenJoints(t: Circle, c: Config, kind: Kind, x: real, y: real)
    requires Sound(t, c) && !IsDwell(kind)
    requires SegmentOf(c, kind).start < x < SegmentOf(c, kind).end && 0.0 <= x < FULL_TURN
    requires SegmentOf(c, kind).start < y < SegmentOf(c, kind).end && 0.0 <= y < FULL_TURN
    requires var sg := SegmentOf(c, kind);
      SamePiece(sg.law, (x - sg.start) / sg.beta, (y - sg.start) / sg.beta, 0.0)
    ensures var m, n, spec := MotionAt(t, c, x), MotionAt(t, c, y), SegmentOf(c, kind).spec;
      var p := ClosedMotionPeaks(t, spec);
      && p.Success?
      && Remainder(y - x, n.v - m.v, m.a / c.omega, p.value.jMax / c.omega / c.omega)
      && Remainder(y - x, n.a - m.a, m.j / c.omega, SnapMax(t, spec))
  {
    hide Lawful, MotionAt, SampleSide, ClosedMotionPeaks, SnapMax, Remainder, SamePiece;
    var sg := SegmentOf(c, kind);
    InsideStroke(t, c, kind, x);
    InsideStroke(t, c, kind, y);
    StrokeDerivatives(t, sg.spec, sg.start, x, y, sg.start / c.omega, sg.start / c.omega, kind == Return, 0.0);
  }
}
