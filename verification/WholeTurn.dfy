/** Theorems about the reported motion over a whole turn. */
module WholeTurn {
  import opened Reals
  import opened Results
  import opened Trig
  import opened Smooth
  import opened Law
  import opened LawShape
  import opened Kinematics
  import opened Cycle
  import opened CycleCurve
  import opened CyclePoint

  /** The motion `Point` reports at an angle of the turn. */
  function MotionAt(t: Circle, c: Config, theta: real): Motion
    requires c.Valid() && 0.0 <= theta <= FULL_TURN
  {
    PointAnswers(t, c, theta);
    Stitched(c).Point(t, theta).value
  }

  lemma PointAnswers(t: Circle, c: Config, theta: real)
    requires c.Valid() && 0.0 <= theta <= FULL_TURN
    ensures Stitched(c).Usable() && Stitched(c).Point(t, theta).Success?
  {
    hide StitchedList;
    StitchedUsable(c);
    ListInOrder(c);
  }

  /** `Point` fails exactly outside the turn, and within the slack above it answers like a full turn. */
  lemma PointRange(t: Circle, c: Config, theta: real)
    requires c.Valid()
    ensures Stitched(c).Usable()
    ensures Stitched(c).Point(t, theta).Failure? <==> theta < 0.0 || FULL_TURN + ANGLE_SLACK < theta
    ensures Stitched(c).Point(t, theta).Failure? ==> Stitched(c).Point(t, theta).error == AngleOutOfRange
    ensures FULL_TURN <= theta <= FULL_TURN + ANGLE_SLACK ==>
      Stitched(c).Point(t, theta) == Success(MotionAt(t, c, FULL_TURN))
  {
    hide StitchedList, Sample, Segments.LocateIndex;
    StitchedUsable(c);
    PointAnswers(t, c, if theta < 0.0 then 0.0 else if FULL_TURN < theta then FULL_TURN else theta);
  }

  lemma MotionIsCurve(t: Circle, c: Config, theta: real)
    requires Sound(t, c) && 0.0 <= theta <= FULL_TURN && (theta < FULL_TURN || Regular(c))
    ensures MotionAt(t, c, theta).s == Height(t, c, theta)
    ensures MotionAt(t, c, theta).v == c.omega * Rate(t, c, theta)
  {
    hide Height, Rate, StitchedList;
    PointIsCurve(t, c, theta);
  }

  // ---- Peaks of the turn --------------------------------------------------------------------------

  function RisePeaks(t: Circle, c: Config): MotionPeaks
    requires c.Valid()
  {
    ClosedMotionPeaks(t, SegmentOf(c, Rise).spec).value
  }

  function ReturnPeaks(t: Circle, c: Config): MotionPeaks
    requires c.Valid()
  {
    ClosedMotionPeaks(t, SegmentOf(c, Return).spec).value
  }

  /** The larger closed velocity peak of the two strokes, and the larger acceleration peak. */
  function VMax(t: Circle, c: Config): real
    requires c.Valid()
  {
    Max(RisePeaks(t, c).vMax, ReturnPeaks(t, c).vMax)
  }

  function AMax(t: Circle, c: Config): real
    requires c.Valid()
  {
    Max(RisePeaks(t, c).aMax, ReturnPeaks(t, c).aMax)
  }

  lemma StrokePeaks(t: Circle, spec: Spec)
    requires spec.Valid()
    ensures var p := ClosedMotionPeaks(t, spec);
      && p.Success?
      && p.value.vMax == Prod(spec.omega, StrokeSpeed(t, spec.tp, spec.h, spec.beta))
      && p.value.aMax == Prod(Prod(spec.omega, spec.omega), StrokeBend(t, spec.tp, spec.h, spec.beta))
  {
    hide ClosedPeaks, Prod;
    PeaksAnswer(t, spec.tp);
    var k := Peak(t, spec.tp);
    SpeedIdentity(spec.h, spec.omega, spec.beta, k.v1);
    BendIdentity(spec.h, spec.omega, spec.beta, k.v2);
  }

  lemma PeaksAnswer(t: Circle, tp: LawName)
    requires Known(tp)
    ensures ClosedPeaks(t, tp) == Success(Peak(t, tp))
  {
  }

  lemma BendIdentity(h: real, omega: real, b: real, v: real)
    requires b != 0.0
    ensures Prod(Prod(Prod(h, omega / b), omega / b), v) == Prod(Prod(omega, omega), Prod(h / b, v / b))
  {
    hide Prod;
    var o, q, k := omega / b, h / b, v / b;
    QuotientProd(omega, b);
    QuotientProd(h, b);
    QuotientProd(v, b);
    Absorb(h, o, b, omega, q);
    Absorb(v, o, b, omega, k);
    ProdAssoc(Prod(q, omega), o, v);
    ProdComm(o, v);
    ProdComm(q, omega);
    ProdRegroup(omega, q, k, omega);
  }

  lemma ScaledMax(k: real, x: real, y: real)
    requires 0.0 <= k
    ensures Max(Prod(k, x), Prod(k, y)) == Prod(k, Max(x, y))
  {
    if x <= y {
      ProdMono(x, y, k);
    } else {
      ProdMono(y, x, k);
    }
  }

  /** The dimensional peaks are omega and omega squared times the peak slope and curvature. */
  lemma TurnPeaks(t: Circle, c: Config)
    requires c.Valid()
    ensures VMax(t, c) == Prod(c.omega, TurnSpeed(t, c))
    ensures AMax(t, c) == Prod(Prod(c.omega, c.omega), TurnBend(t, c))
  {
    hide Prod, StrokeSpeed, StrokeBend, ClosedMotionPeaks;
    StrokePeaks(t, SegmentOf(c, Rise).spec);
    StrokePeaks(t, SegmentOf(c, Return).spec);
    ScaledMax(c.omega, StrokeSpeed(t, c.riseLaw, c.h, c.riseAngle), StrokeSpeed(t, c.returnLaw, c.h, c.returnAngle));
    ProdNonNeg(c.omega, c.omega);
    ScaledMax(Prod(c.omega, c.omega), StrokeBend(t, c.riseLaw, c.h, c.riseAngle),
              StrokeBend(t, c.returnLaw, c.h, c.returnAngle));
  }

  // ---- The reported velocity is the derivative of the reported displacement ----------------------------

  /** Displacement differs by at most VMax / omega per degree. */
  ghost predicate DisplacementSteady(t: Circle, c: Config, x: real, y: real)
    requires c.Valid() && 0.0 <= x <= FULL_TURN && 0.0 <= y <= FULL_TURN
  {
    Lipschitz(y - x, MotionAt(t, c, y).s - MotionAt(t, c, x).s, VMax(t, c) / c.omega)
  }

  /** Velocity over omega is the derivative of displacement: the linear prediction from x misses the
      displacement at y by at most AMax / (2 omega^2) times the squared angle between them. */
  ghost predicate VelocityIsDerivative(t: Circle, c: Config, x: real, y: real)
    requires c.Valid() && 0.0 <= x <= FULL_TURN && 0.0 <= y <= FULL_TURN
  {
    Remainder(y - x, MotionAt(t, c, y).s - MotionAt(t, c, x).s, MotionAt(t, c, x).v / c.omega,
              AMax(t, c) / c.omega / c.omega)
  }

  /** Velocity itself is AMax / omega-Lipschitz, so it has no jump either. */
  ghost predicate VelocitySteady(t: Circle, c: Config, x: real, y: real)
    requires c.Valid() && 0.0 <= x <= FULL_TURN && 0.0 <= y <= FULL_TURN
  {
    Lipschitz(y - x, MotionAt(t, c, y).v - MotionAt(t, c, x).v, AMax(t, c) / c.omega)
  }

  lemma PeakQuotients(omega: real, k: real, b: real, v: real, a: real)
    requires 0.0 < omega && v == Prod(omega, k) && a == Prod(Prod(omega, omega), b)
    ensures v / omega == k && a / omega == Prod(omega, b) && a / omega / omega == b
  {
    DivUnique(v, omega, k);
    DivUnique(a, omega, Prod(omega, b));
    DivUnique(Prod(omega, b), omega, b);
  }

  /** A smooth step in slopes per degree, read as a statement about velocities. */
  lemma StepInVelocities(d: real, dy: real, u: real, w: real, speed: real, bend: real,
                         omega: real, vx: real, vy: real, vMax: real, aMax: real)
    requires SmoothStep(d, dy, u, w, speed, bend) && 0.0 < omega
    requires vx == omega * u && vy == omega * w
    requires vMax == Prod(omega, speed) && aMax == Prod(Prod(omega, omega), bend)
    ensures Lipschitz(d, dy, vMax / omega)
    ensures Remainder(d, dy, vx / omega, aMax / omega / omega)
    ensures Lipschitz(d, vy - vx, aMax / omega)
  {
    hide Prod, Lipschitz, Remainder;
    PeakQuotients(omega, speed, bend, vMax, aMax);
    DivUnique(vx, omega, u);
    SpeedScale(omega, u, w, bend, d, vy - vx, aMax / omega);
  }

  lemma SpeedScale(omega: real, u: real, w: real, bend: real, d: real, dv: real, k: real)
    requires 0.0 < omega && Lipschitz(d, w - u, bend) && dv == omega * w - omega * u && k == Prod(omega, bend)
    ensures Lipschitz(d, dv, k)
  {
    AbsMul(omega, w - u);
    MulMono(Abs(w - u), bend * Abs(d), omega);
    assert dv == omega * (w - u);
  }

  /** Between any two angles of a regular turn, within a segment or across any number of stitches, switches
      and dwells. */
  lemma WholeTurnSmooth(t: Circle, c: Config, x: real, y: real)
    requires Sound(t, c) && Regular(c) && 0.0 <= x <= FULL_TURN && 0.0 <= y <= FULL_TURN
    ensures DisplacementSteady(t, c, x, y)
    ensures VelocityIsDerivative(t, c, x, y)
    ensures VelocitySteady(t, c, x, y)
  {
    hide Height, Rate, TurnSpeed, TurnBend, VMax, AMax, SmoothStep, Prod, Lipschitz, Remainder, MotionAt;
    MotionIsCurve(t, c, x);
    MotionIsCurve(t, c, y);
    TurnIsSmooth(t, c, x, y);
    TurnPeaks(t, c);
    StepInVelocities(y - x, Height(t, c, y) - Height(t, c, x), Rate(t, c, x), Rate(t, c, y), TurnSpeed(t, c),
                     TurnBend(t, c), c.omega, MotionAt(t, c, x).v, MotionAt(t, c, y).v, VMax(t, c), AMax(t, c));
  }

  // ---- Exactly when the turn is smooth -------------------------------------------------------------

  lemma StrokeUnfinished(t: Circle, tp: LawName, h: real, b: real, x: real)
    requires Grounded(t, tp) && 0.0 < h && 0.0 < b && x < b
    ensures StrokeHeight(t, tp, h, b, x) < h
  {
    StrokeReversed(t, tp, h, b, x);
    StrokeStarted(t, tp, h, b, b - x);
  }

  lemma StrokeStarted(t: Circle, tp: LawName, h: real, b: real, x: real)
    requires Grounded(t, tp) && 0.0 < h && 0.0 < b && 0.0 < x
    ensures 0.0 < StrokeHeight(t, tp, h, b, x)
  {
    hide Y;
    DivMul(x, b);
    CancelRightStrict(0.0, x / b, b);
    LawLeavesZero(t, tp, x / b);
    MulPos(h, Y(t, tp, x / b));
  }

  /** The second half of a stroke is its first half read backwards. */
  lemma StrokeReversed(t: Circle, tp: LawName, h: real, b: real, x: real)
    requires Grounded(t, tp) && 0.0 < b
    ensures StrokeHeight(t, tp, h, b, b - x) == h - StrokeHeight(t, tp, h, b, x)
    ensures StrokeRate(t, tp, h, b, b - x) == StrokeRate(t, tp, h, b, x)
  {
    hide EvalSide;
    DivUnique(b, b, 1.0);
    DivSub(b, x, b);
    LawIsPointSymmetric(t, tp, x / b, 0.0);
    StrokeDifference(h, Y(t, tp, x / b), 1.0, 1.0 - Y(t, tp, x / b));
  }

  /** When a turn is not regular, the return is unfinished at 360 although 0 is reported there. */
  lemma IrregularReturn(t: Circle, c: Config)
    requires Sound(t, c) && !Regular(c)
    ensures ReturnHeight(t, c, FULL_TURN) < c.h
  {
    hide StrokeHeight, StrokeRate;
    StrokeUnfinished(t, c.returnLaw, c.h, c.returnAngle, FULL_TURN - c.ReturnStart());
  }

  /** An angle so small that a gap g cannot be bridged at speed k or bend b. */
  lemma ShortAngle(g: real, k: real, b: real) returns (e: real)
    requires 0.0 < g && 0.0 <= k && 0.0 <= b
    ensures 0.0 < e <= 1.0
    ensures Prod(k, e) < g - Prod(k, e) && Prod(b / 2.0, Prod(e, e)) < g - Prod(k, e)
  {
    hide Prod;
    var m := 2.0 * k + b + 1.0;
    PositiveQuotient(g, m);
    e := Min(1.0, g / m);
    ProdMono(e, g / m, m);
    QuotientProd(g, m);
    SpreadProduct(k, b, e);
    ProdNonNeg(k, e);
    ProdNonNeg(b, e);
    SmallSquare(b, e);
  }

  lemma SpreadProduct(k: real, b: real, e: real)
    ensures Prod(e, 2.0 * k + b + 1.0) == 2.0 * Prod(k, e) + Prod(b, e) + e
  {
  }

  lemma SmallSquare(b: real, e: real)
    requires 0.0 <= b && 0.0 <= e <= 1.0
    ensures Prod(b / 2.0, Prod(e, e)) <= Prod(b, e)
  {
    hide Prod;
    ProdMono(e, 1.0, e);
    ProdLinear(e, 0.0, 0.0);
    ProdMono(Prod(e, e), e, b / 2.0);
    ProdNonNeg(b / 2.0, e);
    TwoHalves(b, e);
  }

  lemma TwoHalves(b: real, e: real)
    ensures Prod(b, e) == 2.0 * Prod(b / 2.0, e)
  {
  }

  lemma GapIsSeen(s: real, g: real, e: real, k: real, b: real)
    requires 0.0 < e && Prod(k, e) < g - Prod(k, e) && Prod(b / 2.0, Prod(e, e)) < g - Prod(k, e) <= s
    ensures !Lipschitz(e, 0.0 - s, k)
    ensures !Remainder(-e, s - 0.0, 0.0, b)
  {
    assert -e * -e == e * e;
  }

  lemma HeightOpen(t: Circle, c: Config, theta: real)
    requires c.Valid()
    ensures Height(t, c, theta) == RiseHeight(t, c, theta) - ReturnHeight(t, c, theta)
  {
  }

  lemma HeightNearEnd(t: Circle, c: Config, e: real)
    requires Sound(t, c) && 0.0 <= e
    ensures Height(t, c, FULL_TURN) - Prod(TurnSpeed(t, c), e) <= Height(t, c, FULL_TURN - e)
  {
    hide Height, Rate, TurnSpeed, TurnBend, Prod, Lipschitz, Remainder;
    TurnIsSmooth(t, c, FULL_TURN - e, FULL_TURN);
    LipschitzDrop(Height(t, c, FULL_TURN - e), Height(t, c, FULL_TURN), e, TurnSpeed(t, c),
                  FULL_TURN - (FULL_TURN - e));
  }

  /** Regular or not, below 360 the reported displacement runs towards the stitched height there. */
  lemma ArrivalHeight(t: Circle, c: Config, theta: real)
    requires Sound(t, c) && 0.0 <= theta < FULL_TURN
    ensures Lipschitz(FULL_TURN - theta, Height(t, c, FULL_TURN) - MotionAt(t, c, theta).s, VMax(t, c) / c.omega)
  {
    hide Height, Rate, TurnSpeed, TurnBend, VMax, AMax, MotionAt, Prod, Lipschitz, Remainder;
    MotionIsCurve(t, c, theta);
    TurnIsSmooth(t, c, theta, FULL_TURN);
    TurnPeaks(t, c);
    PeakQuotients(c.omega, TurnSpeed(t, c), TurnBend(t, c), VMax(t, c), AMax(t, c));
  }

  lemma LipschitzDrop(x: real, y: real, e: real, k: real, d: real)
    requires Lipschitz(d, y - x, k) && 0.0 <= e && d == e
    ensures y - Prod(k, e) <= x
  {
  }

  lemma TurnBoundsNonNegative(t: Circle, c: Config)
    requires Sound(t, c)
    ensures 0.0 <= TurnSpeed(t, c) && 0.0 <= TurnBend(t, c)
  {
    hide Peak;
    PeaksNonNegative(t, c.riseLaw);
    var h, b, k := c.h, c.riseAngle, Peak(t, c.riseLaw);
    QuotientNonNegative(h, b);
    QuotientNonNegative(k.v2, b);
    MulNonNeg(h / b, k.v1);
    MulNonNeg(h / b, k.v2 / b);
  }

  lemma QuotientNonNegative(x: real, b: real)
    requires 0.0 <= x && 0.0 < b
    ensures 0.0 <= x / b
  {
    DivMul(x, b);
    CancelRight(0.0, x / b, b);
  }

  lemma IrregularJump(t: Circle, c: Config) returns (x: real)
    requires Sound(t, c) && !Regular(c)
    ensures 0.0 <= x <= FULL_TURN
    ensures !DisplacementSteady(t, c, x, FULL_TURN)
    ensures !VelocityIsDerivative(t, c, FULL_TURN, x)
  {
    hide Height, Rate, RiseHeight, ReturnHeight, TurnSpeed, TurnBend, VMax, AMax, MotionAt, Prod, Lipschitz, Remainder;
    IrregularReturn(t, c);
    OneStrokeMoves(t, c, FULL_TURN);
    HeightOpen(t, c, FULL_TURN);
    TurnBoundsNonNegative(t, c);
    var g, k, b := Height(t, c, FULL_TURN), TurnSpeed(t, c), TurnBend(t, c);
    var e := ShortAngle(g, k, b);
    x := FULL_TURN - e;
    HeightNearEnd(t, c, e);
    MotionIsCurve(t, c, x);
    EndAtRest(t, c);
    GapIsSeen(Height(t, c, x), g, e, k, b);
    TurnPeaks(t, c);
    PeakQuotients(c.omega, k, b, VMax(t, c), AMax(t, c));
    DivUnique(0.0, c.omega, 0.0);
    assert FULL_TURN - x == e && x - FULL_TURN == -e;
  }

  /** Such turns are accepted, and there the reported displacement jumps. */
  lemma LateDwellJumps(t: Circle) returns (x: real)
    ensures Sound(t, LateDwell()) && 0.0 <= x <= FULL_TURN
    ensures !DisplacementSteady(t, LateDwell(), x, FULL_TURN)
    ensures !VelocityIsDerivative(t, LateDwell(), FULL_TURN, x)
  {
    hide DisplacementSteady, VelocityIsDerivative;
    x := IrregularJump(t, LateDwell());
  }

  /** A kept inner dwell answers for the full turn, wherever it begins. */
  lemma EndAtRest(t: Circle, c: Config)
    requires c.Valid() && 0.0 < c.innerDwell
    ensures MotionAt(t, c, FULL_TURN) == DwellMotion(0.0, FULL_TURN, FULL_TURN / c.omega)
  {
    hide StitchedList;
    StitchedUsable(c);
    ListInOrder(c);
  }

  /** The reported curve is smooth over the whole turn exactly when the turn is regular. */
  lemma SmoothExactlyWhenRegular(t: Circle, c: Config)
    requires Sound(t, c)
    ensures Regular(c) <==>
      forall x, y :: 0.0 <= x <= FULL_TURN && 0.0 <= y <= FULL_TURN ==> DisplacementSteady(t, c, x, y)
    ensures Regular(c) <==>
      forall x, y :: 0.0 <= x <= FULL_TURN && 0.0 <= y <= FULL_TURN ==> VelocityIsDerivative(t, c, x, y)
  {
    hide DisplacementSteady, VelocityIsDerivative;
    if Regular(c) {
      forall x, y | 0.0 <= x <= FULL_TURN && 0.0 <= y <= FULL_TURN
        ensures DisplacementSteady(t, c, x, y) && VelocityIsDerivative(t, c, x, y)
      {
        WholeTurnSmooth(t, c, x, y);
      }
    } else {
      var x := IrregularJump(t, c);
    }
  }

  // ---- Closing up ------------------------------------------------------------------------------------

  /** The turn starts at rest at 0.  It ends there exactly when an inner dwell is kept or the angles do not
      exceed a turn; otherwise the missing end of the return stroke is left over. */
  lemma TurnCloses(t: Circle, c: Config)
    requires Sound(t, c)
    ensures MotionAt(t, c, 0.0).s == 0.0 && MotionAt(t, c, 0.0).v == 0.0
    ensures MotionAt(t, c, FULL_TURN).s == 0.0 <==> 0.0 < c.innerDwell || c.Total() <= FULL_TURN
    ensures c.innerDwell <= 0.0 ==>
      MotionAt(t, c, FULL_TURN).s == Prod(c.h, Y(t, c.returnLaw, (c.Total() - FULL_TURN) / c.returnAngle))
  {
    hide StrokeRate, Y, MotionAt;
    OneStrokeMoves(t, c, 0.0);
    MotionIsCurve(t, c, 0.0);
    if 0.0 < c.innerDwell {
      EndAtRest(t, c);
    } else {
      var x := c.Total() - FULL_TURN;
      OneStrokeMoves(t, c, FULL_TURN);
      MotionIsCurve(t, c, FULL_TURN);
      assert c.returnAngle - x == FULL_TURN - c.ReturnStart();
      StrokeReversed(t, c.returnLaw, c.h, c.returnAngle, x);
      if x <= 0.0 {
        StrokeAtRest(t, c.returnLaw, c.h, c.returnAngle, x);
      } else {
        StrokeStarted(t, c.returnLaw, c.h, c.returnAngle, x);
      }
    }
  }
}
