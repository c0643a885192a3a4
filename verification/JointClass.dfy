/** Which joints of a stitched turn are continuous in acceleration and in jerk. */
module JointClass {
  import opened Reals
  import opened Trig
  import opened Law
  import opened LawShape
  import opened Kinematics
  import opened Cycle
  import opened CycleCurve
  import opened CyclePoint
  import opened JointReport

  /** Second and third derivative with which a law starts. */
  function StartY2(t: Circle, tp: LawName): real {
    match tp
    case Cosine => Square(t.pi) / 2.0
    case Cycloid => 0.0
    case Parabolic => 4.0
    case Other(_) => 0.0
  }

  function StartY3(t: Circle, tp: LawName): real {
    match tp
    case Cosine => 0.0
    case Cycloid => 4.0 * Square(t.pi)
    case Parabolic => 0.0
    case Other(_) => 0.0
  }

  lemma LawEnds(t: Circle, tp: LawName, T: real, side: real)
    requires Grounded(t, tp)
    ensures T <= 0.0 ==> At(t, tp, T, side).y2 == StartY2(t, tp) && At(t, tp, T, side).y3 == StartY3(t, tp)
    ensures 1.0 <= T ==> At(t, tp, T, side).y2 == -StartY2(t, tp) && At(t, tp, T, side).y3 == StartY3(t, tp)
  {
    if !tp.Parabolic? {
      Reflections(t, 0.0);
      assert HalfTurn(t, 0.0) == 0.0 && HalfTurn(t, 1.0) == t.pi;
      assert FullTurn(t, 0.0) == 0.0 && FullTurn(t, 1.0) == 2.0 * t.pi;
    }
  }

  /** Size of the acceleration at either end of a segment, and of the jerk; dwells have none. */
  function EndAccel(t: Circle, sg: Segment): real
    requires sg.spec.beta != 0.0
  {
    if IsDwell(sg.kind) then 0.0 else Prod(sg.spec.Factor().a, StartY2(t, sg.spec.tp))
  }

  function EndJerk(t: Circle, sg: Segment): real
    requires sg.spec.beta != 0.0
  {
    if IsDwell(sg.kind) then 0.0 else Prod(sg.spec.Factor().j, StartY3(t, sg.spec.tp))
  }

  /** A rise starts with its end acceleration and ends with its opposite; a return mirrors both. */
  lemma StrokeEnds(t: Circle, spec: Spec, theta0: real, theta: real, time: real, returning: bool, side: real)
    requires spec.Valid() && Grounded(t, spec.tp)
    ensures var r := SampleSide(t, spec, theta0, theta, time, returning, side);
      var a, j := spec.Factor().a * StartY2(t, spec.tp), spec.Factor().j * StartY3(t, spec.tp);
      && r.Success?
      && (theta <= theta0 ==> r.value.a == (if returning then -a else a) && r.value.j == (if returning then -j else j))
      && (theta0 + spec.beta <= theta ==>
            r.value.a == (if returning then a else -a) && r.value.j == (if returning then -j else j))
  {
    hide EvalSide, StartY2, StartY3, Spec.Factor;
    var x, b := theta - theta0, spec.beta;
    var T := x / b;
    LawAnswers(t, spec.tp, T, side);
    LawEnds(t, spec.tp, T, side);
    ShareOrder(x, b);
    NegatedFactor(spec.Factor().a, StartY2(t, spec.tp));
  }

  lemma NegatedFactor(f: real, x: real)
    ensures f * -x == -(f * x)
  {
  }

  /** Acceleration and jerk a segment of the list shows at its own ends. */
  lemma SegmentEnds(t: Circle, c: Config, kind: Kind, theta: real, side: real)
    requires Sound(t, c) && Kept(c, kind)
    ensures Stitched(c).Usable()
    ensures var sg := SegmentOf(c, kind);
      var r := Stitched(c).SideMotion(t, sg, theta, side);
      var a, j := EndAccel(t, sg), EndJerk(t, sg);
      && r.Success?
      && (theta <= sg.start ==>
            r.value.a == (if kind == Return then -a else a) && r.value.j == (if kind == Return then -j else j))
      && (sg.end <= theta ==>
            r.value.a == (if kind == Return then a else -a) && r.value.j == (if kind == Return then -j else j))
  {
    hide StitchedList, SampleSide, Spec.Factor, StartY2, StartY3;
    StitchedUsable(c);
    var sg := SegmentOf(c, kind);
    if !IsDwell(kind) {
      StrokeEnds(t, sg.spec, sg.start, theta, sg.start / c.omega, kind == Return, side);
    }
  }

  /** A boundary is continuous in acceleration exactly when the end accelerations of its two segments agree,
      and in jerk exactly when the left jerk agrees with the opposite of the right one. */
  lemma BoundaryClass(t: Circle, c: Config, i: nat)
    requires Sound(t, c) && i + 1 < |StitchedList(c)|
    ensures Stitched(c).Usable()
    ensures StitchedList(c)[i].spec.beta != 0.0 && StitchedList(c)[i + 1].spec.beta != 0.0
    ensures var r, a, b := Stitched(c).BoundaryJoint(t, i), StitchedList(c)[i], StitchedList(c)[i + 1];
      && r.Success?
      && (r.value.seam.aCont <==> Agree(EndAccel(t, a), EndAccel(t, b)))
      && (r.value.seam.jCont <==> Agree(EndJerk(t, a), -EndJerk(t, b)))
  {
    hide StitchedList, Segments.SideMotion, EndAccel, EndJerk, Agree;
    StitchedUsable(c);
    ListInOrder(c);
    var a, b := StitchedList(c)[i], StitchedList(c)[i + 1];
    SegmentEnds(t, c, a.kind, a.end, 1.0);
    SegmentEnds(t, c, b.kind, b.start, -1.0);
    if IsDwell(a.kind) {
      DwellEnds(t, a);
    }
    if IsDwell(b.kind) {
      DwellEnds(t, b);
    }
    MirrorPair(EndAccel(t, a), EndAccel(t, b));
    MirrorPair(EndJerk(t, a), -EndJerk(t, b));
  }

  lemma DwellEnds(t: Circle, sg: Segment)
    requires sg.spec.beta != 0.0 && IsDwell(sg.kind)
    ensures EndAccel(t, sg) == 0.0 && EndJerk(t, sg) == 0.0
  {
  }

  lemma MirrorPair(x: real, y: real)
    ensures Agree(-x, -y) <==> Agree(x, y)
    ensures x == 0.0 ==> (Agree(x, -y) <==> Agree(x, y))
    ensures y == 0.0 ==> (Agree(-x, y) <==> Agree(x, y))
  {
  }

  /** Acceleration with which the last segment leaves a full turn: that of the leftover of the return stroke,
      seen from before, unless an inner dwell is kept. */
  function LastAccel(t: Circle, c: Config): real
    requires c.Valid()
  {
    if 0.0 < c.innerDwell then 0.0
    else Prod(SegmentOf(c, Return).spec.Factor().a, At(t, c.returnLaw, Overrun(c), -1.0).y2)
  }

  function LastJerk(t: Circle, c: Config): real
    requires c.Valid()
  {
    if 0.0 < c.innerDwell then 0.0
    else Prod(SegmentOf(c, Return).spec.Factor().j, At(t, c.returnLaw, Overrun(c), -1.0).y3)
  }

  lemma LeftoverSide(t: Circle, c: Config)
    requires Sound(t, c) && c.innerDwell <= 0.0
    ensures Stitched(c).Usable()
    ensures var r := Stitched(c).SideMotion(t, SegmentOf(c, Return), FULL_TURN, 1.0);
      r.Success? && r.value.a == LastAccel(t, c) && r.value.j == -LastJerk(t, c)
  {
    hide StitchedList, EvalSide, Spec.Factor;
    StitchedUsable(c);
    var b, x, sg := c.returnAngle, c.Total() - FULL_TURN, SegmentOf(c, Return);
    DivUnique(b, b, 1.0);
    DivSub(b, x, b);
    assert FULL_TURN - sg.start == b - x;
    LawAnswers(t, c.returnLaw, 1.0 - Overrun(c), 1.0);
    LawIsPointSymmetric(t, c.returnLaw, Overrun(c), -1.0);
    NegatedFactor(sg.spec.Factor().a, At(t, c.returnLaw, Overrun(c), -1.0).y2);
  }

  /** When the turn closes, the leftover is the end of the last segment. */
  lemma LeftoverAtEnd(t: Circle, c: Config)
    requires Sound(t, c) && (0.0 < c.innerDwell || c.Total() <= FULL_TURN)
    ensures var last := SegmentOf(c, if 0.0 < c.innerDwell then InnerDwell else Return);
      last.spec.beta != 0.0 && LastAccel(t, c) == EndAccel(t, last) && LastJerk(t, c) == EndJerk(t, last)
  {
    hide Spec.Factor, StartY2, StartY3, EvalSide;
    if c.innerDwell <= 0.0 {
      DivMul(c.Total() - FULL_TURN, c.returnAngle);
      CancelRight(Overrun(c), 0.0, c.returnAngle);
      LawEnds(t, c.returnLaw, Overrun(c), -1.0);
    }
  }

  /** The cyclic joint is judged by what the last segment leaves at a full turn, which is its end when the turn
      closes. */
  lemma CyclicClass(t: Circle, c: Config)
    requires Sound(t, c)
    ensures Stitched(c).Usable()
    ensures var r, all := Stitched(c).CyclicJoint(t), StitchedList(c);
      var last, first := all[|all| - 1], all[0];
      && r.Success? && last.spec.beta != 0.0 && first.spec.beta != 0.0
      && (r.value.seam.aCont <==> Agree(LastAccel(t, c), EndAccel(t, first)))
      && (r.value.seam.jCont <==> Agree(LastJerk(t, c), -EndJerk(t, first)))
      && (0.0 < c.innerDwell || c.Total() <= FULL_TURN ==>
            LastAccel(t, c) == EndAccel(t, last) && LastJerk(t, c) == EndJerk(t, last))
  {
    hide StitchedList, Segments.SideMotion, EndAccel, EndJerk, LastAccel, LastJerk, Agree;
    StitchedUsable(c);
    ListInOrder(c);
    ListTilesTurn(c);
    SegmentEnds(t, c, Rise, 0.0, -1.0);
    if 0.0 < c.innerDwell {
      InnerSide(t, c, FULL_TURN);
      DwellLeavesNothing(t, c);
    } else {
      LeftoverSide(t, c);
    }
    MirrorPair(LastJerk(t, c), -EndJerk(t, StitchedList(c)[0]));
    if 0.0 < c.innerDwell || c.Total() <= FULL_TURN {
      LeftoverAtEnd(t, c);
    }
  }

  lemma DwellLeavesNothing(t: Circle, c: Config)
    requires c.Valid() && 0.0 < c.innerDwell
    ensures LastAccel(t, c) == 0.0 && LastJerk(t, c) == 0.0
  {
  }

  /** Against a dwell a cycloid is continuous in acceleration and the other laws only when their end
      acceleration is under the floor; the jerk is the other way round. */
  lemma AgainstDwell(t: Circle, sg: Segment)
    requires sg.spec.Valid() && !IsDwell(sg.kind) && Grounded(t, sg.spec.tp)
    ensures var a, j := EndAccel(t, sg), EndJerk(t, sg);
      && 0.0 <= a && 0.0 <= j && (a == 0.0 <==> sg.spec.tp == Cycloid) && (j == 0.0 <==> sg.spec.tp != Cycloid)
      && (Agree(a, 0.0) <==> sg.spec.tp == Cycloid || (1.0 - SEAM_REL_TOL) * a <= SEAM_ABS_FLOOR)
      && (Agree(j, -0.0) <==> sg.spec.tp != Cycloid || (1.0 - SEAM_REL_TOL) * j <= SEAM_ABS_FLOOR)
  {
    hide Spec.Factor, StartY2, StartY3, Agree, Prod;
    FactorsStrict(sg.spec);
    StartSizes(t, sg.spec.tp);
    var a, j := EndAccel(t, sg), EndJerk(t, sg);
    SignOfScaled(sg.spec.Factor().a, StartY2(t, sg.spec.tp), a);
    SignOfScaled(sg.spec.Factor().j, StartY3(t, sg.spec.tp), j);
    AgreeWithRest(a);
    AgreeWithRest(j);
  }

  /** The verdicts on a joint between a stroke and a dwell. */
  ghost predicate DwellVerdicts(t: Circle, seam: Seam, stroke: Segment)
    requires stroke.spec.beta != 0.0
  {
    && (seam.aCont <==> stroke.spec.tp == Cycloid || (1.0 - SEAM_REL_TOL) * EndAccel(t, stroke) <= SEAM_ABS_FLOOR)
    && (seam.jCont <==> stroke.spec.tp != Cycloid || (1.0 - SEAM_REL_TOL) * EndJerk(t, stroke) <= SEAM_ABS_FLOOR)
  }

  lemma DwellsApart(c: Config, i: nat)
    requires c.Valid() && i + 1 < |StitchedList(c)|
    ensures !IsDwell(StitchedList(c)[i].kind) || !IsDwell(StitchedList(c)[i + 1].kind)
  {
  }

  lemma DwellBoundary(t: Circle, c: Config, i: nat)
    requires Sound(t, c) && i + 1 < |StitchedList(c)|
    requires IsDwell(StitchedList(c)[i].kind) || IsDwell(StitchedList(c)[i + 1].kind)
    ensures Stitched(c).Usable()
    ensures var r, a, b := Stitched(c).BoundaryJoint(t, i), StitchedList(c)[i], StitchedList(c)[i + 1];
      var stroke := if IsDwell(a.kind) then b else a;
      r.Success? && !IsDwell(stroke.kind) && stroke.spec.beta != 0.0 && DwellVerdicts(t, r.value.seam, stroke)
  {
    hide StitchedList, Segments.BoundaryJoint, EndAccel, EndJerk, Agree;
    StitchedUsable(c);
    ListInOrder(c);
    BoundaryClass(t, c, i);
    DwellsApart(c, i);
    var a, b := StitchedList(c)[i], StitchedList(c)[i + 1];
    assert a == SegmentOf(c, a.kind) && b == SegmentOf(c, b.kind);
    var stroke, dwell := if IsDwell(a.kind) then b else a, if IsDwell(a.kind) then a else b;
    AgainstDwell(t, stroke);
    DwellEnds(t, dwell);
    AgreeExactly(EndAccel(t, stroke), 0.0);
    AgreeExactly(EndJerk(t, stroke), -0.0);
    AgreeExactly(0.0, -EndJerk(t, stroke));
  }

  /** After an inner dwell the cyclic joint is judged like a boundary with the rise. */
  lemma DwellClosing(t: Circle, c: Config)
    requires Sound(t, c) && 0.0 < c.innerDwell
    ensures Stitched(c).Usable()
    ensures var r := Stitched(c).CyclicJoint(t);
      r.Success? && DwellVerdicts(t, r.value.seam, SegmentOf(c, Rise))
  {
    hide StitchedList, Segments.CyclicJoint, EndAccel, EndJerk, LastAccel, LastJerk, Agree;
    StitchedUsable(c);
    ListInOrder(c);
    ListTilesTurn(c);
    CyclicClass(t, c);
    DwellLeavesNothing(t, c);
    AgainstDwell(t, SegmentOf(c, Rise));
    AgreeExactly(EndAccel(t, SegmentOf(c, Rise)), 0.0);
    AgreeExactly(EndJerk(t, SegmentOf(c, Rise)), -0.0);
    AgreeExactly(0.0, -EndJerk(t, SegmentOf(c, Rise)));
  }

  lemma StartSizes(t: Circle, tp: LawName)
    requires Known(tp)
    ensures if tp == Cycloid then StartY2(t, tp) == 0.0 else 0.0 < StartY2(t, tp)
    ensures if tp == Cycloid then 0.0 < StartY3(t, tp) else StartY3(t, tp) == 0.0
  {
    hide Square;
    SquarePos(t.pi);
  }

  lemma FactorsStrict(spec: Spec)
    requires spec.Valid()
    ensures 0.0 < spec.Factor().v && 0.0 < spec.Factor().a && 0.0 < spec.Factor().j
  {
    hide Prod;
    var o := spec.omega / spec.beta;
    PositiveQuotient(spec.omega, spec.beta);
    ProdPos(spec.h, o);
    ProdPos(Prod(spec.h, o), o);
    ProdPos(Prod(Prod(spec.h, o), o), o);
  }

  lemma SignOfScaled(f: real, x: real, z: real)
    requires 0.0 < f && 0.0 <= x && z == Prod(f, x)
    ensures 0.0 <= z && (z == 0.0 <==> x == 0.0)
  {
    if 0.0 < x {
      MulPos(f, x);
    }
  }

  // ---- Strokes that abut ---------------------------------------------------------------------------

  /** End acceleration times the squared angle of the stroke, and end jerk times the cubed one. */
  function AccelReach(t: Circle, spec: Spec): real {
    Prod(Prod(spec.h, Square(spec.omega)), StartY2(t, spec.tp))
  }

  function JerkReach(t: Circle, spec: Spec): real {
    Prod(Prod(spec.h, Cube(spec.omega)), StartY3(t, spec.tp))
  }

  lemma EndSizes(t: Circle, sg: Segment)
    requires sg.spec.Valid() && !IsDwell(sg.kind)
    ensures Prod(EndAccel(t, sg), Square(sg.spec.beta)) == AccelReach(t, sg.spec)
    ensures Prod(EndJerk(t, sg), Cube(sg.spec.beta)) == JerkReach(t, sg.spec)
  {
    hide StartY2, StartY3, Prod, Square, Cube;
    var spec := sg.spec;
    var o := spec.omega / spec.beta;
    QuotientProd(spec.omega, spec.beta);
    SquareReach(spec.h, o, spec.beta, spec.omega, StartY2(t, spec.tp));
    CubeReach(spec.h, o, spec.beta, spec.omega, StartY3(t, spec.tp));
  }

  lemma SquareReach(h: real, o: real, b: real, omega: real, y: real)
    requires Prod(o, b) == omega
    ensures Prod(Prod(Prod(Prod(h, o), o), y), Square(b)) == Prod(Prod(h, Square(omega)), y)
  {
    hide Prod;
    SquareOfProduct(o, b);
    ProdAssoc(h, o, o);
    ProdAssoc(Prod(h, Square(o)), y, Square(b));
    ProdComm(y, Square(b));
    ProdAssoc(Prod(h, Square(o)), Square(b), y);
    ProdAssoc(h, Square(o), Square(b));
  }

  lemma CubeReach(h: real, o: real, b: real, omega: real, y: real)
    requires Prod(o, b) == omega
    ensures Prod(Prod(Prod(Prod(Prod(h, o), o), o), y), Cube(b)) == Prod(Prod(h, Cube(omega)), y)
  {
    hide Prod;
    SquareOfProduct(o, b);
    ProdRegroup(Square(o), o, b, Square(b));
    ProdComm(Square(b), b);
    ProdAssoc(h, o, o);
    ProdAssoc(h, Square(o), o);
    ProdAssoc(Prod(h, Cube(o)), y, Cube(b));
    ProdComm(y, Cube(b));
    ProdAssoc(Prod(h, Cube(o)), Cube(b), y);
    ProdAssoc(h, Cube(o), Cube(b));
  }

  lemma SquareOfProduct(a: real, b: real)
    ensures Prod(Square(a), Square(b)) == Square(Prod(a, b))
  {
    hide Prod;
    ProdRegroup(a, a, b, b);
  }

  /** The gap d between the sizes x and y is tolerated, all three multiplied out by p. */
  predicate WithinTolerance(d: real, p: real, x: real, y: real) {
    d <= SEAM_ABS_FLOOR * p + SEAM_REL_TOL * Max(x, y)
  }

  /** The tolerance verdict on two nonnegative sizes, multiplied out by p. */
  lemma ScaledAgree(x: real, y: real, p: real, x': real, y': real)
    requires 0.0 < p && 0.0 <= x && 0.0 <= y && x' == Prod(x, p) && y' == Prod(y, p)
    ensures Agree(x, y) <==> WithinTolerance(Abs(x' - y'), p, x', y')
    ensures Agree(x, -y) <==> WithinTolerance(x' + y', p, x', y')
  {
    hide Prod;
    ScaledSums(x, y, p);
    ScaledVerdict(Abs(x - y), Max(x, y), p, Abs(x' - y'), Max(x', y'));
    ScaledVerdict(x + y, Max(x, y), p, x' + y', Max(x', y'));
  }

  lemma ScaledSums(x: real, y: real, p: real)
    requires 0.0 < p
    ensures Prod(x + y, p) == Prod(x, p) + Prod(y, p)
    ensures Prod(Abs(x - y), p) == Abs(Prod(x, p) - Prod(y, p))
    ensures Prod(Max(x, y), p) == Max(Prod(x, p), Prod(y, p))
  {
    if x <= y {
      MulMono(x, y, p);
    } else {
      MulMono(y, x, p);
    }
  }

  lemma ScaledVerdict(d: real, m: real, p: real, d': real, m': real)
    requires 0.0 < p && d' == Prod(d, p) && m' == Prod(m, p)
    ensures d <= SEAM_ABS_FLOOR + SEAM_REL_TOL * m <==> d' <= SEAM_ABS_FLOOR * p + SEAM_REL_TOL * m'
  {
    var e := SEAM_ABS_FLOOR + SEAM_REL_TOL * m;
    if d <= e {
      MulMono(d, e, p);
    } else {
      MulPos(d - e, p);
    }
  }

  /** Two abutting strokes agree in acceleration: with K = h omega^2 y'' the accelerations K / beta^2 are compared
      after multiplying out both squared angles. */
  predicate AccelsMatch(t: Circle, a: Spec, b: Spec) {
    var x, y := Prod(AccelReach(t, a), Square(b.beta)), Prod(AccelReach(t, b), Square(a.beta));
    WithinTolerance(Abs(x - y), Prod(Square(a.beta), Square(b.beta)), x, y)
  }

  /** They agree in jerk only when both jerks together are tolerated, since the two have opposite signs. */
  predicate JerksMatch(t: Circle, a: Spec, b: Spec) {
    var x, y := Prod(JerkReach(t, a), Cube(b.beta)), Prod(JerkReach(t, b), Cube(a.beta));
    WithinTolerance(x + y, Prod(Cube(a.beta), Cube(b.beta)), x, y)
  }

  /** The verdict on any two strokes that abut, in terms of lift, speed, laws and the two angles. */
  lemma Abutting(t: Circle, a: Segment, b: Segment)
    requires a.spec.Valid() && b.spec.Valid() && !IsDwell(a.kind) && !IsDwell(b.kind)
    requires Grounded(t, a.spec.tp) && Grounded(t, b.spec.tp)
    ensures Agree(EndAccel(t, a), EndAccel(t, b)) <==> AccelsMatch(t, a.spec, b.spec)
    ensures Agree(EndJerk(t, a), -EndJerk(t, b)) <==> JerksMatch(t, a.spec, b.spec)
  {
    hide EndAccel, EndJerk, AccelReach, JerkReach, Prod, Square, Cube, Agree, WithinTolerance;
    AgainstDwell(t, a);
    AgainstDwell(t, b);
    EndSizes(t, a);
    EndSizes(t, b);
    SquarePos(a.spec.beta);
    SquarePos(b.spec.beta);
    CubePos(a.spec.beta);
    CubePos(b.spec.beta);
    CrossMultiplied(EndAccel(t, a), EndAccel(t, b), Square(a.spec.beta), Square(b.spec.beta));
    CrossMultiplied(EndJerk(t, a), EndJerk(t, b), Cube(a.spec.beta), Cube(b.spec.beta));
  }

  lemma CrossMultiplied(x: real, y: real, p: real, q: real)
    requires 0.0 <= x && 0.0 <= y && 0.0 < p && 0.0 < q
    ensures var x', y' := Prod(Prod(x, p), q), Prod(Prod(y, q), p);
      && (Agree(x, y) <==> WithinTolerance(Abs(x' - y'), Prod(p, q), x', y'))
      && (Agree(x, -y) <==> WithinTolerance(x' + y', Prod(p, q), x', y'))
  {
    hide Prod, Agree, WithinTolerance;
    ProdPos(p, q);
    Reordered(x, p, q);
    Reordered(y, q, p);
    ScaledAgree(x, y, Prod(p, q), Prod(Prod(x, p), q), Prod(Prod(y, q), p));
  }

  lemma Reordered(x: real, p: real, q: real)
    ensures Prod(Prod(x, p), q) == Prod(x, Prod(p, q)) == Prod(x, Prod(q, p))
  {
  }

  /** Strokes of one law and one angle always agree in acceleration.  Two such cycloids agree in jerk only when the
      two end jerks together are under the tolerance. */
  lemma AbuttingTwins(t: Circle, a: Segment, b: Segment)
    requires a.spec.Valid() && !IsDwell(a.kind) && !IsDwell(b.kind) && a.spec == b.spec && Grounded(t, a.spec.tp)
    ensures Agree(EndAccel(t, a), EndAccel(t, b))
    ensures Agree(EndJerk(t, a), -EndJerk(t, b)) <==>
      a.spec.tp != Cycloid || (2.0 - SEAM_REL_TOL) * EndJerk(t, a) <= SEAM_ABS_FLOOR
  {
    hide Spec.Factor, StartY2, StartY3;
    AgainstDwell(t, a);
  }

  /** Without an outer dwell the rise abuts the return, and the joint between them is judged so. */
  lemma StrokesAbutAtTop(t: Circle, c: Config)
    requires Sound(t, c) && c.outerDwell <= 0.0
    ensures Stitched(c).Usable() && |StitchedList(c)| >= 2
    ensures var r := Stitched(c).BoundaryJoint(t, 0);
      && r.Success? && r.value.leftSegment == Rise && r.value.rightSegment == Return
      && (r.value.seam.aCont <==> AccelsMatch(t, SegmentOf(c, Rise).spec, SegmentOf(c, Return).spec))
      && (r.value.seam.jCont <==> JerksMatch(t, SegmentOf(c, Rise).spec, SegmentOf(c, Return).spec))
  {
    hide Segments.SideMotion, EndAccel, EndJerk, AccelsMatch, JerksMatch, Agree;
    StitchedUsable(c);
    assert StitchedList(c)[0] == SegmentOf(c, Rise) && StitchedList(c)[1] == SegmentOf(c, Return);
    BoundaryClass(t, c, 0);
    BoundaryContinuous(t, c, 0);
    Abutting(t, SegmentOf(c, Rise), SegmentOf(c, Return));
  }

  /** Without an inner dwell the return of a closing turn abuts the next rise at the cyclic joint. */
  lemma StrokesAbutAtBottom(t: Circle, c: Config)
    requires Sound(t, c) && c.innerDwell <= 0.0 && c.Total() <= FULL_TURN
    ensures Stitched(c).Usable()
    ensures var r := Stitched(c).CyclicJoint(t);
      && r.Success? && r.value.leftSegment == Return && r.value.rightSegment == Rise
      && (r.value.seam.aCont <==> AccelsMatch(t, SegmentOf(c, Return).spec, SegmentOf(c, Rise).spec))
      && (r.value.seam.jCont <==> JerksMatch(t, SegmentOf(c, Return).spec, SegmentOf(c, Rise).spec))
  {
    hide StitchedList, Segments.SideMotion, EndAccel, EndJerk, LastAccel, LastJerk, AccelsMatch, JerksMatch, Agree;
    StitchedUsable(c);
    ListInOrder(c);
    ListTilesTurn(c);
    CyclicClass(t, c);
    CyclicSides(t, c);
    Abutting(t, SegmentOf(c, Return), SegmentOf(c, Rise));
  }

  /** When the two strokes have one law and one angle, the joint at the top is continuous in acceleration, and in
      jerk unless the law is a cycloid whose two end jerks together exceed the tolerance. */
  lemma TwinsAbutAtTop(t: Circle, c: Config)
    requires Sound(t, c) && c.outerDwell <= 0.0 && c.riseLaw == c.returnLaw && c.riseAngle == c.returnAngle
    ensures Stitched(c).Usable() && |StitchedList(c)| >= 2
    ensures var r, rise := Stitched(c).BoundaryJoint(t, 0), SegmentOf(c, Rise);
      && r.Success? && r.value.seam.aCont
      && (r.value.seam.jCont <==> c.riseLaw != Cycloid || (2.0 - SEAM_REL_TOL) * EndJerk(t, rise) <= SEAM_ABS_FLOOR)
  {
    hide Segments.BoundaryJoint, EndAccel, EndJerk, Agree;
    StitchedUsable(c);
    assert StitchedList(c)[0] == SegmentOf(c, Rise) && StitchedList(c)[1] == SegmentOf(c, Return);
    BoundaryClass(t, c, 0);
    AbuttingTwins(t, SegmentOf(c, Rise), SegmentOf(c, Return));
  }
}
