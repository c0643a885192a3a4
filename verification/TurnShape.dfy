/** Direction, range and peaks of the reported motion, and its time reversal. */
module TurnShape {
  import opened Reals
  import opened Trig
  import opened Law
  import opened LawShape
  import opened Kinematics
  import opened Cycle
  import opened CycleCurve
  import opened CyclePoint
  import opened WholeTurn

  // ---- Range, direction, dwells ---------------------------------------------------------------

  lemma StrokeShape(t: Circle, tp: LawName, h: real, b: real, x: real, y: real)
    requires Grounded(t, tp) && 0.0 < h && 0.0 < b && x <= y
    ensures 0.0 <= StrokeHeight(t, tp, h, b, x) <= StrokeHeight(t, tp, h, b, y) <= h
    ensures 0.0 <= StrokeRate(t, tp, h, b, x)
  {
    hide Y, Slope;
    DivMono(x, y, b);
    LawClimbs(t, tp, x / b, y / b);
    LawInRange(t, tp, x / b);
    LawInRange(t, tp, y / b);
    StrokeOrder(h, Y(t, tp, x / b), Y(t, tp, y / b), StrokeHeight(t, tp, h, b, x), StrokeHeight(t, tp, h, b, y));
    StrokeRateNonNegative(t, tp, h, b, x);
  }

  lemma StrokeRateNonNegative(t: Circle, tp: LawName, h: real, b: real, x: real)
    requires Grounded(t, tp) && 0.0 < h && 0.0 < b
    ensures 0.0 <= StrokeRate(t, tp, h, b, x)
  {
    hide EvalSide;
    LawWithinPeaks(t, tp, x / b, 0.0);
    QuotientNonNegative(h, b);
    MulNonNeg(h / b, Slope(t, tp, x / b));
  }

  lemma StrokeOrder(h: real, y: real, y': real, s: real, s': real)
    requires 0.0 < h && 0.0 <= y <= y' <= 1.0 && s == h * y && s' == h * y'
    ensures 0.0 <= s <= s' <= h
  {
    MulNonNeg(h, y);
    MulNonNeg(h, y' - y);
    MulNonNeg(h, 1.0 - y');
  }

  lemma HeightShape(t: Circle, c: Config, x: real, y: real)
    requires Sound(t, c) && x <= y
    ensures 0.0 <= Height(t, c, x) <= c.h
    ensures y <= c.ReturnStart() ==> Height(t, c, x) <= Height(t, c, y)
    ensures c.riseAngle <= x ==> Height(t, c, y) <= Height(t, c, x)
    ensures x <= c.ReturnStart() ==> 0.0 <= Rate(t, c, x)
    ensures c.riseAngle <= x ==> Rate(t, c, x) <= 0.0
  {
    hide StrokeHeight, StrokeRate;
    OneStrokeMoves(t, c, x);
    OneStrokeMoves(t, c, y);
    StrokeShape(t, c.riseLaw, c.h, c.riseAngle, x, y);
    StrokeShape(t, c.returnLaw, c.h, c.returnAngle, x - c.ReturnStart(), y - c.ReturnStart());
  }

  lemma SpeedSign(omega: real, u: real)
    requires 0.0 < omega
    ensures 0.0 <= u ==> 0.0 <= omega * u
    ensures u <= 0.0 ==> omega * u <= 0.0
  {
    if 0.0 <= u {
      MulNonNeg(omega, u);
    } else {
      MulNonNeg(omega, -u);
    }
  }

  /** The follower stays between 0 and h, climbs up to the start of the return with nonnegative velocity,
      falls from the end of the rise on with nonpositive velocity, and is at rest in between and at the end.  It is
      at the top in between, except at a full turn that an inner dwell takes before the return starts. */
  lemma MotionShape(t: Circle, c: Config, theta: real)
    requires Sound(t, c) && 0.0 <= theta <= FULL_TURN
    ensures var m := MotionAt(t, c, theta);
      && 0.0 <= m.s <= c.h
      && (theta <= c.ReturnStart() ==> 0.0 <= m.v)
      && (c.riseAngle <= theta ==> m.v <= 0.0)
      && (c.riseAngle <= theta <= c.ReturnStart() ==>
            m.v == 0.0 && (m.s == c.h <==> theta < FULL_TURN || c.innerDwell <= 0.0))
      && (c.MotionEnd() <= theta ==> m.s == 0.0 && m.v == 0.0)
  {
    hide MotionAt, RiseHeight, ReturnHeight, RiseRate, ReturnRate;
    if theta < FULL_TURN || Regular(c) {
      MotionIsCurve(t, c, theta);
      HeightShape(t, c, theta, theta);
      SpeedSign(c.omega, Rate(t, c, theta));
      OneStrokeMoves(t, c, theta);
    } else {
      EndAtRest(t, c);
    }
  }

  /** The climb is broken exactly at a full turn that an inner dwell takes before the return starts; the fall is
      never broken. */
  lemma MotionIsMonotone(t: Circle, c: Config, x: real, y: real)
    requires Sound(t, c) && 0.0 <= x <= y <= FULL_TURN
    ensures y <= c.ReturnStart() ==>
      (MotionAt(t, c, x).s <= MotionAt(t, c, y).s <==>
        y < FULL_TURN || c.innerDwell <= 0.0 || x == 0.0 || x == FULL_TURN)
    ensures c.riseAngle <= x ==> MotionAt(t, c, y).s <= MotionAt(t, c, x).s
  {
    hide MotionAt, Height, Rate;
    if y < FULL_TURN || Regular(c) {
      MotionIsCurve(t, c, x);
      MotionIsCurve(t, c, y);
      HeightShape(t, c, x, y);
    } else {
      EndAtRest(t, c);
      TurnCloses(t, c);
      MotionShape(t, c, x);
      if 0.0 < x < FULL_TURN && x <= c.ReturnStart() {
        AboveZero(t, c, x);
      }
    }
  }

  lemma AboveZero(t: Circle, c: Config, x: real)
    requires Sound(t, c) && 0.0 < x < FULL_TURN && x <= c.ReturnStart()
    ensures 0.0 < MotionAt(t, c, x).s
  {
    hide MotionAt, StrokeHeight, StrokeRate;
    MotionIsCurve(t, c, x);
    OneStrokeMoves(t, c, x);
    StrokeStarted(t, c.riseLaw, c.h, c.riseAngle, x);
  }

  lemma LocateDwell(c: Config, theta: real, kind: Kind)
    requires c.Valid() && theta < FULL_TURN && IsDwell(kind) && Kept(c, kind)
    requires SegmentOf(c, kind).start <= theta <= SegmentOf(c, kind).end
    ensures Stitched(c).Usable()
    ensures Stitched(c).all[Stitched(c).LocateIndex(theta)] == SegmentOf(c, kind)
  {
    hide StitchedList;
    StitchedUsable(c);
    ListInOrder(c);
    var b := Stitched(c);
    var k :| 0 <= k < |b.all| && b.all[k] == SegmentOf(c, kind);
    assert b.Hit(theta, true, k);
    var d := b.FirstHit(theta, true, 0);
    assert d <= k;
    assert b.Hit(theta, true, d);
  }

  /** A kept dwell answers at both its ends, so acceleration and jerk vanish there too.  At a full turn only
      the inner dwell answers, and it does so wherever it starts and ends. */
  lemma DwellIsStill(t: Circle, c: Config, theta: real, kind: Kind)
    requires c.Valid() && 0.0 <= theta <= FULL_TURN && IsDwell(kind) && Kept(c, kind)
    requires if theta < FULL_TURN then SegmentOf(c, kind).start <= theta <= SegmentOf(c, kind).end
             else kind == InnerDwell
    ensures var m := MotionAt(t, c, theta);
      && m.s == (if kind == OuterDwell then c.h else 0.0)
      && m.v == 0.0 && m.a == 0.0 && m.j == 0.0 && m.time == theta / c.omega
  {
    hide StitchedList, Segments.LocateIndex;
    StitchedUsable(c);
    if theta < FULL_TURN {
      LocateDwell(c, theta, kind);
    } else {
      EndAtRest(t, c);
    }
  }

  // ---- Closed peaks ------------------------------------------------------------------------------

  lemma SampleWithinPeaks(t: Circle, spec: Spec, theta0: real, theta: real, time: real, returning: bool, side: real)
    requires spec.Valid() && Grounded(t, spec.tp)
    ensures var r, p := SampleSide(t, spec, theta0, theta, time, returning, side), ClosedMotionPeaks(t, spec);
      && r.Success? && p.Success?
      && Abs(r.value.v) <= p.value.vMax && Abs(r.value.a) <= p.value.aMax && Abs(r.value.j) <= p.value.jMax
  {
    hide EvalSide, ClosedPeaks, Spec.Factor;
    var T := (theta - theta0) / spec.beta;
    LawAnswers(t, spec.tp, T, side);
    PeaksAnswer(t, spec.tp);
    LawWithinPeaks(t, spec.tp, T, side);
    RestoreWithinPeaks(At(t, spec.tp, T, side), Peak(t, spec.tp), spec, theta, time, returning);
  }

  lemma RestoreWithinPeaks(w: Values, k: Peaks, spec: Spec, theta: real, time: real, returning: bool)
    requires spec.Valid() && Abs(w.y1) <= k.v1 && Abs(w.y2) <= k.v2 && Abs(w.y3) <= k.v3
    ensures var f := spec.Factor();
      var m := Restore(w, f, spec, theta, time, returning);
      Abs(m.v) <= f.v * k.v1 && Abs(m.a) <= f.a * k.v2 && Abs(m.j) <= f.j * k.v3
  {
    hide Spec.Factor;
    var f := spec.Factor();
    FactorsPositive(spec);
    ScaledBound(f.v, w.y1, k.v1);
    ScaledBound(f.a, w.y2, k.v2);
    ScaledBound(f.j, w.y3, k.v3);
  }

  lemma ScaledBound(f: real, x: real, k: real)
    requires 0.0 <= f && Abs(x) <= k
    ensures Abs(f * x) <= f * k
  {
    AbsMul(f, x);
    MulMono(Abs(x), k, f);
  }

  lemma FactorsPositive(spec: Spec)
    requires spec.Valid()
    ensures 0.0 <= spec.Factor().v && 0.0 <= spec.Factor().a && 0.0 <= spec.Factor().j
  {
    var o := spec.omega / spec.beta;
    QuotientNonNegative(spec.omega, spec.beta);
    MulNonNeg(spec.h, o);
    MulNonNeg(spec.h * o, o);
    MulNonNeg(spec.h * o * o, o);
  }

  /** No reported derivative exceeds the closed peaks of the segment that answers; a dwell reports none. */
  lemma MotionWithinPeaks(t: Circle, c: Config, theta: real)
    requires Sound(t, c) && 0.0 <= theta <= FULL_TURN
    ensures Stitched(c).Usable()
    ensures var m, sg := MotionAt(t, c, theta), Stitched(c).all[Stitched(c).LocateIndex(theta)];
      var p := ClosedMotionPeaks(t, sg.spec);
      if IsDwell(sg.kind) then m.v == 0.0 && m.a == 0.0 && m.j == 0.0
      else p.Success? && Abs(m.v) <= p.value.vMax && Abs(m.a) <= p.value.aMax && Abs(m.j) <= p.value.jMax
  {
    hide StitchedList, SampleSide, Sample, ClosedMotionPeaks;
    StitchedUsable(c);
    ListInOrder(c);
    PointIsSideMotion(t, c, theta);
    var sg := Stitched(c).all[Stitched(c).LocateIndex(theta)];
    if !IsDwell(sg.kind) {
      SampleWithinPeaks(t, sg.spec, sg.start, theta, sg.start / c.omega, sg.kind == Return, 0.0);
    }
  }

  // ---- Time reversal -------------------------------------------------------------------------------

  /** The turn run backwards: laws and motion angles swapped. */
  function Reversed(c: Config): Config {
    c.(riseLaw := c.returnLaw, returnLaw := c.riseLaw, riseAngle := c.returnAngle, returnAngle := c.riseAngle)
  }

  lemma ReversedValid(t: Circle, c: Config)
    requires Sound(t, c)
    ensures Sound(t, Reversed(c)) && Reversed(Reversed(c)) == c
    ensures Regular(Reversed(c)) <==> Regular(c)
    ensures Reversed(c).MotionEnd() == c.MotionEnd() && Reversed(c).Total() == c.Total()
  {
  }

  lemma HeightReversed(t: Circle, c: Config, theta: real)
    requires Sound(t, c) && Reversed(c).Valid()
    ensures Height(t, Reversed(c), c.MotionEnd() - theta) == Height(t, c, theta)
    ensures Rate(t, Reversed(c), c.MotionEnd() - theta) == -Rate(t, c, theta)
  {
    hide StrokeHeight, StrokeRate;
    var r, x := Reversed(c), c.MotionEnd() - theta;
    StrokeReversed(t, c.riseLaw, c.h, c.riseAngle, theta);
    StrokeReversed(t, c.returnLaw, c.h, c.returnAngle, theta - c.ReturnStart());
    assert x == c.returnAngle - (theta - c.ReturnStart());
    assert x - r.ReturnStart() == c.riseAngle - theta;
  }

  /** Running the reversed turn from the end of the motion retraces it, with the velocity negated. */
  lemma TurnReverses(t: Circle, c: Config, theta: real)
    requires Sound(t, c) && 0.0 <= theta <= FULL_TURN && 0.0 <= c.MotionEnd() - theta <= FULL_TURN
    requires Regular(c) || (theta < FULL_TURN && c.MotionEnd() - theta < FULL_TURN)
    ensures Reversed(c).Valid()
    ensures var m, r := MotionAt(t, c, theta), MotionAt(t, Reversed(c), c.MotionEnd() - theta);
      r.s == m.s && r.v == -m.v
  {
    hide MotionAt, Height, Rate;
    ReversedValid(t, c);
    HeightReversed(t, c, theta);
    MotionIsCurve(t, c, theta);
    MotionIsCurve(t, Reversed(c), c.MotionEnd() - theta);
    NegatedSpeed(c.omega, Rate(t, c, theta));
  }

  lemma NegatedSpeed(omega: real, u: real)
    ensures omega * -u == -(omega * u)
  {
  }

  function Opposite(kind: Kind): Kind {
    match kind
    case Rise => Return
    case Return => Rise
    case _ => kind
  }

  /** Segment by segment and side by side the reversal carries all four quantities: displacement and
      acceleration are kept, velocity and jerk negated.  Only a parabolic midpoint with no side named keeps
      its one-sided acceleration. */
  lemma SegmentReverses(t: Circle, c: Config, kind: Kind, theta: real, side: real)
    requires Sound(t, c) && kind != InnerDwell
    ensures Reversed(c).Valid() && Stitched(c).Usable() && Stitched(Reversed(c)).Usable()
    ensures var sg, gs := SegmentOf(c, kind), SegmentOf(Reversed(c), Opposite(kind));
      var m := Stitched(c).SideMotion(t, sg, theta, side);
      var r := Stitched(Reversed(c)).SideMotion(t, gs, c.MotionEnd() - theta, -side);
      && m.Success? && r.Success?
      && r.value.s == m.value.s && r.value.v == -m.value.v && r.value.j == -m.value.j
      && (r.value.a == m.value.a || (sg.law == Parabolic && theta == sg.start + sg.beta / 2.0 && side == 0.0))
  {
    hide StitchedList, SampleSide;
    ReversedValid(t, c);
    StitchedUsable(c);
    StitchedUsable(Reversed(c));
    var sg, gs := SegmentOf(c, kind), SegmentOf(Reversed(c), Opposite(kind));
    if kind != OuterDwell {
      SampleReverses(t, sg.spec, sg.start, theta, sg.start / c.omega, kind == Return, side,
                     gs.start, c.MotionEnd() - theta, gs.start / c.omega);
    }
  }

  lemma SampleReverses(t: Circle, spec: Spec, theta0: real, theta: real, time: real, returning: bool, side: real,
                       theta0': real, theta': real, time': real)
    requires spec.Valid() && Grounded(t, spec.tp) && theta' - theta0' == spec.beta - (theta - theta0)
    ensures var m := SampleSide(t, spec, theta0, theta, time, returning, side);
      var r := SampleSide(t, spec, theta0', theta', time', !returning, -side);
      && m.Success? && r.Success?
      && r.value.s == m.value.s && r.value.v == -m.value.v && r.value.j == -m.value.j
      && (r.value.a == m.value.a || (spec.tp == Parabolic && theta == theta0 + spec.beta / 2.0 && side == 0.0))
  {
    hide EvalSide, Spec.Factor;
    var b, x := spec.beta, theta - theta0;
    DivUnique(b, b, 1.0);
    DivSub(b, x, b);
    DivMul(x, b);
    LawAnswers(t, spec.tp, x / b, side);
    LawAnswers(t, spec.tp, 1.0 - x / b, -side);
    LawIsPointSymmetric(t, spec.tp, x / b, side);
    RestoreReverses(At(t, spec.tp, x / b, side), At(t, spec.tp, 1.0 - x / b, -side), spec.Factor(), spec,
                    theta, time, returning, theta', time');
  }

  lemma RestoreReverses(w: Values, w': Values, f: Scales, spec: Spec, theta: real, time: real, returning: bool,
                        theta': real, time': real)
    requires w'.y == 1.0 - w.y && w'.y1 == w.y1 && w'.y3 == w.y3
    ensures var m, r := Restore(w, f, spec, theta, time, returning), Restore(w', f, spec, theta', time', !returning);
      r.s == m.s && r.v == -m.v && r.j == -m.j && (w'.y2 == -w.y2 ==> r.a == m.a)
  {
    assert spec.h * (1.0 - w.y) == spec.h - spec.h * w.y;
  }
}
