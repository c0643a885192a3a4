/** What the joint report of a stitched turn says, and exactly when it reports a jump. */
module JointReport {
  import opened Reals
  import opened Results
  import opened Trig
  import opened Law
  import opened LawShape
  import opened Kinematics
  import opened Cycle
  import opened CycleCurve
  import opened CyclePoint
  import opened WholeTurn

  // ---- The tolerance --------------------------------------------------------------------------------

  lemma AgreeExactly(x: real, y: real)
    ensures x == y ==> Agree(x, y)
    ensures Agree(x, y) <==> Agree(y, x)
    ensures Agree(x, y) <==> Agree(-x, -y)
  {
  }

  /** A quantity agrees with rest just when it is under the absolute floor, up to its own relative share. */
  lemma AgreeWithRest(x: real)
    ensures Agree(x, 0.0) <==> (1.0 - SEAM_REL_TOL) * Abs(x) <= SEAM_ABS_FLOOR
  {
  }

  // ---- Side values at a joint --------------------------------------------------------------------------

  /** At every boundary both sides report the same displacement and the same velocity, exactly. */
  lemma BoundaryContinuous(t: Circle, c: Config, i: nat)
    requires Sound(t, c) && i + 1 < |StitchedList(c)|
    ensures Stitched(c).Usable()
    ensures var r := Stitched(c).BoundaryJoint(t, i);
      var a, b := StitchedList(c)[i], StitchedList(c)[i + 1];
      && r.Success?
      && r.value.leftSegment == a.kind && r.value.rightSegment == b.kind
      && r.value.seam.kind == Boundary && r.value.seam.theta == a.end == b.start
      && r.value.seam.left.s == r.value.seam.right.s && r.value.seam.left.v == r.value.seam.right.v
      && r.value.seam.sCont && r.value.seam.vCont && !r.value.seam.sJump
  {
    hide StitchedList, Segments.SideMotion, Height, Rate;
    StitchedUsable(c);
    ListInOrder(c);
    var all := StitchedList(c);
    EndsMeet(c, i);
    SegmentMatchesCurve(t, c, all[i].kind, all[i].end, 1.0);
    SegmentMatchesCurve(t, c, all[i + 1].kind, all[i + 1].start, -1.0);
  }

  lemma EndsMeet(c: Config, i: nat)
    requires c.Valid() && i + 1 < |StitchedList(c)|
    ensures StitchedList(c)[i].end == StitchedList(c)[i + 1].start
    ensures Covers(c, StitchedList(c)[i].kind, StitchedList(c)[i].end)
    ensures Covers(c, StitchedList(c)[i + 1].kind, StitchedList(c)[i + 1].start)
  {
    hide StitchedList;
    ListTilesTurn(c);
    ListInOrder(c);
    var a, b := StitchedList(c)[i], StitchedList(c)[i + 1];
    assert a == SegmentOf(c, a.kind) && b == SegmentOf(c, b.kind);
  }

  // ---- Law switches -----------------------------------------------------------------------------------

  /** At the midpoint of a parabolic stroke displacement and velocity agree exactly from both sides, the
      accelerations are exactly opposite at their peak value, and there is no jerk. */
  lemma SwitchSides(t: Circle, spec: Spec, theta0: real, time: real, returning: bool)
    requires spec.Valid() && spec.tp == Parabolic
    ensures var theta := theta0 + spec.beta / 2.0;
      var l := SampleSide(t, spec, theta0, theta, time, returning, -1.0);
      var r := SampleSide(t, spec, theta0, theta, time, returning, 1.0);
      var p := ClosedMotionPeaks(t, spec);
      && l.Success? && r.Success? && p.Success?
      && l.value.s == r.value.s == spec.h / 2.0 && l.value.v == r.value.v
      && l.value.a == (if returning then -p.value.aMax else p.value.aMax)
      && r.value.a == -l.value.a && l.value.j == 0.0 && r.value.j == 0.0
  {
    hide Spec.Factor;
    Midpoint(theta0, spec.beta, theta0 + spec.beta / 2.0 - theta0);
  }

  lemma Midpoint(theta0: real, b: real, x: real)
    requires 0.0 < b && x == b / 2.0
    ensures x / b == 0.5
  {
    DivUnique(x, b, 0.5);
  }

  lemma SwitchContinuous(t: Circle, c: Config, kind: Kind)
    requires c.Valid() && SegmentOf(c, kind).law == Parabolic
    ensures Stitched(c).Usable()
    ensures var r := Stitched(c).SwitchJoint(t, SegmentOf(c, kind));
      && r.Success? && r.value.leftSegment == kind && r.value.rightSegment == kind
      && r.value.seam.kind == Switch
      && r.value.seam.left.s == r.value.seam.right.s && r.value.seam.left.v == r.value.seam.right.v
      && r.value.seam.sCont && r.value.seam.vCont && !r.value.seam.sJump
      && r.value.seam.jCont && r.value.seam.left.a == -r.value.seam.right.a
      && var aMax := ClosedMotionPeaks(t, SegmentOf(c, kind).spec).value.aMax;
         Abs(r.value.seam.left.a) == aMax && (r.value.seam.aCont <==> (2.0 - SEAM_REL_TOL) * aMax <= SEAM_ABS_FLOOR)
  {
    hide StitchedList, SampleSide, ClosedMotionPeaks;
    StitchedUsable(c);
    var sg := SegmentOf(c, kind);
    SwitchSides(t, sg.spec, sg.start, sg.start / c.omega, kind == Return);
    PeakNonNegative(t, sg.spec);
  }

  lemma PeakNonNegative(t: Circle, spec: Spec)
    requires spec.Valid() && spec.tp == Parabolic
    ensures 0.0 <= ClosedMotionPeaks(t, spec).value.aMax
  {
    QuotientNonNegative(spec.omega, spec.beta);
    var o := spec.omega / spec.beta;
    MulNonNeg(spec.h, o);
    MulNonNeg(spec.h * o, o);
  }

  // ---- The cyclic joint --------------------------------------------------------------------------------

  /** How far the return stroke still has to go at a full turn, as a share of its angle. */
  function Overrun(c: Config): real
    requires c.Valid()
  {
    (c.Total() - FULL_TURN) / c.returnAngle
  }

  /** The displacement left over at a full turn when no inner dwell is kept. */
  function CyclicGap(t: Circle, c: Config): real
    requires c.Valid()
  {
    Prod(c.h, Y(t, c.returnLaw, Overrun(c)))
  }

  /** The velocity left over with it. */
  function CyclicSpeed(t: Circle, c: Config): real
    requires c.Valid()
  {
    -(c.omega * StrokeRate(t, c.returnLaw, c.h, c.returnAngle, c.Total() - FULL_TURN))
  }

  lemma InnerSide(t: Circle, c: Config, theta: real)
    requires c.Valid()
    ensures Stitched(c).Usable()
    ensures Stitched(c).SideMotion(t, SegmentOf(c, InnerDwell), theta, 1.0) ==
            Success(DwellMotion(0.0, theta, theta / c.omega))
  {
    hide StitchedList;
    StitchedUsable(c);
  }

  lemma StartSide(t: Circle, c: Config)
    requires Sound(t, c)
    ensures Stitched(c).Usable()
    ensures var r := Stitched(c).SideMotion(t, SegmentOf(c, Rise), 0.0, -1.0);
      r.Success? && r.value.s == 0.0 && r.value.v == 0.0
  {
    hide StitchedList, SampleSide, StrokeHeight, StrokeRate, Segments.SideMotion;
    StitchedUsable(c);
    OneStrokeMoves(t, c, 0.0);
    SegmentMatchesCurve(t, c, Rise, 0.0, -1.0);
  }

  lemma ReturnSide(t: Circle, c: Config)
    requires Sound(t, c) && c.innerDwell <= 0.0
    ensures Stitched(c).Usable()
    ensures var r := Stitched(c).SideMotion(t, SegmentOf(c, Return), FULL_TURN, 1.0);
      r.Success? && r.value.s == CyclicGap(t, c) && r.value.v == CyclicSpeed(t, c)
  {
    hide StitchedList, SampleSide, Y, StrokeRate, Segments.SideMotion;
    StitchedUsable(c);
    OneStrokeMoves(t, c, FULL_TURN);
    SegmentMatchesCurve(t, c, Return, FULL_TURN, 1.0);
    var x := c.Total() - FULL_TURN;
    assert c.returnAngle - x == FULL_TURN - c.ReturnStart();
    StrokeReversed(t, c.returnLaw, c.h, c.returnAngle, x);
  }

  /** The cyclic joint compares the start of the rise, at rest at 0, with the inner dwell or with what is left over
      of the return stroke. */
  lemma CyclicSides(t: Circle, c: Config)
    requires Sound(t, c)
    ensures Stitched(c).Usable()
    ensures var r := Stitched(c).CyclicJoint(t);
      && r.Success?
      && r.value.seam.kind == Cyclic && r.value.rightSegment == Rise
      && r.value.leftSegment == (if 0.0 < c.innerDwell then InnerDwell else Return)
      && r.value.seam.right.s == 0.0 && r.value.seam.right.v == 0.0
      && r.value.seam.left.s == (if 0.0 < c.innerDwell then 0.0 else CyclicGap(t, c))
      && r.value.seam.left.v == (if 0.0 < c.innerDwell then 0.0 else CyclicSpeed(t, c))
      && r.value.seam.sCont == Agree(r.value.seam.left.s, 0.0)
      && r.value.seam.vCont == Agree(r.value.seam.left.v, 0.0)
      && (r.value.seam.vCont <==> (1.0 - SEAM_REL_TOL) * Abs(r.value.seam.left.v) <= SEAM_ABS_FLOOR)
      && r.value.seam.sJump == !r.value.seam.sCont
  {
    hide StitchedList, CyclicGap, CyclicSpeed, Agree, Segments.SideMotion;
    StitchedUsable(c);
    ListInOrder(c);
    StartSide(t, c);
    if 0.0 < c.innerDwell {
      InnerSide(t, c, FULL_TURN);
    } else {
      ReturnSide(t, c);
    }
    AgreeWithRest(if 0.0 < c.innerDwell then 0.0 else CyclicSpeed(t, c));
  }

  /** The gap closes exactly when the angles do not exceed a turn, and is the whole lift once the return
      stroke starts after it. */
  lemma CyclicGapSize(t: Circle, c: Config)
    requires Sound(t, c)
    ensures 0.0 <= CyclicGap(t, c) <= c.h
    ensures CyclicGap(t, c) == 0.0 <==> c.Total() <= FULL_TURN
    ensures c.returnAngle <= c.Total() - FULL_TURN ==> CyclicGap(t, c) == c.h
    ensures CyclicSpeed(t, c) <= 0.0
    ensures c.Total() <= FULL_TURN || c.returnAngle <= c.Total() - FULL_TURN ==> CyclicSpeed(t, c) == 0.0
  {
    hide Y;
    var x := c.Total() - FULL_TURN;
    LawInRange(t, c.returnLaw, Overrun(c));
    StrokeAtRest(t, c.returnLaw, c.h, c.returnAngle, x);
    if 0.0 < x {
      StrokeStarted(t, c.returnLaw, c.h, c.returnAngle, x);
    }
    UnitShare(c.h, Y(t, c.returnLaw, Overrun(c)), CyclicGap(t, c));
    LeftoverFalls(t, c);
  }

  lemma LeftoverFalls(t: Circle, c: Config)
    requires Sound(t, c)
    ensures CyclicSpeed(t, c) <= 0.0
  {
    hide EvalSide;
    var T := (c.Total() - FULL_TURN) / c.returnAngle;
    LawWithinPeaks(t, c.returnLaw, T, 0.0);
    QuotientNonNegative(c.h, c.returnAngle);
    MulNonNeg(c.h / c.returnAngle, Slope(t, c.returnLaw, T));
    MulNonNeg(c.omega, c.h / c.returnAngle * Slope(t, c.returnLaw, T));
  }

  lemma UnitShare(h: real, y: real, s: real)
    requires 0.0 < h && 0.0 <= y <= 1.0 && s == h * y
    ensures 0.0 <= s <= h
  {
    MulNonNeg(h, y);
    MulNonNeg(h, 1.0 - y);
  }

  /** For a parabolic return the gap is at most quadratic in the overrun. */
  lemma ParabolicGap(t: Circle, c: Config)
    requires c.Valid() && c.returnLaw == Parabolic && FULL_TURN <= c.Total()
    ensures CyclicGap(t, c) <= 2.0 * Prod(c.h, Square(Overrun(c)))
  {
    hide Y, Prod, Square;
    QuotientNonNegative(c.Total() - FULL_TURN, c.returnAngle);
    ParabolicBelow(t, Overrun(c));
    ParabolicShare(c.h, Y(t, Parabolic, Overrun(c)), Square(Overrun(c)), CyclicGap(t, c));
  }

  lemma ParabolicShare(h: real, y: real, q: real, s: real)
    requires 0.0 < h && y <= 2.0 * q && s == Prod(h, y)
    ensures s <= 2.0 * Prod(h, q)
  {
    MulMono(y, 2.0 * q, h);
  }

  lemma ParabolicBelow(t: Circle, d: real)
    requires 0.0 <= d
    ensures Y(t, Parabolic, d) <= 2.0 * Square(d)
  {
    if 1.0 < d {
      OneBelowSquare(d);
    } else if d <= 0.5 {
      assert 2.0 * Square(d) == 2.0 * (d * d);
    } else {
      MulNonNeg(2.0 * d - 1.0, 2.0 * d - 1.0);
      ParabolicGapIdentity(d);
    }
  }

  lemma ParabolicGapIdentity(d: real)
    ensures 2.0 * Square(d) - (1.0 - 2.0 * (1.0 - d) * (1.0 - d)) == (2.0 * d - 1.0) * (2.0 * d - 1.0)
  {
  }

  // ---- The whole report ----------------------------------------------------------------------------------

  /** The segments whose law switches inside them, in order, among the first n. */
  function Switching(all: seq<Segment>, n: nat): seq<Segment>
    requires n <= |all|
  {
    if n == 0 then []
    else Switching(all, n - 1) + (if all[n - 1].law == Parabolic then [all[n - 1]] else [])
  }

  lemma {:induction false} BoundaryListed(t: Circle, b: Segments, n: nat)
    requires b.Usable() && n < |b.all|
    requires forall i :: 0 <= i < n ==> b.BoundaryJoint(t, i).Success?
    ensures b.BoundaryJoints(t, n).Success? && |b.BoundaryJoints(t, n).value| == n
    ensures forall i :: 0 <= i < n ==> b.BoundaryJoints(t, n).value[i] == b.BoundaryJoint(t, i).value
    decreases n
  {
    hide Segments.BoundaryJoint;
    if n > 0 {
      BoundaryListed(t, b, n - 1);
    }
  }

  lemma {:induction false} SwitchListed(t: Circle, b: Segments, n: nat)
    requires b.Usable() && n <= |b.all|
    requires forall i :: 0 <= i < n && b.all[i].law == Parabolic ==> b.SwitchJoint(t, b.all[i]).Success?
    ensures var r, sw := b.SwitchJoints(t, n), Switching(b.all, n);
      && r.Success? && |r.value| == |sw|
      && forall k :: 0 <= k < |sw| ==> b.SwitchJoint(t, sw[k]) == Success(r.value[k])
    decreases n
  {
    hide Segments.SwitchJoint;
    if n > 0 {
      SwitchListed(t, b, n - 1);
    }
  }

  /** The strokes of a stitched turn that switch: the parabolic ones, rise before return. */
  lemma StitchedSwitching(c: Config)
    requires c.Valid()
    ensures Switching(StitchedList(c), |StitchedList(c)|)
         == (if c.riseLaw == Parabolic then [SegmentOf(c, Rise)] else [])
          + (if c.returnLaw == Parabolic then [SegmentOf(c, Return)] else [])
  {
    var all := StitchedList(c);
    var n := |all|;
    assert Switching(all, 0) == [];
    assert Switching(all, 1) == if c.riseLaw == Parabolic then [SegmentOf(c, Rise)] else [];
    if 0.0 < c.outerDwell {
      assert Switching(all, 2) == Switching(all, 1);
    }
    var r := if 0.0 < c.outerDwell then 2 else 1;
    assert all[r] == SegmentOf(c, Return);
    assert Switching(all, r + 1) == Switching(all, r) + (if c.returnLaw == Parabolic then [all[r]] else []);
    if 0.0 < c.innerDwell {
      assert Switching(all, r + 2) == Switching(all, r + 1);
    }
  }

  function Report(t: Circle, c: Config): seq<Joint>
    requires c.Valid()
  {
    StitchedUsable(c);
    Stitched(c).JointList(t).GetOr([])
  }

  lemma SideAnswers(t: Circle, c: Config, kind: Kind, theta: real, side: real)
    requires c.Valid() && Kept(c, kind)
    ensures Stitched(c).Usable() && Stitched(c).SideMotion(t, SegmentOf(c, kind), theta, side).Success?
  {
    hide StitchedList, Restore, Spec.Factor, CosineAt, CycloidAt, ParabolicAt;
    StitchedUsable(c);
  }

  lemma JointsAnswer(t: Circle, c: Config)
    requires c.Valid()
    ensures Stitched(c).Usable()
    ensures var b := Stitched(c);
      && (forall i :: 0 <= i < |b.all| - 1 ==> b.BoundaryJoint(t, i).Success?)
      && (forall i :: 0 <= i < |b.all| && b.all[i].law == Parabolic ==> b.SwitchJoint(t, b.all[i]).Success?)
      && b.CyclicJoint(t).Success?
  {
    hide StitchedList, Segments.SideMotion, Segments.SwitchJoint, Join;
    StitchedUsable(c);
    ListInOrder(c);
    var b := Stitched(c);
    forall i | 0 <= i < |b.all| - 1
      ensures b.BoundaryJoint(t, i).Success?
    {
      SideAnswers(t, c, b.all[i].kind, b.all[i].end, 1.0);
      SideAnswers(t, c, b.all[i + 1].kind, b.all[i + 1].start, -1.0);
    }
    forall i | 0 <= i < |b.all| && b.all[i].law == Parabolic
      ensures b.SwitchJoint(t, b.all[i]).Success?
    {
      SwitchContinuous(t, c, b.all[i].kind);
    }
    SideAnswers(t, c, b.all[|b.all| - 1].kind, FULL_TURN, 1.0);
    SideAnswers(t, c, Rise, 0.0, -1.0);
  }

  /** The report lists every boundary in order, then every law switch in order, then the cyclic joint. */
  lemma ReportComplete(t: Circle, c: Config)
    requires c.Valid()
    ensures Stitched(c).Usable()
    ensures var b, js := Stitched(c), Report(t, c);
      var n, sw := |b.all|, Switching(b.all, |b.all|);
      && b.JointList(t) == Success(js)
      && |js| == n + |sw|
      && (forall i :: 0 <= i < n - 1 ==> b.BoundaryJoint(t, i) == Success(js[i]))
      && (forall k :: 0 <= k < |sw| ==> b.SwitchJoint(t, sw[k]) == Success(js[n - 1 + k]))
      && b.CyclicJoint(t) == Success(js[|js| - 1])
  {
    hide StitchedList, Segments.BoundaryJoint, Segments.SwitchJoint, Segments.CyclicJoint,
         Segments.BoundaryJoints, Segments.SwitchJoints;
    StitchedUsable(c);
    JointsAnswer(t, c);
    var b := Stitched(c);
    BoundaryListed(t, b, |b.all| - 1);
    SwitchListed(t, b, |b.all|);
  }

  lemma SwitchJointContinuous(t: Circle, c: Config, k: nat)
    requires Sound(t, c) && k < |Switching(StitchedList(c), |StitchedList(c)|)|
    ensures Stitched(c).Usable()
    ensures var r := Stitched(c).SwitchJoint(t, Switching(StitchedList(c), |StitchedList(c)|)[k]);
      && r.Success? && r.value.seam.kind == Switch
      && r.value.seam.left.s == r.value.seam.right.s && r.value.seam.left.v == r.value.seam.right.v
      && r.value.seam.sCont && r.value.seam.vCont && !r.value.seam.sJump
  {
    hide StitchedList, Segments.SwitchJoint, Switching;
    StitchedUsable(c);
    StitchedSwitching(c);
    SwitchContinuous(t, c, Switching(StitchedList(c), |StitchedList(c)|)[k].kind);
  }

  /** Every joint but the cyclic one is continuous in displacement and velocity, exactly. */
  lemma InnerJointsContinuous(t: Circle, c: Config, k: nat)
    requires Sound(t, c) && k < |Report(t, c)| - 1
    ensures var sm := Report(t, c)[k].seam;
      && sm.kind != Cyclic && sm.left.s == sm.right.s && sm.left.v == sm.right.v
      && sm.sCont && sm.vCont && !sm.sJump
  {
    hide StitchedList, Segments.BoundaryJoint, Segments.SwitchJoint, Segments.CyclicJoint, Report, Switching;
    StitchedUsable(c);
    ReportComplete(t, c);
    var n := |StitchedList(c)|;
    if k < n - 1 {
      BoundaryContinuous(t, c, k);
    } else {
      SwitchJointContinuous(t, c, k - (n - 1));
    }
  }

  predicate JumpReported(t: Circle, c: Config)
    requires c.Valid()
  {
    exists k :: 0 <= k < |Report(t, c)| && Report(t, c)[k].seam.sJump
  }

  /** A step of size g from or to rest that the tolerance does not excuse. */
  predicate Noticeable(g: real) {
    SEAM_ABS_FLOOR < (1.0 - SEAM_REL_TOL) * g
  }

  /** A displacement jump is reported exactly when no inner dwell is kept and the leftover of the return stroke
      exceeds the tolerance. */
  lemma JumpReportedExactly(t: Circle, c: Config)
    requires Sound(t, c)
    ensures JumpReported(t, c) <==> c.innerDwell <= 0.0 && Noticeable(CyclicGap(t, c))
  {
    hide StitchedList, Segments.CyclicJoint, Report, CyclicGap, Agree, Switching;
    StitchedUsable(c);
    ReportComplete(t, c);
    CyclicSides(t, c);
    CyclicGapSize(t, c);
    AgreeWithRest(Report(t, c)[|Report(t, c)| - 1].seam.left.s);
    forall k | 0 <= k < |Report(t, c)| - 1
      ensures !Report(t, c)[k].seam.sJump
    {
      InnerJointsContinuous(t, c, k);
    }
    if c.innerDwell <= 0.0 && Noticeable(CyclicGap(t, c)) {
      assert Report(t, c)[|Report(t, c)| - 1].seam.sJump;
    }
  }

  /** In terms of the reported motion: a jump is reported exactly when the reported displacements at 360 and at 0
      disagree. */
  lemma ReportJudgesClosing(t: Circle, c: Config)
    requires Sound(t, c)
    ensures JumpReported(t, c) <==> !Agree(MotionAt(t, c, FULL_TURN).s, MotionAt(t, c, 0.0).s)
  {
    hide Report, JumpReported, MotionAt, Y, Agree;
    JumpReportedExactly(t, c);
    CyclicGapSize(t, c);
    TurnCloses(t, c);
    AgreeWithRest(MotionAt(t, c, FULL_TURN).s);
  }

  /** The height at which the motion arrives at 360 is what the stitched curve leaves there.  The report tells
      whether it falls from that height to 0 exactly when the turn is regular or the fall is within the tolerance:
      on an irregular turn nothing is reported. */
  lemma ReportTellsTruth(t: Circle, c: Config)
    requires Sound(t, c)
    ensures (JumpReported(t, c) <==> Noticeable(Height(t, c, FULL_TURN)))
      <==> Regular(c) || !Noticeable(Height(t, c, FULL_TURN))
    ensures !Regular(c) ==> !JumpReported(t, c)
  {
    hide Report, JumpReported, MotionAt, Height, Y, Noticeable;
    JumpReportedExactly(t, c);
    if Regular(c) {
      MotionIsCurve(t, c, FULL_TURN);
      TurnCloses(t, c);
      NothingLeft();
    }
  }

  lemma NothingLeft()
    ensures !Noticeable(0.0)
  {
  }

  /** With an inner dwell, or angles within one turn, every joint of the report is continuous. */
  lemma WithinTurnAllContinuous(t: Circle, c: Config, k: nat)
    requires Sound(t, c) && (0.0 < c.innerDwell || c.Total() <= FULL_TURN) && k < |Report(t, c)|
    ensures Report(t, c)[k].seam.sCont && Report(t, c)[k].seam.vCont && !Report(t, c)[k].seam.sJump
  {
    hide StitchedList, Segments.CyclicJoint, Report, CyclicGap, Agree, Switching;
    if k < |Report(t, c)| - 1 {
      InnerJointsContinuous(t, c, k);
    } else {
      ReportComplete(t, c);
      CyclicSides(t, c);
      CyclicGapSize(t, c);
      AgreeExactly(0.0, 0.0);
    }
  }

  /** When the return stroke starts so late that the turn closes before it begins, a displacement jump of the
      whole lift is reported. */
  lemma LateReturnJumps(t: Circle, c: Config)
    requires Sound(t, c) && c.innerDwell <= 0.0 && c.returnAngle <= c.Total() - FULL_TURN && Noticeable(c.h)
    ensures JumpReported(t, c)
    ensures MotionAt(t, c, FULL_TURN).s == c.h && MotionAt(t, c, 0.0).s == 0.0
  {
    hide JumpReported, MotionAt, Y, Noticeable;
    CyclicGapSize(t, c);
    JumpReportedExactly(t, c);
    TurnCloses(t, c);
  }

  /** The slack on the angle sum accepts such a turn. */
  function LateReturn(): (c: Config)
    ensures c.Valid() && c.innerDwell <= 0.0 && c.returnAngle <= c.Total() - FULL_TURN && Noticeable(c.h)
  {
    Config(Parabolic, Parabolic, 10.0, 359.9999999999, 0.0000000005, 0.0000000005, 0.0, 360.0)
  }

  /** Its report shows the jump. */
  lemma LateReturnReport(t: Circle)
    ensures Sound(t, LateReturn())
    ensures JumpReported(t, LateReturn())
    ensures MotionAt(t, LateReturn(), FULL_TURN).s == LateReturn().h && MotionAt(t, LateReturn(), 0.0).s == 0.0
  {
    hide JumpReported, MotionAt;
    LateReturnJumps(t, LateReturn());
  }

  // ---- A drop that is not reported -------------------------------------------------------------------------

  /** When an inner dwell is kept and the return starts no earlier than a full turn, the follower stays at the top
      up to 360 and is reported at 0 there; yet every joint is found continuous. */
  lemma DropUnreported(t: Circle, c: Config)
    requires Sound(t, c) && 0.0 < c.innerDwell && FULL_TURN <= c.ReturnStart()
    ensures forall theta :: c.riseAngle <= theta < FULL_TURN ==> MotionAt(t, c, theta).s == c.h
    ensures MotionAt(t, c, FULL_TURN).s == 0.0
    ensures forall k :: 0 <= k < |Report(t, c)| ==> Report(t, c)[k].seam.sCont && !Report(t, c)[k].seam.sJump
  {
    hide Report, MotionAt, RiseHeight, ReturnHeight, RiseRate, ReturnRate;
    forall theta | c.riseAngle <= theta < FULL_TURN
      ensures MotionAt(t, c, theta).s == c.h
    {
      OneStrokeMoves(t, c, theta);
      MotionIsCurve(t, c, theta);
    }
    EndAtRest(t, c);
    forall k | 0 <= k < |Report(t, c)|
      ensures Report(t, c)[k].seam.sCont && !Report(t, c)[k].seam.sJump
    {
      WithinTurnAllContinuous(t, c, k);
    }
  }

  /** The slack accepts such a turn too. */
  function LateStart(): (c: Config)
    ensures c.Valid() && 0.0 < c.innerDwell && FULL_TURN <= c.ReturnStart() && Noticeable(c.h)
  {
    Config(Parabolic, Parabolic, 10.0, 180.0, 180.0, 0.0000000005, 0.0000000004, 360.0)
  }

  lemma LateStartReport(t: Circle)
    ensures Sound(t, LateStart()) && !Regular(LateStart())
    ensures forall theta :: 180.0 <= theta < FULL_TURN ==> MotionAt(t, LateStart(), theta).s == 10.0
    ensures MotionAt(t, LateStart(), FULL_TURN).s == 0.0
    ensures !JumpReported(t, LateStart())
  {
    hide Report, MotionAt;
    DropUnreported(t, LateStart());
  }
}
