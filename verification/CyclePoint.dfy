/** The segment list, the lookup and `Point` against the stitched curve of `CycleCurve`. */
module CyclePoint {
  import opened Reals
  import opened Results
  import opened Trig
  import opened Law
  import opened LawShape
  import opened Kinematics
  import opened Cycle
  import opened CycleCurve

  // ---- The list -----------------------------------------------------------------------------

  /** The segment of each kind, whether or not the list keeps it. */
  function SegmentOf(c: Config, kind: Kind): Segment {
    match kind
    case Rise => MakeSegment(c, Rise, c.riseLaw, 0.0, c.riseAngle)
    case OuterDwell => MakeSegment(c, OuterDwell, NO_LAW, c.riseAngle, c.outerDwell)
    case Return => MakeSegment(c, Return, c.returnLaw, c.ReturnStart(), c.returnAngle)
    case InnerDwell => MakeSegment(c, InnerDwell, NO_LAW, c.MotionEnd(), c.innerDwell)
  }

  function Rank(kind: Kind): nat {
    match kind
    case Rise => 0
    case OuterDwell => 1
    case Return => 2
    case InnerDwell => 3
  }

  predicate Kept(c: Config, kind: Kind) {
    match kind
    case Rise => true
    case OuterDwell => 0.0 < c.outerDwell
    case Return => true
    case InnerDwell => 0.0 < c.innerDwell
  }

  /** The list tiles the turn: it starts with the rise at 0, every end is the next start, every length is a
      positive beta, and the last end is the total, a full turn up to the slack. */
  lemma ListTilesTurn(c: Config)
    requires c.Valid()
    ensures var all := StitchedList(c);
      && 2 <= |all| <= 4
      && all[0].kind == Rise && all[0].start == 0.0
      && (forall i :: 0 <= i < |all| ==> 0.0 < all[i].beta && all[i].end == all[i].start + all[i].beta)
      && (forall i :: 0 <= i < |all| - 1 ==> all[i].end == all[i + 1].start)
      && all[|all| - 1].end == c.Total() == Stitched(c).totalAngle
      && Abs(Stitched(c).totalAngle - FULL_TURN) <= ANGLE_SLACK
  {
  }

  /** A kind is present just when its angle is positive, once, and the kinds come in stitching order. */
  lemma ListInOrder(c: Config)
    requires c.Valid()
    ensures var all := StitchedList(c);
      && |all| >= 2
      && (forall i :: 0 <= i < |all| ==> all[i] == SegmentOf(c, all[i].kind) && Kept(c, all[i].kind))
      && (forall i, j :: 0 <= i < j < |all| ==> Rank(all[i].kind) < Rank(all[j].kind))
      && (forall kind :: Kept(c, kind) ==> SegmentOf(c, kind) in all)
      && all[|all| - 1].kind == (if 0.0 < c.innerDwell then InnerDwell else Return)
  {
    var all := StitchedList(c);
    var r := if 0.0 < c.outerDwell then 2 else 1;
    assert all[0] == SegmentOf(c, Rise) && all[r] == SegmentOf(c, Return);
    if 0.0 < c.outerDwell {
      assert all[1] == SegmentOf(c, OuterDwell);
    }
    if 0.0 < c.innerDwell {
      assert all[r + 1] == SegmentOf(c, InnerDwell);
    }
  }

  lemma StitchedUsable(c: Config)
    requires c.Valid()
    ensures Stitched(c).Usable() && Stitched(c).all == StitchedList(c) && StitchedList(c)[0].spec.omega == c.omega
  {
  }

  // ---- Side values of a segment ----------------------------------------------------------------

  /** Where the closed form of a segment of this kind still describes the stitched curve: a stroke clamps
      to its end values, so it reaches across a neighbouring dwell. */
  predicate Covers(c: Config, kind: Kind, theta: real) {
    match kind
    case Rise => theta <= c.ReturnStart()
    case OuterDwell => c.riseAngle <= theta <= c.ReturnStart()
    case Return => c.riseAngle <= theta
    case InnerDwell => c.MotionEnd() <= theta
  }

  /** The speed factor h omega / b is omega times the slope factor h / b. */
  lemma SpeedIdentity(h: real, omega: real, b: real, u: real)
    requires b != 0.0
    ensures Prod(Prod(h, omega / b), u) == Prod(omega, Prod(h / b, u))
  {
    hide Prod;
    QuotientProd(omega, b);
    QuotientProd(h, b);
    Absorb(h, omega / b, b, omega, h / b);
    ProdComm(h / b, omega);
    ProdAssoc(omega, h / b, u);
  }

  /** A stroke sampled from either side: displacement and velocity are those of `CycleCurve`. */
  lemma StrokeSample(t: Circle, spec: Spec, theta0: real, theta: real, time: real, returning: bool, side: real)
    requires spec.Valid() && Grounded(t, spec.tp)
    ensures var r := SampleSide(t, spec, theta0, theta, time, returning, side);
      var y := StrokeHeight(t, spec.tp, spec.h, spec.beta, theta - theta0);
      var u := StrokeRate(t, spec.tp, spec.h, spec.beta, theta - theta0);
      && r.Success?
      && r.value.s == (if returning then spec.h - y else y)
      && r.value.v == (if returning then -(spec.omega * u) else spec.omega * u)
  {
    hide EvalSide;
    var T := (theta - theta0) / spec.beta;
    LawAnswers(t, spec.tp, T, side);
    SideFree(t, spec.tp, T, side);
    RestoreParts(At(t, spec.tp, T, side), spec, theta, time, returning);
  }

  lemma LawAnswers(t: Circle, tp: LawName, T: real, side: real)
    requires Known(tp)
    ensures EvalSide(t, tp, T, side) == Success(At(t, tp, T, side))
  {
  }

  lemma RestoreParts(w: Values, spec: Spec, theta: real, time: real, returning: bool)
    requires spec.beta != 0.0
    ensures var m := Restore(w, spec.Factor(), spec, theta, time, returning);
      var v := spec.omega * (spec.h / spec.beta * w.y1);
      && m.s == (if returning then spec.h - spec.h * w.y else spec.h * w.y)
      && m.v == (if returning then -v else v)
  {
    SpeedIdentity(spec.h, spec.omega, spec.beta, w.y1);
  }

  /** Wherever a segment covers an angle, both of its sides give the stitched curve's displacement and
      velocity.  So at a shared boundary the choice of segment affects acceleration and jerk only. */
  lemma SegmentMatchesCurve(t: Circle, c: Config, kind: Kind, theta: real, side: real)
    requires Sound(t, c) && Covers(c, kind, theta)
    ensures Stitched(c).Usable()
    ensures var r := Stitched(c).SideMotion(t, SegmentOf(c, kind), theta, side);
      r.Success? && r.value.s == Height(t, c, theta) && r.value.v == c.omega * Rate(t, c, theta)
  {
    hide StrokeHeight, StrokeRate, SampleSide, StitchedList;
    StitchedUsable(c);
    OneStrokeMoves(t, c, theta);
    var sg := SegmentOf(c, kind);
    if kind == Rise || kind == Return {
      StrokeSample(t, sg.spec, sg.start, theta, sg.start / c.omega, kind == Return, side);
    }
  }

  // ---- Lookup ------------------------------------------------------------------------------------

  /** The exact condition under which the lookup never leaves the stitched curve: at a full turn it takes
      the last segment, so a kept inner dwell must have begun by then. */
  predicate Regular(c: Config) {
    c.innerDwell <= 0.0 || c.MotionEnd() <= FULL_TURN
  }

  /** The slack on the angle sum accepts turns that are not regular. */
  function LateDwell(): (c: Config)
    ensures c.Valid() && !Regular(c)
  {
    Config(Parabolic, Parabolic, 10.0, 180.0, 0.0, 180.0000000004, 0.0000000001, 360.0)
  }

  /** The lookup may resolve a tie either way, but always to a segment that covers the angle. */
  lemma LocateCovers(c: Config, theta: real)
    requires c.Valid() && 0.0 <= theta <= FULL_TURN && (theta < FULL_TURN || Regular(c))
    ensures Stitched(c).Usable()
    ensures var sg := Stitched(c).all[Stitched(c).LocateIndex(theta)];
            sg == SegmentOf(c, sg.kind) && Covers(c, sg.kind, theta)
  {
    hide StitchedList;
    StitchedUsable(c);
    ListInOrder(c);
    var b := Stitched(c);
    var d, h := b.FirstHit(theta, true, 0), b.FirstHit(theta, false, 0);
    if theta < FULL_TURN && d == |b.all| && h == |b.all| {
      NoHitLeavesLast(c, theta);
    }
  }

  lemma NoHitLeavesLast(c: Config, theta: real)
    requires c.Valid() && 0.0 <= theta
    requires forall k :: 0 <= k < |StitchedList(c)| ==> !Stitched(c).Hit(theta, false, k)
    ensures c.MotionEnd() <= theta
  {
    hide StitchedList;
    KeptNotHit(c, theta, Rise);
    if 0.0 < c.outerDwell {
      KeptNotHit(c, theta, OuterDwell);
    }
    KeptNotHit(c, theta, Return);
  }

  lemma KeptNotHit(c: Config, theta: real, kind: Kind)
    requires c.Valid() && Kept(c, kind)
    requires forall k :: 0 <= k < |StitchedList(c)| ==> !Stitched(c).Hit(theta, false, k)
    ensures !(SegmentOf(c, kind).start <= theta < SegmentOf(c, kind).end)
  {
    hide StitchedList;
    ListInOrder(c);
    var k :| 0 <= k < |StitchedList(c)| && StitchedList(c)[k] == SegmentOf(c, kind);
    assert !Stitched(c).Hit(theta, false, k);
  }

  /** `Point` is the side-0 value of the located segment. */
  lemma PointIsSideMotion(t: Circle, c: Config, theta: real)
    requires c.Valid() && 0.0 <= theta <= FULL_TURN
    ensures Stitched(c).Usable()
    ensures var b := Stitched(c);
            b.Point(t, theta) == b.SideMotion(t, b.all[b.LocateIndex(theta)], theta, 0.0)
  {
    hide StitchedList;
    StitchedUsable(c);
  }

  /** On the whole turn the list, the lookup, the clamp and the mirror compute the stitched curve. */
  lemma PointIsCurve(t: Circle, c: Config, theta: real)
    requires Sound(t, c) && 0.0 <= theta <= FULL_TURN && (theta < FULL_TURN || Regular(c))
    ensures Stitched(c).Usable()
    ensures var r := Stitched(c).Point(t, theta);
      r.Success? && r.value.s == Height(t, c, theta) && r.value.v == c.omega * Rate(t, c, theta)
  {
    hide StitchedList, Height, Rate, SampleSide, Sample;
    PointIsSideMotion(t, c, theta);
    LocateCovers(c, theta);
    var b := Stitched(c);
    SegmentMatchesCurve(t, c, b.all[b.LocateIndex(theta)].kind, theta, 0.0);
  }

  /** A full turn taken by an inner dwell that has not begun yet is reported at rest at 0. */
  lemma IrregularEnd(t: Circle, c: Config)
    requires Sound(t, c) && !Regular(c)
    ensures Stitched(c).Usable()
    ensures var r := Stitched(c).Point(t, FULL_TURN);
      r.Success? && r.value.s == 0.0 && r.value.v == 0.0
  {
    hide StitchedList;
    StitchedUsable(c);
    ListInOrder(c);
  }
}
