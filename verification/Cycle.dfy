/** One turn of the cam: rise, outer dwell, return and inner dwell stitched into a list of segments, looked
    up by angle, sampled on a grid, and inspected at every joint. */
module Cycle {
  import opened Reals
  import opened Results
  import opened Trig
  import opened Law
  import opened Kinematics

  const ANGLE_SLACK := 0.000000001

  datatype Config = Config(riseLaw: LawName, returnLaw: LawName, h: real, riseAngle: real, outerDwell: real,
                           returnAngle: real, innerDwell: real, omega: real)
  {
    function Validate(): Result<()> {
      if !Known(riseLaw) then Failure(UnknownLaw)
      else if !Known(returnLaw) then Failure(UnknownLaw)
      else if h <= 0.0 then Failure(NonPositiveLift)
      else if omega <= 0.0 then Failure(NonPositiveSpeed)
      else
        var _ :- CheckMotionAngle(riseAngle);
        var _ :- CheckMotionAngle(returnAngle);
        var _ :- CheckDwellAngle(outerDwell);
        var _ :- CheckDwellAngle(innerDwell);
        if Abs(Total() - FULL_TURN) > ANGLE_SLACK then Failure(AnglesNotOneTurn)
        else Success(())
    }

    predicate Valid() {
      Validate().Success?
    }

    function Total(): real {
      riseAngle + outerDwell + returnAngle + innerDwell
    }

    /** The angle at which the return stroke starts. */
    function ReturnStart(): real {
      riseAngle + outerDwell
    }

    /** The angle at which the return stroke ends. */
    function MotionEnd(): real {
      riseAngle + outerDwell + returnAngle
    }
  }

  function CheckMotionAngle(b: real): Result<()> {
    if b <= 0.0 || b >= FULL_TURN then Failure(BadMotionAngle) else Success(())
  }

  function CheckDwellAngle(b: real): Result<()> {
    if b < 0.0 || b >= FULL_TURN then Failure(BadDwellAngle) else Success(())
  }

  datatype Kind = Rise | OuterDwell | Return | InnerDwell

  datatype Segment = Segment(kind: Kind, law: LawName, start: real, end: real, beta: real, spec: Spec)

  predicate IsDwell(kind: Kind) {
    kind == OuterDwell || kind == InnerDwell
  }

  const NO_LAW := Other("")

  function MakeSegment(c: Config, kind: Kind, tp: LawName, start: real, beta: real): Segment {
    Segment(kind, tp, start, start + beta, beta, Spec(tp, c.h, beta, c.omega))
  }

  /** The segments of a turn, dwells of angle 0 left out. */
  function StitchedList(c: Config): seq<Segment> {
    [MakeSegment(c, Rise, c.riseLaw, 0.0, c.riseAngle)]
    + (if c.outerDwell <= 0.0 then [] else [MakeSegment(c, OuterDwell, NO_LAW, c.riseAngle, c.outerDwell)])
    + [MakeSegment(c, Return, c.returnLaw, c.ReturnStart(), c.returnAngle)]
    + (if c.innerDwell <= 0.0 then [] else [MakeSegment(c, InnerDwell, NO_LAW, c.MotionEnd(), c.innerDwell)])
  }

  function Stitched(c: Config): Segments {
    Segments(StitchedList(c), c.Total())
  }

  /** The stitching in progress: the segments so far and the angle the next one starts at. */
  class Assembly {
    const c: Config
    var segs: seq<Segment>
    var pos: real

    constructor (c: Config)
      ensures this.c == c && segs == [] && pos == 0.0
    {
      this.c := c;
      segs := [];
      pos := 0.0;
    }

    method Push(kind: Kind, tp: LawName, beta: real)
      modifies this
      ensures segs == old(segs) + (if beta <= 0.0 then [] else [MakeSegment(c, kind, tp, old(pos), beta)])
      ensures pos == old(pos) + Max(beta, 0.0)
    {
      if beta <= 0.0 {
        return;
      }
      var spec := Spec(tp, c.h, beta, c.omega);
      segs := segs + [Segment(kind, tp, pos, pos + beta, beta, spec)];
      pos := pos + beta;
    }
  }

  method Build(c: Config) returns (r: Result<Segments>)
    ensures r == if c.Valid() then Success(Stitched(c)) else Failure(c.Validate().error)
  {
    var _ :- c.Validate();
    var asm := new Assembly(c);
    asm.Push(Rise, c.riseLaw, c.riseAngle);
    assert asm.pos == c.riseAngle;
    asm.Push(OuterDwell, NO_LAW, c.outerDwell);
    assert asm.pos == c.ReturnStart();
    asm.Push(Return, c.returnLaw, c.returnAngle);
    assert asm.pos == c.MotionEnd();
    asm.Push(InnerDwell, NO_LAW, c.innerDwell);
    assert asm.segs == StitchedList(c);
    return Success(Segments(asm.segs, asm.pos));
  }

  datatype CurveSample = CurveSample(segment: Kind, motion: Motion)

  datatype Joint = Joint(leftSegment: Kind, rightSegment: Kind, seam: Seam)

  function GridAngle(n: int, i: int): real
    requires 2 <= n
  {
    FULL_TURN * i as real / (n - 1) as real
  }

  function DwellMotion(level: real, theta: real, time: real): Motion {
    Motion(theta, time, level, 0.0, 0.0, 0.0)
  }

  datatype Segments = Segments(all: seq<Segment>, totalAngle: real) {
    predicate Usable() {
      all != [] && all[0].spec.omega != 0.0
    }

    // ---- Lookup ---------------------------------------------------------------------------

    /** The dwell pass takes a dwell with both its ends; the other pass takes any segment without its end. */
    predicate Hit(theta: real, dwellPass: bool, k: nat)
      requires k < |all|
    {
      if dwellPass then IsDwell(all[k].kind) && all[k].start <= theta <= all[k].end
      else all[k].start <= theta < all[k].end
    }

    function FirstHit(theta: real, dwellPass: bool, i: nat): (k: nat)
      requires i <= |all|
      ensures i <= k <= |all|
      ensures k < |all| ==> Hit(theta, dwellPass, k)
      ensures forall j :: i <= j < k ==> !Hit(theta, dwellPass, j)
      decreases |all| - i
    {
      if i == |all| || Hit(theta, dwellPass, i) then i else FirstHit(theta, dwellPass, i + 1)
    }

    function LocateIndex(theta: real): (k: nat)
      requires all != []
      ensures k < |all|
    {
      var d, h := FirstHit(theta, true, 0), FirstHit(theta, false, 0);
      if theta >= FULL_TURN then |all| - 1
      else if d < |all| then d
      else if h < |all| then h
      else |all| - 1
    }

    method Locate(theta: real) returns (sg: Segment)
      requires all != []
      ensures sg == all[LocateIndex(theta)]
    {
      if theta >= FULL_TURN {
        return all[|all| - 1];
      }
      for i := 0 to |all|
        invariant forall j :: 0 <= j < i ==> !Hit(theta, true, j)
      {
        if IsDwell(all[i].kind) && theta >= all[i].start && theta <= all[i].end {
          assert Hit(theta, true, i) && FirstHit(theta, true, 0) == i;
          return all[i];
        }
      }
      for i := 0 to |all|
        invariant forall j :: 0 <= j < i ==> !Hit(theta, false, j)
      {
        if theta >= all[i].start && theta < all[i].end {
          assert Hit(theta, false, i) && FirstHit(theta, false, 0) == i;
          return all[i];
        }
      }
      return all[|all| - 1];
    }

    // ---- Motion at an angle ---------------------------------------------------------------

    /** Motion segments report the time at which they start; dwells report theta / omega. */
    function Point(t: Circle, theta: real): Result<Motion>
      requires Usable()
    {
      if theta < 0.0 || theta > FULL_TURN + ANGLE_SLACK then Failure(AngleOutOfRange)
      else
        var theta := if theta > FULL_TURN then FULL_TURN else theta;
        var omega := all[0].spec.omega;
        var sg := all[LocateIndex(theta)];
        match sg.kind
        case OuterDwell => Success(DwellMotion(sg.spec.h, theta, theta / omega))
        case InnerDwell => Success(DwellMotion(0.0, theta, theta / omega))
        case Rise => Sample(t, sg.spec, sg.start, theta, sg.start / omega, false)
        case Return => Sample(t, sg.spec, sg.start, theta, sg.start / omega, true)
    }

    method Curve(t: Circle, points: int) returns (r: Result<seq<CurveSample>>)
      requires Usable()
      ensures r.Success? <==>
        points <= MAX_POINTS &&
        forall i :: 0 <= i < GridSize(points) ==> Point(t, GridAngle(GridSize(points), i)).Success?
      ensures r.Success? ==>
        var n := GridSize(points);
        && |r.value| == n
        && forall i :: 0 <= i < n ==>
             var theta := GridAngle(n, i);
             r.value[i] == CurveSample(all[LocateIndex(theta)].kind, Point(t, theta).value)
    {
      var n := points;
      if n < MIN_POINTS {
        n := MIN_POINTS;
      }
      if n > MAX_POINTS {
        return Failure(TooManyPoints);
      }
      var out := new CurveSample[n](_ => CurveSample(Rise, DwellMotion(0.0, 0.0, 0.0)));
      for i := 0 to n
        invariant forall k :: 0 <= k < i ==> Point(t, GridAngle(n, k)).Success?
        invariant forall k :: 0 <= k < i ==>
          out[k] == CurveSample(all[LocateIndex(GridAngle(n, k))].kind, Point(t, GridAngle(n, k)).value)
      {
        var theta := GridAngle(n, i);
        var m := Point(t, theta);
        if m.Failure? {
          assert !Point(t, GridAngle(GridSize(points), i)).Success?;
          return Failure(m.error);
        }
        var sg := Locate(theta);
        out[i] := CurveSample(sg.kind, m.value);
      }
      return Success(out[..]);
    }

    // ---- Joints ---------------------------------------------------------------------------

    function SideMotion(t: Circle, sg: Segment, theta: real, side: real): Result<Motion>
      requires Usable()
    {
      var omega := all[0].spec.omega;
      var tLocal := sg.start / omega;
      match sg.kind
      case OuterDwell => Success(DwellMotion(sg.spec.h, theta, theta / omega))
      case InnerDwell => Success(DwellMotion(0.0, theta, theta / omega))
      case Rise => SampleSide(t, sg.spec, sg.start, theta, tLocal, false, side)
      case Return => SampleSide(t, sg.spec, sg.start, theta, tLocal, true, side)
    }

    function BoundaryJoint(t: Circle, i: nat): Result<Joint>
      requires Usable() && i + 1 < |all|
    {
      var left, right := all[i], all[i + 1];
      var lv :- SideMotion(t, left, left.end, 1.0);
      var rv :- SideMotion(t, right, right.start, -1.0);
      Success(Joint(left.kind, right.kind, Join(left.end, Boundary, lv, rv)))
    }

    function SwitchJoint(t: Circle, sg: Segment): Result<Joint>
      requires Usable()
    {
      var returning := sg.kind == Return;
      var theta := sg.start + sg.beta / 2.0;
      var tm := sg.start / all[0].spec.omega;
      var lv :- SampleSide(t, sg.spec, sg.start, theta, tm, returning, -1.0);
      var rv :- SampleSide(t, sg.spec, sg.start, theta, tm, returning, 1.0);
      Success(Joint(sg.kind, sg.kind, Join(theta, Switch, lv, rv)))
    }

    function CyclicJoint(t: Circle): Result<Joint>
      requires Usable()
    {
      var last, first := all[|all| - 1], all[0];
      var lv :- SideMotion(t, last, FULL_TURN, 1.0);
      var rv :- SideMotion(t, first, 0.0, -1.0);
      Success(Joint(last.kind, first.kind, Join(FULL_TURN, Cyclic, lv, rv)))
    }

    /** The joints between the first n + 1 segments. */
    function BoundaryJoints(t: Circle, n: nat): Result<seq<Joint>>
      requires Usable() && n < |all|
    {
      if n == 0 then Success([])
      else
        var js :- BoundaryJoints(t, n - 1);
        var j :- BoundaryJoint(t, n - 1);
        Success(js + [j])
    }

    /** The law switches inside the first n segments. */
    function SwitchJoints(t: Circle, n: nat): Result<seq<Joint>>
      requires Usable() && n <= |all|
    {
      if n == 0 then Success([])
      else
        var js :- SwitchJoints(t, n - 1);
        if all[n - 1].law != Parabolic then Success(js)
        else
          var j :- SwitchJoint(t, all[n - 1]);
          Success(js + [j])
    }

    function JointList(t: Circle): Result<seq<Joint>>
      requires Usable()
    {
      var bs :- BoundaryJoints(t, |all| - 1);
      var ss :- SwitchJoints(t, |all|);
      var cy :- CyclicJoint(t);
      Success(bs + ss + [cy])
    }

    lemma BoundaryFailureSticks(t: Circle, n: nat, m: nat)
      requires Usable() && n <= m < |all| && BoundaryJoints(t, n).Failure?
      ensures BoundaryJoints(t, m) == BoundaryJoints(t, n)
    {
    }

    lemma SwitchFailureSticks(t: Circle, n: nat, m: nat)
      requires Usable() && n <= m <= |all| && SwitchJoints(t, n).Failure?
      ensures SwitchJoints(t, m) == SwitchJoints(t, n)
    {
    }

    method Discontinuities(t: Circle) returns (r: Result<seq<Joint>>)
      requires Usable()
      ensures r == JointList(t)
    {
      hide BoundaryJoint, SwitchJoint, CyclicJoint;
      var joints := [];
      var i := 0;
      while i + 1 < |all|
        invariant 0 <= i < |all|
        invariant BoundaryJoints(t, i) == Success(joints)
      {
        var j := BoundaryJoint(t, i);
        if j.Failure? {
          BoundaryFailureSticks(t, i + 1, |all| - 1);
          return Failure(j.error);
        }
        joints := joints + [j.value];
        i := i + 1;
      }
      ghost var bs := joints;
      ghost var ss := [];
      for k := 0 to |all|
        invariant SwitchJoints(t, k) == Success(ss) && joints == bs + ss
      {
        if all[k].law == Parabolic {
          var j := SwitchJoint(t, all[k]);
          if j.Failure? {
            SwitchFailureSticks(t, k + 1, |all|);
            return Failure(j.error);
          }
          joints := joints + [j.value];
          ss := ss + [j.value];
        }
      }
      var cy :- CyclicJoint(t);
      joints := joints + [cy];
      return Success(joints);
    }
  }

  method HasDisplacementJump(joints: seq<Joint>) returns (jump: bool)
    ensures jump <==> exists k :: 0 <= k < |joints| && joints[k].seam.sJump
  {
    for i := 0 to |joints|
      invariant forall k :: 0 <= k < i ==> !joints[k].seam.sJump
    {
      if joints[i].seam.sJump {
        return true;
      }
    }
    return false;
  }
}
