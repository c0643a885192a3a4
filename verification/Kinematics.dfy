/** Dimensional motion of one segment: rescaling by lift, angle and speed, the return-stroke mirror, the
    sampled lift curve, and the tolerance verdict on a seam. */
module Kinematics {
  import opened Reals
  import opened Results
  import opened Trig
  import opened Law

  const FULL_TURN := 360.0
  const MIN_POINTS := 2
  const MAX_POINTS := 200001

  datatype Spec = Spec(tp: LawName, h: real, beta: real, omega: real) {
    function Validate(): Result<()> {
      if !Known(tp) then Failure(UnknownLaw)
      else if h <= 0.0 then Failure(NonPositiveLift)
      else if beta <= 0.0 || beta >= FULL_TURN then Failure(BadMotionAngle)
      else if omega <= 0.0 then Failure(NonPositiveSpeed)
      else Success(())
    }

    predicate Valid() {
      Validate().Success?
    }

    function Factor(): Scales
      requires beta != 0.0
    {
      var o := omega / beta;
      Scales(Prod(h, o), Prod(Prod(h, o), o), Prod(Prod(Prod(h, o), o), o))
    }
  }

  datatype Motion = Motion(theta: real, time: real, s: real, v: real, a: real, j: real)

  /** Multipliers of the three dimensionless derivatives. */
  datatype Scales = Scales(v: real, a: real, j: real)

  /** A return stroke mirrors displacement about h and negates the derivatives. */
  function Restore(w: Values, f: Scales, spec: Spec, theta: real, time: real, returning: bool): Motion {
    var m := Motion(theta, time, Prod(spec.h, w.y), Prod(f.v, w.y1), Prod(f.a, w.y2), Prod(f.j, w.y3));
    if returning then m.(s := spec.h - m.s, v := -m.v, a := -m.a, j := -m.j) else m
  }

  function SampleSide(t: Circle, spec: Spec, theta0: real, theta: real, time: real, returning: bool, side: real)
    : Result<Motion>
  {
    var _ :- spec.Validate();
    var w :- EvalSide(t, spec.tp, (theta - theta0) / spec.beta, side);
    Success(Restore(w, spec.Factor(), spec, theta, time, returning))
  }

  function Sample(t: Circle, spec: Spec, theta0: real, theta: real, time: real, returning: bool): Result<Motion> {
    var _ :- spec.Validate();
    var w :- Eval(t, spec.tp, (theta - theta0) / spec.beta);
    Success(Restore(w, spec.Factor(), spec, theta, time, returning))
  }

  datatype MotionPeaks = MotionPeaks(vMax: real, aMax: real, jMax: real)

  function ClosedMotionPeaks(t: Circle, spec: Spec): Result<MotionPeaks> {
    var _ :- spec.Validate();
    var p :- ClosedPeaks(t, spec.tp);
    var f := spec.Factor();
    Success(MotionPeaks(Prod(f.v, p.v1), Prod(f.a, p.v2), Prod(f.j, p.v3)))
  }

  // ---- Sampled lift curve -----------------------------------------------------------------

  /** Dimensionless time of grid point i on a grid of n points. */
  function GridTime(n: int, i: int): real
    requires 2 <= n
  {
    i as real / (n - 1) as real
  }

  function GridMotion(t: Circle, spec: Spec, n: int, i: int): Motion
    requires spec.Valid() && 2 <= n
  {
    var T := GridTime(n, i);
    Restore(Eval(t, spec.tp, T).value, spec.Factor(), spec, T * spec.beta, T * spec.beta / spec.omega, false)
  }

  function GridSize(points: int): int {
    if points < MIN_POINTS then MIN_POINTS else points
  }

  /** A valid specification names a law, so the law answers everywhere. */
  lemma SpecAnswers(t: Circle, spec: Spec)
    ensures spec.Valid() ==> ClosedMotionPeaks(t, spec).Success?
    ensures spec.Valid() ==> forall T :: Eval(t, spec.tp, T).Success?
  {
  }

  lemma GridMotionParts(t: Circle, spec: Spec, n: int, i: int, T: real, theta: real, time: real)
    requires spec.Valid() && 2 <= n && T == GridTime(n, i)
    requires theta == T * spec.beta && time == T * spec.beta / spec.omega
    ensures GridMotion(t, spec, n, i) == Restore(Eval(t, spec.tp, T).value, spec.Factor(), spec, theta, time, false)
  {
    hide EvalSide, Spec.Factor, GridTime;
  }

  method Curve(t: Circle, spec: Spec, points: int) returns (r: Result<(seq<Motion>, MotionPeaks)>)
    ensures r.Success? <==> spec.Valid() && points <= MAX_POINTS
    ensures r.Failure? ==> r.error == if spec.Valid() then TooManyPoints else spec.Validate().error
    ensures r.Success? ==>
      var n := GridSize(points);
      && |r.value.0| == n
      && (forall i :: 0 <= i < n ==> r.value.0[i] == GridMotion(t, spec, n, i))
      && Success(r.value.1) == ClosedMotionPeaks(t, spec)
  {
    hide Restore, EvalSide, ClosedPeaks, Spec.Factor, GridTime, GridMotion;
    SpecAnswers(t, spec);
    var _ :- spec.Validate();
    var n := points;
    if n < MIN_POINTS {
      n := MIN_POINTS;
    }
    if n > MAX_POINTS {
      return Failure(TooManyPoints);
    }
    var f := spec.Factor();
    var out := new Motion[n];
    for i := 0 to n
      invariant forall k :: 0 <= k < i ==> out[k] == GridMotion(t, spec, n, k)
    {
      var T := GridTime(n, i);
      var w := Eval(t, spec.tp, T).value;  // the law is known by now
      var theta := T * spec.beta;
      var time := T * spec.beta / spec.omega;
      GridMotionParts(t, spec, n, i, T, theta, time);
      out[i] := Restore(w, f, spec, theta, time, false);
    }
    return Success((out[..], ClosedMotionPeaks(t, spec).value));
  }

  // ---- Seams ------------------------------------------------------------------------------

  datatype SeamKind = Boundary | Switch | Cyclic

  datatype Seam = Seam(theta: real, kind: SeamKind, left: Motion, right: Motion,
                       sCont: bool, vCont: bool, aCont: bool, jCont: bool, sJump: bool)

  const SEAM_REL_TOL := 0.000000001
  const SEAM_ABS_FLOOR := 0.000000000001

  predicate ApproxEqual(x: real, y: real, scale: real) {
    Abs(x - y) <= SEAM_ABS_FLOOR + SEAM_REL_TOL * scale
  }

  /** Equality of two quantities on the scale of the larger one. */
  predicate Agree(x: real, y: real) {
    ApproxEqual(x, y, Max(Abs(x), Abs(y)))
  }

  function Join(theta: real, kind: SeamKind, left: Motion, right: Motion): Seam {
    var sCont := Agree(left.s, right.s);
    Seam(theta, kind, left, right, sCont, Agree(left.v, right.v), Agree(left.a, right.a),
         Agree(left.j, right.j), !sCont)
  }

  /** Seams inside a single lift: the acceleration switch of the parabolic law, or none. */
  function InternalSeams(t: Circle, spec: Spec, theta0: real): Result<seq<Seam>> {
    var _ :- spec.Validate();
    if spec.tp != Parabolic then Success([])
    else
      var tMid := 0.5 * spec.beta / spec.omega;
      var theta := theta0 + spec.beta / 2.0;
      var left :- SampleSide(t, spec, theta0, theta, tMid, false, -1.0);
      var right :- SampleSide(t, spec, theta0, theta, tMid, false, 1.0);
      Success([Join(theta, Switch, left, right)])
  }
}
