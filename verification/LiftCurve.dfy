/** The sampled lift: its discrete integral, its peaks, and its agreement with the stitched turn. */
module LiftCurve {
  import opened Reals
  import opened Trig
  import opened Law
  import opened LawShape
  import opened Kinematics
  import opened Cycle
  import opened CycleCurve
  import opened CyclePoint
  import opened WholeTurn
  import opened CurveTags
  import opened TurnShape
  import opened JointReport

  // ---- Discrete integral -------------------------------------------------------------------------

  /** Trapezoid sum of velocity against time over the first k intervals of a curve. */
  function Trapezoid(ms: seq<Motion>, k: nat): real
    requires k < |ms|
  {
    if k == 0 then 0.0
    else Trapezoid(ms, k - 1) + (ms[k - 1].v + ms[k].v) / 2.0 * (ms[k].time - ms[k - 1].time)
  }

  ghost predicate IsLift(t: Circle, spec: Spec, ms: seq<Motion>) {
    spec.Valid() && 2 <= |ms| && forall i :: 0 <= i < |ms| ==> ms[i] == GridMotion(t, spec, |ms|, i)
  }

  /** Velocity at grid point i of a parabolic lift over m steps, in units of h omega / (beta m). */
  function GridSlope(m: int, i: int): int {
    if 2 * i <= m then 4 * i else 4 * (m - i)
  }

  /** Displacement there, in units of h / m^2. */
  function GridHeight(m: int, i: int): int {
    if 2 * i <= m then 2 * i * i else m * m - 2 * (m - i) * (m - i)
  }

  /** What the trapezoid rule loses at the switch when the midpoint is not on the grid. */
  function Loss(m: int, i: int): int {
    if m % 2 == 1 && 2 * i > m then 1 else 0
  }

  lemma GridTimeTimes(n: int, i: int, m: real)
    requires 2 <= n && m == (n - 1) as real
    ensures Prod(GridTime(n, i), m) == i as real
  {
    DivMul(i as real, m);
  }

  /** The parabola at T = i / m, multiplied out. */
  lemma GridParabola(t: Circle, T: real, i: int, k: int, m: real)
    requires 0 <= i <= k && 0 < k && m == k as real && Prod(T, m) == i as real
    ensures 0.0 <= T <= 1.0
    ensures Prod(ParabolicAt(t, T, 0.0).y1, m) == GridSlope(k, i) as real
    ensures Prod(Prod(ParabolicAt(t, T, 0.0).y, m), m) == GridHeight(k, i) as real
  {
    hide Prod, ParabolicAt;
    ProdCancel(0.0, T, m);
    ProdCancel(T, 1.0, m);
    ProdCancel(T, 0.5, m);
    ProdCancel(0.5, T, m);
    ProdUnits(m);
    ParabolicHalves(t, T);
    var d := 1.0 - T;
    ProdLinear(m, 1.0, T);
    ProdLinear(m, d, T);
    ProdLinear(m, T, d);
    assert Prod(d, m) == (k - i) as real;
    if 2 * i <= k {
      assert T <= 0.5;
      LowerSlope(T, m, i, ParabolicAt(t, T, 0.0), GridHeight(k, i));
    } else {
      assert 0.5 <= T;
      UpperSlope(d, m, k - i, k, ParabolicAt(t, T, 0.0), GridHeight(k, i));
    }
  }

  lemma ProdUnits(m: real)
    ensures Prod(0.0, m) == 0.0 && Prod(1.0, m) == m && Prod(0.5, m) == m / 2.0
  {
  }

  lemma LowerSlope(T: real, m: real, i: int, w: Values, z: int)
    requires Prod(T, m) == i as real && w.y == 2.0 * T * T && w.y1 == 4.0 * T && z == 2 * i * i
    ensures Prod(w.y1, m) == (4 * i) as real
    ensures Prod(Prod(w.y, m), m) == z as real
  {
    assert Prod(Prod(w.y, m), m) == 2.0 * (Prod(T, m) * Prod(T, m));
    IntSquare(i);
  }

  lemma UpperSlope(d: real, m: real, i: int, k: int, w: Values, z: int)
    requires Prod(d, m) == i as real && m == k as real && z == k * k - 2 * i * i
    requires w.y == 1.0 - 2.0 * d * d && w.y1 == 4.0 * d
    ensures Prod(w.y1, m) == (4 * i) as real
    ensures Prod(Prod(w.y, m), m) == z as real
  {
    assert Prod(Prod(w.y, m), m) == m * m - 2.0 * (Prod(d, m) * Prod(d, m));
    IntSquare(i);
    IntSquare(k);
  }

  lemma IntSquare(i: int)
    ensures (i * i) as real == i as real * i as real
    ensures (2 * i * i) as real == 2.0 * (i as real * i as real)
  {
  }

  /** One more interval adds the mean of its two slopes, less the loss at the switch. */
  lemma HeightStep(m: int, k: int)
    requires 0 < k <= m
    ensures 2 * (GridHeight(m, k) - Loss(m, k))
         == 2 * (GridHeight(m, k - 1) - Loss(m, k - 1)) + GridSlope(m, k - 1) + GridSlope(m, k)
  {
    var j := k - 1;
    if 2 * k <= m {
      LowerHeightStep(k, GridHeight(m, k), GridHeight(m, j));
    } else if 2 * j > m {
      UpperHeightStep(m, m - k, GridHeight(m, k), GridHeight(m, j));
    } else if m == 2 * k - 1 {
      OddHeightStep(k, GridHeight(m, k), GridHeight(m, j));
    } else {
      assert m == 2 * k - 2;
      EvenHeightStep(k, GridHeight(m, k), GridHeight(m, j));
    }
  }

  lemma LowerHeightStep(k: int, a: int, b: int)
    requires a == 2 * k * k && b == 2 * (k - 1) * (k - 1)
    ensures a == b + 4 * k - 2
  {
  }

  lemma UpperHeightStep(m: int, r: int, a: int, b: int)
    requires a == m * m - 2 * r * r && b == m * m - 2 * (r + 1) * (r + 1)
    ensures a == b + 4 * r + 2
  {
  }

  lemma OddHeightStep(k: int, a: int, b: int)
    requires a == (2 * k - 1) * (2 * k - 1) - 2 * (k - 1) * (k - 1) && b == 2 * (k - 1) * (k - 1)
    ensures a == b + 4 * k - 3
  {
  }

  lemma EvenHeightStep(k: int, a: int, b: int)
    requires a == (2 * k - 2) * (2 * k - 2) - 2 * (k - 2) * (k - 2) && b == 2 * (k - 1) * (k - 1)
    ensures a == b + 4 * k - 6
  {
  }

  /** What a grid motion of a parabolic lift over m steps is, multiplied out. */
  lemma GridMotionTimes(t: Circle, spec: Spec, n: int, i: int, k: int, m: real)
    requires spec.Valid() && spec.tp == Parabolic && 2 <= n && 0 <= i < n && k == n - 1 && m == k as real
    ensures var g := GridMotion(t, spec, n, i);
      && Prod(g.v, m) == Prod(spec.Factor().v, GridSlope(k, i) as real)
      && Prod(Prod(g.s, m), m) == Prod(spec.h, GridHeight(k, i) as real)
      && Prod(Prod(g.time, m), spec.omega) == Prod(i as real, spec.beta)
  {
    hide ParabolicAt, GridTime, GridMotion, Prod, GridSlope, GridHeight;
    var T, g := GridTime(n, i), GridMotion(t, spec, n, i);
    GridTimeTimes(n, i, m);
    GridParabola(t, T, i, k, m);
    ParabolicParts(t, spec, n, i);
    var w := ParabolicAt(t, T, 0.0);
    TimesSlope(spec.Factor().v, w.y1, m, GridSlope(k, i) as real, g.v);
    TimesHeight(spec.h, w.y, m, GridHeight(k, i) as real, g.s);
    TimesTime(T, spec.beta, spec.omega, m, i as real, g.time);
  }

  lemma ParabolicParts(t: Circle, spec: Spec, n: int, i: int)
    requires spec.Valid() && spec.tp == Parabolic && 2 <= n && 0 <= i < n
    ensures var T, g := GridTime(n, i), GridMotion(t, spec, n, i);
      && g.v == Prod(spec.Factor().v, ParabolicAt(t, T, 0.0).y1)
      && g.s == Prod(spec.h, ParabolicAt(t, T, 0.0).y)
      && g.time == T * spec.beta / spec.omega
  {
    hide ParabolicAt, GridTime, Spec.Factor, Prod;
    GridTimeTimes(n, i, (n - 1) as real);
    ShareOfSteps(GridTime(n, i), i as real, (n - 1) as real);
  }

  lemma ShareOfSteps(T: real, i: real, m: real)
    requires 0.0 <= i <= m && 0.0 < m && Prod(T, m) == i
    ensures 0.0 <= T <= 1.0
  {
    hide Prod;
    ProdUnits(m);
    ProdCancel(0.0, T, m);
    ProdCancel(T, 1.0, m);
  }

  lemma TimesSlope(f: real, y: real, m: real, e: real, v: real)
    requires Prod(y, m) == e && v == Prod(f, y)
    ensures Prod(v, m) == Prod(f, e)
  {
  }

  lemma TimesHeight(h: real, y: real, m: real, z: real, s: real)
    requires Prod(Prod(y, m), m) == z && s == Prod(h, y)
    ensures Prod(Prod(s, m), m) == Prod(h, z)
  {
  }

  lemma TimesTime(T: real, b: real, omega: real, m: real, i: real, x: real)
    requires 0.0 < omega && Prod(T, m) == i && x == T * b / omega
    ensures Prod(Prod(x, m), omega) == Prod(i, b)
  {
    DivMul(T * b, omega);
    assert Prod(Prod(x, m), omega) == (x * omega) * m;
  }

  /** The area of one interval, multiplied out. */
  lemma IntervalArea(v: real, v': real, dt: real, m: real, f: real, e: real, e': real, h: real, area: real)
    requires Prod(v, m) == Prod(f, e) && Prod(v', m) == Prod(f, e') && Prod(f, Prod(dt, m)) == h
    requires area == (v + v') / 2.0 * dt
    ensures Prod(Prod(area, m), m) == Prod(h, (e + e') / 2.0)
  {
    assert Prod(Prod(area, m), m) == (Prod(v, m) + Prod(v', m)) / 2.0 * Prod(dt, m);
    assert Prod(h, (e + e') / 2.0) == (Prod(f, e) + Prod(f, e')) / 2.0 * Prod(dt, m);
  }

  /** Every interval of the grid takes the time in which f covers the lift once per step. */
  lemma IntervalTime(x: real, x': real, i: real, m: real, b: real, omega: real, h: real, f: real)
    requires 0.0 < omega && 0.0 < b && f == Prod(h, omega / b)
    requires Prod(Prod(x, m), omega) == Prod(i, b) && Prod(Prod(x', m), omega) == Prod(i + 1.0, b)
    ensures Prod(f, Prod(x' - x, m)) == h
  {
    var d := Prod(x' - x, m);
    assert d * omega == b by {
      assert d * omega == Prod(Prod(x', m), omega) - Prod(Prod(x, m), omega);
      assert Prod(i + 1.0, b) - Prod(i, b) == b;
    }
    DivMul(omega, b);
    CancelSpeed(f, d, omega, b, h, omega / b);
  }

  lemma CancelSpeed(f: real, d: real, omega: real, b: real, h: real, o: real)
    requires 0.0 < omega && 0.0 < b && d * omega == b && o * b == omega && f == Prod(h, o)
    ensures Prod(f, d) == h
  {
    hide Prod;
    UnitProduct(o, d, omega, b, Prod(o, d));
    Regroup(h, o, d);
    ProdLinear(h, 0.0, 0.0);
  }

  lemma UnitProduct(o: real, d: real, omega: real, b: real, od: real)
    requires 0.0 < omega && d * omega == b && o * b == omega && od == Prod(o, d)
    ensures od == 1.0
  {
    assert (od - 1.0) * omega == o * (d * omega) - omega;
    ZeroProduct(od - 1.0, omega);
  }

  lemma Regroup(h: real, o: real, d: real)
    ensures Prod(Prod(h, o), d) == Prod(h, Prod(o, d))
  {
  }

  lemma {:induction false} PrefixSum(t: Circle, spec: Spec, ms: seq<Motion>, k: nat, m: real)
    requires IsLift(t, spec, ms) && spec.tp == Parabolic && k < |ms| && m == (|ms| - 1) as real
    ensures Prod(Prod(Trapezoid(ms, k), m), m)
         == Prod(spec.h, (GridHeight(|ms| - 1, k) - Loss(|ms| - 1, k)) as real)
    decreases k
  {
    hide Prod, GridMotion, GridSlope, GridHeight, Loss;
    var n := |ms| - 1;
    if k == 0 {
      FirstHeight(n);
      ProdZeros(m, spec.h);
    } else {
      PrefixSum(t, spec, ms, k - 1, m);
      HeightStep(n, k);
      GridMotionTimes(t, spec, |ms|, k - 1, n, m);
      GridMotionTimes(t, spec, |ms|, k, n, m);
      var f := spec.Factor().v;
      IntervalTime(ms[k - 1].time, ms[k].time, (k - 1) as real, m, spec.beta, spec.omega, spec.h, f);
      var e, e' := GridSlope(n, k - 1) as real, GridSlope(n, k) as real;
      var area := Trapezoid(ms, k) - Trapezoid(ms, k - 1);
      IntervalArea(ms[k - 1].v, ms[k].v, ms[k].time - ms[k - 1].time, m, f, e, e', spec.h, area);
      AddTimes(Trapezoid(ms, k - 1), area, m, spec.h,
               (GridHeight(n, k - 1) - Loss(n, k - 1)) as real, (e + e') / 2.0, Trapezoid(ms, k),
               (GridHeight(n, k) - Loss(n, k)) as real);
    }
  }

  lemma FirstHeight(n: int)
    requires 0 < n
    ensures GridHeight(n, 0) == 0 && Loss(n, 0) == 0
  {
  }

  lemma ProdZeros(m: real, h: real)
    ensures Prod(Prod(0.0, m), m) == 0.0 && Prod(h, 0.0) == 0.0
  {
  }

  lemma AddTimes(x: real, y: real, m: real, h: real, z: real, w: real, s: real, zw: real)
    requires Prod(Prod(x, m), m) == Prod(h, z) && Prod(Prod(y, m), m) == Prod(h, w)
    requires s == x + y && zw == z + w
    ensures Prod(Prod(s, m), m) == Prod(h, zw)
  {
    assert Prod(Prod(s, m), m) == Prod(Prod(x, m), m) + Prod(Prod(y, m), m);
    assert Prod(h, zw) == Prod(h, z) + Prod(h, w);
  }

  /** The trapezoid rule on the sampled velocities of a parabolic lift reproduces the sampled displacement at
      every grid point, except that a grid without the midpoint loses h / (n - 1)^2 at the switch. */
  lemma VelocityIntegratesToDisplacement(t: Circle, spec: Spec, ms: seq<Motion>, k: nat)
    requires IsLift(t, spec, ms) && spec.tp == Parabolic && k < |ms|
    ensures var m := (|ms| - 1) as real;
      Trapezoid(ms, k) == ms[k].s - (if |ms| % 2 == 0 && 2 * k > |ms| - 1 then spec.h / m / m else 0.0)
  {
    hide Prod, GridMotion, GridHeight, GridSlope, Trapezoid, Spec.Factor;
    var n := |ms| - 1;
    var m := n as real;
    PrefixSum(t, spec, ms, k, m);
    GridMotionTimes(t, spec, |ms|, k, n, m);
    DivideTwice(Trapezoid(ms, k), ms[k].s, m, spec.h, GridHeight(n, k) as real, Loss(n, k) as real);
  }

  lemma DivideTwice(x: real, s: real, m: real, h: real, z: real, loss: real)
    requires 0.0 < m && Prod(Prod(x, m), m) == Prod(h, z - loss) && Prod(Prod(s, m), m) == Prod(h, z)
    requires loss == 0.0 || loss == 1.0
    ensures x == s - (if loss == 1.0 then h / m / m else 0.0)
  {
    hide Prod;
    var d := s - x;
    DifferenceTimes(x, s, m, h, z, loss);
    if loss == 1.0 {
      QuotientTwice(d, m, h);
    } else {
      QuotientTwice(d, m, 0.0);
    }
  }

  lemma DifferenceTimes(x: real, s: real, m: real, h: real, z: real, loss: real)
    requires Prod(Prod(x, m), m) == Prod(h, z - loss) && Prod(Prod(s, m), m) == Prod(h, z)
    requires loss == 0.0 || loss == 1.0
    ensures Prod(Prod(s - x, m), m) == if loss == 1.0 then h else 0.0
  {
    assert Prod(Prod(s - x, m), m) == Prod(Prod(s, m), m) - Prod(Prod(x, m), m);
    assert Prod(h, z) - Prod(h, z - loss) == h * loss;
  }

  lemma QuotientTwice(d: real, m: real, h: real)
    requires 0.0 < m && Prod(Prod(d, m), m) == h
    ensures d == h / m / m && (h == 0.0 ==> d == 0.0)
  {
    DivUnique(h, m, Prod(d, m));
    DivUnique(Prod(d, m), m, d);
    if h == 0.0 {
      ZeroProduct(Prod(d, m), m);
      ZeroProduct(d, m);
    }
  }

  /** Over the whole lift: exactly h on an odd number of points, h (1 - 1 / (n - 1)^2) on an even one. */
  lemma WholeLiftIntegral(t: Circle, spec: Spec, ms: seq<Motion>)
    requires IsLift(t, spec, ms) && spec.tp == Parabolic
    ensures var m := (|ms| - 1) as real;
      Trapezoid(ms, |ms| - 1) == if |ms| % 2 == 1 then spec.h else spec.h - spec.h / m / m
  {
    hide Trapezoid;
    VelocityIntegratesToDisplacement(t, spec, ms, |ms| - 1);
    var m := (|ms| - 1) as real;
    DivUnique(m, m, 1.0);
    assert ms[|ms| - 1] == GridMotion(t, spec, |ms|, |ms| - 1);
  }

  // ---- Peaks on the grid -----------------------------------------------------------------------------

  lemma LiftWithinPeaks(t: Circle, spec: Spec, n: int, i: int)
    requires spec.Valid() && Grounded(t, spec.tp) && 2 <= n
    ensures var g, p := GridMotion(t, spec, n, i), ClosedMotionPeaks(t, spec);
      p.Success? && Abs(g.v) <= p.value.vMax && Abs(g.a) <= p.value.aMax && Abs(g.j) <= p.value.jMax
  {
    hide EvalSide, ClosedPeaks, Spec.Factor;
    var T := GridTime(n, i);
    LawAnswers(t, spec.tp, T, 0.0);
    PeaksAnswer(t, spec.tp);
    LawWithinPeaks(t, spec.tp, T, 0.0);
    RestoreWithinPeaks(At(t, spec.tp, T, 0.0), Peak(t, spec.tp), spec, T * spec.beta, T * spec.beta / spec.omega,
                       false);
  }

  /** The dimensionless times at which each derivative peaks, in quarters. */
  function PeakQuarters(tp: LawName): (int, int, int) {
    match tp
    case Cosine => (2, 0, 2)
    case Cycloid => (2, 1, 0)
    case _ => (2, 0, 0)
  }

  lemma LawPeaksAtQuarters(t: Circle, tp: LawName)
    requires Grounded(t, tp)
    ensures var q, k := PeakQuarters(tp), Peak(t, tp);
      && At(t, tp, q.0 as real / 4.0, 0.0).y1 == k.v1
      && At(t, tp, q.1 as real / 4.0, 0.0).y2 == k.v2
      && At(t, tp, q.2 as real / 4.0, 0.0).y3 == (if tp == Cosine then -k.v3 else k.v3)
  {
    if !tp.Parabolic? {
      Reflections(t, 0.0);
      assert HalfTurn(t, 0.0) == 0.0 && HalfTurn(t, 0.5) == t.pi / 2.0;
      assert FullTurn(t, 0.0) == 0.0 && FullTurn(t, 0.25) == t.pi / 2.0 && FullTurn(t, 0.5) == t.pi;
    }
  }

  /** When the number of steps is a multiple of four, all three closed peaks are attained on the grid, so
      they are exactly the largest sampled values. */
  lemma PeaksAreAttained(t: Circle, spec: Spec, n: int)
    requires spec.Valid() && Grounded(t, spec.tp) && 2 <= n && (n - 1) % 4 == 0
    ensures var m, q, p := (n - 1) / 4, PeakQuarters(spec.tp), ClosedMotionPeaks(t, spec);
      && p.Success? && 0 <= q.0 * m < n && 0 <= q.1 * m < n && 0 <= q.2 * m < n
      && Abs(GridMotion(t, spec, n, q.0 * m).v) == p.value.vMax
      && Abs(GridMotion(t, spec, n, q.1 * m).a) == p.value.aMax
      && Abs(GridMotion(t, spec, n, q.2 * m).j) == p.value.jMax
  {
    hide EvalSide, ClosedPeaks, Spec.Factor, GridMotion, GridTime;
    var m, q, k := (n - 1) / 4, PeakQuarters(spec.tp), Peak(t, spec.tp);
    PeaksAnswer(t, spec.tp);
    LawPeaksAtQuarters(t, spec.tp);
    FactorsPositive(spec);
    PeaksNonNegative(t, spec.tp);
    QuarterMotion(t, spec, n, m, q.0);
    QuarterMotion(t, spec, n, m, q.1);
    QuarterMotion(t, spec, n, m, q.2);
    var f := spec.Factor();
    PeakSize(f.v, k.v1, GridMotion(t, spec, n, q.0 * m).v);
    PeakSize(f.a, k.v2, GridMotion(t, spec, n, q.1 * m).a);
    PeakSize(f.j, k.v3, GridMotion(t, spec, n, q.2 * m).j);
  }

  lemma PeakSize(f: real, k: real, x: real)
    requires 0.0 <= f && 0.0 <= k && (x == f * k || x == f * -k)
    ensures Abs(x) == f * k
  {
    MulNonNeg(f, k);
    assert f * -k == -(f * k);
  }

  lemma QuarterMotion(t: Circle, spec: Spec, n: int, m: int, q: int)
    requires spec.Valid() && 2 <= n && n - 1 == 4 * m && 0 <= q <= 2
    ensures 0 <= q * m < n
    ensures var g, w, f := GridMotion(t, spec, n, q * m), At(t, spec.tp, q as real / 4.0, 0.0), spec.Factor();
      g.v == f.v * w.y1 && g.a == f.a * w.y2 && g.j == f.j * w.y3
  {
    hide EvalSide, Spec.Factor;
    QuarterTime(n, m, q);
    LawAnswers(t, spec.tp, q as real / 4.0, 0.0);
  }

  lemma QuarterTime(n: int, m: int, q: int)
    requires 2 <= n && n - 1 == 4 * m && 0 <= q <= 2
    ensures 0 <= q * m < n && GridTime(n, q * m) == q as real / 4.0
  {
    assert (q * m) as real == q as real * m as real;
    DivUnique((q * m) as real, (n - 1) as real, q as real / 4.0);
  }

  // ---- The lift inside a turn -------------------------------------------------------------------------

  /** Strictly inside the rise a turn reports what the lift curve of the same stroke samples, although one
      finds the dimensionless time from the index and the other from the angle.  Only the time differs: the
      turn gives the start of the segment. */
  lemma LiftAgreesWithTurn(t: Circle, c: Config, n: int, i: int)
    requires Sound(t, c) && 2 <= n && 0 < i < n - 1
    ensures SegmentOf(c, Rise).spec.Valid()
    ensures var g := GridMotion(t, SegmentOf(c, Rise).spec, n, i);
      && 0.0 < g.theta < c.riseAngle
      && var m := MotionAt(t, c, g.theta);
         m.s == g.s && m.v == g.v && m.a == g.a && m.j == g.j && m.theta == g.theta && m.time == 0.0
  {
    hide StitchedList, Sample, Segments.LocateIndex, GridMotion, GridTime;
    StitchedUsable(c);
    var spec := SegmentOf(c, Rise).spec;
    var theta := GridMotion(t, spec, n, i).theta;
    SampleIsGrid(t, spec, n, i, theta, 0.0 / c.omega);
    InsideRise(GridTime(n, i), n, i, c.riseAngle, theta);
    LocateInside(c, theta, Rise);
    DivUnique(0.0, c.omega, 0.0);
  }

  lemma SampleIsGrid(t: Circle, spec: Spec, n: int, i: int, theta: real, time: real)
    requires spec.Valid() && 2 <= n && theta == GridMotion(t, spec, n, i).theta
    ensures theta == GridTime(n, i) * spec.beta
    ensures var r := Sample(t, spec, 0.0, theta, time, false);
      r.Success? && SameMotion(r.value, GridMotion(t, spec, n, i)) && r.value.time == time
  {
    hide EvalSide, Spec.Factor, GridTime;
    var T := GridTime(n, i);
    DivUnique(theta - 0.0, spec.beta, T);
    assert (theta - 0.0) / spec.beta == T;
    LawAnswers(t, spec.tp, T, 0.0);
  }

  lemma InsideRise(T: real, n: int, i: int, b: real, theta: real)
    requires 2 <= n && 0 < i < n - 1 && T == GridTime(n, i) && 0.0 < b && theta == T * b
    ensures 0.0 < theta < b
  {
    hide Prod, GridTime;
    var m := (n - 1) as real;
    GridTimeTimes(n, i, m);
    ProdUnits(m);
    ProdCancel(0.0, T, m);
    ProdCancel(T, 1.0, m);
    ProdPos(b, T);
    ProdPos(b, 1.0 - T);
    ProdLinear(b, 1.0, T);
    ThetaProduct(T, b, theta);
  }

  lemma ThetaProduct(T: real, b: real, theta: real)
    requires theta == T * b
    ensures theta == Prod(b, T)
  {
  }

  /** The seam reported for a lone parabolic lift shows the same displacement, velocity, acceleration and
      jerk on both sides, and the same verdicts, as the switch joint of the rise in a turn. */
  lemma LoneLiftSeam(t: Circle, c: Config)
    requires Sound(t, c) && c.riseLaw == Parabolic
    ensures Stitched(c).Usable()
    ensures var r, j := InternalSeams(t, SegmentOf(c, Rise).spec, 0.0), Stitched(c).SwitchJoint(t, SegmentOf(c, Rise));
      && r.Success? && |r.value| == 1 && j.Success?
      && var a, b := r.value[0], j.value.seam;
         && a.theta == b.theta && a.kind == b.kind == Switch
         && SameMotion(a.left, b.left) && SameMotion(a.right, b.right)
         && a.sCont == b.sCont && a.vCont == b.vCont && a.aCont == b.aCont && a.jCont == b.jCont
         && a.sJump == b.sJump
  {
    hide StitchedList, SampleSide, Agree, ClosedMotionPeaks;
    StitchedUsable(c);
    var sg := SegmentOf(c, Rise);
    SwitchSides(t, sg.spec, 0.0, 0.5 * sg.spec.beta / sg.spec.omega, false);
    SwitchSides(t, sg.spec, 0.0, 0.0 / c.omega, false);
    SwitchTime(t, sg.spec, 0.5 * sg.spec.beta / sg.spec.omega, 0.0 / c.omega, -1.0);
    SwitchTime(t, sg.spec, 0.5 * sg.spec.beta / sg.spec.omega, 0.0 / c.omega, 1.0);
  }

  predicate SameMotion(a: Motion, b: Motion) {
    a.theta == b.theta && a.s == b.s && a.v == b.v && a.a == b.a && a.j == b.j
  }

  lemma SwitchTime(t: Circle, spec: Spec, time: real, time': real, side: real)
    requires spec.Valid() && spec.tp == Parabolic
    ensures var theta := 0.0 + spec.beta / 2.0;
      var a := SampleSide(t, spec, 0.0, theta, time, false, side);
      var b := SampleSide(t, spec, 0.0, theta, time', false, side);
      a.Success? && b.Success? && SameMotion(a.value, b.value)
  {
    hide EvalSide;
    LawAnswers(t, spec.tp, (0.0 + spec.beta / 2.0 - 0.0) / spec.beta, side);
  }

  // ---- The reported time ---------------------------------------------------------------------------------

  /** Time never runs backwards.  It is theta / omega exactly on the dwells and where a stroke starts, and stands
      still in between.  It runs ahead of theta / omega only at a full turn that comes before the return starts. */
  lemma TimeLags(t: Circle, c: Config, x: real, y: real)
    requires Sound(t, c) && 0.0 <= x <= y <= FULL_TURN
    ensures Stitched(c).Usable()
    ensures MotionAt(t, c, x).time <= MotionAt(t, c, y).time
    ensures var sg, time := Stitched(c).all[Stitched(c).LocateIndex(x)], MotionAt(t, c, x).time;
      && time == (if IsDwell(sg.kind) then x else sg.start) / c.omega
      && (time == x / c.omega <==> IsDwell(sg.kind) || x == sg.start)
      && (time <= x / c.omega <==> x < FULL_TURN || 0.0 < c.innerDwell || c.ReturnStart() <= FULL_TURN)
  {
    hide StitchedList, Segments.LocateIndex, MotionAt;
    StitchedUsable(c);
    TimeOf(t, c, x);
    var sg := Stitched(c).all[Stitched(c).LocateIndex(x)];
    SameQuotient(sg.start, x, c.omega);
    if x < FULL_TURN {
      TimeOrder(t, c, x, y);
    } else {
      LastAnswers(c);
    }
  }

  /** It does run ahead: an accepted turn reports a time past the full turn. */
  lemma LateReturnTime(t: Circle)
    ensures FULL_TURN / LateReturn().omega < MotionAt(t, LateReturn(), FULL_TURN).time
  {
    hide MotionAt;
    TimeLags(t, LateReturn(), FULL_TURN, FULL_TURN);
  }

  lemma SameQuotient(x: real, y: real, omega: real)
    requires 0.0 < omega
    ensures x / omega <= y / omega <==> x <= y
    ensures x / omega == y / omega <==> x == y
  {
    DivMul(x, omega);
    DivMul(y, omega);
    if x <= y {
      DivMono(x, y, omega);
    } else {
      DivMono(y, x, omega);
    }
  }

  lemma LastAnswers(c: Config)
    requires c.Valid()
    ensures Stitched(c).Usable()
    ensures Stitched(c).all[Stitched(c).LocateIndex(FULL_TURN)]
         == SegmentOf(c, if 0.0 < c.innerDwell then InnerDwell else Return)
  {
    hide StitchedList;
    StitchedUsable(c);
    ListInOrder(c);
  }

  lemma TimeOrder(t: Circle, c: Config, x: real, y: real)
    requires Sound(t, c) && 0.0 <= x <= y <= FULL_TURN && x < FULL_TURN
    ensures Stitched(c).Usable()
    ensures Stitched(c).all[Stitched(c).LocateIndex(x)].start <= x
    ensures MotionAt(t, c, x).time <= MotionAt(t, c, y).time
  {
    hide StitchedList, Segments.LocateIndex, MotionAt;
    StitchedUsable(c);
    ListInOrder(c);
    LocatedBounds(c, x);
    LocateIsMonotone(c, x, y);
    var b := Stitched(c);
    var i, j := b.LocateIndex(x), b.LocateIndex(y);
    TimeOf(t, c, x);
    TimeOf(t, c, y);
    if i < j {
      EarlierEndsFirst(c, i, j);
    }
    DivMono(b.all[i].start, x, c.omega);
    DivMono(x, y, c.omega);
    DivMono(x, Max(x, b.all[j].start), c.omega);
    DivMono(b.all[i].start, y, c.omega);
  }

  lemma TimeOf(t: Circle, c: Config, theta: real)
    requires Sound(t, c) && 0.0 <= theta <= FULL_TURN
    ensures Stitched(c).Usable()
    ensures var sg := Stitched(c).all[Stitched(c).LocateIndex(theta)];
      MotionAt(t, c, theta).time == (if IsDwell(sg.kind) then theta else sg.start) / c.omega
  {
    hide StitchedList, Segments.LocateIndex, EvalSide, Spec.Factor;
    StitchedUsable(c);
    ListInOrder(c);
    var sg := Stitched(c).all[Stitched(c).LocateIndex(theta)];
    if !IsDwell(sg.kind) {
      LawAnswers(t, sg.spec.tp, (theta - sg.start) / sg.spec.beta, 0.0);
    }
  }
}
