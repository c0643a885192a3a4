/** Each reported quantity is the derivative of the one before it: acceleration of velocity and jerk of
    acceleration, inside every smooth piece of a stroke. */
module Derivatives {
  import opened Reals
  import opened Trig
  import opened Smooth
  import opened Law
  import opened LawShape
  import opened Kinematics
  import opened CyclePoint
  import opened WholeTurn
  import opened JointClass
  import opened Scaling

  /** The half of the parabolic law that answers at T from the given side. */
  predicate FirstHalf(T: real, side: real) {
    T < 0.5 || (T == 0.5 && side <= 0.0)
  }

  /** T and U lie in one smooth piece of the law, seen from the given side: the parabolic law has two. */
  predicate SamePiece(tp: LawName, T: real, U: real, side: real) {
    0.0 <= T <= 1.0 && 0.0 <= U <= 1.0 && (tp == Parabolic ==> FirstHalf(T, side) == FirstHalf(U, side))
  }

  /** A bound on the fourth derivative. */
  function Snap(t: Circle, tp: LawName): real {
    match tp
    case Cosine => Square(Square(t.pi)) / 2.0
    case Cycloid => 8.0 * Prod(Square(t.pi), t.pi)
    case _ => 0.0
  }

  /** From a to b over the step d, y2 is the derivative of y1 and y3 that of y2. */
  ghost predicate HigherStep(a: Values, b: Values, d: real, jerk: real, snap: real) {
    Remainder(d, b.y1 - a.y1, a.y2, jerk) && Remainder(d, b.y2 - a.y2, a.y3, snap)
  }

  lemma ScaledRemainder(x: real, d: real, k: real, e: real, g: real, dy: real, u: real, bend: real)
    requires d == k * x && Abs(e) <= d * d / 2.0 && 0.0 <= g
    requires dy - u * x == g * e || dy - u * x == -(g * e)
    requires bend == g * (k * k)
    ensures Remainder(x, dy, u, bend)
  {
    AbsMul(g, e);
    MulMono(Abs(e), d * d / 2.0, g);
    assert d * d / 2.0 * g == bend / 2.0 * (x * x);
  }

  lemma CosineHigher(t: Circle, T: real, U: real)
    requires Lawful(t)
    ensures HigherStep(CosineAt(t, T), CosineAt(t, U), U - T, Peak(t, Cosine).v3, Snap(t, Cosine))
  {
    hide Lawful, ArcStep, HigherStep, HalfTurn, CosineAt, Peak, Snap, CosineForm;
    var p, q := HalfTurn(t, T), HalfTurn(t, U);
    HalfTurnShift(t, T, U);
    ArcIsSmooth(t, p, q);
    CosineFields(t, T, U);
    CosineHigherNumbers(t.pi, U - T, q - p, t.cos(p), t.cos(q), t.sin(p), t.sin(q), CosineAt(t, T), CosineAt(t, U),
                        Peak(t, Cosine).v3, Snap(t, Cosine));
  }

  /** The fields of two cosine values, with the powers of pi in closed form. */
  ghost predicate CosineForm(k: real, a: Values, b: Values, c: real, c': real, s: real, s': real,
                             jerk: real, snap: real)
  {
    && a.y1 == k / 2.0 * s && b.y1 == k / 2.0 * s' && a.y2 == k * k / 2.0 * c && b.y2 == k * k / 2.0 * c'
    && a.y3 == -(k * k * k / 2.0) * s && jerk == k * k * k / 2.0 && snap == k * k * k * k / 2.0
  }

  lemma CosineFields(t: Circle, T: real, U: real)
    ensures CosineForm(t.pi, CosineAt(t, T), CosineAt(t, U), t.cos(HalfTurn(t, T)), t.cos(HalfTurn(t, U)),
                       t.sin(HalfTurn(t, T)), t.sin(HalfTurn(t, U)), Peak(t, Cosine).v3, Snap(t, Cosine))
  {
  }

  lemma CosineHigherNumbers(k: real, x: real, d: real, c: real, c': real, s: real, s': real, a: Values, b: Values,
                            jerk: real, snap: real)
    requires 0.0 < k && d == Prod(k, x) && ArcStep(d, c, c', s, s')
    requires CosineForm(k, a, b, c, c', s, s', jerk, snap)
    ensures HigherStep(a, b, x, jerk, snap)
  {
    hide Remainder;
    CosineJerk(k, x, d, c, s, s', a.y1, b.y1, a.y2, jerk);
    CosineSnap(k, x, d, s, c, c', a.y2, b.y2, a.y3, snap);
  }

  lemma CosineJerk(k: real, x: real, d: real, c: real, s: real, s': real, y: real, y': real, u: real, bend: real)
    requires 0.0 < k && d == k * x && Abs(s' - s - Prod(c, d)) <= Square(d) / 2.0
    requires y == k / 2.0 * s && y' == k / 2.0 * s' && u == k * k / 2.0 * c && bend == k * k * k / 2.0
    ensures Remainder(x, y' - y, u, bend)
  {
    hide Remainder;
    var e := s' - s - c * d;
    assert y' - y - u * x == k / 2.0 * e;
    ScaledRemainder(x, d, k, e, k / 2.0, y' - y, u, bend);
  }

  lemma CosineSnap(k: real, x: real, d: real, s: real, c: real, c': real, y: real, y': real, u: real, bend: real)
    requires 0.0 < k && d == k * x && Abs(c' - c + Prod(s, d)) <= Square(d) / 2.0
    requires y == k * k / 2.0 * c && y' == k * k / 2.0 * c' && u == -(k * k * k / 2.0) * s
    requires bend == k * k * k * k / 2.0
    ensures Remainder(x, y' - y, u, bend)
  {
    hide Remainder;
    var e := c' - c + s * d;
    assert y' - y - u * x == k * k / 2.0 * e;
    ScaledRemainder(x, d, k, e, k * k / 2.0, y' - y, u, bend);
  }

  lemma CycloidHigher(t: Circle, T: real, U: real)
    requires Lawful(t)
    ensures HigherStep(CycloidAt(t, T), CycloidAt(t, U), U - T, Peak(t, Cycloid).v3, Snap(t, Cycloid))
  {
    hide Lawful, ArcStep, HigherStep, FullTurn, CycloidAt, Peak, Snap, CycloidForm;
    var p, q := FullTurn(t, T), FullTurn(t, U);
    FullTurnShift(t, T, U);
    ArcIsSmooth(t, p, q);
    CycloidFields(t, T, U);
    CycloidHigherNumbers(2.0 * t.pi, U - T, q - p, t.cos(p), t.cos(q), t.sin(p), t.sin(q), CycloidAt(t, T),
                         CycloidAt(t, U), Peak(t, Cycloid).v3, Snap(t, Cycloid));
  }

  ghost predicate CycloidForm(k: real, a: Values, b: Values, c: real, c': real, s: real, s': real,
                              jerk: real, snap: real)
  {
    && a.y1 == 1.0 - c && b.y1 == 1.0 - c' && a.y2 == k * s && b.y2 == k * s'
    && a.y3 == k * k * c && jerk == k * k && snap == k * k * k
  }

  lemma CycloidFields(t: Circle, T: real, U: real)
    ensures CycloidForm(2.0 * t.pi, CycloidAt(t, T), CycloidAt(t, U), t.cos(FullTurn(t, T)), t.cos(FullTurn(t, U)),
                        t.sin(FullTurn(t, T)), t.sin(FullTurn(t, U)), Peak(t, Cycloid).v3, Snap(t, Cycloid))
  {
  }

  lemma CycloidHigherNumbers(k: real, x: real, d: real, c: real, c': real, s: real, s': real, a: Values, b: Values,
                             jerk: real, snap: real)
    requires 0.0 < k && d == Prod(k, x) && ArcStep(d, c, c', s, s')
    requires CycloidForm(k, a, b, c, c', s, s', jerk, snap)
    ensures HigherStep(a, b, x, jerk, snap)
  {
    hide Remainder;
    CycloidJerk(k, x, d, s, c, c', a.y1, b.y1, a.y2, jerk);
    CycloidSnap(k, x, d, c, s, s', a.y2, b.y2, a.y3, snap);
  }

  lemma CycloidJerk(k: real, x: real, d: real, s: real, c: real, c': real, y: real, y': real, u: real, bend: real)
    requires 0.0 < k && d == k * x && Abs(c' - c + Prod(s, d)) <= Square(d) / 2.0
    requires y == 1.0 - c && y' == 1.0 - c' && u == k * s && bend == k * k
    ensures Remainder(x, y' - y, u, bend)
  {
    hide Remainder;
    var e := c' - c + s * d;
    assert y' - y - u * x == -(1.0 * e);
    ScaledRemainder(x, d, k, e, 1.0, y' - y, u, bend);
  }

  lemma CycloidSnap(k: real, x: real, d: real, c: real, s: real, s': real, y: real, y': real, u: real, bend: real)
    requires 0.0 < k && d == k * x && Abs(s' - s - Prod(c, d)) <= Square(d) / 2.0
    requires y == k * s && y' == k * s' && u == k * k * c && bend == k * k * k
    ensures Remainder(x, y' - y, u, bend)
  {
    hide Remainder;
    var e := s' - s - c * d;
    assert y' - y - u * x == k * e;
    ScaledRemainder(x, d, k, e, k, y' - y, u, bend);
  }

  lemma ParabolicHigher(t: Circle, T: real, U: real, side: real)
    requires SamePiece(Parabolic, T, U, side)
    ensures HigherStep(ParabolicAt(t, T, side), ParabolicAt(t, U, side), U - T, 0.0, 0.0)
  {
  }

  /** The law's second derivative is the derivative of its first, its third that of its second. */
  lemma LawDerivatives(t: Circle, tp: LawName, T: real, U: real, side: real)
    requires Grounded(t, tp) && SamePiece(tp, T, U, side)
    ensures HigherStep(At(t, tp, T, side), At(t, tp, U, side), U - T, Peak(t, tp).v3, Snap(t, tp))
  {
    hide HigherStep, CosineAt, CycloidAt, ParabolicAt;
    match tp
    case Cosine => CosineHigher(t, T, U);
    case Cycloid => CycloidHigher(t, T, U);
    case Parabolic => ParabolicHigher(t, T, U, side);
  }

  /** In dimensional terms, between two angles of one smooth piece of a stroke, rising or returning: the
      reported acceleration predicts the velocity with an error bounded by the closed jerk peak, and the
      reported jerk predicts the acceleration. */
  lemma StrokeDerivatives(t: Circle, spec: Spec, theta0: real, x: real, y: real, tx: real, ty: real,
                          returning: bool, side: real)
    requires spec.Valid() && Grounded(t, spec.tp)
    requires SamePiece(spec.tp, (x - theta0) / spec.beta, (y - theta0) / spec.beta, side)
    ensures var m := SampleSide(t, spec, theta0, x, tx, returning, side);
      var n := SampleSide(t, spec, theta0, y, ty, returning, side);
      var p := ClosedMotionPeaks(t, spec);
      && m.Success? && n.Success? && p.Success?
      && Remainder(y - x, n.value.v - m.value.v, m.value.a / spec.omega, p.value.jMax / spec.omega / spec.omega)
      && Remainder(y - x, n.value.a - m.value.a, m.value.j / spec.omega, SnapMax(t, spec))
  {
    hide EvalSide, ClosedPeaks, Remainder, Spec.Factor, Snap, Restore, SnapMax;
    var T, U := (x - theta0) / spec.beta, (y - theta0) / spec.beta;
    LawDerivatives(t, spec.tp, T, U, side);
    LawAnswers(t, spec.tp, T, side);
    LawAnswers(t, spec.tp, U, side);
    PeaksAnswer(t, spec.tp);
    StepShare(theta0, x, y, spec.beta);
    RestoreDerivatives(t, At(t, spec.tp, T, side), At(t, spec.tp, U, side), spec, x, y, U - T,
                       Restore(At(t, spec.tp, T, side), spec.Factor(), spec, x, tx, returning),
                       Restore(At(t, spec.tp, U, side), spec.Factor(), spec, y, ty, returning),
                       tx, ty, returning, ClosedMotionPeaks(t, spec).value.jMax);
  }

  lemma StepShare(theta0: real, x: real, y: real, b: real)
    requires 0.0 < b
    ensures (y - theta0) / b - (x - theta0) / b == (y - x) / b
  {
    DivSub(y - theta0, x - theta0, b);
    assert (y - theta0) - (x - theta0) == y - x;
  }

  /** The curvature bound of the acceleration, per degree. */
  function SnapMax(t: Circle, spec: Spec): real
    requires spec.Valid()
  {
    Prod(spec.Factor().a / spec.beta, Snap(t, spec.tp) / spec.beta)
  }

  lemma RestoreDerivatives(t: Circle, w: Values, w': Values, spec: Spec, x: real, y: real, r: real,
                           m: Motion, n: Motion, tx: real, ty: real, returning: bool, jMax: real)
    requires spec.Valid() && HigherStep(w, w', r, Peak(t, spec.tp).v3, Snap(t, spec.tp)) && r == (y - x) / spec.beta
    requires m == Restore(w, spec.Factor(), spec, x, tx, returning)
    requires n == Restore(w', spec.Factor(), spec, y, ty, returning)
    requires jMax == Prod(spec.Factor().j, Peak(t, spec.tp).v3)
    ensures Remainder(y - x, n.v - m.v, m.a / spec.omega, jMax / spec.omega / spec.omega)
    ensures Remainder(y - x, n.a - m.a, m.j / spec.omega, SnapMax(t, spec))
  {
    hide Remainder, Spec.Factor, Restore, Mirrored, Peak, Snap, Prod;
    var b, omega, f, o := spec.beta, spec.omega, spec.Factor(), spec.omega / spec.beta;
    FactorsStrict(spec);
    FactorLadder(spec);
    RestoreOpen(w, f, spec, x, tx, returning);
    RestoreOpen(w', f, spec, y, ty, returning);
    MirroredDifference(f.v, w.y1, w'.y1, returning);
    MirroredDifference(f.a, w.y2, w'.y2, returning);
    JerkQuotient(f.v, f.a, f.j, omega, b, Peak(t, spec.tp).v3, jMax);
    DerivativeStep(y - x, r, b, omega, f.v, f.a, o, w'.y1 - w.y1, w.y2, Peak(t, spec.tp).v3, returning,
                   n.v - m.v, m.a, jMax / omega / omega);
    DerivativeStep(y - x, r, b, omega, f.a, f.j, o, w'.y2 - w.y2, w.y3, Snap(t, spec.tp), returning,
                   n.a - m.a, m.j, SnapMax(t, spec));
  }

  lemma MirroredDifference(f: real, y: real, y': real, returning: bool)
    ensures Mirrored(f, y', returning) - Mirrored(f, y, returning) == Mirrored(f, y' - y, returning)
  {
  }

  /** Each dimensional factor is the one before it times omega / beta. */
  lemma FactorLadder(spec: Spec)
    requires spec.Valid()
    ensures var f, o := spec.Factor(), spec.omega / spec.beta;
      f.a == Prod(f.v, o) && f.j == Prod(f.a, o) && o * spec.beta == spec.omega
  {
    DivMul(spec.omega, spec.beta);
  }

  lemma JerkQuotient(fv: real, fa: real, fj: real, omega: real, b: real, jerk: real, jMax: real)
    requires 0.0 < omega && 0.0 < b
    requires fa == Prod(fv, omega / b) && fj == Prod(fa, omega / b) && jMax == Prod(fj, jerk)
    ensures jMax / omega / omega == Prod(fv / b, jerk / b)
  {
    hide Prod;
    BendIdentity(fv, omega, b, jerk);
    PeakQuotients(omega, 0.0, Prod(fv / b, jerk / b), Prod(omega, 0.0), jMax);
  }

  /** Differentiating a dimensional quantity turns the factor f into g = f omega / beta. */
  lemma DerivativeStep(d: real, r: real, b: real, omega: real, f: real, g: real, o: real, dz: real, u: real,
                       bend: real, returning: bool, dv: real, a: real, k: real)
    requires 0.0 < b && 0.0 < omega && 0.0 < f && r == d / b && o * b == omega && g == Prod(f, o)
    requires Remainder(r, dz, u, bend) && k == Prod(f / b, bend / b)
    requires dv == Mirrored(f, dz, returning) && a == Mirrored(g, u, returning)
    ensures Remainder(d, dv, a / omega, k)
  {
    hide Remainder, Mirrored;
    DivMul(d, b);
    DivMul(f, b);
    DivMul(bend, b);
    SlopeQuotient(f, g, o, omega, b, u, f / b, returning, a);
    DerivativeScaled(d, r, b, f, dz, u, bend, f / b, bend / b, returning, dv, a / omega, k);
  }

  lemma DerivativeScaled(d: real, r: real, b: real, f: real, dz: real, u: real, bend: real, q: real, k: real,
                         returning: bool, dv: real, a: real, k': real)
    requires 0.0 < f && d == r * b && f == q * b && bend == k * b && Remainder(r, dz, u, bend)
    requires dv == Mirrored(f, dz, returning) && a == Mirrored(q, u, returning) && k' == q * k
    ensures Remainder(d, dv, a, k')
  {
    hide Remainder;
    if returning {
      MirrorRemainder(r, dz, u, bend);
      ScaleRemainderTo(-dz, -u, r, d, q, b, f, bend, k, dv, a, k');
    } else {
      ScaleRemainderTo(dz, u, r, d, q, b, f, bend, k, dv, a, k');
    }
  }

  lemma MirrorRemainder(d: real, dy: real, u: real, bend: real)
    requires Remainder(d, dy, u, bend)
    ensures Remainder(d, -dy, -u, bend)
  {
    assert -dy - -u * d == -(dy - u * d);
  }

  lemma SlopeQuotient(f: real, g: real, o: real, omega: real, b: real, u: real, q: real, returning: bool, a: real)
    requires 0.0 < omega && o * b == omega && g == Prod(f, o) && q * b == f && a == Mirrored(g, u, returning)
    ensures a / omega == Mirrored(q, u, returning)
  {
    SlopeProduct(f, g, o, omega, b, u, q);
    DivUnique(a, omega, Mirrored(q, u, returning));
  }

  lemma SlopeProduct(f: real, g: real, o: real, omega: real, b: real, u: real, q: real)
    requires o * b == omega && g == Prod(f, o) && q * b == f
    ensures (q * u) * omega == g * u
  {
    assert (q * u) * (o * b) == (q * b) * o * u;
  }
}
