/** The shape every law has: it climbs monotonically from rest at 0 to rest at 1, mirrors itself about
    its midpoint, and its closed derivatives are bounded by the closed peaks.

    The parabolic law is handled outright; the other two rest on the facts in `Trig.Lawful`. */
module LawShape {
  import opened Reals
  import opened Trig
  import opened Smooth
  import opened Law

  /** What is assumed about the circle functions when law tp is used. */
  ghost predicate Grounded(t: Circle, tp: LawName) {
    Known(tp) && (tp.Parabolic? || Lawful(t))
  }

  function At(t: Circle, tp: LawName, T: real, side: real): Values
    requires Known(tp)
  {
    EvalSide(t, tp, T, side).value
  }

  function Y(t: Circle, tp: LawName, T: real): real
    requires Known(tp)
  {
    At(t, tp, T, 0.0).y
  }

  function Slope(t: Circle, tp: LawName, T: real): real
    requires Known(tp)
  {
    At(t, tp, T, 0.0).y1
  }

  function Peak(t: Circle, tp: LawName): Peaks
    requires Known(tp)
  {
    ClosedPeaks(t, tp).value
  }

  /** Displacement and velocity do not depend on the side they are taken from. */
  lemma SideFree(t: Circle, tp: LawName, T: real, side: real)
    requires Known(tp)
    ensures At(t, tp, T, side).y == Y(t, tp, T) && At(t, tp, T, side).y1 == Slope(t, tp, T)
  {
  }

  /** Every law starts from rest at 0 and arrives at rest at 1, and stays there. */
  lemma AtRest(t: Circle, tp: LawName, T: real)
    requires Grounded(t, tp)
    ensures T <= 0.0 ==> Y(t, tp, T) == 0.0 && Slope(t, tp, T) == 0.0
    ensures 1.0 <= T ==> Y(t, tp, T) == 1.0 && Slope(t, tp, T) == 0.0
  {
    if !tp.Parabolic? {
      Reflections(t, 0.0);
      assert t.pi * 0.0 == 0.0 && t.pi * 1.0 == t.pi;
      assert 2.0 * t.pi * 0.0 == 0.0 && 2.0 * t.pi * 1.0 == 2.0 * t.pi;
      assert 0.0 / (2.0 * t.pi) == 0.0;
    }
  }

  lemma PeaksNonNegative(t: Circle, tp: LawName)
    requires Grounded(t, tp)
    ensures 0.0 <= Peak(t, tp).v1 && 0.0 <= Peak(t, tp).v2 && 0.0 <= Peak(t, tp).v3
  {
    if !tp.Parabolic? {
      MulNonNeg(t.pi, t.pi);
      MulNonNeg(t.pi * t.pi, t.pi);
    }
  }

  // ---- Smoothness inside the unit interval ------------------------------------------------

  /** The step of a law between T and U, judged by its own closed peaks. */
  ghost predicate LawStep(a: Values, b: Values, d: real, k: Peaks) {
    SmoothStep(d, b.y - a.y, a.y1, b.y1, k.v1, k.v2)
  }

  /** Over an arc d both circle functions move by at most d and follow their tangent up to d^2 / 2. */
  ghost predicate ArcStep(d: real, c: real, c': real, s: real, s': real) {
    && Abs(c' - c) <= Abs(d) && Abs(s' - s) <= Abs(d)
    && Abs(c' - c + Prod(s, d)) <= Square(d) / 2.0 && Abs(s' - s - Prod(c, d)) <= Square(d) / 2.0
  }

  lemma ArcIsSmooth(t: Circle, p: real, q: real)
    requires Lawful(t)
    ensures ArcStep(q - p, t.cos(p), t.cos(q), t.sin(p), t.sin(q))
  {
    hide Lawful, Prod, Square;
    assert p + (q - p) == q;
    SineLipschitz(t, p, q);
    CosineLipschitz(t, p, q);
    SineTaylor(t, p, q - p);
    CosineTaylor(t, p, q - p);
  }

  lemma CosineStep(t: Circle, T: real, U: real)
    requires Lawful(t)
    ensures LawStep(CosineAt(t, T), CosineAt(t, U), U - T, Peak(t, Cosine))
  {
    hide Lawful, HalfTurn, LawStep, CosineAt, Peak, ArcStep, CosineValues;
    var p, q := HalfTurn(t, T), HalfTurn(t, U);
    HalfTurnShift(t, T, U);
    ArcIsSmooth(t, p, q);
    CosineClosed(t, T, U);
    CosineNumbers(t.pi, U - T, q - p, t.cos(p), t.cos(q), t.sin(p), t.sin(q),
                  CosineAt(t, T), CosineAt(t, U), Peak(t, Cosine));
  }

  /** Two cosine values and the closed peaks, in terms of the circle functions. */
  ghost predicate CosineValues(k: real, c: real, c': real, s: real, s': real, a: Values, b: Values, m: Peaks) {
    && a.y == (1.0 - c) / 2.0 && b.y == (1.0 - c') / 2.0
    && a.y1 == Prod(k / 2.0, s) && b.y1 == Prod(k / 2.0, s') && m.v1 == k / 2.0 && m.v2 == Square(k) / 2.0
  }

  lemma CosineClosed(t: Circle, T: real, U: real)
    ensures CosineValues(t.pi, t.cos(HalfTurn(t, T)), t.cos(HalfTurn(t, U)), t.sin(HalfTurn(t, T)),
                         t.sin(HalfTurn(t, U)), CosineAt(t, T), CosineAt(t, U), Peak(t, Cosine))
  {
  }

  lemma HalfTurnShift(t: Circle, T: real, U: real)
    ensures HalfTurn(t, U) - HalfTurn(t, T) == Prod(t.pi, U - T)
  {
  }

  lemma CosineNumbers(k: real, x: real, d: real, c: real, c': real, s: real, s': real, a: Values, b: Values, m: Peaks)
    requires 0.0 < k && d == Prod(k, x) && ArcStep(d, c, c', s, s') && CosineValues(k, c, c', s, s', a, b, m)
    ensures LawStep(a, b, x, m)
  {
    hide Lipschitz, Remainder, Prod, Square;
    ScaledChord(b.y - a.y, c' - c, x, d, k, 0.5, m.v1);
    CosineSlope(k, x, d, s, s', b.y1 - a.y1, m.v2);
    CosineRemainder(k, x, d, c, c', s, b.y - a.y, a.y1, m.v2);
  }

  /** A value that moves by at most a fixed share of an angle k x. */
  lemma ScaledChord(z: real, c: real, x: real, d: real, k: real, share: real, speed: real)
    requires 0.0 < k && d == Prod(k, x) && Abs(c) <= Abs(d) && Abs(z) == share * Abs(c) && 0.0 <= share
    requires speed == share * k
    ensures Lipschitz(x, z, speed)
  {
    AbsMul(k, x);
    MulMono(Abs(c), Abs(d), share);
    assert speed * Abs(x) == share * (k * Abs(x));
  }

  lemma PlainChord(z: real, x: real, speed: real)
    requires Abs(z) <= speed * Abs(x)
    ensures Lipschitz(x, z, speed)
  {
  }

  lemma CosineSlope(k: real, x: real, d: real, s: real, s': real, z: real, bend: real)
    requires 0.0 < k && d == Prod(k, x) && Abs(s' - s) <= Abs(d) && z == Prod(k / 2.0, s') - Prod(k / 2.0, s)
    requires bend == Square(k) / 2.0
    ensures Lipschitz(x, z, bend)
  {
    AbsMul(k / 2.0, s' - s);
    assert z == k / 2.0 * (s' - s);
    ScaledChord(z, s' - s, x, d, k, k / 2.0, bend);
  }

  lemma CosineRemainder(k: real, x: real, d: real, c: real, c': real, s: real, dy: real, u: real, bend: real)
    requires d == Prod(k, x) && Abs(c' - c + Prod(s, d)) <= Square(d) / 2.0
    requires dy == (1.0 - c') / 2.0 - (1.0 - c) / 2.0 && u == Prod(k / 2.0, s) && bend == Square(k) / 2.0
    ensures Remainder(x, dy, u, bend)
  {
    hide Prod, Square;
    CosineRemainderIdentity(k, x, d, s, u, bend);
  }

  lemma CosineRemainderIdentity(k: real, x: real, d: real, s: real, u: real, bend: real)
    requires d == Prod(k, x) && u == Prod(k / 2.0, s) && bend == Square(k) / 2.0
    ensures Prod(u, x) == Prod(s, d) / 2.0
    ensures Prod(bend / 2.0, Prod(x, x)) == Square(d) / 2.0 / 2.0
  {
  }

  lemma CycloidStep(t: Circle, T: real, U: real)
    requires Lawful(t)
    ensures LawStep(CycloidAt(t, T), CycloidAt(t, U), U - T, Peak(t, Cycloid))
  {
    hide Lawful, FullTurn, LawStep, CycloidAt, Peak, ArcStep, CycloidValues;
    var p, q := FullTurn(t, T), FullTurn(t, U);
    FullTurnShift(t, T, U);
    ArcIsSmooth(t, p, q);
    CycloidClosed(t, T, U);
    CycloidNumbers(2.0 * t.pi, U - T, q - p, t.cos(p), t.cos(q), t.sin(p), t.sin(q),
                   CycloidAt(t, T), CycloidAt(t, U), Peak(t, Cycloid));
  }

  lemma FullTurnShift(t: Circle, T: real, U: real)
    ensures FullTurn(t, U) - FullTurn(t, T) == Prod(2.0 * t.pi, U - T)
  {
  }

  /** Two cycloid values a step x apart and the closed peaks, in terms of the circle functions. */
  ghost predicate CycloidValues(k: real, x: real, c: real, c': real, s: real, s': real,
                                a: Values, b: Values, m: Peaks)
  {
    && k != 0.0 && b.y - a.y == x - (s' / k - s / k)
    && a.y1 == 1.0 - c && b.y1 == 1.0 - c' && m.v1 == 2.0 && m.v2 == k
  }

  lemma CycloidClosed(t: Circle, T: real, U: real)
    ensures CycloidValues(2.0 * t.pi, U - T, t.cos(FullTurn(t, T)), t.cos(FullTurn(t, U)), t.sin(FullTurn(t, T)),
                          t.sin(FullTurn(t, U)), CycloidAt(t, T), CycloidAt(t, U), Peak(t, Cycloid))
  {
    hide FullTurn;
  }

  lemma CycloidNumbers(k: real, x: real, d: real, c: real, c': real, s: real, s': real,
                       a: Values, b: Values, m: Peaks)
    requires 0.0 < k && d == Prod(k, x) && ArcStep(d, c, c', s, s') && CycloidValues(k, x, c, c', s, s', a, b, m)
    ensures LawStep(a, b, x, m)
  {
    hide Lipschitz, Remainder, Prod, Square;
    var z := s' / k - s / k;
    DivSub(s', s, k);
    CycloidValue(k, x, d, s' - s, z, b.y - a.y);
    ScaledChord(b.y1 - a.y1, c' - c, x, d, k, 1.0, k);
    CycloidRemainder(k, x, d, s' - s, c, z, b.y - a.y, a.y1);
  }

  lemma CycloidValue(k: real, x: real, d: real, ds: real, z: real, dy: real)
    requires 0.0 < k && d == Prod(k, x) && Abs(ds) <= Abs(d) && z == ds / k && dy == x - z
    ensures Lipschitz(x, dy, 2.0)
  {
    DivMul(ds, k);
    AbsMul(z, k);
    AbsMul(k, x);
    CancelRight(Abs(z), Abs(x), k);
  }

  lemma CycloidRemainder(k: real, x: real, d: real, ds: real, c: real, z: real, dy: real, u: real)
    requires 0.0 < k && d == Prod(k, x) && z == ds / k && dy == x - z && u == 1.0 - c
    requires Abs(ds - Prod(c, d)) <= Square(d) / 2.0
    ensures Remainder(x, dy, u, k)
  {
    DivMul(ds, k);
    CycloidRemainderAt(k, x, d, ds, c, z, dy - u * x);
  }

  lemma CycloidRemainderAt(k: real, x: real, d: real, ds: real, c: real, z: real, e: real)
    requires 0.0 < k && d == Prod(k, x) && z * k == ds && e == x - z - (1.0 - c) * x
    requires Abs(ds - Prod(c, d)) <= Square(d) / 2.0
    ensures Abs(e) <= Prod(k / 2.0, Prod(x, x))
  {
    assert e * k == -(ds - c * d);
    AbsMul(e, k);
    assert d * d / 2.0 == (k / 2.0 * (x * x)) * k;
    CancelRight(Abs(e), k / 2.0 * (x * x), k);
  }

  lemma ParabolicRise(T: real, U: real, d: real, dy: real, u: real, w: real)
    requires 0.0 <= T <= 0.5 && 0.0 <= U <= 0.5
    requires d == U - T && dy == 2.0 * U * U - 2.0 * T * T && u == 4.0 * T && w == 4.0 * U
    ensures SmoothStep(d, dy, u, w, 2.0, 4.0)
  {
    hide Prod;
    ParabolicSecant(T, U, d, dy);
    QuadraticGap(T, U, d, dy, u);
    PlainChord(w - u, d, 4.0);
  }

  lemma ParabolicSecant(T: real, U: real, d: real, dy: real)
    requires 0.0 <= T <= 0.5 && 0.0 <= U <= 0.5 && d == U - T && dy == 2.0 * U * U - 2.0 * T * T
    ensures Lipschitz(d, dy, 2.0)
  {
    hide Prod;
    ParabolicFactors(T, U, d, dy);
    PlainChord(dy, d, 2.0);
  }

  lemma ParabolicFactors(T: real, U: real, d: real, dy: real)
    requires 0.0 <= T <= 0.5 && 0.0 <= U <= 0.5 && d == U - T && dy == 2.0 * U * U - 2.0 * T * T
    ensures dy == 2.0 * Prod(d, U + T) && Abs(Prod(d, U + T)) <= Abs(d)
  {
    assert dy == 2.0 * (d * (U + T));
    ProdBelow(d, U + T);
  }

  lemma ProdBelow(d: real, m: real)
    requires 0.0 <= m <= 1.0
    ensures Abs(Prod(d, m)) <= Abs(d)
  {
    ProductBound(m, d, Abs(d));
  }

  lemma QuadraticGap(T: real, U: real, d: real, dy: real, u: real)
    requires d == U - T && dy == 2.0 * U * U - 2.0 * T * T && u == 4.0 * T
    ensures Remainder(d, dy, u, 4.0)
  {
    assert dy - u * d == 2.0 * (d * d);
    MulNonNeg(Abs(d), Abs(d));
  }

  lemma ParabolicSameHalf(t: Circle, T: real, U: real)
    requires (0.0 <= T <= 0.5 && 0.0 <= U <= 0.5) || (0.5 <= T <= 1.0 && 0.5 <= U <= 1.0)
    ensures LawStep(ParabolicAt(t, T, 0.0), ParabolicAt(t, U, 0.0), U - T, Peaks(2.0, 4.0, 0.0))
  {
    hide SmoothStep, ParabolicAt;
    var a, b := ParabolicAt(t, T, 0.0), ParabolicAt(t, U, 0.0);
    ParabolicHalves(t, T);
    ParabolicHalves(t, U);
    if T <= 0.5 && U <= 0.5 {
      ParabolicRise(T, U, U - T, b.y - a.y, a.y1, b.y1);
    } else {
      var d, dy := (1.0 - U) - (1.0 - T), a.y - b.y;
      ParabolicRise(1.0 - T, 1.0 - U, d, dy, a.y1, b.y1);
      Reverse(d, dy, a.y1, b.y1, 2.0, 4.0);
      assert -d == U - T && -dy == b.y - a.y;
    }
  }

  lemma ParabolicHalves(t: Circle, T: real)
    ensures T <= 0.5 ==> ParabolicAt(t, T, 0.0).y == 2.0 * T * T && ParabolicAt(t, T, 0.0).y1 == 4.0 * T
    ensures 0.5 <= T ==> ParabolicAt(t, T, 0.0).y == 1.0 - 2.0 * (1.0 - T) * (1.0 - T)
    ensures 0.5 <= T ==> ParabolicAt(t, T, 0.0).y1 == 4.0 * (1.0 - T)
  {
  }

  lemma ParabolicStep(t: Circle, T: real, U: real)
    requires 0.0 <= T <= 1.0 && 0.0 <= U <= 1.0
    ensures LawStep(ParabolicAt(t, T, 0.0), ParabolicAt(t, U, 0.0), U - T, Peaks(2.0, 4.0, 0.0))
  {
    hide SmoothStep, ParabolicAt;
    if (T <= 0.5) == (U <= 0.5) {
      ParabolicSameHalf(t, T, U);
    } else {
      ParabolicSameHalf(t, T, 0.5);
      ParabolicSameHalf(t, 0.5, U);
      var a, m, b := ParabolicAt(t, T, 0.0), ParabolicAt(t, 0.5, 0.0), ParabolicAt(t, U, 0.0);
      Chain(0.5 - T, m.y - a.y, a.y1, U - 0.5, b.y - m.y, m.y1, b.y1, 2.0, 4.0);
      assert (0.5 - T) + (U - 0.5) == U - T;
      assert (m.y - a.y) + (b.y - m.y) == b.y - a.y;
    }
  }

  lemma UnitStep(t: Circle, tp: LawName, T: real, U: real)
    requires Grounded(t, tp) && 0.0 <= T <= 1.0 && 0.0 <= U <= 1.0
    ensures LawStep(At(t, tp, T, 0.0), At(t, tp, U, 0.0), U - T, Peak(t, tp))
  {
    hide LawStep, CosineAt, CycloidAt, ParabolicAt;
    match tp
    case Cosine => CosineStep(t, T, U);
    case Cycloid => CycloidStep(t, T, U);
    case Parabolic => ParabolicStep(t, T, U);
  }

  // ---- Smoothness for every argument ------------------------------------------------------

  lemma ClampExtension(T: real, U: real, dy: real, u: real, w: real, speed: real, bend: real)
    requires 0.0 <= speed && 0.0 <= bend
    requires SmoothStep(Clamp(U) - Clamp(T), dy, u, w, speed, bend)
    requires T != Clamp(T) ==> u == 0.0
    requires U != Clamp(U) ==> w == 0.0
    requires Clamp(T) == Clamp(U) ==> dy == 0.0
    ensures SmoothStep(U - T, dy, u, w, speed, bend)
  {
    hide SmoothStep;
    var c, e := Clamp(T), Clamp(U);
    if (T < 0.0 && U < 0.0) || (T > 1.0 && U > 1.0) {
      Still(U - T, speed, bend);
    } else {
      if T != c {
        Still(c - T, speed, bend);
        Chain(c - T, 0.0, 0.0, e - c, dy, u, w, speed, bend);
        assert (c - T) + (e - c) == e - T && 0.0 + dy == dy;
      }
      if U != e {
        Still(U - e, speed, bend);
        Chain(e - T, dy, u, U - e, 0.0, w, 0.0, speed, bend);
        assert (e - T) + (U - e) == U - T && dy + 0.0 == dy;
      }
    }
  }

  /** Any two arguments, inside the unit interval or not, are joined by a smooth step. */
  lemma LawIsSmooth(t: Circle, tp: LawName, T: real, U: real)
    requires Grounded(t, tp)
    ensures LawStep(At(t, tp, T, 0.0), At(t, tp, U, 0.0), U - T, Peak(t, tp))
  {
    hide SmoothStep, CosineAt, CycloidAt, ParabolicAt, Peak;
    var c, e := Clamp(T), Clamp(U);
    UnitStep(t, tp, c, e);
    AtRest(t, tp, T);
    AtRest(t, tp, U);
    PeaksNonNegative(t, tp);
    var a, b, k := At(t, tp, c, 0.0), At(t, tp, e, 0.0), Peak(t, tp);
    assert a == At(t, tp, T, 0.0) && b == At(t, tp, U, 0.0);
    ClampExtension(T, U, b.y - a.y, a.y1, b.y1, k.v1, k.v2);
  }

  // ---- Monotone climb, range and strict start ---------------------------------------------

  lemma CosineClimbs(t: Circle, T: real, U: real)
    requires Lawful(t) && 0.0 <= T <= U <= 1.0
    ensures CosineAt(t, T).y <= CosineAt(t, U).y
  {
    hide CosineAt;
    CosineClosed(t, T, U);
    var p, q := HalfTurn(t, T), HalfTurn(t, U);
    assert 0.0 <= p <= q <= t.pi by {
      MulNonNeg(t.pi, T);
      MulNonNeg(t.pi, U - T);
      MulNonNeg(t.pi, 1.0 - U);
    }
    SumToProduct(t, p, q);
    assert ArcBelowTangent(t, (p + q) / 2.0) && ArcBelowTangent(t, (q - p) / 2.0);
    MulNonNeg(t.sin((p + q) / 2.0), t.sin((q - p) / 2.0));
  }

  lemma CycloidClimbs(t: Circle, T: real, U: real)
    requires Lawful(t) && 0.0 <= T <= U <= 1.0
    ensures CycloidAt(t, T).y <= CycloidAt(t, U).y
  {
    var p, q, k := FullTurn(t, T), FullTurn(t, U), 2.0 * t.pi;
    FullTurnShift(t, T, U);
    SineLipschitz(t, p, q);
    DivSub(t.sin(q), t.sin(p), k);
    ChordShare(k, U - T, t.sin(q) - t.sin(p), (t.sin(q) - t.sin(p)) / k);
  }

  lemma ChordShare(k: real, x: real, ds: real, z: real)
    requires 0.0 < k && 0.0 <= x && Abs(ds) <= Abs(k * x) && z == ds / k
    ensures z <= x
  {
    DivMul(ds, k);
    AbsMul(k, x);
    CancelRight(z, x, k);
  }

  lemma LawClimbs(t: Circle, tp: LawName, T: real, U: real)
    requires Grounded(t, tp) && T <= U
    ensures Y(t, tp, T) <= Y(t, tp, U)
  {
    hide CosineAt, CycloidAt;
    var c, e := Clamp(T), Clamp(U);
    match tp
    case Cosine => CosineClimbs(t, c, e);
    case Cycloid => CycloidClimbs(t, c, e);
    case Parabolic => ParabolicClimbs(t, c, e);
  }

  lemma ParabolicClimbs(t: Circle, T: real, U: real)
    requires 0.0 <= T <= U <= 1.0
    ensures ParabolicAt(t, T, 0.0).y <= ParabolicAt(t, U, 0.0).y
  {
    SquareMono(T, U);
    SquareMono(1.0 - U, 1.0 - T);
    if T <= 0.5 { SquareMono(T, 0.5); }
    if 0.5 <= U { SquareMono(1.0 - U, 0.5); }
  }

  lemma ParabolicLeavesZero(t: Circle, T: real)
    requires 0.0 < T <= 1.0
    ensures 0.0 < ParabolicAt(t, T, 0.0).y
  {
    hide Prod, ParabolicAt;
    ParabolicProducts(t, T);
    ProdPos(T, T);
  }

  lemma ParabolicProducts(t: Circle, T: real)
    requires 0.0 <= T <= 1.0
    ensures T <= 0.5 ==> ParabolicAt(t, T, 0.0).y == 2.0 * Prod(T, T)
    ensures 0.5 <= T ==> 0.5 <= ParabolicAt(t, T, 0.0).y
  {
    if 0.5 <= T {
      SquareMono(1.0 - T, 0.5);
    }
  }

  lemma LawInRange(t: Circle, tp: LawName, T: real)
    requires Grounded(t, tp)
    ensures 0.0 <= Y(t, tp, T) <= 1.0
  {
    AtRest(t, tp, 0.0);
    AtRest(t, tp, 1.0);
    LawClimbs(t, tp, 0.0, Clamp(T));
    LawClimbs(t, tp, Clamp(T), 1.0);
  }

  /** The climb starts at once: displacement is strictly positive after time 0. */
  lemma LawLeavesZero(t: Circle, tp: LawName, T: real)
    requires Grounded(t, tp) && 0.0 < T
    ensures 0.0 < Y(t, tp, T)
  {
    hide CosineAt, CycloidAt, ParabolicAt;
    var c := Clamp(T);
    AtRest(t, tp, 1.0);
    if c < 1.0 {
      match tp
      case Cosine => CosineLeavesZero(t, c);
      case Cycloid => CycloidLeavesZero(t, c);
      case Parabolic => ParabolicLeavesZero(t, c);
    }
  }

  lemma CosineLeavesZero(t: Circle, T: real)
    requires Lawful(t) && 0.0 < T < 1.0
    ensures 0.0 < CosineAt(t, T).y
  {
    hide CosineAt;
    CosineClosed(t, T, T);
    var p := HalfTurn(t, T);
    StrictShare(t.pi, T, p);
    SinePositive(t, p);
    assert OnUnitCircle(t, p);
    ProperCosine(t.sin(p), t.cos(p));
  }

  lemma StrictShare(k: real, T: real, p: real)
    requires 0.0 < k && 0.0 < T < 1.0 && p == Prod(k, T)
    ensures 0.0 < p < k
  {
    hide Prod;
    ProdPos(k, T);
    ProdPos(k, 1.0 - T);
    ProdLinear(k, 1.0, T);
  }

  lemma ProperCosine(s: real, c: real)
    requires s * s + c * c == 1.0 && 0.0 < s
    ensures c < 1.0
  {
    assert Prod(s, s) + Prod(c, c) == 1.0;
    ProperCosineLinear(s, c);
  }

  lemma ProperCosineLinear(s: real, c: real)
    requires Prod(s, s) + Prod(c, c) == 1.0 && 0.0 < s
    ensures c < 1.0
  {
    hide Prod;
    ProdPos(s, s);
    if 1.0 <= c {
      OneBelowSquare(c);
    }
  }

  lemma OneBelowSquare(c: real)
    requires 1.0 <= c
    ensures 1.0 <= Prod(c, c)
  {
    MulMono(1.0, c, c);
  }

  lemma CycloidLeavesZero(t: Circle, T: real)
    requires Lawful(t) && 0.0 < T < 1.0
    ensures 0.0 < CycloidAt(t, T).y
  {
    var q, k := FullTurn(t, T), 2.0 * t.pi;
    MulPos(k, T);
    ChordStrictlyBelowArc(t, q);
    DivMul(t.sin(q), k);
    CancelRightStrict(t.sin(q) / k, T, k);
  }

  // ---- Bounds on the derivatives ----------------------------------------------------------

  lemma LawWithinPeaks(t: Circle, tp: LawName, T: real, side: real)
    requires Grounded(t, tp)
    ensures 0.0 <= At(t, tp, T, side).y1 <= Peak(t, tp).v1
    ensures Abs(At(t, tp, T, side).y2) <= Peak(t, tp).v2
    ensures Abs(At(t, tp, T, side).y3) <= Peak(t, tp).v3
  {
    hide CosineAt, CycloidAt;
    match tp
    case Cosine => CosineWithinPeaks(t, Clamp(T));
    case Cycloid => CycloidWithinPeaks(t, Clamp(T));
    case Parabolic =>
  }

  lemma CosineWithinPeaks(t: Circle, T: real)
    requires Lawful(t) && 0.0 <= T <= 1.0
    ensures 0.0 <= CosineAt(t, T).y1 <= Peak(t, Cosine).v1
    ensures Abs(CosineAt(t, T).y2) <= Peak(t, Cosine).v2
    ensures Abs(CosineAt(t, T).y3) <= Peak(t, Cosine).v3
  {
    hide Lawful, HalfTurn, CosineAt, Peak, Prod;
    var p := HalfTurn(t, T);
    HalfTurnRange(t, T);
    UpperHalf(t, p);
    Bounded(t, p);
    PeaksNonNegative(t, Cosine);
    CosineAmplitudes(t, T);
    Amplitude(Peak(t, Cosine).v1, t.sin(p), CosineAt(t, T).y1);
    Amplitude(Peak(t, Cosine).v2, t.cos(p), CosineAt(t, T).y2);
    Amplitude(Peak(t, Cosine).v3, t.sin(p), -CosineAt(t, T).y3);
    ProdNonNeg(Peak(t, Cosine).v1, t.sin(p));
  }

  lemma HalfTurnRange(t: Circle, T: real)
    requires 0.0 <= T <= 1.0
    ensures 0.0 <= HalfTurn(t, T) <= t.pi
  {
    MulNonNeg(t.pi, T);
    MulNonNeg(t.pi, 1.0 - T);
  }

  lemma UpperHalf(t: Circle, p: real)
    requires Lawful(t) && 0.0 <= p <= t.pi
    ensures 0.0 <= t.sin(p)
  {
    assert ArcBelowTangent(t, p);
  }

  lemma CosineAmplitudes(t: Circle, T: real)
    ensures var p, a, k := HalfTurn(t, T), CosineAt(t, T), Peak(t, Cosine);
      a.y1 == Prod(k.v1, t.sin(p)) && a.y2 == Prod(k.v2, t.cos(p)) && -a.y3 == Prod(k.v3, t.sin(p))
  {
  }

  /** A share of at most 1 of a size. */
  lemma Amplitude(k: real, s: real, y: real)
    requires 0.0 <= k && Abs(s) <= 1.0 && y == Prod(k, s)
    ensures Abs(y) <= k
  {
    AbsMul(k, s);
    MulMono(Abs(s), 1.0, k);
  }

  lemma CycloidWithinPeaks(t: Circle, T: real)
    requires Lawful(t)
    ensures 0.0 <= CycloidAt(t, T).y1 <= Peak(t, Cycloid).v1
    ensures Abs(CycloidAt(t, T).y2) <= Peak(t, Cycloid).v2
    ensures Abs(CycloidAt(t, T).y3) <= Peak(t, Cycloid).v3
  {
    hide Lawful, FullTurn, CycloidAt, Peak, Prod;
    var q := FullTurn(t, T);
    Bounded(t, q);
    PeaksNonNegative(t, Cycloid);
    CycloidAmplitudes(t, T);
    Amplitude(Peak(t, Cycloid).v2, t.sin(q), CycloidAt(t, T).y2);
    Amplitude(Peak(t, Cycloid).v3, t.cos(q), CycloidAt(t, T).y3);
  }

  lemma CycloidAmplitudes(t: Circle, T: real)
    ensures var q, a, k := FullTurn(t, T), CycloidAt(t, T), Peak(t, Cycloid);
      && a.y1 == 1.0 - t.cos(q) && a.y2 == Prod(k.v2, t.sin(q)) && a.y3 == Prod(k.v3, t.cos(q)) && k.v1 == 2.0
  {
  }

  // ---- Point symmetry ---------------------------------------------------------------------

  /** The second half of a law is the first half read backwards, taken from the opposite side.  Only the
      parabolic acceleration at an exact midpoint with no side named escapes. */
  lemma LawIsPointSymmetric(t: Circle, tp: LawName, T: real, side: real)
    requires Grounded(t, tp)
    ensures At(t, tp, 1.0 - T, -side).y == 1.0 - At(t, tp, T, side).y
    ensures At(t, tp, 1.0 - T, -side).y1 == At(t, tp, T, side).y1
    ensures !(tp.Parabolic? && T == 0.5 && side == 0.0) ==>
              At(t, tp, 1.0 - T, -side).y2 == -At(t, tp, T, side).y2
    ensures At(t, tp, 1.0 - T, -side).y3 == At(t, tp, T, side).y3
  {
    hide CosineAt, CycloidAt, ParabolicAt;
    assert Clamp(1.0 - T) == 1.0 - Clamp(T);
    match tp
    case Cosine => CosineSymmetry(t, Clamp(T));
    case Cycloid => CycloidSymmetry(t, Clamp(T));
    case Parabolic => ParabolicSymmetry(t, Clamp(T), side);
  }

  lemma ParabolicSymmetry(t: Circle, T: real, side: real)
    ensures var a, b := ParabolicAt(t, T, side), ParabolicAt(t, 1.0 - T, -side);
            b.y == 1.0 - a.y && b.y1 == a.y1 && b.y3 == a.y3 && ((T == 0.5 && side == 0.0) || b.y2 == -a.y2)
  {
  }

  lemma CosineSymmetry(t: Circle, T: real)
    requires Lawful(t)
    ensures var a, b := CosineAt(t, T), CosineAt(t, 1.0 - T);
            b.y == 1.0 - a.y && b.y1 == a.y1 && b.y2 == -a.y2 && b.y3 == a.y3
  {
    Reflections(t, HalfTurn(t, T));
    assert HalfTurn(t, 1.0 - T) == t.pi - HalfTurn(t, T);
  }

  lemma CycloidSymmetry(t: Circle, T: real)
    requires Lawful(t)
    ensures var a, b := CycloidAt(t, T), CycloidAt(t, 1.0 - T);
            b.y == 1.0 - a.y && b.y1 == a.y1 && b.y2 == -a.y2 && b.y3 == a.y3
  {
    var q := FullTurn(t, T);
    Reflections(t, q);
    assert FullTurn(t, 1.0 - T) == 2.0 * t.pi - q;
    DivSub(0.0, t.sin(q), 2.0 * t.pi);
  }
}
