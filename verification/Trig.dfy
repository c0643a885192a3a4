/** The circle functions the laws are written in.

    The numeric library behind `math.Sin`, `math.Cos` and `math.Pi` is a parameter; `Lawful` lists the
    textbook facts about it that the theorems need, and everything else is derived here. */
module Trig {
  import opened Reals

  datatype CircleFunctions = CircleFunctions(pi: real, sin: real -> real, cos: real -> real)

  type Circle = t: CircleFunctions | 0.0 < t.pi witness CircleFunctions(3.0, x => 0.0, x => 0.0)

  ghost predicate OnUnitCircle(t: Circle, x: real) {
    t.sin(x) * t.sin(x) + t.cos(x) * t.cos(x) == 1.0
  }

  ghost predicate AdditionAt(t: Circle, a: real, b: real) {
    && t.sin(a + b) == t.sin(a) * t.cos(b) + t.cos(a) * t.sin(b)
    && t.cos(a + b) == t.cos(a) * t.cos(b) - t.sin(a) * t.sin(b)
  }

  ghost predicate ChordBelowArc(t: Circle, x: real) {
    Abs(t.sin(x)) <= Abs(x)
  }

  /** On the upper half circle the sine is nonnegative and the arc is at most the tangent. */
  ghost predicate ArcBelowTangent(t: Circle, x: real) {
    0.0 <= x <= t.pi ==> 0.0 <= t.sin(x) && x * t.cos(x) <= t.sin(x)
  }

  ghost predicate Lawful(t: Circle) {
    && t.sin(0.0) == 0.0 && t.cos(0.0) == 1.0
    && t.sin(t.pi) == 0.0 && t.cos(t.pi) == -1.0
    && (forall x :: OnUnitCircle(t, x))
    && (forall a, b :: AdditionAt(t, a, b))
    && (forall x :: ChordBelowArc(t, x))
    && (forall x :: ArcBelowTangent(t, x))
  }

  // ---- Reflections and bounds -------------------------------------------------------------

  lemma Bounded(t: Circle, x: real)
    requires Lawful(t)
    ensures Abs(t.sin(x)) <= 1.0 && Abs(t.cos(x)) <= 1.0
  {
    assert OnUnitCircle(t, x);
    SquareReflect(t.sin(x), 1.0);
    SquareReflect(t.cos(x), 1.0);
  }

  lemma Parity(t: Circle, x: real)
    requires Lawful(t)
    ensures t.sin(-x) == -t.sin(x) && t.cos(-x) == t.cos(x)
  {
    var s, c, s', c' := t.sin(x), t.cos(x), t.sin(-x), t.cos(-x);
    assert x + -x == 0.0;
    assert AdditionAt(t, x, -x);
    assert OnUnitCircle(t, x);
    assert s * c' + c * s' == 0.0 && c * c' - s * s' == 1.0;
    assert s' == s' * (s * s + c * c) == c * (s * c' + c * s') - s * (c * c' - s * s') == -s;
    assert c' == c' * (s * s + c * c) == s * (s * c' + c * s') + c * (c * c' - s * s') == c;
  }

  lemma Difference(t: Circle, a: real, b: real)
    requires Lawful(t)
    ensures t.sin(a - b) == t.sin(a) * t.cos(b) - t.cos(a) * t.sin(b)
    ensures t.cos(a - b) == t.cos(a) * t.cos(b) + t.sin(a) * t.sin(b)
  {
    assert a - b == a + -b;
    assert AdditionAt(t, a, -b);
    Parity(t, b);
  }

  /** Values at pi/2 and 2 pi, and the reflections x -> pi - x and x -> 2 pi - x. */
  lemma Reflections(t: Circle, x: real)
    requires Lawful(t)
    ensures t.sin(t.pi - x) == t.sin(x) && t.cos(t.pi - x) == -t.cos(x)
    ensures t.sin(2.0 * t.pi - x) == -t.sin(x) && t.cos(2.0 * t.pi - x) == t.cos(x)
    ensures t.sin(2.0 * t.pi) == 0.0 && t.cos(2.0 * t.pi) == 1.0
    ensures t.sin(t.pi / 2.0) == 1.0 && t.cos(t.pi / 2.0) == 0.0
  {
    Difference(t, t.pi, x);
    assert 2.0 * t.pi == t.pi + t.pi;
    assert AdditionAt(t, t.pi, t.pi);
    Difference(t, 2.0 * t.pi, x);
    QuarterTurn(t);
  }

  lemma QuarterTurn(t: Circle)
    requires Lawful(t)
    ensures t.sin(t.pi / 2.0) == 1.0 && t.cos(t.pi / 2.0) == 0.0
  {
    var h := t.pi / 2.0;
    assert h + h == t.pi;
    assert AdditionAt(t, h, h);
    assert OnUnitCircle(t, h) && ArcBelowTangent(t, h);
    UnitFromSquares(t.sin(h), t.cos(h));
  }

  lemma UnitFromSquares(s: real, c: real)
    requires s * s + c * c == 1.0 && c * c - s * s == -1.0 && 0.0 <= s
    ensures s == 1.0 && c == 0.0
  {
    SquareZero(c);
    ZeroProduct(s - 1.0, s + 1.0);
  }

  // ---- First-order bounds -----------------------------------------------------------------

  /** Differences of sines and cosines as products. */
  lemma SumToProduct(t: Circle, a: real, b: real)
    requires Lawful(t)
    ensures t.sin(b) - t.sin(a) == 2.0 * t.cos((a + b) / 2.0) * t.sin((b - a) / 2.0)
    ensures t.cos(a) - t.cos(b) == 2.0 * t.sin((a + b) / 2.0) * t.sin((b - a) / 2.0)
  {
    var m, d := (a + b) / 2.0, (b - a) / 2.0;
    assert b == m + d && a == m - d;
    assert AdditionAt(t, m, d);
    Difference(t, m, d);
  }

  lemma ProductBound(c: real, s: real, d: real)
    requires Abs(c) <= 1.0 && Abs(s) <= d
    ensures Abs(c * s) <= d
  {
    AbsMul(c, s);
    MulMono(Abs(c), 1.0, Abs(s));
  }

  lemma TwiceProductBound(r: real, c: real, s: real, w: real)
    requires r == 2.0 * c * s && Abs(c) <= 1.0 && Abs(s) <= Abs(w / 2.0)
    ensures Abs(r) <= Abs(w)
  {
    ProductBound(c, s, Abs(w / 2.0));
    assert r == 2.0 * (c * s);
  }

  lemma SineLipschitz(t: Circle, a: real, b: real)
    requires Lawful(t)
    ensures Abs(t.sin(b) - t.sin(a)) <= Abs(b - a)
  {
    SumToProduct(t, a, b);
    assert ChordBelowArc(t, (b - a) / 2.0);
    Bounded(t, (a + b) / 2.0);
    TwiceProductBound(t.sin(b) - t.sin(a), t.cos((a + b) / 2.0), t.sin((b - a) / 2.0), b - a);
  }

  lemma CosineLipschitz(t: Circle, a: real, b: real)
    requires Lawful(t)
    ensures Abs(t.cos(b) - t.cos(a)) <= Abs(b - a)
  {
    SumToProduct(t, a, b);
    assert ChordBelowArc(t, (b - a) / 2.0);
    Bounded(t, (a + b) / 2.0);
    TwiceProductBound(t.cos(a) - t.cos(b), t.sin((a + b) / 2.0), t.sin((b - a) / 2.0), b - a);
  }

  /** The sine is strictly positive strictly inside the upper half circle. */
  lemma SinePositive(t: Circle, x: real)
    requires Lawful(t) && 0.0 < x < t.pi
    ensures 0.0 < t.sin(x)
  {
    assert ArcBelowTangent(t, x) && ArcBelowTangent(t, t.pi - x);
    assert OnUnitCircle(t, x);
    Reflections(t, x);
    NotOnAxis(t.sin(x), t.cos(x), x, t.pi - x);
  }

  /** Strictly inside a full turn the cosine stays below 1. */
  lemma CosineBelowOne(t: Circle, x: real)
    requires Lawful(t) && 0.0 < x < 2.0 * t.pi
    ensures t.cos(x) < 1.0
  {
    var h := x / 2.0;
    assert h + h == x;
    assert AdditionAt(t, h, h);
    assert OnUnitCircle(t, h);
    SinePositive(t, h);
    DoubledCosine(t.sin(h), t.cos(h));
  }

  lemma DoubledCosine(s: real, c: real)
    requires s * s + c * c == 1.0 && 0.0 < s
    ensures c * c - s * s < 1.0
  {
    assert 0.0 < Prod(s, s) by { ProdPos(s, s); }
    assert c * c - s * s == 1.0 - 2.0 * Prod(s, s);
  }

  lemma NotOnAxis(s: real, c: real, x: real, y: real)
    requires s * s + c * c == 1.0 && 0.0 < x && 0.0 < y
    requires x * c <= s && y * -c <= s
    ensures s != 0.0
  {
    assert (c - 1.0) * (c + 1.0) == -(s * s);
    if 0.0 < c { MulPos(x, c); }
    if c < 0.0 { MulPos(y, -c); }
  }

  /** A nonzero chord is strictly shorter than its arc. */
  lemma ChordStrictlyBelowArc(t: Circle, x: real)
    requires Lawful(t) && 0.0 < x
    ensures t.sin(x) < x
  {
    var h := x / 2.0;
    assert h + h == x;
    assert AdditionAt(t, h, h);
    assert OnUnitCircle(t, h) && ChordBelowArc(t, h);
    LegProduct(t.sin(h), t.cos(h), h);
  }

  lemma LegProduct(s: real, c: real, h: real)
    requires s * s + c * c == 1.0 && Abs(s) <= h && 0.0 < h
    ensures c * s < h
  {
    MulNonNeg(Abs(s), Abs(s));
    SquareReflect(c, 1.0);
    if Abs(c) < 1.0 {
      ShortLeg(s, c, h);
    } else {
      assert c == 1.0 || c == -1.0;
      SquareZero(s);
    }
  }

  lemma ShortLeg(s: real, c: real, h: real)
    requires Abs(c) < 1.0 && Abs(s) <= h && 0.0 < h
    ensures c * s < h
  {
    AbsMul(c, s);
    ShortProduct(Abs(c), Abs(s), h);
  }

  lemma ShortProduct(a: real, b: real, h: real)
    requires 0.0 <= a < 1.0 && b <= h && 0.0 < h
    ensures a * b < h
  {
    hide Prod;
    ProdMono(b, h, a);
    ProdPos(h, 1.0 - a);
    ProdLinear(h, 1.0, a);
    ProdIs(b, a);
  }

  lemma ProdIs(a: real, b: real)
    ensures Prod(a, b) == a * b
  {
  }

  // ---- Second-order bound -----------------------------------------------------------------
  //
  // exp(id) - 1 - id has length at most d^2/2.  Write it (x, y); halving the angle gives
  // z(d) = (exp(id/2) - 1)^2 + 2 z(d/2), so a cubic error term shrinks by four at every halving.

  /** The vector (x, y) has length at most r. */
  ghost predicate Within(x: real, y: real, r: real) {
    0.0 <= r && x * x + y * y <= r * r
  }

  lemma InnerProduct(a: real, b: real, r: real, x: real, y: real, s: real)
    requires Within(a, b, r) && Within(x, y, s)
    ensures Abs(a * x + b * y) <= r * s
  {
    var dot, det := a * x + b * y, a * y - b * x;
    assert dot * dot + det * det == (a * a + b * b) * (x * x + y * y);
    MulNonNeg(r, s);
    MulMono(a * a + b * b, r * r, x * x + y * y);
    MulMono(x * x + y * y, s * s, r * r);
    assert (r * r) * (s * s) == (r * s) * (r * s);
    SquareReflect(dot, r * s);
  }

  lemma Triangle(a: real, b: real, r: real, x: real, y: real, s: real)
    requires Within(a, b, r) && Within(x, y, s)
    ensures Within(a + x, b + y, r + s)
  {
    InnerProduct(a, b, r, x, y, s);
    assert (a + x) * (a + x) + (b + y) * (b + y)
        == (a * a + b * b) + (x * x + y * y) + 2.0 * (a * x + b * y);
    assert (r + s) * (r + s) == r * r + s * s + 2.0 * (r * s);
  }

  /** The second-order remainder of exp(id) stays within r. */
  ghost predicate RemainderWithin(t: Circle, d: real, r: real) {
    Within(t.cos(d) - 1.0, t.sin(d) - d, r)
  }

  lemma VersineBound(t: Circle, x: real)
    requires Lawful(t)
    ensures 0.0 <= 1.0 - t.cos(x) <= x * x / 2.0
  {
    var h := x / 2.0;
    assert h + h == x;
    assert AdditionAt(t, h, h);
    assert OnUnitCircle(t, h) && ChordBelowArc(t, h);
    SquareMono(t.sin(h), Abs(h));
  }

  lemma RemainderSmallArc(t: Circle, d: real)
    requires Lawful(t) && Abs(d) <= t.pi
    ensures RemainderWithin(t, d, d * d / 2.0 + Abs(d) * d * d / 2.0)
  {
    var x := Abs(d);
    Parity(t, x);
    VersineBound(t, x);
    assert ArcBelowTangent(t, x) && ChordBelowArc(t, x);
    SmallRemainder(t.cos(x), t.sin(x), x);
    var u, v := t.cos(d) - 1.0, t.sin(d) - d;
    assert u == t.cos(x) - 1.0 && (v == t.sin(x) - x || v == -(t.sin(x) - x));
    assert d * d == x * x;
    assert x * d * d == x * x * x;
  }

  lemma SmallRemainder(c: real, s: real, x: real)
    requires 0.0 <= 1.0 - c <= x * x / 2.0 && 0.0 <= x
    requires x * c <= s <= x
    ensures Within(c - 1.0, s - x, x * x / 2.0 + x * x * x / 2.0)
  {
    var p, q := x * x / 2.0, x * x * x / 2.0;
    MulMono(1.0 - c, p, x);
    assert p * x == q;
    assert x - s <= (1.0 - c) * x <= q;
    Box(c - 1.0, s - x, p, q);
  }

  /** A box with half sides p and q fits in the disc of radius p + q. */
  lemma Box(u: real, v: real, p: real, q: real)
    requires Abs(u) <= p && Abs(v) <= q
    ensures Within(u, v, p + q)
  {
    MulNonNeg(p - u, p + u);
    MulNonNeg(q - v, q + v);
    MulNonNeg(p, q);
    assert (p + q) * (p + q) - (u * u + v * v) == (p - u) * (p + u) + (q - v) * (q + v) + 2.0 * (p * q);
  }

  lemma RemainderHalving(t: Circle, d: real, r: real, w: real)
    requires Lawful(t) && RemainderWithin(t, d / 2.0, r) && w == d * d / 4.0 + 2.0 * r
    ensures RemainderWithin(t, d, w)
  {
    hide Within;
    var h := d / 2.0;
    assert h + h == d;
    assert AdditionAt(t, h, h);
    assert OnUnitCircle(t, h);
    VersineBound(t, h);
    assert h * h == d * d / 4.0;
    HalvingAlgebra(t.cos(h), t.sin(h), h, r, h * h, t.cos(d) - 1.0, t.sin(d) - d, w);
  }

  /** With z = (c - 1, s), the remainder at twice the angle is z squared plus twice the remainder at the angle. */
  lemma HalvingAlgebra(c: real, s: real, h: real, r: real, m: real, u: real, v: real, w: real)
    requires Square(s) + Square(c) == 1.0 && 2.0 * (1.0 - c) <= m
    requires Within(c - 1.0, s - h, r)
    requires u == Square(c) - Square(s) - 1.0 && v == 2.0 * Prod(s, c) - 2.0 * h && w == m + 2.0 * r
    ensures Within(u, v, w)
  {
    hide Within, Square, Prod;
    var a := c - 1.0;
    ShiftByOne(c, s, a);
    var px, py := Square(a) - Square(s), 2.0 * Prod(a, s);
    SquareLength(a, s, m, px, py);
    DoubleLength(a, s - h, r, 2.0 * a, 2.0 * (s - h));
    Add(px, py, m, 2.0 * a, 2.0 * (s - h), 2.0 * r, u, v, w);
  }

  lemma ShiftByOne(c: real, s: real, a: real)
    requires a == c - 1.0
    ensures Square(a) == Square(c) - 2.0 * c + 1.0
    ensures Prod(a, s) == Prod(s, c) - s
  {
  }

  /** Triangle inequality with the sums named. */
  lemma Add(a: real, b: real, r: real, x: real, y: real, s: real, u: real, v: real, w: real)
    requires Within(a, b, r) && Within(x, y, s)
    requires u == a + x && v == b + y && w == r + s
    ensures Within(u, v, w)
  {
    hide Within;
    Triangle(a, b, r, x, y, s);
  }

  /** Squaring the vector (a, s) squares its length. */
  lemma SquareLength(a: real, s: real, m: real, wx: real, wy: real)
    requires Square(a) + Square(s) <= m && wx == Square(a) - Square(s) && wy == 2.0 * Prod(a, s)
    ensures Within(wx, wy, m)
  {
    var n := a * a + s * s;
    assert wx * wx + wy * wy == n * n;
    SquareMono(n, m);
  }

  lemma DoubleLength(a: real, b: real, r: real, x: real, y: real)
    requires Within(a, b, r) && x == 2.0 * a && y == 2.0 * b
    ensures Within(x, y, 2.0 * r)
  {
    var z := 2.0 * r;
    assert x * x + y * y == 4.0 * (a * a + b * b);
    assert z * z == 4.0 * (r * r);
  }

  function Pow2(n: nat): real
    ensures 0.0 < Pow2(n) && n as real <= Pow2(n)
  {
    if n == 0 then 1.0 else 2.0 * Pow2(n - 1)
  }

  function Pow4(n: nat): real
    ensures 0.0 < Pow4(n) && n as real <= Pow4(n)
  {
    if n == 0 then 1.0 else 4.0 * Pow4(n - 1)
  }

  function CubicRadius(d: real, n: nat): real {
    d * d / 2.0 + Abs(d) * d * d / 2.0 / Pow4(n)
  }

  /** After n halvings the cubic error has been divided by 4^n, at every angle up to pi * 2^n. */
  lemma {:induction false} RemainderCubic(t: Circle, d: real, n: nat)
    requires Lawful(t) && Abs(d) <= t.pi * Pow2(n)
    ensures RemainderWithin(t, d, CubicRadius(d, n))
    decreases n
  {
    if n == 0 {
      RemainderSmallArc(t, d);
    } else {
      var h := d / 2.0;
      QuarterRadius(d, h, Pow4(n - 1));
      RemainderCubic(t, h, n - 1);
      RemainderHalving(t, d, CubicRadius(h, n - 1), CubicRadius(d, n));
    }
  }

  lemma QuarterRadius(d: real, h: real, q: real)
    requires h == d / 2.0 && 0.0 < q
    ensures d * d / 4.0 + 2.0 * (h * h / 2.0 + Abs(h) * h * h / 2.0 / q)
         == d * d / 2.0 + Abs(d) * d * d / 2.0 / (4.0 * q)
  {
    var k := Abs(d) * d * d / 2.0;
    assert Abs(h) == Abs(d) / 2.0;
    assert h * h == d * d / 4.0;
    assert Abs(h) * h * h == Abs(h) * (h * h) == Abs(d) * (d * d) / 8.0 == Abs(d) * d * d / 8.0;
    var e := k / 8.0 / q;
    DivMul(k / 8.0, q);
    assert (2.0 * e) * (4.0 * q) == 8.0 * (e * q);
    DivUnique(k, 4.0 * q, 2.0 * e);
  }

  /** An error k / q with q this large cannot lift the squared length to a^2 + g. */
  lemma SlackExhausted(x: real, y: real, a: real, k: real, q: real, g: real, w: real)
    requires 0.0 <= a && 0.0 <= k && 0.0 < g && 0.0 < q
    requires k <= q && k * (2.0 * a + 1.0) < q * g
    requires w == a + k / q && Within(x, y, w)
    ensures x * x + y * y < a * a + g
  {
    var e := k / q;
    DivMul(k, q);
    CancelRight(e, 1.0, q);
    CancelRight(0.0, e, q);
    assert (e * (2.0 * a + 1.0)) * q == (e * q) * (2.0 * a + 1.0);
    CancelRightStrict(e * (2.0 * a + 1.0), g, q);
    MulMono(e, 1.0, e);
    assert w * w == a * a + e * (2.0 * a) + e * e;
    assert e * (2.0 * a + 1.0) == e * (2.0 * a) + e;
  }

  lemma EnoughHalvings(x: real, p: real, k: real, m: real, g: real) returns (n: nat)
    requires 0.0 < p && 0.0 < g
    ensures x <= p * Pow2(n) && k <= Pow4(n) && m < Pow4(n) * g
  {
    var n0 := Archimedes(x / p);
    var n1 := Archimedes(k);
    var n2 := Archimedes(m / g + 1.0);
    n := n0 + n1 + n2;
    assert n as real == n0 as real + n1 as real + n2 as real;
    DivMul(x, p);
    MulMono(x / p, Pow2(n), p);
    DivMul(m, g);
    MulPos(Pow4(n) - m / g, g);
  }

  lemma SecondOrder(t: Circle, d: real)
    requires Lawful(t)
    ensures RemainderWithin(t, d, d * d / 2.0)
  {
    var x, y, a := t.cos(d) - 1.0, t.sin(d) - d, d * d / 2.0;
    var g := x * x + y * y - a * a;
    if 0.0 < g {
      RemainderBelow(t, d, a, Abs(d) * d * d / 2.0, g);
    }
  }

  lemma RemainderBelow(t: Circle, d: real, a: real, k: real, g: real)
    requires Lawful(t) && 0.0 < g
    requires a == d * d / 2.0 && k == Abs(d) * d * d / 2.0
    ensures (t.cos(d) - 1.0) * (t.cos(d) - 1.0) + (t.sin(d) - d) * (t.sin(d) - d) < a * a + g
  {
    NonNegCube(d);
    var n := EnoughHalvings(Abs(d), t.pi, k, k * (2.0 * a + 1.0), g);
    RemainderCubic(t, d, n);
    CubicSlack(t, d, n, a, k, g, CubicRadius(d, n));
  }

  lemma CubicSlack(t: Circle, d: real, n: nat, a: real, k: real, g: real, w: real)
    requires 0.0 <= a && 0.0 <= k && 0.0 < g && RemainderWithin(t, d, w)
    requires k <= Pow4(n) && k * (2.0 * a + 1.0) < Pow4(n) * g && w == a + k / Pow4(n)
    ensures (t.cos(d) - 1.0) * (t.cos(d) - 1.0) + (t.sin(d) - d) * (t.sin(d) - d) < a * a + g
  {
    SlackExhausted(t.cos(d) - 1.0, t.sin(d) - d, a, k, Pow4(n), g, w);
  }

  lemma NonNegCube(d: real)
    ensures 0.0 <= Abs(d) * d * d / 2.0
  {
    MulNonNeg(Abs(d), d * d);
    assert Abs(d) * d * d == Abs(d) * (d * d);
  }

  /** First-order Taylor expansion of both functions, with the sharp remainder. */
  lemma CosineTaylor(t: Circle, a: real, d: real)
    requires Lawful(t)
    ensures Abs(t.cos(a + d) - t.cos(a) + Prod(t.sin(a), d)) <= Square(d) / 2.0
  {
    assert AdditionAt(t, a, d);
    assert OnUnitCircle(t, a);
    SecondOrder(t, d);
    RotatedRemainder(t, a, d, Square(d) / 2.0);
  }

  lemma SineTaylor(t: Circle, a: real, d: real)
    requires Lawful(t)
    ensures Abs(t.sin(a + d) - t.sin(a) - Prod(t.cos(a), d)) <= Square(d) / 2.0
  {
    assert AdditionAt(t, a, d);
    assert OnUnitCircle(t, a);
    SecondOrder(t, d);
    RotatedRemainder(t, a, d, Square(d) / 2.0);
  }

  lemma RotatedRemainder(t: Circle, a: real, d: real, r: real)
    requires OnUnitCircle(t, a) && AdditionAt(t, a, d) && RemainderWithin(t, d, r)
    ensures Abs(t.cos(a + d) - t.cos(a) + Prod(t.sin(a), d)) <= r
    ensures Abs(t.sin(a + d) - t.sin(a) - Prod(t.cos(a), d)) <= r
  {
    hide Within;
    RotatedCosine(t.cos(a), t.sin(a), t.cos(d), t.sin(d), d, t.cos(a + d), r);
    RotatedSine(t.cos(a), t.sin(a), t.cos(d), t.sin(d), d, t.sin(a + d), r);
  }

  lemma RotatedCosine(c: real, s: real, cd: real, sd: real, d: real, cb: real, r: real)
    requires s * s + c * c == 1.0 && Within(cd - 1.0, sd - d, r)
    requires cb == c * cd - s * sd
    ensures Abs(cb - c + Prod(s, d)) <= r
  {
    hide Within, Prod;
    UnitVector(c, s);
    InnerProduct(c, -s, 1.0, cd - 1.0, sd - d, r);
    RotatedIdentities(c, s, cd, sd, d);
  }

  lemma RotatedSine(c: real, s: real, cd: real, sd: real, d: real, sb: real, r: real)
    requires s * s + c * c == 1.0 && Within(cd - 1.0, sd - d, r)
    requires sb == s * cd + c * sd
    ensures Abs(sb - s - Prod(c, d)) <= r
  {
    hide Within, Prod;
    UnitVector(c, s);
    InnerProduct(s, c, 1.0, cd - 1.0, sd - d, r);
    RotatedIdentities(c, s, cd, sd, d);
  }

  lemma UnitVector(c: real, s: real)
    requires s * s + c * c == 1.0
    ensures Within(s, c, 1.0) && Within(c, -s, 1.0)
  {
  }

  lemma RotatedIdentities(c: real, s: real, cd: real, sd: real, d: real)
    ensures c * (cd - 1.0) + -s * (sd - d) == c * cd - s * sd - c + Prod(s, d)
    ensures s * (cd - 1.0) + c * (sd - d) == s * cd + c * sd - s - Prod(c, d)
  {
  }
}
