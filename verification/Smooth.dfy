/** Quantitative smoothness of one step of a curve, and how such steps compose.

    A law, a segment and the whole turn are all shown smooth in this one sense, so the whole-turn
    theorems follow by rescaling steps and chaining them end to end. */
module Smooth {
  import opened Reals

  /** Over an argument step d the value changes by dy and the slope goes from u to w.  The step is
      smooth when the value is `speed`-Lipschitz, the slope is `bend`-Lipschitz, and u is the true
      derivative up to the quadratic remainder that `bend` allows. */
  ghost predicate SmoothStep(d: real, dy: real, u: real, w: real, speed: real, bend: real) {
    && Lipschitz(d, dy, speed)
    && Lipschitz(d, w - u, bend)
    && Remainder(d, dy, u, bend)
  }

  ghost predicate Lipschitz(d: real, dy: real, k: real) {
    Abs(dy) <= Prod(k, Abs(d))
  }

  ghost predicate Remainder(d: real, dy: real, u: real, bend: real) {
    Abs(dy - Prod(u, d)) <= Prod(bend / 2.0, Prod(d, d))
  }

  predicate SameDirection(d: real, e: real) {
    (0.0 <= d && 0.0 <= e) || (d <= 0.0 && e <= 0.0)
  }

  lemma Still(d: real, speed: real, bend: real)
    requires 0.0 <= speed && 0.0 <= bend
    ensures SmoothStep(d, 0.0, 0.0, 0.0, speed, bend)
  {
    MulNonNeg(speed, Abs(d));
    MulNonNeg(bend, Abs(d));
    MulNonNeg(bend / 2.0, d * d);
  }

  lemma Mirror(d: real, dy: real, u: real, w: real, speed: real, bend: real)
    requires SmoothStep(d, dy, u, w, speed, bend)
    ensures SmoothStep(d, -dy, -u, -w, speed, bend)
  {
    assert -dy - -u * d == -(dy - u * d);
  }

  /** Reading a curve backwards and upside down keeps its slopes. */
  lemma Reverse(d: real, dy: real, u: real, w: real, speed: real, bend: real)
    requires SmoothStep(d, dy, u, w, speed, bend)
    ensures SmoothStep(-d, -dy, u, w, speed, bend)
  {
    assert -dy - u * -d == -(dy - u * d);
    assert -d * -d == d * d;
  }

  lemma Widen(d: real, dy: real, u: real, w: real, speed: real, bend: real, speed': real, bend': real)
    requires SmoothStep(d, dy, u, w, speed, bend) && speed <= speed' && bend <= bend'
    ensures SmoothStep(d, dy, u, w, speed', bend')
  {
    hide Prod;
    WidenLipschitz(d, dy, speed, speed');
    WidenLipschitz(d, w - u, bend, bend');
    WidenRemainder(d, dy, u, bend, bend');
  }

  lemma WidenLipschitz(d: real, dy: real, k: real, k': real)
    requires Lipschitz(d, dy, k) && k <= k'
    ensures Lipschitz(d, dy, k')
  {
    MulMono(k, k', Abs(d));
  }

  lemma WidenRemainder(d: real, dy: real, u: real, bend: real, bend': real)
    requires Remainder(d, dy, u, bend) && bend <= bend'
    ensures Remainder(d, dy, u, bend')
  {
    MulMono(bend / 2.0, bend' / 2.0, d * d);
  }

  /** Two smooth steps in the same direction that share their middle slope make one smooth step. */
  lemma Chain(d: real, dy: real, u: real, e: real, ey: real, m: real, w: real, speed: real, bend: real)
    requires SmoothStep(d, dy, u, m, speed, bend) && SmoothStep(e, ey, m, w, speed, bend)
    requires SameDirection(d, e)
    ensures SmoothStep(d + e, dy + ey, u, w, speed, bend)
  {
    hide Prod;
    ChainLipschitz(d, dy, e, ey, dy + ey, speed);
    ChainLipschitz(d, m - u, e, w - m, w - u, bend);
    ChainRemainder(d, dy, u, e, ey, m, bend);
  }

  lemma ChainLipschitz(d: real, x: real, e: real, y: real, z: real, k: real)
    requires Lipschitz(d, x, k) && Lipschitz(e, y, k) && z == x + y && SameDirection(d, e)
    ensures Lipschitz(d + e, z, k)
  {
    assert k * Abs(d + e) == k * Abs(d) + k * Abs(e);
  }

  lemma ChainRemainder(d: real, dy: real, u: real, e: real, ey: real, m: real, bend: real)
    requires Remainder(d, dy, u, bend) && Remainder(e, ey, m, bend) && Lipschitz(d, m - u, bend)
    requires SameDirection(d, e)
    ensures Remainder(d + e, dy + ey, u, bend)
  {
    hide Prod;
    CrossTerm(m - u, d, e, bend);
    Distribute(d, u, e, m, bend);
  }

  lemma CrossTerm(x: real, d: real, e: real, bend: real)
    requires Lipschitz(d, x, bend) && SameDirection(d, e)
    ensures Abs(Prod(x, e)) <= Prod(bend, Prod(d, e))
  {
    AbsMul(x, e);
    AbsMul(d, e);
    MulNonNeg(Abs(d), Abs(e));
    MulMono(Abs(x), bend * Abs(d), Abs(e));
    assert d * e == Abs(d) * Abs(e);
    assert bend * Abs(d) * Abs(e) == bend * (Abs(d) * Abs(e));
  }

  lemma Distribute(d: real, u: real, e: real, m: real, k: real)
    ensures Prod(u, d + e) == Prod(u, d) + Prod(m, e) - Prod(m - u, e)
    ensures Prod(k / 2.0, Prod(d + e, d + e))
         == Prod(k / 2.0, Prod(d, d)) + Prod(k / 2.0, Prod(e, e)) + Prod(k, Prod(d, e))
  {
  }

  /** Replacing the argument T by x / b and the value y by h y rescales slope, speed and bend. */
  lemma Rescale(d: real, dy: real, u: real, w: real, speed: real, bend: real, r: real, q: real,
                h: real, b: real, k: real)
    requires 0.0 < b && 0.0 < h && r == d / b && q == h / b && k == bend / b
    requires SmoothStep(r, dy, u, w, speed, bend)
    ensures SmoothStep(d, h * dy, q * u, q * w, q * speed, q * k)
  {
    hide Prod;
    Quotients(d, r, h, q, bend, k, b);
    ScaleValue(dy, speed, r, d, q, b, h);
    ScaleSlope(w - u, bend, r, d, q, b, k, q * w - q * u);
    ScaleRemainder(dy, u, r, d, q, b, h, bend, k);
  }

  /** The same with the rescaled quantities named. */
  lemma RescaleTo(d: real, dy: real, u: real, w: real, speed: real, bend: real, r: real, q: real,
                  h: real, b: real, k: real, dz: real, u': real, w': real, speed': real, bend': real)
    requires 0.0 < b && 0.0 < h && r == d / b && q == h / b && k == bend / b
    requires SmoothStep(r, dy, u, w, speed, bend)
    requires dz == h * dy && u' == q * u && w' == q * w && speed' == q * speed && bend' == q * k
    ensures SmoothStep(d, dz, u', w', speed', bend')
  {
    hide SmoothStep;
    Rescale(d, dy, u, w, speed, bend, r, q, h, b, k);
  }

  lemma Quotients(d: real, r: real, h: real, q: real, bend: real, k: real, b: real)
    requires 0.0 < b && 0.0 < h && r == d / b && q == h / b && k == bend / b
    ensures d == r * b && h == q * b && bend == k * b && 0.0 <= q
  {
    DivMul(d, b);
    DivMul(h, b);
    DivMul(bend, b);
    CancelRight(0.0, q, b);
  }

  lemma ScaleValue(dy: real, speed: real, r: real, d: real, q: real, b: real, h: real)
    requires Lipschitz(r, dy, speed) && d == r * b && h == q * b && 0.0 < h && 0.0 < b
    ensures Lipschitz(d, h * dy, q * speed)
  {
    AbsMul(h, dy);
    AbsMul(r, b);
    MulMono(Abs(dy), speed * Abs(r), h);
    assert q * speed * Abs(d) == (q * b) * (speed * Abs(r));
  }

  lemma ScaleSlope(dw: real, bend: real, r: real, d: real, q: real, b: real, k: real, e: real)
    requires Lipschitz(r, dw, bend) && d == r * b && bend == k * b && 0.0 <= q && 0.0 < b && e == q * dw
    ensures Lipschitz(d, e, q * k)
  {
    AbsMul(q, dw);
    AbsMul(r, b);
    MulMono(Abs(dw), bend * Abs(r), q);
    assert q * k * Abs(d) == q * ((k * b) * Abs(r));
  }

  lemma ScaleRemainder(dy: real, u: real, r: real, d: real, q: real, b: real, h: real, bend: real, k: real)
    requires Remainder(r, dy, u, bend) && d == r * b && h == q * b && bend == k * b && 0.0 < h
    ensures Remainder(d, h * dy, q * u, q * k)
  {
    hide Prod;
    ScaleBound(h, dy - Prod(u, r), Prod(bend / 2.0, Prod(r, r)));
    ScaleIdentities(dy, u, r, d, q, b, h, bend, k);
  }

  lemma ScaleRemainderTo(dy: real, u: real, r: real, d: real, q: real, b: real, h: real, bend: real, k: real,
                         dz: real, u': real, k': real)
    requires Remainder(r, dy, u, bend) && d == r * b && h == q * b && bend == k * b && 0.0 < h
    requires dz == h * dy && u' == q * u && k' == q * k
    ensures Remainder(d, dz, u', k')
  {
    hide Remainder;
    ScaleRemainder(dy, u, r, d, q, b, h, bend, k);
  }

  lemma ScaleBound(h: real, x: real, y: real)
    requires Abs(x) <= y && 0.0 < h
    ensures Abs(Prod(h, x)) <= Prod(h, y)
  {
    AbsMul(h, x);
    MulMono(Abs(x), y, h);
  }

  lemma ScaleIdentities(dy: real, u: real, r: real, d: real, q: real, b: real, h: real, bend: real, k: real)
    requires d == r * b && h == q * b && bend == k * b
    ensures h * dy - Prod(q * u, d) == Prod(h, dy - Prod(u, r))
    ensures Prod(q * k / 2.0, Prod(d, d)) == Prod(h, Prod(bend / 2.0, Prod(r, r)))
  {
  }
}
