/** Small facts about real arithmetic that the nonlinear proofs share. */
module Reals {
  function Abs(x: real): real { if x < 0.0 then -x else x }

  function Max(x: real, y: real): real { if x < y then y else x }

  function Min(x: real, y: real): real { if x < y then x else y }

  /** Multiplication under a name: a proof that hides it sees linear arithmetic only. */
  function Prod(x: real, y: real): real { x * y }

  function Square(x: real): real { Prod(x, x) }

  function Cube(x: real): real { Prod(Square(x), x) }

  lemma MulMono(a: real, b: real, c: real)
    requires a <= b && 0.0 <= c
    ensures a * c <= b * c
  {
  }

  lemma MulNonNeg(a: real, b: real)
    requires 0.0 <= a && 0.0 <= b
    ensures 0.0 <= a * b
  {
  }

  lemma MulPos(a: real, b: real)
    requires 0.0 < a && 0.0 < b
    ensures 0.0 < a * b
  {
  }

  lemma ProdPos(a: real, b: real)
    requires 0.0 < a && 0.0 < b
    ensures 0.0 < Prod(a, b)
  {
  }

  lemma SquarePos(x: real)
    requires 0.0 < x
    ensures 0.0 < Square(x)
  {
    hide Prod;
    ProdPos(x, x);
  }

  lemma CubePos(x: real)
    requires 0.0 < x
    ensures 0.0 < Cube(x)
  {
    hide Prod, Square;
    SquarePos(x);
    ProdPos(Square(x), x);
  }

  lemma ProdNonNeg(a: real, b: real)
    requires 0.0 <= a && 0.0 <= b
    ensures 0.0 <= Prod(a, b)
  {
  }

  lemma ProdMono(a: real, b: real, c: real)
    requires a <= b && 0.0 <= c
    ensures Prod(a, c) <= Prod(b, c) && Prod(c, a) <= Prod(c, b)
  {
  }

  lemma ProdLinear(k: real, x: real, y: real)
    ensures Prod(k, x + y) == Prod(k, x) + Prod(k, y)
    ensures Prod(k, x - y) == Prod(k, x) - Prod(k, y)
    ensures Prod(k, 1.0) == k && Prod(k, 0.0) == 0.0
    ensures Prod(k, x) == Prod(x, k)
  {
  }

  lemma ProdComm(a: real, b: real)
    ensures Prod(a, b) == Prod(b, a)
  {
  }

  lemma ProdAssoc(a: real, b: real, c: real)
    ensures Prod(Prod(a, b), c) == Prod(a, Prod(b, c))
  {
    assert (a * b) * c == a * (b * c);
  }

  lemma ProdRegroup(a: real, b: real, c: real, d: real)
    ensures Prod(Prod(a, b), Prod(c, d)) == Prod(Prod(a, d), Prod(b, c))
  {
    hide Prod;
    ProdAssoc(a, b, Prod(c, d));
    ProdAssoc(b, c, d);
    ProdComm(Prod(b, c), d);
    ProdAssoc(a, d, Prod(b, c));
  }

  lemma QuotientProd(x: real, b: real)
    requires b != 0.0
    ensures Prod(x / b, b) == x
  {
    DivMul(x, b);
  }

  /** Times o = omega / b, a multiple of b turns into the same multiple of omega. */
  lemma Absorb(x: real, o: real, b: real, omega: real, y: real)
    requires Prod(o, b) == omega && Prod(y, b) == x
    ensures Prod(x, o) == Prod(y, omega)
  {
    hide Prod;
    ProdAssoc(y, b, o);
    ProdComm(b, o);
  }

  lemma AbsMul(a: real, b: real)
    ensures Abs(a * b) == Abs(a) * Abs(b)
  {
  }

  lemma SquareMono(a: real, b: real)
    requires Abs(a) <= b
    ensures a * a <= b * b
  {
    MulNonNeg(b - a, b + a);
    assert (b - a) * (b + a) == b * b - a * a;
  }

  lemma SquareStrict(a: real, b: real)
    requires 0.0 <= a < b
    ensures a * a < b * b
  {
    MulPos(b - a, b + a);
    assert (b - a) * (b + a) == b * b - a * a;
  }

  lemma SquareZero(a: real)
    requires a * a == 0.0
    ensures a == 0.0
  {
    ZeroProduct(a, a);
  }

  lemma ZeroProduct(a: real, b: real)
    requires a * b == 0.0
    ensures a == 0.0 || b == 0.0
  {
  }

  lemma SquareReflect(a: real, b: real)
    requires 0.0 <= b && a * a <= b * b
    ensures Abs(a) <= b
  {
    AbsMul(a, a);
    if b < Abs(a) {
      SquareStrict(b, Abs(a));
    }
  }

  lemma DivMul(x: real, b: real)
    requires b != 0.0
    ensures (x / b) * b == x
  {
  }

  /** A quotient is the only solution of its defining equation. */
  lemma DivUnique(x: real, b: real, q: real)
    requires b != 0.0 && q * b == x
    ensures x / b == q
  {
    DivMul(x, b);
    assert (x / b - q) * b == 0.0;
  }

  lemma PositiveQuotient(x: real, b: real)
    requires 0.0 < x && 0.0 < b
    ensures 0.0 < x / b
  {
    DivMul(x, b);
    CancelRightStrict(0.0, x / b, b);
  }

  /** Where a share x / b lies relative to the unit interval. */
  lemma ShareOrder(x: real, b: real)
    requires 0.0 < b
    ensures x <= 0.0 ==> x / b <= 0.0
    ensures b <= x ==> 1.0 <= x / b
  {
    DivMul(x, b);
    if x <= 0.0 {
      CancelRight(x / b, 0.0, b);
    }
    if b <= x {
      CancelRight(1.0, x / b, b);
    }
  }

  lemma DivMono(x: real, y: real, b: real)
    requires x <= y && 0.0 < b
    ensures x / b <= y / b
  {
    CancelRight(x / b, y / b, b);
  }

  lemma CancelRight(a: real, b: real, c: real)
    requires 0.0 < c && a * c <= b * c
    ensures a <= b
  {
    if b < a {
      MulPos(a - b, c);
    }
  }

  lemma CancelRightStrict(a: real, b: real, c: real)
    requires 0.0 < c && a * c < b * c
    ensures a < b
  {
    if b <= a {
      MulMono(b, a, c);
    }
  }

  lemma DivSub(x: real, y: real, b: real)
    requires b != 0.0
    ensures x / b - y / b == (x - y) / b
  {
    DivMul(x, b);
    DivMul(y, b);
    DivUnique(x - y, b, x / b - y / b);
  }

  /** Every real lies below some natural number. */
  lemma Archimedes(x: real) returns (n: nat)
    ensures x <= n as real
  {
    n := if x <= 0.0 then 0 else x.Floor + 1;
  }
}
