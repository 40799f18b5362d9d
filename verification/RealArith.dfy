/** Small facts about products and quotients of reals. */
module RealArith {

  // Named products, so that a square is handled like any other product.

  function Mul(a: real, b: real): real { a * b }
  function Square(x: real): real { Mul(x, x) }

  function RMax(a: real, b: real): real { if a < b then b else a }
  function RMin(a: real, b: real): real { if b < a then b else a }

  lemma MulPositive(a: real, b: real)
    requires a > 0.0 && b > 0.0
    ensures Mul(a, b) > 0.0
  {
  }

  lemma MulNonNegative(a: real, b: real)
    requires a >= 0.0 && b >= 0.0
    ensures Mul(a, b) >= 0.0
  {
  }

  lemma MulComm(a: real, b: real)
    ensures Mul(a, b) == Mul(b, a)
  {
  }

  lemma MulAssoc(a: real, b: real, c: real)
    ensures Mul(Mul(a, b), c) == Mul(a, Mul(b, c))
  {
  }

  lemma MulAdd(a: real, b: real, c: real)
    ensures Mul(a + b, c) == Mul(a, c) + Mul(b, c)
    ensures Mul(a - b, c) == Mul(a, c) - Mul(b, c)
    ensures Mul(c, a + b) == Mul(c, a) + Mul(c, b)
    ensures Mul(c, a - b) == Mul(c, a) - Mul(c, b)
  {
  }

  lemma MulMono(a: real, b: real, x: real)
    requires a <= b && 0.0 <= x
    ensures Mul(a, x) <= Mul(b, x)
    ensures Mul(x, a) <= Mul(x, b)
  {
  }

  lemma MulStrict(a: real, b: real, x: real)
    requires a < b && 0.0 < x
    ensures Mul(a, x) < Mul(b, x)
    ensures Mul(x, a) < Mul(x, b)
  {
  }

  lemma QuotientMul(x: real, d: real)
    requires d != 0.0
    ensures Mul(x / d, d) == x
  {
  }

  lemma Cancel(a: real, b: real, d: real)
    requires d > 0.0 && Mul(a, d) == Mul(b, d)
    ensures a == b
  {
    if a < b {
      MulStrict(a, b, d);
    } else if b < a {
      MulStrict(b, a, d);
    }
  }

  lemma DivideBy(x: real, y: real, d: real)
    requires d > 0.0
    ensures x / d <= y / d <==> x <= y
  {
    QuotientMul(x, d);
    QuotientMul(y, d);
    if x / d <= y / d {
      MulMono(x / d, y / d, d);
    } else {
      MulStrict(y / d, x / d, d);
    }
  }

  lemma DivideSum(x: real, y: real, d: real)
    requires d > 0.0
    ensures (x + y) / d == x / d + y / d
    ensures (x - y) / d == x / d - y / d
  {
    QuotientMul(x, d);
    QuotientMul(y, d);
    MulAdd(x / d, y / d, d);
    QuotientMul(x + y, d);
    QuotientMul(x - y, d);
    Cancel((x + y) / d, x / d + y / d, d);
    Cancel((x - y) / d, x / d - y / d, d);
  }

  lemma QuotientSum(u: real, v: real, d: real, e: real)
    requires d > 0.0 && u + v == d + e
    ensures u / d + v / d == 1.0 + e / d
  {
    DivideSum(u, v, d);
    DivideSum(d, e, d);
  }

  lemma InverseOrder(k: real, x: real, y: real)
    requires 0.0 <= k && 0.0 < x <= y
    ensures k / x >= k / y
  {
    QuotientMul(k, x);
    QuotientMul(k, y);
    DivideBy(0.0, k, y);
    if k / x < k / y {
      MulStrict(k / x, k / y, x);
      MulMono(x, y, k / y);
    }
  }

  /** c/p is below x when m times the square of x exceeds one and (2m + 1) times the square of c/p does not. */
  lemma SquareBound(m: real, c: real, p: real, x: real)
    requires m > 0.0 && p > 0.0 && x > 0.0 && c >= 0.0
    requires Mul(m, Square(x)) > 1.0 && Mul(2.0 * m + 1.0, Square(c)) <= Square(p)
    ensures c / p < x
  {
    QuotientMul(c, p);
    if c / p >= x {
      MulMono(x, c / p, p);
      SquareTooLarge(m, c, p, x);
    }
  }

  lemma SquareTooLarge(m: real, c: real, p: real, x: real)
    requires m > 0.0 && p > 0.0 && x > 0.0 && Mul(m, Square(x)) > 1.0 && c >= Mul(x, p)
    ensures Mul(2.0 * m + 1.0, Square(c)) > Square(p)
  {
    var q := Mul(x, p);
    MulPositive(x, p);
    MulMono(q, c, q);
    MulMono(q, c, c);
    MulMono(Square(q), Square(c), m);
    MulPositive(p, p);
    MulStrict(1.0, Mul(m, Square(x)), Square(p));
    SquareOfProduct(m, x, p);
    MulNonNegative(m + 1.0, Square(c));
    MulAdd(m, m + 1.0, Square(c));
  }

  lemma SquareOfProduct(m: real, x: real, p: real)
    ensures Mul(m, Square(Mul(x, p))) == Mul(Mul(m, Square(x)), Square(p))
  {
    MulAssoc(x, p, Mul(x, p));
    MulAssoc(p, x, p);
    MulComm(x, p);
    MulAssoc(x, x, Square(p));
    MulComm(p, Mul(p, x));
    MulAssoc(p, p, x);
    MulComm(Square(p), x);
    MulAssoc(m, Square(x), Square(p));
  }

  /** Some multiple of a positive square exceeds one. */
  lemma LargeMultiple(x: real) returns (m: nat)
    requires x > 0.0
    ensures m > 0 && Mul(m as real, Square(x)) > 1.0
  {
    MulPositive(x, x);
    m := LargeFactor(Square(x));
  }

  lemma LargeFactor(e: real) returns (m: nat)
    requires e > 0.0
    ensures m > 0 && Mul(m as real, e) > 1.0
  {
    var q := 1.0 / e;
    QuotientMul(1.0, e);
    if q < 0.0 {
      MulStrict(q, 0.0, e);
    }
    m := q.Floor + 1;
    MulStrict(q, m as real, e);
  }
}
