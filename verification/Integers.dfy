/** Quotients, remainders and greatest common divisors. */
module Integers {
  lemma MultipleBounds(p: int, d: int)
    requires p > 0
    ensures d >= 1 ==> p * d >= p
    ensures d <= -1 ==> p * d <= -p
    ensures d == 0 ==> p * d == 0
  {
  }

  lemma MulMinus(c: int, q: int, p: int)
    ensures c * (q - p) == c * q - c * p
  {
  }

  lemma QuotientUnique(x: int, p: int, q: int, r: int)
    requires p > 0 && x == p * q + r && 0 <= r < p
    ensures x / p == q && x % p == r
  {
    var d := x / p - q;
    assert x == p * (x / p) + x % p;
    assert p * d == r - x % p;
    MultipleBounds(p, d);
  }

  ghost function Pow2(k: nat): int { if k == 0 then 1 else 2 * Pow2(k - 1) }

  function Euclid(a: nat, b: nat): nat
    decreases b
  {
    if b == 0 then a else Euclid(b, a % b)
  }

  lemma SplitProduct(g: int, k: int, x: int, y: int, b: int)
    requires b == g * x
    ensures k * b + g * y == g * (k * x + y)
  {
    assert k * (g * x) == g * (k * x);
  }

  /** The result of the algorithm divides both numbers. */
  lemma {:induction false} EuclidDivides(a: nat, b: nat) returns (x: nat, y: nat)
    requires a > 0
    ensures Euclid(a, b) > 0 && a == Euclid(a, b) * x && b == Euclid(a, b) * y && x > 0
    decreases b
  {
    if b == 0 {
      x, y := 1, 0;
    } else {
      var x1, y1 := EuclidDivides(b, a % b);
      var g := Euclid(b, a % b);
      SplitProduct(g, a / b, x1, y1, b);
      assert a == (a / b) * b + a % b;
      x, y := (a / b) * x1 + y1, x1;
    }
  }

  lemma EuclidPositive(a: nat, b: nat)
    requires a > 0
    ensures Euclid(a, b) > 0
  {
    var x, y := EuclidDivides(a, b);
  }

  lemma CombineRemainder(a: int, b: int, q: int, r: int, u: int, v: int)
    requires a == q * b + r
    ensures b * u + r * v == a * v + b * (u - q * v)
  {
    assert r * v == a * v - q * b * v;
  }

  /** It is a combination of both numbers. */
  lemma {:induction false} Bezout(a: nat, b: nat) returns (u: int, v: int)
    ensures Euclid(a, b) == a * u + b * v
    decreases b
  {
    if b == 0 {
      u, v := 1, 0;
    } else {
      var u1, v1 := Bezout(b, a % b);
      CombineRemainder(a, b, a / b, a % b, u1, v1);
      u, v := v1, u1 - (a / b) * v1;
    }
  }
}
