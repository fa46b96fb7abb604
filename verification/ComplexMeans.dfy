/** The mean of two complex numbers in given shares. */
module ComplexMeans {
  import opened RealSums

  function Blend(share: real, a: Complex, b: Complex): Complex {
    Complex((1.0 - share) * a.re + share * b.re, (1.0 - share) * a.im + share * b.im)
  }

  lemma Convex(t: real, share: real, x: real, y: real, mixed: real, weight: real, square: real)
    requires t + share == 1.0 && mixed == t * x + share * y && weight == t * share && square == (x - y) * (x - y)
    ensures mixed * mixed == t * (x * x) + share * (y * y) - weight * square
  {
    assert t == 1.0 - share;
    assert mixed == x - share * (x - y);
    assert mixed * mixed == x * x - 2.0 * share * x * (x - y) + share * share * square;
  }

  /** The square of a mean is at most the mean of the squares. */
  lemma ConvexBound(t: real, share: real, x: real, y: real, mixed: real, xx: real, yy: real, zz: real)
    requires t + share == 1.0 && t > 0.0 && share > 0.0 && mixed == t * x + share * y
    requires xx == x * x && yy == y * y && zz == mixed * mixed
    ensures zz <= t * xx + share * yy
  {
    var (weight, square) := (t * share, (x - y) * (x - y));
    Convex(t, share, x, y, mixed, weight, square);
    BothPositive(t, share, weight);
    Square(x - y, square);
    NonNegative(weight, square, weight * square);
  }

  lemma ShareOfSum(t: real, p: real, q: real, tp: real, tq: real)
    requires t >= 0.0 && p + q <= 1.0 && tp == t * p && tq == t * q
    ensures tp + tq <= t
  {
    var rest := 1.0 - p - q;
    NonNegative(t, rest, t * rest);
    assert t * rest == t - tp - tq;
  }

  lemma CombineShares(t: real, share: real, p1: real, p2: real, q1: real, q2: real, z1: real, z2: real)
    requires t + share == 1.0 && t > 0.0 && share > 0.0 && p1 + p2 <= 1.0 && q1 + q2 <= 1.0
    requires z1 <= t * p1 + share * q1 && z2 <= t * p2 + share * q2
    ensures z1 + z2 <= 1.0
  {
    var (a1, a2, b1, b2) := (t * p1, t * p2, share * q1, share * q2);
    ShareOfSum(t, p1, p2, a1, a2);
    ShareOfSum(share, q1, q2, b1, b2);
  }

  lemma BlendParts(t: real, share: real, x1: real, x2: real, y1: real, y2: real, z1: real, z2: real, z: real)
    requires t + share == 1.0 && t > 0.0 && share > 0.0
    requires z1 == t * x1 + share * y1 && z2 == t * x2 + share * y2 && z == z1 * z1 + z2 * z2
    requires Norm(Complex(x1, x2)) <= 1.0 && Norm(Complex(y1, y2)) <= 1.0
    ensures z <= 1.0
  {
    var (p1, p2, q1, q2) := (x1 * x1, x2 * x2, y1 * y1, y2 * y2);
    var (w1, w2) := (z1 * z1, z2 * z2);
    ConvexBound(t, share, x1, y1, z1, p1, q1, w1);
    ConvexBound(t, share, x2, y2, z2, p2, q2, w2);
    CombineShares(t, share, p1, p2, q1, q2, w1, w2);
  }

  lemma BlendAtMostOne(share: real, a: Complex, b: Complex)
    requires 0.0 < share < 1.0 && Norm(a) <= 1.0 && Norm(b) <= 1.0
    ensures Norm(Blend(share, a, b)) <= 1.0
  {
    var (t, x1, x2, y1, y2) := (1.0 - share, a.re, a.im, b.re, b.im);
    var (z1, z2) := (t * x1 + share * y1, t * x2 + share * y2);
    var r := Complex(z1, z2);
    assert r == Blend(share, a, b) && a == Complex(x1, x2) && b == Complex(y1, y2);
    BlendParts(t, share, x1, x2, y1, y2, z1, z2, Norm(r));
  }

  lemma BlendOfZeros(share: real)
    ensures Blend(share, ZERO, ZERO) == ZERO
  {
  }

  lemma MixedNegatives(t: real, x: real, y: real, product: real)
    requires product == t * x && y == -x
    ensures t * y == -product
  {
    assert t * (x + y) == product + t * y;
  }

  lemma BlendConj(share: real, a: Complex, b: Complex)
    ensures Blend(share, Conj(a), Conj(b)) == Conj(Blend(share, a, b))
  {
    var t := 1.0 - share;
    var (p, q) := (t * a.im, share * b.im);
    MixedNegatives(t, a.im, -a.im, p);
    MixedNegatives(share, b.im, -b.im, q);
    assert Blend(share, Conj(a), Conj(b)).im == -p - q;
  }

  lemma BlendOfOnes(share: real)
    ensures Blend(share, Complex(1.0, 0.0), Complex(1.0, 0.0)) == Complex(1.0, 0.0)
  {
  }
}
