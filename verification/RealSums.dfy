/** Finite double sums of reals, and complex numbers over the reals. */
module RealSums {
  datatype Complex = Complex(re: real, im: real)

  const ZERO: Complex := Complex(0.0, 0.0)

  function Plus(a: Complex, b: Complex): Complex { Complex(a.re + b.re, a.im + b.im) }

  function Times(a: Complex, b: Complex): Complex { Complex(a.re * b.re - a.im * b.im, a.re * b.im + a.im * b.re) }

  function Conj(a: Complex): Complex { Complex(a.re, -a.im) }

  /** The squared magnitude. */
  function Norm(a: Complex): real { a.re * a.re + a.im * a.im }

  // ---------- Products ----------

  lemma Distribute(k: real, a: real, b: real, sum: real)
    requires sum == a + b
    ensures k * sum == k * a + k * b
  {
    assert k * (a + b) == k * a + k * b;
  }

  lemma Same(k: real, a: real, b: real)
    requires a == b
    ensures k * a == k * b
  {
  }

  lemma NonNegative(a: real, b: real, product: real)
    requires a >= 0.0 && b >= 0.0 && product == a * b
    ensures product >= 0.0
  {
  }

  lemma BothPositive(a: real, b: real, product: real)
    requires a > 0.0 && b > 0.0 && product == a * b
    ensures product > 0.0
  {
  }

  lemma BothNegative(a: real, b: real, product: real)
    requires a < 0.0 && b < 0.0 && product == a * b
    ensures product > 0.0
  {
  }

  lemma Square(x: real, square: real)
    requires square == x * x
    ensures square >= 0.0 && (x != 0.0 ==> square > 0.0)
  {
    if x > 0.0 {
      BothPositive(x, x, square);
    } else if x < 0.0 {
      BothNegative(x, x, square);
    }
  }

  /** Only zero has no magnitude. */
  lemma NormPositive(a: Complex, norm: real)
    requires norm == Norm(a)
    ensures norm >= 0.0 && (a != ZERO ==> norm > 0.0)
  {
    var (s, t) := (a.re * a.re, a.im * a.im);
    Square(a.re, s);
    Square(a.im, t);
  }

  type Term = (int, int) -> real

  /** The sum of one row. */
  function Row(f: Term, i: int, m: nat): real { if m == 0 then 0.0 else Row(f, i, m - 1) + f(i, m - 1) }

  function Column(f: Term, j: int, n: nat): real { if n == 0 then 0.0 else Column(f, j, n - 1) + f(n - 1, j) }

  /** The sum over the first `n` rows and `m` columns, row by row. */
  function Double(f: Term, n: nat, m: nat): real { if n == 0 then 0.0 else Double(f, n - 1, m) + Row(f, n - 1, m) }

  lemma {:induction false} AddColumn(f: Term, n: nat, m: nat)
    requires m > 0
    ensures Double(f, n, m) == Double(f, n, m - 1) + Column(f, m - 1, n)
  {
    if n > 0 {
      AddColumn(f, n - 1, m);
    }
  }

  lemma {:induction false} RowIsColumn(f: Term, g: Term, i: int, m: nat)
    requires forall j :: 0 <= j < m ==> f(i, j) == g(j, i)
    ensures Row(f, i, m) == Column(g, i, m)
  {
    if m > 0 {
      RowIsColumn(f, g, i, m - 1);
    }
  }

  lemma {:induction false} EmptyDouble(f: Term, n: nat)
    ensures Double(f, n, 0) == 0.0
  {
    if n > 0 {
      EmptyDouble(f, n - 1);
    }
  }

  /** Summing by rows or by columns is the same. */
  lemma {:induction false} Transpose(f: Term, g: Term, n: nat, m: nat)
    requires forall i, j :: 0 <= i < n && 0 <= j < m ==> f(i, j) == g(j, i)
    ensures Double(f, n, m) == Double(g, m, n)
  {
    if n == 0 {
      EmptyDouble(g, m);
    } else {
      Transpose(f, g, n - 1, m);
      RowIsColumn(f, g, n - 1, m);
      AddColumn(g, m, n);
    }
  }

  lemma {:induction false} RowScaled(f: Term, g: Term, k: real, i: int, m: nat)
    requires forall j :: 0 <= j < m ==> f(i, j) == k * g(i, j)
    ensures Row(f, i, m) == k * Row(g, i, m)
  {
    if m > 0 {
      RowScaled(f, g, k, i, m - 1);
      Distribute(k, Row(g, i, m - 1), g(i, m - 1), Row(g, i, m));
    }
  }

  lemma {:induction false} DoubleScaled(f: Term, g: Term, k: real, n: nat, m: nat)
    requires forall i, j :: 0 <= i < n && 0 <= j < m ==> f(i, j) == k * g(i, j)
    ensures Double(f, n, m) == k * Double(g, n, m)
  {
    if n > 0 {
      DoubleScaled(f, g, k, n - 1, m);
      RowScaled(f, g, k, n - 1, m);
      Distribute(k, Double(g, n - 1, m), Row(g, n - 1, m), Double(g, n, m));
    }
  }

  /** The relation kept by sums: a combination of two terms bounded by half of another. */
  predicate Bounded(u: real, v: real, c: real, f: real, g: real, p: real, q: real) {
    u * f + v * g <= 0.5 * (c * p + q)
  }

  lemma BoundedSum(u: real, v: real, c: real, f1: real, g1: real, p1: real, q1: real,
                   f2: real, g2: real, p2: real, q2: real)
    requires Bounded(u, v, c, f1, g1, p1, q1) && Bounded(u, v, c, f2, g2, p2, q2)
    ensures Bounded(u, v, c, f1 + f2, g1 + g2, p1 + p2, q1 + q2)
  {
    Distribute(u, f1, f2, f1 + f2);
    Distribute(v, g1, g2, g1 + g2);
    Distribute(c, p1, p2, p1 + p2);
  }

  lemma {:induction false} RowBounded(
    u: real, v: real, c: real, f: Term, g: Term, p: Term, q: Term, i: int, m: nat)
    requires forall j :: 0 <= j < m ==> Bounded(u, v, c, f(i, j), g(i, j), p(i, j), q(i, j))
    ensures Bounded(u, v, c, Row(f, i, m), Row(g, i, m), Row(p, i, m), Row(q, i, m))
  {
    if m > 0 {
      var k := m - 1;
      RowBounded(u, v, c, f, g, p, q, i, k);
      BoundedSum(u, v, c, Row(f, i, k), Row(g, i, k), Row(p, i, k), Row(q, i, k), f(i, k), g(i, k), p(i, k), q(i, k));
    }
  }

  lemma {:induction false} DoubleBounded(
    u: real, v: real, c: real, f: Term, g: Term, p: Term, q: Term, n: nat, m: nat)
    requires forall i, j :: 0 <= i < n && 0 <= j < m ==> Bounded(u, v, c, f(i, j), g(i, j), p(i, j), q(i, j))
    ensures Bounded(u, v, c, Double(f, n, m), Double(g, n, m), Double(p, n, m), Double(q, n, m))
  {
    if n > 0 {
      var k := n - 1;
      DoubleBounded(u, v, c, f, g, p, q, k, m);
      RowBounded(u, v, c, f, g, p, q, k, m);
      BoundedSum(u, v, c, Double(f, k, m), Double(g, k, m), Double(p, k, m), Double(q, k, m),
                 Row(f, k, m), Row(g, k, m), Row(p, k, m), Row(q, k, m));
    }
  }

  /** A sum of rows, each weighted by its own non-negative factor and itself at most one. */
  lemma {:induction false} WeightedRows(f: Term, t: Term, weight: int -> real, n: nat, m: nat)
    requires forall i, j :: 0 <= i < n && 0 <= j < m ==> f(i, j) == weight(i) * t(i, j)
    requires forall i :: 0 <= i < n ==> weight(i) >= 0.0 && Row(t, i, m) <= 1.0
    ensures Double(f, n, m) <= Single(weight, n)
  {
    if n > 0 {
      WeightedRows(f, t, weight, n - 1, m);
      RowScaled(f, t, weight(n - 1), n - 1, m);
      AtMostItself(weight(n - 1), Row(t, n - 1, m));
    }
  }

  lemma AtMostItself(weight: real, part: real)
    requires weight >= 0.0 && part <= 1.0
    ensures weight * part <= weight
  {
    assert weight * (1.0 - part) >= 0.0;
  }

  function Single(f: int -> real, n: nat): real { if n == 0 then 0.0 else Single(f, n - 1) + f(n - 1) }

  lemma {:induction false} ConstantSum(f: int -> real, value: real, n: nat)
    requires forall i :: 0 <= i < n ==> f(i) == value
    ensures Single(f, n) == (n as real) * value
  {
    if n > 0 {
      ConstantSum(f, value, n - 1);
      var before := (n - 1) as real;
      assert n as real == before + 1.0;
      assert (before + 1.0) * value == before * value + value;
    }
  }

  // ---------- Terms weighted by other terms ----------

  function Weighted(p: Term, t: Term): Term { (i, j) => p(i, j) * t(i, j) }

  lemma Regroup(a: real, b: real, k: real)
    ensures a * (k * b) == k * (a * b)
  {
  }

  predicate IsTimes(x: real, k: real, y: real) { x == k * y }

  /** The term s is k times the term t. */
  predicate Scaled(s: Term, t: Term, k: real, n: nat) {
    forall i, j :: 0 <= i < n && 0 <= j < n ==> IsTimes(s(i, j), k, t(i, j))
  }

  lemma WeightedScaled(p: Term, s: Term, t: Term, k: real, n: nat)
    requires Scaled(s, t, k, n)
    ensures Double(Weighted(p, s), n, n) == k * Double(Weighted(p, t), n, n)
  {
    forall i, j | 0 <= i < n && 0 <= j < n
      ensures Weighted(p, s)(i, j) == k * Weighted(p, t)(i, j)
    {
      assert IsTimes(s(i, j), k, t(i, j));
      Regroup(p(i, j), t(i, j), k);
    }
    DoubleScaled(Weighted(p, s), Weighted(p, t), k, n, n);
  }

  lemma MultiplyBoth(a: real, b: real, t: real)
    requires a <= b && t >= 0.0
    ensures a * t <= b * t
  {
    assert (b - a) * t >= 0.0;
  }

  lemma Spread(u: real, v: real, a: real, b: real, t: real)
    ensures (u * a + v * b) * t == u * (a * t) + v * (b * t)
  {
  }

  lemma BoundedWeight(u: real, v: real, c: real, f: real, g: real, p: real, q: real, t: real)
    requires Bounded(u, v, c, f, g, p, q) && t >= 0.0
    ensures Bounded(u, v, c, f * t, g * t, p * t, q * t)
  {
    MultiplyBoth(u * f + v * g, 0.5 * (c * p + q), t);
    Spread(u, v, f, g, t);
    Spread(c, 1.0, p, q, t);
    assert (0.5 * (c * p + q)) * t == 0.5 * ((c * p + q) * t);
  }

  lemma WeightedBounded(u: real, v: real, c: real, f: Term, g: Term, p: Term, q: Term, t: Term, n: nat)
    requires forall i, j :: 0 <= i < n && 0 <= j < n ==> Bounded(u, v, c, f(i, j), g(i, j), p(i, j), q(i, j))
    requires forall i, j :: 0 <= i < n && 0 <= j < n ==> t(i, j) >= 0.0
    ensures Bounded(u, v, c, Double(Weighted(f, t), n, n), Double(Weighted(g, t), n, n),
                    Double(Weighted(p, t), n, n), Double(Weighted(q, t), n, n))
  {
    forall i, j | 0 <= i < n && 0 <= j < n
      ensures Bounded(u, v, c, Weighted(f, t)(i, j), Weighted(g, t)(i, j), Weighted(p, t)(i, j), Weighted(q, t)(i, j))
    {
      BoundedWeight(u, v, c, f(i, j), g(i, j), p(i, j), q(i, j), t(i, j));
    }
    DoubleBounded(u, v, c, Weighted(f, t), Weighted(g, t), Weighted(p, t), Weighted(q, t), n, n);
  }

  /** A weight that depends on the row only, over rows that are each at most one. */
  lemma RowWeight(p: Term, weight: int -> real, t: Term, n: nat)
    requires forall i, j :: 0 <= i < n && 0 <= j < n ==> p(i, j) == weight(i)
    requires forall i :: 0 <= i < n ==> weight(i) >= 0.0 && Row(t, i, n) <= 1.0
    ensures Double(Weighted(p, t), n, n) <= Single(weight, n)
  {
    WeightedRows(Weighted(p, t), t, weight, n, n);
  }

  lemma WeightedTranspose(p: Term, t: Term, q: Term, s: Term, n: nat)
    requires forall i, j :: 0 <= i < n && 0 <= j < n ==> p(i, j) == q(j, i)
    requires forall i, j :: 0 <= i < n && 0 <= j < n ==> t(i, j) == s(j, i)
    ensures Double(Weighted(p, t), n, n) == Double(Weighted(q, s), n, n)
  {
    Transpose(Weighted(p, t), Weighted(q, s), n, n);
  }

  lemma WeightedConstant(p: Term, value: real, t: Term, n: nat)
    requires forall i, j :: 0 <= i < n && 0 <= j < n ==> p(i, j) == value
    ensures Double(Weighted(p, t), n, n) == value * Double(t, n, n)
  {
    DoubleScaled(Weighted(p, t), t, value, n, n);
  }

  // ---------- Quotients of weighted sums ----------

  /** The weighted sums of p and q, over a scale. */
  function Quotients(p: Term, q: Term, t: Term, n: nat, scale: real): Complex
    requires scale != 0.0
  {
    Complex(Double(Weighted(p, t), n, n) / scale, Double(Weighted(q, t), n, n) / scale)
  }

  lemma Ratio(total: real, power: real, k: real, r: real)
    requires k > 0.0 && power / k > 0.0 && r == total / (power / k)
    ensures power > 0.0 && r * power == k * total
  {
    var energy := power / k;
    assert energy * k == power;
    assert r * energy == total;
    assert r * power == r * (energy * k) == k * (r * energy);
  }

  /** Scaling the weights by k and the scale by k leaves the quotients. */
  lemma QuotientsScaled(p: Term, q: Term, t: Term, s: Term, k: real, n: nat, power: real, r: Complex)
    requires Scaled(s, t, k, n)
    requires k > 0.0 && power / k > 0.0 && r == Quotients(p, q, t, n, power / k)
    ensures power > 0.0
    ensures r.re * power == Double(Weighted(p, s), n, n) && r.im * power == Double(Weighted(q, s), n, n)
  {
    WeightedScaled(p, s, t, k, n);
    WeightedScaled(q, s, t, k, n);
    Ratio(Double(Weighted(p, t), n, n), power, k, r.re);
    Ratio(Double(Weighted(q, t), n, n), power, k, r.im);
  }

  lemma BoundByPower(u: real, v: real, c: real, f: real, g: real, p: real, q: real, power: real)
    requires Bounded(u, v, c, f, g, p, q) && c >= 0.0 && p <= power && q <= power
    ensures Bounded(u, v, c, f, g, power, power)
  {
    MultiplyBoth(p, power, c);
  }

  lemma NormNonNegative(a: Complex)
    ensures Norm(a) >= 0.0
  {
    assert a.re * a.re >= 0.0 && a.im * a.im >= 0.0;
  }

  lemma SquareOver(r: Complex, norm: real, power: real, f: real, g: real)
    requires power > 0.0 && f == r.re * power && g == r.im * power && norm == Norm(r)
    requires Bounded(r.re, r.im, norm, f, g, power, power)
    ensures norm <= 1.0
  {
    assert norm * power == r.re * (r.re * power) + r.im * (r.im * power);
    assert (norm - 1.0) * power <= 0.0;
  }

  /** Weights whose rows add up to at most one, as do those of their transpose. */
  predicate SubUnit(s: Term, transposed: Term, n: nat) {
    && (forall i, j :: 0 <= i < n && 0 <= j < n ==> s(i, j) >= 0.0 && s(i, j) == transposed(j, i))
    && (forall i :: 0 <= i < n ==> Row(s, i, n) <= 1.0 && Row(transposed, i, n) <= 1.0)
  }

  predicate Dominated(u: real, v: real, c: real, p: Term, q: Term, f: Term, g: Term, n: nat) {
    forall i, j :: 0 <= i < n && 0 <= j < n ==> Bounded(u, v, c, p(i, j), q(i, j), f(i, j), g(i, j))
  }

  /** f depends on the row and g on the column only, both in the same non-negative way. */
  predicate Powers(f: Term, g: Term, weight: int -> real, n: nat) {
    && (forall i, j :: 0 <= i < n && 0 <= j < n ==> f(i, j) == weight(i) && g(j, i) == weight(i))
    && (forall i :: 0 <= i < n ==> weight(i) >= 0.0)
  }

  /** Terms dominated by the power of their row and of their column: their quotients are at most one. */
  lemma QuotientsAtMostOne(p: Term, q: Term, f: Term, g: Term, weight: int -> real, t: Term, s: Term,
                           transposed: Term, k: real, n: nat, energy: real, norm: real, r: Complex)
    requires Scaled(s, t, k, n)
    requires k > 0.0 && energy == Single(weight, n) / k && energy > 0.0 && r == Quotients(p, q, t, n, energy)
    requires norm == Norm(r)
    requires Dominated(r.re, r.im, norm, p, q, f, g, n) && Powers(f, g, weight, n)
    requires SubUnit(s, transposed, n)
    ensures norm <= 1.0
  {
    var power := Single(weight, n);
    QuotientsScaled(p, q, t, s, k, n, power, r);
    WeightedBounded(r.re, r.im, norm, p, q, f, g, s, n);
    RowWeight(f, weight, s, n);
    WeightedTranspose(g, s, f, transposed, n);
    RowWeight(f, weight, transposed, n);
    NormNonNegative(r);
    BoundByPower(r.re, r.im, norm, Double(Weighted(p, s), n, n), Double(Weighted(q, s), n, n),
                 Double(Weighted(f, s), n, n), Double(Weighted(g, s), n, n), power);
    SquareOver(r, norm, power, Double(Weighted(p, s), n, n), Double(Weighted(q, s), n, n));
  }

  lemma {:induction false} DiagonalRow(p: Term, s: Term, i: int, m: nat)
    requires 0 <= i && forall j :: 0 <= j < m ==> s(i, j) == if i == j then 1.0 else 0.0
    ensures Row(Weighted(p, s), i, m) == if i < m then p(i, i) else 0.0
  {
    if m > 0 {
      DiagonalRow(p, s, i, m - 1);
    }
  }

  lemma {:induction false} DiagonalSum(p: Term, s: Term, diagonal: int -> real, n: nat, m: nat)
    requires n <= m && forall i :: 0 <= i < n ==> p(i, i) == diagonal(i)
    requires forall i, j :: 0 <= i < n && 0 <= j < m ==> s(i, j) == if i == j then 1.0 else 0.0
    ensures Double(Weighted(p, s), n, m) == Single(diagonal, n)
  {
    if n > 0 {
      DiagonalSum(p, s, diagonal, n - 1, m);
      DiagonalRow(p, s, n - 1, m);
    }
  }

  lemma RatioIs(r: Complex, power: real, value: real)
    requires power > 0.0 && r.re * power == value * power && r.im * power == 0.0
    ensures r == Complex(value, 0.0)
  {
    assert (r.re - value) * power == 0.0;
  }

  predicate Diagonal(s: Term, n: nat) {
    forall i, j :: 0 <= i < n && 0 <= j < n ==> s(i, j) == if i == j then 1.0 else 0.0
  }

  predicate PowerOnDiagonal(p: Term, q: Term, weight: int -> real, zero: int -> real, n: nat) {
    forall i :: 0 <= i < n ==> p(i, i) == weight(i) && q(i, i) == zero(i) && zero(i) == 0.0
  }

  /** Diagonal weights pick the power out of the terms. */
  lemma QuotientsOfDiagonal(p: Term, q: Term, weight: int -> real, zero: int -> real, t: Term, s: Term, k: real,
                            n: nat, r: Complex)
    requires Scaled(s, t, k, n)
    requires k > 0.0 && Single(weight, n) / k > 0.0 && r == Quotients(p, q, t, n, Single(weight, n) / k)
    requires Diagonal(s, n) && PowerOnDiagonal(p, q, weight, zero, n)
    ensures r == Complex(1.0, 0.0)
  {
    QuotientsScaled(p, q, t, s, k, n, Single(weight, n), r);
    DiagonalSum(p, s, weight, n, n);
    DiagonalSum(q, s, zero, n, n);
    ConstantSum(zero, 0.0, n);
    RatioIs(r, Single(weight, n), 1.0);
  }

  lemma ConstantRatio(power: real, value: real, rest: real, k: real, share: real, r: Complex)
    requires power == k * value && power > 0.0 && rest == share * k
    requires r.re * power == value * rest && r.im * power == 0.0
    ensures r == Complex(share, 0.0)
  {
    assert value * (share * k) == share * (k * value);
    RatioIs(r, power, share);
  }

  predicate AllEqual(p: Term, q: Term, weight: int -> real, value: real, n: nat) {
    && (forall i :: 0 <= i < n ==> weight(i) == value)
    && (forall i, j :: 0 <= i < n && 0 <= j < n ==> p(i, j) == value && q(i, j) == 0.0)
  }

  /** Constant terms: the quotient is the share of the weights. */
  lemma QuotientsOfConstant(p: Term, q: Term, weight: int -> real, value: real, t: Term, s: Term, k: real, n: nat,
                            share: real, r: Complex)
    requires Scaled(s, t, k, n)
    requires k == n as real && k > 0.0 && Single(weight, n) / k > 0.0
    requires r == Quotients(p, q, t, n, Single(weight, n) / k)
    requires AllEqual(p, q, weight, value, n) && Double(s, n, n) == share * k
    ensures r == Complex(share, 0.0)
  {
    QuotientsScaled(p, q, t, s, k, n, Single(weight, n), r);
    ConstantSum(weight, value, n);
    WeightedConstant(p, value, s, n);
    WeightedConstant(q, 0.0, s, n);
    ConstantRatio(Single(weight, n), value, Double(s, n, n), k, share, r);
  }

  function Negative(f: Term): Term { (i, j) => -f(i, j) }

  lemma NegativeSum(f: Term, t: Term, n: nat)
    ensures Double(Weighted(Negative(f), t), n, n) == -Double(Weighted(f, t), n, n)
  {
    DoubleScaled(Weighted(Negative(f), t), Weighted(f, t), -1.0, n, n);
  }

  /** Transposing the weights of Hermitian terms conjugates the sums. */
  lemma SumsConjugate(p: Term, q: Term, t: Term, s: Term, n: nat)
    requires forall i, j :: 0 <= i < n && 0 <= j < n ==> t(i, j) == s(j, i)
    requires forall i, j :: 0 <= i < n && 0 <= j < n ==> p(i, j) == p(j, i)
    requires forall i, j :: 0 <= i < n && 0 <= j < n ==> q(i, j) == -q(j, i)
    ensures Double(Weighted(p, t), n, n) == Double(Weighted(p, s), n, n)
    ensures Double(Weighted(q, t), n, n) == -Double(Weighted(q, s), n, n)
  {
    WeightedTranspose(p, t, p, s, n);
    WeightedTranspose(q, t, Negative(q), s, n);
    NegativeSum(q, s, n);
  }
}
