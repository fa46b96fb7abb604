/** Real numbers: absolute values, the smaller and the larger of two, and whole multiples. */
module Reals {
  function AbsReal(x: real): real { if x < 0.0 then -x else x }

  function Smaller(a: real, b: real): real { if a <= b then a else b }

  function Larger(a: real, b: real): real { if a >= b then a else b }

  /** A number added up n times. */
  function Multiple(n: nat, unit: real): real { if n == 0 then 0.0 else Multiple(n - 1, unit) + unit }

  lemma {:induction false} MultipleIsProduct(n: nat, unit: real)
    ensures Multiple(n, unit) == (n as real) * unit
  {
    if n > 0 {
      MultipleIsProduct(n - 1, unit);
      var before := (n - 1) as real;
      assert n as real == before + 1.0;
      assert (before + 1.0) * unit == before * unit + unit;
    }
  }

  /** So many times the unit is at most the bound. */
  predicate TimesWithin(n: nat, unit: real, bound: real) { (n as real) * unit <= bound }

  lemma ProductWithin(n: nat, unit: real, bound: real)
    requires Multiple(n, unit) <= bound
    ensures TimesWithin(n, unit, bound)
  {
    MultipleIsProduct(n, unit);
  }

  lemma {:induction false} NotPositive(n: nat, unit: real)
    requires unit <= 0.0
    ensures Multiple(n, unit) <= 0.0
  {
    if n > 0 {
      NotPositive(n - 1, unit);
    }
  }

  /** Fewer of them stay within a bound, if that is not negative. */
  lemma {:induction false} FewerWithin(m: nat, n: nat, unit: real, bound: real)
    requires m <= n && Multiple(n, unit) <= bound && bound >= 0.0
    ensures Multiple(m, unit) <= bound
    decreases n
  {
    if unit <= 0.0 {
      NotPositive(m, unit);
    } else if m < n {
      FewerWithin(m, n - 1, unit, bound);
    }
  }

  lemma {:induction false} MultipleGrows(n: nat, unit: real)
    requires unit > 0.0
    ensures Multiple(n, unit) >= 0.0 && (n > 0 ==> Multiple(n, unit) >= unit)
  {
    if n > 0 {
      MultipleGrows(n - 1, unit);
    }
  }

  lemma Beyond(n: real, quotient: real, unit: real, distance: real)
    requires unit > 0.0 && n >= quotient && quotient == distance / unit
    ensures n * unit >= distance
  {
    assert quotient * unit == distance;
    assert (n - quotient) * unit >= 0.0;
  }

  /** Enough of them reach any distance. */
  lemma EnoughMultiples(unit: real, distance: real) returns (n: nat)
    requires unit > 0.0
    ensures n > 0 && Multiple(n, unit) >= distance
  {
    var quotient := distance / unit;
    n := if quotient <= 0.0 then 1 else quotient.Floor + 1;
    MultipleIsProduct(n, unit);
    Beyond(n as real, quotient, unit, distance);
  }
}
