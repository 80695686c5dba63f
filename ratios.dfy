/** Bounds on exact ratios. Scores and rates in the system are quotients of
  * small counts; the solver is handed these facts rather than left to find
  * them by non-linear reasoning. */
module Ratios {

  lemma RatioNonNegative(n: real, d: real)
    requires 0.0 <= n && d > 0.0
    ensures 0.0 <= n / d
  {
  }

  lemma RatioAtMostOne(n: real, d: real)
    requires 0.0 <= n <= d && d > 0.0
    ensures 0.0 <= n / d <= 1.0
  {
  }

  lemma RatioOne(n: real, d: real)
    requires d > 0.0
    ensures n / d == 1.0 <==> n == d
  {
  }

  lemma RatioPositive(n: real, d: real)
    requires 0.0 <= n && d > 0.0
    ensures n / d > 0.0 <==> n > 0.0
  {
  }

  /** A percentage shown with one decimal, `f"{n / d * 100:.1f}"`, as its
    * count of tenths: the exact percentage rounded to the nearest tenth,
    * a half rounding up. */
  function PercentTenths(n: nat, d: nat): (t: nat)
    requires d > 0
    ensures 2 * d * t <= 2000 * n + d < 2 * d * t + 2 * d
  {
    var a, b := 2000 * n + d, 2 * d;
    DivBounds(a, b);
    a / b
  }

  lemma DivBounds(a: nat, b: nat)
    requires b > 0
    ensures b * (a / b) <= a < b * (a / b) + b
  {
  }

  /** For a proportion, the shown percentage lies between 0.0 and 100.0; it
    * is 0.0 for none and 100.0 for all. */
  lemma PercentTenthsBounds(n: nat, d: nat)
    requires 0 < d && n <= d
    ensures PercentTenths(n, d) <= 1000
    ensures n == 0 ==> PercentTenths(n, d) == 0
    ensures n == d ==> PercentTenths(n, d) == 1000
  {
    var t := PercentTenths(n, d);
    if t > 1000 {
      MulMono(2 * d, 1001, t);
    }
    if n == 0 && t > 0 {
      MulMono(2 * d, 1, t);
    }
    if n == d && t < 1000 {
      MulMono(2 * d, t + 1, 1000);
    }
  }

  lemma MulMono(k: nat, a: nat, b: nat)
    requires a <= b
    ensures k * a <= k * b
  {
  }

  /** "100.0%" is shown exactly when at least 99.95% of the whole is there,
    * not only when all of it is. */
  lemma ShownFull(n: nat, d: nat)
    requires 0 < d && n <= d
    ensures PercentTenths(n, d) == 1000 <==> 2000 * n >= 1999 * d
  {
    var t := PercentTenths(n, d);
    PercentTenthsBounds(n, d);
    if t == 1000 {
      assert 2 * d * 1000 <= 2000 * n + d;
    }
    if 2000 * n >= 1999 * d && t < 1000 {
      MulMono(2 * d, t + 1, 1000);
    }
  }
}
