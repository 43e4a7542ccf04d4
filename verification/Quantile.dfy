/** Inverting a tail by bracketing and bisection.

    The tail of Student's t is a parameter, non-increasing on what is searched; `bound` is
    any point where it is down to the target. */
module Quantiles {

  function Pow2(n: nat): (r: real)
    ensures r > 0.0
  {
    if n == 0 then 1.0 else 2.0 * Pow2(n - 1)
  }

  ghost predicate NonIncreasing(tail: real -> real) {
    forall x, y :: 0.0 <= x <= y ==> tail(y) <= tail(x)
  }

  /** Where the tail comes down to the target. */
  ghost predicate Crosses(tail: real -> real, target: real, x: real) {
    && x >= 0.0
    && (forall y :: 0.0 <= y < x ==> tail(y) > target)
    && (forall y :: y > x ==> tail(y) <= target)
  }

  function Distance(x: real, y: real): real {
    if x < y then y - x else x - y
  }

  lemma CrossingBetween(tail: real -> real, target: real, low: real, high: real, x: real)
    requires 0.0 <= low < high && (low == 0.0 || tail(low) > target) && tail(high) <= target
    requires Crosses(tail, target, x)
    ensures low <= x <= high
  {
  }

  lemma HalfwayClose(low: real, high: real, x: real)
    requires low <= x <= high
    ensures Distance((low + high) / 2.0, x) <= (high - low) / 2.0
  {
  }

  /** `width` doubled `n` times. */
  ghost function Doubled(width: real, n: nat): real
    decreases n
  {
    if n == 0 then width else Doubled(2.0 * width, n - 1)
  }

  lemma {:induction false} DoubledIsProduct(width: real, n: nat)
    ensures Doubled(width, n) == width * Pow2(n)
    decreases n
  {
    if n > 0 {
      DoubledIsProduct(2.0 * width, n - 1);
      Regroup(width, Pow2(n - 1));
    }
  }

  lemma Regroup(x: real, y: real)
    ensures 2.0 * x * y == x * (2.0 * y)
  {
  }

  /** Halve a bracket fifty times, keeping the target in it. */
  method Bisect(tail: real -> real, target: real, top: real) returns (low: real, high: real)
    requires top >= 1.0 && tail(top) <= target
    ensures 0.0 <= low < high && (low == 0.0 || tail(low) > target) && tail(high) <= target
    ensures (high - low) * Pow2(50) == top
  {
    low, high := 0.0, top;
    for i := 0 to 50
      invariant 0.0 <= low < high
      invariant low == 0.0 || tail(low) > target
      invariant tail(high) <= target
      invariant Doubled(high - low, i) == top
    {
      ghost var width := high - low;
      var midpoint := (low + high) / 2.0;
      if tail(midpoint) > target {
        low := midpoint;
      } else {
        high := midpoint;
      }
      assert 2.0 * (high - low) == width;
    }
    DoubledIsProduct(high - low, 50);
  }

  /** Double the bracket until it covers the target, halve it fifty times, take the middle.
      The result is within the first bracket over two to the power 51 of any crossing. */
  method Invert(tail: real -> real, target: real, ghost bound: real) returns (quantile: real, ghost bracket: real)
    requires NonIncreasing(tail) && bound >= 0.0 && tail(bound) <= target
    ensures quantile > 0.0
    ensures 1.0 <= bracket && tail(bracket) <= target && (bracket == 1.0 || bracket < 2.0 * bound)
    ensures forall x :: Crosses(tail, target, x) ==> Distance(quantile, x) <= bracket / Pow2(51)
  {
    var low, high := 0.0, 1.0;
    while tail(high) > target
      invariant high >= 1.0
      invariant high == 1.0 || high < 2.0 * bound
      decreases bound - high
    {
      high := high * 2.0;
    }
    bracket := high;
    low, high := Bisect(tail, target, high);
    quantile := (low + high) / 2.0;
    HalfOfLast(high - low, bracket);
    forall x | Crosses(tail, target, x)
      ensures Distance(quantile, x) <= bracket / Pow2(51)
    {
      CrossingBetween(tail, target, low, high, x);
      HalfwayClose(low, high, x);
    }
  }

  lemma HalfOfLast(width: real, bracket: real)
    requires width * Pow2(50) == bracket
    ensures width / 2.0 == bracket / Pow2(51)
  {
    assert Pow2(51) == 2.0 * Pow2(50);
    assert (width / 2.0) * Pow2(51) == bracket;
    Divide(width / 2.0, Pow2(51), bracket);
  }

  lemma Divide(x: real, d: real, n: real)
    requires d > 0.0 && x * d == n
    ensures x == n / d
  {
  }

  /** The quantile of a distribution symmetric about zero whose upper tail is `tail`;
      `normal` is the limit used for very many degrees of freedom. */
  method StudentTQuantile(probability: real, degrees: real, tail: real -> real, normal: real -> real,
                          ghost bound: real)
    returns (quantile: real)
    requires 0.0 < probability < 1.0 && degrees > 0.0
    requires NonIncreasing(tail) && bound >= 0.0
    requires tail(bound) <= (if probability < 0.5 then probability else 1.0 - probability)
    requires normal(if probability < 0.5 then 1.0 - probability else probability) > 0.0
    ensures probability == 0.5 ==> quantile == 0.0
    ensures probability > 0.5 ==> quantile > 0.0
    ensures probability < 0.5 ==> quantile < 0.0
    ensures degrees < 10000000.0 && probability > 0.5 ==>
              forall x :: Crosses(tail, 1.0 - probability, x) ==>
                Distance(quantile, x) <= (if 2.0 * bound < 1.0 then 1.0 else 2.0 * bound) / Pow2(51)
    ensures degrees < 10000000.0 && probability < 0.5 ==>
              forall x :: Crosses(tail, probability, x) ==>
                Distance(quantile, -x) <= (if 2.0 * bound < 1.0 then 1.0 else 2.0 * bound) / Pow2(51)
    decreases probability < 0.5
  {
    if probability == 0.5 {
      return 0.0;
    }
    if probability < 0.5 {
      var upper := StudentTQuantile(1.0 - probability, degrees, tail, normal, bound);
      ghost var target := 1.0 - (1.0 - probability);
      assert target == probability;
      forall x | degrees < 10000000.0 && Crosses(tail, probability, x)
        ensures Distance(-upper, -x) <= (if 2.0 * bound < 1.0 then 1.0 else 2.0 * bound) / Pow2(51)
      {
        assert Crosses(tail, target, x);
        assert Distance(-upper, -x) == Distance(upper, x);
      }
      return -upper;
    }
    if degrees >= 10000000.0 {
      return normal(probability);
    }
    ghost var bracket;
    quantile, bracket := Invert(tail, 1.0 - probability, bound);
    ghost var widest := if 2.0 * bound < 1.0 then 1.0 else 2.0 * bound;
    SmallerOver(bracket, widest, Pow2(51));
  }

  lemma SmallerOver(a: real, b: real, d: real)
    requires a <= b && d > 0.0
    ensures a / d <= b / d
  {
  }
}
