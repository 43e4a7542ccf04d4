/** Multiples by repeated addition, so that proofs see no multiplication. */
module Multiples {

  /** `n` times `each`. */
  function Times(n: nat, each: real): real {
    if n == 0 then 0.0 else each + Times(n - 1, each)
  }

  lemma {:induction false} TimesIsProduct(n: nat, each: real)
    ensures Times(n, each) == n as real * each
  {
    if n > 0 {
      TimesIsProduct(n - 1, each);
      var m := n - 1;
      assert (m + 1) as real * each == m as real * each + each;
    }
  }

  lemma {:induction false} TimesGrows(n: nat, m: nat, each: real)
    requires n <= m && each >= 0.0
    ensures Times(n, each) <= Times(m, each)
  {
    if n < m {
      TimesGrows(n, m - 1, each);
    }
  }

  lemma {:induction false} TimesMoreEach(n: nat, x: real, y: real)
    requires x <= y
    ensures Times(n, x) <= Times(n, y)
  {
    if n > 0 {
      TimesMoreEach(n - 1, x, y);
    }
  }

  lemma {:induction false} TimesAdds(n: nat, x: real, y: real)
    ensures Times(n, x + y) == Times(n, x) + Times(n, y)
  {
    if n > 0 {
      TimesAdds(n - 1, x, y);
    }
  }

  lemma TimesOfQuotient(n: nat, y: real)
    requires n > 0
    ensures Times(n, y / n as real) == y
  {
    TimesIsProduct(n, y / n as real);
  }

  lemma {:induction false} TimesCommute(n: nat, c: nat, y: real)
    ensures Times(n, Times(c, y)) == Times(c, Times(n, y))
  {
    if n == 0 {
      TimesIsProduct(c, 0.0);
    } else {
      TimesCommute(n - 1, c, y);
      TimesAdds(c, y, Times(n - 1, y));
    }
  }

  lemma {:induction false} TimesDiffer(n: nat, x: real, y: real)
    requires n > 0 && x < y
    ensures Times(n, x) < Times(n, y)
  {
    if n > 1 {
      TimesDiffer(n - 1, x, y);
    }
  }

  lemma TimesCancel(n: nat, x: real, y: real)
    requires n > 0 && Times(n, x) == Times(n, y)
    ensures x == y
  {
    if x < y {
      TimesDiffer(n, x, y);
    } else if y < x {
      TimesDiffer(n, y, x);
    }
  }

  /** The cost of `n` evaluations of `cases` cases. */
  function Cost(cases: nat, n: nat): nat {
    if n == 0 then 0 else cases + Cost(cases, n - 1)
  }

  lemma {:induction false} CostIsProduct(cases: nat, n: nat)
    ensures Cost(cases, n) == cases * n
  {
    if n > 0 {
      CostIsProduct(cases, n - 1);
    }
  }

  lemma {:induction false} CostGrows(cases: nat, m: nat, n: nat)
    requires m <= n
    ensures Cost(cases, m) <= Cost(cases, n)
  {
    if m < n {
      CostGrows(cases, m, n - 1);
    }
  }
}
