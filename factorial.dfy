/**
 * The factorial n! = n * (n-1) * ... * 1 with 0! = 1, defined by recursion
 * on n, and its agreement with the ascending product 1 * 2 * ... * n.
 */
module Factorials {

  /** 0! = 1! = 1 and n! = n * (n-1)! otherwise; never less than 1. */
  function Factorial(n: nat): (r: nat)
    ensures r >= 1
  {
    if n == 0 || n == 1 then 1
    else n * Factorial(n - 1)
  }

  /** The two base cases of the definition. */
  lemma BaseCases()
    ensures Factorial(0) == 1
    ensures Factorial(1) == 1
  {
  }

  /** Past the base cases, n! is n times (n-1)!. */
  lemma Recurrence(n: nat)
    requires n > 1
    ensures Factorial(n) == n * Factorial(n - 1)
  {
  }

  /** lo * (lo+1) * ... * hi, multiplied from the bottom up; 1 when empty. */
  function Product(lo: nat, hi: nat): (r: nat)
    decreases hi + 1 - lo
  {
    if lo > hi then 1 else lo * Product(lo + 1, hi)
  }

  /** Extending a range at the top multiplies its product by the new factor. */
  lemma {:induction false} ProductExtend(lo: nat, hi: nat)
    requires lo <= hi + 1
    ensures Product(lo, hi + 1) == Product(lo, hi) * (hi + 1)
    decreases hi + 1 - lo
  {
    if lo <= hi {
      ProductExtend(lo + 1, hi);
      calc {
        Product(lo, hi + 1);
        lo * Product(lo + 1, hi + 1);
        lo * (Product(lo + 1, hi) * (hi + 1));
        (lo * Product(lo + 1, hi)) * (hi + 1);
        Product(lo, hi) * (hi + 1);
      }
    }
  }

  /** n! is the product of 1 through n. */
  lemma {:induction false} FactorialIsProduct(n: nat)
    ensures Factorial(n) == Product(1, n)
  {
    if n > 1 {
      FactorialIsProduct(n - 1);
      ProductExtend(1, n - 1);
    }
  }
}
