/**
 * The Fibonacci numbers: the recursive definition, the iterative
 * two-variable loop that computes the same value in linear time, and the
 * properties of the sequence the documentation states.
 */
module FibonacciNumbers {

  /**
   * F(0) = 0, F(1) = 1 and F(n) = F(n-1) + F(n-2) for n > 1; every number
   * from index 1 on is positive.
   */
  function Fibonacci(n: nat): (r: nat)
    ensures n >= 1 ==> r >= 1
  {
    if n == 0 then 0
    else if n == 1 then 1
    else Fibonacci(n - 1) + Fibonacci(n - 2)
  }

  /** The two base cases of the definition. */
  lemma BaseCases()
    ensures Fibonacci(0) == 0
    ensures Fibonacci(1) == 1
  {
  }

  /** Every number past the first two is the sum of its two predecessors. */
  lemma Recurrence(n: nat)
    requires n > 1
    ensures Fibonacci(n) == Fibonacci(n - 1) + Fibonacci(n - 2)
  {
  }

  /** The first twelve numbers, as the documentation lists them. */
  lemma FirstTwelve()
    ensures [Fibonacci(0), Fibonacci(1), Fibonacci(2), Fibonacci(3),
             Fibonacci(4), Fibonacci(5), Fibonacci(6), Fibonacci(7),
             Fibonacci(8), Fibonacci(9), Fibonacci(10), Fibonacci(11)]
         == [0, 1, 1, 2, 3, 5, 8, 13, 21, 34, 55, 89]
  {
  }

  /**
   * The definition is the only one: any sequence of naturals that starts
   * with 0, 1 and obeys the recurrence is the Fibonacci sequence.
   */
  ghost predicate ObeysDefinition(f: nat -> nat)
  {
    && f(0) == 0
    && f(1) == 1
    && forall k: nat :: k > 1 ==> f(k) == f(k - 1) + f(k - 2)
  }

  lemma {:induction false} DefinitionIsUnique(f: nat -> nat, n: nat)
    requires ObeysDefinition(f)
    ensures f(n) == Fibonacci(n)
  {
    if n > 1 {
      DefinitionIsUnique(f, n - 1);
      DefinitionIsUnique(f, n - 2);
      assert f(n) == f(n - 1) + f(n - 2);
    }
  }

  /** The sequence never decreases. */
  lemma {:induction false} Monotone(m: nat, n: nat)
    requires m <= n
    ensures Fibonacci(m) <= Fibonacci(n)
  {
    if m < n {
      Monotone(m, n - 1);
      assert Fibonacci(n - 1) <= Fibonacci(n) by {
        if n > 1 {
          assert Fibonacci(n) == Fibonacci(n - 1) + Fibonacci(n - 2);
        }
      }
    }
  }

  /**
   * The optimised version: the base cases are answered directly; otherwise
   * prev2 and prev1 walk along the sequence, and after the step for index
   * i, prev1 holds F(i) and prev2 holds F(i-1). For a negative n neither
   * base case applies and the loop from 2 to n runs no step, so the
   * initial value 0 of current is returned.
   */
  method FibonacciIterative(n: int) returns (r: int)
    ensures n < 0 ==> r == 0
    ensures n >= 0 ==> r == Fibonacci(n)
  {
    if n == 0 {
      return 0;
    }
    if n == 1 {
      return 1;
    }

    var prev2 := 0;
    var prev1 := 1;
    var current := 0;
    if n < 2 {
      return current;
    }

    for i := 2 to n + 1
      invariant prev1 == Fibonacci(i - 1)
      invariant prev2 == Fibonacci(i - 2)
      invariant current == if i == 2 then 0 else prev1
    {
      current := prev1 + prev2;
      prev2 := prev1;
      prev1 := current;
    }

    return current;
  }
}
