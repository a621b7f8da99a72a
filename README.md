# Exact integer and real arithmetic of a numeric-utilities collection

The repository is a set of standalone numeric routines written as
pseudocode. This project models its exact part in Dafny and proves what
its documentation and code promise:

- **Fibonacci numbers** (`fibonacci.dfy`, module `FibonacciNumbers`): the
  recursive definition `Fibonacci` and the linear-time loop
  `FibonacciIterative`, which keeps the two previous numbers in `prev2` and
  `prev1`. The loop is proved to return `Fibonacci(n)` for every natural
  `n`. Lemmas state the base cases, the recurrence, the first twelve values
  given in the documentation, that the recurrence determines the sequence
  uniquely, and monotonicity; `Fibonacci` itself is proved positive from
  index 1. `FibonacciIterative` takes any integer: for a negative one it
  returns 0, as the source's loop does.
- **Factorial** (`factorial.dfy`, module `Factorials`): the recursive
  `Factorial` with base cases 0 and 1, proved never to be below 1 and equal
  to the ascending product `1 * 2 * ... * n` (`Product`).
- **Cube utilities** (`cubes.dfy`, module `Cubes`): `Cube`, its odd symmetry
  and strict monotonicity; `GeneratePerfectCubes`, a loop that appends
  `Cube(i)` for `i` from 1 to `n`, proved to return the first `n` cubes in
  strictly increasing order (empty when `n <= 0`); `Absolute` and `Round`
  over the reals, `Round` rounding halves up via `.Floor`.

All numbers are unbounded Dafny `int`, `nat` and `real`.

## Model

| member | source | states |
|---|---|---|
| FibonacciNumbers.Fibonacci | fibonacci.ts:18-27 | the recursive definition (0, 1, then the sum of the two predecessors), whose value is at least 1 for every n >= 1 |
| FibonacciNumbers.BaseCases | fibonacci.ts:20-23 | F(0) is 0 and F(1) is 1 |
| FibonacciNumbers.Recurrence | fibonacci.ts:25-27 | for n > 1, F(n) is F(n-1) + F(n-2) |
| FibonacciNumbers.FirstTwelve | fibonacci.ts:9 | the first twelve values are 0, 1, 1, 2, 3, 5, 8, 13, 21, 34, 55, 89 |
| FibonacciNumbers.DefinitionIsUnique | fibonacci.ts:4-7 | any sequence of naturals with f(0) = 0, f(1) = 1 and the recurrence equals the recursive definition at every index |
| FibonacciNumbers.Monotone | fibonacci.ts:9 | the sequence never decreases: m <= n implies F(m) <= F(n) |
| FibonacciNumbers.FibonacciIterative | fibonacci.ts:34-51 | the iterative version returns exactly F(n) for every natural n and 0 for every negative n (no base case applies and the loop runs no step); base cases returned before the loop, and after the step for index i, prev1 = F(i) and prev2 = F(i-1) |
| Factorials.Factorial | factorial.ts:13-19 | n! is at least 1 for every natural n |
| Factorials.BaseCases | factorial.ts:14-16 | 0! and 1! are both 1 |
| Factorials.Recurrence | factorial.ts:17-19 | for n > 1, n! is n * (n-1)! |
| Factorials.FactorialIsProduct | factorial.ts:5 | n! equals the product 1 * 2 * ... * n, multiplied from the bottom up (1 for n = 0) |
| Cubes.Cube | cubes.ts:17-19 | n * n * n on the integers, which is negative, zero or positive exactly as n is |
| Cubes.CubeOdd | cubes.ts:17-19 | the cube of -n is minus the cube of n |
| Cubes.CubeStrictlyIncreasing | cubes.ts:17-19 | a < b implies a^3 < b^3 on the integers |
| Cubes.GeneratePerfectCubes | cubes.ts:94-103 | empty for n <= 0; otherwise n elements, element i is the cube of i+1, and the list is strictly increasing |
| Cubes.Absolute | cubes.ts:108-112 | the result is non-negative and is either x or -x |
| Cubes.Round | cubes.ts:117-121 | the result is floor(x) or floor(x)+1 and lies in (x - 0.5, x + 0.5]: the nearest integer, halves rounded up |
| Cubes.RoundIsNearest | cubes.ts:117-121 | the integer in (x - 0.5, x + 0.5] is unique, so Round is fully determined by that interval |
| Cubes.RoundInteger | cubes.ts:117-121 | an integer rounds to itself |

## Left out

- Square root (`square.ts`) and both cube-root routines (`cubeRoot.ts`,
  `cubes.ts:32-66`): floating-point Newton iterations with a tolerance
  test and no iteration bound; they have no exact result to state.
- `isPerfectCube` (`cubes.ts:74-86`): its answer rounds a floating-point
  cube-root approximation; an exact integer test would be a different
  function.
- Negative arguments to the recursive `factorial` and `fibonacci`: the
  recursion never reaches a base case, so both are modelled on natural
  numbers (the iterative `fibonacciIterative` is modelled on all integers).
- Width and precision of JavaScript numbers: all arithmetic is unbounded,
  so overflow and rounding error are not modelled.
- `Cube` is modelled on integers, the only values any call site passes
  (cubes.ts:86 and cubes.ts:101); the pseudocode's `cube(n)` is written for
  any number (cubes.ts:5), and fractional arguments are not modelled.
