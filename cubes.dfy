/**
 * Cube utilities: the cube of a number, the list of the first n perfect
 * cubes, and the absolute-value and rounding helpers.
 */
module Cubes {

  /** n cubed, which has the sign of n. */
  function Cube(n: int): (r: int)
    ensures n < 0 ==> r < 0
    ensures n == 0 ==> r == 0
    ensures n > 0 ==> r > 0
  {
    n * n * n
  }

  /** Cubing is odd: the cube of -n is minus the cube of n. */
  lemma CubeOdd(n: int)
    ensures Cube(-n) == -Cube(n)
  {
  }

  /** Consecutive cubes differ by 3n^2 + 3n + 1, which is positive. */
  lemma CubeStep(n: int)
    ensures Cube(n + 1) > Cube(n)
  {
    assert Cube(n + 1) - Cube(n) == 3 * (n * (n + 1)) + 1;
    if n >= 0 {
      assert n * (n + 1) >= 0;
    } else {
      assert (-n) * (-(n + 1)) >= 0;
    }
  }

  /** Cubing is strictly increasing on the integers. */
  lemma {:induction false} CubeStrictlyIncreasing(a: int, b: int)
    requires a < b
    ensures Cube(a) < Cube(b)
    decreases b - a
  {
    CubeStep(b - 1);
    if a < b - 1 {
      CubeStrictlyIncreasing(a, b - 1);
    }
  }

  /**
   * The first n perfect cubes 1, 8, 27, ...: empty when n <= 0, otherwise
   * built by appending Cube(i) for i from 1 to n.
   */
  method GeneratePerfectCubes(n: int) returns (cubes: seq<int>)
    ensures n <= 0 ==> cubes == []
    ensures n > 0 ==> |cubes| == n
    ensures forall i :: 0 <= i < |cubes| ==> cubes[i] == Cube(i + 1)
    ensures forall i, j :: 0 <= i < j < |cubes| ==> cubes[i] < cubes[j]
  {
    if n <= 0 {
      return [];
    }

    cubes := [];
    for i := 1 to n + 1
      invariant |cubes| == i - 1
      invariant forall k :: 0 <= k < |cubes| ==> cubes[k] == Cube(k + 1)
    {
      cubes := cubes + [Cube(i)];
    }

    forall i, j | 0 <= i < j < |cubes|
      ensures cubes[i] < cubes[j]
    {
      CubeStrictlyIncreasing(i + 1, j + 1);
    }
  }

  /** |x|: never negative, and either x itself or its negation. */
  function Absolute(x: real): (r: real)
    ensures r >= 0.0
    ensures r == x || r == -x
  {
    if x < 0.0 then -x else x
  }

  /**
   * x rounded to the nearest integer, halves rounded up: floor(x) + 1 when
   * the fractional part is at least one half, floor(x) otherwise.
   */
  function Round(x: real): (r: int)
    ensures r == x.Floor || r == x.Floor + 1
    ensures x - 0.5 < r as real <= x + 0.5
  {
    if x - x.Floor as real >= 0.5 then x.Floor + 1 else x.Floor
  }

  /** Round(x) is the only integer within one half of x, halves counted up. */
  lemma RoundIsNearest(x: real, k: int)
    requires x - 0.5 < k as real <= x + 0.5
    ensures k == Round(x)
  {
  }

  /** An integer rounds to itself. */
  lemma RoundInteger(k: int)
    ensures Round(k as real) == k
  {
  }
}
