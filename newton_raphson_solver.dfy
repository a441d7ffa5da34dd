/**
 * `NewtonRaphsonSolver`: Newton's iteration x := x - f(x) / f'(x) from
 * Initial, with f and f' passed in by the caller.  It returns the first
 * iterate whose step is shorter than Epsilon, or the last one after
 * MaxIterations steps (MaxIterations is a float, so ⌈MaxIterations⌉ steps).
 */
module NewtonRaphson {
  import opened Wrappers
  import BinarySearch

  /** How many times `iterations < max` holds for iterations = 0, 1, 2, ...: the least n >= max. */
  function IterationCount(max: real): (r: nat)
    ensures r as real >= max
    ensures r == 0 || ((r - 1) as real) < max
  {
    if max <= 0.0 then 0 else -((-max).Floor)
  }

  /**
   * The value the loop returns from the iterate x with `left` steps to go.
   * A zero derivative makes the step non-finite; that is a failure here.
   */
  function Newton(f: real -> real, fp: real -> real, x: real, tolerance: real, left: nat): (r: Result<real>)
    ensures left == 0 ==> r == Success(x)
    ensures left >= 1 && fp(x) == 0.0 ==> r == Failure(DivisionByZero)
    ensures r.Failure? ==> r.error == DivisionByZero
    decreases left
  {
    if left == 0 then Success(x)
    else if fp(x) == 0.0 then Failure(DivisionByZero)
    else
      var dx := -f(x) / fp(x);
      if BinarySearch.Abs(dx) < tolerance then Success(x + dx)
      else Newton(f, fp, x + dx, tolerance, left - 1)
  }

  /** A step shorter than the tolerance ends the iteration at the stepped-to point. */
  lemma NewtonStopsOnSmallStep(f: real -> real, fp: real -> real, x: real, tolerance: real, left: nat)
    requires left >= 1 && fp(x) != 0.0 && BinarySearch.Abs(-f(x) / fp(x)) < tolerance
    ensures Newton(f, fp, x, tolerance, left) == Success(x - f(x) / fp(x))
  {
    assert x + -f(x) / fp(x) == x - f(x) / fp(x);
  }

  /** Started at a root where the derivative is not zero, the iteration stays there. */
  lemma {:induction false} NewtonFixedPoint(f: real -> real, fp: real -> real, x: real, tolerance: real, left: nat)
    requires f(x) == 0.0 && fp(x) != 0.0
    ensures Newton(f, fp, x, tolerance, left) == Success(x)
  {
    if left >= 1 {
      assert -f(x) / fp(x) == 0.0;
      NewtonFixedPoint(f, fp, x, tolerance, left - 1);
    }
  }

  class NewtonRaphsonSolver {
    var initial: real
    var epsilon: real
    /** f and f'; `None` stands for an unset (null) delegate. */
    var func: Option<real -> real>
    var funcPrime: Option<real -> real>
    var maxIterations: real

    /** The parameterless constructor: only the defaults are set. */
    constructor Default()
      ensures initial == 0.0 && func == None && funcPrime == None
      ensures epsilon == 0.01 && maxIterations == 1000.0
    {
      initial, func, funcPrime := 0.0, None, None;
      epsilon, maxIterations := 0.01, 1000.0;
    }

    constructor(x0: real, f: real -> real, fp: real -> real)
      ensures initial == x0 && func == Some(f) && funcPrime == Some(fp)
      ensures epsilon == 0.01 && maxIterations == 1000.0
    {
      initial, func, funcPrime := x0, Some(f), Some(fp);
      epsilon, maxIterations := 0.01, 1000.0;
    }

    /** `Solve`: the Newton loop. */
    method Solve() returns (r: Result<real>)
      ensures maxIterations <= 0.0 ==> r == Success(initial)
      ensures maxIterations > 0.0 && (func.None? || funcPrime.None?) ==> r == Failure(NullReference)
      ensures func.Some? && funcPrime.Some? ==>
        r == Newton(func.value, funcPrime.value, initial, epsilon, IterationCount(maxIterations))
    {
      var x := initial;
      var tolerance := epsilon;
      var iterations := 0;
      ghost var count := IterationCount(maxIterations);
      while (iterations as real) < maxIterations
        invariant 0 <= iterations <= count
        invariant (func.None? || funcPrime.None?) ==> iterations == 0
        invariant maxIterations <= 0.0 ==> x == initial
        invariant func.Some? && funcPrime.Some? ==>
          Newton(func.value, funcPrime.value, x, tolerance, count - iterations)
            == Newton(func.value, funcPrime.value, initial, epsilon, count)
        decreases count - iterations
      {
        if func.None? || funcPrime.None? {
          return Failure(NullReference);
        }
        var fx := func.value(x);
        var fpx := funcPrime.value(x);
        if fpx == 0.0 {
          return Failure(DivisionByZero);
        }
        var dx := -fx / fpx;
        x := x + dx;
        var error := BinarySearch.Abs(dx);
        if error < tolerance {
          return Success(x);
        }
        iterations := iterations + 1;
      }
      return Success(x);
    }
  }
}
