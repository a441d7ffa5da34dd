/**
 * `BinarySearchSolver`: bisection on [Start, End] for a root of a function
 * passed in by the caller.  The loop stops at a midpoint where the function
 * is exactly zero or where the half-width drops below Epsilon, and gives up
 * after MaxIterations halvings.
 */
module BinarySearch {
  import opened Wrappers

  /** Mathf.Abs. */
  function Abs(x: real): (r: real)
    ensures r >= 0.0 && (r == x || r == -x)
  {
    if x < 0.0 then -x else x
  }

  /** Mathf.Sign: +1 for zero and positive numbers, -1 for negative ones. */
  function Sign(x: real): (r: real)
    ensures r == 1.0 <==> x >= 0.0
    ensures r == -1.0 <==> x < 0.0
  {
    if x >= 0.0 then 1.0 else -1.0
  }

  /**
   * One halving: the end whose function value has the sign of f at the
   * midpoint is moved to the midpoint.
   */
  function Narrow(f: real -> real, a: real, b: real): (r: (real, real))
    ensures r.1 - r.0 == (b - a) / 2.0
    ensures (r.0 == a && r.1 == (a + b) / 2.0) || (r.0 == (a + b) / 2.0 && r.1 == b)
    ensures Sign(f(a)) != Sign(f(b)) ==> Sign(f(r.0)) != Sign(f(r.1))
  {
    var c := (a + b) / 2.0;
    if Sign(f(c)) == Sign(f(a)) then (c, b) else (a, c)
  }

  /**
   * The value the loop returns when `left` iterations remain, the bracket
   * is [a, b] and c is the last midpoint computed.
   */
  function Bisect(f: real -> real, a: real, b: real, tolerance: real, left: int, c: real): (r: real)
    ensures a <= b && (left >= 1 || a <= c <= b) ==> a <= r <= b
    ensures left >= 1 && (f((a + b) / 2.0) == 0.0 || Abs(b - a) / 2.0 < tolerance) ==> r == (a + b) / 2.0
    decreases left
  {
    if left <= 0 then c
    else
      var m := (a + b) / 2.0;
      if f(m) == 0.0 || Abs(b - a) / 2.0 < tolerance then m
      else
        var n := Narrow(f, a, b);
        Bisect(f, n.0, n.1, tolerance, left - 1, m)
  }

  /**
   * With f changing sign over [a, b], the search never returns a point
   * outside a bracket of f's sign change: every bracket it visits keeps
   * the sign change and is half as wide as the one before.
   */
  lemma {:induction false} BisectKeepsSignChange(f: real -> real, a: real, b: real, tolerance: real, left: int, c: real)
    requires a <= b && Sign(f(a)) != Sign(f(b)) && left >= 1
    ensures exists x, y :: a <= x <= Bisect(f, a, b, tolerance, left, c) <= y <= b && Sign(f(x)) != Sign(f(y))
    decreases left
  {
    var m := (a + b) / 2.0;
    if f(m) == 0.0 || Abs(b - a) / 2.0 < tolerance {
      assert a <= a <= m <= b <= b;
    } else {
      var n := Narrow(f, a, b);
      if left - 1 >= 1 {
        BisectKeepsSignChange(f, n.0, n.1, tolerance, left - 1, m);
        var x, y :| n.0 <= x <= Bisect(f, n.0, n.1, tolerance, left - 1, m) <= y <= n.1 && Sign(f(x)) != Sign(f(y));
        assert a <= x && y <= b;
      } else {
        assert n.0 <= m <= n.1;
      }
    }
  }

  class BinarySearchSolver {
    var start: real
    var end: real
    var epsilon: real
    var maxIterations: int
    /** The function whose root is sought; `None` stands for an unset (null) delegate. */
    var func: Option<real -> real>

    /** The parameterless constructor: only the defaults are set. */
    constructor Default()
      ensures start == 0.0 && end == 0.0 && func == None
      ensures epsilon == 0.01 && maxIterations == 1000
    {
      start, end, func := 0.0, 0.0, None;
      epsilon, maxIterations := 0.01, 1000;
    }

    constructor(a: real, b: real, f: real -> real)
      ensures start == a && end == b && func == Some(f)
      ensures epsilon == 0.01 && maxIterations == 1000
    {
      start, end, func := a, b, Some(f);
      epsilon, maxIterations := 0.01, 1000;
    }

    /** `Solve`: the bisection loop. */
    method Solve() returns (r: Result<real>)
      ensures maxIterations <= 0 ==> r == Success(0.0)
      ensures maxIterations >= 1 && func.None? ==> r == Failure(NullReference)
      ensures func.Some? ==> r == Success(Bisect(func.value, start, end, epsilon, maxIterations, 0.0))
    {
      var a, b, c := start, end, 0.0;
      var tolerance := epsilon;
      var iterations := 0;
      while iterations < maxIterations
        invariant 0 <= iterations && (maxIterations >= 1 ==> iterations <= maxIterations)
        invariant maxIterations <= 0 ==> c == 0.0
        invariant func.None? ==> iterations == 0
        invariant func.Some? ==>
          Bisect(func.value, a, b, tolerance, maxIterations - iterations, c)
            == Bisect(func.value, start, end, epsilon, maxIterations, 0.0)
        decreases maxIterations - iterations
      {
        c := (a + b) / 2.0;
        if func.None? {
          return Failure(NullReference);
        }
        var f := func.value;
        var fc := f(c);
        var error := Abs(b - a) / 2.0;
        if fc == 0.0 || error < tolerance {
          break;
        }
        ghost var n := Narrow(f, a, b);
        if Sign(fc) == Sign(f(a)) {
          a := c;
        } else {
          b := c;
        }
        assert (a, b) == n;
        iterations := iterations + 1;
      }
      return Success(c);
    }
  }
}
