/**
 * `SimpsonSolver`: the composite Simpson rule over [Start, End] with
 * `Intervals` sub-intervals of width h.  Odd-numbered interior samples are
 * weighted 4 and even-numbered ones 2; the integrand is passed in.
 */
module Simpson {
  import opened Wrappers

  /** The Simpson weight of interior sample i. */
  function Weight(i: int): real {
    if i % 2 == 1 then 4.0 else 2.0
  }

  /** Sample i of the integrand. */
  function Sample(f: real -> real, a: real, h: real, i: int): real {
    f(a + (i as real) * h)
  }

  /** The weighted interior samples 0 < i < m: the rule's reference form. */
  function Interior(f: real -> real, a: real, h: real, m: int): real
    decreases m
  {
    if m <= 1 then 0.0 else Interior(f, a, h, m - 1) + Weight(m - 1) * Sample(f, a, h, m - 1)
  }

  /** The width h of one of the n sub-intervals of [a, b]. */
  function Width(a: real, b: real, n: int): real
    requires n != 0
  {
    (b - a) / (n as real)
  }

  /** The final scaling of the sum s by h / 3. */
  function Scaled(s: real, h: real): real {
    s * h / 3.0
  }

  /** The composite rule: (h / 3) times the end samples plus the weighted interior ones. */
  function Rule(f: real -> real, a: real, b: real, n: int): real
    requires n != 0
  {
    var h := Width(a, b, n);
    Scaled(f(a) + f(b) + Interior(f, a, h, n), h)
  }

  /** What the first loop adds up: four times each odd sample below m. */
  function OddPart(f: real -> real, a: real, h: real, m: int): real
    decreases m
  {
    if m <= 1 then 0.0
    else OddPart(f, a, h, m - 1) + (if (m - 1) % 2 == 1 then 4.0 * Sample(f, a, h, m - 1) else 0.0)
  }

  /** What the second loop adds up: twice each even sample 0 < i < m. */
  function EvenPart(f: real -> real, a: real, h: real, m: int): real
    decreases m
  {
    if m <= 1 then 0.0
    else EvenPart(f, a, h, m - 1) + (if (m - 1) % 2 == 0 then 2.0 * Sample(f, a, h, m - 1) else 0.0)
  }

  /** Every interior sample is taken exactly once: by the odd loop or by the even loop. */
  lemma {:induction false} PartsMakeInterior(f: real -> real, a: real, h: real, m: int)
    ensures OddPart(f, a, h, m) + EvenPart(f, a, h, m) == Interior(f, a, h, m)
    decreases m
  {
    if m > 1 {
      PartsMakeInterior(f, a, h, m - 1);
    }
  }

  /** For a constant integrand c, the interior samples of an even count m >= 2 add up to (3m - 2)c. */
  lemma {:induction false} InteriorOfConstant(f: real -> real, c: real, a: real, h: real, m: int)
    requires forall x :: f(x) == c
    requires m >= 2 && m % 2 == 0
    ensures Interior(f, a, h, m) == (3 * m - 2) as real * c
    decreases m
  {
    if m > 2 {
      InteriorOfConstant(f, c, a, h, m - 2);
      assert Interior(f, a, h, m) == Interior(f, a, h, m - 2) + 4.0 * c + 2.0 * c;
    } else {
      assert Interior(f, a, h, 2) == 4.0 * c;
    }
  }

  /** The rule is exact on constants: it gives c(b - a). */
  lemma RuleOfConstant(f: real -> real, c: real, a: real, b: real, n: int)
    requires forall x :: f(x) == c
    requires n > 0 && n % 2 == 0
    ensures Rule(f, a, b, n) == c * (b - a)
  {
    var h := Width(a, b, n);
    InteriorOfConstant(f, c, a, h, n);
    assert f(a) + f(b) + Interior(f, a, h, n) == 3.0 * (n as real) * c;
    assert (n as real) * h == b - a;
  }

  /** Two more samples: the odd one is added to the odd part. */
  lemma OddStep(f: real -> real, a: real, h: real, i: int)
    requires i % 2 == 1 && i >= 1
    ensures OddPart(f, a, h, i + 2) == OddPart(f, a, h, i) + 4.0 * Sample(f, a, h, i)
    ensures OddPart(f, a, h, i + 1) == OddPart(f, a, h, i) + 4.0 * Sample(f, a, h, i)
  {
    assert (i + 1) % 2 == 0;
  }

  /** Two more samples: the even one is added to the even part. */
  lemma EvenStep(f: real -> real, a: real, h: real, i: int)
    requires i % 2 == 0 && i >= 2
    ensures EvenPart(f, a, h, i + 2) == EvenPart(f, a, h, i) + 2.0 * Sample(f, a, h, i)
  {
    assert (i + 1) % 2 == 1;
  }

  /** The two sampling loops of `Solve`: the end samples plus the weighted interior ones. */
  method SampleSum(f: real -> real, a: real, b: real, n: int, h: real) returns (s: real)
    requires n % 2 == 0
    ensures s == f(a) + f(b) + Interior(f, a, h, n)
  {
    s := f(a) + f(b);
    var i := 1;
    while i < n
      invariant i % 2 == 1 && 1 <= i && (i == 1 || i <= n + 1)
      invariant s == f(a) + f(b) + OddPart(f, a, h, i)
    {
      s := s + 4.0 * Sample(f, a, h, i);
      OddStep(f, a, h, i);
      i := i + 2;
    }
    assert OddPart(f, a, h, i) == OddPart(f, a, h, n) by {
      if n > 0 {
        assert i == n + 1 && n % 2 == 0;
      }
    }
    i := 2;
    while i < n - 1
      invariant i % 2 == 0 && 2 <= i && (i == 2 || i <= n)
      invariant s == f(a) + f(b) + OddPart(f, a, h, n) + EvenPart(f, a, h, i)
    {
      s := s + 2.0 * Sample(f, a, h, i);
      EvenStep(f, a, h, i);
      i := i + 2;
    }
    assert EvenPart(f, a, h, i) == EvenPart(f, a, h, n) by {
      if n > 0 {
        assert i == n;
      } else {
        assert EvenPart(f, a, h, 2) == 0.0;
      }
    }
    PartsMakeInterior(f, a, h, n);
  }

  class SimpsonSolver {
    var intervals: int
    var start: real
    var end: real
    /** The integrand; `None` stands for an unset (null) delegate. */
    var func: Option<real -> real>

    /** The parameterless constructor leaves every property at its default. */
    constructor Default()
      ensures intervals == 0 && start == 0.0 && end == 0.0 && func == None
    {
      intervals, start, end, func := 0, 0.0, 0.0, None;
    }

    constructor(f: real -> real, a: real, b: real, n: int)
      ensures func == Some(f) && start == a && end == b && intervals == n
    {
      func, start, end, intervals := Some(f), a, b, n;
    }

    /**
     * `Solve`.  An odd count is rejected; a count of zero gives a step of
     * infinite length, so no finite value.
     */
    method Solve() returns (r: Result<real>)
      ensures intervals % 2 != 0 ==> r == Failure(OddIntervals)
      ensures intervals % 2 == 0 && func.None? ==> r == Failure(NullReference)
      ensures intervals == 0 && func.Some? ==> r == Failure(DivisionByZero)
      ensures intervals % 2 == 0 && intervals != 0 && func.Some? ==>
        r == Success(Rule(func.value, start, end, intervals))
    {
      if intervals % 2 != 0 {
        return Failure(OddIntervals);
      }
      if func.None? {
        return Failure(NullReference);
      }
      if intervals == 0 {
        return Failure(DivisionByZero);
      }
      var f := func.value;
      var n := intervals;
      var h := Width(start, end, n);
      var s := SampleSum(f, start, end, n, h);
      return Success(Scaled(s, h));
    }
  }
}
