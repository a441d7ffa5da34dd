/**
 * The polynomial helpers of `MathHelper`: factorials, binomial
 * coefficients, Bernstein polynomials, the linear/quadratic/cubic Bézier
 * shortcuts, `Map` and `LineIntersect`.
 */
module MathHelper {
  import opened Vectors
  import opened Wrappers

  /* ---------- Factorial and binomial coefficients ---------- */

  /** n!, with 1 for every n <= 1 (the loop in `Factorial` never runs then). */
  function Fact(n: int): (r: nat)
    ensures r >= 1
    ensures n >= 1 ==> r >= n
    decreases n
  {
    if n <= 1 then 1 else n * Fact(n - 1)
  }

  /** The accumulator loop of `Factorial`. */
  method Factorial(n: int) returns (r: int)
    ensures r == Fact(n)
  {
    r := 1;
    var i := 2;
    while i <= n
      invariant 2 <= i <= if n < 2 then 2 else n + 1
      invariant r == Fact(i - 1)
    {
      var next := r * i;
      assert next == Fact(i);
      r := next;
      i := i + 1;
    }
  }

  /** `Binomial(n, k)`: n! / (k! (n-k)!) with integer division. */
  function Binomial(n: int, k: int): int {
    Fact(n) / (Fact(k) * Fact(n - k))
  }

  /** Pascal's triangle, the reference definition of "n choose k". */
  function Choose(n: nat, k: nat): nat
    decreases n
  {
    if k == 0 || k == n then 1
    else if k > n then 0
    else Choose(n - 1, k - 1) + Choose(n - 1, k)
  }

  lemma {:induction false} ChooseTimesFactorials(n: nat, k: nat)
    requires k <= n
    ensures Choose(n, k) * (Fact(k) * Fact(n - k)) == Fact(n)
    decreases n
  {
    if k == 0 || k == n {
      assert Choose(n, k) == 1;
      assert Fact(0) == 1;
    } else {
      ChooseTimesFactorials(n - 1, k - 1);
      ChooseTimesFactorials(n - 1, k);
      var x, y := Fact(k - 1), Fact(n - 1 - k);
      assert Fact(k) == k * x;
      assert Fact(n - k) == (n - k) * y;
      assert Fact(n) == n * Fact(n - 1);
      PascalAlgebra(Choose(n - 1, k - 1), Choose(n - 1, k), Fact(n - 1), x, y, k, n);
    }
  }

  /** The ring identity behind Pascal's rule: k f + (n - k) f = n f. */
  lemma PascalAlgebra(a: int, b: int, f: int, x: int, y: int, k: int, n: int)
    requires a * (x * ((n - k) * y)) == f
    requires b * ((k * x) * y) == f
    ensures (a + b) * ((k * x) * ((n - k) * y)) == n * f
  {
    var m := x * y;
    assert a * (x * ((n - k) * y)) == (n - k) * (a * m);
    assert b * ((k * x) * y) == k * (b * m);
    assert (a + b) * ((k * x) * ((n - k) * y)) == k * (n - k) * (a * m) + k * (n - k) * (b * m);
  }

  lemma MulAtLeast(k: int, d: int)
    requires k >= 1 && d > 0
    ensures k * d >= d
  {}

  lemma DivExact(p: int, d: int)
    requires d > 0
    ensures (p * d) / d == p
  {
    var q := (p * d) / d;
    var r := (p * d) % d;
    assert q * d + r == p * d;
    assert (p - q) * d == p * d - q * d;
    if p - q >= 1 {
      MulAtLeast(p - q, d);
    } else if q - p >= 1 {
      MulAtLeast(q - p, d);
    }
  }

  /** The integer-division formula is exact: it gives the Pascal-triangle value. */
  lemma BinomialIsChoose(n: int, k: int)
    requires 0 <= k <= n
    ensures Binomial(n, k) == Choose(n, k)
  {
    ChooseTimesFactorials(n, k);
    MulAtLeast(Fact(k), Fact(n - k));
    DivExact(Choose(n, k), Fact(k) * Fact(n - k));
  }

  lemma {:induction false} ChooseSymmetric(n: nat, k: nat)
    requires k <= n
    ensures Choose(n, k) == Choose(n, n - k)
    decreases n
  {
    if k == 0 || k == n {
    } else {
      ChooseSymmetric(n - 1, k - 1);
      ChooseSymmetric(n - 1, k);
    }
  }

  /** Binomial(n, k) = Binomial(n, n - k), both equal to Pascal's "n choose k". */
  lemma BinomialSymmetric(n: int, k: int)
    requires 0 <= k <= n
    ensures Binomial(n, k) == Binomial(n, n - k) == Choose(n, k)
    ensures Binomial(n, k) >= 1
  {
    BinomialIsChoose(n, k);
    BinomialIsChoose(n, n - k);
    ChooseSymmetric(n, k);
    ChoosePositive(n, k);
  }

  lemma {:induction false} ChoosePositive(n: nat, k: nat)
    requires k <= n
    ensures Choose(n, k) >= 1
    decreases n
  {
    if k != 0 && k != n {
      ChoosePositive(n - 1, k - 1);
    }
  }

  lemma MulAtLeastTwice(k: int, d: int)
    requires k >= 2 && d > 0
    ensures k * d >= 2 * d
  {}

  lemma DivSmall(a: int, d: int)
    requires 0 <= a < d
    ensures a / d == 0
  {}

  lemma {:induction false} FactGrows(k: int, i: int)
    requires 1 <= k < i
    ensures Fact(i) >= 2 * Fact(k)
    decreases i
  {
    var f := Fact(i - 1);
    assert Fact(i) == i * f;
    MulAtLeastTwice(i, f);
    if i > k + 1 {
      FactGrows(k, i - 1);
    }
  }

  /** Past the end of a row the formula gives 0 (for rows n >= 1). */
  lemma BinomialAboveRow(n: int, i: int)
    requires 1 <= n < i
    ensures Binomial(n, i) == 0
  {
    FactGrows(n, i);
    var fn, fi := Fact(n), Fact(i);
    assert Fact(n - i) == 1;
    assert fi * 1 == fi;
    DivSmall(fn, fi);
  }

  /**
   * `Binomial(n)`: row n of Pascal's triangle, filled into a fresh array.
   * Below n = -1 the array length n + 1 is negative and the allocation throws.
   */
  method BinomialRow(n: int) returns (r: Result<array<int>>)
    ensures n < -1 ==> r == Failure(NegativeSize)
    ensures n >= -1 ==> r.Success? && r.value.Length == n + 1
    ensures r.Success? ==> forall i :: 0 <= i < r.value.Length ==> r.value[i] == Binomial(n, i)
  {
    if n < -1 {
      return Failure(NegativeSize);
    }
    var terms := new int[n + 1];
    var i := 0;
    while i < n + 1
      invariant 0 <= i <= n + 1
      invariant forall j :: 0 <= j < i ==> terms[j] == Binomial(n, j)
    {
      terms[i] := Binomial(n, i);
      i := i + 1;
    }
    r := Success(terms);
  }

  /** Every entry of `Binomial(n)` is the Pascal-triangle value. */
  lemma BinomialRowIsPascal(n: nat, terms: seq<int>)
    requires |terms| == n + 1
    requires forall i :: 0 <= i < |terms| ==> terms[i] == Binomial(n, i)
    ensures forall i :: 0 <= i <= n ==> terms[i] == Choose(n, i) >= 1
    ensures terms[0] == 1 && terms[n] == 1
  {
    forall i | 0 <= i <= n
      ensures terms[i] == Choose(n, i) >= 1
    {
      BinomialIsChoose(n, i);
      ChoosePositive(n, i);
    }
  }

  /** Pascal's rule inside a row: each inner entry is the sum of the two above it. */
  lemma ChoosePascal(n: nat, k: nat)
    requires 1 <= k <= n
    ensures Choose(n, k) == Choose(n - 1, k - 1) + Choose(n - 1, k)
  {
    if k == n {
      assert Choose(n - 1, k) == 0;
    }
  }

  /** The sum of the first m entries of row n of Pascal's triangle. */
  function ChooseSum(n: nat, m: nat): nat {
    if m == 0 then 0 else ChooseSum(n, m - 1) + Choose(n, m - 1)
  }

  /** The sum of an integer sequence. */
  function Total(s: seq<int>): int {
    if s == [] then 0 else Total(s[..|s| - 1]) + s[|s| - 1]
  }

  function TwoTo(n: nat): (r: nat)
    ensures r >= 1
  {
    if n == 0 then 1 else 2 * TwoTo(n - 1)
  }

  /** Partial row sums follow Pascal's rule: row n up to m is row n - 1 up to m plus up to m - 1. */
  lemma {:induction false} ChooseSumPascal(n: nat, m: nat)
    requires 1 <= n && 1 <= m <= n + 1
    ensures ChooseSum(n, m) == ChooseSum(n - 1, m) + ChooseSum(n - 1, m - 1)
    decreases m
  {
    if m > 1 {
      ChooseSumPascal(n, m - 1);
      ChoosePascal(n, m - 1);
    }
  }

  /** Row n of Pascal's triangle sums to 2^n. */
  lemma {:induction false} ChooseRowSum(n: nat)
    ensures ChooseSum(n, n + 1) == TwoTo(n)
    decreases n
  {
    if n > 0 {
      ChooseSumPascal(n, n + 1);
      ChooseRowSum(n - 1);
      assert Choose(n - 1, n) == 0;
    }
  }

  /** The prefixes of a filled `Binomial(n)` row sum like the Pascal row. */
  lemma {:induction false} BinomialPrefixSum(n: nat, terms: seq<int>, m: nat)
    requires |terms| == n + 1 && m <= n + 1
    requires forall i :: 0 <= i < |terms| ==> terms[i] == Binomial(n, i)
    ensures Total(terms[..m]) == ChooseSum(n, m)
    decreases m
  {
    if m > 0 {
      BinomialPrefixSum(n, terms, m - 1);
      assert terms[..m][..m - 1] == terms[..m - 1];
      BinomialIsChoose(n, m - 1);
    }
  }

  /** The entries of `Binomial(n)` sum to 2^n. */
  lemma BinomialRowSum(n: nat, terms: seq<int>)
    requires |terms| == n + 1
    requires forall i :: 0 <= i < |terms| ==> terms[i] == Binomial(n, i)
    ensures Total(terms) == TwoTo(n)
  {
    BinomialPrefixSum(n, terms, n + 1);
    assert terms[..n + 1] == terms;
    ChooseRowSum(n);
  }

  /* ---------- Powers and Bernstein polynomials ---------- */

  function NatPow(x: real, e: nat): (r: real)
    ensures x != 0.0 ==> r != 0.0
    ensures x == 1.0 ==> r == 1.0
    ensures x == 0.0 && e > 0 ==> r == 0.0
    decreases e
  {
    if e == 0 then 1.0 else x * NatPow(x, e - 1)
  }

  /**
   * Mathf.Pow for an integer exponent.  A negative power of 0 is +Infinity
   * in floating point; it only ever meets a binomial factor of 0 here, and
   * the model gives the product its finite value 0.
   */
  function Pow(x: real, e: int): real {
    if e >= 0 then NatPow(x, e)
    else if x == 0.0 then 0.0
    else 1.0 / NatPow(x, -e)
  }

  /** `BernsteinPolynomial(t, n, i)` = Binomial(n, i) (1-t)^(n-i) t^i. */
  function Bernstein(t: real, n: int, i: int): real {
    Product(Binomial(n, i) as real, Pow(1.0 - t, n - i), Pow(t, i))
  }

  /** The closed form of the Bernstein basis over exact numbers: 0 outside 0 <= i <= n. */
  function ClosedBasis(t: real, n: int, i: int): real {
    if 0 <= i <= n then Product(Choose(n, i) as real, NatPow(1.0 - t, n - i), NatPow(t, i)) else 0.0
  }

  /**
   * Reference Bernstein basis, built row by row with Pascal's rule: the
   * weights de Casteljau's construction gives each control point.
   */
  function Basis(t: real, n: int, i: int): real
    decreases n
  {
    if i < 0 || i > n then 0.0
    else if n == 0 then 1.0
    else Mix(t, Basis(t, n - 1, i), Basis(t, n - 1, i - 1))
  }

  /** (1 - t) a + t b: the interpolation every de Casteljau step performs. */
  function Mix(t: real, a: real, b: real): real {
    (1.0 - t) * a + t * b
  }

  function Product(a: real, b: real, c: real): real {
    a * b * c
  }

  lemma BernsteinIsClosedBasis(t: real, n: int, i: int)
    requires 0 <= i <= n
    ensures Bernstein(t, n, i) == ClosedBasis(t, n, i)
  {
    BinomialIsChoose(n, i);
    var c, a, b := Binomial(n, i) as real, Pow(1.0 - t, n - i), Pow(t, i);
    assert c == Choose(n, i) as real;
    assert a == NatPow(1.0 - t, n - i);
    assert b == NatPow(t, i);
    assert Bernstein(t, n, i) == Product(c, a, b);
  }

  /** `BernsteinPolynomial` agrees with the reference basis on every row. */
  lemma BernsteinIsBasis(t: real, n: int, i: int)
    requires 0 <= i <= n
    ensures Bernstein(t, n, i) == Basis(t, n, i)
  {
    BernsteinIsClosedBasis(t, n, i);
    BasisIsClosed(t, n, i);
  }

  /** Pascal's rule holds on every index of a row n >= 1, inside and outside 0..n. */
  lemma BasisRecurrence(t: real, n: int, i: int)
    requires n >= 1
    ensures Basis(t, n, i) == Mix(t, Basis(t, n - 1, i), Basis(t, n - 1, i - 1))
  {
    if i < 0 || i > n {
      assert Basis(t, n - 1, i) == 0.0 && Basis(t, n - 1, i - 1) == 0.0;
    }
  }

  /** Pascal's rule builds exactly the closed form. */
  lemma {:induction false} BasisIsClosed(t: real, n: int, i: int)
    requires n >= 0
    ensures Basis(t, n, i) == ClosedBasis(t, n, i)
    decreases n
  {
    if n == 0 || i < 0 || i > n {
      if n == 0 && i == 0 {
        assert Choose(0, 0) == 1;
      }
    } else {
      BasisIsClosed(t, n - 1, i);
      BasisIsClosed(t, n - 1, i - 1);
      ClosedBasisRecurrence(t, n, i);
    }
  }

  /** At t = 0 only the first basis polynomial is non-zero, and it is 1. */
  lemma BernsteinAtZero(n: int, i: int)
    requires 0 <= i <= n
    ensures Bernstein(0.0, n, i) == if i == 0 then 1.0 else 0.0
  {
    BinomialIsChoose(n, i);
    var c, a, b := Binomial(n, i) as real, Pow(1.0, n - i), Pow(0.0, i);
    assert Bernstein(0.0, n, i) == Product(c, a, b);
    assert a == 1.0;
    if i == 0 {
      assert Choose(n, 0) == 1;
      assert c == 1.0 && b == 1.0;
    } else {
      assert b == 0.0;
    }
  }

  /** At t = 1 only the last basis polynomial is non-zero, and it is 1. */
  lemma BernsteinAtOne(n: int, i: int)
    requires 0 <= i <= n
    ensures Bernstein(1.0, n, i) == if i == n then 1.0 else 0.0
  {
    BinomialIsChoose(n, i);
    var c, a, b := Binomial(n, i) as real, Pow(0.0, n - i), Pow(1.0, i);
    assert Bernstein(1.0, n, i) == Product(c, a, b);
    assert b == 1.0;
    if i == n {
      assert Choose(n, n) == 1;
      assert c == 1.0 && a == 1.0;
    } else {
      assert a == 0.0;
    }
  }

  /** Past the end of a row of degree n >= 1 the polynomial vanishes, for every t. */
  lemma BernsteinAboveRow(t: real, n: int, i: int)
    requires 1 <= n < i
    ensures Bernstein(t, n, i) == 0.0
  {
    BinomialAboveRow(n, i);
  }

  /** B(n, i) = (1 - t) B(n-1, i) + t B(n-1, i-1) holds of the closed form. */
  lemma ClosedBasisRecurrence(t: real, n: int, i: int)
    requires 0 <= i <= n && n >= 1
    ensures ClosedBasis(t, n, i) == Mix(t, ClosedBasis(t, n - 1, i), ClosedBasis(t, n - 1, i - 1))
  {
    var s := 1.0 - t;
    if i == 0 {
      var p := NatPow(s, n - 1);
      assert NatPow(s, n) == s * p;
      assert Choose(n, 0) == 1 && Choose(n - 1, 0) == 1;
      assert ClosedBasis(t, n, i) == Product(1.0, s * p, 1.0);
      assert ClosedBasis(t, n - 1, i) == Product(1.0, p, 1.0);
    } else if i == n {
      var p := NatPow(t, n - 1);
      assert NatPow(t, n) == t * p;
      assert Choose(n, n) == 1 && Choose(n - 1, n - 1) == 1;
      assert ClosedBasis(t, n, i) == Product(1.0, 1.0, t * p);
      assert ClosedBasis(t, n - 1, i - 1) == Product(1.0, 1.0, p);
    } else {
      ClosedBasisRecurrenceInterior(t, n, i);
    }
  }

  lemma ClosedBasisRecurrenceInterior(t: real, n: int, i: int)
    requires 0 < i < n
    ensures ClosedBasis(t, n, i) == Mix(t, ClosedBasis(t, n - 1, i), ClosedBasis(t, n - 1, i - 1))
  {
    var s := 1.0 - t;
    var a, b := Choose(n - 1, i - 1) as real, Choose(n - 1, i) as real;
    var ps, pt := NatPow(s, n - i - 1), NatPow(t, i - 1);
    assert Choose(n, i) as real == a + b;
    assert NatPow(s, n - i) == s * ps;
    assert NatPow(t, i) == t * pt;
    assert ClosedBasis(t, n, i) == Product(a + b, s * ps, t * pt);
    assert ClosedBasis(t, n - 1, i) == Product(b, ps, t * pt);
    assert ClosedBasis(t, n - 1, i - 1) == Product(a, s * ps, pt);
    RecurrenceAlgebra(a, b, s, t, ps, pt);
  }

  lemma RecurrenceAlgebra(a: real, b: real, s: real, t: real, ps: real, pt: real)
    requires s == 1.0 - t
    ensures Product(a + b, s * ps, t * pt) == Mix(t, Product(b, ps, t * pt), Product(a, s * ps, pt))
  {}

  /* ---------- Bernstein sums ---------- */

  /** Sum over i < k of pts[i] * BernsteinPolynomial(t, n, i), accumulated left to right. */
  function BernsteinSum(t: real, pts: seq<Vec3>, n: int, k: nat): Vec3
    requires k <= |pts|
  {
    if k == 0 then Zero3
    else BernsteinSum(t, pts, n, k - 1).Add(pts[k - 1].Scale(Bernstein(t, n, k - 1)))
  }

  /** A sum over i < k of pts[i] weighted by w(i), accumulated left to right. */
  function WeightedSum(pts: seq<Vec3>, w: int -> real, k: nat): Vec3
    requires k <= |pts|
  {
    if k == 0 then Zero3
    else WeightedSum(pts, w, k - 1).Add(pts[k - 1].Scale(w(k - 1)))
  }

  /** The degree-n reference basis as a weight function. */
  function BasisWeights(t: real, n: int): int -> real {
    i => Basis(t, n, i)
  }

  /** The Bernstein sum is the sum over the reference basis. */
  lemma {:induction false} BernsteinSumIsBasisSum(t: real, pts: seq<Vec3>, n: int, k: nat)
    requires k <= |pts| && k <= n + 1
    ensures BernsteinSum(t, pts, n, k) == WeightedSum(pts, BasisWeights(t, n), k)
  {
    if k > 0 {
      BernsteinSumIsBasisSum(t, pts, n, k - 1);
      BernsteinIsBasis(t, n, k - 1);
    }
  }

  /** Terms whose basis value is 0 add nothing: the sum up to k equals the sum up to j. */
  lemma {:induction false} BernsteinSumVanishingTail(t: real, pts: seq<Vec3>, n: int, j: nat, k: nat)
    requires j <= k <= |pts|
    requires forall i :: j <= i < k ==> Bernstein(t, n, i) == 0.0
    ensures BernsteinSum(t, pts, n, k) == BernsteinSum(t, pts, n, j)
    decreases k
  {
    if k > j {
      BernsteinSumVanishingTail(t, pts, n, j, k - 1);
    }
  }

  lemma LinearBasis(t: real)
    ensures Bernstein(t, 1, 0) == 1.0 - t && Bernstein(t, 1, 1) == t
  {
    BernsteinIsBasis(t, 1, 0);
    BernsteinIsBasis(t, 1, 1);
  }

  /** (1 - t) p0 + t p1: the straight line through p0 and p1. */
  function LinearVector(t: real, p0: Vec3, p1: Vec3): Vec3 {
    p0.Scale(1.0 - t).Add(p1.Scale(t))
  }

  /**
   * `GetLinearVector3` evaluates a non-optimised Linear curve, i.e. the
   * degree-1 Bernstein sum; it is (1 - t) p0 + t p1 for every t.
   */
  lemma LinearVectorIsBernsteinSum(t: real, p0: Vec3, p1: Vec3)
    ensures BernsteinSum(t, [p0, p1], 1, 2) == LinearVector(t, p0, p1)
  {
    LinearBasis(t);
    var pts := [p0, p1];
    assert BernsteinSum(t, pts, 1, 1) == Zero3.Add(p0.Scale(1.0 - t));
  }

  /** Extrapolating at t = 2 reflects p0 through p1. */
  lemma LinearVectorAtTwo(p0: Vec3, p1: Vec3)
    ensures LinearVector(2.0, p0, p1) == p1.Scale(2.0).Sub(p0)
  {}

  /** A Bernstein sum at t = 0 is its first control point. */
  lemma {:induction false} BernsteinSumAtZero(pts: seq<Vec3>, n: int, k: nat)
    requires 1 <= k <= |pts| && k <= n + 1
    ensures BernsteinSum(0.0, pts, n, k) == pts[0]
  {
    BernsteinAtZero(n, k - 1);
    if k > 1 {
      BernsteinSumAtZero(pts, n, k - 1);
    }
  }

  lemma {:induction false} BernsteinSumAtOneBelow(pts: seq<Vec3>, n: int, k: nat)
    requires k <= |pts| && k <= n
    ensures BernsteinSum(1.0, pts, n, k) == Zero3
  {
    if k > 0 {
      BernsteinSumAtOneBelow(pts, n, k - 1);
      BernsteinAtOne(n, k - 1);
      var b := Bernstein(1.0, n, k - 1);
      assert pts[k - 1].Scale(b) == Zero3;
    }
  }

  /** A full Bernstein sum (n + 1 points, degree n) at t = 1 is its last control point. */
  lemma BernsteinSumAtOne(pts: seq<Vec3>, n: nat)
    requires |pts| == n + 1
    ensures BernsteinSum(1.0, pts, n, n + 1) == pts[n]
  {
    BernsteinSumAtOneBelow(pts, n, n);
    BernsteinAtOne(n, n);
  }

  /** `GetQuadraticVector3`: the non-optimised quadratic curve through p0, p1, p2. */
  function QuadraticVector(t: real, p0: Vec3, p1: Vec3, p2: Vec3): (r: Vec3)
    ensures t == 0.0 ==> r == p0
    ensures t == 1.0 ==> r == p2
  {
    var pts := [p0, p1, p2];
    BernsteinSumAtZero(pts, 2, 3);
    BernsteinSumAtOne(pts, 2);
    BernsteinSum(t, pts, 2, 3)
  }

  /** `GetCubicVector3`: the non-optimised cubic curve through p0 .. p3. */
  function CubicVector(t: real, p0: Vec3, p1: Vec3, p2: Vec3, p3: Vec3): (r: Vec3)
    ensures t == 0.0 ==> r == p0
    ensures t == 1.0 ==> r == p3
  {
    var pts := [p0, p1, p2, p3];
    BernsteinSumAtZero(pts, 3, 4);
    BernsteinSumAtOne(pts, 3);
    BernsteinSum(t, pts, 3, 4)
  }

  /* ---------- Map and LineIntersect ---------- */

  /** `Map`: the affine map sending s1 to s2 and e1 to e2. */
  function Map(v: real, s1: real, e1: real, s2: real, e2: real): (r: real)
    requires e1 != s1
    ensures v == s1 ==> r == s2
    ensures v == e1 ==> r == e2
  {
    var d := e1 - s1;
    var f := (v - s1) / d;
    assert v == s1 ==> f == 0.0;
    assert v == e1 ==> f == d / d == 1.0;
    f * (e2 - s2) + s2
  }

  /** Map preserves affine combinations. */
  lemma MapIsAffine(v: real, w: real, l: real, s1: real, e1: real, s2: real, e2: real)
    requires e1 != s1
    ensures Map(l * v + (1.0 - l) * w, s1, e1, s2, e2)
         == l * Map(v, s1, e1, s2, e2) + (1.0 - l) * Map(w, s1, e1, s2, e2)
  {
    var k := (e2 - s2) / (e1 - s1);
    assert forall u: real {:trigger Map(u, s1, e1, s2, e2)} :: Map(u, s1, e1, s2, e2) == (u - s1) * k + s2;
  }

  /** A line a x + b y = c of the plane. */
  datatype LineEquation = LineEquation(a: real, b: real, c: real)

  /** The equation of the line through p and q, with the coefficients the source computes. */
  function EquationThrough(p: Vec3, q: Vec3): LineEquation {
    var a, b := q.y - p.y, p.x - q.x;
    LineEquation(a, b, a * p.x + b * p.y)
  }

  /** The determinant of two line equations (the `delta` of the source). */
  function Determinant(e1: LineEquation, e2: LineEquation): real {
    e1.a * e2.b - e2.a * e1.b
  }

  predicate Satisfies(e: LineEquation, q: Vec3) {
    e.a * q.x + e.b * q.y == e.c
  }

  /** q lies (in the xy-plane) on the line through a and b. */
  predicate OnLine(q: Vec3, a: Vec3, b: Vec3) {
    (b.x - a.x) * (q.y - a.y) == (b.y - a.y) * (q.x - a.x)
  }

  /** The equation through a and b holds exactly on the line through a and b. */
  lemma EquationThroughIsLine(q: Vec3, a: Vec3, b: Vec3)
    ensures Satisfies(EquationThrough(a, b), q) <==> OnLine(q, a, b)
  {
    var e := EquationThrough(a, b);
    assert e.a * q.x + e.b * q.y - e.c == (b.y - a.y) * (q.x - a.x) - (b.x - a.x) * (q.y - a.y);
  }

  /**
   * `LineIntersect`: Cramer's rule on the two line equations.  A zero
   * determinant (parallel or degenerate lines) divides by zero.
   */
  function LineIntersect(p1: Vec3, p2: Vec3, p3: Vec3, p4: Vec3): (r: Result<Vec3>)
    ensures r.Failure? <==> Determinant(EquationThrough(p1, p2), EquationThrough(p3, p4)) == 0.0
    ensures r.Success? ==> r.value.z == 0.0
  {
    var e1, e2 := EquationThrough(p1, p2), EquationThrough(p3, p4);
    var delta := Determinant(e1, e2);
    if delta == 0.0 then Failure(DivisionByZero)
    else Success(Vec3((e2.b * e1.c - e1.b * e2.c) / delta, (e1.a * e2.c - e2.a * e1.c) / delta, 0.0))
  }

  /** Cramer's rule solves two equations with a non-zero determinant. */
  lemma CramerSolves(e1: LineEquation, e2: LineEquation, q: Vec3)
    requires Determinant(e1, e2) != 0.0
    requires q.x == (e2.b * e1.c - e1.b * e2.c) / Determinant(e1, e2)
    requires q.y == (e1.a * e2.c - e2.a * e1.c) / Determinant(e1, e2)
    ensures Satisfies(e1, q) && Satisfies(e2, q)
  {
    var delta := Determinant(e1, e2);
    assert q.x * delta == e2.b * e1.c - e1.b * e2.c;
    assert q.y * delta == e1.a * e2.c - e2.a * e1.c;
    assert (e1.a * q.x + e1.b * q.y) * delta == e1.c * delta;
    assert (e2.a * q.x + e2.b * q.y) * delta == e2.c * delta;
  }

  /** 2D cross product of the directions p2 - p1 and p4 - p3. */
  function Cross(p1: Vec3, p2: Vec3, p3: Vec3, p4: Vec3): real {
    (p2.x - p1.x) * (p4.y - p3.y) - (p2.y - p1.y) * (p4.x - p3.x)
  }

  /** The determinant vanishes exactly when the two directions are parallel. */
  lemma DeterminantIsCross(p1: Vec3, p2: Vec3, p3: Vec3, p4: Vec3)
    ensures Determinant(EquationThrough(p1, p2), EquationThrough(p3, p4)) == Cross(p1, p2, p3, p4)
  {
    var e1, e2 := EquationThrough(p1, p2), EquationThrough(p3, p4);
    assert e1.a * e2.b == (p2.y - p1.y) * (p3.x - p4.x);
    assert e2.a * e1.b == (p4.y - p3.y) * (p1.x - p2.x);
  }

  /** A found intersection lies on both lines. */
  lemma LineIntersectOnBothLines(p1: Vec3, p2: Vec3, p3: Vec3, p4: Vec3)
    ensures LineIntersect(p1, p2, p3, p4).Success? ==>
              OnLine(LineIntersect(p1, p2, p3, p4).value, p1, p2) && OnLine(LineIntersect(p1, p2, p3, p4).value, p3, p4)
  {
    var r := LineIntersect(p1, p2, p3, p4);
    if r.Success? {
      CramerSolves(EquationThrough(p1, p2), EquationThrough(p3, p4), r.value);
      EquationThroughIsLine(r.value, p1, p2);
      EquationThroughIsLine(r.value, p3, p4);
    }
  }
}
