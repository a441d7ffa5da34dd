/**
 * `LegendrePolynomial`: Gauss–Legendre quadrature of order n.  Instances
 * are shared per n through a table; each caches its roots (found by
 * Newton's method from cosine seeds) and its weights, and pairs them,
 * heaviest weight first, for the quadrature sum.
 *
 * The root values themselves are not modelled: `rootOf(i)` stands for the
 * value Newton's method returns from the i-th seed.
 */
module Legendre {
  import opened Wrappers

  /** One step of the recurrence: ((2k - 1) x p - (k - 1) q) / k, with p = P_{k-1}(x) and q = P_{k-2}(x). */
  function Step(k: real, x: real, p: real, q: real): real
    requires k != 0.0
  {
    ((2.0 * k - 1.0) * (x * p) - (k - 1.0) * q) / k
  }

  /** P_n(x), by the three-term recurrence. */
  function P(n: nat, x: real): real
  {
    if n == 0 then 1.0
    else if n == 1 then x
    else Step(n as real, x, P(n - 1, x), P(n - 2, x))
  }

  /** At -x, a step from an odd and an even value gives the same value (n even). */
  lemma StepFlipsEven(k: real, x: real, p: real, q: real)
    requires k != 0.0
    ensures Step(k, -x, -p, q) == Step(k, x, p, q)
  {
    assert -x * -p == x * p;
  }

  /** At -x, a step from an even and an odd value gives the opposite value (n odd). */
  lemma StepFlipsOdd(k: real, x: real, p: real, q: real)
    requires k != 0.0
    ensures Step(k, -x, p, -q) == -Step(k, x, p, q)
  {
    var y := (2.0 * k - 1.0) * (x * p) - (k - 1.0) * q;
    assert (2.0 * k - 1.0) * (-x * p) - (k - 1.0) * (-q) == -y;
    assert (-y) / k == -(y / k);
  }

  /** A step from two values 1 at x = 1 gives 1 again. */
  lemma StepAtOne(k: real)
    requires k != 0.0
    ensures Step(k, 1.0, 1.0, 1.0) == 1.0
  {
    assert (2.0 * k - 1.0) * (1.0 * 1.0) - (k - 1.0) * 1.0 == k;
  }

  /** Every Legendre polynomial is 1 at x = 1. */
  lemma {:induction false} PAtOne(n: nat)
    ensures P(n, 1.0) == 1.0
  {
    if n >= 2 {
      PAtOne(n - 1);
      PAtOne(n - 2);
      StepAtOne(n as real);
    }
  }

  /** The step of the parity proof for an even n. */
  lemma PEvenStep(n: nat, x: real)
    requires n >= 2 && P(n - 1, -x) == -P(n - 1, x) && P(n - 2, -x) == P(n - 2, x)
    ensures P(n, -x) == P(n, x)
  {
    StepFlipsEven(n as real, x, P(n - 1, x), P(n - 2, x));
  }

  /** The step of the parity proof for an odd n. */
  lemma POddStep(n: nat, x: real)
    requires n >= 2 && P(n - 1, -x) == P(n - 1, x) && P(n - 2, -x) == -P(n - 2, x)
    ensures P(n, -x) == -P(n, x)
  {
    StepFlipsOdd(n as real, x, P(n - 1, x), P(n - 2, x));
  }

  /** P_n is even or odd with n: P_n(-x) = (-1)^n P_n(x). */
  lemma {:induction false} PParity(n: nat, x: real)
    ensures P(n, -x) == if n % 2 == 0 then P(n, x) else -P(n, x)
  {
    if n >= 2 {
      PParity(n - 1, x);
      PParity(n - 2, x);
      if n % 2 == 0 {
        assert (n - 1) % 2 == 1 && (n - 2) % 2 == 0;
        PEvenStep(n, x);
      } else {
        assert (n - 1) % 2 == 0 && (n - 2) % 2 == 1;
        POddStep(n, x);
      }
    }
  }

  /** P_2 in closed form. */
  lemma PTwo(x: real)
    ensures P(2, x) == (3.0 * x * x - 1.0) / 2.0
  {
    assert P(2, x) == Step(2.0, x, x, 1.0);
  }

  /** The derivative formula for n >= 2: n / (x² - 1) · (x p - q), with p = P_n(x) and q = P_{n-1}(x). */
  function Slope(k: real, x: real, p: real, q: real): real
    requires x * x != 1.0
  {
    k / (x * x - 1.0) * (x * p - q)
  }

  /**
   * The derivative branch of `GetPolynomial`: 0 and 1 for n = 0 and n = 1,
   * otherwise the slope formula, which divides by zero at x = ±1.
   */
  function Derivative(n: nat, x: real): (r: Result<real>)
    ensures r.Failure? <==> n >= 2 && x * x == 1.0
    ensures r.Failure? ==> r.error == DivisionByZero
  {
    if n == 0 then Success(0.0)
    else if n == 1 then Success(1.0)
    else if x * x - 1.0 == 0.0 then Failure(DivisionByZero)
    else Success(Slope(n as real, x, P(n, x), P(n - 1, x)))
  }

  /** The formula agrees with the derivative of P_2 = (3x² - 1)/2, that is 3x. */
  lemma DerivativeOfPTwo(x: real)
    requires x * x != 1.0
    ensures Derivative(2, x) == Success(3.0 * x)
  {
    PTwo(x);
    var d, p := x * x - 1.0, P(2, x);
    assert Derivative(2, x) == Success(Slope(2.0, x, p, P(1, x)));
    var e := x * p - x;
    assert P(1, x) == x;
    assert Slope(2.0, x, p, x) == 2.0 / d * e;
    assert e == 3.0 * x * d / 2.0 by {
      assert p - 1.0 == 3.0 * d / 2.0;
      assert e == x * (p - 1.0);
    }
    assert 2.0 / d * e == 3.0 * x by {
      assert 2.0 / d * e == (3.0 * x) * (d / d);
    }
  }

  /** The denominator of a weight: (1 - x²) times the squared derivative d. */
  function Spread(x: real, d: real): real {
    (1.0 - x * x) * (d * d)
  }

  /** The weight of the root x: 2 / ((1 - x²) P_n'(x)²); a zero denominator gives no finite weight. */
  function WeightOf(n: nat, x: real): (r: Result<real>)
    ensures r.Failure? ==> r.error == DivisionByZero
    ensures r.Success? ==> Derivative(n, x).Success? && r.value * Spread(x, Derivative(n, x).value) == 2.0
  {
    match Derivative(n, x)
    case Failure(e) => Failure(e)
    case Success(d) =>
      var den := Spread(x, d);
      if den == 0.0 then Failure(DivisionByZero) else Success(2.0 / den)
  }

  /** The weights of all roots, or the first failure. */
  function Weights(n: int, rs: seq<real>): (r: Result<seq<real>>)
    requires n >= 0 || rs == []
    ensures r.Failure? ==> r.error == DivisionByZero
    ensures r.Success? ==> |r.value| == |rs|
    ensures r.Success? <==> forall i :: 0 <= i < |rs| ==> WeightOf(n, rs[i]).Success?
    ensures r.Success? ==> forall i :: 0 <= i < |rs| ==> r.value[i] == WeightOf(n, rs[i]).value
  {
    if rs == [] then Success([])
    else match WeightOf(n, rs[0])
      case Failure(e) => Failure(e)
      case Success(w) =>
        match Weights(n, rs[1..])
        case Failure(e) => Failure(e)
        case Success(ws) => Success([w] + ws)
  }

  /** One more root: its weight is appended, or the whole list fails. */
  lemma WeightsAppend(n: nat, rs: seq<real>, x: real)
    ensures Weights(n, rs + [x]) ==
      if Weights(n, rs).Success? && WeightOf(n, x).Success?
      then Success(Weights(n, rs).value + [WeightOf(n, x).value])
      else Failure(DivisionByZero)
  {
    var t := rs + [x];
    assert forall i :: 0 <= i < |rs| ==> t[i] == rs[i];
    assert t[|rs|] == x;
    if Weights(n, t).Success? {
      assert Weights(n, t).value == Weights(n, rs).value + [WeightOf(n, x).value];
    }
  }

  /** The n roots, in seed order. */
  function Roots(n: int, rootOf: int -> real): (r: seq<real>)
    ensures |r| == if n > 0 then n else 0
    ensures forall i :: 0 <= i < |r| ==> r[i] == rootOf(i + 1)
  {
    if n <= 0 then [] else Roots(n - 1, rootOf) + [rootOf(n)]
  }

  /** Weight-root pairs, weight first. */
  type Node = (real, real)

  /** Pairs the i-th weight with the i-th root. */
  function Zip(ws: seq<real>, rs: seq<real>): (r: seq<Node>)
    requires |ws| == |rs|
    ensures |r| == |rs| && forall i :: 0 <= i < |rs| ==> r[i] == (ws[i], rs[i])
  {
    seq(|rs|, i requires 0 <= i < |rs| => (ws[i], rs[i]))
  }

  /** Heaviest weight first. */
  predicate SortedByWeight(s: seq<Node>) {
    forall i, j :: 0 <= i < j < |s| ==> s[i].0 >= s[j].0
  }

  /** x placed before the first node no heavier than it: after exactly the strictly heavier nodes that lead t. */
  function Insert(x: Node, t: seq<Node>): (r: seq<Node>)
    ensures multiset(r) == multiset(t) + multiset{x}
    ensures |r| == |t| + 1
  {
    if t == [] || x.0 >= t[0].0 then [x] + t
    else
      assert t == [t[0]] + t[1..];
      [t[0]] + Insert(x, t[1..])
  }

  /** Inserting into a sorted list keeps it sorted. */
  lemma {:induction false} InsertSorted(x: Node, t: seq<Node>)
    requires SortedByWeight(t)
    ensures SortedByWeight(Insert(x, t))
  {
    if t != [] && x.0 < t[0].0 {
      var u := Insert(x, t[1..]);
      InsertSorted(x, t[1..]);
      assert forall j :: 0 <= j < |u| ==> t[0].0 >= u[j].0 by {
        forall j | 0 <= j < |u|
          ensures t[0].0 >= u[j].0
        {
          assert u[j] in multiset(u);
          if u[j] != x {
            assert u[j] in multiset(t[1..]);
            var k :| 1 <= k < |t| && t[k] == u[j];
          }
        }
      }
      assert Insert(x, t) == [t[0]] + u;
    }
  }

  /** `OrderByDescending(e => e.Key)`: insertion sort by weight, heaviest first. */
  function SortByWeight(s: seq<Node>): (r: seq<Node>)
    ensures |r| == |s|
  {
    if s == [] then [] else Insert(s[0], SortByWeight(s[1..]))
  }

  /** The sorted list is a permutation of the input. */
  lemma {:induction false} SortByWeightPermutes(s: seq<Node>)
    ensures multiset(SortByWeight(s)) == multiset(s)
  {
    if s != [] {
      SortByWeightPermutes(s[1..]);
      assert s == [s[0]] + s[1..];
    }
  }

  /** The sorted list has the heaviest weight first. */
  lemma {:induction false} SortByWeightSorted(s: seq<Node>)
    ensures SortedByWeight(SortByWeight(s))
  {
    if s != [] {
      SortByWeightSorted(s[1..]);
      InsertSorted(s[0], SortByWeight(s[1..]));
    }
  }

  /** The nodes of weight w, in their order. */
  function OfWeight(s: seq<Node>, w: real): (r: seq<Node>)
    ensures |r| <= |s| && forall i :: 0 <= i < |r| ==> r[i].0 == w
  {
    if s == [] then [] else (if s[0].0 == w then [s[0]] else []) + OfWeight(s[1..], w)
  }

  /** Insertion passes only strictly heavier nodes, so x leads the nodes of its own weight. */
  lemma {:induction false} InsertOfWeight(x: Node, t: seq<Node>, w: real)
    ensures OfWeight(Insert(x, t), w) == (if x.0 == w then [x] else []) + OfWeight(t, w)
  {
    if t == [] || x.0 >= t[0].0 {
      assert Insert(x, t) == [x] + t;
      assert ([x] + t)[1..] == t;
    } else {
      var u := Insert(x, t[1..]);
      InsertOfWeight(x, t[1..], w);
      assert Insert(x, t) == [t[0]] + u;
      assert ([t[0]] + u)[1..] == u;
    }
  }

  /**
   * The sort is stable, as `OrderByDescending` is: the nodes of any one
   * weight keep their input order.
   */
  lemma {:induction false} SortByWeightStable(s: seq<Node>, w: real)
    ensures OfWeight(SortByWeight(s), w) == OfWeight(s, w)
  {
    if s != [] {
      SortByWeightStable(s[1..], w);
      InsertOfWeight(s[0], SortByWeight(s[1..]), w);
    }
  }

  /** The contribution of one node: its weight times f at its root mapped by x ↦ c1 x + c2. */
  function Term(p: Node, f: real -> real, c1: real, c2: real): real {
    p.0 * f(c1 * p.1 + c2)
  }

  /** The quadrature sum over the nodes. */
  function Quadrature(ps: seq<Node>, f: real -> real, c1: real, c2: real): real {
    if ps == [] then 0.0 else Term(ps[0], f, c1, c2) + Quadrature(ps[1..], f, c1, c2)
  }

  /** The same sum, extended at the back, as the loop of `GetIntegral` takes it. */
  lemma {:induction false} QuadratureAppend(s: seq<Node>, x: Node, f: real -> real, c1: real, c2: real)
    ensures Quadrature(s + [x], f, c1, c2) == Quadrature(s, f, c1, c2) + Term(x, f, c1, c2)
  {
    if s != [] {
      QuadratureAppend(s[1..], x, f, c1, c2);
      assert (s + [x])[1..] == s[1..] + [x];
    }
  }

  /** Inserting a node adds its term, wherever it lands. */
  lemma {:induction false} QuadratureInsert(x: Node, t: seq<Node>, f: real -> real, c1: real, c2: real)
    ensures Quadrature(Insert(x, t), f, c1, c2) == Term(x, f, c1, c2) + Quadrature(t, f, c1, c2)
  {
    if t != [] && x.0 < t[0].0 {
      QuadratureInsert(x, t[1..], f, c1, c2);
      assert Insert(x, t)[1..] == Insert(x, t[1..]);
    } else {
      assert ([x] + t)[1..] == t;
    }
  }

  /** Sorting the nodes does not change the quadrature sum. */
  lemma {:induction false} QuadratureOrderFree(s: seq<Node>, f: real -> real, c1: real, c2: real)
    ensures Quadrature(SortByWeight(s), f, c1, c2) == Quadrature(s, f, c1, c2)
  {
    if s != [] {
      QuadratureOrderFree(s[1..], f, c1, c2);
      QuadratureInsert(s[0], SortByWeight(s[1..]), f, c1, c2);
    }
  }

  /** Gauss–Legendre quadrature of f over [a, b] on the nodes ps of [-1, 1]. */
  function Integral(ps: seq<Node>, f: real -> real, a: real, b: real): real {
    var c1 := (b - a) / 2.0;
    c1 * Quadrature(ps, f, c1, (a + b) / 2.0)
  }

  /** Node lists with the same quadrature sum have the same integral. */
  lemma SameSumSameIntegral(p: seq<Node>, q: seq<Node>, f: real -> real, a: real, b: real)
    requires Quadrature(p, f, (b - a) / 2.0, (a + b) / 2.0) == Quadrature(q, f, (b - a) / 2.0, (a + b) / 2.0)
    ensures Integral(p, f, a, b) == Integral(q, f, a, b)
  {
  }

  /** Sorting the nodes does not change the integral. */
  lemma IntegralOrderFree(ps: seq<Node>, f: real -> real, a: real, b: real)
    ensures Integral(SortByWeight(ps), f, a, b) == Integral(ps, f, a, b)
  {
    QuadratureOrderFree(ps, f, (b - a) / 2.0, (a + b) / 2.0);
    SameSumSameIntegral(SortByWeight(ps), ps, f, a, b);
  }

  /**
   * The summing loop of `GetIntegral` and its final scaling: the first n
   * nodes, in order, mapped from [-1, 1] onto [a, b].
   */
  method Integrate(ps: seq<Node>, n: int, f: real -> real, a: real, b: real) returns (v: real)
    requires n <= |ps|
    ensures v == Integral(ps[..if n > 0 then n else 0], f, a, b)
  {
    var c1 := (b - a) / 2.0;
    var c2 := (a + b) / 2.0;
    var sum := 0.0;
    var i := 0;
    while i < n
      invariant 0 <= i <= (if n > 0 then n else 0)
      invariant sum == Quadrature(ps[..i], f, c1, c2)
    {
      QuadratureAppend(ps[..i], ps[i], f, c1, c2);
      assert ps[..i + 1] == ps[..i] + [ps[i]];
      sum := sum + Term(ps[i], f, c1, c2);
      i := i + 1;
    }
    assert i == if n > 0 then n else 0;
    v := c1 * sum;
  }

  class LegendrePolynomial {
    var epsilon: real
    var maxIterations: int
    const n: int
    /** The root cache (`_r`) and the weight cache (`_w`). */
    var roots: seq<real>
    var weights: seq<real>

    /** Cached weights always belong to the cached roots. */
    ghost predicate Valid()
      reads this
    {
      (n < 0 ==> roots == []) && (roots == [] || |roots| == n) &&
      (weights != [] ==> n >= 0 && Weights(n, roots) == Success(weights))
    }

    /** The private constructor: defaults and empty caches. */
    constructor(n: int)
      ensures Valid() && this.n == n
      ensures epsilon == 0.01 && maxIterations == 1000
      ensures roots == [] && weights == []
    {
      this.n := n;
      epsilon, maxIterations := 0.01, 1000;
      roots, weights := [], [];
    }

    /** `GetRoots`: the cache if it is filled, otherwise the n roots, cached. */
    method GetRoots(rootOf: int -> real) returns (r: seq<real>)
      requires Valid()
      modifies this
      ensures Valid() && weights == old(weights)
      ensures old(roots) != [] ==> roots == old(roots)
      ensures old(roots) == [] ==> roots == Roots(n, rootOf)
      ensures r == roots
    {
      if roots != [] {
        return roots;
      }
      assert weights == [];
      var i := 1;
      while i <= n
        invariant 1 <= i <= (if n >= 1 then n + 1 else 1)
        invariant roots == Roots(i - 1, rootOf)
        invariant weights == old(weights)
      {
        roots := roots + [rootOf(i)];
        i := i + 1;
      }
      return roots;
    }

    /**
     * `GetWeights`: the cache if it is filled, otherwise one weight per
     * cached root, cached.  A root with no finite weight is a failure.
     */
    method GetWeights() returns (r: Result<seq<real>>)
      requires Valid()
      modifies this
      ensures Valid() && roots == old(roots)
      ensures old(weights) != [] ==> r == Success(old(weights)) && weights == old(weights)
      ensures old(weights) == [] ==> r == Weights(n, roots) && (r.Success? ==> weights == r.value)
      ensures old(weights) == [] && r.Failure? ==> weights == old(weights)
    {
      if weights != [] {
        return Success(weights);
      }
      if roots == [] {
        return Success([]);
      }
      var w: seq<real> := [];
      var i := 0;
      while i < |roots|
        invariant 0 <= i <= |roots|
        invariant Weights(n, roots[..i]) == Success(w)
        invariant weights == old(weights) && roots == old(roots)
      {
        var x := roots[i];
        var wx := WeightOf(n, x);
        if wx.Failure? {
          return Failure(wx.error);
        }
        WeightsAppend(n, roots[..i], x);
        assert roots[..i + 1] == roots[..i] + [x];
        w := w + [wx.value];
        i := i + 1;
      }
      assert roots[..i] == roots;
      weights := w;
      return Success(w);
    }

    /** `GetResult`: the weight-root pairs, heaviest weight first. */
    method GetResult(rootOf: int -> real) returns (r: Result<seq<Node>>)
      requires Valid()
      modifies this
      ensures Valid()
      ensures roots == (if old(roots) != [] then old(roots) else Roots(n, rootOf))
      ensures r.Success? ==> |weights| == |roots| && r.value == SortByWeight(Zip(weights, roots))
      ensures r.Failure? <==> Weights(n, roots).Failure?
    {
      var rs := GetRoots(rootOf);
      var ws := GetWeights();
      if ws.Failure? {
        return Failure(ws.error);
      }
      var pairs: seq<Node> := [];
      for i := 0 to |rs|
        invariant |pairs| == i
        invariant forall k :: 0 <= k < i ==> pairs[k] == (ws.value[k], rs[k])
      {
        pairs := pairs + [(ws.value[i], rs[i])];
      }
      assert pairs == Zip(ws.value, rs);
      return Success(SortByWeight(pairs));
    }

    /**
     * `GetIntegral`: the quadrature of f over [a, b].  The pairs are summed
     * heaviest first; the sum is the same in the order of the roots.
     */
    method GetIntegral(a: real, b: real, f: real -> real, rootOf: int -> real) returns (r: Result<real>)
      requires Valid()
      modifies this
      ensures Valid()
      ensures r.Failure? <==> Weights(n, roots).Failure?
      ensures r.Success? ==> |weights| == |roots| && r.value == Integral(Zip(weights, roots), f, a, b)
    {
      var result := GetResult(rootOf);
      if result.Failure? {
        return Failure(result.error);
      }
      ghost var z := Zip(weights, roots);
      var ps := result.value;
      assert ps == SortByWeight(z) && |ps| == if n > 0 then n else 0;
      var v := Integrate(ps, n, f, a, b);
      assert ps[..if n > 0 then n else 0] == ps;
      IntegralOrderFree(z, f, a, b);
      return Success(v);
    }
  }

  /** The shared table of instances, one per order (the static `Tables`). */
  class LegendreTables {
    var tables: map<int, LegendrePolynomial>

    ghost predicate Valid()
      reads this
    {
      forall k :: k in tables ==> tables[k].n == k
    }

    constructor()
      ensures Valid() && tables == map[]
    {
      tables := map[];
    }

    /** `GetInstance`: the stored instance of order n, or a new one, stored. */
    method GetInstance(n: int) returns (p: LegendrePolynomial)
      requires Valid()
      modifies this
      ensures Valid() && p.n == n
      ensures n in old(tables) ==> p == old(tables)[n] && tables == old(tables)
      ensures n !in old(tables) ==>
        fresh(p) && p.Valid() && p.roots == [] && p.weights == [] && tables == old(tables)[n := p]
    {
      if n in tables {
        return tables[n];
      }
      p := new LegendrePolynomial(n);
      tables := tables[n := p];
    }
  }
}
