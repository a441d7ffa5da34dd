/**
 * `BezierCurve`: a bounded buffer of control points with a one-shot undo
 * snapshot, evaluated either as a Bernstein sum or by de Casteljau's
 * recursion, with derivative control points, splitting and the fixed-step
 * parameter sampling.
 */
module Bezier {
  import opened Vectors
  import opened Wrappers
  import opened MathHelper
  import opened BezierOptions
  import opened Steps

  /* ---------- de Casteljau (`MoveToRecursion`) ---------- */

  /** One level of `MoveToRecursion`: each neighbour pair blended with `GetLinearVector3`. */
  function Lerp(t: real, pts: seq<Vec3>): seq<Vec3>
    requires |pts| >= 1
  {
    seq(|pts| - 1, i requires 0 <= i < |pts| - 1 => LinearVector(t, pts[i], pts[i + 1]))
  }

  /** `MoveToRecursion(t, points)`. */
  function DeCasteljau(t: real, pts: seq<Vec3>): Vec3
    requires |pts| >= 1
    decreases |pts|
  {
    if |pts| == 1 then pts[0] else DeCasteljau(t, Lerp(t, pts))
  }

  lemma LerpPrefix(t: real, pts: seq<Vec3>, k: nat)
    requires 1 <= k <= |pts|
    ensures Lerp(t, pts)[..k - 1] == Lerp(t, pts[..k])
  {}

  lemma LerpSuffix(t: real, pts: seq<Vec3>, k: nat)
    requires k < |pts|
    ensures Lerp(t, pts)[k..] == Lerp(t, pts[k..])
  {}

  /** De Casteljau blends the values of the curves without the last and without the first point. */
  lemma {:induction false} DeCasteljauSplit(t: real, pts: seq<Vec3>)
    requires |pts| >= 2
    ensures DeCasteljau(t, pts)
         == LinearVector(t, DeCasteljau(t, pts[..|pts| - 1]), DeCasteljau(t, pts[1..]))
    decreases |pts|
  {
    var l := Lerp(t, pts);
    if |pts| > 2 {
      DeCasteljauSplit(t, l);
      LerpPrefix(t, pts, |pts| - 1);
      LerpSuffix(t, pts, 1);
    }
  }

  /** Compute(0) is the first control point and Compute(1) the last. */
  lemma {:induction false} DeCasteljauEndpoints(pts: seq<Vec3>)
    requires |pts| >= 1
    ensures DeCasteljau(0.0, pts) == pts[0]
    ensures DeCasteljau(1.0, pts) == pts[|pts| - 1]
    decreases |pts|
  {
    if |pts| > 1 {
      DeCasteljauEndpoints(Lerp(0.0, pts));
      DeCasteljauEndpoints(Lerp(1.0, pts));
    }
  }

  /* ---------- Bernstein sum (`MoveTo`) equals de Casteljau ---------- */

  lemma BlendStep(a: Vec3, b: Vec3, p: Vec3, t: real, x: real, y: real)
    ensures a.Scale(1.0 - t).Add(b.Scale(t)).Add(p.Scale(Mix(t, x, y)))
         == a.Add(p.Scale(x)).Scale(1.0 - t).Add(b.Add(p.Scale(y)).Scale(t))
  {
    var s := 1.0 - t;
    assert Mix(t, x, y) == s * x + t * y;
    ScaledBlendStep(a, b, p, s, t, x, y);
    assert a.Scale(s).Add(b.Scale(t)).Add(p.Scale(s * x + t * y))
        == a.Add(p.Scale(x)).Scale(s).Add(b.Add(p.Scale(y)).Scale(t));
  }

  lemma ScaledBlendStep(a: Vec3, b: Vec3, p: Vec3, s: real, t: real, x: real, y: real)
    ensures a.Scale(s).Add(b.Scale(t)).Add(p.Scale(s * x + t * y))
         == a.Add(p.Scale(x)).Scale(s).Add(b.Add(p.Scale(y)).Scale(t))
  {}

  /** Pascal's recurrence on the weight functions at one index. */
  lemma BasisWeightRecurrence(t: real, n: int, i: int)
    requires n >= 1
    ensures BasisWeights(t, n)(i) == Mix(t, BasisWeights(t, n - 1)(i), BasisWeights(t, n - 1)(i - 1))
  {
    BasisRecurrence(t, n, i);
  }

  lemma BasisWeightsOutside(t: real, n: int)
    ensures BasisWeights(t, n)(-1) == 0.0 && BasisWeights(t, n)(n + 1) == 0.0
  {
    assert Basis(t, n, -1) == 0.0;
  }

  /**
   * The first k terms of the w-sum blend, at t, the u-sums of the points
   * without the last and of the points without the first.
   */
  ghost predicate BlendsAt(pts: seq<Vec3>, w: int -> real, u: int -> real, t: real, k: nat)
    requires |pts| >= 2 && 1 <= k < |pts|
  {
    var n := |pts| - 1;
    WeightedSum(pts, w, k) == WeightedSum(pts[..n], u, k).Scale(1.0 - t).Add(WeightedSum(pts[1..], u, k - 1).Scale(t))
  }

  /** The first term alone: only the point without a predecessor. */
  lemma BlendsAtOne(pts: seq<Vec3>, w: int -> real, u: int -> real, t: real)
    requires |pts| >= 2
    requires w(0) == Mix(t, u(0), u(-1)) && u(-1) == 0.0
    ensures BlendsAt(pts, w, u, t, 1)
  {
    var n := |pts| - 1;
    var p, x, y := pts[0], u(0), u(-1);
    assert pts[..n][0] == p;
    assert WeightedSum(pts, w, 1) == Zero3.Add(p.Scale(Mix(t, x, y)));
    assert WeightedSum(pts[..n], u, 1) == Zero3.Add(p.Scale(x));
    BlendStep(Zero3, Zero3, p, t, x, y);
  }

  /** One more term keeps the blend when its weight splits the same way. */
  lemma BlendsAtNext(pts: seq<Vec3>, w: int -> real, u: int -> real, t: real, j: nat)
    requires |pts| >= 2 && 1 <= j && j + 1 < |pts|
    requires BlendsAt(pts, w, u, t, j)
    requires w(j) == Mix(t, u(j), u(j - 1))
    ensures BlendsAt(pts, w, u, t, j + 1)
  {
    var n := |pts| - 1;
    var front, back := pts[..n], pts[1..];
    var p, x, y := pts[j], u(j), u(j - 1);
    assert front[j] == p && back[j - 1] == p;
    var a, b, c := WeightedSum(front, u, j), WeightedSum(back, u, j - 1), WeightedSum(pts, w, j);
    assert c == a.Scale(1.0 - t).Add(b.Scale(t));
    assert WeightedSum(pts, w, j + 1) == c.Add(p.Scale(Mix(t, x, y)));
    assert WeightedSum(front, u, j + 1) == a.Add(p.Scale(x));
    assert WeightedSum(back, u, j) == b.Add(p.Scale(y));
    BlendStep(a, b, p, t, x, y);
  }

  /**
   * The first k terms of the degree-n basis sum blend the degree-(n-1)
   * sums of the points without the last and of the points without the first.
   */
  lemma {:induction false} BasisBlendPrefix(t: real, pts: seq<Vec3>, k: nat)
    requires |pts| >= 2 && 1 <= k < |pts|
    ensures BlendsAt(pts, BasisWeights(t, |pts| - 1), BasisWeights(t, |pts| - 2), t, k)
  {
    var n := |pts| - 1;
    var w, u := BasisWeights(t, n), BasisWeights(t, n - 1);
    BasisWeightRecurrence(t, n, k - 1);
    if k == 1 {
      BasisWeightsOutside(t, n - 1);
      BlendsAtOne(pts, w, u, t);
    } else {
      BasisBlendPrefix(t, pts, k - 1);
      BlendsAtNext(pts, w, u, t, k - 1);
    }
  }

  /** The full degree-n basis sum: the last point only meets the second part. */
  lemma BasisSumBlend(t: real, pts: seq<Vec3>)
    requires |pts| >= 2
    ensures var n := |pts| - 1;
      WeightedSum(pts, BasisWeights(t, n), n + 1)
      == WeightedSum(pts[..n], BasisWeights(t, n - 1), n).Scale(1.0 - t)
           .Add(WeightedSum(pts[1..], BasisWeights(t, n - 1), n).Scale(t))
  {
    var n := |pts| - 1;
    var w, u := BasisWeights(t, n), BasisWeights(t, n - 1);
    var front, back := pts[..n], pts[1..];
    var p, x, y := pts[n], u(n), u(n - 1);
    BasisWeightRecurrence(t, n, n);
    BasisWeightsOutside(t, n - 1);
    BasisBlendPrefix(t, pts, n);
    assert back[n - 1] == p;
    var a, b := WeightedSum(front, u, n), WeightedSum(back, u, n - 1);
    var c := WeightedSum(pts, w, n);
    assert c == a.Scale(1.0 - t).Add(b.Scale(t));
    assert WeightedSum(pts, w, n + 1) == c.Add(p.Scale(Mix(t, x, y)));
    assert a == a.Add(p.Scale(x));
    assert WeightedSum(back, u, n) == b.Add(p.Scale(y));
    BlendStep(a, b, p, t, x, y);
  }

  /** The reference Bernstein sum and de Casteljau's recursion agree for every t. */
  lemma {:induction false} BasisSumIsDeCasteljau(t: real, pts: seq<Vec3>)
    requires |pts| >= 1
    ensures WeightedSum(pts, BasisWeights(t, |pts| - 1), |pts|) == DeCasteljau(t, pts)
    decreases |pts|
  {
    if |pts| == 1 {
      assert Basis(t, 0, 0) == 1.0;
    } else {
      var n := |pts| - 1;
      var front, back := pts[..n], pts[1..];
      BasisSumBlend(t, pts);
      BasisSumIsDeCasteljau(t, front);
      BasisSumIsDeCasteljau(t, back);
      DeCasteljauSplit(t, pts);
      var a, b := DeCasteljau(t, front), DeCasteljau(t, back);
      assert WeightedSum(pts, BasisWeights(t, n), n + 1) == a.Scale(1.0 - t).Add(b.Scale(t));
      assert DeCasteljau(t, pts) == LinearVector(t, a, b);
    }
  }

  /** `MoveTo` and `MoveToRecursion` give the same point for every t. */
  lemma BernsteinIsDeCasteljau(t: real, pts: seq<Vec3>)
    requires |pts| >= 1
    ensures BernsteinSum(t, pts, |pts| - 1, |pts|) == DeCasteljau(t, pts)
  {
    BernsteinSumIsBasisSum(t, pts, |pts| - 1, |pts|);
    BasisSumIsDeCasteljau(t, pts);
  }

  /* ---------- Levels of the de Casteljau triangle (`Split`) ---------- */

  /** The j-th row of the de Casteljau triangle. */
  function Level(t: real, pts: seq<Vec3>, j: nat): (r: seq<Vec3>)
    requires j < |pts|
    ensures |r| == |pts| - j
  {
    if j == 0 then pts else Lerp(t, Level(t, pts, j - 1))
  }

  /** Entry i of row j is the de Casteljau value of the j + 1 points from i. */
  lemma {:induction false} LevelIsDeCasteljau(t: real, pts: seq<Vec3>, j: nat, i: nat)
    requires j < |pts| && i < |pts| - j
    ensures Level(t, pts, j)[i] == DeCasteljau(t, pts[i..i + j + 1])
  {
    if j == 0 {
      assert pts[i..i + 1] == [pts[i]];
    } else {
      LevelIsDeCasteljau(t, pts, j - 1, i);
      LevelIsDeCasteljau(t, pts, j - 1, i + 1);
      LevelEntryStep(t, pts, j, i);
    }
  }

  /** Entry i of row j blends entries i and i + 1 of row j - 1, as de Casteljau blends its two shorter curves. */
  lemma LevelEntryStep(t: real, pts: seq<Vec3>, j: nat, i: nat)
    requires 1 <= j < |pts| && i < |pts| - j
    requires Level(t, pts, j - 1)[i] == DeCasteljau(t, pts[i..i + j])
    requires Level(t, pts, j - 1)[i + 1] == DeCasteljau(t, pts[i + 1..i + 1 + j])
    ensures Level(t, pts, j)[i] == DeCasteljau(t, pts[i..i + j + 1])
  {
    var q := pts[i..i + j + 1];
    DeCasteljauSplit(t, q);
    assert q[..j] == pts[i..i + j];
    assert q[1..] == pts[i + 1..i + 1 + j];
  }

  /** The left half of `Split`: the first point of every row of the triangle. */
  function SplitLeft(t: real, pts: seq<Vec3>): seq<Vec3> {
    seq(|pts|, k requires 0 <= k < |pts| => DeCasteljau(t, pts[..k + 1]))
  }

  /** The right half of `Split`: the last point of every row, from the curve end inwards. */
  function SplitRight(t: real, pts: seq<Vec3>): seq<Vec3> {
    seq(|pts|, k requires 0 <= k < |pts| => DeCasteljau(t, pts[|pts| - 1 - k..]))
  }

  /** Row j of the triangle starts with left[j] and ends with right[j]. */
  lemma SplitRow(t: real, pts: seq<Vec3>, j: nat)
    requires j < |pts|
    ensures Level(t, pts, j)[0] == SplitLeft(t, pts)[j]
    ensures Level(t, pts, j)[|pts| - 1 - j] == SplitRight(t, pts)[j]
  {
    SplitRowFirst(t, pts, j);
    SplitRowLast(t, pts, j);
  }

  lemma SplitRowFirst(t: real, pts: seq<Vec3>, j: nat)
    requires j < |pts|
    ensures Level(t, pts, j)[0] == SplitLeft(t, pts)[j]
  {
    LevelIsDeCasteljau(t, pts, j, 0);
    assert pts[0..0 + j + 1] == pts[..j + 1];
  }

  lemma SplitRowLast(t: real, pts: seq<Vec3>, j: nat)
    requires j < |pts|
    ensures Level(t, pts, j)[|pts| - 1 - j] == SplitRight(t, pts)[j]
  {
    var i := |pts| - 1 - j;
    LevelIsDeCasteljau(t, pts, j, i);
    assert pts[i..i + j + 1] == pts[i..];
  }

  /** The next row of the triangle is the blend of the current one. */
  lemma LevelNext(t: real, pts: seq<Vec3>, j: nat)
    requires j + 1 < |pts|
    ensures Level(t, pts, j + 1) == Lerp(t, Level(t, pts, j))
  {}

  /** The first points of rows 0 .. j - 1 of the triangle. */
  function Firsts(t: real, pts: seq<Vec3>, j: nat): (r: seq<Vec3>)
    requires j <= |pts|
    ensures |r| == j
  {
    if j == 0 then [] else Firsts(t, pts, j - 1) + [Level(t, pts, j - 1)[0]]
  }

  /** The last points of rows 0 .. j - 1 of the triangle. */
  function Lasts(t: real, pts: seq<Vec3>, j: nat): (r: seq<Vec3>)
    requires j <= |pts|
    ensures |r| == j
  {
    if j == 0 then [] else Lasts(t, pts, j - 1) + [Level(t, pts, j - 1)[|pts| - j]]
  }

  lemma {:induction false} FirstsAndLasts(t: real, pts: seq<Vec3>, j: nat, k: nat)
    requires k < j <= |pts|
    ensures Firsts(t, pts, j)[k] == SplitLeft(t, pts)[k]
    ensures Lasts(t, pts, j)[k] == SplitRight(t, pts)[k]
  {
    if k < j - 1 {
      FirstsAndLasts(t, pts, j - 1, k);
    } else {
      SplitRow(t, pts, k);
    }
  }

  /**
   * The private `Split(t, points, left, right)`: walk down the de Casteljau
   * triangle, appending the first point of each row to left and the last
   * to right, until a single point is left, which goes to both.
   */
  method SplitRows(t: real, points: seq<Vec3>) returns (left: seq<Vec3>, right: seq<Vec3>)
    requires |points| > 0
    ensures left == SplitLeft(t, points) && right == SplitRight(t, points)
  {
    var n := |points| - 1;
    var row := points;
    left, right := [], [];
    var j := 0;
    while |row| > 1
      invariant 0 <= j <= n && row == Level(t, points, j)
      invariant left == Firsts(t, points, j) && right == Lasts(t, points, j)
      decreases |row|
    {
      left := left + [row[0]];
      right := right + [row[|row| - 1]];
      LevelNext(t, points, j);
      row := Lerp(t, row);
      j := j + 1;
    }
    left := left + [row[0]];
    right := right + [row[0]];
    forall k | 0 <= k < |points|
      ensures left[k] == SplitLeft(t, points)[k] && right[k] == SplitRight(t, points)[k]
    {
      FirstsAndLasts(t, points, |points|, k);
    }
  }

  /** Both halves hold one point per control point, start at the curve's ends and meet at the split point. */
  lemma SplitHalves(t: real, pts: seq<Vec3>)
    requires |pts| >= 1
    ensures var n := |pts| - 1;
      |SplitLeft(t, pts)| == |pts| && |SplitRight(t, pts)| == |pts| &&
      SplitLeft(t, pts)[0] == pts[0] && SplitRight(t, pts)[0] == pts[n] &&
      SplitLeft(t, pts)[n] == DeCasteljau(t, pts) && SplitRight(t, pts)[n] == DeCasteljau(t, pts)
  {
    var n := |pts| - 1;
    assert pts[..1] == [pts[0]];
    assert pts[n..] == [pts[n]];
    assert pts[..n + 1] == pts;
    assert pts[0..] == pts;
  }

  /* ---------- Subdivision: each half traces its part of the curve ---------- */

  /** A blend of two points, coordinate by coordinate. */
  lemma LinearVectorMix(t: real, p0: Vec3, p1: Vec3)
    ensures LinearVector(t, p0, p1) == Vec3(Mix(t, p0.x, p1.x), Mix(t, p0.y, p1.y), Mix(t, p0.z, p1.z))
  {}

  /** Blending two blends with a common weight: the order of the two blends does not matter. */
  lemma LinearVectorBilinear(s: real, t: real, a0: Vec3, b0: Vec3, a1: Vec3, b1: Vec3)
    ensures LinearVector(s, LinearVector(t, a0, b0), LinearVector(t, a1, b1))
         == LinearVector(t, LinearVector(s, a0, a1), LinearVector(s, b0, b1))
  {
    var u, v := LinearVector(t, a0, b0), LinearVector(t, a1, b1);
    var p, q := LinearVector(s, a0, a1), LinearVector(s, b0, b1);
    LinearVectorMix(t, a0, b0);
    LinearVectorMix(t, a1, b1);
    LinearVectorMix(s, a0, a1);
    LinearVectorMix(s, b0, b1);
    LinearVectorMix(s, u, v);
    LinearVectorMix(t, p, q);
    MixBilinear(s, t, a0.x, b0.x, a1.x, b1.x);
    MixBilinear(s, t, a0.y, b0.y, a1.y, b1.y);
    MixBilinear(s, t, a0.z, b0.z, a1.z, b1.z);
  }

  lemma MixBilinear(s: real, t: real, a0: real, b0: real, a1: real, b1: real)
    ensures Mix(s, Mix(t, a0, b0), Mix(t, a1, b1)) == Mix(t, Mix(s, a0, a1), Mix(s, b0, b1))
  {}

  /** Blending a with a point between a and b: the point at s t between a and b. */
  lemma LinearVectorNested(s: real, t: real, a: Vec3, b: Vec3)
    ensures LinearVector(s, a, LinearVector(t, a, b)) == LinearVector(s * t, a, b)
  {
    var u := LinearVector(t, a, b);
    LinearVectorMix(t, a, b);
    LinearVectorMix(s, a, u);
    LinearVectorMix(s * t, a, b);
    MixNested(s, t, a.x, b.x);
    MixNested(s, t, a.y, b.y);
    MixNested(s, t, a.z, b.z);
  }

  lemma MixNested(s: real, t: real, a: real, b: real)
    ensures Mix(s, a, Mix(t, a, b)) == Mix(s * t, a, b)
  {}

  /** Two point lists blended entry by entry. */
  function Blend(t: real, a: seq<Vec3>, b: seq<Vec3>): (r: seq<Vec3>)
    requires |a| == |b|
    ensures |r| == |a|
  {
    seq(|a|, i requires 0 <= i < |a| => LinearVector(t, a[i], b[i]))
  }

  lemma LerpBlend(s: real, t: real, a: seq<Vec3>, b: seq<Vec3>)
    requires |a| == |b| >= 1
    ensures Lerp(s, Blend(t, a, b)) == Blend(t, Lerp(s, a), Lerp(s, b))
  {
    var c := Blend(t, a, b);
    forall i | 0 <= i < |a| - 1
      ensures Lerp(s, c)[i] == Blend(t, Lerp(s, a), Lerp(s, b))[i]
    {
      LinearVectorBilinear(s, t, a[i], b[i], a[i + 1], b[i + 1]);
    }
  }

  /** De Casteljau's recursion commutes with an entry-by-entry blend of the control points. */
  lemma {:induction false} DeCasteljauBlend(s: real, t: real, a: seq<Vec3>, b: seq<Vec3>)
    requires |a| == |b| >= 1
    ensures DeCasteljau(s, Blend(t, a, b)) == LinearVector(t, DeCasteljau(s, a), DeCasteljau(s, b))
    decreases |a|
  {
    if |a| > 1 {
      LerpBlend(s, t, a, b);
      DeCasteljauBlend(s, t, Lerp(s, a), Lerp(s, b));
    }
  }

  /** Without its last entry, the left half is the left half of the curve without its last point. */
  lemma SplitLeftPrefix(t: real, pts: seq<Vec3>)
    requires |pts| >= 2
    ensures SplitLeft(t, pts)[..|pts| - 1] == SplitLeft(t, pts[..|pts| - 1])
  {
    var n := |pts| - 1;
    forall k | 0 <= k < n
      ensures SplitLeft(t, pts)[k] == SplitLeft(t, pts[..n])[k]
    {
      assert pts[..n][..k + 1] == pts[..k + 1];
    }
  }

  /** Without its first entry, the left half blends the left halves of the two shorter curves. */
  lemma SplitLeftSuffix(t: real, pts: seq<Vec3>)
    requires |pts| >= 2
    ensures var n := |pts| - 1;
      SplitLeft(t, pts)[1..] == Blend(t, SplitLeft(t, pts[..n]), SplitLeft(t, pts[1..]))
  {
    var n := |pts| - 1;
    forall k | 0 <= k < n
      ensures SplitLeft(t, pts)[k + 1] == Blend(t, SplitLeft(t, pts[..n]), SplitLeft(t, pts[1..]))[k]
    {
      var q := pts[..k + 2];
      DeCasteljauSplit(t, q);
      assert q[..k + 1] == pts[..n][..k + 1];
      assert q[1..] == pts[1..][..k + 1];
    }
  }

  /** The left half, run over [0, 1], traces the curve over [0, t]. */
  lemma {:induction false} SplitLeftCurve(s: real, t: real, pts: seq<Vec3>)
    requires |pts| >= 1
    ensures DeCasteljau(s, SplitLeft(t, pts)) == DeCasteljau(s * t, pts)
    decreases |pts|
  {
    if |pts| == 1 {
      assert pts[..1] == pts;
    } else {
      var n := |pts| - 1;
      var l := SplitLeft(t, pts);
      DeCasteljauSplit(s, l);
      SplitLeftPrefix(t, pts);
      SplitLeftSuffix(t, pts);
      SplitLeftCurve(s, t, pts[..n]);
      SplitLeftCurve(s, t, pts[1..]);
      DeCasteljauBlend(s, t, SplitLeft(t, pts[..n]), SplitLeft(t, pts[1..]));
      var a, b := DeCasteljau(s * t, pts[..n]), DeCasteljau(s * t, pts[1..]);
      LinearVectorNested(s, t, a, b);
      DeCasteljauSplit(s * t, pts);
    }
  }

  /** A point list in the opposite order. */
  function Reversed(pts: seq<Vec3>): (r: seq<Vec3>)
    ensures |r| == |pts|
  {
    seq(|pts|, i requires 0 <= i < |pts| => pts[|pts| - 1 - i])
  }

  lemma LerpReversed(t: real, pts: seq<Vec3>)
    requires |pts| >= 1
    ensures Lerp(t, Reversed(pts)) == Reversed(Lerp(1.0 - t, pts))
  {
    var n := |pts| - 1;
    forall i | 0 <= i < n
      ensures Lerp(t, Reversed(pts))[i] == Reversed(Lerp(1.0 - t, pts))[i]
    {
      var a, b := pts[n - 1 - i], pts[n - i];
      assert LinearVector(t, b, a) == LinearVector(1.0 - t, a, b);
    }
  }

  /** The curve of the reversed control points runs backwards. */
  lemma {:induction false} DeCasteljauReversed(t: real, pts: seq<Vec3>)
    requires |pts| >= 1
    ensures DeCasteljau(t, Reversed(pts)) == DeCasteljau(1.0 - t, pts)
    decreases |pts|
  {
    if |pts| > 1 {
      LerpReversed(t, pts);
      DeCasteljauReversed(t, Lerp(1.0 - t, pts));
    }
  }

  /** The right half is the left half of the reversed curve split at 1 - t. */
  lemma SplitRightIsMirrored(t: real, pts: seq<Vec3>)
    ensures SplitRight(t, pts) == SplitLeft(1.0 - t, Reversed(pts))
  {
    var n := |pts| - 1;
    forall k | 0 <= k < |pts|
      ensures SplitRight(t, pts)[k] == SplitLeft(1.0 - t, Reversed(pts))[k]
    {
      var q := pts[n - k..];
      assert Reversed(pts)[..k + 1] == Reversed(q);
      DeCasteljauReversed(1.0 - t, q);
      assert 1.0 - (1.0 - t) == t;
    }
  }

  /** The right half, run over [0, 1], traces the curve backwards from 1 to t. */
  lemma SplitRightCurve(s: real, t: real, pts: seq<Vec3>)
    requires |pts| >= 1
    ensures DeCasteljau(s, SplitRight(t, pts)) == DeCasteljau(1.0 - s * (1.0 - t), pts)
  {
    var u := 1.0 - t;
    var rev := Reversed(pts);
    SplitRightIsMirrored(t, pts);
    SplitLeftCurve(s, u, rev);
    assert DeCasteljau(s, SplitRight(t, pts)) == DeCasteljau(s * u, rev);
    DeCasteljauReversed(s * u, pts);
    var w := 1.0 - s * u;
    assert DeCasteljau(s, SplitRight(t, pts)) == DeCasteljau(w, pts);
    assert w == 1.0 - s * (1.0 - t);
  }

  /* ---------- Derivative control points ---------- */

  /** `GetDerivativePoints`: the n control points n (P[i+1] - P[i]) of the first derivative. */
  function Hodograph(pts: seq<Vec3>, n: nat): seq<Vec3>
    requires n < |pts|
  {
    seq(n, i requires 0 <= i < n => pts[i + 1].Sub(pts[i]).Scale(n as real))
  }

  /** Pointwise c (a[i] - b[i]). */
  function ScaledDiff(a: seq<Vec3>, b: seq<Vec3>, c: real): (r: seq<Vec3>)
    requires |a| == |b|
    ensures |r| == |a|
  {
    seq(|a|, i requires 0 <= i < |a| => a[i].Sub(b[i]).Scale(c))
  }

  /** Blending differences scaled by c is scaling the difference of the blends by c. */
  lemma LinearVectorDiff(t: real, c: real, a0: Vec3, a1: Vec3, b0: Vec3, b1: Vec3)
    ensures LinearVector(t, a0.Sub(b0).Scale(c), a1.Sub(b1).Scale(c))
         == LinearVector(t, a0, a1).Sub(LinearVector(t, b0, b1)).Scale(c)
  {
    var u, v := a0.Sub(b0), a1.Sub(b1);
    ScaleCommutes(u, c, 1.0 - t);
    ScaleCommutes(v, c, t);
    ScaleDistributes(u.Scale(1.0 - t), v.Scale(t), c);
    CombineDifferences(1.0 - t, t, a0, a1, b0, b1);
  }

  lemma LerpScaledDiff(t: real, a: seq<Vec3>, b: seq<Vec3>, c: real)
    requires |a| == |b| >= 1
    ensures Lerp(t, ScaledDiff(a, b, c)) == ScaledDiff(Lerp(t, a), Lerp(t, b), c)
  {
    var d := ScaledDiff(a, b, c);
    forall i | 0 <= i < |a| - 1
      ensures Lerp(t, d)[i] == ScaledDiff(Lerp(t, a), Lerp(t, b), c)[i]
    {
      assert d[i] == a[i].Sub(b[i]).Scale(c);
      assert d[i + 1] == a[i + 1].Sub(b[i + 1]).Scale(c);
      LinearVectorDiff(t, c, a[i], a[i + 1], b[i], b[i + 1]);
    }
  }

  /** De Casteljau's recursion is linear in the control points. */
  lemma {:induction false} DeCasteljauScaledDiff(t: real, a: seq<Vec3>, b: seq<Vec3>, c: real)
    requires |a| == |b| >= 1
    ensures DeCasteljau(t, ScaledDiff(a, b, c)) == DeCasteljau(t, a).Sub(DeCasteljau(t, b)).Scale(c)
    decreases |a|
  {
    if |a| > 1 {
      LerpScaledDiff(t, a, b, c);
      DeCasteljauScaledDiff(t, Lerp(t, a), Lerp(t, b), c);
    }
  }

  /**
   * The derivative control points trace n times the difference of the
   * curves without the first and without the last control point: the
   * derivative of the degree-n curve.
   */
  lemma HodographIsDerivative(t: real, pts: seq<Vec3>)
    requires |pts| >= 2
    ensures var n := |pts| - 1;
      DeCasteljau(t, Hodograph(pts, n))
      == DeCasteljau(t, pts[1..]).Sub(DeCasteljau(t, pts[..n])).Scale(n as real)
  {
    var n := |pts| - 1;
    assert Hodograph(pts, n) == ScaledDiff(pts[1..], pts[..n], n as real);
    DeCasteljauScaledDiff(t, pts[1..], pts[..n], n as real);
  }

  /** At t = 0 `MoveByDerivation` gives the first derivative point, whatever the Bernstein degree d. */
  lemma {:induction false} DerivationAtZero(h: seq<Vec3>, d: int, k: nat)
    requires 1 <= k <= |h| && d >= 1
    ensures BernsteinSum(0.0, h, d, k) == h[0]
  {
    var b := Bernstein(0.0, d, k - 1);
    if k - 1 <= d {
      BernsteinAtZero(d, k - 1);
    } else {
      assert Pow(0.0, k - 1) == 0.0;
    }
    if k > 1 {
      DerivationAtZero(h, d, k - 1);
      assert h[k - 1].Scale(b) == Zero3;
    }
  }

  /** Below index d the degree-d polynomials vanish at t = 1. */
  lemma {:induction false} DerivationAtOneBelow(h: seq<Vec3>, d: int, k: nat)
    requires k <= |h| && k <= d
    ensures BernsteinSum(1.0, h, d, k) == Zero3
  {
    if k > 0 {
      DerivationAtOneBelow(h, d, k - 1);
      BernsteinAtOne(d, k - 1);
      var b := Bernstein(1.0, d, k - 1);
      assert h[k - 1].Scale(b) == Zero3;
    }
  }

  /** At t = 1 `MoveByDerivation` with Bernstein degree d gives derivative point d. */
  lemma DerivationAtOne(h: seq<Vec3>, d: int)
    requires 1 <= d < |h|
    ensures BernsteinSum(1.0, h, d, |h|) == h[d]
  {
    DerivationAtOneBelow(h, d, d);
    BernsteinAtOne(d, d);
    assert BernsteinSum(1.0, h, d, d + 1) == h[d];
    forall i | d + 1 <= i < |h|
      ensures Bernstein(1.0, d, i) == 0.0
    {
      BernsteinAboveRow(1.0, d, i);
    }
    BernsteinSumVanishingTail(1.0, h, d, d + 1, |h|);
  }

  /* ---------- Fixed-step parameter sampling (`GetFlatenedIntervals`) ---------- */

  /**
   * The fixed-step samples as the loop produces them: k res for every k
   * with k res <= 1, then 1 once more, since the loop always leaves with
   * t > 1.
   */
  function FixedStepIntervals(res: real): (r: seq<real>)
    requires 0.0 < res
  {
    seq(StepCount(res), k => Step(k, res)) + [1.0]
  }

  /** Every step k res before the loop stops lies in [0, 1]. */
  lemma StepsInRange(res: real, k: nat)
    requires 0.0 < res && k < StepCount(res)
    ensures 0.0 <= Step(k, res) <= 1.0
  {
    StepOrder(0, k, res);
    StepOrder(k, StepCount(res) - 1, res);
  }

  /** The samples start at 0, end at 1, lie in [0, 1] and never decrease. */
  lemma FixedStepIntervalsShape(res: real)
    requires 0.0 < res <= 1.0
    ensures var r := FixedStepIntervals(res);
      |r| >= 2 && r[0] == 0.0 && r[|r| - 1] == 1.0 &&
      (forall i :: 0 <= i < |r| ==> 0.0 <= r[i] <= 1.0) &&
      (forall i, j :: 0 <= i <= j < |r| ==> r[i] <= r[j])
  {
    var r := FixedStepIntervals(res);
    var n := StepCount(res);
    forall i | 0 <= i < |r|
      ensures 0.0 <= r[i] <= 1.0
    {
      if i < n {
        StepsInRange(res, i);
      }
    }
    forall i, j | 0 <= i <= j < |r|
      ensures r[i] <= r[j]
    {
      if j < n {
        StepOrder(i, j, res);
      } else if i < n {
        StepsInRange(res, i);
      }
    }
  }

  /** With Resolution 1 (the default: one segment) the sample 1 is listed twice. */
  lemma FixedStepDuplicatesOne()
    ensures FixedStepIntervals(1.0) == [0.0, 1.0, 1.0]
  {
    assert StepCount(1.0) == 2;
  }

  /** Whenever 1 / Resolution is a whole number m, the last two samples are both 1. */
  lemma FixedStepDuplicatesWhenExact(res: real, m: nat)
    requires 0.0 < res && m >= 1 && Step(m, res) == 1.0
    ensures var r := FixedStepIntervals(res);
      |r| >= 2 && r[|r| - 2] == 1.0 && r[|r| - 1] == 1.0
  {
    var n := StepCount(res);
    if n - 1 < m {
      StepOrder(n, m, res);
    } else if n - 1 > m {
      StepOrder(m, n - 1, res);
    }
  }

  /** The sampling the loop evidently intends: 1 is appended only when the last step missed it. */
  function Intervals(res: real): (r: seq<real>)
    requires 0.0 < res
  {
    var n := StepCount(res);
    var steps := seq(n, k => Step(k, res));
    if steps[n - 1] == 1.0 then steps else steps + [1.0]
  }

  /** The intended samples strictly increase from 0 to 1, so 1 appears once. */
  lemma IntervalsShape(res: real)
    requires 0.0 < res <= 1.0
    ensures var r := Intervals(res);
      |r| >= 2 && r[0] == 0.0 && r[|r| - 1] == 1.0 &&
      (forall i :: 0 <= i < |r| ==> 0.0 <= r[i] <= 1.0) &&
      (forall i, j :: 0 <= i < j < |r| ==> r[i] < r[j])
  {
    var r := Intervals(res);
    var n := StepCount(res);
    assert n >= 2 by {
      assert Step(1, res) == res;
    }
    forall i | 0 <= i < |r|
      ensures 0.0 <= r[i] <= 1.0
    {
      if i < n {
        StepsInRange(res, i);
      }
    }
    forall i, j | 0 <= i < j < |r|
      ensures r[i] < r[j]
    {
      if j < n {
        StepOrder(i, j, res);
      } else {
        StepsInRange(res, i);
        StepOrder(i, n - 1, res);
      }
    }
  }

  /* ---------- The control-point buffer and its one-shot snapshot ---------- */

  /** A curve's two lists: its points and the copy taken by the first `Replace`. */
  datatype CurveState = CurveState(points: seq<Vec3>, original: Option<seq<Vec3>>)

  /** The points as they were before the first `Replace` since the last `Reset`. */
  function Base(s: CurveState): seq<Vec3> {
    if s.original.Some? then s.original.value else s.points
  }

  /** `Replace(point, index)`: take the snapshot if there is none, then overwrite one point. */
  function ReplaceState(s: CurveState, point: Vec3, index: int): (r: CurveState)
    ensures r.original == Some(Base(s)) && Base(r) == Base(s)
    ensures |r.points| == |s.points|
    ensures forall i :: 0 <= i < |s.points| && i != index ==> r.points[i] == s.points[i]
    ensures 0 <= index < |s.points| ==> r.points[index] == point
  {
    var snapshot := if s.original.None? then Some(s.points) else s.original;
    CurveState(if 0 <= index < |s.points| then s.points[index := point] else s.points, snapshot)
  }

  /** `Reset`: put the snapshot back and drop it; nothing happens without one. */
  function ResetState(s: CurveState): CurveState {
    if s.original.Some? then CurveState(s.original.value, None) else s
  }

  /** One call of `Replace`. */
  datatype Edit = Edit(point: Vec3, index: int)

  /** A sequence of `Replace` calls, applied in order. */
  function ReplaceAll(s: CurveState, edits: seq<Edit>): CurveState
    decreases |edits|
  {
    if edits == [] then s
    else ReplaceAll(ReplaceState(s, edits[0].point, edits[0].index), edits[1..])
  }

  /** Any number of `Replace` calls keep the snapshot of the first one, and the length. */
  lemma {:induction false} ReplaceAllKeepsBase(s: CurveState, edits: seq<Edit>)
    ensures Base(ReplaceAll(s, edits)) == Base(s)
    ensures |ReplaceAll(s, edits).points| == |s.points|
    ensures edits != [] ==> ReplaceAll(s, edits).original == Some(Base(s))
    decreases |edits|
  {
    if edits != [] {
      var next := ReplaceState(s, edits[0].point, edits[0].index);
      ReplaceAllKeepsBase(next, edits[1..]);
    }
  }

  /** `Reset` after any sequence of `Replace` calls restores the points from before the first one. */
  lemma ResetUndoesReplaces(s: CurveState, edits: seq<Edit>)
    ensures ResetState(ReplaceAll(s, edits)) == CurveState(Base(s), None)
    ensures s.original.None? ==> ResetState(ReplaceAll(s, edits)) == CurveState(s.points, None)
  {
    ReplaceAllKeepsBase(s, edits);
  }

  /** The two halves returned by `Split`. */
  datatype Halves = Halves(left: seq<Vec3>, right: seq<Vec3>)

  /** The x, y and z coordinate lists returned by `GetLinearComponents`. */
  datatype Components = Components(xs: seq<real>, ys: seq<real>, zs: seq<real>)

  class BezierCurve {
    const options: BezierCurveOptions
    var points: seq<Vec3>
    var original: Option<seq<Vec3>>

    function State(): CurveState
      reads this
    {
      CurveState(points, original)
    }

    /** At most Order points are held, and at most Order were snapshotted. */
    ghost predicate Valid()
      reads this
    {
      Shape(options.curveType, options.order, options.degree) &&
      |points| <= options.order &&
      (original.Some? ==> |original.value| <= options.order)
    }

    /** An empty buffer of capacity Order, with no snapshot. */
    constructor(options: BezierCurveOptions)
      requires Shape(options.curveType, options.order, options.degree)
      ensures Valid() && this.options == options
      ensures points == [] && original == None
    {
      this.options := options;
      points := [];
      original := None;
    }

    /** Appends while fewer than Order points are held; a full buffer is left as it is. */
    method Add(point: Vec3) returns (r: Outcome)
      requires Valid()
      modifies this
      ensures Valid() && original == old(original)
      ensures old(|points|) < options.order ==> r == Pass && points == old(points) + [point]
      ensures old(|points|) >= options.order ==> r == Fail(IndexOutOfRange) && points == old(points)
    {
      if |points| < options.order {
        points := points + [point];
        r := Pass;
      } else {
        r := Fail(IndexOutOfRange);
      }
    }

    method Replace(point: Vec3, index: int) returns (r: Outcome)
      requires Valid()
      modifies this
      ensures Valid()
      ensures State() == ReplaceState(old(State()), point, index)
      ensures r == if 0 <= index < old(|points|) then Pass else Fail(IndexOutOfRange)
    {
      if original.None? {
        original := Some(points);
      }
      if 0 <= index < |points| {
        points := points[index := point];
        r := Pass;
      } else {
        r := Fail(IndexOutOfRange);
      }
    }

    method Reset()
      requires Valid()
      modifies this
      ensures Valid()
      ensures State() == ResetState(old(State()))
    {
      if original.Some? {
        points := original.value;
        original := None;
      }
    }

    /** A copy of the control points. */
    method GetPoints() returns (r: seq<Vec3>)
      ensures r == points
    {
      r := points;
    }

    /**
     * `GetDerivativePoints(d)`: d must lie in [1, Degree - 1]; the result is
     * the first-derivative control points whatever d is, and needs all
     * Order points.
     */
    method GetDerivativePoints(d: int) returns (r: Result<seq<Vec3>>)
      requires Valid()
      ensures !(1 <= d < options.degree) ==> r == Failure(InvalidDerivative)
      ensures 1 <= d < options.degree && |points| < options.order ==> r == Failure(IndexOutOfRange)
      ensures 1 <= d < options.degree && |points| == options.order ==> r == Success(Hodograph(points, options.degree))
    {
      if !(1 <= d < options.degree) {
        return Failure(InvalidDerivative);
      }
      var n := options.degree;
      if |points| < n + 1 {
        return Failure(IndexOutOfRange);
      }
      var result: seq<Vec3> := [];
      var i := 0;
      while i < n
        invariant 0 <= i <= n
        invariant result == Hodograph(points, n)[..i]
      {
        result := result + [points[i + 1].Sub(points[i]).Scale(n as real)];
        i := i + 1;
      }
      assert result == Hodograph(points, n);
      return Success(result);
    }

    /** `MoveTo`: the Bernstein sum over all Order points, which is de Casteljau's value. */
    method MoveTo(t: real) returns (r: Vec3)
      requires Valid() && |points| == options.order
      ensures r == BernsteinSum(t, points, options.degree, options.order)
      ensures r == DeCasteljau(t, points)
    {
      r := Zero3;
      var i := 0;
      while i < options.order
        invariant 0 <= i <= options.order
        invariant r == BernsteinSum(t, points, options.degree, i)
      {
        r := r.Add(points[i].Scale(Bernstein(t, options.degree, i)));
        i := i + 1;
      }
      BernsteinIsDeCasteljau(t, points);
    }

    /** `MoveByDerivation`: the derivative points summed with the degree-d Bernstein polynomials. */
    method MoveByDerivation(t: real, d: int) returns (r: Vec3)
      requires Valid() && |points| == options.order && 1 <= d < options.degree
      ensures r == BernsteinSum(t, Hodograph(points, options.degree), d, options.degree)
    {
      var dpoints := GetDerivativePoints(d);
      var h := dpoints.value;
      r := Zero3;
      var i := 0;
      while i < |h|
        invariant 0 <= i <= |h|
        invariant r == BernsteinSum(t, h, d, i)
      {
        r := r.Add(h[i].Scale(Bernstein(t, d, i)));
        i := i + 1;
      }
    }

    /**
     * `Compute(t, derivation)`: needs exactly Order points; a derivation in
     * [1, Degree - 1] evaluates the derivative points, anything else the
     * curve itself (by either algorithm, which agree).
     */
    method Compute(t: real, derivation: int) returns (r: Result<Vec3>)
      requires Valid()
      ensures r.Failure? <==> |points| != options.order
      ensures r.Failure? ==> r.error == NotEnoughPoints
      ensures r.Success? && 1 <= derivation <= options.degree - 1 ==>
        r.value == BernsteinSum(t, Hodograph(points, options.degree), derivation, options.degree)
      ensures r.Success? && !(1 <= derivation <= options.degree - 1) ==> r.value == DeCasteljau(t, points)
      ensures r.Success? && !(1 <= derivation <= options.degree - 1) && t == 0.0 ==> r.value == points[0]
      ensures r.Success? && !(1 <= derivation <= options.degree - 1) && t == 1.0 ==> r.value == points[|points| - 1]
      ensures r.Success? && 1 <= derivation <= options.degree - 1 && t == 0.0 ==>
        r.value == points[1].Sub(points[0]).Scale(options.degree as real)
    {
      if |points| != options.order {
        return Failure(NotEnoughPoints);
      }
      var v: Vec3;
      if 1 <= derivation <= options.degree - 1 {
        v := MoveByDerivation(t, derivation);
        DerivationAtZero(Hodograph(points, options.degree), derivation, options.degree);
      } else if !options.optimized {
        v := MoveTo(t);
      } else {
        v := DeCasteljau(t, points);
      }
      DeCasteljauEndpoints(points);
      return Success(v);
    }

    /**
     * `Split(t)`: the first and the last point of every row of the de
     * Casteljau triangle; an empty buffer makes an array of length -1.
     */
    method Split(t: real) returns (r: Result<Halves>)
      ensures |points| == 0 ==> r == Failure(NegativeSize)
      ensures |points| > 0 ==> r == Success(Halves(SplitLeft(t, points), SplitRight(t, points)))
      ensures |points| > 0 ==> forall s: real ::
        DeCasteljau(s, r.value.left) == DeCasteljau(s * t, points) &&
        DeCasteljau(s, r.value.right) == DeCasteljau(1.0 - s * (1.0 - t), points)
    {
      if |points| == 0 {
        return Failure(NegativeSize);
      }
      var left, right := SplitRows(t, points);
      forall s: real
        ensures DeCasteljau(s, left) == DeCasteljau(s * t, points)
        ensures DeCasteljau(s, right) == DeCasteljau(1.0 - s * (1.0 - t), points)
      {
        SplitLeftCurve(s, t, points);
        SplitRightCurve(s, t, points);
      }
      return Success(Halves(left, right));
    }

    /**
     * Fixed-step `GetFlatenedIntervals`: t = 0, res, 2 res, ... while t <= 1,
     * then 1, because the loop always leaves with t > 1.
     */
    method GetFlatenedIntervals() returns (r: seq<real>)
      requires options.Valid() && !options.uniformized
      ensures r == FixedStepIntervals(options.resolution)
    {
      var res := options.resolution;
      var n := StepCount(res);
      r := [];
      var t := 0.0;
      var k := 0;
      while t <= 1.0
        invariant 0 <= k <= n && t == Step(k, res)
        invariant r == seq(k, i => Step(i, res))
        decreases n - k
      {
        if k == n {
          assert false;
        }
        r := r + [t];
        StepNext(k, res);
        t := t + res;
        k := k + 1;
      }
      if k < n {
        StepOrder(k, n - 1, res);
      }
      if t != 1.0 {
        r := r + [1.0];
      }
    }

    /**
     * `GetLinearComponents(derivative)`: the coordinate lists of the points,
     * or of the derivative points when derivative != -1.
     */
    method GetLinearComponents(derivative: int) returns (r: Result<Components>)
      requires Valid()
      ensures derivative == -1 ==> r.Success? && Unzipped(r.value, points)
      ensures derivative != -1 && !(1 <= derivative < options.degree) ==> r == Failure(InvalidDerivative)
      ensures derivative != -1 && 1 <= derivative < options.degree && |points| < options.order ==>
        r == Failure(IndexOutOfRange)
      ensures derivative != -1 && 1 <= derivative < options.degree && |points| == options.order ==>
        r.Success? && Unzipped(r.value, Hodograph(points, options.degree))
    {
      var pts := points;
      if derivative != -1 {
        var d := GetDerivativePoints(derivative);
        if d.Failure? {
          return Failure(d.error);
        }
        pts := d.value;
      }
      var xs, ys, zs := [], [], [];
      var i := 0;
      while i < |pts|
        invariant 0 <= i <= |pts|
        invariant Unzipped(Components(xs, ys, zs), pts[..i])
      {
        xs, ys, zs := xs + [pts[i].x], ys + [pts[i].y], zs + [pts[i].z];
        i := i + 1;
      }
      assert pts[..i] == pts;
      return Success(Components(xs, ys, zs));
    }
  }

  /** The three coordinate lists are those of pts, point by point. */
  predicate Unzipped(c: Components, pts: seq<Vec3>) {
    |c.xs| == |pts| && |c.ys| == |pts| && |c.zs| == |pts| &&
    forall i :: 0 <= i < |pts| ==> Vec3(c.xs[i], c.ys[i], c.zs[i]) == pts[i]
  }
}
