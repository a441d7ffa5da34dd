/**
 * A `PolyBezier` as values: the control points (and `Replace` snapshots) of
 * every curve pushed so far, plus the buffer curve being filled.  Each
 * operation of the class in poly_bezier.dfy is proved to follow one of the
 * functions here, and the lemmas here state what the operations promise:
 * how points are buffered, what the joins and the loop closure establish.
 */
module BezierChain {
  import opened Wrappers
  import opened Vectors
  import opened MathHelper
  import opened BezierOptions
  import opened Bezier

  /** The pushed curves and the buffer; the buffer is None once `Clear` has run. */
  datatype Chain = Chain(curves: seq<CurveState>, buffer: Option<seq<Vec3>>)

  /** A fresh `PolyBezier`: no curve, an empty buffer. */
  const Empty := Chain([], Some([]))

  function Last(pts: seq<Vec3>): Vec3
    requires |pts| > 0
  {
    pts[|pts| - 1]
  }

  /* ---------- Buffering ---------- */

  /**
   * `Add(point)`: the buffer takes the point while it holds fewer than
   * `order`; a full buffer is pushed as a curve only when one more point
   * arrives, and the new buffer is its last point followed by the new one.
   */
  function Push(c: Chain, p: Vec3, order: int): Chain
    requires c.buffer.Some? && order >= 1
  {
    var b := c.buffer.value;
    if |b| < order then Chain(c.curves, Some(b + [p]))
    else Chain(c.curves + [CurveState(b, None)], Some([Last(b), p]))
  }

  /** `AddRange(points)`: one `Add` per point, in order. */
  function PushAll(c: Chain, ps: seq<Vec3>, order: int): (r: Chain)
    requires c.buffer.Some? && order >= 1
    ensures r.buffer.Some?
    decreases |ps|
  {
    if ps == [] then c
    else Push(PushAll(c, ps[..|ps| - 1], order), ps[|ps| - 1], order)
  }

  /** A curve state holding n points, whose snapshot (if any) holds n points too. */
  predicate SizedState(s: CurveState, n: int) {
    |s.points| == n && (s.original.Some? ==> |s.original.value| == n)
  }

  predicate AllSized(curves: seq<CurveState>, n: int) {
    forall i :: 0 <= i < |curves| ==> SizedState(curves[i], n)
  }

  /**
   * Every pushed curve holds exactly `order` points, and once a curve has
   * been pushed the buffer holds between 2 and `order` points.
   */
  predicate Sized(c: Chain, order: int) {
    order >= 2 && AllSized(c.curves, order) &&
    (c.buffer.Some? ==> |c.buffer.value| <= order && (|c.curves| > 0 ==> |c.buffer.value| >= 2))
  }

  /** Consecutive curves share an endpoint, and so do the last curve and the buffer. */
  predicate Linked(c: Chain, order: int) {
    Sized(c, order) &&
    (forall i :: 1 <= i < |c.curves| ==> Last(c.curves[i - 1].points) == c.curves[i].points[0]) &&
    (c.buffer.Some? && |c.curves| > 0 ==> c.buffer.value[0] == Last(c.curves[|c.curves| - 1].points))
  }

  /** Point lists glued end to start: each list after the first drops its first point. */
  function Joined(segs: seq<seq<Vec3>>): seq<Vec3>
    decreases |segs|
  {
    if |segs| == 0 then []
    else if |segs| == 1 then segs[0]
    else Joined(segs[..|segs| - 1]) + Tail(segs[|segs| - 1])
  }

  function Tail(s: seq<Vec3>): seq<Vec3> {
    if s == [] then [] else s[1..]
  }

  function PointsOf(curves: seq<CurveState>): seq<seq<Vec3>> {
    seq(|curves|, i requires 0 <= i < |curves| => curves[i].points)
  }

  /** Every point added so far, once each: the curves glued together, then the buffer. */
  function Points(c: Chain): seq<Vec3>
    requires c.buffer.Some?
  {
    Joined(PointsOf(c.curves) + [c.buffer.value])
  }

  /** One `Add` keeps the shape invariants and appends exactly the new point. */
  lemma PushKeepsLinked(c: Chain, p: Vec3, order: int)
    requires Linked(c, order) && c.buffer.Some?
    ensures Linked(Push(c, p, order), order)
    ensures Points(Push(c, p, order)) == Points(c) + [p]
  {
    var b := c.buffer.value;
    var segs := PointsOf(c.curves);
    var r := Push(c, p, order);
    if |b| < order {
      assert PointsOf(r.curves) == segs;
      if |segs| == 0 {
        assert Points(r) == b + [p];
      } else {
        var all := segs + [b + [p]];
        assert all[..|all| - 1] == segs;
        assert Tail(b + [p]) == Tail(b) + [p];
        var before := segs + [b];
        assert before[..|before| - 1] == segs;
      }
    } else {
      assert PointsOf(r.curves) == segs + [b];
      var all := segs + [b] + [[Last(b), p]];
      assert all[..|all| - 1] == segs + [b];
      assert Tail([Last(b), p]) == [p];
    }
  }

  /** `AddRange` on a fresh `PolyBezier`: the points come back in order, glued. */
  lemma {:induction false} PushAllKeepsPoints(ps: seq<Vec3>, order: int)
    requires order >= 2
    ensures Linked(PushAll(Empty, ps, order), order)
    ensures Points(PushAll(Empty, ps, order)) == ps
    decreases |ps|
  {
    if ps != [] {
      var init := ps[..|ps| - 1];
      PushAllKeepsPoints(init, order);
      PushKeepsLinked(PushAll(Empty, init, order), ps[|ps| - 1], order);
      assert init + [ps[|ps| - 1]] == ps;
    } else {
      assert PointsOf([]) == [];
    }
  }

  /** Curves pushed after m points were added one by one to a fresh `PolyBezier`. */
  function CurvesAfter(m: nat, order: int): (r: nat)
    requires order >= 2
    ensures m <= order ==> r == 0
    ensures m > order ==> r >= 1
  {
    if m <= order then 0 else (m - order - 1) / (order - 1) + 1
  }

  /** Points the buffer holds after m points were added one by one. */
  function BufferAfter(m: nat, order: int): (r: nat)
    requires order >= 2
    ensures r <= order
  {
    if m <= order then m else 2 + (m - order - 1) % (order - 1)
  }

  /** Adding one to k either carries into the quotient or bumps the remainder. */
  lemma DivModNext(k: nat, d: int)
    requires d >= 1
    ensures (k + 1) / d == if k % d == d - 1 then k / d + 1 else k / d
    ensures (k + 1) % d == if k % d == d - 1 then 0 else k % d + 1
  {
    var q, r := k / d, k % d;
    if r == d - 1 {
      DivModUnique(k + 1, d, q + 1, 0);
    } else {
      DivModUnique(k + 1, d, q, r + 1);
    }
  }

  /** Quotient and remainder are the only such pair. */
  lemma DivModUnique(k: int, d: int, q: int, r: int)
    requires d >= 1 && 0 <= r < d && k == q * d + r
    ensures k / d == q && k % d == r
  {
    var q0, r0 := k / d, k % d;
    MulSign(q0 - q, d);
    assert (q0 - q) * d == r - r0;
  }

  /** A non-zero multiple of d is at least d away from zero. */
  lemma MulSign(a: int, d: int)
    requires d >= 1
    ensures a >= 1 ==> a * d >= d
    ensures a <= -1 ==> a * d <= -d
  {}

  /**
   * How many curves `Count()` reports after m points were added to a fresh
   * `PolyBezier`: none until Order + 1 points, then one more every
   * Order - 1 points.  In particular exactly Order points give no curve.
   */
  lemma {:induction false} PushAllCount(ps: seq<Vec3>, order: int)
    requires order >= 2
    ensures |PushAll(Empty, ps, order).curves| == CurvesAfter(|ps|, order)
    ensures |PushAll(Empty, ps, order).buffer.value| == BufferAfter(|ps|, order)
    decreases |ps|
  {
    if ps != [] {
      var m := |ps| - 1;
      PushAllCount(ps[..m], order);
      CountStep(m, order);
    }
  }

  /** One more point: the buffer grows, or a full buffer is pushed and restarts at 2. */
  lemma CountStep(m: nat, order: int)
    requires order >= 2
    ensures BufferAfter(m, order) < order ==>
      CurvesAfter(m + 1, order) == CurvesAfter(m, order) && BufferAfter(m + 1, order) == BufferAfter(m, order) + 1
    ensures BufferAfter(m, order) == order ==>
      CurvesAfter(m + 1, order) == CurvesAfter(m, order) + 1 && BufferAfter(m + 1, order) == 2
  {
    if m > order {
      DivModNext(m - order - 1, order - 1);
    } else if m == order {
      assert (m + 1 - order - 1) / (order - 1) == 0;
      assert (m + 1 - order - 1) % (order - 1) == 0;
    }
  }

  /* ---------- CreateCurve ---------- */

  /** `CreateCurve(points)` as written: add every point, then take stored curve 0. */
  function CreateCurveAsWritten(ps: seq<Vec3>, order: int): Result<seq<Vec3>>
    requires order >= 2
  {
    var c := PushAll(Empty, ps, order);
    if |c.curves| == 0 then Failure(IndexOutOfRange) else Success(c.curves[0].points)
  }

  /** The points of exactly one curve never reach a stored curve, so `CreateCurve` fails on them. */
  lemma CreateCurveExactOrderFails(ps: seq<Vec3>, order: int)
    requires order >= 2 && |ps| == order
    ensures CreateCurveAsWritten(ps, order) == Failure(IndexOutOfRange)
  {
    PushAllCount(ps, order);
  }

  /** `CreateCurve` taking the still-buffered curve when no curve was pushed. */
  function CreateCurve(ps: seq<Vec3>, order: int): Result<seq<Vec3>>
    requires order >= 2
  {
    var c := PushAll(Empty, ps, order);
    if |c.curves| > 0 then Success(c.curves[0].points)
    else if |c.buffer.value| == order then Success(c.buffer.value)
    else Failure(IndexOutOfRange)
  }

  /**
   * With at least Order points, the corrected `CreateCurve` returns the
   * curve made of the first Order of them; with fewer it fails.
   */
  lemma CreateCurveTakesFirstPoints(ps: seq<Vec3>, order: int)
    requires order >= 2
    ensures |ps| >= order ==> CreateCurve(ps, order) == Success(ps[..order])
    ensures |ps| < order ==> CreateCurve(ps, order).Failure?
  {
    var c := PushAll(Empty, ps, order);
    PushAllCount(ps, order);
    PushAllKeepsPoints(ps, order);
    var segs := PointsOf(c.curves) + [c.buffer.value];
    JoinedStartsWithFirst(segs);
    if |ps| == order {
      assert |segs| == 1;
    }
  }

  /** Gluing starts with the whole first list. */
  lemma {:induction false} JoinedStartsWithFirst(segs: seq<seq<Vec3>>)
    requires |segs| >= 1
    ensures |Joined(segs)| >= |segs[0]| && Joined(segs)[..|segs[0]|] == segs[0]
    decreases |segs|
  {
    if |segs| > 1 {
      var init := segs[..|segs| - 1];
      JoinedStartsWithFirst(init);
      assert init[0] == segs[0];
    }
  }

  /* ---------- Continuity ---------- */

  /** Points a continuity test reads at the end of p and at the start of q. */
  function Needed(c: CurveContinuity, curveType: CurveType): nat {
    match c
    case Unconstrained => 0
    case C0 => 1
    case C1 => 2
    case C2 => if curveType == Linear then 0 else 3
  }

  /** p1 - 2 p2 + p3. */
  function SecondDiff(a: Vec3, b: Vec3, c: Vec3): Vec3 {
    a.Sub(b.Scale(2.0)).Add(c)
  }

  /** C0: q starts where p ends. */
  predicate JoinedC0(pp: seq<Vec3>, qp: seq<Vec3>)
    requires |pp| >= 1 && |qp| >= 1
  {
    Last(pp) == qp[0]
  }

  /** C1: the last difference of p equals the first difference of q. */
  predicate JoinedC1(pp: seq<Vec3>, qp: seq<Vec3>)
    requires |pp| >= 2 && |qp| >= 2
  {
    pp[|pp| - 2].Sub(pp[|pp| - 1]) == qp[0].Sub(qp[1])
  }

  /** C2: equal second differences at the junction. */
  predicate JoinedC2(pp: seq<Vec3>, qp: seq<Vec3>)
    requires |pp| >= 3 && |qp| >= 3
  {
    SecondDiff(pp[|pp| - 3], pp[|pp| - 2], pp[|pp| - 1]) == SecondDiff(qp[0], qp[1], qp[2])
  }

  /**
   * `IsContinuous(p, q, continuity)`: an index error when a curve is too
   * short for the test, otherwise the test; None, and C2 between linear
   * curves, always hold.
   */
  function Continuity(pp: seq<Vec3>, qp: seq<Vec3>, c: CurveContinuity, curveType: CurveType): (r: Result<bool>)
    ensures r.Failure? <==> |pp| < Needed(c, curveType) || |qp| < Needed(c, curveType)
    ensures r.Failure? ==> r.error == IndexOutOfRange
    ensures Needed(c, curveType) == 0 ==> r == Success(true)
  {
    if |pp| < Needed(c, curveType) || |qp| < Needed(c, curveType) then Failure(IndexOutOfRange)
    else match c
      case Unconstrained => Success(true)
      case C0 => Success(JoinedC0(pp, qp))
      case C1 => Success(JoinedC1(pp, qp))
      case C2 => Success(curveType == Linear || JoinedC2(pp, qp))
  }

  /** Chain `IsContinuous`: every consecutive pair passes the test. */
  predicate AllContinuous(curves: seq<CurveState>, c: CurveContinuity, curveType: CurveType) {
    forall i :: 1 <= i < |curves| ==> Continuity(curves[i - 1].points, curves[i].points, c, curveType) == Success(true)
  }

  /* ---------- Joining two curves ---------- */

  datatype Pair = Pair(p: CurveState, q: CurveState)

  /**
   * `JoinAs(p, q, continuity)` on the two curves' states.  None resets both
   * curves; C0, C1 and C2 leave them alone when the test already holds and
   * otherwise replace one point of q: q[0] := p.last for C0, q[1] := 2 p.last
   * - p[n-2] for C1, and for C2 q[1] := the point at 1 + l on the line
   * through p[n-2] and p.last, where l = ratio(p[n-2] - p.last, q[1] - q[0])
   * stands for the length ratio the source computes with magnitudes.
   */
  function JoinPair(p: CurveState, q: CurveState, c: CurveContinuity, curveType: CurveType,
                    ratio: (Vec3, Vec3) -> real): (r: Result<Pair>)
    ensures r.Failure? <==> Continuity(p.points, q.points, c, curveType).Failure?
    ensures r.Success? && c != Unconstrained ==> r.value.p == p
    ensures r.Success? && c != Unconstrained ==> |r.value.q.points| == |q.points|
    ensures r.Success? && Continuity(p.points, q.points, c, curveType) == Success(true) && c != Unconstrained ==>
      r.value.q == q
  {
    var pp, qp := p.points, q.points;
    if Continuity(pp, qp, c, curveType).Failure? then Failure(IndexOutOfRange)
    else if c == Unconstrained then Success(Pair(ResetState(p), ResetState(q)))
    else if Continuity(pp, qp, c, curveType) == Success(true) then Success(Pair(p, q))
    else match c
      case C0 => Success(Pair(p, ReplaceState(q, Last(pp), 0)))
      case C1 => Success(Pair(p, ReplaceState(q, LinearVector(2.0, pp[|pp| - 2], Last(pp)), 1)))
      case C2 =>
        var l := ratio(pp[|pp| - 2].Sub(Last(pp)), qp[1].Sub(qp[0]));
        Success(Pair(p, ReplaceState(q, LinearVector(1.0 + l, pp[|pp| - 2], Last(pp)), 1)))
  }

  /** Joining keeps every curve's size and its snapshot's size. */
  lemma JoinPairKeepsSize(p: CurveState, q: CurveState, c: CurveContinuity, curveType: CurveType,
                          ratio: (Vec3, Vec3) -> real, n: int)
    requires SizedState(p, n) && SizedState(q, n) && n >= Needed(c, curveType)
    ensures JoinPair(p, q, c, curveType, ratio).Success?
    ensures SizedState(JoinPair(p, q, c, curveType, ratio).value.p, n)
    ensures SizedState(JoinPair(p, q, c, curveType, ratio).value.q, n)
  {}

  /** A C0 join makes the pair C0-continuous, and changes at most q[0]. */
  lemma JoinPairC0(p: CurveState, q: CurveState, curveType: CurveType, ratio: (Vec3, Vec3) -> real)
    requires |p.points| >= 1 && |q.points| >= 1
    ensures JoinPair(p, q, C0, curveType, ratio).Success?
    ensures JoinedC0(p.points, JoinPair(p, q, C0, curveType, ratio).value.q.points)
    ensures forall i :: 1 <= i < |q.points| ==> JoinPair(p, q, C0, curveType, ratio).value.q.points[i] == q.points[i]
  {}

  /**
   * A C1 join changes at most q[1], and makes the pair C1-continuous
   * whenever p already ends where q starts.
   */
  lemma JoinPairC1(p: CurveState, q: CurveState, curveType: CurveType, ratio: (Vec3, Vec3) -> real)
    requires |p.points| >= 2 && |q.points| >= 2
    ensures JoinPair(p, q, C1, curveType, ratio).Success?
    ensures forall i :: 0 <= i < |q.points| && i != 1 ==> JoinPair(p, q, C1, curveType, ratio).value.q.points[i] == q.points[i]
    ensures JoinedC0(p.points, q.points) ==> JoinedC1(p.points, JoinPair(p, q, C1, curveType, ratio).value.q.points)
  {
    var pp := p.points;
    LinearVectorAtTwo(pp[|pp| - 2], Last(pp));
  }

  /** A None join puts both curves back to their snapshots. */
  lemma JoinPairResets(p: CurveState, q: CurveState, curveType: CurveType, ratio: (Vec3, Vec3) -> real)
    ensures JoinPair(p, q, Unconstrained, curveType, ratio) == Success(Pair(ResetState(p), ResetState(q)))
  {}

  /* ---------- Joining a chain ---------- */

  /**
   * Chain `JoinAs`: the pairs (0, 1), (1, 2), ..., (k - 2, k - 1) joined in
   * turn, each on the states the previous joins left.  A pair too short for
   * the test is left alone here; among curves of a common size that covers
   * the test this never happens (`JoinUpToSized`).
   */
  function JoinUpTo(s: seq<CurveState>, c: CurveContinuity, curveType: CurveType,
                    ratio: (Vec3, Vec3) -> real, k: nat): (r: seq<CurveState>)
    requires 1 <= k <= |s|
    ensures |r| == |s|
    decreases k, 0
  {
    if k == 1 then s else JoinAt(s, c, curveType, ratio, k - 1)
  }

  /** Join number i: the pair (i - 1, i) joined on what the earlier joins left. */
  function JoinAt(s: seq<CurveState>, c: CurveContinuity, curveType: CurveType,
                  ratio: (Vec3, Vec3) -> real, i: nat): (r: seq<CurveState>)
    requires 1 <= i < |s|
    ensures |r| == |s|
    decreases i, 1
  {
    var t := JoinUpTo(s, c, curveType, ratio, i);
    var pr := JoinPair(t[i - 1], t[i], c, curveType, ratio);
    if pr.Failure? then t else t[i - 1 := pr.value.p][i := pr.value.q]
  }

  /** Among curves of n points, n covering the test, every join succeeds and keeps the sizes. */
  lemma {:induction false} JoinUpToSized(s: seq<CurveState>, c: CurveContinuity, curveType: CurveType,
                                         ratio: (Vec3, Vec3) -> real, n: int, k: nat)
    requires 1 <= k <= |s| && AllSized(s, n) && n >= Needed(c, curveType)
    ensures AllSized(JoinUpTo(s, c, curveType, ratio, k), n)
    ensures k >= 2 ==> JoinPair(JoinUpTo(s, c, curveType, ratio, k - 1)[k - 2],
                                JoinUpTo(s, c, curveType, ratio, k - 1)[k - 1], c, curveType, ratio).Success?
    decreases k
  {
    if k > 1 {
      JoinUpToSized(s, c, curveType, ratio, n, k - 1);
      var t := JoinUpTo(s, c, curveType, ratio, k - 1);
      JoinPairKeepsSize(t[k - 2], t[k - 1], c, curveType, ratio, n);
    }
  }

  /** The curves past the joined prefix are untouched. */
  lemma {:induction false} JoinUpToLeavesRest(s: seq<CurveState>, c: CurveContinuity, curveType: CurveType,
                                              ratio: (Vec3, Vec3) -> real, k: nat)
    requires 1 <= k <= |s|
    ensures forall j :: k <= j < |s| ==> JoinUpTo(s, c, curveType, ratio, k)[j] == s[j]
    decreases k
  {
    if k > 1 {
      JoinUpToLeavesRest(s, c, curveType, ratio, k - 1);
    }
  }

  /** After a chain C0 join every consecutive pair is C0-continuous. */
  lemma {:induction false} JoinChainC0(s: seq<CurveState>, curveType: CurveType,
                                       ratio: (Vec3, Vec3) -> real, n: int, k: nat)
    requires 1 <= k <= |s| && AllSized(s, n) && n >= 1
    ensures AllSized(JoinUpTo(s, C0, curveType, ratio, k), n)
    ensures forall i :: 1 <= i < k ==>
      JoinedC0(JoinUpTo(s, C0, curveType, ratio, k)[i - 1].points, JoinUpTo(s, C0, curveType, ratio, k)[i].points)
    decreases k
  {
    JoinUpToSized(s, C0, curveType, ratio, n, k);
    if k > 1 {
      JoinChainC0(s, curveType, ratio, n, k - 1);
      var t := JoinUpTo(s, C0, curveType, ratio, k - 1);
      JoinPairC0(t[k - 2], t[k - 1], curveType, ratio);
    }
  }

  /** The first k curves are pairwise C0- and C1-continuous. */
  predicate SmoothUpTo(t: seq<CurveState>, n: int, k: nat)
    requires AllSized(t, n) && n >= 2 && k <= |t|
  {
    forall i :: 1 <= i < k ==> JoinedC0(t[i - 1].points, t[i].points) && JoinedC1(t[i - 1].points, t[i].points)
  }

  /** Every curve of t ends where the same curve of s ends. */
  predicate SameLasts(t: seq<CurveState>, s: seq<CurveState>, n: int)
    requires AllSized(t, n) && AllSized(s, n) && n >= 1 && |t| == |s|
  {
    forall i :: 0 <= i < |s| ==> Last(t[i].points) == Last(s[i].points)
  }

  /** One step of a chain C1 join extends the smooth prefix by one curve. */
  lemma JoinC1Step(s: seq<CurveState>, t: seq<CurveState>, curveType: CurveType,
                   ratio: (Vec3, Vec3) -> real, n: int, k: nat)
    requires 2 <= k <= |s| == |t| && AllSized(s, n) && AllSized(t, n) && n >= 3
    requires SmoothUpTo(t, n, k - 1) && SameLasts(t, s, n) && t[k - 1] == s[k - 1]
    requires JoinedC0(s[k - 2].points, s[k - 1].points)
    ensures JoinPair(t[k - 2], t[k - 1], C1, curveType, ratio).Success?
    ensures var pr := JoinPair(t[k - 2], t[k - 1], C1, curveType, ratio).value;
      var u := t[k - 2 := pr.p][k - 1 := pr.q];
      AllSized(u, n) && SmoothUpTo(u, n, k) && SameLasts(u, s, n)
  {
    JoinPairKeepsSize(t[k - 2], t[k - 1], C1, curveType, ratio, n);
    JoinPairC1(t[k - 2], t[k - 1], curveType, ratio);
    var pr := JoinPair(t[k - 2], t[k - 1], C1, curveType, ratio).value;
    var u := t[k - 2 := pr.p][k - 1 := pr.q];
    assert u[k - 2] == t[k - 2];
    assert Last(u[k - 1].points) == Last(t[k - 1].points);
    assert JoinedC0(t[k - 2].points, t[k - 1].points);
    forall i | 1 <= i < k
      ensures JoinedC0(u[i - 1].points, u[i].points) && JoinedC1(u[i - 1].points, u[i].points)
    {
      if i < k - 1 {
        assert u[i - 1] == t[i - 1] && u[i] == t[i];
      }
    }
  }

  /**
   * A chain C1 join of curves of at least three points that already share
   * their endpoints leaves every consecutive pair C0- and C1-continuous;
   * each curve keeps its last point.
   */
  lemma {:induction false} JoinChainC1(s: seq<CurveState>, curveType: CurveType,
                                       ratio: (Vec3, Vec3) -> real, n: int, k: nat)
    requires 1 <= k <= |s| && AllSized(s, n) && n >= 3
    requires forall i :: 1 <= i < |s| ==> JoinedC0(s[i - 1].points, s[i].points)
    ensures AllSized(JoinUpTo(s, C1, curveType, ratio, k), n)
    ensures SmoothUpTo(JoinUpTo(s, C1, curveType, ratio, k), n, k)
    ensures SameLasts(JoinUpTo(s, C1, curveType, ratio, k), s, n)
    decreases k
  {
    if k > 1 {
      JoinChainC1(s, curveType, ratio, n, k - 1);
      var t := JoinUpTo(s, C1, curveType, ratio, k - 1);
      JoinUpToLeavesRest(s, C1, curveType, ratio, k - 1);
      JoinC1Step(s, t, curveType, ratio, n, k);
    }
  }

  /** A chain None join puts every curve back to its snapshot. */
  lemma {:induction false} JoinChainResets(s: seq<CurveState>, curveType: CurveType,
                                           ratio: (Vec3, Vec3) -> real, k: nat)
    requires 2 <= k <= |s|
    ensures forall i :: 0 <= i < k ==> JoinUpTo(s, Unconstrained, curveType, ratio, k)[i] == ResetState(s[i])
    decreases k
  {
    JoinUpToLeavesRest(s, Unconstrained, curveType, ratio, k - 1);
    if k > 2 {
      JoinChainResets(s, curveType, ratio, k - 1);
    }
  }

  /** A chain that is already continuous is left exactly as it was. */
  lemma {:induction false} JoinChainStable(s: seq<CurveState>, c: CurveContinuity, curveType: CurveType,
                                           ratio: (Vec3, Vec3) -> real, k: nat)
    requires 1 <= k <= |s| && c != Unconstrained
    requires AllContinuous(s, c, curveType)
    ensures JoinUpTo(s, c, curveType, ratio, k) == s
    decreases k
  {
    if k > 1 {
      JoinChainStable(s, c, curveType, ratio, k - 1);
    }
  }

  /* ---------- Closing a loop ---------- */

  /**
   * Private `LoopAs(p, q, continuity)` on p = the last curve and q = the
   * first: C0 moves p's last point onto q[0]; C1 does that and sets
   * p[n-2] := 2 q[0] - q[1]; C2 on a non-linear chain does the C0 step and
   * puts p[n-2] at 1 + l on the line from q[1] through q[0].
   */
  function LoopPair(p: CurveState, q: CurveState, c: CurveContinuity, curveType: CurveType,
                    ratio: (Vec3, Vec3) -> real): (r: CurveState)
    requires |p.points| >= 2 && |q.points| >= 2
    ensures |r.points| == |p.points|
    ensures c == C0 || c == C1 ==> JoinedC0(r.points, q.points)
    ensures c == C1 ==> JoinedC1(r.points, q.points)
    ensures forall i :: 0 <= i < |p.points| - 2 ==> r.points[i] == p.points[i]
  {
    var pp, qp := p.points, q.points;
    var n := |pp|;
    var closed := ReplaceState(p, qp[0], n - 1);
    match c
    case Unconstrained => p
    case C0 => closed
    case C1 =>
      LinearVectorAtTwo(qp[1], qp[0]);
      ReplaceState(closed, LinearVector(2.0, qp[1], qp[0]), n - 2)
    case C2 =>
      if curveType == Linear then p
      else
        var l := ratio(pp[n - 2].Sub(pp[n - 1]), qp[1].Sub(qp[0]));
        ReplaceState(closed, LinearVector(1.0 + l, qp[1], qp[0]), n - 2)
  }

  /** Closing the loop keeps the last curve's size and its snapshot's size. */
  lemma LoopPairSized(p: CurveState, q: CurveState, c: CurveContinuity, curveType: CurveType,
                      ratio: (Vec3, Vec3) -> real, n: int)
    requires SizedState(p, n) && |q.points| >= 2 && n >= 2
    ensures SizedState(LoopPair(p, q, c, curveType, ratio), n)
  {}

  /* ---------- Compute ---------- */

  /** Which curve a parameter t in [0, count] falls on, and where on it. */
  datatype Place = Place(index: int, local: real)

  /**
   * `Compute`'s index arithmetic: curve floor(t) at t - floor(t), except
   * that t = count, past the last curve, becomes the last curve at 1.
   */
  function Locate(t: real, count: int): Place
    requires 0.0 <= t <= count as real
  {
    var i := t.Floor;
    if i < count then Place(i, t - i as real) else Place(i - 1, 1.0)
  }

  /** The located curve exists, the local parameter lies in [0, 1], and the two add up to t. */
  lemma LocateInRange(t: real, count: int)
    requires count >= 1 && 0.0 <= t <= count as real
    ensures 0 <= Locate(t, count).index < count
    ensures 0.0 <= Locate(t, count).local <= 1.0
    ensures Locate(t, count).index as real + Locate(t, count).local == t
    ensures t == count as real ==> Locate(t, count) == Place(count - 1, 1.0)
    ensures Locate(t, count).local < 1.0 ==> Locate(t, count).index == t.Floor
  {}

  /** What `BezierCurve.Compute` returns on a curve holding Order points. */
  function CurveValue(pts: seq<Vec3>, t: real, derivation: int, degree: int): Vec3
    requires degree >= 1 && |pts| == degree + 1
  {
    if 1 <= derivation <= degree - 1 then BernsteinSum(t, Hodograph(pts, degree), derivation, degree)
    else DeCasteljau(t, pts)
  }

  /**
   * The curve value of a C0-joined chain does not jump at a junction: the
   * end of curve k - 1 is the start of curve k.
   */
  lemma JunctionAgrees(pp: seq<Vec3>, qp: seq<Vec3>, degree: int)
    requires degree >= 1 && |pp| == degree + 1 && |qp| == degree + 1
    requires JoinedC0(pp, qp)
    ensures CurveValue(pp, 1.0, -1, degree) == CurveValue(qp, 0.0, -1, degree)
  {
    DeCasteljauEndpoints(pp);
    DeCasteljauEndpoints(qp);
  }
}
