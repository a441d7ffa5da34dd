/**
 * `PolyBezier`: a chain of Bézier curves of one type, built point by point
 * through a buffer curve, then evaluated, tested and joined.  Every method
 * is proved to follow the value model in chain.dfy.
 */
module PolyBeziers {
  import opened Wrappers
  import opened Vectors
  import opened MathHelper
  import opened BezierOptions
  import opened Bezier
  import opened BezierChain

  /** The states of a list of curves. */
  function StatesOf(cs: seq<BezierCurve>): (r: seq<CurveState>)
    reads cs
    ensures |r| == |cs| && forall i :: 0 <= i < |cs| ==> r[i] == cs[i].State()
  {
    seq(|cs|, i requires 0 <= i < |cs| reads cs => cs[i].State())
  }

  lemma StatesOfAppend(cs: seq<BezierCurve>, c: BezierCurve)
    ensures StatesOf(cs + [c]) == StatesOf(cs) + [c.State()]
  {}

  /** All points of a list of curves, one curve after the other. */
  function PointsIn(cs: seq<CurveState>): seq<Vec3> {
    if cs == [] then [] else PointsIn(cs[..|cs| - 1]) + cs[|cs| - 1].points
  }

  lemma PointsInNext(s: seq<CurveState>, i: nat)
    requires i < |s|
    ensures PointsIn(s[..i + 1]) == PointsIn(s[..i]) + s[i].points
  {
    assert s[..i + 1][..i] == s[..i];
  }

  /** Index of the first curve whose type is not `curveType`, or the length when there is none. */
  function FirstMismatch(cs: seq<BezierCurve>, curveType: CurveType): (r: nat)
    reads cs
    ensures r <= |cs|
    ensures forall i :: 0 <= i < r ==> cs[i].options.curveType == curveType
    ensures r < |cs| ==> cs[r].options.curveType != curveType
    decreases |cs|
  {
    if cs == [] || cs[0].options.curveType != curveType then 0
    else 1 + FirstMismatch(cs[1..], curveType)
  }

  /** The index of the first curve holding a point, or |s| when none does. */
  function FirstWithPoints(s: seq<CurveState>): (r: nat)
    ensures r <= |s|
    ensures forall i :: 0 <= i < r ==> s[i].points == []
    ensures r < |s| ==> s[r].points != []
    decreases |s|
  {
    if s == [] || s[0].points != [] then 0 else 1 + FirstWithPoints(s[1..])
  }

  /** `AddRange` twice is `AddRange` of both lists. */
  lemma {:induction false} PushAllAppend(c: Chain, a: seq<Vec3>, b: seq<Vec3>, order: int)
    requires c.buffer.Some? && order >= 1
    ensures PushAll(PushAll(c, a, order), b, order) == PushAll(c, a + b, order)
    decreases |b|
  {
    if b != [] {
      PushAllAppend(c, a, b[..|b| - 1], order);
      assert (a + b)[..|a + b| - 1] == a + b[..|b| - 1];
    } else {
      assert a + b == a;
    }
  }

  class PolyBezier {
    const options: BezierCurveOptions
    var curves: seq<BezierCurve>
    var buffer: BezierCurve?

    /**
     * The stored curves are distinct, share the options and hold Order
     * points each; the buffer (unless cleared) has no snapshot, is none of
     * the stored curves, and holds at least 2 points once a curve is stored.
     */
    ghost predicate Valid()
      reads this, curves, buffer
    {
      Shape(options.curveType, options.order, options.degree) &&
      (forall i :: 0 <= i < |curves| ==> curves[i].options == options && SizedState(curves[i].State(), options.order)) &&
      (forall i, j :: 0 <= i < j < |curves| ==> curves[i] != curves[j]) &&
      (buffer != null ==>
        buffer.options == options && buffer.original == None && buffer !in curves &&
        |buffer.points| <= options.order && (|curves| > 0 ==> |buffer.points| >= 2))
    }

    /** The chain this object stands for. */
    function Contents(): Chain
      reads this, curves, buffer
    {
      Chain(StatesOf(curves), if buffer == null then None else Some(buffer.points))
    }

    /** An empty chain: no curve and an empty buffer. */
    constructor(options: BezierCurveOptions)
      requires Shape(options.curveType, options.order, options.degree)
      ensures Valid() && this.options == options
      ensures Contents() == Empty && fresh(buffer)
    {
      this.options := options;
      curves := [];
      buffer := new BezierCurve(options);
    }

    /**
     * `CreateCurve(points, options)`: stored curve 0 after adding every
     * point, or an index error when no curve was stored.
     */
    static method CreateCurve(points: seq<Vec3>, options: BezierCurveOptions) returns (r: Result<BezierCurve>)
      requires Shape(options.curveType, options.order, options.degree)
      ensures r.Failure? <==> CreateCurveAsWritten(points, options.order).Failure?
      ensures r.Success? ==> r.value.points == CreateCurveAsWritten(points, options.order).value
    {
      var poly := new PolyBezier(options);
      var added := poly.AddRange(points);
      if |poly.curves| == 0 {
        return Failure(IndexOutOfRange);
      }
      return Success(poly.curves[0]);
    }

    /**
     * `Add(point)`: the buffer takes the point; a full buffer is stored as
     * a curve and a new buffer starts with its last point and this one.
     * After `Clear` there is no buffer and the call fails.
     */
    method Add(point: Vec3) returns (r: Outcome)
      requires Valid()
      modifies this, buffer
      ensures Valid() && (buffer == old(buffer) || fresh(buffer))
      ensures old(buffer) == null ==> r == Fail(NullReference) && Contents() == old(Contents())
      ensures old(buffer) != null ==> r == Pass && Contents() == Push(old(Contents()), point, options.order)
    {
      if buffer == null {
        return Fail(NullReference);
      }
      var added := buffer.Add(point);
      if added.Fail? {
        StoreBuffer(point);
      }
      return Pass;
    }

    /** A new buffer holding the two given points. */
    static method StartBuffer(options: BezierCurveOptions, first: Vec3, second: Vec3) returns (b: BezierCurve)
      requires Shape(options.curveType, options.order, options.degree)
      ensures fresh(b) && b.Valid() && b.options == options
      ensures b.points == [first, second] && b.original == None
    {
      b := new BezierCurve(options);
      var added := b.Add(first);
      added := b.Add(second);
    }

    /** The `catch` branch of `Add`: store the full buffer and start the next one. */
    method StoreBuffer(point: Vec3)
      requires Valid() && buffer != null && |buffer.points| == options.order
      modifies this
      ensures Valid() && fresh(buffer)
      ensures Contents() == Push(old(Contents()), point, options.order)
    {
      var current: BezierCurve := buffer;
      var pts := current.GetPoints();
      var next := StartBuffer(options, pts[|pts| - 1], point);
      StatesOfAppend(curves, current);
      curves := curves + [current];
      buffer := next;
      assert StatesOf(curves) == old(StatesOf(curves)) + [CurveState(pts, None)];
      assert Contents() == Chain(old(StatesOf(curves)) + [CurveState(pts, None)], Some([Last(pts), point]));
    }

    /** `AddRange(points)`: `Add` for each point in order, stopping at the first failure. */
    method AddRange(points: seq<Vec3>) returns (r: Outcome)
      requires Valid()
      modifies this, buffer
      ensures Valid() && (buffer == old(buffer) || fresh(buffer))
      ensures old(buffer) == null ==>
        Contents() == old(Contents()) && r == if points == [] then Pass else Fail(NullReference)
      ensures old(buffer) != null ==> r == Pass && Contents() == PushAll(old(Contents()), points, options.order)
    {
      var i := 0;
      while i < |points|
        invariant 0 <= i <= |points| && Valid()
        invariant buffer == old(buffer) || fresh(buffer)
        invariant old(buffer) == null ==> i == 0 && Contents() == old(Contents())
        invariant old(buffer) != null ==>
          buffer != null && Contents() == PushAll(old(Contents()), points[..i], options.order)
      {
        var added := Add(points[i]);
        if added.Fail? {
          return added;
        }
        assert points[..i + 1][..i] == points[..i];
        i := i + 1;
      }
      assert points[..i] == points;
      return Pass;
    }

    /** `Add(curve)`: only a curve of the same type is accepted; its points are added in order. */
    method AddCurve(curve: BezierCurve) returns (r: Outcome)
      requires Valid()
      modifies this, buffer
      ensures Valid() && (buffer == old(buffer) || fresh(buffer))
      ensures curve.options.curveType != options.curveType ==>
        r == Fail(TypeMismatch) && Contents() == old(Contents())
      ensures curve.options.curveType == options.curveType && old(buffer) != null ==>
        r == Pass && Contents() == PushAll(old(Contents()), old(curve.points), options.order)
      ensures curve.options.curveType == options.curveType && old(buffer) == null ==>
        r == (if |old(curve.points)| == 0 then Pass else Fail(NullReference)) && Contents() == old(Contents())
    {
      if options.curveType != curve.options.curveType {
        return Fail(TypeMismatch);
      }
      var pts := curve.GetPoints();
      r := AddRange(pts);
    }

    /**
     * `AddRange(curves)`: `Add(curve)` for each curve in order, stopping at
     * the first curve of another type.  The added curves are read before
     * the call (none of them is the buffer).  After `Clear` there is no
     * buffer: the curves before the first mismatch pass only while they
     * have no point, and the first one with a point fails.
     */
    method AddCurves(cs: seq<BezierCurve>) returns (r: Outcome)
      requires Valid() && buffer !in cs
      modifies this, buffer
      ensures Valid()
      ensures old(buffer) != null ==>
        r == (if FirstMismatch(cs, options.curveType) < |cs| then Fail(TypeMismatch) else Pass)
      ensures old(buffer) != null ==> (Contents() ==
        PushAll(old(Contents()), PointsIn(old(StatesOf(cs))[..FirstMismatch(cs, options.curveType)]), options.order))
      ensures old(buffer) == null ==> Contents() == old(Contents())
      ensures old(buffer) == null ==>
        var m := FirstMismatch(cs, options.curveType);
        r == if FirstWithPoints(old(StatesOf(cs))[..m]) < m then Fail(NullReference)
             else if m < |cs| then Fail(TypeMismatch) else Pass
    {
      if buffer == null {
        r := AddCurvesUnbuffered(cs);
      } else {
        r := AddCurvesBuffered(cs);
      }
    }

    /** The loop of `AddRange(curves)` while a buffer exists. */
    method AddCurvesBuffered(cs: seq<BezierCurve>) returns (r: Outcome)
      requires Valid() && buffer != null && buffer !in cs
      modifies this, buffer
      ensures Valid()
      ensures r == if FirstMismatch(cs, options.curveType) < |cs| then Fail(TypeMismatch) else Pass
      ensures Contents() ==
        PushAll(old(Contents()), PointsIn(old(StatesOf(cs))[..FirstMismatch(cs, options.curveType)]), options.order)
    {
      ghost var s, start := StatesOf(cs), Contents();
      var m := FirstMismatch(cs, options.curveType);
      var i := 0;
      while i < |cs|
        invariant 0 <= i <= m && Valid() && buffer != null
        invariant buffer == old(buffer) || fresh(buffer)
        invariant StatesOf(cs) == s
        invariant Contents() == PushAll(start, PointsIn(s[..i]), options.order)
      {
        var added := AddNextCurve(cs, i, s, start);
        if added.Fail? {
          return Fail(TypeMismatch);
        }
        i := i + 1;
      }
      assert i == m && s[..i] == s;
      return Pass;
    }

    /** One turn of that loop: `Add(curve)` for curve i, whose points extend the pushed prefix. */
    method AddNextCurve(cs: seq<BezierCurve>, i: nat, ghost s: seq<CurveState>, ghost start: Chain)
      returns (added: Outcome)
      requires Valid() && buffer != null && buffer !in cs && i < |cs| && i <= FirstMismatch(cs, options.curveType)
      requires StatesOf(cs) == s && start.buffer.Some?
      requires Contents() == PushAll(start, PointsIn(s[..i]), options.order)
      modifies this, buffer
      ensures Valid() && buffer != null && (buffer == old(buffer) || fresh(buffer)) && StatesOf(cs) == s
      ensures added.Fail? ==> (added == Fail(TypeMismatch) && i == FirstMismatch(cs, options.curveType) &&
        Contents() == PushAll(start, PointsIn(s[..i]), options.order))
      ensures added.Pass? ==> (i < FirstMismatch(cs, options.curveType) &&
        Contents() == PushAll(start, PointsIn(s[..i + 1]), options.order))
    {
      added := AddCurve(cs[i]);
      if added.Pass? {
        PointsInNext(s, i);
        PushAllAppend(start, PointsIn(s[..i]), s[i].points, options.order);
      }
    }

    /** The same loop after `Clear`: every `Add(curve)` with a point fails. */
    method AddCurvesUnbuffered(cs: seq<BezierCurve>) returns (r: Outcome)
      requires Valid() && buffer == null
      modifies this
      ensures Valid() && Contents() == old(Contents())
      ensures var m := FirstMismatch(cs, options.curveType);
        r == if FirstWithPoints(StatesOf(cs)[..m]) < m then Fail(NullReference)
             else if m < |cs| then Fail(TypeMismatch) else Pass
    {
      ghost var s, start := StatesOf(cs), Contents();
      var m := FirstMismatch(cs, options.curveType);
      ghost var j := FirstWithPoints(s[..m]);
      var i := 0;
      while i < |cs|
        invariant 0 <= i <= m && i <= j && Valid() && buffer == null
        invariant StatesOf(cs) == s && Contents() == start
      {
        var added := AddCurveUnbuffered(cs, i, s, m);
        if added.Fail? {
          return added;
        }
        i := i + 1;
      }
      return Pass;
    }

    /** One turn of that loop: curve i passes only when it has no point. */
    method AddCurveUnbuffered(cs: seq<BezierCurve>, i: nat, ghost s: seq<CurveState>, m: nat)
      returns (added: Outcome)
      requires Valid() && buffer == null && StatesOf(cs) == s && m == FirstMismatch(cs, options.curveType)
      requires i < |cs| && i <= m && i <= FirstWithPoints(s[..m])
      modifies this
      ensures Valid() && buffer == null && StatesOf(cs) == s && Contents() == old(Contents())
      ensures added.Fail? ==> added == (if FirstWithPoints(s[..m]) < m then Fail(NullReference) else Fail(TypeMismatch))
      ensures added.Fail? ==> i == m || i == FirstWithPoints(s[..m])
      ensures added.Pass? ==> i < m && i < FirstWithPoints(s[..m])
    {
      added := AddCurve(cs[i]);
    }

    /** `Count()`: the stored curves only; the buffer is not counted. */
    function Count(): nat
      reads this
    {
      |curves|
    }

    /** `Clear`: no curve and no buffer; a later `Add` fails. */
    method Clear()
      requires Valid()
      modifies this
      ensures Valid() && Contents() == Chain([], None)
    {
      curves := [];
      buffer := null;
    }

    /**
     * `Compute(t, derivation)`: t must lie in [0, Count]; curve floor(t) is
     * evaluated at t - floor(t), and t = Count is the last curve at 1.
     * With no curve only t = 0 passes the range test, and it has no curve.
     */
    method Compute(t: real, derivation: int) returns (r: Result<Vec3>)
      requires Valid()
      ensures !(0.0 <= t <= Count() as real) ==> r == Failure(InvalidParameter)
      ensures 0.0 <= t <= Count() as real && Count() == 0 ==> r == Failure(IndexOutOfRange)
      ensures 0.0 <= t <= Count() as real && Count() > 0 ==>
        var place := Locate(t, Count());
        r == Success(CurveValue(curves[place.index].points, place.local, derivation, options.degree))
    {
      if !(0.0 <= t <= |curves| as real) {
        return Failure(InvalidParameter);
      }
      var i := t.Floor;
      var local := t - i as real;
      var curve: BezierCurve;
      if i < |curves| {
        curve := curves[i];
      } else if i - 1 >= 0 {
        curve := curves[i - 1];
        local := 1.0;
      } else {
        return Failure(IndexOutOfRange);
      }
      r := curve.Compute(local, derivation);
    }

    /** `IsContinuous(p, q, continuity)` with this chain's curve type. */
    method IsContinuousPair(p: BezierCurve, q: BezierCurve, continuity: CurveContinuity) returns (r: Result<bool>)
      ensures r == Continuity(p.points, q.points, continuity, options.curveType)
    {
      var pp := p.GetPoints();
      var qp := q.GetPoints();
      match continuity {
        case C0 =>
          if |pp| < 1 || |qp| < 1 {
            return Failure(IndexOutOfRange);
          }
          return Success(pp[|pp| - 1] == qp[0]);
        case C1 =>
          if |pp| < 2 || |qp| < 2 {
            return Failure(IndexOutOfRange);
          }
          return Success(pp[|pp| - 2].Sub(pp[|pp| - 1]) == qp[0].Sub(qp[1]));
        case C2 =>
          if options.curveType == Linear {
            return Success(true);
          }
          if |pp| < 3 || |qp| < 3 {
            return Failure(IndexOutOfRange);
          }
          var p1, p2, p3 := pp[|pp| - 3], pp[|pp| - 2], pp[|pp| - 1];
          return Success(SecondDiff(p1, p2, p3) == SecondDiff(qp[0], qp[1], qp[2]));
        case Unconstrained =>
          return Success(true);
      }
    }

    /**
     * Chain `IsContinuous(continuity)`: at least two curves, then every
     * consecutive pair is tested and the first failing pair gives false.
     */
    method IsContinuous(continuity: CurveContinuity) returns (r: Result<bool>)
      requires Valid()
      ensures Count() < 2 ==> r == Failure(TooFewCurves)
      ensures Count() >= 2 ==> r == Success(AllContinuous(StatesOf(curves), continuity, options.curveType))
    {
      if |curves| < 2 {
        return Failure(TooFewCurves);
      }
      ghost var s := StatesOf(curves);
      var i := 1;
      while i < |curves|
        invariant 1 <= i <= |curves|
        invariant forall j :: 1 <= j < i ==> Continuity(s[j - 1].points, s[j].points, continuity, options.curveType) == Success(true)
      {
        var ok := IsContinuousPair(curves[i - 1], curves[i], continuity);
        if ok != Success(true) {
          return Success(false);
        }
        i := i + 1;
      }
      return Success(true);
    }

    /**
     * `JoinAs(p, q, continuity)`: the join of chain.dfy applied to the two
     * curves; `ratio` stands for the length ratio of the C2 branch.  When p
     * and q are the same curve, its final state is the one given for q.
     */
    method JoinAsPair(p: BezierCurve, q: BezierCurve, continuity: CurveContinuity,
                      ratio: (Vec3, Vec3) -> real) returns (r: Outcome)
      requires p.Valid() && q.Valid()
      modifies p, q
      ensures p.Valid() && q.Valid()
      ensures var res := JoinPair(old(p.State()), old(q.State()), continuity, options.curveType, ratio);
        (res.Failure? ==> r == Fail(IndexOutOfRange) && p.State() == old(p.State()) && q.State() == old(q.State())) &&
        (res.Success? ==> r == Pass && q.State() == res.value.q && (p != q ==> p.State() == res.value.p))
    {
      match continuity {
        case Unconstrained =>
          p.Reset();
          q.Reset();
          return Pass;
        case C0 =>
          r := RepairC0(p, q, ratio);
        case C1 =>
          r := RepairC1(p, q, ratio);
        case C2 =>
          r := RepairC2(p, q, ratio);
      }
    }

    /** The C0 branch of `JoinAs(p, q, continuity)`: q[0] := p's last point unless already equal. */
    method RepairC0(p: BezierCurve, q: BezierCurve, ratio: (Vec3, Vec3) -> real) returns (r: Outcome)
      requires p.Valid() && q.Valid()
      modifies q
      ensures p.Valid() && q.Valid()
      ensures var res := JoinPair(old(p.State()), old(q.State()), C0, options.curveType, ratio);
        (res.Failure? ==> r == Fail(IndexOutOfRange) && q.State() == old(q.State())) &&
        (res.Success? ==> r == Pass && q.State() == res.value.q)
    {
      var pp := p.GetPoints();
      if |pp| < 1 {
        return Fail(IndexOutOfRange);
      }
      var p3 := pp[|pp| - 1];
      var ok := IsContinuousPair(p, q, C0);
      if ok.Failure? {
        return Fail(ok.error);
      }
      if !ok.value {
        var replaced := q.Replace(p3, 0);
      }
      return Pass;
    }

    /** The C1 branch: q[1] := 2 p.last - p[n-2] unless the differences already agree. */
    method RepairC1(p: BezierCurve, q: BezierCurve, ratio: (Vec3, Vec3) -> real) returns (r: Outcome)
      requires p.Valid() && q.Valid()
      modifies q
      ensures p.Valid() && q.Valid()
      ensures var res := JoinPair(old(p.State()), old(q.State()), C1, options.curveType, ratio);
        (res.Failure? ==> r == Fail(IndexOutOfRange) && q.State() == old(q.State())) &&
        (res.Success? ==> r == Pass && q.State() == res.value.q)
    {
      var pp := p.GetPoints();
      if |pp| < 2 {
        return Fail(IndexOutOfRange);
      }
      var p2, p3 := pp[|pp| - 2], pp[|pp| - 1];
      var ok := IsContinuousPair(p, q, C1);
      if ok.Failure? {
        return Fail(ok.error);
      }
      if !ok.value {
        var replaced := q.Replace(LinearVector(2.0, p2, p3), 1);
      }
      return Pass;
    }

    /** The C2 branch: nothing for linear curves, else q[1] moves along the line through p[n-2] and p.last. */
    method RepairC2(p: BezierCurve, q: BezierCurve, ratio: (Vec3, Vec3) -> real) returns (r: Outcome)
      requires p.Valid() && q.Valid()
      modifies q
      ensures p.Valid() && q.Valid()
      ensures var res := JoinPair(old(p.State()), old(q.State()), C2, options.curveType, ratio);
        (res.Failure? ==> r == Fail(IndexOutOfRange) && q.State() == old(q.State())) &&
        (res.Success? ==> r == Pass && q.State() == res.value.q)
    {
      if options.curveType == Linear {
        return Pass;
      }
      var pp := p.GetPoints();
      var qp := q.GetPoints();
      if |pp| < 2 || |qp| < 2 {
        return Fail(IndexOutOfRange);
      }
      var p2, p3, q0, q1 := pp[|pp| - 2], pp[|pp| - 1], qp[0], qp[1];
      var ok := IsContinuousPair(p, q, C2);
      if ok.Failure? {
        return Fail(ok.error);
      }
      if !ok.value {
        var l := ratio(p2.Sub(p3), q1.Sub(q0));
        var replaced := q.Replace(LinearVector(1.0 + l, p2, p3), 1);
      }
      return Pass;
    }

    /**
     * Chain `JoinAs(continuity)`: at least two curves, then each
     * consecutive pair is joined in turn, on what the previous joins left.
     */
    method JoinAs(continuity: CurveContinuity, ratio: (Vec3, Vec3) -> real) returns (r: Outcome)
      requires Valid()
      modifies curves
      ensures Valid()
      ensures Count() < 2 ==> r == Fail(TooFewCurves) && StatesOf(curves) == old(StatesOf(curves))
      ensures Count() >= 2 ==> r == Pass
      ensures Count() >= 2 ==>
        StatesOf(curves) == JoinUpTo(old(StatesOf(curves)), continuity, options.curveType, ratio, Count())
    {
      if |curves| < 2 {
        return Fail(TooFewCurves);
      }
      ghost var s := StatesOf(curves);
      var i := 1;
      while i < |curves|
        invariant 1 <= i <= |curves| && Valid()
        invariant StatesOf(curves) == JoinUpTo(s, continuity, options.curveType, ratio, i)
      {
        JoinStep(continuity, ratio, s, i);
        i := i + 1;
      }
      return Pass;
    }

    /** One turn of the chain join: the pair (i - 1, i) is joined. */
    method JoinStep(continuity: CurveContinuity, ratio: (Vec3, Vec3) -> real, ghost s: seq<CurveState>, i: nat)
      requires Valid() && 1 <= i < |curves| && |s| == |curves|
      requires StatesOf(curves) == JoinUpTo(s, continuity, options.curveType, ratio, i)
      modifies curves[i - 1], curves[i]
      ensures Valid()
      ensures StatesOf(curves) == JoinAt(s, continuity, options.curveType, ratio, i)
    {
      ghost var t := StatesOf(curves);
      JoinPairKeepsSize(t[i - 1], t[i], continuity, options.curveType, ratio, options.order);
      ghost var pr := JoinPair(t[i - 1], t[i], continuity, options.curveType, ratio).value;
      assert buffer != curves[i - 1] && buffer != curves[i];
      var joined := JoinAsPair(curves[i - 1], curves[i], continuity, ratio);
      ghost var u := t[i - 1 := pr.p][i := pr.q];
      assert forall j :: 0 <= j < |curves| ==> curves[j].State() == u[j];
      assert StatesOf(curves) == u;
    }

    /**
     * Private `LoopAs(p, q, continuity)`: p, the last curve, is moved so
     * that it ends at the start of q, the first curve.
     */
    method LoopAsPair(p: BezierCurve, q: BezierCurve, continuity: CurveContinuity,
                      ratio: (Vec3, Vec3) -> real)
      requires p != q && p.Valid() && |p.points| >= 2 && |q.points| >= 2
      modifies p
      ensures p.Valid()
      ensures p.State() == LoopPair(old(p.State()), q.State(), continuity, options.curveType, ratio)
      decreases if continuity == C0 then 0 else 1
    {
      var pp := p.GetPoints();
      var qp := q.GetPoints();
      match continuity {
        case C0 =>
          var replaced := p.Replace(qp[0], |pp| - 1);
        case C1 =>
          LoopAsPair(p, q, C0, ratio);
          var q0, q1 := qp[0], qp[1];
          var replaced := p.Replace(LinearVector(2.0, q1, q0), |pp| - 2);
        case C2 =>
          if options.curveType != Linear {
            LoopAsPair(p, q, C0, ratio);
            var p2, p3, q0, q1 := pp[|pp| - 2], pp[|pp| - 1], qp[0], qp[1];
            var l := ratio(p2.Sub(p3), q1.Sub(q0));
            var replaced := p.Replace(LinearVector(1.0 + l, q1, q0), |pp| - 2);
          }
        case Unconstrained =>
      }
    }

    /**
     * `LoopAs(continuity)`: at least two curves and a continuity other than
     * None; the last curve is then joined onto the first.  After C0 or C1
     * the last curve ends where the first starts, and after C1 their
     * differences agree too.
     */
    method LoopAs(continuity: CurveContinuity, ratio: (Vec3, Vec3) -> real) returns (r: Outcome)
      requires Valid()
      modifies curves
      ensures Valid()
      ensures Count() < 2 ==> r == Fail(TooFewCurves) && StatesOf(curves) == old(StatesOf(curves))
      ensures Count() >= 2 && continuity == Unconstrained ==>
        r == Fail(InvalidContinuity) && StatesOf(curves) == old(StatesOf(curves))
      ensures Count() >= 2 && continuity != Unconstrained ==> r == Pass
      ensures Count() >= 2 && continuity != Unconstrained ==>
        StatesOf(curves) == old(StatesOf(curves))[Count() - 1 :=
          LoopPair(old(curves[Count() - 1].State()), old(curves[0].State()), continuity, options.curveType, ratio)]
    {
      if |curves| < 2 {
        return Fail(TooFewCurves);
      }
      if continuity == Unconstrained {
        return Fail(InvalidContinuity);
      }
      var p, q := curves[|curves| - 1], curves[0];
      ghost var before := StatesOf(curves);
      LoopPairSized(p.State(), q.State(), continuity, options.curveType, ratio, options.order);
      LoopAsPair(p, q, continuity, ratio);
      assert StatesOf(curves) == before[|curves| - 1 := p.State()];
      return Pass;
    }
  }
}
