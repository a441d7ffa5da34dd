/**
 * `BezierCurveOptions`: the shape of a curve (type, order, degree) fixed
 * at construction, and the clamped tuning settings (resolution, segments,
 * offset) that the property setters keep in range.
 */
module BezierOptions {
  import opened Wrappers

  datatype CurveType = Linear | Quadratic | Cubic | NthOrder

  /** `CurveContinuity`; its `None` member is called `Unconstrained` here. */
  datatype CurveContinuity = Unconstrained | C0 | C1 | C2

  /** The (order, degree) pair each curve type stands for. */
  predicate Shape(curveType: CurveType, order: int, degree: int) {
    order == degree + 1 &&
    match curveType
    case Linear => order == 2
    case Quadratic => order == 3
    case Cubic => order == 4
    case NthOrder => order >= 5
  }

  /** The `Resolution` setter's clamp. */
  function ClampResolution(value: real): (r: real)
    ensures 0.0 < r <= 1.0
    ensures 0.0 < value < 1.0 ==> r == value
    ensures value <= 0.0 ==> r == 0.01
    ensures value >= 1.0 ==> r == 1.0
  {
    if value <= 0.0 then 0.01 else if value >= 1.0 then 1.0 else value
  }

  /** The `Segments` setter's clamp: at least one segment. */
  function ClampSegments(value: int): (r: int)
    ensures r >= 1
    ensures value >= 1 ==> r == value
    ensures value < 1 ==> r == 1
  {
    if value <= 1 then 1 else value
  }

  /** The resolution the `Segments` setter derives: one step per segment, in (0, 1]. */
  function SegmentResolution(value: int): (r: real)
    ensures 0.0 < r <= 1.0
    ensures r * ClampSegments(value) as real == 1.0
  {
    1.0 / ClampSegments(value) as real
  }

  /** The `Offset` setter's clamp: always positive. */
  function ClampOffset(value: real): (r: real)
    ensures r > 0.0
    ensures value > 0.0 ==> r == value
    ensures value <= 0.0 ==> r == 0.1
  {
    if value <= 0.0 then 0.1 else value
  }

  class BezierCurveOptions {
    const curveType: CurveType
    const order: int
    const degree: int
    var continuity: CurveContinuity
    var optimized: bool
    var uniformized: bool
    var resolution: real
    var segments: int
    var offset: real

    /** The settings every setter keeps in range. */
    ghost predicate Valid()
      reads this
    {
      Shape(curveType, order, degree) &&
      0.0 < resolution <= 1.0 && segments >= 1 && offset > 0.0
    }

    /** The shared tail of both source constructors, after Order and Degree are set. */
    constructor Create(curveType: CurveType, order: int)
      requires Shape(curveType, order, order - 1)
      ensures Valid()
      ensures this.curveType == curveType && this.order == order && degree == order - 1
      ensures segments == 1 && resolution == 1.0 && offset == 0.01
      ensures optimized && !uniformized && continuity == Unconstrained
    {
      this.curveType := curveType;
      this.order := order;
      this.degree := order - 1;
      new;
      Initialyze();
    }

    /** `Initialyze`: one segment, offset 0.01, optimised, not uniformised, no continuity. */
    method Initialyze()
      modifies this
      ensures segments == 1 && resolution == 1.0 && offset == 0.01
      ensures optimized && !uniformized && continuity == Unconstrained
    {
      SetSegments(1);
      SetOffset(0.01);
      optimized := true;
      uniformized := false;
      continuity := Unconstrained;
    }

    method SetResolution(value: real)
      modifies this`resolution
      ensures resolution == ClampResolution(value)
    {
      var v := value;
      if v <= 0.0 {
        v := 0.01;
      } else if v >= 1.0 {
        v := 1.0;
      }
      resolution := v;
    }

    method SetSegments(value: int)
      modifies this`segments, this`resolution
      ensures segments == ClampSegments(value)
      ensures resolution == SegmentResolution(value)
    {
      var v := value;
      if v <= 1 {
        v := 1;
      }
      segments := v;
      resolution := 1.0 / segments as real;
    }

    method SetOffset(value: real)
      modifies this`offset
      ensures offset == ClampOffset(value)
    {
      var v := value;
      if v <= 0.0 {
        v := 0.1;
      }
      offset := v;
    }
  }

  /** `BezierCurveOptions(CurveType)`: NthOrder must use the order constructor. */
  method FromType(curveType: CurveType) returns (r: Result<BezierCurveOptions>)
    ensures r.Failure? <==> curveType == NthOrder
    ensures r.Failure? ==> r.error == InvalidOrder
    ensures r.Success? ==> fresh(r.value) && r.value.Valid() && r.value.curveType == curveType
    ensures r.Success? ==> r.value.order == TypeOrder(curveType) && r.value.degree == TypeOrder(curveType) - 1
    ensures r.Success? ==> r.value.segments == 1 && r.value.resolution == 1.0 && r.value.offset == 0.01
    ensures r.Success? ==> r.value.optimized && !r.value.uniformized && r.value.continuity == Unconstrained
  {
    if curveType == NthOrder {
      return Failure(InvalidOrder);
    }
    var o := new BezierCurveOptions.Create(curveType, TypeOrder(curveType));
    return Success(o);
  }

  /** `BezierCurveOptions(int)`: an N-th order curve of at least 5 control points. */
  method FromOrder(order: int) returns (r: Result<BezierCurveOptions>)
    ensures r.Failure? <==> order < 5
    ensures r.Failure? ==> r.error == InvalidOrder
    ensures r.Success? ==> fresh(r.value) && r.value.Valid() && r.value.curveType == NthOrder
    ensures r.Success? ==> r.value.order == order && r.value.degree == order - 1
    ensures r.Success? ==> r.value.segments == 1 && r.value.resolution == 1.0 && r.value.offset == 0.01
    ensures r.Success? ==> r.value.optimized && !r.value.uniformized && r.value.continuity == Unconstrained
  {
    if order < 5 {
      return Failure(InvalidOrder);
    }
    var o := new BezierCurveOptions.Create(NthOrder, order);
    return Success(o);
  }

  /** Order of the fixed curve types: Linear 2, Quadratic 3, Cubic 4. */
  function TypeOrder(curveType: CurveType): (r: int)
    requires curveType != NthOrder
    ensures Shape(curveType, r, r - 1)
  {
    match curveType
    case Linear => 2
    case Quadratic => 3
    case Cubic => 4
  }
}
