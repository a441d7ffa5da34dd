/**
 * Outcome types shared by the whole model.  A `null` returned by the
 * original code becomes `None`; an exception becomes a `Failure` carrying
 * the kind of error that was raised.
 */
module Wrappers {

  datatype Option<T> = None | Some(value: T)

  /** The kinds of exception the modelled code raises (or lets escape). */
  datatype Error =
    | IndexOutOfRange        // List/array index outside the valid range
    | NullReference          // a member access through a null reference
    | NotEnoughPoints        // BezierCurveException: wrong number of control points
    | InvalidDerivative      // BezierCurveException: derivative degree out of range
    | InvalidParameter       // BezierCurveException: t outside [0, Count]
    | TypeMismatch           // BezierCurveException: curve of another CurveType
    | TooFewCurves           // BezierCurveException: fewer than two curves
    | InvalidContinuity      // BezierCurveException: None used to close a loop
    | InvalidOrder           // BezierCurveException: wrong options constructor
    | OddIntervals           // ArgumentException from the Simpson solver
    | DivisionByZero         // a division by zero (non-finite float result)
    | DuplicateName          // an option item with the same name exists
    | EmptySequence          // Max/Min/First over an empty sequence
    | NegativeSize           // an array allocated with a negative length

  datatype Result<T> = Success(value: T) | Failure(error: Error)

  /** Result of an operation that returns nothing but may throw. */
  datatype Outcome = Pass | Fail(error: Error)
}
