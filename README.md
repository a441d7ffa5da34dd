# Galaxeed geometry, grid and option core in Dafny

This project models the engine below the Unity/editor layer of Galaxeed, a
procedural galaxy and tile-grid toolkit, over exact reals. It covers four parts.

- **Bézier curve engine.**
  - `BezierCurveOptions` holds the curve type, order and degree, and clamps
    the resolution, segment count and offset.
  - `BezierCurve` is a bounded control-point buffer with a one-shot undo
    snapshot (`Replace`/`Reset`). It evaluates points by a Bernstein sum or
    by de Casteljau recursion, computes derivative control points, splits a
    curve and samples fixed-step intervals.
  - `PolyBezier` cuts a stream of points into curves that share endpoints.
    It maps a global parameter to a curve and a local parameter, checks
    C0/C1/C2 continuity, and enforces joins and loop closure by rewriting
    control points.
  - `PolyLine` is an editable point list with translation, de-duplication
    and segment extraction.
  - The `MathHelper` polynomials cover factorials, binomials, Bernstein
    polynomials, linear/quadratic/cubic interpolation, `Map` and line
    intersection.
- **Numeric solvers.**
  - Bisection, Newton–Raphson and composite Simpson.
  - `LegendrePolynomial`: the three-term recurrence and its derivative,
    root and weight caches, weight-sorted nodes, Gauss–Legendre
    integration, and the per-degree instance table.
- **Tile grids.** `GridData` generates a point lattice and keeps quantize,
  tile size and map size consistent. It moves and re-centres the lattice and
  snaps positions to points, frame centres or line centres. Three strategies
  (regular, axonometric, hexametric) cut the lattice into frames and flatten
  those into point lists, edge lists and centre lists.
- **Option registry.** `Options` is a name-unique item list. `OptionItem`
  (with the seed variant folded in) is a value/default/dirty state machine
  driven by its `Value` setter.

The modules follow the source layout.

| Module | File | What it holds |
|---|---|---|
| `Wrappers` | `wrappers.dfy` | `Option`, `Result` and `Outcome`. The error kinds stand in for the source's exceptions and its NaN or infinite results. |
| `Vectors` | `vectors.dfy` | `Vec3`, `Vec2`, `IntVec2` and the point-pair types `Line` and `Edge`. |
| `Steps` | `steps.dfy` | The sampling steps `k·res`. |
| `MathHelper` | `math_helper.dfy` | The polynomial and line helpers. |
| `BezierOptions` | `bezier_options.dfy` | The curve options. |
| `Bezier` | `bezier_curve.dfy` | The single curve. |
| `BezierChain` | `chain.dfy` | The chain, as values. |
| `PolyBeziers` | `poly_bezier.dfy` | The chain, as a class. |
| `PolyLines` | `poly_line.dfy` | Polylines. |
| `BinarySearch`, `NewtonRaphson`, `Simpson`, `Legendre` | the four solver files | The solvers. |
| `GridFrames` | `grid_frames.dfy` | Frames, frame collection, emitting loops, bounds and the grid centre. |
| `GridRegular`, `GridAxonometric`, `GridHexametric` | the three strategy files | The grid strategies. |
| `Grid` | `grid_data.dfy` | `GridData`. |
| `OptionRegistry` | `options.dfy` | Options and option items. |

Stateful source classes are Dafny classes whose methods state their whole new
state. Each is tied to a pure specification function: `CurveState` and
`ReplaceState`, `Chain` and `Push`, `Collapse`, `Lattice` and `ShiftGrid`,
`FirstClash`. The source's promises are then proved about those functions.

## Model

| member | source | states |
|---|---|---|
| BezierOptions.ClampResolution | Assets/Galaxeed/Math/Geometries/BezierCurveOptions.cs:26-34 | The stored resolution always lies in (0, 1]. A non-positive value becomes 0.01, a value of at least 1 becomes 1, and a value strictly between is kept. |
| BezierOptions.ClampSegments | Assets/Galaxeed/Math/Geometries/BezierCurveOptions.cs:41-48 | The segment count is at least 1: a positive count is kept, and anything below 1 becomes 1. |
| BezierOptions.SegmentResolution | Assets/Galaxeed/Math/Geometries/BezierCurveOptions.cs:41-48 | The resolution derived from a segment count is in (0, 1] and is the reciprocal of the clamped count. |
| BezierOptions.ClampOffset | Assets/Galaxeed/Math/Geometries/BezierCurveOptions.cs:55-61 | The offset is always positive. A non-positive value becomes 0.1 and a positive one is kept. |
| BezierOptions.BezierCurveOptions.Create | Assets/Galaxeed/Math/Geometries/BezierCurveOptions.cs:64-111 | The new options have the given type and order, degree = order − 1, one segment, resolution 1, offset 0.01, optimised, not uniformised and no continuity. |
| BezierOptions.BezierCurveOptions.Initialyze | Assets/Galaxeed/Math/Geometries/BezierCurveOptions.cs:104-111 | Resets segments, resolution, offset and the flags to their defaults. |
| BezierOptions.BezierCurveOptions.SetResolution | Assets/Galaxeed/Math/Geometries/BezierCurveOptions.cs:26-34 | The setter stores the clamped resolution and keeps the options well-formed. |
| BezierOptions.BezierCurveOptions.SetSegments | Assets/Galaxeed/Math/Geometries/BezierCurveOptions.cs:41-48 | Stores the clamped count and sets the resolution to its reciprocal. |
| BezierOptions.BezierCurveOptions.SetOffset | Assets/Galaxeed/Math/Geometries/BezierCurveOptions.cs:55-61 | Stores the clamped offset. |
| BezierOptions.FromType | Assets/Galaxeed/Math/Geometries/BezierCurveOptions.cs:77-102 | Fails with InvalidOrder exactly for NthOrder. Otherwise the order/degree is Linear (2, 1), Quadratic (3, 2) or Cubic (4, 3), with every default of `Initialyze`. |
| BezierOptions.FromOrder | Assets/Galaxeed/Math/Geometries/BezierCurveOptions.cs:64-75 | Fails with InvalidOrder exactly when order < 5. Otherwise the type is NthOrder, with the given order, degree = order − 1 and the defaults. |
| BezierOptions.TypeOrder | Assets/Galaxeed/Math/Geometries/BezierCurveOptions.cs:77-99 | The order chosen for each fixed type is one more than its degree and matches the type. |
| MathHelper.Fact | Assets/Galaxeed/Math/MathHelper.cs:67-77 | The factorial is at least 1, and at least n for n ≥ 1. |
| MathHelper.Factorial | Assets/Galaxeed/Math/MathHelper.cs:67-77 | The accumulator loop returns 1 for n ≤ 1 and n·(n−1)! otherwise. |
| MathHelper.ChooseTimesFactorials | Assets/Galaxeed/Math/MathHelper.cs:91-94 | Pascal's C(n, k)·k!·(n−k)! = n!. |
| MathHelper.BinomialIsChoose | Assets/Galaxeed/Math/MathHelper.cs:91-94 | The integer quotient n!/(k!(n−k)!) is exact and equals Pascal's C(n, k) for 0 ≤ k ≤ n. |
| MathHelper.BinomialSymmetric | Assets/Galaxeed/Math/MathHelper.cs:91-94 | Binomial(n, k) = Binomial(n, n − k) ≥ 1 for 0 ≤ k ≤ n. |
| MathHelper.BinomialAboveRow | Assets/Galaxeed/Math/MathHelper.cs:91-94 | Above the row (1 ≤ n < k) the integer quotient is 0. |
| MathHelper.BinomialRow | Assets/Galaxeed/Math/MathHelper.cs:79-89 | Fails with NegativeSize below n = -1. Otherwise the filled array has n + 1 entries, and entry i is Binomial(n, i). |
| MathHelper.BinomialRowIsPascal | Assets/Galaxeed/Math/MathHelper.cs:79-89 | Every entry of that row is the positive Pascal coefficient, and both ends are 1. |
| MathHelper.ChoosePascal | Assets/Galaxeed/Math/MathHelper.cs:91-94 | Each inner entry of row n is the sum of the two entries above it. |
| MathHelper.ChooseSumPascal | Assets/Galaxeed/Math/MathHelper.cs:79-94 | The first m entries of row n sum to the first m plus the first m − 1 entries of row n − 1. |
| MathHelper.ChooseRowSum | Assets/Galaxeed/Math/MathHelper.cs:79-94 | Row n of Pascal's triangle sums to 2^n. |
| MathHelper.BinomialPrefixSum | Assets/Galaxeed/Math/MathHelper.cs:79-89 | Every prefix of the filled `Binomial(n)` row has the same sum as that prefix of Pascal's row. |
| MathHelper.BinomialRowSum | Assets/Galaxeed/Math/MathHelper.cs:79-89 | The entries of `Binomial(n)` sum to 2^n. |
| MathHelper.NatPow | Assets/Galaxeed/Math/MathHelper.cs:96-102 | Powers of 1 are 1, powers of a non-zero base are non-zero, and positive powers of 0 are 0. |
| MathHelper.BernsteinIsClosedBasis | Assets/Galaxeed/Math/MathHelper.cs:96-102 | The Bernstein polynomial is C(n, i)(1−t)^(n−i)t^i for 0 ≤ i ≤ n. |
| MathHelper.BernsteinIsBasis | Assets/Galaxeed/Math/MathHelper.cs:96-102 | The Bernstein polynomial obeys the recurrence B(n,i) = (1−t)B(n−1,i) + tB(n−1,i−1). |
| MathHelper.BasisIsClosed | Assets/Galaxeed/Math/MathHelper.cs:96-102 | The recurrence basis equals the closed form for all t. |
| MathHelper.BernsteinAtZero | Assets/Galaxeed/Math/MathHelper.cs:96-102 | At t = 0 the polynomial is 1 for i = 0 and 0 otherwise (0^0 = 1). |
| MathHelper.BernsteinAtOne | Assets/Galaxeed/Math/MathHelper.cs:96-102 | At t = 1 the polynomial is 1 for i = n and 0 otherwise. |
| MathHelper.BernsteinAboveRow | Assets/Galaxeed/Math/MathHelper.cs:96-102 | Above the row, for 1 ≤ n < i, the polynomial is 0. |
| MathHelper.LinearVectorIsBernsteinSum | Assets/Galaxeed/Math/MathHelper.cs:12-22 | The degree-1 Bernstein sum the helper evaluates is (1−t)·p0 + t·p1 for every real t. |
| MathHelper.LinearVectorAtTwo | Assets/Galaxeed/Math/MathHelper.cs:12-22 | Extrapolating to t = 2 gives 2·p1 − p0. |
| MathHelper.QuadraticVector | Assets/Galaxeed/Math/MathHelper.cs:24-35 | The quadratic gives its first point at t = 0 and its last at t = 1. |
| MathHelper.CubicVector | Assets/Galaxeed/Math/MathHelper.cs:37-49 | The cubic gives its first point at t = 0 and its last at t = 1. |
| MathHelper.Map | Assets/Galaxeed/Math/MathHelper.cs:148-151 | When e1 ≠ s1, Map sends s1 to s2 and e1 to e2. |
| MathHelper.MapIsAffine | Assets/Galaxeed/Math/MathHelper.cs:148-151 | Map preserves affine combinations. |
| MathHelper.EquationThroughIsLine | Assets/Galaxeed/Math/MathHelper.cs:123-146 | A point satisfies the line equation built from a and b exactly when it is collinear with a and b. |
| MathHelper.DeterminantIsCross | Assets/Galaxeed/Math/MathHelper.cs:123-146 | The determinant of the two line equations is the 2-D cross product of the direction vectors. |
| MathHelper.CramerSolves | Assets/Galaxeed/Math/MathHelper.cs:123-146 | The point solved by Cramer's rule satisfies both equations. |
| MathHelper.LineIntersect | Assets/Galaxeed/Math/MathHelper.cs:123-146 | Fails exactly when the determinant is 0. Otherwise the result lies in the z = 0 plane. |
| MathHelper.LineIntersectOnBothLines | Assets/Galaxeed/Math/MathHelper.cs:123-146 | A successful intersection lies on the line p1p2 and on the line p3p4. |
| MathHelper.BernsteinSumAtZero | Assets/Galaxeed/Math/Geometries/BezierCurve.cs:88-98 | The Bernstein sum at t = 0 is the first control point. |
| MathHelper.BernsteinSumAtOne | Assets/Galaxeed/Math/Geometries/BezierCurve.cs:88-98 | The Bernstein sum of degree n at t = 1 is control point n. |
| Bezier.DeCasteljauSplit | Assets/Galaxeed/Math/Geometries/BezierCurve.cs:113-131 | The recursion equals the linear blend of the curves of the first n and the last n points. |
| Bezier.DeCasteljauEndpoints | Assets/Galaxeed/Math/Geometries/BezierCurve.cs:113-131 | The recursion returns the first point at t = 0 and the last point at t = 1. |
| Bezier.BernsteinIsDeCasteljau | Assets/Galaxeed/Math/Geometries/BezierCurve.cs:88-131 | The Bernstein sum (`MoveTo`) and de Casteljau (`MoveToRecursion`) give the same point for every t and every number of points. |
| Bezier.LevelIsDeCasteljau | Assets/Galaxeed/Math/Geometries/BezierCurve.cs:167-191 | Entry i of the j-th row of the splitting triangle is the de Casteljau point of the j + 1 control points starting at i. |
| Bezier.SplitRow | Assets/Galaxeed/Math/Geometries/BezierCurve.cs:167-191 | The first and last entries of row j are entry j of the left and right halves. |
| Bezier.SplitRows | Assets/Galaxeed/Math/Geometries/BezierCurve.cs:167-191 | The row-by-row loop collects exactly the left half and the reversed right half. |
| Bezier.SplitHalves | Assets/Galaxeed/Math/Geometries/BezierCurve.cs:151-191 | Both halves have as many points as the curve. left[0] = P0 and right[0] = Pn, and both end at the de Casteljau point at t. |
| Bezier.DeCasteljauBlend | Assets/Galaxeed/Math/Geometries/BezierCurve.cs:113-131 | The recursion at s of two point lists blended entry by entry at t is the blend at t of their two values at s. |
| Bezier.SplitLeftPrefix | Assets/Galaxeed/Math/Geometries/BezierCurve.cs:167-191 | Dropping the last entry of the left half gives the left half of the curve without its last point. |
| Bezier.SplitLeftSuffix | Assets/Galaxeed/Math/Geometries/BezierCurve.cs:167-191 | Dropping the first entry of the left half gives the entry-by-entry blend of the left halves of the two shorter curves. |
| Bezier.SplitLeftCurve | Assets/Galaxeed/Math/Geometries/BezierCurve.cs:151-191 | For every s, the left half evaluated at s is the curve at s·t: the left half traces the curve over [0, t]. |
| Bezier.DeCasteljauReversed | Assets/Galaxeed/Math/Geometries/BezierCurve.cs:113-131 | The curve of the reversed control points at t is the original curve at 1 − t. |
| Bezier.SplitRightIsMirrored | Assets/Galaxeed/Math/Geometries/BezierCurve.cs:167-191 | The right half is the left half of the reversed curve split at 1 − t. |
| Bezier.SplitRightCurve | Assets/Galaxeed/Math/Geometries/BezierCurve.cs:151-191 | For every s, the right half evaluated at s is the curve at 1 − s·(1 − t): it traces the curve from 1 back to t. |
| Bezier.HodographIsDerivative | Assets/Galaxeed/Math/Geometries/BezierCurve.cs:63-76 | The curve of the derivative points is n·(C[1..n](t) − C[0..n−1](t)), the derivative of the de Casteljau form. |
| Bezier.DerivationAtZero | Assets/Galaxeed/Math/Geometries/BezierCurve.cs:100-111 | The derivative Bernstein sum at t = 0 is the first derivative point. |
| Bezier.DerivationAtOne | Assets/Galaxeed/Math/Geometries/BezierCurve.cs:100-111 | The derivative Bernstein sum at t = 1 is derivative point d, for every Bernstein degree 1 ≤ d < number of derivative points. |
| Bezier.FixedStepIntervalsShape | Assets/Galaxeed/Math/Geometries/BezierCurve.cs:193-213 | The fixed-step samples start at 0, end at 1, lie in [0, 1] and never decrease. |
| Bezier.FixedStepDuplicatesOne | Assets/Galaxeed/Math/Geometries/BezierCurve.cs:201-205 | With resolution 1 the samples are [0, 1, 1]. |
| Bezier.FixedStepDuplicatesWhenExact | Assets/Galaxeed/Math/Geometries/BezierCurve.cs:201-205 | Whenever 1/resolution is a whole number, the last two samples are both 1. |
| Bezier.IntervalsShape | Assets/Galaxeed/Math/Geometries/BezierCurve.cs:193-213 | The corrected samples strictly increase from 0 to 1, so 1 appears once. |
| Bezier.ReplaceState | Assets/Galaxeed/Math/Geometries/BezierCurve.cs:41-47 | The snapshot is taken only when none exists, and the points before the edits are kept. Only the given index changes, and an index outside the points changes nothing. |
| Bezier.ReplaceAllKeepsBase | Assets/Galaxeed/Math/Geometries/BezierCurve.cs:41-47 | Any sequence of replacements keeps the pre-edit points and the size, and after one edit the snapshot holds them. |
| Bezier.ResetUndoesReplaces | Assets/Galaxeed/Math/Geometries/BezierCurve.cs:41-56 | Reset after any sequence of replacements restores the points as they were before the first one and clears the snapshot. |
| Bezier.BezierCurve.constructor | Assets/Galaxeed/Math/Geometries/BezierCurve.cs:16-21 | A new curve holds no points and no snapshot. |
| Bezier.BezierCurve.Add | Assets/Galaxeed/Math/Geometries/BezierCurve.cs:33-39 | Appends while fewer than Order points are held. Otherwise it fails with IndexOutOfRange and leaves the points unchanged. |
| Bezier.BezierCurve.Replace | Assets/Galaxeed/Math/Geometries/BezierCurve.cs:41-47 | The new state is `ReplaceState` of the old one, and an index outside the points is an IndexOutOfRange failure. |
| Bezier.BezierCurve.Reset | Assets/Galaxeed/Math/Geometries/BezierCurve.cs:49-56 | Restores the snapshot and clears it; without a snapshot it does nothing. |
| Bezier.BezierCurve.GetPoints | Assets/Galaxeed/Math/Geometries/BezierCurve.cs:58-61 | Returns the current points. |
| Bezier.BezierCurve.GetDerivativePoints | Assets/Galaxeed/Math/Geometries/BezierCurve.cs:63-76 | Fails unless 1 ≤ d < Degree, and fails while the curve is incomplete. Otherwise it returns the Degree points Degree·(P[i+1] − P[i]), whatever d is. |
| Bezier.BezierCurve.MoveTo | Assets/Galaxeed/Math/Geometries/BezierCurve.cs:88-98 | The Bernstein accumulation loop returns the Bernstein sum, which is the de Casteljau point. |
| Bezier.BezierCurve.MoveByDerivation | Assets/Galaxeed/Math/Geometries/BezierCurve.cs:100-111 | Returns the Bernstein sum of the derivative points, with Bernstein degree d. |
| Bezier.BezierCurve.Compute | Assets/Galaxeed/Math/Geometries/BezierCurve.cs:133-149 | Fails unless exactly Order points are held. A derivation in [1, Degree−1] gives the derivative sum; otherwise the result is the curve point. That point is the first control point at t = 0 and the last at t = 1, and the derivative at t = 0 is Degree·(P1 − P0). |
| Bezier.BezierCurve.Split | Assets/Galaxeed/Math/Geometries/BezierCurve.cs:151-165 | Fails on an empty curve. Otherwise it returns the left half and the reversed right half of the de Casteljau split, and for every s the left half at s is the curve at s·t and the right half at s is the curve at 1 − s·(1 − t). |
| Bezier.BezierCurve.GetFlatenedIntervals | Assets/Galaxeed/Math/Geometries/BezierCurve.cs:193-213 | The fixed-step loop returns k·Resolution for every k with k·Resolution ≤ 1, followed by 1. |
| Bezier.BezierCurve.GetLinearComponents | Assets/Galaxeed/Math/Geometries/BezierCurve.cs:451-480 | For -1, returns the x, y and z coordinate lists of the control points. For other values, it fails on the same conditions as `GetDerivativePoints` and otherwise returns those of the derivative points. |
| BezierChain.PushKeepsLinked | Assets/Galaxeed/Math/Geometries/PolyBezier.cs:40-55 | Pushing a point keeps every stored curve at Order points. Consecutive curves share an endpoint, and the buffer starts at the last stored endpoint and holds 1..Order points. The chain's points gain exactly that point. |
| BezierChain.PushAllKeepsPoints | Assets/Galaxeed/Math/Geometries/PolyBezier.cs:70-74 | Adding a list of points to an empty chain keeps the chain linked, and the chain's points are exactly that list. |
| BezierChain.CurvesAfter | Assets/Galaxeed/Math/Geometries/PolyBezier.cs:82-85 | With at most Order points there are no stored curves, and with more there is at least one. |
| BezierChain.BufferAfter | Assets/Galaxeed/Math/Geometries/PolyBezier.cs:40-55 | The buffer never holds more than Order points. |
| BezierChain.PushAllCount | Assets/Galaxeed/Math/Geometries/PolyBezier.cs:40-55 | After m points the number of stored curves and the buffer size are the closed forms above. |
| BezierChain.CreateCurveExactOrderFails | Assets/Galaxeed/Math/Geometries/PolyBezier.cs:22-28 | As written, `CreateCurve` with exactly Order points fails with IndexOutOfRange, because nothing was pushed. |
| BezierChain.CreateCurveTakesFirstPoints | Assets/Galaxeed/Math/Geometries/PolyBezier.cs:22-28 | The corrected `CreateCurve` returns the first Order points, and fails only with fewer. |
| BezierChain.Continuity | Assets/Galaxeed/Math/Geometries/PolyBezier.cs:519-556 | Fails exactly when a curve has too few points for the test. Needing no points (None, or C2 on a linear type) means continuous. |
| BezierChain.JoinPair | Assets/Galaxeed/Math/Geometries/PolyBezier.cs:575-629 | Fails exactly when the continuity test fails. A C0, C1 or C2 join never changes p, keeps q's size, and leaves an already-continuous pair alone. |
| BezierChain.JoinPairKeepsSize | Assets/Galaxeed/Math/Geometries/PolyBezier.cs:575-629 | A join keeps both curves at Order points. |
| BezierChain.JoinPairC0 | Assets/Galaxeed/Math/Geometries/PolyBezier.cs:575-629 | The C0 join establishes p.last = q[0] and changes only q[0]. |
| BezierChain.JoinPairC1 | Assets/Galaxeed/Math/Geometries/PolyBezier.cs:575-629 | The C1 join changes only q[1]. When p.last = q[0], the pair is C1 afterwards. |
| BezierChain.JoinPairResets | Assets/Galaxeed/Math/Geometries/PolyBezier.cs:575-629 | Joining with no continuity resets both curves to their snapshots. |
| BezierChain.JoinChainC0 | Assets/Galaxeed/Math/Geometries/PolyBezier.cs:558-573 | Joining the chain as C0 leaves every consecutive pair C0-continuous. |
| BezierChain.JoinChainC1 | Assets/Galaxeed/Math/Geometries/PolyBezier.cs:558-573 | Joining the chain as C1 leaves every consecutive pair C0- and C1-continuous and keeps every curve's last point. |
| BezierChain.JoinChainResets | Assets/Galaxeed/Math/Geometries/PolyBezier.cs:558-573 | Joining the chain with no continuity resets every curve. |
| BezierChain.JoinChainStable | Assets/Galaxeed/Math/Geometries/PolyBezier.cs:558-573 | Joining an already continuous chain changes nothing. |
| BezierChain.LoopPair | Assets/Galaxeed/Math/Geometries/PolyBezier.cs:645-689 | Closing the loop makes last → first C0 (and C1 for C1) continuous, and touches only the last curve's final two points. |
| BezierChain.LoopPairSized | Assets/Galaxeed/Math/Geometries/PolyBezier.cs:645-689 | Closing the loop keeps the last curve at Order points. |
| BezierChain.LocateInRange | Assets/Galaxeed/Math/Geometries/PolyBezier.cs:202-223 | A global t in [0, Count] maps to a curve index in range and a local t in [0, 1], with index + local = t. t = Count maps to the last curve at local 1. |
| BezierChain.JunctionAgrees | Assets/Galaxeed/Math/Geometries/PolyBezier.cs:202-223 | On a C0 chain, the end of one curve and the start of the next evaluate to the same point. |
| PolyBeziers.PushAllAppend | Assets/Galaxeed/Math/Geometries/PolyBezier.cs:70-74 | Adding a then b is adding a + b. |
| PolyBeziers.FirstMismatch | Assets/Galaxeed/Math/Geometries/PolyBezier.cs:76-80 | The index of the first curve whose type differs from the chain's. |
| PolyBeziers.PolyBezier.constructor | Assets/Galaxeed/Math/Geometries/PolyBezier.cs:15-20 | A new chain is empty with a fresh empty buffer. |
| PolyBeziers.PolyBezier.CreateCurve | Assets/Galaxeed/Math/Geometries/PolyBezier.cs:22-28 | Builds a chain from the points and returns stored curve 0, exactly as the as-written function does. |
| PolyBeziers.PolyBezier.Add | Assets/Galaxeed/Math/Geometries/PolyBezier.cs:40-55 | After `Clear`, fails with NullReference and changes nothing. Otherwise the chain becomes `Push` of the old chain. |
| PolyBeziers.PolyBezier.AddRange | Assets/Galaxeed/Math/Geometries/PolyBezier.cs:70-74 | Adds the points in order, as `PushAll`. |
| PolyBeziers.PolyBezier.AddCurve | Assets/Galaxeed/Math/Geometries/PolyBezier.cs:57-68 | Fails with TypeMismatch and changes nothing on a type mismatch. Otherwise it adds that curve's points in order; after `Clear` it changes nothing, passes for a curve with no point and fails with NullReference for one with points. |
| PolyBeziers.PolyBezier.AddCurves | Assets/Galaxeed/Math/Geometries/PolyBezier.cs:76-80 | With a buffer it adds the curves in order up to the first type mismatch, and fails exactly when there is one. After `Clear` it changes nothing and fails with NullReference at the first curve with points before the first mismatch, else with TypeMismatch if a mismatch exists. |
| PolyBeziers.PolyBezier.AddCurvesBuffered | Assets/Galaxeed/Math/Geometries/PolyBezier.cs:76-80 | The loop with a buffer: the points of the curves before the first mismatch are pushed in order, and the result is TypeMismatch exactly when a mismatch exists. |
| PolyBeziers.PolyBezier.AddCurvesUnbuffered | Assets/Galaxeed/Math/Geometries/PolyBezier.cs:57-80 | The loop after `Clear`: nothing changes, and the first failing `Add(curve)` decides the result. |
| PolyBeziers.PolyBezier.Clear | Assets/Galaxeed/Math/Geometries/PolyBezier.cs:92-96 | Empties the curves and drops the buffer. |
| PolyBeziers.PolyBezier.Compute | Assets/Galaxeed/Math/Geometries/PolyBezier.cs:202-223 | Fails outside [0, Count] and on an empty chain. Otherwise it evaluates the located curve at the local parameter. |
| PolyBeziers.PolyBezier.IsContinuousPair | Assets/Galaxeed/Math/Geometries/PolyBezier.cs:519-556 | Returns the continuity test of the two curves. |
| PolyBeziers.PolyBezier.IsContinuous | Assets/Galaxeed/Math/Geometries/PolyBezier.cs:499-517 | Fails with fewer than two curves. Otherwise it is true exactly when every consecutive pair passes the test. |
| PolyBeziers.PolyBezier.JoinAsPair | Assets/Galaxeed/Math/Geometries/PolyBezier.cs:575-629 | The two curves end in the states `JoinPair` gives. |
| PolyBeziers.PolyBezier.JoinAs | Assets/Galaxeed/Math/Geometries/PolyBezier.cs:558-573 | Fails with fewer than two curves and changes nothing. Otherwise every pair is joined front to back, as `JoinUpTo`. |
| PolyBeziers.PolyBezier.LoopAsPair | Assets/Galaxeed/Math/Geometries/PolyBezier.cs:645-689 | The last curve ends in the state `LoopPair` gives. |
| PolyBeziers.PolyBezier.LoopAs | Assets/Galaxeed/Math/Geometries/PolyBezier.cs:631-643 | Fails with fewer than two curves or with no continuity. Otherwise only the last curve changes, closed onto the first. |
| PolyLines.TranslationsCancel | Assets/Galaxeed/Math/Geometries/PolyLine.cs:27-41 | Translating by d and then back by d, in either order, restores the points. |
| PolyLines.Lines | Assets/Galaxeed/Math/Geometries/PolyLine.cs:93-108 | There are max(Count − 1, 0) lines, and line i is (points[i], points[i+1]). |
| PolyLines.LinesChain | Assets/Galaxeed/Math/Geometries/PolyLine.cs:93-108 | Consecutive lines meet, and the line starts plus the last end give back the points. |
| PolyLines.Collapse | Assets/Galaxeed/Math/Geometries/PolyLine.cs:110-129 | Collapsing never lengthens the points. It keeps a non-empty line non-empty, with the same first and last point. |
| PolyLines.CollapseNoAdjacent | Assets/Galaxeed/Math/Geometries/PolyLine.cs:110-129 | After collapsing, no two adjacent points are equal. |
| PolyLines.CollapseKeepsClean | Assets/Galaxeed/Math/Geometries/PolyLine.cs:110-129 | A line without adjacent duplicates is unchanged. |
| PolyLines.CollapseIdempotent | Assets/Galaxeed/Math/Geometries/PolyLine.cs:110-129 | Collapsing twice is collapsing once. |
| PolyLines.CollapseKeepsValues | Assets/Galaxeed/Math/Geometries/PolyLine.cs:110-129 | Collapsing keeps exactly the same set of points. |
| PolyLines.Intersect | Assets/Galaxeed/Math/Geometries/PolyLine.cs:43-66 | Fails exactly when the cross product of the directions is 0. |
| PolyLines.IntersectOnBothLines | Assets/Galaxeed/Math/Geometries/PolyLine.cs:43-66 | The static intersection agrees with the helper, and a successful result lies on both lines. |
| PolyLines.PolyLine.constructor | Assets/Galaxeed/Math/Geometries/PolyLine.cs:22-25 | A new polyline is empty. |
| PolyLines.PolyLine.At | Assets/Galaxeed/Math/Geometries/PolyLine.cs:10-20 | The indexer returns point key, or IndexOutOfRange. |
| PolyLines.PolyLine.Set | Assets/Galaxeed/Math/Geometries/PolyLine.cs:10-20 | The indexer setter replaces exactly point key, or fails with IndexOutOfRange and changes nothing. |
| PolyLines.PolyLine.Intersect | Assets/Galaxeed/Math/Geometries/PolyLine.cs:68-71 | The instance intersection always returns zero. |
| PolyLines.PolyLine.Add | Assets/Galaxeed/Math/Geometries/PolyLine.cs:73-76 | Appends the point at the end. |
| PolyLines.PolyLine.AddPolyLine | Assets/Galaxeed/Math/Geometries/PolyLine.cs:78-81 | Appends the other line's points in order. |
| PolyLines.PolyLine.AddRange | Assets/Galaxeed/Math/Geometries/PolyLine.cs:83-86 | Appends the array's points in order. |
| PolyLines.PolyLine.GetPoints | Assets/Galaxeed/Math/Geometries/PolyLine.cs:88-91 | Returns a fresh array of the points. |
| PolyLines.PolyLine.GetLines | Assets/Galaxeed/Math/Geometries/PolyLine.cs:93-108 | The building loop returns `Lines` of the points. |
| PolyLines.PolyLine.Distinct | Assets/Galaxeed/Math/Geometries/PolyLine.cs:110-129 | Collecting duplicate indices and removing them in reverse leaves `Collapse` of the old points. |
| PolyLines.PolyLine.Count | Assets/Galaxeed/Math/Geometries/PolyLine.cs:148-151 | The number of points. |
| PolyLines.Plus | Assets/Galaxeed/Math/Geometries/PolyLine.cs:27-33 | Translates every point in place by d and returns the same object. |
| PolyLines.Minus | Assets/Galaxeed/Math/Geometries/PolyLine.cs:35-41 | Translates every point in place by −d and returns the same object. |
| BinarySearch.Sign | Assets/Galaxeed/Math/BinarySearchSolver.cs:53-56 | The sign is +1 for x ≥ 0 (including 0) and −1 otherwise. |
| BinarySearch.Narrow | Assets/Galaxeed/Math/BinarySearchSolver.cs:53-56 | One step keeps one half of [a, b], which halves the width, and it keeps a sign change. |
| BinarySearch.Bisect | Assets/Galaxeed/Math/BinarySearchSolver.cs:34-61 | With a ≤ b the result stays in [a, b]. The loop returns the midpoint as soon as f(c) = 0 or the half-width is below the tolerance. |
| BinarySearch.BisectKeepsSignChange | Assets/Galaxeed/Math/BinarySearchSolver.cs:44-56 | When f changes sign on [a, b], it changes sign on each side of the result. |
| BinarySearch.BinarySearchSolver.Default | Assets/Galaxeed/Math/BinarySearchSolver.cs:17-21 | The defaults are Epsilon = 0.01 and MaxIterations = 1000, with no function. |
| BinarySearch.BinarySearchSolver.constructor | Assets/Galaxeed/Math/BinarySearchSolver.cs:23-30 | Stores the interval and function, with the same defaults. |
| BinarySearch.BinarySearchSolver.Solve | Assets/Galaxeed/Math/BinarySearchSolver.cs:32-61 | Returns 0 when MaxIterations ≤ 0 and fails without a function. Otherwise the loop computes `Bisect` with at most MaxIterations steps. |
| NewtonRaphson.IterationCount | Assets/Galaxeed/Math/NewtonRaphsonSolver.cs:34-53 | The loop bound is the least whole number at least MaxIterations. |
| NewtonRaphson.Newton | Assets/Galaxeed/Math/NewtonRaphsonSolver.cs:34-53 | With no steps left it returns x. A zero derivative is a DivisionByZero failure, and that is the only failure. |
| NewtonRaphson.NewtonStopsOnSmallStep | Assets/Galaxeed/Math/NewtonRaphsonSolver.cs:45-48 | When the first step is below Epsilon, the result is that updated x. |
| NewtonRaphson.NewtonFixedPoint | Assets/Galaxeed/Math/NewtonRaphsonSolver.cs:41-48 | When f(x0) = 0 and f'(x0) ≠ 0, the result is x0. |
| NewtonRaphson.NewtonRaphsonSolver.Default | Assets/Galaxeed/Math/NewtonRaphsonSolver.cs:17-21 | The defaults are Epsilon = 0.01 and MaxIterations = 1000. |
| NewtonRaphson.NewtonRaphsonSolver.constructor | Assets/Galaxeed/Math/NewtonRaphsonSolver.cs:23-30 | Stores the start value and both functions, with the same defaults. |
| NewtonRaphson.NewtonRaphsonSolver.Solve | Assets/Galaxeed/Math/NewtonRaphsonSolver.cs:32-53 | Returns Initial when MaxIterations ≤ 0 and fails without functions. Otherwise the loop computes `Newton` with ⌈MaxIterations⌉ steps. |
| Simpson.PartsMakeInterior | Assets/Galaxeed/Math/SimpsonSolver.cs:30-34 | The two loops (odd samples weighted 4, even samples weighted 2) together weight each interior sample exactly once. |
| Simpson.InteriorOfConstant | Assets/Galaxeed/Math/SimpsonSolver.cs:30-34 | For a constant c and an even m the interior sum is (3m − 2)·c. |
| Simpson.RuleOfConstant | Assets/Galaxeed/Math/SimpsonSolver.cs:27-36 | For a constant integrand c and an even n > 0, the rule gives c·(End − Start). |
| Simpson.SampleSum | Assets/Galaxeed/Math/SimpsonSolver.cs:27-34 | The two loops accumulate f(a) + f(b) plus the weighted interior sum. |
| Simpson.SimpsonSolver.Default | Assets/Galaxeed/Math/SimpsonSolver.cs:12 | The default solver has no function and zero intervals. |
| Simpson.SimpsonSolver.constructor | Assets/Galaxeed/Math/SimpsonSolver.cs:14-20 | Stores the function, the bounds and the interval count. |
| Simpson.SimpsonSolver.Solve | Assets/Galaxeed/Math/SimpsonSolver.cs:22-36 | An odd count fails with OddIntervals and 0 fails with DivisionByZero. Otherwise the result is (h/3)(f(a) + f(b) + 4Σodd + 2Σeven). |
| Legendre.PAtOne | Assets/Galaxeed/Math/LegendrePolynomial.cs:46-53 | The recurrence gives P_n(1) = 1. |
| Legendre.PParity | Assets/Galaxeed/Math/LegendrePolynomial.cs:46-53 | P_n(−x) = P_n(x) for even n and −P_n(x) for odd n. |
| Legendre.PTwo | Assets/Galaxeed/Math/LegendrePolynomial.cs:46-53 | P_2(x) = (3x² − 1)/2. |
| Legendre.Derivative | Assets/Galaxeed/Math/LegendrePolynomial.cs:55-63 | The derivative formula fails exactly for n ≥ 2 at x = ±1. |
| Legendre.DerivativeOfPTwo | Assets/Galaxeed/Math/LegendrePolynomial.cs:55-63 | Away from ±1 the formula gives P_2'(x) = 3x. |
| Legendre.WeightOf | Assets/Galaxeed/Math/LegendrePolynomial.cs:90-104 | A computed weight w satisfies w·(1 − x²)·P_n'(x)² = 2. |
| Legendre.Weights | Assets/Galaxeed/Math/LegendrePolynomial.cs:90-104 | There is one weight per root. The list fails exactly when some weight does. |
| Legendre.WeightsAppend | Assets/Galaxeed/Math/LegendrePolynomial.cs:90-104 | Weighing one more root appends its weight. |
| Legendre.Roots | Assets/Galaxeed/Math/LegendrePolynomial.cs:66-88 | The first call computes exactly n roots (none for n ≤ 0), root i being the (i+1)-th root value. |
| Legendre.Zip | Assets/Galaxeed/Math/LegendrePolynomial.cs:106-117 | Pairs weight i with root i. |
| Legendre.Insert | Assets/Galaxeed/Math/LegendrePolynomial.cs:106-117 | Inserting a node adds exactly that node. |
| Legendre.InsertSorted | Assets/Galaxeed/Math/LegendrePolynomial.cs:106-117 | Inserting into a weight-sorted list keeps it sorted. |
| Legendre.SortByWeightPermutes | Assets/Galaxeed/Math/LegendrePolynomial.cs:106-117 | Sorting by weight is a permutation. |
| Legendre.SortByWeightSorted | Assets/Galaxeed/Math/LegendrePolynomial.cs:106-117 | The sorted nodes have non-increasing weights. |
| Legendre.InsertOfWeight | Assets/Galaxeed/Math/LegendrePolynomial.cs:106-117 | An inserted node goes ahead of the nodes of its own weight and behind only strictly heavier ones. |
| Legendre.SortByWeightStable | Assets/Galaxeed/Math/LegendrePolynomial.cs:106-117 | The sort is stable, as `OrderByDescending` is: the nodes of each weight keep their input order. |
| Legendre.QuadratureOrderFree | Assets/Galaxeed/Math/LegendrePolynomial.cs:106-134 | The weighted sum does not depend on the sorting. |
| Legendre.IntegralOrderFree | Assets/Galaxeed/Math/LegendrePolynomial.cs:106-134 | The Gauss–Legendre integral is the same over sorted and unsorted nodes. |
| Legendre.Integrate | Assets/Galaxeed/Math/LegendrePolynomial.cs:119-134 | The loop computes c1·Σ wᵢ·f(c1·xᵢ + c2) over the first n nodes, with c1 = (b − a)/2 and c2 = (a + b)/2. |
| Legendre.LegendrePolynomial.constructor | Assets/Galaxeed/Math/LegendrePolynomial.cs:21-28 | A new instance has empty root and weight caches and the default tolerances. |
| Legendre.LegendrePolynomial.GetRoots | Assets/Galaxeed/Math/LegendrePolynomial.cs:66-88 | Computes the n roots on the first call, and afterwards returns the cached list unchanged. |
| Legendre.LegendrePolynomial.GetWeights | Assets/Galaxeed/Math/LegendrePolynomial.cs:90-104 | Returns the cached weights, or computes one weight per cached root (empty when no roots were computed). A failure caches nothing. |
| Legendre.LegendrePolynomial.GetResult | Assets/Galaxeed/Math/LegendrePolynomial.cs:106-117 | Returns the (weight, root) pairs sorted by weight. |
| Legendre.LegendrePolynomial.GetIntegral | Assets/Galaxeed/Math/LegendrePolynomial.cs:119-134 | Returns the Gauss–Legendre integral of f over [a, b] with the cached nodes. |
| Legendre.LegendreTables.GetInstance | Assets/Galaxeed/Math/LegendrePolynomial.cs:30-42 | The same n gives the same instance. The first call for n adds exactly one fresh table entry. |
| GridFrames.ShiftComposes | Assets/Galaxeed/Unity/GridDataHexametric.cs:130-139 | Moving a frame by u and then by v is moving it by u + v, and moving back undoes a move. |
| GridFrames.ShiftRows | Assets/Galaxeed/Unity/GridDataHexametric.cs:238-250 | Every frame of every row moves by the same vector, and the shape is kept. |
| GridFrames.CollectFrames | Assets/Galaxeed/Unity/GridDataRegular.cs:124-145 | The collecting loop returns the existing frames row by row and drops rows without frames. |
| GridFrames.RowFramesPrefix | Assets/Galaxeed/Unity/GridDataRegular.cs:124-145 | A row collects exactly the frames that exist at its leading indices. |
| GridFrames.FrameRowsShape | Assets/Galaxeed/Unity/GridDataRegular.cs:124-145 | An R×C grid yields R − 1 frame rows of C − 1 frames. |
| GridFrames.EmitAll | Assets/Galaxeed/Unity/GridDataRegular.cs:163-207 | The per-frame emitting loop returns the frame-by-frame concatenation. |
| GridFrames.BorderRowsCount | Assets/Galaxeed/Unity/GridDataRegular.cs:163-207 | Emitting two items per frame plus one on each border gives k·(2fc + 1) + fc items. |
| GridFrames.Midpoints | Assets/Galaxeed/Unity/GridDataRegular.cs:209-222 | One midpoint per line, in the same order. |
| GridFrames.LineCenters | Assets/Galaxeed/Unity/GridDataRegular.cs:209-222 | The loop returns those midpoints. |
| GridFrames.FlattenHas | Assets/Galaxeed/Unity/GridDataRegular.cs:85-88 | A point is in the flattened rows exactly when it is in some row. |
| GridFrames.FlattenLength | Assets/Galaxeed/Unity/GridDataRegular.cs:85-88 | Flattening R rows of C points gives R·C points. |
| GridFrames.Centers | Assets/Galaxeed/Unity/GridDataRegular.cs:147-154 | One centre per frame, in the same shape. |
| GridFrames.BoundsOf | Assets/Galaxeed/Unity/GridDataRegular.cs:54-78 | Fails exactly on no points. Otherwise min/max contain every point and are attained. |
| GridFrames.GridCenter | Assets/Galaxeed/Unity/GridData.cs:97-111 | Returns the stored centre for empty data. It fails when the first or last row is empty, and otherwise gives the midpoint of the first and the last point. |
| GridRegular.FrameAt | Assets/Galaxeed/Unity/GridDataRegular.cs:90-122 | A frame exists exactly when rows y and y+1 have indices x and x+1. Its corners are those points, its edges are midpoints, and its centre is mid(topLeft, bottomRight). |
| GridRegular.NeighboursShareCorners | Assets/Galaxeed/Unity/GridDataRegular.cs:90-122 | Adjacent frames share their common corners. |
| GridRegular.GetFrames | Assets/Galaxeed/Unity/GridDataRegular.cs:124-145 | Returns the collected frames of the grid. |
| GridRegular.FramesShape | Assets/Galaxeed/Unity/GridDataRegular.cs:124-145 | An R×C grid has R − 1 rows of C − 1 frames. |
| GridRegular.FlattenedPoints | Assets/Galaxeed/Unity/GridDataRegular.cs:85-88 | The flattened points are exactly the grid's points. |
| GridRegular.FlattenedFramesCenter | Assets/Galaxeed/Unity/GridDataRegular.cs:147-161 | The flattened centres are exactly the frame centres. |
| GridRegular.GetLines | Assets/Galaxeed/Unity/GridDataRegular.cs:163-207 | Returns the bottom and left edge of every frame, plus a top edge on the last row and a right edge on the last column. |
| GridRegular.LinesCount | Assets/Galaxeed/Unity/GridDataRegular.cs:163-207 | An R×C grid has R(C − 1) + C(R − 1) lines, each side once. |
| GridRegular.GetLinesCenter | Assets/Galaxeed/Unity/GridDataRegular.cs:209-222 | One midpoint per line, in the same order. |
| GridRegular.Bounds | Assets/Galaxeed/Unity/GridDataRegular.cs:54-78 | Fails on an empty grid. Otherwise min/max contain every point. |
| GridAxonometric.FrameAt | Assets/Galaxeed/Unity/GridDataAxonometric.cs:120-152 | Exists under the same condition as a regular frame. Its points are the cell's edge midpoints, and its centre is mid(leftCenter, rightCenter). |
| GridAxonometric.CentreAgreesOnParallelograms | Assets/Galaxeed/Unity/GridDataAxonometric.cs:120-152 | On a parallelogram cell the axonometric centre equals the regular one. |
| GridAxonometric.GetFrames | Assets/Galaxeed/Unity/GridDataAxonometric.cs:154-175 | Returns the collected frames. |
| GridAxonometric.FramesShape | Assets/Galaxeed/Unity/GridDataAxonometric.cs:154-175 | An R×C grid has R − 1 rows of C − 1 frames. |
| GridAxonometric.GetFlattenedPoints | Assets/Galaxeed/Unity/GridDataAxonometric.cs:91-118 | Emits bottomCenter and leftCenter per frame, plus topCenter on the last row and rightCenter on the last column. |
| GridAxonometric.PointsCount | Assets/Galaxeed/Unity/GridDataAxonometric.cs:91-118 | That is R(C − 1) + C(R − 1) points for an R×C grid. |
| GridAxonometric.GetLines | Assets/Galaxeed/Unity/GridDataAxonometric.cs:212-250 | Returns four edges per frame. |
| GridAxonometric.LinesAreDiamonds | Assets/Galaxeed/Unity/GridDataAxonometric.cs:212-250 | The lines come in closed cycles of four. |
| GridAxonometric.DiamondsClose | Assets/Galaxeed/Unity/GridDataAxonometric.cs:212-250 | Each frame's four edges run bottomCenter → leftCenter → topCenter → rightCenter → bottomCenter. |
| GridAxonometric.GetLinesCenter | Assets/Galaxeed/Unity/GridDataAxonometric.cs:252-265 | One midpoint per line, in the same order. |
| GridAxonometric.ExtendGrows | Assets/Galaxeed/Unity/GridDataAxonometric.cs:185-200 | Appending to the row being iterated stops at its original length, and it adds the midpoints of diagonal neighbours. |
| GridAxonometric.ExtendNothing | Assets/Galaxeed/Unity/GridDataAxonometric.cs:185-200 | Without a following row nothing is added. |
| GridAxonometric.ExtendEqualRows | Assets/Galaxeed/Unity/GridDataAxonometric.cs:185-200 | A row with a following row of equal length gains c − 1 entries mid(row[j], next[j+1]). |
| GridAxonometric.ExtendRow | Assets/Galaxeed/Unity/GridDataAxonometric.cs:185-200 | The appending loop computes that extension. |
| GridAxonometric.GetFramesCenter | Assets/Galaxeed/Unity/GridDataAxonometric.cs:177-203 | Returns the frame centres with every row extended. |
| GridAxonometric.FramesCenterShape | Assets/Galaxeed/Unity/GridDataAxonometric.cs:177-203 | Every row but the last has 2c − 3 centres and gains the diagonal midpoints. The last row is unchanged. |
| GridAxonometric.FlattenedFramesCenter | Assets/Galaxeed/Unity/GridDataAxonometric.cs:205-210 | The flattened centres are exactly the entries of the centre rows. |
| GridAxonometric.Bounds | Assets/Galaxeed/Unity/GridDataAxonometric.cs:59-84 | Fails with EmptySequence exactly when there is no point or the grid's `Center` getter throws, which happens when the first or the last data row is empty (GridData.cs:98-105). Otherwise min/max contain every flattened point. |
| GridHexametric.FrameAt | Assets/Galaxeed/Unity/GridDataHexametric.cs:141-185 | Exists exactly when rows y, y+1 and y+2 have indices x and x+1. Every frame point is the given midpoint of grid points, and the centre is both mid(bottomCenter, topCenter) and mid(leftCenter, rightCenter). |
| GridHexametric.Steps | Assets/Galaxeed/Unity/GridDataHexametric.cs:189-236 | The two placement steps lead from mid(topLeft, topRight) to topRight and to topCenter. |
| GridHexametric.PlacedOffset | Assets/Galaxeed/Unity/GridDataHexametric.cs:189-236 | A placed frame is the cell's frame moved by the row's offset. |
| GridHexametric.OddRowLeads | Assets/Galaxeed/Unity/GridDataHexametric.cs:189-236 | Rows with an even line counter start with an inserted copy of their first frame, shifted one step left. |
| GridHexametric.HexRowsShape | Assets/Galaxeed/Unity/GridDataHexametric.cs:187-253 | The frame rows are non-empty and none of them is empty, and row 0 is placed as the first row. |
| GridHexametric.OutlineShifts | Assets/Galaxeed/Unity/GridDataHexametric.cs:238-250 | Moving every frame moves the recomputed centre by the same vector. |
| GridHexametric.Frames | Assets/Galaxeed/Unity/GridDataHexametric.cs:187-253 | Absent exactly when frame (0, 0) is missing, and failing when the grid centre does. Otherwise the rows are non-empty and their recomputed centre is the grid centre. |
| GridHexametric.PlaceFrame | Assets/Galaxeed/Unity/GridDataHexametric.cs:189-236 | Places one frame. |
| GridHexametric.PlaceRow | Assets/Galaxeed/Unity/GridDataHexametric.cs:189-236 | The row loop places every frame and inserts the leading copy. |
| GridHexametric.GetFrames | Assets/Galaxeed/Unity/GridDataHexametric.cs:187-253 | Returns `Frames`. |
| GridHexametric.FramesCenter | Assets/Galaxeed/Unity/GridDataHexametric.cs:255-266 | Empty when there are no frames. Otherwise one centre per frame. |
| GridHexametric.FlattenedFramesCenter | Assets/Galaxeed/Unity/GridDataHexametric.cs:268-273 | Its entries are exactly the frame centres. |
| GridHexametric.PointsAreVertices | Assets/Galaxeed/Unity/GridDataHexametric.cs:94-128 | Every emitted point is a vertex of its hexagon. |
| GridHexametric.FlattenedPoints | Assets/Galaxeed/Unity/GridDataHexametric.cs:94-128 | Fails with NullReference when there are no frames, and otherwise fails exactly when the frames do. |
| GridHexametric.GetFlattenedPoints | Assets/Galaxeed/Unity/GridDataHexametric.cs:94-128 | The emitting loop returns those points. |
| GridHexametric.Lines | Assets/Galaxeed/Unity/GridDataHexametric.cs:275-325 | Fails with NullReference when there are no frames, and otherwise fails exactly when the frames do. |
| GridHexametric.GetLines | Assets/Galaxeed/Unity/GridDataHexametric.cs:275-325 | The emitting loop returns those lines. |
| GridHexametric.LinesAreHexagons | Assets/Galaxeed/Unity/GridDataHexametric.cs:275-325 | The lines come in closed cycles of six. |
| GridHexametric.HexagonsClose | Assets/Galaxeed/Unity/GridDataHexametric.cs:275-325 | Each frame's six edges run bottomCenter → bottomLeft → topLeft → topCenter → topRight → bottomRight → bottomCenter. |
| GridHexametric.GetLinesCenter | Assets/Galaxeed/Unity/GridDataHexametric.cs:327-340 | Fails as the lines do. Otherwise it gives one midpoint per line, in order. |
| Grid.LatticeRow | Assets/Galaxeed/Unity/GridData.cs:311-330 | A row has qx + 1 points, point x being the skewed lattice point. |
| Grid.Lattice | Assets/Galaxeed/Unity/GridData.cs:305-333 | The lattice has qy + 1 rows of qx + 1 points. Before skew, point (x, y) is (x/qx·MapSize.x, y/qy·MapSize.y). |
| Grid.LatticeCorners | Assets/Galaxeed/Unity/GridData.cs:305-333 | Without skew the lattice runs from (0, 0) to MapSize. |
| Grid.LatticeSpacing | Assets/Galaxeed/Unity/GridData.cs:305-333 | Neighbouring points in a row are MapSize.x/qx apart. |
| Grid.BuildLatticeRow | Assets/Galaxeed/Unity/GridData.cs:311-330 | The inner loop builds that row. |
| Grid.BuildLattice | Assets/Galaxeed/Unity/GridData.cs:305-333 | The nested loops build the lattice. |
| Grid.ShiftGrid | Assets/Galaxeed/Unity/GridData.cs:350-366 | Every point moves by the same vector, and the shape is kept. |
| Grid.ShiftGridCenter | Assets/Galaxeed/Unity/GridData.cs:350-366 | Shifting moves the centre by the vector, and shifting back restores the grid. |
| Grid.GenerateDrifts | Assets/Galaxeed/Unity/GridData.cs:297-366 | As written, a fresh lattice is moved by position − previous centre, so its centre is mid(0, MapSize) + position − previous. It equals position exactly when the previous centre was mid(0, MapSize). |
| Grid.FrameGrid | Assets/Galaxeed/Unity/GridData.cs:337-347 | One strategy frame (or none) per grid point, in the grid's shape. |
| Grid.BuildFrames | Assets/Galaxeed/Unity/GridData.cs:337-347 | The nested loops build that frame grid. |
| Grid.NearestIndexIsFirstLeast | Assets/Galaxeed/Unity/GridData.cs:368-386 | The chosen index has minimal squared distance, and no earlier point is as close. |
| Grid.NearestIsFirstLeast | Assets/Galaxeed/Unity/GridData.cs:368-386 | The nearest point is zero for no points. Otherwise it is the first point at minimal distance. |
| Grid.FirstWithin | Assets/Galaxeed/Unity/GridData.cs:424-439 | Nothing is found exactly when no point lies strictly within the resolution. |
| Grid.FirstWithinIsFirst | Assets/Galaxeed/Unity/GridData.cs:424-439 | A found point is the first one within the resolution. |
| Grid.Snap | Assets/Galaxeed/Unity/GridData.cs:424-439 | Gives the first point within the resolution. Otherwise it gives the nearest point when the fallback is set, and nothing when it is not. |
| Grid.FirstPresent | Assets/Galaxeed/Unity/GridData.cs:441-481 | Gives nothing exactly when every candidate is absent, and otherwise the first present candidate. |
| Grid.GridData.Initialyze | Assets/Galaxeed/Unity/GridData.cs:281-289 | Sets centre (0.5, 0.5), quantize (1, 1), tile size (1, 1) and map size (1, 1), consistently. |
| Grid.GridData.SetSelectedDataType | Assets/Galaxeed/Unity/GridData.cs:29-41 | Changes only the selected strategy. |
| Grid.GridData.Center | Assets/Galaxeed/Unity/GridData.cs:97-111 | The stored centre for empty data. Otherwise the midpoint of the first point of the first row and the last point of the last row, or a failure when either row is empty. |
| Grid.GridData.Quantize | Assets/Galaxeed/Unity/GridData.cs:115-141 | The getter subtracts 1 from y when hexametric. |
| Grid.GridData.SetQuantize | Assets/Galaxeed/Unity/GridData.cs:115-141 | Get after set returns the value set (the setter stores y + 1 when hexametric). MapSize becomes TileSize ⊙ stored quantize. |
| Grid.GridData.SetTileSize | Assets/Galaxeed/Unity/GridData.cs:145-158 | Stores the tile size and makes MapSize = TileSize ⊙ stored quantize. |
| Grid.GridData.SetMapSize | Assets/Galaxeed/Unity/GridData.cs:190-203 | Stores the map size and makes TileSize = MapSize ⊘ stored quantize. A zero quantize component fails with DivisionByZero. |
| Grid.GridData.Clear | Assets/Galaxeed/Unity/GridData.cs:291-295 | Empties data and frames and changes nothing else. |
| Grid.GridData.Move | Assets/Galaxeed/Unity/GridData.cs:350-366 | Moves every point by target − stored centre and stores target as the centre. |
| Grid.GridData.LayOut | Assets/Galaxeed/Unity/GridData.cs:305-347 | Builds the lattice, moves it and appends its frame grid. |
| Grid.GridData.Generate | Assets/Galaxeed/Unity/GridData.cs:297-348 | Same non-empty centre: nothing changes. Otherwise data and frames are cleared, the lattice is laid out moved by position − stored centre, and frames are appended. A zero quantize leaves data empty with a DivisionByZero failure. |
| Grid.GridData.MoveCentred | Assets/Galaxeed/Unity/GridData.cs:350-366 | The corrected move measures from the current centre, so afterwards `Center()` is the target. |
| Grid.GridData.LayOutCentred | Assets/Galaxeed/Unity/GridData.cs:305-347 | The corrected lay-out places the lattice's centre at the position. |
| Grid.GridData.GenerateCentred | Assets/Galaxeed/Unity/GridData.cs:297-348 | The corrected generate leaves `Center()` at the requested position whenever it succeeds (for a non-degenerate quantize). |
| Grid.GridData.SnapToNearestData | Assets/Galaxeed/Unity/GridData.cs:368-386 | The loop returns the first point at minimal distance, or zero for no points. |
| Grid.GridData.SnapToData | Assets/Galaxeed/Unity/GridData.cs:424-439 | The loop returns `Snap`. |
| Grid.GridData.SnapToSource | Assets/Galaxeed/Unity/GridData.cs:483-507 | Gives no candidate when the source's flag is off. Otherwise it snaps to the strategy's points, frame centres or line centres, with the nearest flag as fallback. |
| Grid.GridData.SnapTo | Assets/Galaxeed/Unity/GridData.cs:441-481 | Tries Point, Frame and Line in that order by the flag bits, and returns the first present result. |
| OptionRegistry.FirstIndex | Assets/Galaxeed/Options/Options.cs:85-101 | Nothing exactly when the key is absent. Otherwise the index of its first occurrence. |
| OptionRegistry.FirstIndexOfDistinct | Assets/Galaxeed/Options/Options.cs:85-101 | In a list of distinct names every name is found at its own index. |
| OptionRegistry.ContainsIffFound | Assets/Galaxeed/Options/Options.cs:72-101 | `Contains` and `ItemAtKey` agree: a key is present exactly when it is found. |
| OptionRegistry.DistinctAppend | Assets/Galaxeed/Options/Options.cs:55-64 | Adding a name that is not yet present keeps the names pairwise distinct. |
| OptionRegistry.FoundAppended | Assets/Galaxeed/Options/Options.cs:55-64 | A newly added name is found at the end. |
| OptionRegistry.FirstClash | Assets/Galaxeed/Options/Options.cs:66-70 | The index of the first name already present among the existing and earlier names, or the length when there is none. |
| OptionRegistry.ClashAt | Assets/Galaxeed/Options/Options.cs:66-70 | Below the end, an index is the first clash exactly when its name is already present. |
| OptionRegistry.FirstClashDistinct | Assets/Galaxeed/Options/Options.cs:66-70 | Distinct names stay distinct after adding every name up to the first clash. |
| OptionRegistry.NamesOf | Assets/Galaxeed/Options/Options.cs:72-83 | The names of the items, in order. |
| OptionRegistry.OptionItem.SetValue | Assets/Galaxeed/Options/OptionItem.cs:95-106 | An equal value changes nothing and notifies no one. A different value sets Value and IsDirty and notifies the owner once. DefaultValue follows the value, except for a random seed item (the override in SeedOptionItem.cs), which keeps its default through every write. |
| OptionRegistry.OptionItem.OnEnable | Assets/Galaxeed/Options/SeedOptionItem.cs:36-41 | Clears IsDirty (as in OptionItem.cs), and a seed item also becomes random. |
| OptionRegistry.OptionItem.Initialyze | Assets/Galaxeed/Options/OptionItem.cs:114-118 | Sets Value = DefaultValue = Min. |
| OptionRegistry.OptionItem.Reset | Assets/Galaxeed/Options/OptionItem.cs:120-124 | Only clears IsDirty; the value is kept. |
| OptionRegistry.Options.Names | Assets/Galaxeed/Options/Options.cs:72-83 | The item names, in order. |
| OptionRegistry.Options.OnOptionItemChanged | Assets/Galaxeed/Options/Options.cs:35-39 | Records one change notification. |
| OptionRegistry.Options.OnEnable | Assets/Galaxeed/Options/Options.cs:41-47 | Clears the dirty flag and keeps the existing items. |
| OptionRegistry.Options.SetIsDirty | Assets/Galaxeed/Options/Options.cs:16-31 | The setter can only clear the flag, so once clear it stays clear. |
| OptionRegistry.Options.Contains | Assets/Galaxeed/Options/Options.cs:72-83 | True exactly when an item has the key. |
| OptionRegistry.Options.ItemAtKey | Assets/Galaxeed/Options/Options.cs:85-101 | Returns the first item with the key, or null. |
| OptionRegistry.Options.Add | Assets/Galaxeed/Options/Options.cs:55-64 | Fails with DuplicateName exactly when the name is present, and then changes nothing. Otherwise it appends the item, makes this its owner and sets its value and default to Min. |
| OptionRegistry.Options.AddRange | Assets/Galaxeed/Options/Options.cs:66-70 | Adds in order up to the first duplicate, and keeps the earlier additions. Fails exactly when a duplicate is met. Each added item has this registry as owner and Min as value and default. An item from the first duplicate on that was not added before it is left unchanged. |

## Left out

- Floating point: every `float` is an exact real. Unity's approximate `==` on vectors is exact equality, and rounding in the fixed-step interval loop is not modelled.
- `FastSqrt`, `GoldenRatio` and `IsParallelLine` (bit reinterpretation, square root, float `Equals`) are not modelled.
- MathHelper.Factorial: int32 wrap-around beyond 12! is not modelled; integers are unbounded.
- Bezier.DerivationAtOne: for d below the last derivative index, the source's terms past index d are 0 · Pow(0, negative) = 0 · infinity, which is NaN in floats. The model's Pow gives 0 there, so the lemma states the exact-real value rather than the NaN the source returns. For d equal to the last index no such term arises.
- MathHelper.Pow: a negative exponent of base 0 gives 0 instead of infinity. It is reachable only through a zero binomial factor in `MoveByDerivation`.
- The `BezierCurve` and `PolyBezier` operations built on magnitudes, square roots, quaternions or Newton iteration are not modelled. These are lengths, tangents, normals, parallels, components, extremities, bounding boxes and circles, `GetIntervals`, `GetIntervalFromDistance`, the uniformised branch of `GetFlatenedIntervals`, `GetFlatened` and `operator *`.
- `PolyLine.DistanceBetweenLines` (magnitude) is not modelled.
- The C2 joins take the length ratio ‖q1−q0‖/‖p2−p3‖ as a function parameter.
- BezierOptions: the public setters of Order, Degree and Type are never used and are constants here. The throwing constructors are factory methods that return a failure.
- PolyBeziers: the stored curves are kept as a sequence of curve objects with a ghost record of the points as added. Aliasing between a curve passed to `Add(BezierCurve)` and the chain is excluded by precondition.
- Legendre: root values (cosine seeds and Newton convergence) are an abstract `rootOf` parameter. A weight that is not finite is a failure and is not cached; the source caches the infinity.
- NewtonRaphson: convergence is not claimed. The function and its derivative are parameters, and a zero derivative is a DivisionByZero failure where the source divides by zero.
- BinarySearch, Simpson: the integrand is a parameter, and a missing function is a NullReference failure.
- Grid: the strategies' `Resolution` getters and `SnapResolution` use square roots, so the snap resolution is a parameter and distances are compared squared.
- Grid.GridData.Move: `normalized * distance` is the plain difference vector. Unity zeroes differences shorter than 1e-5, which is not modelled.
- Grid.GridData.Generate: a zero quantize component makes the source divide by zero and produce NaN points. Here that is a DivisionByZero failure that leaves the data empty.
- Grid.GridData.SetMapSize: with a zero quantize component the source stores infinities in the tile size. Here that is a DivisionByZero failure that leaves the tile size unchanged.
- Grid: frames are values of a nine-field datatype instead of dictionaries. `MoveFrame` returns a moved frame, since every frame is a fresh dictionary and is never shared.
- `GetFlattenedLines`, `SnapToNearest`, the hexametric `Bounds` and the editor-facing members of the grid strategies are not modelled.
- The Unity lifecycle (`CreateInstance`, `OnDestroy`), events, gizmos, editors, `GridSystem`, `GridDisplay`, `Galaxeed` and the galaxy generators are not part of this model.
- OptionRegistry: the generic `TValue` is a single value datatype (integer, real, enum index). The seed variants are folded into `OptionItem` through its `seed` flag.
- OptionRegistry: the owner's change event is a notification counter. `GetRandom`, `ToInt`/`ToFloat`, the `Edit` methods and the `Editor` property (whose setter calls itself) are not modelled.
- OptionRegistry: the items list before `OnEnable` is empty rather than null, and item names are fixed at construction: the `Name` setter (OptionItem.cs:42-52) is not modelled, because renaming an item held by a registry could give it two items of one name.

## Findings

| source | as written | input that shows it | evidently intended | confidence | as-written member | corrected member |
|---|---|---|---|---|---|---|
| Assets/Galaxeed/Math/Geometries/BezierCurve.cs:201-205 | After the loop, `!t.Equals(1f)` tests the post-loop t, which is always above 1, so 1 is appended even when the last step already produced it | Resolution 1 (one segment) gives [0, 1, 1] | Append 1 only when the last step missed it, so the samples strictly increase | not executed | Bezier.FixedStepDuplicatesOne | Bezier.IntervalsShape |
| Assets/Galaxeed/Math/Geometries/PolyBezier.cs:22-28 | `CreateCurve` adds the points and reads `GetCurves()[0]`, but a full buffer is stored only when a further point arrives | exactly Order points, e.g. 4 points for a cubic, fail with an index error | Return the curve made of the first Order points | not executed | BezierChain.CreateCurveExactOrderFails | BezierChain.CreateCurveTakesFirstPoints |
| Assets/Galaxeed/Unity/GridData.cs:297-366 | `Generate` builds a fresh lattice (centred at mid(0, MapSize)) and calls `Move`, which shifts it by position − the stored centre of the previous grid | `Initialyze`, then `Generate((2,2))`, then `Generate((4,4))` leaves the centre at (2.5, 2.5) instead of (4, 4) | Shift the fresh lattice by position − its own centre, so the grid is centred at the position | not executed | Grid.GenerateDrifts | Grid.GridData.GenerateCentred |
