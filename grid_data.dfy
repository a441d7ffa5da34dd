/**
 * `GridData`: the tile grid itself.  It holds the lattice of points
 * (`data`, row by row), the frames built on it, the quantize / tile size /
 * map size triple kept consistent by change handlers, and the snapping
 * queries.  The layout-specific work is delegated to the strategy of the
 * selected data type (`GridRegular`, `GridAxonometric`, `GridHexametric`).
 */
module Grid {
  import opened Wrappers
  import opened Vectors
  import opened GridFrames
  import GridRegular
  import GridAxonometric
  import GridHexametric

  datatype DataType = Regular | Axonometric | Hexametric

  /** The bits of the `SnapType` flags. */
  const PointFlag: bv8 := 1
  const FrameFlag: bv8 := 2
  const LineFlag: bv8 := 4
  const NearestFlag: bv8 := 8

  // The strategy interface: each query answered by the strategy of the selected type.

  /** `GetFrameAt` of the strategy. */
  function StrategyFrameAt(kind: DataType, data: seq<seq<Vec2>>, x: int, y: int): Option<Frame> {
    match kind
    case Regular => GridRegular.FrameAt(data, x, y)
    case Axonometric => GridAxonometric.FrameAt(data, x, y)
    case Hexametric => GridHexametric.FrameAt(data, x, y)
  }

  /** `GetFlattenedPoints` of the strategy (the hexametric one throws without frames). */
  function StrategyPoints(kind: DataType, data: seq<seq<Vec2>>, stored: Vec2): Result<seq<Vec2>> {
    match kind
    case Regular => Success(GridRegular.FlattenedPoints(data))
    case Axonometric => Success(GridAxonometric.FlattenedPoints(data))
    case Hexametric => GridHexametric.FlattenedPoints(data, stored)
  }

  /** `GetFlattenedFramesCenter` of the strategy. */
  function StrategyFrameCenters(kind: DataType, data: seq<seq<Vec2>>, stored: Vec2): Result<seq<Vec2>> {
    match kind
    case Regular => Success(GridRegular.FlattenedFramesCenter(data))
    case Axonometric => Success(GridAxonometric.FlattenedFramesCenter(data))
    case Hexametric => GridHexametric.FlattenedFramesCenter(data, stored)
  }

  /** `GetLinesCenter` of the strategy. */
  function StrategyLineCenters(kind: DataType, data: seq<seq<Vec2>>, stored: Vec2): Result<seq<Vec2>> {
    match kind
    case Regular => Success(Midpoints(GridRegular.Lines(data)))
    case Axonometric => Success(Midpoints(GridAxonometric.Lines(data)))
    case Hexametric =>
      var lines := GridHexametric.Lines(data, stored);
      if lines.Failure? then Failure(lines.error) else Success(Midpoints(lines.value))
  }

  method GetFlattenedPoints(kind: DataType, data: seq<seq<Vec2>>, stored: Vec2) returns (r: Result<seq<Vec2>>)
    ensures r == StrategyPoints(kind, data, stored)
  {
    match kind
    case Regular => r := Success(GridRegular.FlattenedPoints(data));
    case Axonometric =>
      var points := GridAxonometric.GetFlattenedPoints(data);
      r := Success(points);
    case Hexametric => r := GridHexametric.GetFlattenedPoints(data, stored);
  }

  method GetFlattenedFramesCenter(kind: DataType, data: seq<seq<Vec2>>, stored: Vec2) returns (r: Result<seq<Vec2>>)
    ensures r == StrategyFrameCenters(kind, data, stored)
  {
    match kind
    case Regular => r := Success(GridRegular.FlattenedFramesCenter(data));
    case Axonometric =>
      var rows := GridAxonometric.GetFramesCenter(data);
      r := Success(Flatten(rows));
    case Hexametric => r := GridHexametric.FlattenedFramesCenter(data, stored);
  }

  method GetLinesCenter(kind: DataType, data: seq<seq<Vec2>>, stored: Vec2) returns (r: Result<seq<Vec2>>)
    ensures r == StrategyLineCenters(kind, data, stored)
  {
    match kind
    case Regular =>
      var centers := GridRegular.GetLinesCenter(data);
      r := Success(centers);
    case Axonometric =>
      var centers := GridAxonometric.GetLinesCenter(data);
      r := Success(centers);
    case Hexametric => r := GridHexametric.GetLinesCenter(data, stored);
  }

  // The lattice `Generate` lays out.

  /** The skew a coordinate gets: off the skip period once, or growing with the index when the skip is 0. */
  function Skew(skew: real, skip: int, i: int): real {
    if skip > 0 && i % skip != 0 then skew
    else if skip == 0 then skew * (i as real)
    else 0.0
  }

  /** Lattice coordinate i of q steps over a side of the given size, before any skew. */
  function Coordinate(i: int, q: int, size: real): real
    requires q != 0
  {
    (i as real) * (1.0 / (q as real)) * size
  }

  /** Point (x, y) of the lattice. */
  function LatticePoint(q: IntVec2, size: Vec2, skew: Vec2, skip: IntVec2, x: int, y: int): Vec2
    requires q.x != 0 && q.y != 0
  {
    Vec2(Coordinate(x, q.x, size.x) + Skew(skew.x, skip.x, y), Coordinate(y, q.y, size.y) + Skew(skew.y, skip.y, x))
  }

  /** A zero quantize with the loops running: some coordinate is 0 · (1 / 0), not a number. */
  predicate ZeroQuantize(q: IntVec2) {
    q.x >= 0 && q.y >= 0 && (q.x == 0 || q.y == 0)
  }

  /** Row y of the lattice: q.x + 1 points. */
  function LatticeRow(q: IntVec2, size: Vec2, skew: Vec2, skip: IntVec2, y: int): (r: seq<Vec2>)
    requires q.x != 0 && q.y != 0
    ensures |r| == if q.x >= 0 then q.x + 1 else 0
    ensures forall x :: 0 <= x < |r| ==> r[x] == LatticePoint(q, size, skew, skip, x, y)
  {
    seq(if q.x >= 0 then q.x + 1 else 0, x => LatticePoint(q, size, skew, skip, x, y))
  }

  /** The rows `Generate` builds: q.y + 1 rows of q.x + 1 points. */
  function Lattice(q: IntVec2, size: Vec2, skew: Vec2, skip: IntVec2): (r: seq<seq<Vec2>>)
    requires !ZeroQuantize(q)
    ensures |r| == if q.y >= 0 then q.y + 1 else 0
    ensures forall y :: 0 <= y < |r| ==> |r[y]| == if q.x >= 0 then q.x + 1 else 0
    ensures forall y, x :: 0 <= y < |r| && 0 <= x < |r[y]| ==> q.x != 0 && q.y != 0 && r[y][x] == LatticePoint(q, size, skew, skip, x, y)
  {
    if q.y < 0 then []
    else if q.x < 0 then seq(q.y + 1, y => [])
    else seq(q.y + 1, y => LatticeRow(q, size, skew, skip, y))
  }

  /** Without skew the lattice runs from the origin to the map size. */
  lemma LatticeCorners(q: IntVec2, size: Vec2, skip: IntVec2)
    requires q.x >= 1 && q.y >= 1
    ensures Lattice(q, size, Zero2, skip)[0][0] == Zero2
    ensures Lattice(q, size, Zero2, skip)[q.y][q.x] == size
  {
    assert Coordinate(q.x, q.x, size.x) == size.x;
    assert Coordinate(q.y, q.y, size.y) == size.y;
  }

  /** Neighbouring points of a row lie one tile width apart (the x skew depends on the row only). */
  lemma LatticeSpacing(q: IntVec2, size: Vec2, skew: Vec2, skip: IntVec2, x: int, y: int)
    requires q.x >= 1 && q.y >= 1 && 0 <= y <= q.y && 0 <= x < q.x
    ensures Lattice(q, size, skew, skip)[y][x + 1].x - Lattice(q, size, skew, skip)[y][x].x == size.x / (q.x as real)
  {
    var r := 1.0 / (q.x as real);
    assert Coordinate(x + 1, q.x, size.x) - Coordinate(x, q.x, size.x) == r * size.x;
  }

  /** The inner loop of `Generate`'s lattice: row y, point by point. */
  method BuildLatticeRow(q: IntVec2, size: Vec2, skew: Vec2, skip: IntVec2, y: int) returns (row: seq<Vec2>)
    requires q.x != 0 && q.y != 0
    ensures row == LatticeRow(q, size, skew, skip, y)
  {
    row := [];
    var x := 0;
    while x <= q.x
      invariant 0 <= x && (q.x >= 0 ==> x <= q.x + 1) && (q.x < 0 ==> x == 0)
      invariant |row| == x
      invariant forall k :: 0 <= k < x ==> row[k] == LatticePoint(q, size, skew, skip, k, y)
    {
      var px := Coordinate(x, q.x, size.x);
      var py := Coordinate(y, q.y, size.y);
      if skip.x > 0 && y % skip.x != 0 {
        px := px + skew.x;
      } else if skip.x == 0 {
        px := px + skew.x * (y as real);
      } else {
        px := px + 0.0;
      }
      if skip.y > 0 && x % skip.y != 0 {
        py := py + skew.y;
      } else if skip.y == 0 {
        py := py + skew.y * (x as real);
      } else {
        py := py + 0.0;
      }
      row := row + [Vec2(px, py)];
      x := x + 1;
    }
  }

  /** The two nested loops of `Generate` that lay out the lattice. */
  method BuildLattice(q: IntVec2, size: Vec2, skew: Vec2, skip: IntVec2) returns (rows: seq<seq<Vec2>>)
    requires !ZeroQuantize(q)
    ensures rows == Lattice(q, size, skew, skip)
  {
    rows := [];
    var y := 0;
    while y <= q.y
      invariant 0 <= y && (q.y >= 0 ==> y <= q.y + 1) && (q.y < 0 ==> y == 0)
      invariant |rows| == y
      invariant forall k :: 0 <= k < y ==> rows[k] == Lattice(q, size, skew, skip)[k]
    {
      var row: seq<Vec2> := [];
      if q.x >= 0 {
        row := BuildLatticeRow(q, size, skew, skip, y);
      }
      rows := rows + [row];
      y := y + 1;
    }
  }

  /** Every point moved by v. */
  function ShiftGrid(data: seq<seq<Vec2>>, v: Vec2): (r: seq<seq<Vec2>>)
    ensures |r| == |data|
    ensures forall i :: 0 <= i < |data| ==> |r[i]| == |data[i]|
    ensures forall i, j :: 0 <= i < |data| && 0 <= j < |data[i]| ==> r[i][j] == data[i][j].Add(v)
  {
    seq(|data|, i requires 0 <= i < |data| => seq(|data[i]|, j requires 0 <= j < |data[i]| => data[i][j].Add(v)))
  }

  /** Moving every point moves the grid's centre along; moving back restores every point. */
  lemma ShiftGridCenter(data: seq<seq<Vec2>>, stored: Vec2, v: Vec2)
    requires data != [] && GridCenter(data, stored).Success?
    ensures GridCenter(ShiftGrid(data, v), stored) == Success(GridCenter(data, stored).value.Add(v))
    ensures ShiftGrid(ShiftGrid(data, v), v.Scale(-1.0)) == data
  {
    var last := |data| - 1;
    MidShifts(data[0][0], data[last][|data[last]| - 1], v);
    var back := ShiftGrid(ShiftGrid(data, v), v.Scale(-1.0));
    forall i, j | 0 <= i < |data| && 0 <= j < |data[i]|
      ensures back[i][j] == data[i][j]
    {
      assert back[i][j] == data[i][j].Add(v).Add(v.Scale(-1.0));
    }
    forall i | 0 <= i < |data|
      ensures back[i] == data[i]
    {
    }
  }

  /**
   * As written, `Generate` moves the fresh lattice by the step from the
   * stored centre to the position, and that stored centre is the position
   * of the previous `Generate`, not the centre of the lattice.  Without
   * skew, generating at `previous` and then at `position` leaves the grid
   * centred at half the map size plus the step between the two: on the
   * position itself only when `previous` is half the map size.
   */
  lemma GenerateDrifts(q: IntVec2, size: Vec2, skip: IntVec2, previous: Vec2, position: Vec2)
    requires q.x >= 1 && q.y >= 1
    ensures GridCenter(ShiftGrid(Lattice(q, size, Zero2, skip), position.Sub(previous)), position) ==
      Success(Mid(Zero2, size).Add(position.Sub(previous)))
    ensures GridCenter(ShiftGrid(Lattice(q, size, Zero2, skip), position.Sub(previous)), position) == Success(position) <==>
      previous == Mid(Zero2, size)
  {
    var lattice := Lattice(q, size, Zero2, skip);
    LatticeCorners(q, size, skip);
    assert GridCenter(lattice, position) == Success(Mid(Zero2, size));
    ShiftGridCenter(lattice, position, position.Sub(previous));
  }

  /** The frame rows `Generate` builds: the strategy's frame (or null) at every point. */
  function FrameGrid(kind: DataType, data: seq<seq<Vec2>>): (r: seq<seq<Option<Frame>>>)
    ensures |r| == |data|
    ensures forall y :: 0 <= y < |data| ==> |r[y]| == |data[y]|
    ensures forall y, x :: 0 <= y < |data| && 0 <= x < |data[y]| ==> r[y][x] == StrategyFrameAt(kind, data, x, y)
  {
    seq(|data|, y requires 0 <= y < |data| => seq(|data[y]|, x requires 0 <= x < |data[y]| => StrategyFrameAt(kind, data, x, y)))
  }

  /** The last two nested loops of `Generate`. */
  method BuildFrames(kind: DataType, data: seq<seq<Vec2>>) returns (rows: seq<seq<Option<Frame>>>)
    ensures rows == FrameGrid(kind, data)
  {
    rows := [];
    for y := 0 to |data|
      invariant |rows| == y
      invariant forall k :: 0 <= k < y ==> rows[k] == FrameGrid(kind, data)[k]
    {
      var row := [];
      for x := 0 to |data[y]|
        invariant |row| == x
        invariant forall k :: 0 <= k < x ==> row[k] == StrategyFrameAt(kind, data, k, y)
      {
        row := row + [StrategyFrameAt(kind, data, x, y)];
      }
      rows := rows + [row];
    }
  }

  // Snapping.

  /** The index `SnapToNearestData`'s loop keeps after the first k points: the first one at the least distance. */
  function NearestIndex(position: Vec2, points: seq<Vec2>, k: int): (i: int)
    requires 1 <= k <= |points|
    ensures 0 <= i < k
    decreases k
  {
    if k == 1 then 0
    else
      var i := NearestIndex(position, points, k - 1);
      if SqrDistance(position, points[k - 1]) < SqrDistance(position, points[i]) then k - 1 else i
  }

  /** What `SnapToNearestData` returns: the nearest point, or zero for no point. */
  function Nearest(position: Vec2, points: seq<Vec2>): Vec2 {
    if points == [] then Zero2 else points[NearestIndex(position, points, |points|)]
  }

  /** The kept index is at the least distance of all k points, and strictly nearer than every point before it. */
  lemma {:induction false} NearestIndexIsFirstLeast(position: Vec2, points: seq<Vec2>, k: int)
    requires 1 <= k <= |points|
    ensures var i := NearestIndex(position, points, k);
      (forall j :: 0 <= j < k ==> SqrDistance(position, points[i]) <= SqrDistance(position, points[j])) &&
      (forall j :: 0 <= j < i ==> SqrDistance(position, points[j]) > SqrDistance(position, points[i]))
    decreases k
  {
    if k > 1 {
      NearestIndexIsFirstLeast(position, points, k - 1);
    }
  }

  /** `SnapToNearestData` picks the first point at the least distance; for no point, zero. */
  lemma NearestIsFirstLeast(position: Vec2, points: seq<Vec2>)
    ensures points == [] ==> Nearest(position, points) == Zero2
    ensures points != [] ==> exists i :: (0 <= i < |points| && Nearest(position, points) == points[i] &&
      (forall j :: 0 <= j < |points| ==> SqrDistance(position, points[i]) <= SqrDistance(position, points[j])) &&
      (forall j :: 0 <= j < i ==> SqrDistance(position, points[j]) > SqrDistance(position, points[i])))
  {
    if points != [] {
      var i := NearestIndex(position, points, |points|);
      NearestIndexIsFirstLeast(position, points, |points|);
      assert Nearest(position, points) == points[i];
    }
  }

  /**
   * Distance below the snap resolution.  With d the squared distance,
   * sqrt(d) < res holds exactly when res > 0 and d < res².
   */
  predicate Within(position: Vec2, p: Vec2, resolution: real) {
    resolution > 0.0 && SqrDistance(position, p) < resolution * resolution
  }

  /** The first of the points from index k on within the resolution. */
  function FirstWithin(position: Vec2, points: seq<Vec2>, resolution: real, k: nat): (r: Option<Vec2>)
    requires k <= |points|
    ensures r.None? <==> forall j :: k <= j < |points| ==> !Within(position, points[j], resolution)
    decreases |points| - k
  {
    if k == |points| then None
    else if Within(position, points[k], resolution) then Some(points[k])
    else FirstWithin(position, points, resolution, k + 1)
  }

  /** A point it returns is the first within the resolution. */
  lemma {:induction false} FirstWithinIsFirst(position: Vec2, points: seq<Vec2>, resolution: real, k: nat)
    requires k <= |points| && FirstWithin(position, points, resolution, k).Some?
    ensures exists i :: (k <= i < |points| && FirstWithin(position, points, resolution, k) == Some(points[i]) &&
      Within(position, points[i], resolution) &&
      forall j :: k <= j < i ==> !Within(position, points[j], resolution))
    decreases |points| - k
  {
    if Within(position, points[k], resolution) {
      assert FirstWithin(position, points, resolution, k) == Some(points[k]);
    } else {
      FirstWithinIsFirst(position, points, resolution, k + 1);
      var i :| k + 1 <= i < |points| && FirstWithin(position, points, resolution, k + 1) == Some(points[i]) &&
        Within(position, points[i], resolution) &&
        forall j :: k + 1 <= j < i ==> !Within(position, points[j], resolution);
      assert FirstWithin(position, points, resolution, k) == Some(points[i]);
    }
  }

  /** What `SnapToData` returns. */
  function Snap(position: Vec2, points: seq<Vec2>, fallback: bool, resolution: real): (r: Option<Vec2>)
    ensures (exists j :: 0 <= j < |points| && Within(position, points[j], resolution)) ==>
      r == FirstWithin(position, points, resolution, 0) && r.Some?
    ensures (forall j :: 0 <= j < |points| ==> !Within(position, points[j], resolution)) ==>
      r == if fallback then Some(Nearest(position, points)) else None
  {
    var first := FirstWithin(position, points, resolution, 0);
    if first.Some? then first else if fallback then Some(Nearest(position, points)) else None
  }

  /** The first value present, in order. */
  function FirstPresent(candidates: seq<Option<Vec2>>): (r: Option<Vec2>)
    ensures r.None? <==> forall i :: 0 <= i < |candidates| ==> candidates[i].None?
    ensures r.Some? ==> exists i :: (0 <= i < |candidates| && candidates[i] == r &&
      forall j :: 0 <= j < i ==> candidates[j].None?)
  {
    if candidates == [] then None
    else if candidates[0].Some? then candidates[0]
    else
      var r := FirstPresent(candidates[1..]);
      assert forall i :: 1 <= i < |candidates| ==> candidates[i] == candidates[1..][i - 1];
      r
  }

  /** The three snapping sources of `SnapTo`, in the order it consults them. */
  datatype Source = PointSource | FrameSource | LineSource

  /** The flag that enables a source. */
  function SourceFlag(source: Source): bv8 {
    match source
    case PointSource => PointFlag
    case FrameSource => FrameFlag
    case LineSource => LineFlag
  }

  /** The points a source offers, from the strategy of the selected type. */
  function SourcePoints(source: Source, kind: DataType, data: seq<seq<Vec2>>, stored: Vec2): Result<seq<Vec2>> {
    match source
    case PointSource => StrategyPoints(kind, data, stored)
    case FrameSource => StrategyFrameCenters(kind, data, stored)
    case LineSource => StrategyLineCenters(kind, data, stored)
  }

  method GetSourcePoints(source: Source, kind: DataType, data: seq<seq<Vec2>>, stored: Vec2) returns (r: Result<seq<Vec2>>)
    ensures r == SourcePoints(source, kind, data, stored)
  {
    match source
    case PointSource => r := GetFlattenedPoints(kind, data, stored);
    case FrameSource => r := GetFlattenedFramesCenter(kind, data, stored);
    case LineSource => r := GetLinesCenter(kind, data, stored);
  }

  /** One snapping source: nothing when its flag is clear, the failure of a throwing strategy, else its snap. */
  function Candidate(source: Source, kind: DataType, flags: bv8, data: seq<seq<Vec2>>, stored: Vec2, position: Vec2, resolution: real): Result<seq<Option<Vec2>>> {
    if flags & SourceFlag(source) == 0 then Success([])
    else
      var points := SourcePoints(source, kind, data, stored);
      if points.Failure? then Failure(points.error)
      else Success([Snap(position, points.value, flags & NearestFlag != 0, resolution)])
  }

  /** The candidates of `SnapTo`, in the order Point, Frame, Line; the first failure aborts. */
  function Candidates(kind: DataType, flags: bv8, data: seq<seq<Vec2>>, stored: Vec2, position: Vec2, resolution: real): Result<seq<Option<Vec2>>> {
    var p := Candidate(PointSource, kind, flags, data, stored, position, resolution);
    if p.Failure? then p
    else
      var f := Candidate(FrameSource, kind, flags, data, stored, position, resolution);
      if f.Failure? then f
      else
        var l := Candidate(LineSource, kind, flags, data, stored, position, resolution);
        if l.Failure? then l else Success(p.value + f.value + l.value)
  }

  class GridData {
    var selectedDataType: DataType
    var selectedSnapType: bv8
    var data: seq<seq<Vec2>>
    var frames: seq<seq<Option<Frame>>>
    var center: Vec2
    var quantize: IntVec2
    var tileSize: Vec2
    var tileSkew: Vec2
    var tileSkewSkip: IntVec2
    var mapSize: Vec2

    /** The map is exactly quantize tiles of the tile size, per axis. */
    predicate SizesAgree()
      reads this
    {
      mapSize == Vec2(tileSize.x * (quantize.x as real), tileSize.y * (quantize.y as real))
    }

    /** A new grid, as `OnEnable` leaves it: no rows, no frames, every other field at its default. */
    constructor()
      ensures data == [] && frames == []
      ensures selectedDataType == Regular && selectedSnapType == 0
      ensures center == Zero2 && quantize == IntVec2(0, 0) && tileSize == Zero2
      ensures tileSkew == Zero2 && tileSkewSkip == IntVec2(0, 0) && mapSize == Zero2
    {
      data, frames := [], [];
      selectedDataType, selectedSnapType := Regular, 0;
      center, quantize, tileSize := Zero2, IntVec2(0, 0), Zero2;
      tileSkew, tileSkewSkip, mapSize := Zero2, IntVec2(0, 0), Zero2;
    }

    /** `Initialyze`: a 1×1 map of one unit tile centred at (0.5, 0.5), with no skew. */
    method Initialyze()
      modifies this
      ensures center == Vec2(0.5, 0.5) && quantize == IntVec2(1, 1) && tileSize == Vec2(1.0, 1.0)
      ensures tileSkew == Zero2 && tileSkewSkip == IntVec2(0, 0) && mapSize == Vec2(1.0, 1.0)
      ensures SizesAgree()
      ensures data == old(data) && frames == old(frames)
      ensures selectedDataType == old(selectedDataType) && selectedSnapType == old(selectedSnapType)
    {
      center := Vec2(0.5, 0.5);
      quantize := IntVec2(1, 1);
      tileSize := Vec2(1.0, 1.0);
      tileSkew := Zero2;
      tileSkewSkip := IntVec2(0, 0);
      mapSize := Vec2(1.0, 1.0);
    }

    /** `SelectedDataType` setter: the strategy follows the type. */
    method SetSelectedDataType(kind: DataType)
      modifies this
      ensures selectedDataType == kind
      ensures data == old(data) && frames == old(frames) && center == old(center) && quantize == old(quantize)
      ensures tileSize == old(tileSize) && mapSize == old(mapSize) && tileSkew == old(tileSkew)
      ensures tileSkewSkip == old(tileSkewSkip) && selectedSnapType == old(selectedSnapType)
    {
      selectedDataType := kind;
    }

    /** The `Center` getter. */
    function Center(): (r: Result<Vec2>)
      reads this
      ensures data == [] ==> r == Success(center)
      ensures r.Failure? <==> data != [] && (data[0] == [] || data[|data| - 1] == [])
      ensures r.Success? && data != [] ==> r.value == Mid(data[0][0], data[|data| - 1][|data[|data| - 1]| - 1])
    {
      GridCenter(data, center)
    }

    /** The `Quantize` getter: a hexametric grid stores one row more than it shows. */
    function Quantize(): (r: IntVec2)
      reads this
      ensures selectedDataType != Hexametric ==> r == quantize
      ensures selectedDataType == Hexametric ==> r.x == quantize.x && r.y + 1 == quantize.y
    {
      if selectedDataType == Hexametric then IntVec2(quantize.x, quantize.y - 1) else quantize
    }

    /** The `Quantize` setter and its handler: the map size follows the stored quantize. */
    method SetQuantize(v: IntVec2)
      modifies this
      ensures Quantize() == v
      ensures quantize == if selectedDataType == Hexametric then IntVec2(v.x, v.y + 1) else v
      ensures SizesAgree()
      ensures tileSize == old(tileSize) && data == old(data) && frames == old(frames) && center == old(center)
      ensures tileSkew == old(tileSkew) && tileSkewSkip == old(tileSkewSkip)
      ensures selectedDataType == old(selectedDataType) && selectedSnapType == old(selectedSnapType)
    {
      var q := v;
      if selectedDataType == Hexametric {
        q := IntVec2(q.x, q.y + 1);
      }
      quantize := q;
      mapSize := Vec2(tileSize.x * (quantize.x as real), tileSize.y * (quantize.y as real));
    }

    /** The `TileSize` setter and its handler: the map size follows. */
    method SetTileSize(v: Vec2)
      modifies this
      ensures tileSize == v && SizesAgree()
      ensures quantize == old(quantize) && data == old(data) && frames == old(frames) && center == old(center)
      ensures tileSkew == old(tileSkew) && tileSkewSkip == old(tileSkewSkip)
      ensures selectedDataType == old(selectedDataType) && selectedSnapType == old(selectedSnapType)
    {
      tileSize := v;
      mapSize := Vec2(tileSize.x * (quantize.x as real), tileSize.y * (quantize.y as real));
    }

    /**
     * The `MapSize` setter and its handler: the tile size becomes the map
     * size divided by the stored quantize; a zero quantize gives no finite
     * tile size.
     */
    method SetMapSize(v: Vec2) returns (o: Outcome)
      modifies this
      ensures mapSize == v
      ensures o.Fail? <==> quantize.x == 0 || quantize.y == 0
      ensures o.Fail? ==> o.error == DivisionByZero && tileSize == old(tileSize)
      ensures o.Pass? ==> tileSize == Vec2(v.x / (quantize.x as real), v.y / (quantize.y as real)) && SizesAgree()
      ensures quantize == old(quantize) && data == old(data) && frames == old(frames) && center == old(center)
      ensures tileSkew == old(tileSkew) && tileSkewSkip == old(tileSkewSkip)
      ensures selectedDataType == old(selectedDataType) && selectedSnapType == old(selectedSnapType)
    {
      mapSize := v;
      if quantize.x == 0 || quantize.y == 0 {
        return Fail(DivisionByZero);
      }
      tileSize := Vec2(mapSize.x / (quantize.x as real), mapSize.y / (quantize.y as real));
      return Pass;
    }

    /** `Clear`: no rows and no frames. */
    method Clear()
      modifies this
      ensures data == [] && frames == []
      ensures center == old(center) && quantize == old(quantize) && tileSize == old(tileSize) && mapSize == old(mapSize)
      ensures tileSkew == old(tileSkew) && tileSkewSkip == old(tileSkewSkip)
      ensures selectedDataType == old(selectedDataType) && selectedSnapType == old(selectedSnapType)
    {
      data := [];
      frames := [];
    }

    /** `Move`: every point moved by the step from the stored centre to the target, which becomes the stored centre. */
    method Move(target: Vec2)
      modifies this
      ensures data == ShiftGrid(old(data), target.Sub(old(center)))
      ensures center == target
      ensures frames == old(frames) && quantize == old(quantize) && tileSize == old(tileSize) && mapSize == old(mapSize)
      ensures tileSkew == old(tileSkew) && tileSkewSkip == old(tileSkewSkip)
      ensures selectedDataType == old(selectedDataType) && selectedSnapType == old(selectedSnapType)
    {
      var step := target.Sub(center);
      ghost var before := data;
      var i := 0;
      while i < |data|
        invariant 0 <= i <= |data| == |before|
        invariant forall k :: 0 <= k < i ==> data[k] == ShiftGrid(before, step)[k]
        invariant forall k :: i <= k < |data| ==> data[k] == before[k]
        invariant center == old(center) && frames == old(frames) && quantize == old(quantize)
        invariant tileSize == old(tileSize) && mapSize == old(mapSize)
        invariant tileSkew == old(tileSkew) && tileSkewSkip == old(tileSkewSkip)
        invariant selectedDataType == old(selectedDataType) && selectedSnapType == old(selectedSnapType)
      {
        var j := 0;
        while j < |data[i]|
          invariant i < |data|
          invariant 0 <= j <= |data[i]| == |before[i]|
          invariant |data| == |before|
          invariant forall k :: 0 <= k < i ==> data[k] == ShiftGrid(before, step)[k]
          invariant forall k :: i < k < |data| ==> data[k] == before[k]
          invariant forall k :: 0 <= k < j ==> data[i][k] == before[i][k].Add(step)
          invariant forall k :: j <= k < |data[i]| ==> data[i][k] == before[i][k]
          invariant center == old(center) && frames == old(frames) && quantize == old(quantize)
          invariant tileSize == old(tileSize) && mapSize == old(mapSize)
          invariant tileSkew == old(tileSkew) && tileSkewSkip == old(tileSkewSkip)
          invariant selectedDataType == old(selectedDataType) && selectedSnapType == old(selectedSnapType)
        {
          data := data[i := data[i][j := data[i][j].Add(step)]];
          j := j + 1;
        }
        assert data[i] == ShiftGrid(before, step)[i];
        i := i + 1;
      }
      center := target;
    }

    /**
     * The body of `Generate` on a cleared grid: the lattice laid out and
     * moved by the step from the stored centre to the position, and the
     * strategy's frame (or null) at every point appended to the frame rows.
     */
    method LayOut(position: Vec2)
      requires data == [] && !ZeroQuantize(quantize)
      modifies this
      ensures quantize == old(quantize) && tileSize == old(tileSize) && mapSize == old(mapSize)
      ensures tileSkew == old(tileSkew) && tileSkewSkip == old(tileSkewSkip)
      ensures selectedDataType == old(selectedDataType) && selectedSnapType == old(selectedSnapType)
      ensures data == ShiftGrid(Lattice(quantize, mapSize, tileSkew, tileSkewSkip), position.Sub(old(center)))
      ensures center == position && frames == old(frames) + FrameGrid(selectedDataType, data)
    {
      var rows := BuildLattice(quantize, mapSize, tileSkew, tileSkewSkip);
      data := data + rows;
      Move(position);
      var added := BuildFrames(selectedDataType, data);
      frames := frames + added;
    }

    /**
     * `Generate`: when the centre differs from the position the grid is
     * cleared first; a grid that still has rows is left alone.  Otherwise
     * the lattice is laid out by `LayOut`.  The `Center` getter throwing,
     * or a zero quantize, is a failure that changes nothing more.
     */
    method Generate(position: Vec2) returns (o: Outcome)
      modifies this
      ensures GridCenter(old(data), old(center)).Failure? ==>
        o == Fail(EmptySequence) && data == old(data) && frames == old(frames) && center == old(center)
      ensures GridCenter(old(data), old(center)) == Success(position) && old(data) != [] ==>
        o == Pass && data == old(data) && frames == old(frames) && center == old(center)
      ensures GridCenter(old(data), old(center)).Success? && (GridCenter(old(data), old(center)).value != position || old(data) == []) ==>
        var kept := if GridCenter(old(data), old(center)).value != position then [] else old(frames);
        if ZeroQuantize(quantize) then
          o == Fail(DivisionByZero) && data == [] && frames == kept && center == old(center)
        else
          o == Pass && center == position &&
          data == ShiftGrid(Lattice(quantize, mapSize, tileSkew, tileSkewSkip), position.Sub(old(center))) &&
          frames == kept + FrameGrid(selectedDataType, data)
      ensures quantize == old(quantize) && tileSize == old(tileSize) && mapSize == old(mapSize)
      ensures tileSkew == old(tileSkew) && tileSkewSkip == old(tileSkewSkip)
      ensures selectedDataType == old(selectedDataType) && selectedSnapType == old(selectedSnapType)
    {
      var c := Center();
      if c.Failure? {
        return Fail(c.error);
      }
      if c.value != position {
        Clear();
      }
      if |data| > 0 {
        return Pass;
      }
      if ZeroQuantize(quantize) {
        return Fail(DivisionByZero);
      }
      LayOut(position);
      return Pass;
    }

    /**
     * `Move` as evidently intended: the step is measured from the grid's
     * centre as the `Center` getter reports it, so that centre lands on the
     * target.
     */
    method MoveCentred(target: Vec2)
      modifies this
      ensures GridCenter(old(data), old(center)).Success? ==>
        data == ShiftGrid(old(data), target.Sub(GridCenter(old(data), old(center)).value)) && Center() == Success(target)
      ensures GridCenter(old(data), old(center)).Failure? ==> data == ShiftGrid(old(data), target.Sub(old(center)))
      ensures center == target
      ensures frames == old(frames) && quantize == old(quantize) && tileSize == old(tileSize) && mapSize == old(mapSize)
      ensures tileSkew == old(tileSkew) && tileSkewSkip == old(tileSkewSkip)
      ensures selectedDataType == old(selectedDataType) && selectedSnapType == old(selectedSnapType)
    {
      var c := Center();
      if c.Success? {
        if data != [] {
          ShiftGridCenter(data, center, target.Sub(c.value));
          ShiftGridCenter(data, target, target.Sub(c.value));
        }
        center := c.value;
      }
      Move(target);
    }

    /** `LayOut` with the lattice moved by `MoveCentred`. */
    method LayOutCentred(position: Vec2)
      requires data == [] && !ZeroQuantize(quantize)
      modifies this
      ensures quantize == old(quantize) && tileSize == old(tileSize) && mapSize == old(mapSize)
      ensures tileSkew == old(tileSkew) && tileSkewSkip == old(tileSkewSkip)
      ensures selectedDataType == old(selectedDataType) && selectedSnapType == old(selectedSnapType)
      ensures GridCenter(Lattice(quantize, mapSize, tileSkew, tileSkewSkip), old(center)).Success? ==> Center() == Success(position)
      ensures center == position && frames == old(frames) + FrameGrid(selectedDataType, data)
    {
      var rows := BuildLattice(quantize, mapSize, tileSkew, tileSkewSkip);
      data := data + rows;
      MoveCentred(position);
      var added := BuildFrames(selectedDataType, data);
      frames := frames + added;
    }

    /**
     * `Generate` as evidently intended: it ends with the grid centred on the
     * position (unless the lattice has rows without points, where the
     * `Center` getter throws), so a second call with the same position
     * leaves the grid alone.
     */
    method GenerateCentred(position: Vec2) returns (o: Outcome)
      modifies this
      ensures GridCenter(old(data), old(center)).Failure? ==>
        o == Fail(EmptySequence) && data == old(data) && frames == old(frames) && center == old(center)
      ensures o.Fail? ==> o.error == EmptySequence || (o.error == DivisionByZero && ZeroQuantize(quantize) && data == [])
      ensures o.Pass? && !(quantize.x < 0 <= quantize.y) ==> Center() == Success(position)
      ensures quantize == old(quantize) && tileSize == old(tileSize) && mapSize == old(mapSize)
      ensures tileSkew == old(tileSkew) && tileSkewSkip == old(tileSkewSkip)
      ensures selectedDataType == old(selectedDataType) && selectedSnapType == old(selectedSnapType)
    {
      var c := Center();
      if c.Failure? {
        return Fail(c.error);
      }
      if c.value != position {
        Clear();
      }
      if |data| > 0 {
        return Pass;
      }
      if ZeroQuantize(quantize) {
        return Fail(DivisionByZero);
      }
      ghost var lattice := Lattice(quantize, mapSize, tileSkew, tileSkewSkip);
      assert !(quantize.x < 0 <= quantize.y) ==> lattice == [] || (lattice[0] != [] && lattice[|lattice| - 1] != []);
      LayOutCentred(position);
      return Pass;
    }

    /** `SnapToNearestData`: the first point at the least distance, or zero for no point. */
    method SnapToNearestData(position: Vec2, points: seq<Vec2>) returns (r: Vec2)
      ensures r == Nearest(position, points)
    {
      var min: Option<real> := None;
      r := Zero2;
      ghost var k := 0;
      for i := 0 to |points|
        invariant i == 0 ==> min.None? && r == Zero2
        invariant i > 0 ==> (0 <= k < i && k == NearestIndex(position, points, i) &&
          r == points[k] && min == Some(SqrDistance(position, points[k])))
      {
        var distance := SqrDistance(position, points[i]);
        if min.None? || distance < min.value {
          min := Some(distance);
          r := points[i];
          k := i;
        }
      }
    }

    /** `SnapToData`: the first point within the snap resolution; failing that, the nearest point when falling back, else none (null). */
    method SnapToData(position: Vec2, points: seq<Vec2>, fallback: bool, resolution: real) returns (r: Option<Vec2>)
      ensures r == Snap(position, points, fallback, resolution)
    {
      for i := 0 to |points|
        invariant FirstWithin(position, points, resolution, i) == FirstWithin(position, points, resolution, 0)
      {
        if Within(position, points[i], resolution) {
          return Some(points[i]);
        }
      }
      if fallback {
        var nearest := SnapToNearestData(position, points);
        return Some(nearest);
      }
      return None;
    }

    /** One source of `SnapTo`: the strategy is asked only when the flag is set. */
    method SnapToSource(source: Source, position: Vec2, resolution: real) returns (r: Result<seq<Option<Vec2>>>)
      ensures r == Candidate(source, selectedDataType, selectedSnapType, data, center, position, resolution)
    {
      var flags, kind := selectedSnapType, selectedDataType;
      if flags & SourceFlag(source) == 0 {
        return Success([]);
      }
      var points := GetSourcePoints(source, kind, data, center);
      if points.Failure? {
        return Failure(points.error);
      }
      var p := SnapToData(position, points.value, flags & NearestFlag != 0, resolution);
      return Success([p]);
    }

    /**
     * `SnapTo`: snaps to points, frame centres and edge midpoints as the
     * flags select, in that order, falling back to the nearest when the
     * Nearest flag is set; the first snap found wins.
     */
    method SnapTo(position: Vec2, resolution: real) returns (r: Result<Option<Vec2>>)
      ensures var cs := Candidates(selectedDataType, selectedSnapType, data, center, position, resolution);
        r == if cs.Failure? then Failure(cs.error) else Success(FirstPresent(cs.value))
    {
      var p := SnapToSource(PointSource, position, resolution);
      if p.Failure? {
        return Failure(p.error);
      }
      var f := SnapToSource(FrameSource, position, resolution);
      if f.Failure? {
        return Failure(f.error);
      }
      var l := SnapToSource(LineSource, position, resolution);
      if l.Failure? {
        return Failure(l.error);
      }
      return Success(FirstPresent(p.value + f.value + l.value));
    }
  }
}
