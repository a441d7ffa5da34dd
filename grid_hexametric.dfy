/**
 * `GridDataHexametric`: the strategy for a hexagonal grid.  A hexagon
 * spans two cells of the lattice stacked one on the other; its six
 * vertices are the midpoints of the stack's outer sides.  The frames of the
 * lattice overlap, so `GetFrames` slides each row up by its index and every
 * other row half a hexagon to the right, then moves the whole tiling so
 * that its outline is centred on the grid's centre.
 */
module GridHexametric {
  import opened Wrappers
  import opened Vectors
  import opened GridFrames

  /** Rows y, y + 1 and y + 2 all hold the columns x and x + 1. */
  predicate HasHexCell(data: seq<seq<Vec2>>, x: int, y: int) {
    0 <= y && y + 2 < |data| && 0 <= x &&
    x + 1 < |data[y]| && x + 1 < |data[y + 1]| && x + 1 < |data[y + 2]|
  }

  /** `GetFrameAt`: the hexagon over the two cells stacked at (x, y), or none (null) where an index is out of range. */
  function FrameAt(data: seq<seq<Vec2>>, x: int, y: int): (r: Option<Frame>)
    ensures r.Some? <==> HasHexCell(data, x, y)
    ensures r.Some? ==>
      r.value.bottomCenter == Mid(data[y][x + 1], data[y][x]) &&
      r.value.bottomLeft == Mid(data[y][x], data[y + 1][x]) &&
      r.value.topLeft == Mid(data[y + 1][x], data[y + 2][x]) &&
      r.value.topCenter == Mid(data[y + 2][x], data[y + 2][x + 1]) &&
      r.value.topRight == Mid(data[y + 2][x + 1], data[y + 1][x + 1]) &&
      r.value.bottomRight == Mid(data[y + 1][x + 1], data[y][x + 1])
    ensures r.Some? ==>
      r.value.leftCenter == Mid(data[y + 2][x], data[y][x]) &&
      r.value.rightCenter == Mid(data[y + 2][x + 1], data[y][x + 1])
    ensures r.Some? ==>
      r.value.center == Mid(r.value.bottomCenter, r.value.topCenter) &&
      r.value.center == Mid(r.value.leftCenter, r.value.rightCenter)
  {
    if HasHexCell(data, x, y) then
      var bbl, bbr, btr, btl := data[y][x], data[y][x + 1], data[y + 1][x + 1], data[y + 1][x];
      var ttr, ttl := data[y + 2][x + 1], data[y + 2][x];
      var bottom, top := Mid(bbr, bbl), Mid(ttl, ttr);
      Some(Frame(Mid(bottom, top), Mid(btl, ttl), Mid(ttr, btr), Mid(btr, bbr), Mid(bbl, btl),
        top, Mid(ttr, bbr), bottom, Mid(ttl, bbl)))
    else None
  }

  /** The step to the right (half the width of the base hexagon's top) and the step up, both from the middle of its top. */
  function Steps(base: Frame): (r: (Vec2, Vec2))
    ensures Mid(base.topLeft, base.topRight).Add(r.0) == base.topRight
    ensures Mid(base.topLeft, base.topRight).Add(r.1) == base.topCenter
  {
    var m := Mid(base.topLeft, base.topRight);
    (base.topRight.Sub(m), base.topCenter.Sub(m))
  }

  /** Frame (x, y) where the first loop of `GetFrames` puts it: rows above the first moved up y steps, odd ones one step right too. */
  function Placed(data: seq<seq<Vec2>>, right: Vec2, up: Vec2, x: int, y: int): Option<Frame> {
    var f := FrameAt(data, x, y);
    if y >= 1 && f.Some? then
      var g := if (y + 1) % 2 == 0 then Shift(f.value, right) else f.value;
      Some(Shift(g, up.Scale(y as real)))
    else f
  }

  /** The two moves of a frame are one move, by y steps up and, in odd rows, one step right. */
  lemma PlacedOffset(data: seq<seq<Vec2>>, right: Vec2, up: Vec2, x: int, y: int)
    requires HasHexCell(data, x, y)
    ensures Placed(data, right, up, x, y) ==
      Some(Shift(FrameAt(data, x, y).value, (if y % 2 == 1 then right else Zero2).Add(up.Scale(y as real))))
  {
    var f := FrameAt(data, x, y).value;
    if y % 2 == 1 {
      ShiftComposes(f, right, up.Scale(y as real));
    } else if y == 0 {
      assert Shift(f, Zero2.Add(up.Scale(0.0))) == f;
    }
  }

  function PlacedAt(data: seq<seq<Vec2>>, right: Vec2, up: Vec2): (int, int) -> Option<Frame> {
    (x, y) => Placed(data, right, up, x, y)
  }

  /** Row y after the first loop: its placed frames, odd rows led by a copy of their first frame two steps to the left. */
  function HexRow(data: seq<seq<Vec2>>, right: Vec2, up: Vec2, y: int): seq<Frame>
    requires 0 <= y < |data|
  {
    var raw := RowFrames(PlacedAt(data, right, up), y, |data[y]|);
    if (y + 1) % 2 == 0 && |data[y]| > 0 && |raw| > 0 then [Shift(raw[0], right.Scale(-2.0))] + raw else raw
  }

  /** An odd row gains one frame at the front, the frame after it moved two steps left. */
  lemma OddRowLeads(data: seq<seq<Vec2>>, right: Vec2, up: Vec2, y: int)
    requires 0 <= y < |data| && y % 2 == 1
    requires |RowFrames(PlacedAt(data, right, up), y, |data[y]|)| > 0
    ensures var row := HexRow(data, right, up, y);
      |row| == |RowFrames(PlacedAt(data, right, up), y, |data[y]|)| + 1 &&
      row[0] == Shift(row[1], right.Scale(-2.0)) &&
      row[1..] == RowFrames(PlacedAt(data, right, up), y, |data[y]|)
  {
    assert |data[y]| > 0;
  }

  /** The non-empty rows of the first k data rows. */
  function HexRows(data: seq<seq<Vec2>>, right: Vec2, up: Vec2, k: int): seq<seq<Frame>>
    requires k <= |data|
    decreases k
  {
    if k <= 0 then []
    else
      var row := HexRow(data, right, up, k - 1);
      HexRows(data, right, up, k - 1) + (if |row| > 0 then [row] else [])
  }

  predicate NoEmptyRow(rows: seq<seq<Frame>>) {
    forall y :: 0 <= y < |rows| ==> |rows[y]| > 0
  }

  /** With a base hexagon, the first row is there and no row is empty. */
  lemma {:induction false} HexRowsShape(data: seq<seq<Vec2>>, right: Vec2, up: Vec2, k: int)
    requires HasHexCell(data, 0, 0) && 1 <= k <= |data|
    ensures HexRows(data, right, up, k) != [] && NoEmptyRow(HexRows(data, right, up, k))
    ensures HexRows(data, right, up, k)[0] == HexRow(data, right, up, 0)
    decreases k
  {
    if k == 1 {
      assert PlacedAt(data, right, up)(0, 0).Some?;
      RowFramesHas(PlacedAt(data, right, up), 0, |data[0]|, 0);
    } else {
      HexRowsShape(data, right, up, k - 1);
    }
  }

  /** The centre of the tiling's outline: halfway between the middle of its bottom and the middle of its top. */
  function Outline(rows: seq<seq<Frame>>): Vec2
    requires rows != [] && NoEmptyRow(rows)
  {
    var first, last := rows[0], rows[|rows| - 1];
    var bottom := Mid(first[0].topCenter, first[|first| - 1].topCenter);
    var top := Mid(last[0].bottomCenter, last[|last| - 1].bottomCenter);
    Mid(bottom, top)
  }

  /** Moving every frame moves the outline's centre by as much. */
  lemma OutlineShifts(rows: seq<seq<Frame>>, v: Vec2)
    requires rows != [] && NoEmptyRow(rows)
    ensures NoEmptyRow(ShiftRows(rows, v))
    ensures Outline(ShiftRows(rows, v)) == Outline(rows).Add(v)
  {
    var first, last := rows[0], rows[|rows| - 1];
    MidShifts(first[0].topCenter, first[|first| - 1].topCenter, v);
    MidShifts(last[0].bottomCenter, last[|last| - 1].bottomCenter, v);
    MidShifts(Mid(first[0].topCenter, first[|first| - 1].topCenter), Mid(last[0].bottomCenter, last[|last| - 1].bottomCenter), v);
  }

  /**
   * What `GetFrames` returns: none (null) without a base hexagon at (0, 0);
   * otherwise the placed rows moved so that the outline's centre is the
   * grid's centre, which fails where the grid's `Center` throws.
   */
  function Frames(data: seq<seq<Vec2>>, stored: Vec2): (r: Result<Option<seq<seq<Frame>>>>)
    ensures r == Success(None) <==> FrameAt(data, 0, 0).None?
    ensures r.Failure? <==> FrameAt(data, 0, 0).Some? && GridCenter(data, stored).Failure?
    ensures r.Failure? ==> r.error == EmptySequence
    ensures r.Success? && r.value.Some? ==>
      r.value.value != [] && NoEmptyRow(r.value.value) &&
      Outline(r.value.value) == GridCenter(data, stored).value
  {
    var base := FrameAt(data, 0, 0);
    if base.None? then Success(None)
    else
      var (right, up) := Steps(base.value);
      var rows := HexRows(data, right, up, |data|);
      HexRowsShape(data, right, up, |data|);
      match GridCenter(data, stored)
      case Failure(e) => Failure(e)
      case Success(g) =>
        var v := g.Sub(Outline(rows));
        OutlineShifts(rows, v);
        Success(Some(ShiftRows(rows, v)))
  }

  /** The moves `GetFrames` makes on frame (x, y) of the (y + 1)-th line. */
  method PlaceFrame(data: seq<seq<Vec2>>, right: Vec2, up: Vec2, x: int, y: int, countLine: int) returns (frame: Option<Frame>)
    requires countLine == y + 1
    ensures frame == Placed(data, right, up, x, y)
  {
    frame := FrameAt(data, x, y);
    if y >= 1 && frame.Some? {
      if countLine % 2 == 0 {
        frame := Some(Shift(frame.value, right));
      }
      frame := Some(Shift(frame.value, up.Scale((countLine - 1) as real)));
    }
  }

  /** The inner loop of `GetFrames` over data row y, the (y + 1)-th line. */
  method PlaceRow(data: seq<seq<Vec2>>, right: Vec2, up: Vec2, y: int, countLine: int) returns (row: seq<Frame>)
    requires 0 <= y < |data| && countLine == y + 1
    ensures row == HexRow(data, right, up, y)
  {
    row := [];
    for x := 0 to |data[y]|
      invariant row == if x == |data[y]| then HexRow(data, right, up, y) else RowFrames(PlacedAt(data, right, up), y, x)
    {
      var frame := PlaceFrame(data, right, up, x, y, countLine);
      assert frame == PlacedAt(data, right, up)(x, y);
      if frame.Some? {
        row := row + [frame.value];
      }
      if countLine % 2 == 0 && x == |data[y]| - 1 && |row| > 0 {
        row := [Shift(row[0], right.Scale(-2.0))] + row;
      }
    }
  }

  /**
   * `GetFrames`: the frames placed row by row, odd rows led by a copy of
   * their first frame, then moved onto the grid's centre.
   */
  method GetFrames(data: seq<seq<Vec2>>, stored: Vec2) returns (r: Result<Option<seq<seq<Frame>>>>)
    ensures r == Frames(data, stored)
  {
    var base := FrameAt(data, 0, 0);
    if base.None? {
      return Success(None);
    }
    var middle := Mid(base.value.topLeft, base.value.topRight);
    var right := base.value.topRight.Sub(middle);
    var up := base.value.topCenter.Sub(middle);
    var countLine := 1;
    var rows: seq<seq<Frame>> := [];
    for y := 0 to |data|
      invariant countLine == y + 1
      invariant rows == HexRows(data, right, up, y)
    {
      var row := PlaceRow(data, right, up, y, countLine);
      if |row| > 0 {
        rows := rows + [row];
      }
      countLine := countLine + 1;
    }
    HexRowsShape(data, right, up, |data|);
    var center := GridCenter(data, stored);
    if center.Failure? {
      return Failure(center.error);
    }
    var v := center.value.Sub(Outline(rows));
    return Success(Some(ShiftRows(rows, v)));
  }

  /** `GetFramesCenter`: each frame's centre, row by row; no rows without a base hexagon. */
  function FramesCenter(data: seq<seq<Vec2>>, stored: Vec2): (r: Result<seq<seq<Vec2>>>)
    ensures r.Failure? <==> Frames(data, stored).Failure?
    ensures Frames(data, stored) == Success(None) ==> r == Success([])
    ensures Frames(data, stored).Success? && Frames(data, stored).value.Some? ==>
      var rows := Frames(data, stored).value.value;
      r.Success? && |r.value| == |rows| &&
      forall y :: 0 <= y < |rows| ==> (|r.value[y]| == |rows[y]| &&
        forall x :: 0 <= x < |rows[y]| ==> r.value[y][x] == rows[y][x].center)
  {
    match Frames(data, stored)
    case Failure(e) => Failure(e)
    case Success(None) => Success([])
    case Success(Some(rows)) => Success(Centers(rows))
  }

  /** `GetFlattenedFramesCenter`: the rows of `GetFramesCenter` one after another. */
  function FlattenedFramesCenter(data: seq<seq<Vec2>>, stored: Vec2): (r: Result<seq<Vec2>>)
    ensures r.Failure? <==> FramesCenter(data, stored).Failure?
    ensures r.Success? ==> forall p :: p in r.value <==>
      exists y :: 0 <= y < |FramesCenter(data, stored).value| && p in FramesCenter(data, stored).value[y]
  {
    match FramesCenter(data, stored)
    case Failure(e) => Failure(e)
    case Success(rows) =>
      FlattenHasAll(rows);
      Success(Flatten(rows))
  }

  /** The points `GetFlattenedPoints` lists for one hexagon. */
  function PointsOf(f: Frame, p: Position): seq<Vec2> {
    (if p.y == 0 then [f.bottomCenter, f.bottomLeft] else [])
      + (if p.y % 2 == 1 && p.x == 0 then [f.bottomLeft] else [])
      + [f.topLeft, f.topCenter]
      + (if p.lastColumn then [f.topRight, f.bottomRight] else [])
  }

  /** Only vertices of the hexagon are listed. */
  lemma PointsAreVertices(f: Frame, p: Position)
    ensures forall q :: q in PointsOf(f, p) ==>
      q in [f.bottomCenter, f.bottomLeft, f.topLeft, f.topCenter, f.topRight, f.bottomRight]
  {
  }

  /** What `GetFlattenedPoints` returns: without frames (null) it throws. */
  function FlattenedPoints(data: seq<seq<Vec2>>, stored: Vec2): (r: Result<seq<Vec2>>)
    ensures r.Failure? <==> Frames(data, stored).Failure? || Frames(data, stored) == Success(None)
    ensures Frames(data, stored) == Success(None) ==> r == Failure(NullReference)
  {
    match Frames(data, stored)
    case Failure(e) => Failure(e)
    case Success(None) => Failure(NullReference)
    case Success(Some(rows)) => Success(EmitRows(rows, |rows|, PointsOf))
  }

  /** `GetFlattenedPoints`: the hexagon vertices, frame by frame. */
  method GetFlattenedPoints(data: seq<seq<Vec2>>, stored: Vec2) returns (r: Result<seq<Vec2>>)
    ensures r == FlattenedPoints(data, stored)
  {
    var frames := GetFrames(data, stored);
    if frames.Failure? {
      return Failure(frames.error);
    }
    if frames.value.None? {
      return Failure(NullReference);
    }
    var points := EmitAll(frames.value.value, PointsOf);
    return Success(points);
  }

  /** The hexagon `GetLines` lists for one frame, counter-clockwise from the bottom. */
  function LinesOf(f: Frame, p: Position): seq<Edge> {
    [Edge(f.bottomCenter, f.bottomLeft), Edge(f.bottomLeft, f.topLeft), Edge(f.topLeft, f.topCenter),
     Edge(f.topCenter, f.topRight), Edge(f.topRight, f.bottomRight), Edge(f.bottomRight, f.bottomCenter)]
  }

  /** What `GetLines` returns: without frames (null) it throws. */
  function Lines(data: seq<seq<Vec2>>, stored: Vec2): (r: Result<seq<Edge>>)
    ensures r.Failure? <==> Frames(data, stored).Failure? || Frames(data, stored) == Success(None)
    ensures Frames(data, stored) == Success(None) ==> r == Failure(NullReference)
  {
    match Frames(data, stored)
    case Failure(e) => Failure(e)
    case Success(None) => Failure(NullReference)
    case Success(Some(rows)) => Success(EmitRows(rows, |rows|, LinesOf))
  }

  /** `GetLines`: every frame's hexagon. */
  method GetLines(data: seq<seq<Vec2>>, stored: Vec2) returns (r: Result<seq<Edge>>)
    ensures r == Lines(data, stored)
  {
    var frames := GetFrames(data, stored);
    if frames.Failure? {
      return Failure(frames.error);
    }
    if frames.value.None? {
      return Failure(NullReference);
    }
    var lines := EmitAll(frames.value.value, LinesOf);
    return Success(lines);
  }

  /** The edges come six by six, each six a closed hexagon. */
  lemma LinesAreHexagons(data: seq<seq<Vec2>>, stored: Vec2)
    requires Lines(data, stored).Success?
    ensures Cycles(Lines(data, stored).value, 6)
  {
    var rows := Frames(data, stored).value.value;
    HexagonsClose();
    EmitRowsCycles(rows, |rows|, LinesOf, 6);
  }

  /** Each frame's edges close up. */
  lemma HexagonsClose()
    ensures forall f, p :: |LinesOf(f, p)| == 6 && Closed(LinesOf(f, p))
  {
  }

  /** `GetLinesCenter`: the midpoint of every edge `GetLines` lists. */
  method GetLinesCenter(data: seq<seq<Vec2>>, stored: Vec2) returns (r: Result<seq<Vec2>>)
    ensures r.Failure? <==> Lines(data, stored).Failure?
    ensures r.Failure? ==> r.error == Lines(data, stored).error
    ensures r.Success? ==> r.value == Midpoints(Lines(data, stored).value)
    ensures r.Success? ==> (|r.value| == |Lines(data, stored).value| &&
      forall i :: 0 <= i < |r.value| ==>
        r.value[i] == Mid(Lines(data, stored).value[i].start, Lines(data, stored).value[i].end))
  {
    var lines := GetLines(data, stored);
    if lines.Failure? {
      return Failure(lines.error);
    }
    var centers := LineCenters(lines.value);
    return Success(centers);
  }
}
