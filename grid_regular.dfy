/**
 * `GridDataRegular`: the strategy for a square lattice.  Frame (x, y) is the
 * cell whose corners are points (x, y), (x + 1, y), (x + 1, y + 1) and
 * (x, y + 1) of the grid; its centre is the midpoint of its top-left and
 * bottom-right corners.
 */
module GridRegular {
  import opened Wrappers
  import opened Vectors
  import opened GridFrames

  /** `GetFrameAt`: the cell at (x, y), or none (null) where an index is out of range. */
  function FrameAt(data: seq<seq<Vec2>>, x: int, y: int): (r: Option<Frame>)
    ensures r.Some? <==> HasCell(data, x, y)
    ensures r.Some? ==>
      r.value.bottomLeft == data[y][x] && r.value.bottomRight == data[y][x + 1] &&
      r.value.topRight == data[y + 1][x + 1] && r.value.topLeft == data[y + 1][x]
    ensures r.Some? ==> EdgesHalfway(r.value) && r.value.center == Mid(r.value.topLeft, r.value.bottomRight)
  {
    if HasCell(data, x, y) then
      var bl, br, tr, tl := data[y][x], data[y][x + 1], data[y + 1][x + 1], data[y + 1][x];
      Some(Quad(bl, br, tr, tl, Mid(tl, br)))
    else None
  }

  /** Neighbouring cells share their common corners. */
  lemma NeighboursShareCorners(data: seq<seq<Vec2>>, x: int, y: int)
    requires HasCell(data, x, y)
    ensures HasCell(data, x + 1, y) ==>
      FrameAt(data, x + 1, y).value.bottomLeft == FrameAt(data, x, y).value.bottomRight &&
      FrameAt(data, x + 1, y).value.topLeft == FrameAt(data, x, y).value.topRight
    ensures HasCell(data, x, y + 1) ==>
      FrameAt(data, x, y + 1).value.bottomLeft == FrameAt(data, x, y).value.topLeft &&
      FrameAt(data, x, y + 1).value.bottomRight == FrameAt(data, x, y).value.topRight
  {
  }

  function Cells(data: seq<seq<Vec2>>): (int, int) -> Option<Frame> {
    (x, y) => FrameAt(data, x, y)
  }

  /** What `GetFrames` returns. */
  function Frames(data: seq<seq<Vec2>>): seq<seq<Frame>> {
    FrameRows(data, Cells(data), |data|)
  }

  /** `GetFrames`: the cells row by row, rows without a cell left out. */
  method GetFrames(data: seq<seq<Vec2>>) returns (r: seq<seq<Frame>>)
    ensures r == Frames(data)
  {
    r := CollectFrames(data, Cells(data));
  }

  /** On an R×C lattice (R, C >= 2) the frames are the R - 1 rows of C - 1 cells. */
  lemma FramesShape(data: seq<seq<Vec2>>, cols: int)
    requires |data| >= 2 && cols >= 2 && Rectangular(data, cols)
    ensures |Frames(data)| == |data| - 1
    ensures forall y :: 0 <= y < |data| - 1 ==>
      |Frames(data)[y]| == cols - 1 &&
      forall x :: 0 <= x < cols - 1 ==> FrameAt(data, x, y) == Some(Frames(data)[y][x])
  {
    assert forall x, y :: Cells(data)(x, y).Some? <==> HasCell(data, x, y);
    FrameRowsShape(data, Cells(data), cols, |data|);
  }

  /** The edges `GetLines` lists for one frame: its bottom and left sides, its top in the last row, its right in the last column. */
  function LinesOf(f: Frame, p: Position): seq<Edge> {
    [Edge(f.bottomLeft, f.bottomRight), Edge(f.bottomLeft, f.topLeft)]
      + (if p.lastRow then [Edge(f.topLeft, f.topRight)] else [])
      + (if p.lastColumn then [Edge(f.bottomRight, f.topRight)] else [])
  }

  /** What `GetLines` returns. */
  function Lines(data: seq<seq<Vec2>>): seq<Edge> {
    EmitRows(Frames(data), |Frames(data)|, LinesOf)
  }

  /** `GetLines`: every frame's edges, row by row. */
  method GetLines(data: seq<seq<Vec2>>) returns (r: seq<Edge>)
    ensures r == Lines(data)
  {
    var frames := GetFrames(data);
    r := EmitAll(frames, LinesOf);
  }

  /**
   * On an R×C lattice (R, C >= 2) `GetLines` lists as many edges as the
   * lattice has sides between neighbouring points: R·(C - 1) across and
   * C·(R - 1) up.
   */
  lemma LinesCount(data: seq<seq<Vec2>>, cols: int)
    requires |data| >= 2 && cols >= 2 && Rectangular(data, cols)
    ensures |Lines(data)| == |data| * (cols - 1) + cols * (|data| - 1)
  {
    var frames := Frames(data);
    FramesShape(data, cols);
    LinesOfBorder();
    BorderRowsCount(frames, |frames|, cols - 1, LinesOf);
    SidesOfLattice(|data|, cols);
  }

  lemma LinesOfBorder()
    ensures TwoPlusBorder(LinesOf)
  {
  }

  /** (R - 1) cell rows of 2(C - 1) + 1 sides, and C - 1 more on top, are the R(C - 1) + C(R - 1) lattice sides. */
  lemma SidesOfLattice(rs: int, cols: int)
    ensures (rs - 1) * (2 * (cols - 1) + 1) + (cols - 1) == rs * (cols - 1) + cols * (rs - 1)
  {
  }

  /** `GetLinesCenter`: the midpoint of every edge `GetLines` lists. */
  method GetLinesCenter(data: seq<seq<Vec2>>) returns (r: seq<Vec2>)
    ensures r == Midpoints(Lines(data))
    ensures |r| == |Lines(data)|
    ensures forall i :: 0 <= i < |r| ==> r[i] == Mid(Lines(data)[i].start, Lines(data)[i].end)
  {
    var lines := GetLines(data);
    r := LineCenters(lines);
  }

  /** `GetFlattenedPoints`: the lattice points row by row. */
  function FlattenedPoints(data: seq<seq<Vec2>>): (r: seq<Vec2>)
    ensures forall p :: p in r <==> exists y :: 0 <= y < |data| && p in data[y]
  {
    FlattenHasAll(data);
    Flatten(data)
  }

  /** `GetFramesCenter` flattened by `GetFlattenedFramesCenter`: one centre per frame, row by row. */
  function FlattenedFramesCenter(data: seq<seq<Vec2>>): (r: seq<Vec2>)
    ensures forall p :: p in r <==> exists y, x :: 0 <= y < |Frames(data)| && 0 <= x < |Frames(data)[y]| && p == Frames(data)[y][x].center
  {
    var centers := Centers(Frames(data));
    FlattenHasAll(centers);
    assert forall y, p :: 0 <= y < |centers| ==> (p in centers[y] <==> exists x :: 0 <= x < |centers[y]| && p == centers[y][x]);
    Flatten(centers)
  }

  /** `Bounds`: the box of the lattice points; no point, no box. */
  function Bounds(data: seq<seq<Vec2>>): (r: Result<GridFrames.Bounds>)
    ensures r.Failure? <==> FlattenedPoints(data) == []
    ensures r.Success? ==> forall y, x :: 0 <= y < |data| && 0 <= x < |data[y]| ==> Contains(r.value, data[y][x])
  {
    var ps := FlattenedPoints(data);
    assert forall y, x :: 0 <= y < |data| && 0 <= x < |data[y]| ==> data[y][x] in ps;
    BoundsOf(ps)
  }
}
