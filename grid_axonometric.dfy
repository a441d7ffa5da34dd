/**
 * `GridDataAxonometric`: the strategy for an axonometric (diamond) grid.
 * Its cells are those of the square lattice, but its points, edges and
 * frame centres are taken from the cells' edge midpoints: each cell
 * becomes the diamond through the midpoints of its four sides.
 */
module GridAxonometric {
  import opened Wrappers
  import opened Vectors
  import opened GridFrames
  import GridRegular

  /** `GetFrameAt`: the cell at (x, y), centred between its left and right edge midpoints, or none (null). */
  function FrameAt(data: seq<seq<Vec2>>, x: int, y: int): (r: Option<Frame>)
    ensures r.Some? <==> HasCell(data, x, y)
    ensures r.Some? ==>
      r.value.bottomLeft == data[y][x] && r.value.bottomRight == data[y][x + 1] &&
      r.value.topRight == data[y + 1][x + 1] && r.value.topLeft == data[y + 1][x]
    ensures r.Some? ==> EdgesHalfway(r.value) && r.value.center == Mid(r.value.leftCenter, r.value.rightCenter)
  {
    if HasCell(data, x, y) then
      var bl, br, tr, tl := data[y][x], data[y][x + 1], data[y + 1][x + 1], data[y + 1][x];
      Some(Quad(bl, br, tr, tl, Mid(Mid(bl, tl), Mid(tr, br))))
    else None
  }

  /**
   * The two strategies frame the same cells with the same corners; their
   * centres agree exactly when the cell is a parallelogram.
   */
  lemma CentreAgreesOnParallelograms(data: seq<seq<Vec2>>, x: int, y: int)
    requires HasCell(data, x, y)
    ensures var a, g := FrameAt(data, x, y).value, GridRegular.FrameAt(data, x, y).value;
      a == g.(center := a.center) &&
      (a.center == g.center <==> a.bottomLeft.Add(a.topRight) == a.bottomRight.Add(a.topLeft))
  {
  }

  function Cells(data: seq<seq<Vec2>>): (int, int) -> Option<Frame> {
    (x, y) => FrameAt(data, x, y)
  }

  /** What `GetFrames` returns. */
  function Frames(data: seq<seq<Vec2>>): seq<seq<Frame>> {
    FrameRows(data, Cells(data), |data|)
  }

  /** `GetFrames`: the cells row by row, rows without a cell left out. */
  method GetFrames(data: seq<seq<Vec2>>) returns (r: seq<seq<Frame>>)
    ensures r == Frames(data)
  {
    r := CollectFrames(data, Cells(data));
  }

  /** On an R×C lattice (R, C >= 2) the frames are the R - 1 rows of C - 1 cells. */
  lemma FramesShape(data: seq<seq<Vec2>>, cols: int)
    requires |data| >= 2 && cols >= 2 && Rectangular(data, cols)
    ensures |Frames(data)| == |data| - 1
    ensures forall y :: 0 <= y < |data| - 1 ==>
      |Frames(data)[y]| == cols - 1 &&
      forall x :: 0 <= x < cols - 1 ==> FrameAt(data, x, y) == Some(Frames(data)[y][x])
  {
    assert forall x, y :: Cells(data)(x, y).Some? <==> HasCell(data, x, y);
    FrameRowsShape(data, Cells(data), cols, |data|);
  }

  /** The points `GetFlattenedPoints` lists for one frame: bottom and left midpoints, the top one in the last row, the right one in the last column. */
  function PointsOf(f: Frame, p: Position): seq<Vec2> {
    [f.bottomCenter, f.leftCenter]
      + (if p.lastRow then [f.topCenter] else [])
      + (if p.lastColumn then [f.rightCenter] else [])
  }

  /** What `GetFlattenedPoints` returns. */
  function FlattenedPoints(data: seq<seq<Vec2>>): seq<Vec2> {
    EmitRows(Frames(data), |Frames(data)|, PointsOf)
  }

  /** `GetFlattenedPoints`: the axonometric points, frame by frame. */
  method GetFlattenedPoints(data: seq<seq<Vec2>>) returns (r: seq<Vec2>)
    ensures r == FlattenedPoints(data)
  {
    var frames := GetFrames(data);
    r := EmitAll(frames, PointsOf);
  }

  lemma PointsOfBorder()
    ensures TwoPlusBorder(PointsOf)
  {
  }

  /**
   * On an R×C lattice (R, C >= 2) there is one axonometric point per side
   * of the lattice: R·(C - 1) across and C·(R - 1) up.
   */
  lemma PointsCount(data: seq<seq<Vec2>>, cols: int)
    requires |data| >= 2 && cols >= 2 && Rectangular(data, cols)
    ensures |FlattenedPoints(data)| == |data| * (cols - 1) + cols * (|data| - 1)
  {
    var frames := Frames(data);
    FramesShape(data, cols);
    PointsOfBorder();
    BorderRowsCount(frames, |frames|, cols - 1, PointsOf);
    GridRegular.SidesOfLattice(|data|, cols);
  }

  /** The diamond `GetLines` lists for one frame: bottom to left to top to right midpoint, and back. */
  function LinesOf(f: Frame, p: Position): seq<Edge> {
    [Edge(f.bottomCenter, f.leftCenter), Edge(f.leftCenter, f.topCenter),
     Edge(f.topCenter, f.rightCenter), Edge(f.rightCenter, f.bottomCenter)]
  }

  /** What `GetLines` returns. */
  function Lines(data: seq<seq<Vec2>>): seq<Edge> {
    EmitRows(Frames(data), |Frames(data)|, LinesOf)
  }

  /** `GetLines`: every frame's diamond. */
  method GetLines(data: seq<seq<Vec2>>) returns (r: seq<Edge>)
    ensures r == Lines(data)
  {
    var frames := GetFrames(data);
    r := EmitAll(frames, LinesOf);
  }

  /** The edges come four by four, each four a closed diamond. */
  lemma LinesAreDiamonds(data: seq<seq<Vec2>>)
    ensures Cycles(Lines(data), 4)
  {
    var frames := Frames(data);
    DiamondsClose();
    EmitRowsCycles(frames, |frames|, LinesOf, 4);
  }

  /** Each frame's edges close up. */
  lemma DiamondsClose()
    ensures forall f, p :: |LinesOf(f, p)| == 4 && Closed(LinesOf(f, p))
  {
  }

  /** `GetLinesCenter`: the midpoint of every edge `GetLines` lists. */
  method GetLinesCenter(data: seq<seq<Vec2>>) returns (r: seq<Vec2>)
    ensures r == Midpoints(Lines(data))
    ensures |r| == |Lines(data)|
    ensures forall i :: 0 <= i < |r| ==> r[i] == Mid(Lines(data)[i].start, Lines(data)[i].end)
  {
    var lines := GetLines(data);
    r := LineCenters(lines);
  }

  /**
   * The row `GetFramesCenter` grows when its loop reaches column x: while
   * the next row has a centre at x + 1, the midpoint of entry x and that
   * centre is appended, so the loop runs on into what it appended.
   */
  function Extend(row: seq<Vec2>, next: seq<Vec2>, x: int): seq<Vec2>
    requires 0 <= x <= |row|
    decreases if x + 1 < |next| then |next| - x else 0, |row| - x
  {
    if x == |row| then row
    else if x + 1 < |next| then Extend(row + [Mid(row[x], next[x + 1])], next, x + 1)
    else Extend(row, next, x + 1)
  }

  /**
   * From a column x inside the row, the row keeps its entries and gains one
   * per column x .. |next| - 2; the entry appended at i = |row| + j is the
   * midpoint of entry x + j and centre x + j + 1 of the next row.
   */
  lemma {:induction false} ExtendGrows(row: seq<Vec2>, next: seq<Vec2>, x: int)
    requires 0 <= x < |row|
    ensures var e := Extend(row, next, x);
      |e| == |row| + (if x + 1 < |next| then |next| - 1 - x else 0) &&
      e[..|row|] == row &&
      forall i :: |row| <= i < |e| ==> e[i] == Mid(e[i - |row| + x], next[i - |row| + x + 1])
    decreases if x + 1 < |next| then |next| - x else 0, |row| - x
  {
    var e := Extend(row, next, x);
    if x + 1 < |next| {
      var row' := row + [Mid(row[x], next[x + 1])];
      ExtendGrows(row', next, x + 1);
      assert e == Extend(row', next, x + 1);
      assert e[..|row|] == row by {
        assert e[..|row|] == e[..|row'|][..|row|];
      }
      assert e[|row|] == row'[|row|] && e[x] == row[x];
    } else if x + 1 < |row| {
      ExtendGrows(row, next, x + 1);
    } else {
      assert e == row;
    }
  }

  /** The rows after `GetFramesCenter`'s loop: every row but the last extended by the row after it. */
  function Extended(centers: seq<seq<Vec2>>): (r: seq<seq<Vec2>>)
    ensures |r| == |centers|
  {
    seq(|centers|, y requires 0 <= y < |centers| =>
      if y + 1 < |centers| then Extend(centers[y], centers[y + 1], 0) else centers[y])
  }

  /** What `GetFramesCenter` returns. */
  function FramesCenter(data: seq<seq<Vec2>>): seq<seq<Vec2>> {
    Extended(Centers(Frames(data)))
  }

  /**
   * The loop of `GetFramesCenter` over one row: it appends to the row it
   * walks, and an index past the next row's end is skipped.
   */
  method ExtendRow(row: seq<Vec2>, next: seq<Vec2>) returns (r: seq<Vec2>)
    ensures r == Extend(row, next, 0)
  {
    r := row;
    var x := 0;
    while x < |r|
      invariant 0 <= x <= |r|
      invariant Extend(r, next, x) == Extend(row, next, 0)
      decreases if x + 1 < |next| then |next| - x else 0, |r| - x
    {
      if x + 1 < |next| {
        r := r + [Mid(r[x], next[x + 1])];
      }
      x := x + 1;
    }
  }

  /** `GetFramesCenter`: the frame centres, each row followed by the diagonal midpoints towards the row above. */
  method GetFramesCenter(data: seq<seq<Vec2>>) returns (r: seq<seq<Vec2>>)
    ensures r == FramesCenter(data)
  {
    var frames := GetFrames(data);
    var centers := Centers(frames);
    r := centers;
    var y := 0;
    while y < |r|
      invariant 0 <= y <= |r| == |centers|
      invariant forall k :: 0 <= k < y ==> r[k] == Extended(centers)[k]
      invariant forall k :: y <= k < |r| ==> r[k] == centers[k]
    {
      var next := if y + 1 < |r| then r[y + 1] else [];
      var row := ExtendRow(r[y], next);
      assert y + 1 >= |r| ==> row == centers[y] by {
        if y + 1 >= |r| {
          ExtendNothing(r[y], 0);
        }
      }
      r := r[y := row];
      y := y + 1;
    }
  }

  /** With no next row the loop appends nothing. */
  lemma {:induction false} ExtendNothing(row: seq<Vec2>, x: int)
    requires 0 <= x <= |row|
    ensures Extend(row, [], x) == row
    decreases |row| - x
  {
    if x < |row| {
      ExtendNothing(row, x + 1);
    }
  }

  /** Two rows of n centres: the lower gains n - 1 diagonal midpoints towards the upper. */
  lemma ExtendEqualRows(row: seq<Vec2>, next: seq<Vec2>)
    requires |row| == |next| >= 1
    ensures |Extend(row, next, 0)| == 2 * |row| - 1
    ensures Extend(row, next, 0)[..|row|] == row
    ensures forall j :: 0 <= j < |row| - 1 ==> Extend(row, next, 0)[|row| + j] == Mid(row[j], next[j + 1])
  {
    ExtendGrows(row, next, 0);
    var e := Extend(row, next, 0);
    forall j | 0 <= j < |row| - 1
      ensures e[|row| + j] == Mid(row[j], next[j + 1])
    {
      assert e[|row| + j] == Mid(e[j], next[j + 1]);
      assert e[j] == e[..|row|][j];
    }
  }

  lemma FramesLengths(data: seq<seq<Vec2>>, cols: int, y: int)
    requires |data| >= 3 && cols >= 2 && Rectangular(data, cols)
    requires 0 <= y < |data| - 2
    ensures |Frames(data)| == |data| - 1
    ensures |Frames(data)[y]| == |Frames(data)[y + 1]| == cols - 1
  {
    FramesShape(data, cols);
  }

  /**
   * On an R×C lattice (R >= 3, C >= 2) every row of centres but the last
   * gains C - 2 diagonal midpoints: entry C - 1 + j lies halfway between the
   * centre of frame j of row y and that of frame j + 1 of row y + 1 (cell
   * (j, y) and cell (j + 1, y + 1), by `FramesShape`); the last row is left
   * as it was.
   */
  lemma FramesCenterShape(data: seq<seq<Vec2>>, cols: int, y: int)
    requires |data| >= 3 && cols >= 2 && Rectangular(data, cols)
    requires 0 <= y < |data| - 2
    ensures |Frames(data)| == |FramesCenter(data)| == |data| - 1
    ensures |Frames(data)[y]| == |Frames(data)[y + 1]| == cols - 1
    ensures |FramesCenter(data)[y]| == 2 * cols - 3
    ensures forall j :: 0 <= j < cols - 2 ==>
      FramesCenter(data)[y][cols - 1 + j] == Mid(Frames(data)[y][j].center, Frames(data)[y + 1][j + 1].center)
    ensures FramesCenter(data)[|data| - 2] == Centers(Frames(data))[|data| - 2]
  {
    FramesLengths(data, cols, y);
    var c := Centers(Frames(data));
    ExtendedRow(c, y);
    ExtendedLast(c);
  }

  /** A row of centres followed by one as long gains the diagonal midpoints towards it. */
  lemma ExtendedRow(c: seq<seq<Vec2>>, y: int)
    requires 0 <= y < |c| - 1 && |c[y]| == |c[y + 1]| >= 1
    ensures |Extended(c)[y]| == 2 * |c[y]| - 1
    ensures forall j :: 0 <= j < |c[y]| - 1 ==> Extended(c)[y][|c[y]| + j] == Mid(c[y][j], c[y + 1][j + 1])
  {
    ExtendEqualRows(c[y], c[y + 1]);
  }

  /** The last row of centres has nothing above it and stays as it is. */
  lemma ExtendedLast(c: seq<seq<Vec2>>)
    requires c != []
    ensures Extended(c)[|c| - 1] == c[|c| - 1]
  {
  }

  /** `GetFlattenedFramesCenter`: the rows of `GetFramesCenter` one after another. */
  function FlattenedFramesCenter(data: seq<seq<Vec2>>): (r: seq<Vec2>)
    ensures forall p :: p in r <==> exists y :: 0 <= y < |FramesCenter(data)| && p in FramesCenter(data)[y]
  {
    FlattenHasAll(FramesCenter(data));
    Flatten(FramesCenter(data))
  }

  /**
   * `Bounds`: the box of the axonometric points. No point, no box; and the
   * getter also reads the grid's `Center` (with `stored` its kept centre),
   * which throws when the first or the last row is empty.
   */
  function Bounds(data: seq<seq<Vec2>>, stored: Vec2): (r: Result<GridFrames.Bounds>)
    ensures r.Failure? <==> FlattenedPoints(data) == [] || GridCenter(data, stored).Failure?
    ensures r.Failure? ==> r.error == EmptySequence
    ensures r.Success? ==> forall i :: 0 <= i < |FlattenedPoints(data)| ==> Contains(r.value, FlattenedPoints(data)[i])
  {
    var box := BoundsOf(FlattenedPoints(data));
    if box.Failure? then box
    else match GridCenter(data, stored)
      case Failure(e) => Failure(e)
      case Success(_) => box
  }
}
