/**
 * What the three grid strategies (regular, axonometric, hexametric) share:
 * the frame of a tile (the dictionary of nine named points each strategy
 * builds), the row-by-row collection of frames, the frame-by-frame
 * emission of points and edges, the midpoint of every edge, the bounds of
 * a point list, and the grid's centre.
 */
module GridFrames {
  import opened Wrappers
  import opened Vectors

  /** A tile frame: the points stored under "center", "topLeft", … "leftCenter". */
  datatype Frame = Frame(
    center: Vec2,
    topLeft: Vec2, topRight: Vec2, bottomRight: Vec2, bottomLeft: Vec2,
    topCenter: Vec2, rightCenter: Vec2, bottomCenter: Vec2, leftCenter: Vec2)

  /** A frame on four corners: the four edge midpoints are computed, the centre is given. */
  function Quad(bl: Vec2, br: Vec2, tr: Vec2, tl: Vec2, center: Vec2): Frame {
    Frame(center, tl, tr, br, bl, Mid(tl, tr), Mid(tr, br), Mid(br, bl), Mid(bl, tl))
  }

  /** The four edge points of a frame lie halfway along its four sides. */
  predicate EdgesHalfway(f: Frame) {
    f.topCenter == Mid(f.topLeft, f.topRight) && f.rightCenter == Mid(f.topRight, f.bottomRight) &&
    f.bottomCenter == Mid(f.bottomRight, f.bottomLeft) && f.leftCenter == Mid(f.bottomLeft, f.topLeft)
  }

  /** Rows y and y + 1 both hold the columns x and x + 1: no index is out of range. */
  predicate HasCell(data: seq<seq<Vec2>>, x: int, y: int) {
    0 <= y && y + 1 < |data| && 0 <= x && x + 1 < |data[y]| && x + 1 < |data[y + 1]|
  }

  /** `MoveFrame`: every point of the frame translated by v. */
  function Shift(f: Frame, v: Vec2): Frame {
    Frame(f.center.Add(v),
      f.topLeft.Add(v), f.topRight.Add(v), f.bottomRight.Add(v), f.bottomLeft.Add(v),
      f.topCenter.Add(v), f.rightCenter.Add(v), f.bottomCenter.Add(v), f.leftCenter.Add(v))
  }

  /** Translating a midpoint translates its two ends. */
  lemma MidShifts(a: Vec2, b: Vec2, v: Vec2)
    ensures Mid(a.Add(v), b.Add(v)) == Mid(a, b).Add(v)
  {
  }

  /** Moving a frame is moving its corners and its centre: the edge midpoints follow. */
  lemma ShiftQuad(bl: Vec2, br: Vec2, tr: Vec2, tl: Vec2, c: Vec2, v: Vec2)
    ensures Shift(Quad(bl, br, tr, tl, c), v) == Quad(bl.Add(v), br.Add(v), tr.Add(v), tl.Add(v), c.Add(v))
  {
    MidShifts(tl, tr, v);
    MidShifts(tr, br, v);
    MidShifts(br, bl, v);
    MidShifts(bl, tl, v);
  }

  /** Two moves are one move by the sum, and moving back undoes a move. */
  lemma ShiftComposes(f: Frame, u: Vec2, v: Vec2)
    ensures Shift(Shift(f, u), v) == Shift(f, u.Add(v))
    ensures Shift(Shift(f, v), v.Scale(-1.0)) == f
  {
  }

  /** Every frame of every row moved by v (the closing `ForEach` of the hexametric frames). */
  function ShiftRows(rows: seq<seq<Frame>>, v: Vec2): (r: seq<seq<Frame>>)
    ensures |r| == |rows|
    ensures forall y :: 0 <= y < |rows| ==> |r[y]| == |rows[y]|
    ensures forall y, x :: 0 <= y < |rows| && 0 <= x < |rows[y]| ==> r[y][x] == Shift(rows[y][x], v)
  {
    seq(|rows|, y requires 0 <= y < |rows| => seq(|rows[y]|, x requires 0 <= x < |rows[y]| => Shift(rows[y][x], v)))
  }

  /** The frames of row y at the columns below k, where there is one: the inner loop of `GetFrames`. */
  function RowFrames(frameAt: (int, int) -> Option<Frame>, y: int, k: int): seq<Frame>
    decreases k
  {
    if k <= 0 then []
    else RowFrames(frameAt, y, k - 1) + (if frameAt(k - 1, y).Some? then [frameAt(k - 1, y).value] else [])
  }

  /** The non-empty frame rows of the first k data rows: the outer loop of `GetFrames`. */
  function FrameRows(data: seq<seq<Vec2>>, frameAt: (int, int) -> Option<Frame>, k: int): seq<seq<Frame>>
    requires k <= |data|
    decreases k
  {
    if k <= 0 then []
    else
      var row := RowFrames(frameAt, k - 1, |data[k - 1]|);
      FrameRows(data, frameAt, k - 1) + (if |row| > 0 then [row] else [])
  }

  /** `GetFrames` of the regular and axonometric strategies: every frame, row by row, without empty rows. */
  method CollectFrames(data: seq<seq<Vec2>>, frameAt: (int, int) -> Option<Frame>) returns (r: seq<seq<Frame>>)
    ensures r == FrameRows(data, frameAt, |data|)
  {
    r := [];
    var y := 0;
    while y < |data|
      invariant 0 <= y <= |data|
      invariant r == FrameRows(data, frameAt, y)
    {
      var row: seq<Frame> := [];
      var x := 0;
      while x < |data[y]|
        invariant 0 <= x <= |data[y]|
        invariant row == RowFrames(frameAt, y, x)
      {
        var frame := frameAt(x, y);
        if frame.Some? {
          row := row + [frame.value];
        }
        x := x + 1;
      }
      if |row| > 0 {
        r := r + [row];
      }
      y := y + 1;
    }
  }

  /** A row whose first n columns have frames and whose others have none yields exactly those n frames. */
  lemma {:induction false} RowFramesPrefix(frameAt: (int, int) -> Option<Frame>, y: int, k: int, n: int)
    requires 0 <= n <= k
    requires forall x :: 0 <= x < k ==> (frameAt(x, y).Some? <==> x < n)
    ensures |RowFrames(frameAt, y, k)| == n
    ensures forall x :: 0 <= x < n ==> frameAt(x, y) == Some(RowFrames(frameAt, y, k)[x])
    decreases k
  {
    if k > 0 {
      if n == k {
        RowFramesPrefix(frameAt, y, k - 1, n - 1);
      } else {
        RowFramesPrefix(frameAt, y, k - 1, n);
      }
    }
  }

  /** A row with a frame at some column below k yields at least one frame. */
  lemma {:induction false} RowFramesHas(frameAt: (int, int) -> Option<Frame>, y: int, k: int, x: int)
    requires 0 <= x < k && frameAt(x, y).Some?
    ensures |RowFrames(frameAt, y, k)| > 0
    decreases k
  {
    if x < k - 1 {
      RowFramesHas(frameAt, y, k - 1, x);
    }
  }

  /** Every row of data has `cols` points. */
  predicate Rectangular(data: seq<seq<Vec2>>, cols: int) {
    forall y :: 0 <= y < |data| ==> |data[y]| == cols
  }

  /**
   * On an R×C grid (R, C >= 2) with a frame at exactly the cells that exist,
   * the frames come in R - 1 rows of C - 1, frame (x, y) at row y, column x;
   * the last data row has none and is dropped.
   */
  lemma {:induction false} FrameRowsShape(data: seq<seq<Vec2>>, frameAt: (int, int) -> Option<Frame>, cols: int, k: int)
    requires |data| >= 2 && cols >= 2 && Rectangular(data, cols)
    requires forall x, y :: frameAt(x, y).Some? <==> HasCell(data, x, y)
    requires 0 <= k <= |data|
    ensures |FrameRows(data, frameAt, k)| == if k == |data| then k - 1 else k
    ensures forall y :: 0 <= y < |FrameRows(data, frameAt, k)| ==>
      |FrameRows(data, frameAt, k)[y]| == cols - 1 &&
      forall x :: 0 <= x < cols - 1 ==> frameAt(x, y) == Some(FrameRows(data, frameAt, k)[y][x])
    decreases k
  {
    if k > 0 {
      FrameRowsShape(data, frameAt, cols, k - 1);
      var n := if k - 1 < |data| - 1 then cols - 1 else 0;
      RowFramesPrefix(frameAt, k - 1, cols, n);
    }
  }

  /** Where a frame sits among the frames: its row, its column, and whether either is the last. */
  datatype Position = Position(y: int, x: int, lastRow: bool, lastColumn: bool)

  /** What the frames of row y at the columns below k contribute. */
  function EmitRow<T>(frames: seq<seq<Frame>>, y: int, k: int, emit: (Frame, Position) -> seq<T>): seq<T>
    requires 0 <= y < |frames| && k <= |frames[y]|
    decreases k
  {
    if k <= 0 then []
    else
      var p := Position(y, k - 1, y == |frames| - 1, k - 1 == |frames[y]| - 1);
      EmitRow(frames, y, k - 1, emit) + emit(frames[y][k - 1], p)
  }

  /** What the frames of the first k rows contribute, row by row. */
  function EmitRows<T>(frames: seq<seq<Frame>>, k: int, emit: (Frame, Position) -> seq<T>): seq<T>
    requires k <= |frames|
    decreases k
  {
    if k <= 0 then [] else EmitRows(frames, k - 1, emit) + EmitRow(frames, k - 1, |frames[k - 1]|, emit)
  }

  /**
   * The nested loop the strategies run over their frames to list points or
   * edges: each frame adds what `emit` gives for it, in row-major order.
   */
  method EmitAll<T>(frames: seq<seq<Frame>>, emit: (Frame, Position) -> seq<T>) returns (r: seq<T>)
    ensures r == EmitRows(frames, |frames|, emit)
  {
    r := [];
    var y := 0;
    while y < |frames|
      invariant 0 <= y <= |frames|
      invariant r == EmitRows(frames, y, emit)
    {
      ghost var before := r;
      var x := 0;
      while x < |frames[y]|
        invariant 0 <= x <= |frames[y]|
        invariant r == before + EmitRow(frames, y, x, emit)
      {
        var p := Position(y, x, y == |frames| - 1, x == |frames[y]| - 1);
        r := r + emit(frames[y][x], p);
        x := x + 1;
      }
      y := y + 1;
    }
  }

  /** If every frame contributes w items, a row of k frames contributes k·w. */
  lemma {:induction false} EmitRowUniform<T>(frames: seq<seq<Frame>>, y: int, k: int, emit: (Frame, Position) -> seq<T>, w: int)
    requires 0 <= y < |frames| && 0 <= k <= |frames[y]|
    requires forall f, p :: |emit(f, p)| == w
    ensures |EmitRow(frames, y, k, emit)| == k * w
    decreases k
  {
    if k > 0 {
      EmitRowUniform(frames, y, k - 1, emit, w);
    }
  }

  /** If every row contributes `per` items, k rows contribute k·per. */
  lemma {:induction false} EmitRowsUniform<T>(frames: seq<seq<Frame>>, k: int, emit: (Frame, Position) -> seq<T>, per: int)
    requires 0 <= k <= |frames|
    requires forall y :: 0 <= y < |frames| ==> |EmitRow(frames, y, |frames[y]|, emit)| == per
    ensures |EmitRows(frames, k, emit)| == k * per
    decreases k
  {
    if k > 0 {
      EmitRowsUniform(frames, k - 1, emit, per);
      assert k * per == (k - 1) * per + per;
    }
  }

  /** Each item `emit` gives for a frame ends up in the list, right after what the frames before it gave. */
  lemma {:induction false} EmitRowHas<T>(frames: seq<seq<Frame>>, y: int, k: int, emit: (Frame, Position) -> seq<T>, x: int)
    requires 0 <= y < |frames| && 0 <= x < k <= |frames[y]|
    ensures EmitRow(frames, y, x + 1, emit) <= EmitRow(frames, y, k, emit)
    decreases k
  {
    if x + 1 < k {
      EmitRowHas(frames, y, k - 1, emit, x);
    }
  }

  /** An emitter giving two items per frame, one more in the last row and one more in the last column. */
  ghost predicate TwoPlusBorder<T>(emit: (Frame, Position) -> seq<T>) {
    forall f, p :: |emit(f, p)| == 2 + (if p.lastRow then 1 else 0) + (if p.lastColumn then 1 else 0)
  }

  lemma {:induction false} BorderRowCount<T>(frames: seq<seq<Frame>>, y: int, k: int, emit: (Frame, Position) -> seq<T>)
    requires TwoPlusBorder(emit)
    requires 0 <= y < |frames| && 0 <= k <= |frames[y]|
    ensures |EmitRow(frames, y, k, emit)| ==
      2 * k + (if y == |frames| - 1 then k else 0) + (if k == |frames[y]| && k > 0 then 1 else 0)
    decreases k
  {
    if k > 0 {
      BorderRowCount(frames, y, k - 1, emit);
    }
  }

  /** Over rows of fc frames, k rows give 2·fc + 1 items each, and the last row fc more. */
  lemma {:induction false} BorderRowsCount<T>(frames: seq<seq<Frame>>, k: int, fc: int, emit: (Frame, Position) -> seq<T>)
    requires TwoPlusBorder(emit)
    requires 0 <= k <= |frames| && fc >= 1
    requires forall y :: 0 <= y < |frames| ==> |frames[y]| == fc
    ensures |EmitRows(frames, k, emit)| == k * (2 * fc + 1) + (if k == |frames| && k > 0 then fc else 0)
    decreases k
  {
    if k > 0 {
      BorderRowsCount(frames, k - 1, fc, emit);
      BorderRowCount(frames, k - 1, fc, emit);
      assert k * (2 * fc + 1) == (k - 1) * (2 * fc + 1) + 2 * fc + 1;
    }
  }

  /** A closed path: each edge starts where the one before it ends, and the last ends where the first starts. */
  predicate Closed(s: seq<Edge>) {
    |s| > 0 &&
    (forall i :: 0 <= i < |s| - 1 ==> s[i].end == s[i + 1].start) &&
    s[|s| - 1].end == s[0].start
  }

  /** A list of closed paths of w edges each. */
  predicate Cycles(s: seq<Edge>, w: int)
    requires w >= 1
    decreases |s|
  {
    s == [] || (|s| >= w && Closed(s[..w]) && Cycles(s[w..], w))
  }

  lemma {:induction false} CyclesAppend(a: seq<Edge>, b: seq<Edge>, w: int)
    requires w >= 1 && Cycles(a, w) && Cycles(b, w)
    ensures Cycles(a + b, w)
    decreases |a|
  {
    if a == [] {
      assert a + b == b;
    } else {
      CyclesAppend(a[w..], b, w);
      assert (a + b)[..w] == a[..w];
      assert (a + b)[w..] == a[w..] + b;
      assert Closed((a + b)[..w]) && Cycles((a + b)[w..], w);
    }
  }

  lemma {:induction false} EmitRowCycles(frames: seq<seq<Frame>>, y: int, k: int, emit: (Frame, Position) -> seq<Edge>, w: int)
    requires w >= 1 && forall f, p :: |emit(f, p)| == w && Closed(emit(f, p))
    requires 0 <= y < |frames| && 0 <= k <= |frames[y]|
    ensures Cycles(EmitRow(frames, y, k, emit), w)
    decreases k
  {
    if k > 0 {
      EmitRowCycles(frames, y, k - 1, emit, w);
      var e := emit(frames[y][k - 1], Position(y, k - 1, y == |frames| - 1, k - 1 == |frames[y]| - 1));
      assert e[..w] == e && e[w..] == [];
      CyclesAppend(EmitRow(frames, y, k - 1, emit), e, w);
    }
  }

  /** When each frame gives one closed path of w edges, the whole list is closed paths of w edges. */
  lemma {:induction false} EmitRowsCycles(frames: seq<seq<Frame>>, k: int, emit: (Frame, Position) -> seq<Edge>, w: int)
    requires w >= 1 && forall f, p :: |emit(f, p)| == w && Closed(emit(f, p))
    requires 0 <= k <= |frames|
    ensures Cycles(EmitRows(frames, k, emit), w)
    decreases k
  {
    if k > 0 {
      EmitRowsCycles(frames, k - 1, emit, w);
      EmitRowCycles(frames, k - 1, |frames[k - 1]|, emit, w);
      CyclesAppend(EmitRows(frames, k - 1, emit), EmitRow(frames, k - 1, |frames[k - 1]|, emit), w);
    }
  }

  /** The midpoint of every edge, in the same order. */
  function Midpoints(lines: seq<Edge>): (r: seq<Vec2>)
    ensures |r| == |lines|
    ensures forall i :: 0 <= i < |lines| ==> r[i] == Mid(lines[i].start, lines[i].end)
  {
    seq(|lines|, i requires 0 <= i < |lines| => Mid(lines[i].start, lines[i].end))
  }

  /** The loop of every strategy's `GetLinesCenter`. */
  method LineCenters(lines: seq<Edge>) returns (r: seq<Vec2>)
    ensures r == Midpoints(lines)
  {
    r := [];
    for i := 0 to |lines|
      invariant |r| == i
      invariant forall k :: 0 <= k < i ==> r[k] == Mid(lines[k].start, lines[k].end)
    {
      r := r + [Mid(lines[i].start, lines[i].end)];
    }
  }

  /** `SelectMany(e => e)`: the rows one after another. */
  function Flatten<T>(rows: seq<seq<T>>): seq<T>
    decreases |rows|
  {
    if rows == [] then [] else Flatten(rows[..|rows| - 1]) + rows[|rows| - 1]
  }

  /** A point is in the flattened list exactly when it is in one of the rows. */
  lemma {:induction false} FlattenHas<T>(rows: seq<seq<T>>, p: T)
    ensures p in Flatten(rows) <==> exists y :: 0 <= y < |rows| && p in rows[y]
    decreases |rows|
  {
    if rows != [] {
      var init := rows[..|rows| - 1];
      FlattenHas(init, p);
      if p in Flatten(rows) && p !in rows[|rows| - 1] {
        var y :| 0 <= y < |init| && p in init[y];
        assert rows[y] == init[y];
      }
      if p in Flatten(init) {
        assert p in Flatten(rows);
      }
      if exists y :: 0 <= y < |rows| && p in rows[y] {
        var y :| 0 <= y < |rows| && p in rows[y];
        if y < |init| {
          assert init[y] == rows[y];
        }
      }
    }
  }

  /** `FlattenHas` for every point at once. */
  lemma FlattenHasAll<T>(rows: seq<seq<T>>)
    ensures forall p :: p in Flatten(rows) <==> exists y :: 0 <= y < |rows| && p in rows[y]
  {
    forall p {
      FlattenHas(rows, p);
    }
  }

  /** An R×C grid flattens to R·C points. */
  lemma {:induction false} FlattenLength<T>(rows: seq<seq<T>>, cols: int)
    requires forall y :: 0 <= y < |rows| ==> |rows[y]| == cols
    ensures |Flatten(rows)| == |rows| * cols
    decreases |rows|
  {
    if rows != [] {
      var init := rows[..|rows| - 1];
      assert forall y :: 0 <= y < |init| ==> init[y] == rows[y];
      FlattenLength(init, cols);
      assert |rows| * cols == |init| * cols + cols;
    }
  }

  /** `GetFramesCenter`: the centre of every frame, row by row. */
  function Centers(frames: seq<seq<Frame>>): (r: seq<seq<Vec2>>)
    ensures |r| == |frames|
    ensures forall y :: 0 <= y < |frames| ==> |r[y]| == |frames[y]|
    ensures forall y, x :: 0 <= y < |frames| && 0 <= x < |frames[y]| ==> r[y][x] == frames[y][x].center
  {
    seq(|frames|, y requires 0 <= y < |frames| => seq(|frames[y]|, x requires 0 <= x < |frames[y]| => frames[y][x].center))
  }

  /** Unity's `Bounds`, by its two corners. */
  datatype Bounds = Bounds(min: Vec2, max: Vec2)

  predicate Contains(b: Bounds, p: Vec2) {
    b.min.x <= p.x <= b.max.x && b.min.y <= p.y <= b.max.y
  }

  /** The least and the greatest of a non-empty list of numbers. */
  function Least(s: seq<real>): (r: real)
    requires s != []
    ensures r in s && forall v :: v in s ==> r <= v
    decreases |s|
  {
    if |s| == 1 then s[0]
    else
      var m := Least(s[1..]);
      assert forall v :: v in s ==> v == s[0] || v in s[1..];
      if s[0] <= m then s[0] else m
  }

  function Greatest(s: seq<real>): (r: real)
    requires s != []
    ensures r in s && forall v :: v in s ==> v <= r
    decreases |s|
  {
    if |s| == 1 then s[0]
    else
      var m := Greatest(s[1..]);
      assert forall v :: v in s ==> v == s[0] || v in s[1..];
      if s[0] >= m then s[0] else m
  }

  function Xs(ps: seq<Vec2>): (r: seq<real>)
    ensures |r| == |ps| && forall i :: 0 <= i < |ps| ==> r[i] == ps[i].x
  {
    seq(|ps|, i requires 0 <= i < |ps| => ps[i].x)
  }

  function Ys(ps: seq<Vec2>): (r: seq<real>)
    ensures |r| == |ps| && forall i :: 0 <= i < |ps| ==> r[i] == ps[i].y
  {
    seq(|ps|, i requires 0 <= i < |ps| => ps[i].y)
  }

  /**
   * The `Bounds` getter of the strategies: the smallest box holding every
   * point; `Max`/`Min` over no points throw.
   */
  function BoundsOf(ps: seq<Vec2>): (r: Result<Bounds>)
    ensures r.Failure? <==> ps == []
    ensures r.Failure? ==> r.error == EmptySequence
    ensures r.Success? ==> forall i :: 0 <= i < |ps| ==> Contains(r.value, ps[i])
    ensures r.Success? ==>
      (exists i :: 0 <= i < |ps| && ps[i].x == r.value.min.x) &&
      (exists i :: 0 <= i < |ps| && ps[i].x == r.value.max.x) &&
      (exists i :: 0 <= i < |ps| && ps[i].y == r.value.min.y) &&
      (exists i :: 0 <= i < |ps| && ps[i].y == r.value.max.y)
  {
    if ps == [] then Failure(EmptySequence)
    else
      var xs, ys := Xs(ps), Ys(ps);
      assert forall i :: 0 <= i < |ps| ==> xs[i] in xs && ys[i] in ys;
      Success(Bounds(Vec2(Least(xs), Least(ys)), Vec2(Greatest(xs), Greatest(ys))))
  }

  /**
   * The grid's `Center` getter: the midpoint of the first point of the first
   * row and the last point of the last row, or the stored centre when there
   * is no row; `First()`/`Last()` of an empty row throw.
   */
  function GridCenter(data: seq<seq<Vec2>>, stored: Vec2): (r: Result<Vec2>)
    ensures data == [] ==> r == Success(stored)
    ensures r.Failure? <==> data != [] && (data[0] == [] || data[|data| - 1] == [])
    ensures r.Failure? ==> r.error == EmptySequence
  {
    if data == [] then Success(stored)
    else if data[0] == [] || data[|data| - 1] == [] then Failure(EmptySequence)
    else Success(Mid(data[0][0], data[|data| - 1][|data[|data| - 1]| - 1]))
  }
}
