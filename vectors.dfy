/**
 * Unity's Vector3, Vector2 and Vector2Int over exact numbers, and the
 * point-pair types used for lines.  Vector equality is exact here (Unity's
 * `==` tolerates a tiny rounding difference).
 */
module Vectors {

  datatype Vec3 = Vec3(x: real, y: real, z: real) {
    function Add(o: Vec3): Vec3 { Vec3(x + o.x, y + o.y, z + o.z) }
    function Sub(o: Vec3): Vec3 { Vec3(x - o.x, y - o.y, z - o.z) }
    function Scale(k: real): Vec3 { Vec3(k * x, k * y, k * z) }
  }

  const Zero3 := Vec3(0.0, 0.0, 0.0)

  lemma ScaleCommutes(u: Vec3, c: real, s: real)
    ensures u.Scale(c).Scale(s) == u.Scale(s).Scale(c)
  {}

  lemma ScaleDistributes(a: Vec3, b: Vec3, c: real)
    ensures a.Scale(c).Add(b.Scale(c)) == a.Add(b).Scale(c)
  {}

  /** A combination of differences is the difference of the combinations. */
  lemma CombineDifferences(s: real, t: real, a0: Vec3, a1: Vec3, b0: Vec3, b1: Vec3)
    ensures a0.Sub(b0).Scale(s).Add(a1.Sub(b1).Scale(t))
         == a0.Scale(s).Add(a1.Scale(t)).Sub(b0.Scale(s).Add(b1.Scale(t)))
  {}

  datatype Vec2 = Vec2(x: real, y: real) {
    function Add(o: Vec2): Vec2 { Vec2(x + o.x, y + o.y) }
    function Sub(o: Vec2): Vec2 { Vec2(x - o.x, y - o.y) }
    function Scale(k: real): Vec2 { Vec2(k * x, k * y) }
  }

  const Zero2 := Vec2(0.0, 0.0)

  /** Vector2Int. */
  datatype IntVec2 = IntVec2(x: int, y: int)

  /** (a + b) / 2, the midpoint every grid strategy uses. */
  function Mid(a: Vec2, b: Vec2): Vec2 {
    Vec2((a.x + b.x) / 2.0, (a.y + b.y) / 2.0)
  }

  /** Squared Euclidean distance; comparing it orders distances as Vector2.Distance does. */
  function SqrDistance(a: Vec2, b: Vec2): real {
    (a.x - b.x) * (a.x - b.x) + (a.y - b.y) * (a.y - b.y)
  }

  /** The `Line` class of the geometry code: a start and an end point. */
  datatype Line = Line(start: Vec3, end: Vec3)

  /** A two-point edge of a grid, listed as [start, end] by the grid strategies. */
  datatype Edge = Edge(start: Vec2, end: Vec2)
}
