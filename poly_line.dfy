/**
 * `PolyLine`: an ordered list of points changed in place.  Besides adding
 * and indexing, it translates all of its points, lists the lines between
 * consecutive points and collapses runs of equal points (`Distinct`).
 */
module PolyLines {
  import opened Wrappers
  import opened Vectors
  import MathHelper

  /** Every point moved by +d (the `+` operator). */
  function Translated(s: seq<Vec3>, d: Vec3): (r: seq<Vec3>)
    ensures |r| == |s|
  {
    seq(|s|, i requires 0 <= i < |s| => s[i].Add(d))
  }

  /** Every point moved by -d (the `-` operator). */
  function TranslatedBack(s: seq<Vec3>, d: Vec3): (r: seq<Vec3>)
    ensures |r| == |s|
  {
    seq(|s|, i requires 0 <= i < |s| => s[i].Sub(d))
  }

  /** The two translations undo each other. */
  lemma TranslationsCancel(s: seq<Vec3>, d: Vec3)
    ensures TranslatedBack(Translated(s, d), d) == s
    ensures Translated(TranslatedBack(s, d), d) == s
  {
    assert forall i :: 0 <= i < |s| ==> TranslatedBack(Translated(s, d), d)[i] == s[i];
    assert forall i :: 0 <= i < |s| ==> Translated(TranslatedBack(s, d), d)[i] == s[i];
  }

  /** The lines between consecutive points, built pair by pair. */
  function Lines(s: seq<Vec3>): (r: seq<Line>)
    ensures |r| == if |s| == 0 then 0 else |s| - 1
    ensures forall i :: 0 <= i < |r| ==> r[i] == Line(s[i], s[i + 1])
  {
    if |s| < 2 then [] else [Line(s[0], s[1])] + Lines(s[1..])
  }

  /** The start points of some lines. */
  function Starts(ls: seq<Line>): (r: seq<Vec3>)
    ensures |r| == |ls| && forall i :: 0 <= i < |ls| ==> r[i] == ls[i].start
  {
    seq(|ls|, i requires 0 <= i < |ls| => ls[i].start)
  }

  /** Consecutive lines meet, and the points can be read back from the lines. */
  lemma LinesChain(s: seq<Vec3>)
    requires |s| >= 2
    ensures forall i :: 0 <= i < |Lines(s)| - 1 ==> Lines(s)[i].end == Lines(s)[i + 1].start
    ensures Starts(Lines(s)) + [Lines(s)[|s| - 2].end] == s
  {
    var ls := Lines(s);
    var back := Starts(ls) + [ls[|s| - 2].end];
    forall i | 0 <= i < |s| - 1
      ensures back[i] == s[i]
    {
      assert ls[i] == Line(s[i], s[i + 1]);
      assert back[i] == Starts(ls)[i] == ls[i].start;
    }
    assert back[|s| - 1] == ls[|s| - 2].end == s[|s| - 1];
    assert |back| == |s|;
  }

  /** The point at j equals the next one. */
  predicate IsDuplicate(s: seq<Vec3>, j: int) {
    0 <= j && j + 1 < |s| && s[j] == s[j + 1]
  }

  /** No two neighbouring points are equal. */
  predicate NoAdjacentDuplicates(s: seq<Vec3>) {
    forall j :: 0 <= j < |s| ==> !IsDuplicate(s, j)
  }

  /**
   * Each maximal run of equal points collapsed to one point: a point is
   * dropped when the next one equals it.
   */
  function Collapse(s: seq<Vec3>): (r: seq<Vec3>)
    ensures |r| <= |s|
    ensures |s| > 0 ==> |r| > 0 && r[0] == s[0] && r[|r| - 1] == s[|s| - 1]
  {
    if |s| <= 1 then s
    else (if s[0] == s[1] then [] else [s[0]]) + Collapse(s[1..])
  }

  /** A first point that differs from the next one is kept. */
  lemma CollapseKeepsFirst(t: seq<Vec3>)
    requires |t| >= 1 && !IsDuplicate(t, 0)
    ensures Collapse(t) == [t[0]] + Collapse(t[1..])
  {
    if |t| == 1 {
      assert t[1..] == [];
    }
  }

  /** A first point equal to the next one is dropped. */
  lemma CollapseDropsFirst(t: seq<Vec3>)
    requires IsDuplicate(t, 0)
    ensures Collapse(t) == Collapse(t[1..])
  {}

  /** A collapsed line has no adjacent duplicates. */
  lemma {:induction false} CollapseNoAdjacent(s: seq<Vec3>)
    ensures NoAdjacentDuplicates(Collapse(s))
  {
    if |s| > 1 {
      var u := s[1..];
      CollapseNoAdjacent(u);
      if !IsDuplicate(s, 0) {
        CollapseKeepsFirst(s);
        var r, v := Collapse(s), Collapse(u);
        forall j | 0 <= j < |r|
          ensures !IsDuplicate(r, j)
        {
          if j > 0 {
            assert !IsDuplicate(v, j - 1);
          }
        }
      } else {
        CollapseDropsFirst(s);
      }
    }
  }

  /** A line without adjacent duplicates is left as it is. */
  lemma {:induction false} CollapseKeepsClean(s: seq<Vec3>)
    requires NoAdjacentDuplicates(s)
    ensures Collapse(s) == s
  {
    if |s| > 1 {
      var u := s[1..];
      assert !IsDuplicate(s, 0);
      forall j | 0 <= j < |u|
        ensures !IsDuplicate(u, j)
      {
        assert !IsDuplicate(s, j + 1);
      }
      CollapseKeepsClean(u);
      CollapseKeepsFirst(s);
      assert [s[0]] + u == s;
    }
  }

  /** Collapsing twice is collapsing once. */
  lemma CollapseIdempotent(s: seq<Vec3>)
    ensures Collapse(Collapse(s)) == Collapse(s)
  {
    CollapseNoAdjacent(s);
    CollapseKeepsClean(Collapse(s));
  }

  /** Collapsing keeps every point value that occurs. */
  lemma {:induction false} CollapseKeepsValues(s: seq<Vec3>)
    ensures forall x :: x in Collapse(s) <==> x in s
  {
    if |s| > 1 {
      CollapseKeepsValues(s[1..]);
      assert s == [s[0]] + s[1..];
    }
  }

  lemma AppendAssociates<T>(a: seq<T>, b: seq<T>, c: seq<T>)
    ensures (a + b) + c == a + (b + c)
  {}

  /** A stretch without duplicates is copied, and collapsing resumes after it. */
  lemma {:induction false} CollapseFrom(s: seq<Vec3>, a: nat, e: nat)
    requires a <= e <= |s|
    requires forall j :: a <= j < e ==> !IsDuplicate(s, j)
    ensures s[a..e] + Collapse(s[e..]) == Collapse(s[a..])
    decreases e - a
  {
    if a < e {
      CollapseFrom(s, a + 1, e);
      var t := s[a..];
      assert t[1..] == s[a + 1..] && t[0] == s[a];
      assert !IsDuplicate(s, a);
      assert !IsDuplicate(t, 0);
      CollapseKeepsFirst(t);
      assert s[a..e] == [s[a]] + s[a + 1..e];
      AppendAssociates([s[a]], s[a + 1..e], Collapse(s[e..]));
    }
  }

  /** The indices j < n whose point equals the next one, in increasing order. */
  function Duplicates(s: seq<Vec3>, n: nat): (r: seq<nat>)
    requires n == 0 || n < |s|
    ensures forall k :: 0 <= k < |r| ==> r[k] < n && IsDuplicate(s, r[k])
  {
    if n == 0 then [] else Duplicates(s, n - 1) + (if s[n - 1] == s[n] then [n - 1] else [])
  }

  /** The last duplicate below e is followed by a stretch without duplicates. */
  lemma {:induction false} LastDuplicate(s: seq<Vec3>, e: nat, rest: seq<nat>, d: nat)
    requires e == 0 || e < |s|
    requires Duplicates(s, e) == rest + [d]
    ensures d < e && IsDuplicate(s, d) && Duplicates(s, d) == rest
    ensures forall j :: d < j < e ==> !IsDuplicate(s, j)
  {
    if e > 0 {
      if s[e - 1] == s[e] {
        var x := Duplicates(s, e - 1) + [e - 1];
        assert x[|x| - 1] == e - 1 && x[..|x| - 1] == Duplicates(s, e - 1);
        assert (rest + [d])[..|rest|] == rest;
      } else {
        assert Duplicates(s, e) == Duplicates(s, e - 1);
        LastDuplicate(s, e - 1, rest, d);
      }
    }
  }

  /** No duplicate is listed below e only when there is none. */
  lemma {:induction false} NoDuplicates(s: seq<Vec3>, e: nat)
    requires e == 0 || e < |s|
    requires Duplicates(s, e) == []
    ensures forall j :: 0 <= j < e ==> !IsDuplicate(s, j)
  {
    if e > 0 {
      NoDuplicates(s, e - 1);
    }
  }

  /** Static `Intersect`: the same Cramer's-rule intersection as `LineIntersect`. */
  function Intersect(p1: Vec3, p2: Vec3, p3: Vec3, p4: Vec3): (r: Result<Vec3>)
    ensures r.Failure? <==> MathHelper.Cross(p1, p2, p3, p4) == 0.0
  {
    MathHelper.DeterminantIsCross(p1, p2, p3, p4);
    var e1, e2 := MathHelper.EquationThrough(p1, p2), MathHelper.EquationThrough(p3, p4);
    var delta := MathHelper.Determinant(e1, e2);
    if delta == 0.0 then Failure(DivisionByZero)
    else Success(Vec3((e2.b * e1.c - e1.b * e2.c) / delta, (e1.a * e2.c - e2.a * e1.c) / delta, 0.0))
  }

  /** The static `Intersect` finds the point on both lines that `LineIntersect` finds. */
  lemma IntersectOnBothLines(p1: Vec3, p2: Vec3, p3: Vec3, p4: Vec3)
    ensures Intersect(p1, p2, p3, p4) == MathHelper.LineIntersect(p1, p2, p3, p4)
    ensures Intersect(p1, p2, p3, p4).Success? ==>
              MathHelper.OnLine(Intersect(p1, p2, p3, p4).value, p1, p2) &&
              MathHelper.OnLine(Intersect(p1, p2, p3, p4).value, p3, p4)
  {
    MathHelper.LineIntersectOnBothLines(p1, p2, p3, p4);
  }

  /** Removing index d < e from s[..e] + c leaves s[..d] followed by s[d + 1..e] + c. */
  lemma RemoveFromFront<T>(s: seq<T>, c: seq<T>, rest: seq<T>, d: nat, e: nat)
    requires d < e <= |s| && s[d + 1..e] + c == rest
    ensures d < |s[..e] + c| && (s[..e] + c)[..d] + (s[..e] + c)[d + 1..] == s[..d] + rest
  {
    var a := s[..e];
    assert (a + c)[..d] == s[..d];
    assert (a + c)[d + 1..] == a[d + 1..] + c;
    assert a[d + 1..] == s[d + 1..e];
  }

  /** Removing the duplicate d lets collapsing resume one stretch earlier. */
  lemma RemoveDuplicate(s: seq<Vec3>, pts: seq<Vec3>, d: nat, e: nat)
    requires d < e < |s| && IsDuplicate(s, d)
    requires forall j :: d < j < e ==> !IsDuplicate(s, j)
    requires pts == s[..e] + Collapse(s[e..])
    ensures d < |pts| && pts[..d] + pts[d + 1..] == s[..d] + Collapse(s[d..])
  {
    CollapseFrom(s, d + 1, e);
    assert s[d..][1..] == s[d + 1..] && IsDuplicate(s[d..], 0);
    CollapseDropsFirst(s[d..]);
    RemoveFromFront(s, Collapse(s[e..]), Collapse(s[d + 1..]), d, e);
  }

  class PolyLine {
    var points: seq<Vec3>

    /** An empty line. */
    constructor()
      ensures points == []
    {
      points := [];
    }

    /** The indexer's getter. */
    method At(key: int) returns (r: Result<Vec3>)
      ensures 0 <= key < |points| ==> r == Success(points[key])
      ensures !(0 <= key < |points|) ==> r == Failure(IndexOutOfRange)
    {
      if 0 <= key < |points| {
        r := Success(points[key]);
      } else {
        r := Failure(IndexOutOfRange);
      }
    }

    /** The indexer's setter: exactly one point is replaced. */
    method Set(key: int, value: Vec3) returns (r: Outcome)
      modifies this
      ensures 0 <= key < old(|points|) ==> r == Pass && points == old(points)[key := value]
      ensures !(0 <= key < old(|points|)) ==> r == Fail(IndexOutOfRange) && points == old(points)
    {
      if 0 <= key < |points| {
        points := points[key := value];
        r := Pass;
      } else {
        r := Fail(IndexOutOfRange);
      }
    }

    /** The instance `Intersect` ignores its arguments. */
    function Intersect(p1: Vec3, p2: Vec3): (r: Vec3)
      ensures r == Zero3
    {
      Zero3
    }

    method Add(point: Vec3)
      modifies this
      ensures points == old(points) + [point]
    {
      points := points + [point];
    }

    /** `Add(PolyLine)`: the other line's points, read before any change (it may be this line). */
    method AddPolyLine(poly: PolyLine)
      modifies this
      ensures points == old(points) + old(poly.points)
    {
      var copy := poly.GetPoints();
      points := points + copy[..];
    }

    method AddRange(pts: array<Vec3>)
      modifies this
      ensures points == old(points) + pts[..]
    {
      points := points + pts[..];
    }

    /** A fresh array holding the points. */
    method GetPoints() returns (r: array<Vec3>)
      ensures fresh(r) && r[..] == points
    {
      r := new Vec3[|points|](i requires 0 <= i < |points| reads this => points[i]);
    }

    /** The lines between consecutive points. */
    method GetLines() returns (r: seq<Line>)
      ensures r == Lines(points)
    {
      r := [];
      var i := 0;
      while i < |points|
        invariant 0 <= i <= |points|
        invariant |r| == if i == 0 then 0 else i - 1
        invariant forall k :: 0 <= k < |r| ==> r[k] == Line(points[k], points[k + 1])
      {
        if i != 0 {
          r := r + [Line(points[i - 1], points[i])];
        }
        i := i + 1;
      }
      assert |r| == |Lines(points)|;
      forall k | 0 <= k < |r|
        ensures r[k] == Lines(points)[k]
      {
        assert Lines(points)[k] == Line(points[k], points[k + 1]);
      }
    }

    /**
     * `Distinct`: the indices of points equal to their successor are
     * collected first, then removed from the highest down.
     */
    method Distinct()
      modifies this
      ensures points == Collapse(old(points))
    {
      ghost var s := points;
      var duplicates: seq<nat> := [];
      var i := 0;
      while i < |points|
        invariant 0 <= i <= |points| && points == s
        invariant duplicates == Duplicates(s, if i == 0 then 0 else i - 1)
      {
        if i != 0 && points[i - 1] == points[i] {
          duplicates := duplicates + [i - 1];
        }
        i := i + 1;
      }
      ghost var e: nat := if |s| == 0 then 0 else |s| - 1;
      if |s| > 0 {
        assert s[e..] == [s[e]];
        assert s[..e] + [s[e]] == s;
      }
      assert s[..e] + Collapse(s[e..]) == s;
      var k := |duplicates|;
      while k > 0
        invariant 0 <= k <= |duplicates|
        invariant e == 0 || e < |s|
        invariant duplicates[..k] == Duplicates(s, e)
        invariant points == s[..e] + Collapse(s[e..])
      {
        var d := duplicates[k - 1];
        assert duplicates[..k] == duplicates[..k - 1] + [d];
        LastDuplicate(s, e, duplicates[..k - 1], d);
        RemoveDuplicate(s, points, d, e);
        points := points[..d] + points[d + 1..];
        e := d;
        k := k - 1;
      }
      NoDuplicates(s, e);
      CollapseFrom(s, 0, e);
      assert s[0..] == s;
    }

    function Count(): (r: nat)
      reads this
      ensures r == |points|
    {
      |points|
    }
  }

  /** `vector + polyline`: every point is moved by +d in place, and the same line is returned. */
  method Plus(d: Vec3, p: PolyLine) returns (r: PolyLine)
    modifies p
    ensures r == p && p.points == Translated(old(p.points), d)
  {
    ghost var s := p.points;
    for i := 0 to |p.points|
      invariant |p.points| == |s|
      invariant forall j :: 0 <= j < i ==> p.points[j] == s[j].Add(d)
      invariant forall j :: i <= j < |s| ==> p.points[j] == s[j]
    {
      p.points := p.points[i := p.points[i].Add(d)];
    }
    return p;
  }

  /** `vector - polyline`: every point is moved by -d in place, and the same line is returned. */
  method Minus(d: Vec3, p: PolyLine) returns (r: PolyLine)
    modifies p
    ensures r == p && p.points == TranslatedBack(old(p.points), d)
  {
    ghost var s := p.points;
    for i := 0 to |p.points|
      invariant |p.points| == |s|
      invariant forall j :: 0 <= j < i ==> p.points[j] == s[j].Sub(d)
      invariant forall j :: i <= j < |s| ==> p.points[j] == s[j]
    {
      p.points := p.points[i := p.points[i].Sub(d)];
    }
    return p;
  }
}
