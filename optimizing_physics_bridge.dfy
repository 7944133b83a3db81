// Collision meshes from terrain outlines: ear-clipping triangulation of a
// polygon given as a point list, its winding test, the ear and convexity
// tests, and the bounding rectangle of a point list.
module OptimizingPhysicsBridge {
  import opened Common

  type Triangle = (Vec2, Vec2, Vec2)

  function Abs(r: real): (a: real)
    ensures a >= 0.0 && (a == r || a == -r)
  {
    if r < 0.0 then -r else r
  }

  /** Twice the signed area of a, b, c: positive exactly when a→b→c turns left (y up). */
  function Cross(a: Vec2, b: Vec2, c: Vec2): real {
    (b.x - a.x) * (c.y - a.y) - (b.y - a.y) * (c.x - a.x)
  }

  /** Both turns p1→p2→p3 and p2→p3→p4 are strictly to the left. */
  predicate IsConvex(p1: Vec2, p2: Vec2, p3: Vec2, p4: Vec2) {
    Cross(p1, p2, p3) > 0.0 && Cross(p2, p3, p4) > 0.0
  }

  /** The area of the triangle a, b, c: half the absolute cross product of two of its sides. */
  function Area(a: Vec2, b: Vec2, c: Vec2): (r: real)
    ensures r >= 0.0
  {
    0.5 * Abs((b.x - a.x) * (c.y - a.y) - (c.x - a.x) * (b.y - a.y))
  }

  /** `point_in_triangle`: the three sub-triangles at p have the triangle's area, within 0.001. */
  predicate PointInTriangle(p: Vec2, a: Vec2, b: Vec2, c: Vec2) {
    Abs(Area(p, a, b) + Area(p, b, c) + Area(p, c, a) - Area(a, b, c)) < 0.001
  }

  /** Each corner of a triangle lies in it. */
  lemma CornersInTriangle(a: Vec2, b: Vec2, c: Vec2)
    ensures PointInTriangle(a, a, b, c) && PointInTriangle(b, a, b, c) && PointInTriangle(c, a, b, c)
  {
    assert Area(a, a, b) == 0.0 && Area(a, c, a) == 0.0;
    assert Area(b, a, b) == 0.0 && Area(b, b, c) == 0.0 && Area(b, c, a) == Area(a, b, c);
    assert Area(c, b, c) == 0.0 && Area(c, c, a) == 0.0 && Area(c, a, b) == Area(a, b, c);
  }

  // ---------------------------------------------------------------------
  // Polygon indices and orientation
  // ---------------------------------------------------------------------

  function Prev(n: nat, i: nat): (r: nat)
    requires i < n
    ensures r < n && (i == 0 ==> r == n - 1) && (i > 0 ==> r == i - 1)
  {
    if i == 0 then n - 1 else i - 1
  }

  function Next(n: nat, i: nat): (r: nat)
    requires i < n
    ensures r < n && (i < n - 1 ==> r == i + 1) && (i == n - 1 ==> r == 0)
  {
    if i + 1 < n then i + 1 else 0
  }

  /** The source's `(i + 1) % n` is the next index round the polygon. */
  lemma ModNext(n: nat, i: nat)
    requires i < n
    ensures (i + 1) % n == Next(n, i)
  {
    if i + 1 == n {
      assert (i + 1) % n == 0;
    }
  }

  function Reverse<T>(s: seq<T>): (r: seq<T>)
    ensures |r| == |s|
  {
    if s == [] then [] else Reverse(s[1..]) + [s[0]]
  }

  lemma {:induction false} ReverseAt<T>(s: seq<T>, i: nat)
    requires i < |s|
    ensures Reverse(s)[i] == s[|s| - 1 - i]
  {
    if i < |s| - 1 {
      ReverseAt(s[1..], i);
    }
  }

  lemma {:induction false} ReverseMultiset<T>(s: seq<T>)
    ensures multiset(Reverse(s)) == multiset(s)
  {
    if s != [] {
      ReverseMultiset(s[1..]);
      assert s == [s[0]] + s[1..];
    }
  }

  /** The shoelace term of the edge p1→p2. */
  function Term(p1: Vec2, p2: Vec2): real {
    (p2.x - p1.x) * (p2.y + p1.y)
  }

  /** Shoelace terms along the open chain s[0]→s[1]→…→s[|s|-1]. */
  function Chain(s: seq<Vec2>): real {
    if |s| < 2 then 0.0 else Term(s[0], s[1]) + Chain(s[1..])
  }

  /** Shoelace terms of the closed polygon: the chain plus the closing edge. */
  function Winding(s: seq<Vec2>): real {
    if s == [] then 0.0 else Chain(s) + Term(s[|s| - 1], s[0])
  }

  lemma {:induction false} ChainSnoc(s: seq<Vec2>, p: Vec2)
    requires s != []
    ensures Chain(s + [p]) == Chain(s) + Term(s[|s| - 1], p)
  {
    if |s| >= 2 {
      assert (s + [p])[1..] == s[1..] + [p];
      ChainSnoc(s[1..], p);
    } else {
      assert (s + [p])[1..] == [p];
    }
  }

  lemma TermAntisymmetric(p1: Vec2, p2: Vec2)
    ensures Term(p2, p1) == -Term(p1, p2)
  {
  }

  /** Walking a chain backwards negates every term. */
  lemma {:induction false} ChainReverse(s: seq<Vec2>)
    ensures Chain(Reverse(s)) == -Chain(s)
  {
    if |s| >= 2 {
      var r := Reverse(s[1..]);
      ChainReverse(s[1..]);
      ReverseAt(s[1..], |s| - 2);
      assert r[|r| - 1] == s[1];
      ChainSnoc(r, s[0]);
      TermAntisymmetric(s[0], s[1]);
      calc {
        Chain(Reverse(s));
        Chain(r + [s[0]]);
        Chain(r) + Term(s[1], s[0]);
        -Chain(s[1..]) - Term(s[0], s[1]);
        -Chain(s);
      }
    } else if |s| == 1 {
      assert Reverse(s) == [s[0]];
    }
  }

  /** Reversing a polygon negates its winding sum. */
  lemma WindingReverse(s: seq<Vec2>)
    ensures Winding(Reverse(s)) == -Winding(s)
  {
    if s != [] {
      var r := Reverse(s);
      ChainReverse(s);
      ReverseAt(s, 0);
      ReverseAt(s, |s| - 1);
      TermAntisymmetric(s[|s| - 1], s[0]);
      assert Term(r[|r| - 1], r[0]) == -Term(s[|s| - 1], s[0]);
    }
  }

  /** `is_counter_clockwise`: the winding sum is positive. */
  method IsCounterClockwise(points: seq<Vec2>) returns (ccw: bool)
    ensures ccw <==> Winding(points) > 0.0
  {
    var n := |points|;
    var sum := 0.0;
    var i := 0;
    while i < n
      invariant 0 <= i <= n
      invariant i < n ==> sum == Chain(points[..i + 1])
      invariant i == n ==> sum == Winding(points)
    {
      var p1 := points[i];
      ModNext(n, i);
      var p2 := points[(i + 1) % n];
      sum := sum + Term(p1, p2);
      if i + 1 < n {
        assert points[..i + 2] == points[..i + 1] + [points[i + 1]];
        ChainSnoc(points[..i + 1], points[i + 1]);
      } else {
        assert points[..i + 1] == points;
      }
      i := i + 1;
    }
    ccw := sum > 0.0;
  }

  /** The polygon the triangulation works on: the input, reversed unless `is_counter_clockwise` holds for it. */
  function Working(points: seq<Vec2>): seq<Vec2> {
    if Winding(points) > 0.0 then points else Reverse(points)
  }

  /**
   * The working polygon has the input's points and a non-negative shoelace
   * sum. With y pointing up that sum is minus twice the signed area, so the
   * working polygon winds clockwise (or is degenerate), contrary to what the
   * test's name intends.
   */
  lemma WorkingOrientation(points: seq<Vec2>)
    ensures multiset(Working(points)) == multiset(points)
    ensures Winding(Working(points)) >= 0.0
    ensures Winding(points) > 0.0 ==> Working(points) == points
  {
    ReverseMultiset(points);
    WindingReverse(points);
  }

  // ---------------------------------------------------------------------
  // Ears
  // ---------------------------------------------------------------------

  /**
   * `is_ear` at index i: the corner prev(i), i, next(i) is convex (together
   * with the vertex after next) and no other vertex lies in its triangle.
   */
  predicate Ear(p: seq<Vec2>, i: nat)
    requires i < |p|
  {
    var n := |p|;
    IsConvex(p[Prev(n, i)], p[i], p[Next(n, i)], p[Next(n, Next(n, i))]) &&
    forall j :: 0 <= j < n && j != Prev(n, i) && j != i && j != Next(n, i) ==>
      !PointInTriangle(p[j], p[Prev(n, i)], p[i], p[Next(n, i)])
  }

  method IsEar(points: seq<Vec2>, index: nat) returns (ear: bool)
    requires index < |points|
    ensures ear <==> Ear(points, index)
  {
    var len := |points|;
    var prev := if index == 0 then len - 1 else index - 1;
    ModNext(len, index);
    var next := (index + 1) % len;
    ModNext(len, next);
    var p1, p2, p3 := points[prev], points[index], points[next];
    if !IsConvex(p1, p2, p3, points[(next + 1) % len]) {
      return false;
    }
    var i := 0;
    while i < len
      invariant 0 <= i <= len
      invariant forall j :: 0 <= j < i && j != prev && j != index && j != next ==>
        !PointInTriangle(points[j], p1, p2, p3)
    {
      if i != prev && i != index && i != next {
        if PointInTriangle(points[i], p1, p2, p3) {
          return false;
        }
      }
      i := i + 1;
    }
    return true;
  }

  /** The first ear at or after index `from`. */
  function FirstEar(p: seq<Vec2>, from: nat): (r: Option<nat>)
    ensures r.Some? ==> from <= r.value < |p| && Ear(p, r.value)
    decreases |p| - from
  {
    if from >= |p| then None else if Ear(p, from) then Some(from) else FirstEar(p, from + 1)
  }

  lemma {:induction false} FirstEarIs(p: seq<Vec2>, from: nat, i: nat)
    requires from <= i < |p| && Ear(p, i)
    requires forall j :: from <= j < i ==> !Ear(p, j)
    ensures FirstEar(p, from) == Some(i)
    decreases |p| - from
  {
    hide Ear;
    if from < i {
      FirstEarIs(p, from + 1, i);
    }
  }

  lemma {:induction false} FirstEarNone(p: seq<Vec2>, from: nat)
    requires forall j :: from <= j < |p| ==> !Ear(p, j)
    ensures FirstEar(p, from) == None
    decreases |p| - from
  {
    hide Ear;
    if from < |p| {
      FirstEarNone(p, from + 1);
    }
  }

  function EarTriangle(p: seq<Vec2>, i: nat): Triangle
    requires i < |p|
  {
    (p[Prev(|p|, i)], p[i], p[Next(|p|, i)])
  }

  function RemoveAt<T>(s: seq<T>, i: nat): (r: seq<T>)
    requires i < |s|
    ensures |r| == |s| - 1
  {
    s[..i] + s[i + 1..]
  }

  /**
   * The triangles ear clipping produces: clip the first ear and go on with
   * the vertex removed, until fewer than three vertices or no ear remain.
   */
  function Triangulate(p: seq<Vec2>): seq<Triangle>
    decreases |p|
  {
    if |p| < 3 then []
    else match FirstEar(p, 0)
      case None => []
      case Some(i) => [EarTriangle(p, i)] + Triangulate(RemoveAt(p, i))
  }

  /** The vertices left when clipping stops. */
  function Remaining(p: seq<Vec2>): seq<Vec2>
    decreases |p|
  {
    if |p| < 3 then p
    else match FirstEar(p, 0)
      case None => p
      case Some(i) => Remaining(RemoveAt(p, i))
  }

  /** Every clip trades one vertex for one triangle, and at least two vertices stay. */
  lemma {:induction false} TriangulateCount(p: seq<Vec2>)
    ensures |Triangulate(p)| + |Remaining(p)| == |p|
    ensures |p| >= 3 ==> |Triangulate(p)| <= |p| - 2
    ensures |p| >= 2 ==> |Remaining(p)| >= 2
    decreases |p|
  {
    if |p| >= 3 {
      match FirstEar(p, 0)
      case None =>
      case Some(i) => TriangulateCount(RemoveAt(p, i));
    }
  }

  /** Every corner of every triangle is a vertex of the polygon. */
  lemma {:induction false} TriangulateVertices(p: seq<Vec2>)
    ensures forall t :: t in Triangulate(p) ==> t.0 in p && t.1 in p && t.2 in p
    decreases |p|
  {
    if |p| >= 3 {
      match FirstEar(p, 0)
      case None =>
      case Some(i) =>
        var q := RemoveAt(p, i);
        TriangulateVertices(q);
        forall v | v in q
          ensures v in p
        {
          var k :| 0 <= k < |q| && q[k] == v;
          if k < i {
            assert q[k] == p[k];
          } else {
            assert q[k] == p[k + 1];
          }
        }
    }
  }

  /** One clip: the first ear's triangle is produced, then the polygon without that vertex is clipped. */
  lemma ClipStep(p: seq<Vec2>, i: nat, done: seq<Triangle>)
    requires |p| >= 3 && FirstEar(p, 0) == Some(i)
    ensures done + Triangulate(p) == (done + [EarTriangle(p, i)]) + Triangulate(RemoveAt(p, i))
  {
    assert Triangulate(p) == [EarTriangle(p, i)] + Triangulate(RemoveAt(p, i));
  }

  /** `ear_clipping_triangulation`. */
  method EarClippingTriangulation(points: seq<Vec2>) returns (triangles: seq<Triangle>)
    ensures |points| < 3 ==> triangles == []
    ensures |points| >= 3 ==> triangles == Triangulate(Working(points))
  {
    if |points| < 3 {
      return [];
    }
    var remaining := points;
    triangles := [];
    var ccw := IsCounterClockwise(remaining);
    if !ccw {
      remaining := Reverse(remaining);
    }
    assert remaining == Working(points);
    while |remaining| >= 3
      invariant triangles + Triangulate(remaining) == Triangulate(Working(points))
      decreases |remaining|
    {
      var earFound := false;
      var n := |remaining|;
      ghost var r0, t0 := remaining, triangles;
      var i := 0;
      while i < n
        invariant 0 <= i <= n == |remaining|
        invariant remaining == r0 && triangles == t0 && !earFound
        invariant forall j :: 0 <= j < i ==> !Ear(remaining, j)
      {
        var ear := IsEar(remaining, i);
        if ear {
          FirstEarIs(remaining, 0, i);
          var prev := if i == 0 then n - 1 else i - 1;
          ModNext(n, i);
          var next := (i + 1) % n;
          ClipStep(r0, i, t0);
          triangles := triangles + [(remaining[prev], remaining[i], remaining[next])];
          remaining := remaining[..i] + remaining[i + 1..];
          earFound := true;
          break;
        }
        i := i + 1;
      }
      if !earFound {
        FirstEarNone(remaining, 0);
        break;
      }
    }
  }

  /** The count and vertex properties of the triangulation, for any input. */
  lemma EarClippingProperties(points: seq<Vec2>)
    requires |points| >= 3
    ensures |Triangulate(Working(points))| <= |points| - 2
    ensures forall t :: t in Triangulate(Working(points)) ==> t.0 in points && t.1 in points && t.2 in points
  {
    var w := Working(points);
    WorkingOrientation(points);
    TriangulateCount(w);
    TriangulateVertices(w);
    forall v | v in w
      ensures v in points
    {
      assert v in multiset(w);
    }
  }

  // ---------------------------------------------------------------------
  // Orientation of a triangle, as written and as intended
  // ---------------------------------------------------------------------

  /** The shoelace sum of a triangle is minus twice its signed area. */
  lemma TriangleWinding(a: Vec2, b: Vec2, c: Vec2)
    ensures Winding([a, b, c]) == -Cross(a, b, c)
  {
    assert [a, b, c][1..] == [b, c] && [b, c][1..] == [c];
    assert Chain([b, c]) == Term(b, c) + Chain([c]) == Term(b, c);
  }

  lemma CrossRotate(a: Vec2, b: Vec2, c: Vec2)
    ensures Cross(a, b, c) == Cross(b, c, a) == Cross(c, a, b)
  {
  }

  lemma ReverseTriangle(a: Vec2, b: Vec2, c: Vec2)
    ensures Reverse([a, b, c]) == [c, b, a]
  {
    ReverseAt([a, b, c], 0);
    ReverseAt([a, b, c], 1);
    ReverseAt([a, b, c], 2);
  }

  /**
   * As written, no triangle is ever clipped, whichever way it winds: the
   * working copy never has positive signed area, and `is_convex` demands a
   * strict left turn at the corner.
   */
  lemma TriangleNeverClipped(a: Vec2, b: Vec2, c: Vec2)
    ensures Triangulate(Working([a, b, c])) == []
  {
    var w := Working([a, b, c]);
    ReverseTriangle(a, b, c);
    assert w == [w[0], w[1], w[2]];
    WorkingOrientation([a, b, c]);
    TriangleWinding(w[0], w[1], w[2]);
    TriangleNoEar(w);
    FirstEarNone(w, 0);
  }

  /** A triangle that does not turn left has no convex corner, so no ear. */
  lemma TriangleNoEar(p: seq<Vec2>)
    requires |p| == 3 && Cross(p[0], p[1], p[2]) <= 0.0
    ensures forall i :: 0 <= i < 3 ==> !Ear(p, i)
  {
    CrossRotate(p[0], p[1], p[2]);
  }

  /**
   * The working polygon as the source's comment intends it: kept when it
   * already winds counter-clockwise, which for this shoelace sum means a
   * negative sum, and reversed otherwise.
   */
  function WorkingIntended(points: seq<Vec2>): (r: seq<Vec2>)
    ensures multiset(r) == multiset(points)
    ensures Winding(r) <= 0.0 && (Winding(points) != 0.0 ==> Winding(r) < 0.0)
    ensures Winding(points) < 0.0 ==> r == points
  {
    ReverseMultiset(points);
    WindingReverse(points);
    if Winding(points) < 0.0 then points else Reverse(points)
  }

  /**
   * With the intended orientation a non-degenerate triangle is clipped as
   * one ear: exactly one triangle, whose corners are the three points and
   * which turns left.
   */
  lemma TriangleClippedIntended(a: Vec2, b: Vec2, c: Vec2)
    requires Cross(a, b, c) != 0.0
    ensures var t := Triangulate(WorkingIntended([a, b, c]));
      |t| == 1 && multiset{t[0].0, t[0].1, t[0].2} == multiset{a, b, c} && Cross(t[0].0, t[0].1, t[0].2) > 0.0
  {
    hide Triangulate, Winding, Cross, Reverse, WorkingIntended;
    var w := WorkingIntended([a, b, c]);
    IntendedTriangleTurnsLeft(a, b, c);
    TriangleOneEar(w);
  }

  /** The intended working copy of a non-degenerate triangle holds its three points and turns left. */
  lemma IntendedTriangleTurnsLeft(a: Vec2, b: Vec2, c: Vec2)
    requires Cross(a, b, c) != 0.0
    ensures var w := WorkingIntended([a, b, c]);
      |w| == 3 && multiset(w) == multiset{a, b, c} && Cross(w[0], w[1], w[2]) > 0.0
  {
    hide Triangulate, Reverse, WorkingIntended;
    var w := WorkingIntended([a, b, c]);
    TriangleWinding(a, b, c);
    assert multiset([a, b, c]) == multiset{a, b, c};
    assert w == [w[0], w[1], w[2]];
    TriangleWinding(w[0], w[1], w[2]);
  }

  /** A triangle that turns left is its own ear at corner 0, and clipping it leaves two vertices. */
  lemma TriangleOneEar(p: seq<Vec2>)
    requires |p| == 3 && Cross(p[0], p[1], p[2]) > 0.0
    ensures Triangulate(p) == [(p[2], p[0], p[1])]
    ensures var t := Triangulate(p)[0]; multiset{t.0, t.1, t.2} == multiset(p) && Cross(t.0, t.1, t.2) > 0.0
  {
    CrossRotate(p[0], p[1], p[2]);
    assert Ear(p, 0);
    assert FirstEar(p, 0) == Some(0);
    assert Triangulate(RemoveAt(p, 0)) == [];
    RotateMultiset3(p);
  }

  lemma RotateMultiset3<T>(p: seq<T>)
    requires |p| == 3
    ensures multiset{p[2], p[0], p[1]} == multiset(p)
  {
    assert p == [p[0], p[1], p[2]];
  }

  // ---------------------------------------------------------------------
  // Bounding rectangle
  // ---------------------------------------------------------------------

  datatype Rect = Rect(minX: real, minY: real, maxX: real, maxY: real)

  predicate Contains(r: Rect, p: Vec2) {
    r.minX <= p.x <= r.maxX && r.minY <= p.y <= r.maxY
  }

  /** `calculate_aabb`: the zero rectangle for no points, otherwise the tightest box around them. */
  method CalculateAabb(points: seq<Vec2>) returns (r: Rect)
    ensures points == [] ==> r == Rect(0.0, 0.0, 0.0, 0.0)
    ensures forall k :: 0 <= k < |points| ==> Contains(r, points[k])
    ensures points != [] ==>
      (exists k :: 0 <= k < |points| && points[k].x == r.minX) &&
      (exists k :: 0 <= k < |points| && points[k].x == r.maxX) &&
      (exists k :: 0 <= k < |points| && points[k].y == r.minY) &&
      (exists k :: 0 <= k < |points| && points[k].y == r.maxY)
  {
    if points == [] {
      return Rect(0.0, 0.0, 0.0, 0.0);
    }
    var minX, maxX, minY, maxY := points[0].x, points[0].x, points[0].y, points[0].y;
    var i := 0;
    while i < |points|
      invariant 0 <= i <= |points|
      invariant forall k :: 0 <= k < i ==> minX <= points[k].x <= maxX && minY <= points[k].y <= maxY
      invariant exists k :: 0 <= k < |points| && points[k].x == minX
      invariant exists k :: 0 <= k < |points| && points[k].x == maxX
      invariant exists k :: 0 <= k < |points| && points[k].y == minY
      invariant exists k :: 0 <= k < |points| && points[k].y == maxY
    {
      var p := points[i];
      minX := MinR(minX, p.x);
      maxX := MaxR(maxX, p.x);
      minY := MinR(minY, p.y);
      maxY := MaxR(maxY, p.y);
      i := i + 1;
    }
    r := Rect(minX, minY, maxX, maxY);
  }

  datatype OptimizedCollider = OptimizedCollider(triangles: seq<Triangle>, aabb: Rect)

  /** `OptimizedCollider::new`: the triangulation and the bounding box of the same points. */
  method NewCollider(points: seq<Vec2>) returns (c: OptimizedCollider)
    ensures |points| < 3 ==> c.triangles == []
    ensures |points| >= 3 ==> c.triangles == Triangulate(Working(points))
    ensures forall k :: 0 <= k < |points| ==> Contains(c.aabb, points[k])
  {
    var t := EarClippingTriangulation(points);
    var b := CalculateAabb(points);
    c := OptimizedCollider(t, b);
  }
}
