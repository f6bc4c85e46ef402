/** Point-in-polygon by ray crossing (polygon.cpp).  A polygon is a closed list of vertices, convex or
    not, and may cross itself. */
module RayCrossings {

  datatype Point = Point(x: real, y: real)

  /** The edge has an end on each side of the ray's line; the lower side is open. */
  predicate Straddles(p: Point, a: Point, b: Point) {
    (p.y <= a.y) == (p.y > b.y)
  }

  function CrossX(p: Point, a: Point, b: Point): real
    requires Straddles(p, a, b)
  {
    a.x + (p.y - a.y) * (b.x - a.x) / (b.y - a.y)
  }

  predicate Crosses(p: Point, a: Point, b: Point) {
    Straddles(p, a, b) && CrossX(p, a, b) > p.x
  }

  /** Where the edge crosses the ray, in terms of which side of the edge the point is on. */
  function Orient(a: Point, b: Point, c: Point): real {
    (b.x - a.x) * (c.y - a.y) - (b.y - a.y) * (c.x - a.x)
  }

  // ---------------------------------------------------------------------------------------------
  // One edge

  lemma Quotients(u: real, v: real, d: real)
    requires d != 0.0
    ensures d > 0.0 ==> (u / d > v <==> u > v * d)
    ensures d < 0.0 ==> (u / d > v <==> u < v * d)
  {
    var q := u / d;
    assert q * d == u;
    assert (q - v) * d == u - v * d;
    Signs(q - v, d);
  }

  lemma Signs(a: real, b: real)
    ensures a * b > 0.0 <==> (a > 0.0 && b > 0.0) || (a < 0.0 && b < 0.0)
    ensures a * b < 0.0 <==> (a > 0.0 && b < 0.0) || (a < 0.0 && b > 0.0)
  {
  }

  /** An edge that goes up crosses the ray when the point is to its left; one that goes down, when the
      point is to its right. */
  lemma CrossesBySide(p: Point, a: Point, b: Point)
    ensures Crosses(p, a, b) <==> if a.y < p.y <= b.y then Orient(a, b, p) > 0.0
                                  else b.y < p.y <= a.y && Orient(a, b, p) < 0.0
  {
    if Straddles(p, a, b) {
      Quotients((p.y - a.y) * (b.x - a.x), p.x - a.x, b.y - a.y);
    }
  }

  lemma OrientFlips(a: Point, b: Point, p: Point)
    ensures Orient(b, a, p) == -Orient(a, b, p)
  {
  }

  lemma CrossesIsSymmetric(p: Point, a: Point, b: Point)
    ensures Crosses(p, a, b) == Crosses(p, b, a)
  {
    hide Crosses, Orient;
    CrossesBySide(p, a, b);
    CrossesBySide(p, b, a);
    OrientFlips(a, b, p);
  }

  /** A crossing lies between the ends of its edge. */
  lemma CrossingIsBetween(p: Point, a: Point, b: Point)
    requires Straddles(p, a, b)
    ensures p.x < a.x && p.x < b.x ==> Crosses(p, a, b)
    ensures p.x >= a.x && p.x >= b.x ==> !Crosses(p, a, b)
  {
    hide Crosses, Orient;
    CrossesBySide(p, a, b);
    OrientAsSides(a, b, p);
    Signs(b.x - p.x, p.y - a.y);
    Signs(a.x - p.x, b.y - p.y);
  }

  lemma OrientAsSides(a: Point, b: Point, p: Point)
    ensures Orient(a, b, p) == (b.x - p.x) * (p.y - a.y) + (a.x - p.x) * (b.y - p.y)
  {
  }

  // ---------------------------------------------------------------------------------------------
  // Paths and closed polygons

  /** Whether a path crosses the ray an odd number of times. */
  function Odd(p: Point, s: seq<Point>): bool {
    if |s| < 2 then false else Odd(p, s[..|s| - 1]) != Crosses(p, s[|s| - 2], s[|s| - 1])
  }

  /** The closed polygon as a path: from its last vertex round to its last vertex. */
  function Closed(poly: seq<Point>): seq<Point> {
    if poly == [] then [] else [poly[|poly| - 1]] + poly
  }

  /** Ray crossing: the point is inside when a closed walk along the boundary crosses the ray an odd
      number of times. */
  function Inside(p: Point, poly: seq<Point>): bool {
    Odd(p, Closed(poly))
  }

  /** The loop: `i` trails `j` and starts at the last vertex. */
  method IsPointInside(poly: seq<Point>, p: Point) returns (res: bool)
    ensures res == Inside(p, poly)
  {
    hide Crosses, Odd;
    res := false;
    var i := |poly| - 1;
    ghost var walk := Closed(poly);
    OddShort(p, walk[..if poly == [] then 0 else 1]);
    for j := 0 to |poly|
      invariant i == if j == 0 then |poly| - 1 else j - 1
      invariant if poly == [] then !res else res == Odd(p, walk[..j + 1])
    {
      OddNext(p, walk, j);
      assert walk[j] == poly[i] && walk[j + 1] == poly[j];
      CrossesWhen(p, poly[i], poly[j]);
      if (p.y <= poly[i].y) == (p.y > poly[j].y) {
        var xInter := CrossX(p, poly[i], poly[j]);
        if xInter > p.x {
          res := !res;
        }
      }
      i := j;
    }
    assert walk[..|walk|] == walk;
    OddShort(p, []);
  }

  lemma OddShort(p: Point, s: seq<Point>)
    requires |s| < 2
    ensures !Odd(p, s)
  {
  }

  lemma OddNext(p: Point, s: seq<Point>, k: nat)
    requires k + 1 < |s|
    ensures Odd(p, s[..k + 2]) == (Odd(p, s[..k + 1]) != Crosses(p, s[k], s[k + 1]))
  {
    assert s[..k + 2][..k + 1] == s[..k + 1];
  }

  lemma CrossesWhen(p: Point, a: Point, b: Point)
    ensures Crosses(p, a, b) <==> Straddles(p, a, b) && CrossX(p, a, b) > p.x
  {
  }

  method GetPointsInside(poly: seq<Point>, points: seq<Point>) returns (num: nat)
    ensures num == CountInside(poly, points)
  {
    num := 0;
    for k := 0 to |points|
      invariant num == CountInside(poly, points[..k])
    {
      assert points[..k + 1][..k] == points[..k];
      var inside := IsPointInside(poly, points[k]);
      if inside {
        num := num + 1;
      }
    }
    assert points[..|points|] == points;
  }

  function CountInside(poly: seq<Point>, points: seq<Point>): nat {
    if points == [] then 0
    else CountInside(poly, points[..|points| - 1]) + (if Inside(points[|points| - 1], poly) then 1 else 0)
  }

  // ---------------------------------------------------------------------------------------------
  // Joining and turning paths

  /** Paths that share an end add up. */
  lemma {:induction false} OddJoins(p: Point, s: seq<Point>, v: Point, t: seq<Point>)
    ensures Odd(p, s + [v] + t) == (Odd(p, s + [v]) != Odd(p, [v] + t))
  {
    hide Crosses;
    if t == [] {
      assert s + [v] + t == s + [v];
      assert [v] + t == [v];
    } else {
      var (u, w) := (s + [v] + t, [v] + t);
      var rest := t[..|t| - 1];
      assert u[..|u| - 1] == s + [v] + rest;
      assert w[..|w| - 1] == [v] + rest;
      assert u[|u| - 2] == w[|w| - 2] && u[|u| - 1] == w[|w| - 1];
      OddJoins(p, s, v, rest);
    }
  }

  function Reversed(s: seq<Point>): seq<Point> {
    if s == [] then [] else [s[|s| - 1]] + Reversed(s[..|s| - 1])
  }

  lemma {:induction false} ReversedEnds(s: seq<Point>)
    ensures |Reversed(s)| == |s|
    ensures s != [] ==> Reversed(s)[0] == s[|s| - 1] && Reversed(s)[|s| - 1] == s[0]
  {
    if |s| > 0 {
      ReversedEnds(s[..|s| - 1]);
    }
  }

  lemma {:induction false} ReversedJoins(s: seq<Point>, t: seq<Point>)
    ensures Reversed(s + t) == Reversed(t) + Reversed(s)
  {
    if t == [] {
      assert s + t == s;
    } else {
      assert (s + t)[..|s + t| - 1] == s + t[..|t| - 1];
      ReversedJoins(s, t[..|t| - 1]);
    }
  }

  /** A path walked backwards crosses as often. */
  lemma {:induction false} OddReverses(p: Point, s: seq<Point>)
    ensures Odd(p, Reversed(s)) == Odd(p, s)
  {
    hide Crosses;
    if |s| >= 2 {
      var (front, a, b) := (s[..|s| - 1], s[|s| - 2], s[|s| - 1]);
      OddReverses(p, front);
      ReversedEnds(front);
      CrossesIsSymmetric(p, a, b);
      assert Reversed(s) == [b] + [a] + Reversed(front)[1..];
      assert [a] + Reversed(front)[1..] == Reversed(front);
      OddJoins(p, [b], a, Reversed(front)[1..]);
      assert [b, a][..1] == [b];
      assert [b] + [a] == [b, a];
    }
  }

  // ---------------------------------------------------------------------------------------------
  // The answer depends on the polygon, not on how its vertices are listed

  /** A closed polygon may be walked from its first vertex as well. */
  lemma InsideFromFirst(p: Point, poly: seq<Point>)
    requires poly != []
    ensures Inside(p, poly) == Odd(p, poly + [poly[0]])
  {
    hide Crosses, Odd;
    var (first, last, front) := (poly[0], poly[|poly| - 1], poly[..|poly| - 1]);
    var edge := [last] + [first];
    assert Odd(p, Closed(poly)) == (Odd(p, edge) != Odd(p, poly)) by {
      assert [first] + poly[1..] == poly;
      assert Closed(poly) == edge + poly[1..];
      OddJoins(p, [last], first, poly[1..]);
    }
    assert Odd(p, poly + [first]) == (Odd(p, poly) != Odd(p, edge)) by {
      assert front + [last] == poly;
      OddJoins(p, front, last, [first]);
    }
  }

  lemma OneEdge(p: Point, a: Point, b: Point)
    ensures Odd(p, [a] + [b]) == Crosses(p, a, b)
  {
    assert ([a] + [b])[..1] == [a];
  }

  lemma RotationKeepsInside(p: Point, poly: seq<Point>, k: nat)
    requires k <= |poly|
    ensures Inside(p, poly[k..] + poly[..k]) == Inside(p, poly)
  {
    hide Crosses, Odd;
    if k == 0 || k == |poly| {
      assert poly[k..] + poly[..k] == poly;
    } else {
      assert poly == poly[..k] + poly[k..];
      SwapHalves(p, poly[..k], poly[k..]);
    }
  }

  lemma SwapHalves(p: Point, s: seq<Point>, t: seq<Point>)
    requires s != [] && t != []
    ensures Inside(p, t + s) == Inside(p, s + t)
  {
    hide Crosses, Odd, Inside;
    var (a, b) := (s[0], t[0]);
    InsideFromFirst(p, s + t);
    InsideFromFirst(p, t + s);
    RoundTheHalves(p, s, t);
    RoundTheHalves(p, t, s);
    assert (s + t)[0] == a && (t + s)[0] == b;
  }

  lemma RoundTheHalves(p: Point, s: seq<Point>, t: seq<Point>)
    requires s != [] && t != []
    ensures Odd(p, s + t + [s[0]]) == (Odd(p, s + [t[0]]) != Odd(p, t + [s[0]]))
  {
    hide Crosses, Odd;
    var rest := t[1..] + [s[0]];
    assert [t[0]] + rest == t + [s[0]];
    assert s + [t[0]] + rest == s + t + [s[0]];
    OddJoins(p, s, t[0], rest);
  }

  lemma ReversalKeepsInside(p: Point, poly: seq<Point>)
    ensures Inside(p, Reversed(poly)) == Inside(p, poly)
  {
    hide Crosses, Odd, Reversed;
    if poly != [] {
      var first := poly[0];
      InsideFromFirst(p, poly);
      ReversedEnds(poly);
      ReversedJoins(poly, [first]);
      ReversedOne(first);
      assert Closed(Reversed(poly)) == Reversed(poly + [first]);
      OddReverses(p, poly + [first]);
    } else {
      ReversedEnds(poly);
    }
  }

  lemma ReversedOne(v: Point)
    ensures Reversed([v]) == [v]
  {
    assert [v][..0] == [];
  }

  /** Cutting a polygon along a chord: the parts are told apart by parity. */
  lemma CutAlongChord(p: Point, a: Point, s: seq<Point>, b: Point, t: seq<Point>)
    ensures Inside(p, [a] + s + [b] + t) == (Inside(p, [a] + s + [b]) != Inside(p, [a] + [b] + t))
  {
    hide Crosses, Odd, Inside;
    var u := [a] + s;
    assert [a] + s + [b] + t == u + ([b] + t);
    FromFirst(p, u, [b] + t);
    FromFirst(p, u, [b]);
    FromFirst(p, [a], [b] + t);
    assert [a] + ([b] + t) == [a] + [b] + t;
    RoundTheHalves(p, u, [b] + t);
    RoundTheHalves(p, u, [b]);
    RoundTheHalves(p, [a], [b] + t);
    OneEdge(p, a, b);
    OneEdge(p, b, a);
    CrossesIsSymmetric(p, a, b);
  }

  lemma FromFirst(p: Point, s: seq<Point>, t: seq<Point>)
    requires s != []
    ensures Inside(p, s + t) == Odd(p, s + t + [s[0]])
  {
    hide Inside;
    InsideFromFirst(p, s + t);
  }

  // ---------------------------------------------------------------------------------------------
  // Outside the bounding box

  ghost predicate OutsideBox(p: Point, poly: seq<Point>) {
    || (forall i :: 0 <= i < |poly| ==> p.x < poly[i].x)
    || (forall i :: 0 <= i < |poly| ==> poly[i].x < p.x)
    || (forall i :: 0 <= i < |poly| ==> p.y < poly[i].y)
    || (forall i :: 0 <= i < |poly| ==> poly[i].y < p.y)
  }

  /** A path with the point to its left crosses the ray oddly when its ends are on opposite sides. */
  lemma {:induction false} LeftOfPath(p: Point, s: seq<Point>)
    requires s != [] && forall i :: 0 <= i < |s| ==> p.x < s[i].x
    ensures Odd(p, s) == Straddles(p, s[0], s[|s| - 1])
  {
    hide Crosses;
    if |s| >= 2 {
      LeftOfPath(p, s[..|s| - 1]);
      var (a, b) := (s[|s| - 2], s[|s| - 1]);
      if Straddles(p, a, b) {
        CrossingIsBetween(p, a, b);
      } else {
        CrossesWhen(p, a, b);
      }
    }
  }

  lemma {:induction false} NeverCrosses(p: Point, s: seq<Point>)
    requires (forall i :: 0 <= i < |s| ==> s[i].x < p.x) || (forall i :: 0 <= i < |s| ==> p.y < s[i].y)
             || (forall i :: 0 <= i < |s| ==> s[i].y < p.y)
    ensures !Odd(p, s)
  {
    hide Crosses;
    if |s| >= 2 {
      NeverCrosses(p, s[..|s| - 1]);
      var (a, b) := (s[|s| - 2], s[|s| - 1]);
      if Straddles(p, a, b) {
        CrossingIsBetween(p, a, b);
      } else {
        CrossesWhen(p, a, b);
      }
    }
  }

  lemma OutsideBoxIsOutside(p: Point, poly: seq<Point>)
    requires OutsideBox(p, poly)
    ensures !Inside(p, poly)
  {
    hide Crosses, Odd;
    var s := Closed(poly);
    if poly == [] {
      NeverCrosses(p, s);
    } else if forall i :: 0 <= i < |poly| ==> p.x < poly[i].x {
      LeftOfPath(p, s);
    } else {
      NeverCrosses(p, s);
    }
  }

  // ---------------------------------------------------------------------------------------------
  // Triangles, and polygons as fans of triangles

  /** Weighing each corner's height by the opposite triangle gives the point's own. */
  lemma Barycentric(a: Point, b: Point, c: Point, p: Point)
    ensures Orient(b, c, p) * (a.y - p.y) + Orient(c, a, p) * (b.y - p.y) + Orient(a, b, p) * (c.y - p.y) == 0.0
    ensures Orient(b, c, p) + Orient(c, a, p) + Orient(a, b, p) == Orient(a, b, c)
  {
    var (ax, ay, bx) := (a.x - p.x, a.y - p.y, b.x - p.x);
    var (bh, cx, ch) := (b.y - p.y, c.x - p.x, c.y - p.y);
    AboutOrigin(a, b, p);
    AboutOrigin(b, c, p);
    AboutOrigin(c, a, p);
    assert (bx * ch - bh * cx) * ay + (cx * ay - ch * ax) * bh + (ax * bh - ay * bx) * ch == 0.0;
  }

  lemma AboutOrigin(a: Point, b: Point, p: Point)
    ensures Orient(a, b, p) == (a.x - p.x) * (b.y - p.y) - (a.y - p.y) * (b.x - p.x)
  {
  }

  lemma InsideTriangle(p: Point, a: Point, b: Point, c: Point)
    ensures Inside(p, [a, b, c]) == ((Crosses(p, a, b) != Crosses(p, b, c)) != Crosses(p, c, a))
  {
    hide Crosses;
    var s := Closed([a, b, c]);
    assert s == [c, a, b, c];
    OddShort(p, s[..1]);
    OddNext(p, s, 0);
    OddNext(p, s, 1);
    OddNext(p, s, 2);
    assert s[..4] == s;
  }

  /** The point is on the same side of all three edges, whichever way round they go. */
  ghost predicate StrictlyIn(p: Point, a: Point, b: Point, c: Point) {
    || (Orient(a, b, p) > 0.0 && Orient(b, c, p) > 0.0 && Orient(c, a, p) > 0.0)
    || (Orient(a, b, p) < 0.0 && Orient(b, c, p) < 0.0 && Orient(c, a, p) < 0.0)
  }

  /** The same, edges included. */
  ghost predicate WeaklyIn(p: Point, a: Point, b: Point, c: Point) {
    || (Orient(a, b, p) >= 0.0 && Orient(b, c, p) >= 0.0 && Orient(c, a, p) >= 0.0)
    || (Orient(a, b, p) <= 0.0 && Orient(b, c, p) <= 0.0 && Orient(c, a, p) <= 0.0)
  }

  /** Strictly inside a triangle the answer is yes; outside it, and for a triangle without area, no.  Only
      points on an edge depend on the half-open convention. */
  lemma TriangleIsExact(p: Point, a: Point, b: Point, c: Point)
    ensures StrictlyIn(p, a, b, c) ==> Inside(p, [a, b, c])
    ensures Inside(p, [a, b, c]) ==> Orient(a, b, c) != 0.0 && WeaklyIn(p, a, b, c)
  {
    hide Inside, Orient;
    Barycentric(a, b, c, p);
    if Orient(a, b, c) > 0.0 {
      LeftTriangle(p, a, b, c);
    } else if Orient(a, b, c) < 0.0 {
      OrientTurns(a, b, c);
      OrientFlips(a, b, p);
      OrientFlips(b, c, p);
      OrientFlips(c, a, p);
      LeftTriangle(p, c, b, a);
      ReversedThree(a, b, c);
      ReversalKeepsInside(p, [a, b, c]);
    } else {
      FlatIsOutside(p, a, b, c);
    }
  }

  lemma OrientTurns(a: Point, b: Point, c: Point)
    ensures Orient(c, b, a) == -Orient(a, b, c)
  {
  }

  lemma ReversedThree(a: Point, b: Point, c: Point)
    ensures Reversed([a, b, c]) == [c, b, a]
  {
    ReversedJoins([a, b], [c]);
    ReversedJoins([a], [b]);
    ReversedOne(a);
    ReversedOne(b);
    ReversedOne(c);
    assert [a, b] + [c] == [a, b, c] && [a] + [b] == [a, b];
  }

  lemma LeftTriangle(p: Point, a: Point, b: Point, c: Point)
    requires Orient(a, b, c) > 0.0
    ensures Orient(a, b, p) > 0.0 && Orient(b, c, p) > 0.0 && Orient(c, a, p) > 0.0 ==> Inside(p, [a, b, c])
    ensures Inside(p, [a, b, c]) ==> Orient(a, b, p) >= 0.0 && Orient(b, c, p) >= 0.0 && Orient(c, a, p) >= 0.0
  {
    hide Orient, Inside;
    LeftTriangleIff(p, a, b, c);
  }

  lemma FlatIsOutside(p: Point, a: Point, b: Point, c: Point)
    requires Orient(a, b, c) == 0.0
    ensures !Inside(p, [a, b, c])
  {
    hide Crosses, Orient, Inside;
    InsideTriangle(p, a, b, c);
    CrossesBySide(p, a, b);
    CrossesBySide(p, b, c);
    CrossesBySide(p, c, a);
    Barycentric(a, b, c, p);
    SidesCancel(Orient(b, c, p), Orient(c, a, p), Orient(a, b, p), a.y - p.y, b.y - p.y, c.y - p.y);
  }

  /** Without area, an edge up and an edge down are crossed together or not at all. */
  lemma SidesCancel(u: real, v: real, w: real, ha: real, hb: real, hc: real)
    requires u * ha + v * hb + w * hc == 0.0 && u + v + w == 0.0
    ensures (BySide(w, ha, hb) != BySide(u, hb, hc)) == BySide(v, hc, ha)
  {
    Balance(u, v, w, ha, hb, hc);
    Balance(v, w, u, hb, hc, ha);
    Balance(w, u, v, hc, ha, hb);
    Signs(u, ha - hc);
    Signs(v, hb - hc);
    Signs(v, hb - ha);
    Signs(w, hc - ha);
    Signs(w, hc - hb);
    Signs(u, ha - hb);
  }

  lemma Balance(u: real, v: real, w: real, ha: real, hb: real, hc: real)
    requires u * ha + v * hb + w * hc == 0.0 && u + v + w == 0.0
    ensures u * (ha - hc) + v * (hb - hc) == 0.0
  {
    assert w == -u - v;
    assert w * hc == -u * hc - v * hc;
  }

  /** CrossesBySide, from the side and the heights of the ends. */
  ghost predicate BySide(side: real, from: real, to: real) {
    if from < 0.0 <= to then side > 0.0 else to < 0.0 <= from && side < 0.0
  }

  /** Whether an odd number of the fan's triangles, from the first vertex, contain the point. */
  function FanOdd(p: Point, poly: seq<Point>): bool
    requires |poly| >= 2
  {
    var n := |poly|;
    if n == 2 then false else FanOdd(p, poly[..n - 1]) != Inside(p, [poly[0], poly[n - 2], poly[n - 1]])
  }

  lemma TwoVertices(p: Point, a: Point, b: Point)
    ensures !Inside(p, [a, b])
  {
    hide Crosses;
    CrossesIsSymmetric(p, a, b);
    var s := Closed([a, b]);
    assert s == [b, a, b];
    OddShort(p, s[..1]);
    OddNext(p, s, 0);
    OddNext(p, s, 1);
    assert s[..3] == s;
  }

  /** The ray-crossing test says yes exactly when an odd number of the triangles that the polygon fans
      into say yes. */
  lemma {:induction false} PolygonIsFan(p: Point, poly: seq<Point>)
    requires |poly| >= 2
    ensures Inside(p, poly) == FanOdd(p, poly)
  {
    hide Crosses, Odd, Inside;
    var n := |poly|;
    var (a, b, c) := (poly[0], poly[n - 2], poly[n - 1]);
    if n == 2 {
      assert poly == [a, c];
      TwoVertices(p, a, c);
    } else {
      PolygonIsFan(p, poly[..n - 1]);
      var s := poly[1..n - 2];
      assert poly[..n - 1] == [a] + s + [b];
      assert poly == [a] + s + [b] + [c];
      assert [a] + [b] + [c] == [a, b, c];
      CutAlongChord(p, a, s, b, [c]);
    }
  }

  // ---------------------------------------------------------------------------------------------
  // Convex polygons

  /** How far a point is to the left of an edge, and what a step up or a step back, to smaller x, adds. */
  datatype Side = Side(at: real, up: real, back: real)

  function SideOf(p: Point, a: Point, b: Point): Side {
    Side(Orient(a, b, p), b.x - a.x, b.y - a.y)
  }

  /** The first that is not zero decides: on the line of an edge the test answers as it does slightly to
      the right of the point and, along a level edge, slightly below. */
  ghost predicate Leads(s: Side) {
    s.at > 0.0 || (s.at == 0.0 && (s.back < 0.0 || (s.back == 0.0 && s.up < 0.0)))
  }

  ghost predicate LeftOf(p: Point, a: Point, b: Point) {
    Leads(SideOf(p, a, b))
  }

  function Times(g: real, s: Side): Side {
    Side(g * s.at, g * s.up, g * s.back)
  }

  function Plus(s: Side, t: Side): Side {
    Side(s.at + t.at, s.up + t.up, s.back + t.back)
  }

  const NOWHERE := Side(0.0, 0.0, 0.0)

  lemma LeftOrRight(p: Point, a: Point, b: Point)
    requires a != b
    ensures LeftOf(p, a, b) <==> !LeftOf(p, b, a)
  {
    hide Orient;
    OrientFlips(a, b, p);
  }

  lemma LeadsTimes(g: real, s: Side)
    requires 0.0 <= g && Leads(s)
    ensures if g > 0.0 then Leads(Times(g, s)) else Times(g, s) == NOWHERE
  {
    Signs(g, s.at);
    Signs(g, s.up);
    Signs(g, s.back);
  }

  lemma TimesLeads(g: real, s: Side)
    requires 0.0 < g && Leads(Times(g, s))
    ensures Leads(s)
  {
    Signs(g, s.at);
    Signs(g, s.up);
    Signs(g, s.back);
  }

  lemma LeadsPlus(s: Side, t: Side)
    requires (Leads(s) || s == NOWHERE) && (Leads(t) || t == NOWHERE)
    ensures if s == NOWHERE && t == NOWHERE then Plus(s, t) == NOWHERE else Leads(Plus(s, t))
  {
  }

  /** The side of a line a point is on, from the sides the corners of a triangle are on. */
  lemma Interpolates(p: Point, a: Point, b: Point, c: Point, q: Point, r: Point)
    ensures Orient(a, b, c) * Orient(q, r, p) ==
            Orient(q, r, a) * Orient(b, c, p) + Orient(q, r, b) * Orient(c, a, p) + Orient(q, r, c) * Orient(a, b, p)
    ensures Orient(a, b, c) * (r.y - q.y) ==
            Orient(q, r, a) * (c.y - b.y) + Orient(q, r, b) * (a.y - c.y) + Orient(q, r, c) * (b.y - a.y)
    ensures Orient(a, b, c) * (r.x - q.x) ==
            Orient(q, r, a) * (c.x - b.x) + Orient(q, r, b) * (a.x - c.x) + Orient(q, r, c) * (b.x - a.x)
  {
  }

  /** What is in a triangle is on the side of a line on which all its corners are. */
  lemma LeftWithCorners(p: Point, a: Point, b: Point, c: Point, q: Point, r: Point)
    requires Orient(a, b, c) > 0.0 && LeftOf(p, a, b) && LeftOf(p, b, c) && LeftOf(p, c, a) && q != r
    requires Orient(q, r, a) >= 0.0 && Orient(q, r, b) >= 0.0 && Orient(q, r, c) >= 0.0
    ensures LeftOf(p, q, r)
  {
    CornersAdd(p, a, b, c, q, r);
    SomewhereOff(a, b, c, q, r);
    hide Orient, Times, Plus, SideOf, Leads;
    LeadsSum(Orient(q, r, a), SideOf(p, b, c), Orient(q, r, b), SideOf(p, c, a), Orient(q, r, c), SideOf(p, a, b));
    TimesLeads(Orient(a, b, c), SideOf(p, q, r));
  }

  lemma LeadsSum(g: real, s: Side, h: real, t: Side, k: real, u: Side)
    requires g >= 0.0 && h >= 0.0 && k >= 0.0 && !(g == h == k == 0.0) && Leads(s) && Leads(t) && Leads(u)
    ensures Leads(Plus(Plus(Times(g, s), Times(h, t)), Times(k, u)))
  {
    NowhereDoesNotLead();
    hide Leads, Times, Plus;
    LeadsTimes(g, s);
    LeadsTimes(h, t);
    LeadsTimes(k, u);
    LeadsPlus(Times(g, s), Times(h, t));
    LeadsPlus(Plus(Times(g, s), Times(h, t)), Times(k, u));
  }

  lemma NowhereDoesNotLead()
    ensures !Leads(NOWHERE)
  {
  }

  lemma CornersAdd(p: Point, a: Point, b: Point, c: Point, q: Point, r: Point)
    ensures Times(Orient(a, b, c), SideOf(p, q, r)) ==
            Plus(Plus(Times(Orient(q, r, a), SideOf(p, b, c)), Times(Orient(q, r, b), SideOf(p, c, a))),
                 Times(Orient(q, r, c), SideOf(p, a, b)))
  {
    hide Orient;
    Interpolates(p, a, b, c, q, r);
  }

  lemma SomewhereOff(a: Point, b: Point, c: Point, q: Point, r: Point)
    requires q != r && Orient(a, b, c) > 0.0
    ensures !(Orient(q, r, a) == Orient(q, r, b) == Orient(q, r, c) == 0.0)
  {
    hide Orient;
    Interpolates(a, a, b, c, q, r);
    Signs(Orient(a, b, c), r.y - q.y);
    Signs(Orient(a, b, c), r.x - q.x);
  }

  /** No triangle without area has a point to the left of all its edges. */
  lemma LeftOfAllTurnsLeft(p: Point, a: Point, b: Point, c: Point)
    requires LeftOf(p, a, b) && LeftOf(p, b, c) && LeftOf(p, c, a)
    ensures Orient(a, b, c) > 0.0
  {
    hide Orient;
    Barycentric(a, b, c, p);
  }

  /** A triangle that turns left contains exactly the points to the left of its three edges. */
  lemma LeftTriangleIff(p: Point, a: Point, b: Point, c: Point)
    requires Orient(a, b, c) > 0.0
    ensures Inside(p, [a, b, c]) <==> LeftOf(p, a, b) && LeftOf(p, b, c) && LeftOf(p, c, a)
  {
    LevelEdge(a, b, c);
    LevelEdge(b, c, a);
    LevelEdge(c, a, b);
    OrientCycles(a, b, c);
    hide Crosses, Orient, Inside;
    InsideTriangle(p, a, b, c);
    CrossesBySide(p, a, b);
    CrossesBySide(p, b, c);
    CrossesBySide(p, c, a);
    Barycentric(a, b, c, p);
    OnLevel(p, a, b);
    OnLevel(p, b, c);
    OnLevel(p, c, a);
    OwnersDecide(Orient(b, c, p), Orient(c, a, p), Orient(a, b, p), a.y - p.y, b.y - p.y, c.y - p.y);
  }

  lemma OrientCycles(a: Point, b: Point, c: Point)
    ensures Orient(b, c, a) == Orient(a, b, c) == Orient(c, a, b)
  {
  }

  /** Along a level edge the triangle is above exactly if the edge goes to larger x. */
  lemma LevelEdge(a: Point, b: Point, c: Point)
    requires Orient(a, b, c) > 0.0
    ensures a != b && (a.y == b.y ==> (b.x < a.x <==> c.y < a.y))
  {
    Signs(b.x - a.x, c.y - a.y);
  }

  lemma OnLevel(p: Point, a: Point, b: Point)
    requires a != b
    ensures Orient(a, b, p) == 0.0 && a.y == b.y ==> p.y == a.y
  {
    Signs(b.x - a.x, p.y - a.y);
  }

  /** LeftOf, from the side and the heights of the ends and of the third corner. */
  ghost predicate Owns(side: real, from: real, to: real, third: real) {
    side > 0.0 || (side == 0.0 && (to < from || (to == from && third < from)))
  }

  lemma OwnersDecide(u: real, v: real, w: real, ha: real, hb: real, hc: real)
    requires u * ha + v * hb + w * hc == 0.0 && u + v + w > 0.0 && !(ha == hb == hc)
    requires w == 0.0 && ha == hb ==> ha == 0.0
    requires u == 0.0 && hb == hc ==> hb == 0.0
    requires v == 0.0 && hc == ha ==> hc == 0.0
    ensures var odd := (BySide(w, ha, hb) != BySide(u, hb, hc)) != BySide(v, hc, ha);
            odd <==> Owns(w, ha, hb, hc) && Owns(u, hb, hc, ha) && Owns(v, hc, ha, hb)
  {
    Signs(u, ha);
    Signs(v, hb);
    Signs(w, hc);
  }

  /** No corner repeats, and any three in their order turn left or not at all. */
  ghost predicate Convex(poly: seq<Point>) {
    && (forall i, j :: 0 <= i < j < |poly| ==> poly[i] != poly[j])
    && forall i, j, k :: 0 <= i < j < k < |poly| ==> Orient(poly[i], poly[j], poly[k]) >= 0.0
  }

  function EdgeEnd(poly: seq<Point>, i: nat): Point
    requires i < |poly|
  {
    if i + 1 < |poly| then poly[i + 1] else poly[0]
  }

  ghost predicate LeftOfEdge(p: Point, poly: seq<Point>, i: nat)
    requires i < |poly|
  {
    LeftOf(p, poly[i], EdgeEnd(poly, i))
  }

  lemma CornersAreLeft(poly: seq<Point>, i: nat, k: nat)
    requires Convex(poly) && |poly| >= 2 && i < |poly| && k < |poly|
    ensures poly[i] != EdgeEnd(poly, i) && Orient(poly[i], EdgeEnd(poly, i), poly[k]) >= 0.0
  {
    hide Orient;
    var e := EdgeEnd(poly, i);
    OrientCycles(poly[k], poly[i], e);
    OnItsLine(poly[i], e);
  }

  lemma OnItsLine(a: Point, b: Point)
    ensures Orient(a, b, a) == 0.0 && Orient(a, b, b) == 0.0
  {
  }

  lemma {:induction false} FanFinds(p: Point, poly: seq<Point>) returns (i: nat)
    requires |poly| >= 2 && FanOdd(p, poly)
    ensures 0 < i < |poly| - 1 && Inside(p, [poly[0], poly[i], poly[i + 1]])
    decreases |poly|
  {
    hide Inside;
    var n := |poly|;
    if Inside(p, [poly[0], poly[n - 2], poly[n - 1]]) {
      i := n - 2;
    } else {
      i := FanFinds(p, poly[..n - 1]);
    }
  }

  /** A triangle of the fan contains the point only if it has an area. */
  lemma FanTriangle(p: Point, poly: seq<Point>, i: nat)
    requires Convex(poly) && 0 < i < |poly| - 1
    ensures var (a, b, c) := (poly[0], poly[i], poly[i + 1]);
            Inside(p, [a, b, c]) <==> LeftOf(p, a, b) && LeftOf(p, b, c) && LeftOf(p, c, a)
    ensures Inside(p, [poly[0], poly[i], poly[i + 1]]) ==> Orient(poly[0], poly[i], poly[i + 1]) > 0.0
  {
    var (a, b, c) := (poly[0], poly[i], poly[i + 1]);
    hide Inside, Orient, LeftOf;
    assert Orient(a, b, c) >= 0.0;
    TriangleIsExact(p, a, b, c);
    if Orient(a, b, c) > 0.0 {
      LeftTriangleIff(p, a, b, c);
    } else if LeftOf(p, a, b) && LeftOf(p, b, c) && LeftOf(p, c, a) {
      LeftOfAllTurnsLeft(p, a, b, c);
    }
  }

  /** What is in a convex polygon is on the side of a line on which all its corners are. */
  lemma InsideIsLeft(p: Point, poly: seq<Point>, q: Point, r: Point)
    requires Convex(poly) && |poly| >= 2 && Inside(p, poly) && q != r
    requires forall k :: 0 <= k < |poly| ==> Orient(q, r, poly[k]) >= 0.0
    ensures LeftOf(p, q, r)
  {
    hide Inside, Orient, LeftOf, Convex;
    PolygonIsFan(p, poly);
    var i := FanFinds(p, poly);
    FanTriangle(p, poly, i);
    LeftWithCorners(p, poly[0], poly[i], poly[i + 1], q, r);
  }

  lemma ConvexFront(poly: seq<Point>)
    requires Convex(poly) && poly != []
    ensures Convex(poly[..|poly| - 1])
  {
    hide Orient;
  }

  /** To the left of the open chain of edges, the last edge decides. */
  lemma {:induction false} ChainDecides(p: Point, poly: seq<Point>)
    requires Convex(poly) && |poly| >= 2 && forall i :: 0 <= i < |poly| - 1 ==> LeftOfEdge(p, poly, i)
    ensures Inside(p, poly) <==> LeftOfEdge(p, poly, |poly| - 1)
    decreases |poly|
  {
    hide Inside, Orient, LeftOf;
    var n := |poly|;
    var (a, b, c) := (poly[0], poly[n - 2], poly[n - 1]);
    PolygonIsFan(p, poly);
    assert LeftOfEdge(p, poly, n - 2);
    if n == 2 {
      LeftOrRight(p, b, c);
    } else {
      var front := poly[..n - 1];
      LeftOrRight(p, a, b);
      ConvexFront(poly);
      forall i | 0 <= i < n - 2
        ensures LeftOfEdge(p, front, i)
      {
        assert LeftOfEdge(p, poly, i);
      }
      ChainDecides(p, front);
      PolygonIsFan(p, front);
      FanTriangle(p, poly, n - 2);
      if Inside(p, front) { FrontIsLeft(p, poly); }
    }
  }

  lemma FrontIsLeft(p: Point, poly: seq<Point>)
    requires Convex(poly) && |poly| > 2 && Inside(p, poly[..|poly| - 1])
    ensures LeftOf(p, poly[|poly| - 1], poly[0])
  {
    hide Inside, Orient, LeftOf;
    var n := |poly|;
    ConvexFront(poly);
    forall k | 0 <= k < n - 1
      ensures Orient(poly[n - 1], poly[0], poly[k]) >= 0.0
    {
      CornersAreLeft(poly, n - 1, k);
    }
    InsideIsLeft(p, poly[..n - 1], poly[n - 1], poly[0]);
  }

  /** A convex polygon contains exactly the points to the left of all its edges, for every point and down to
      the convention on the edges themselves. */
  lemma ConvexIsExact(p: Point, poly: seq<Point>)
    requires Convex(poly) && |poly| >= 3
    ensures Inside(p, poly) <==> forall i :: 0 <= i < |poly| ==> LeftOfEdge(p, poly, i)
  {
    hide Inside, Orient, LeftOf, Convex;
    if Inside(p, poly) {
      forall i | 0 <= i < |poly|
        ensures LeftOfEdge(p, poly, i)
      {
        forall k | 0 <= k < |poly|
          ensures poly[i] != EdgeEnd(poly, i) && Orient(poly[i], EdgeEnd(poly, i), poly[k]) >= 0.0
        {
          CornersAreLeft(poly, i, k);
        }
        InsideIsLeft(p, poly, poly[i], EdgeEnd(poly, i));
      }
    }
    if forall i :: 0 <= i < |poly| ==> LeftOfEdge(p, poly, i) {
      ChainDecides(p, poly);
    }
  }

  ghost predicate StrictlyLeft(p: Point, poly: seq<Point>, i: nat)
    requires i < |poly|
  {
    Orient(poly[i], EdgeEnd(poly, i), p) > 0.0
  }

  ghost predicate StrictlyRight(p: Point, poly: seq<Point>, i: nat)
    requires i < |poly|
  {
    Orient(poly[i], EdgeEnd(poly, i), p) < 0.0
  }

  /** Off the edges the answer is the geometric one, whichever way round the corners are listed. */
  lemma ConvexOffEdges(p: Point, poly: seq<Point>)
    requires Convex(poly) && |poly| >= 3
    ensures (forall i :: 0 <= i < |poly| ==> StrictlyLeft(p, poly, i)) ==> Inside(p, poly) && Inside(p, Reversed(poly))
    ensures (exists i :: 0 <= i < |poly| && StrictlyRight(p, poly, i)) ==>
              !Inside(p, poly) && !Inside(p, Reversed(poly))
  {
    ConvexIsExact(p, poly);
    hide Inside, Orient, Convex;
    ReversalKeepsInside(p, poly);
    if forall i :: 0 <= i < |poly| ==> StrictlyLeft(p, poly, i) {
      forall i | 0 <= i < |poly|
        ensures LeftOfEdge(p, poly, i)
      {
        assert StrictlyLeft(p, poly, i);
      }
    }
    if i: nat :| i < |poly| && StrictlyRight(p, poly, i) {
      assert !LeftOfEdge(p, poly, i);
    }
  }
}
