/** The costs that an update of the inflation layer leaves, in numbers: the master array before and after,
    cell by cell. */
module InflationCosts {
  import opened IntegerDistances
  import opened Grids
  import opened Inflation

  /** Squared distance, written out. */
  lemma DistanceIs(c: Cell, s: Cell)
    ensures D2(c, s) == (c.x - s.x) * (c.x - s.x) + (c.y - s.y) * (c.y - s.y)
  {
  }

  /** The wave starts from every lethal cell of the window padded by the radius, and from the unknown ones if
      the layer inflates around unknown cells. */
  lemma SourcesAre(t: Task, s: Cell)
    requires |t.initial| == t.w * t.h
    ensures IsSource(t, s) <==>
            && 0 <= s.x < t.w && 0 <= s.y < t.h
            && t.minX - t.radius <= s.x < t.maxX + t.radius && t.minY - t.radius <= s.y < t.maxY + t.radius
            && 0 <= s.y * t.w + s.x < |t.initial|
            && (t.initial[s.y * t.w + s.x] == 254 || (t.aroundUnknown && t.initial[s.y * t.w + s.x] == 255))
  {
  }

  lemma SideIsShort(a: int, b: int, r: nat)
    requires a * a + b * b <= r * r
    ensures a <= r && -a <= r
  {
    assert b * b >= 0;
    if a > r {
      Larger(r + 1, a);
    } else if -a > r {
      Larger(r + 1, -a);
    }
  }

  lemma Larger(a: nat, b: nat)
    requires a <= b
    ensures a * a <= b * b
  {
  }

  /** Padding by the radius is enough: every lethal cell within the radius of a cell of the window counts. */
  lemma NearObstacleIsSource(t: Task, c: Cell, s: Cell)
    requires |t.initial| == t.w * t.h && t.minX <= c.x < t.maxX && t.minY <= c.y < t.maxY
    requires InMap(s.x, s.y, t.w, t.h)
    requires (c.x - s.x) * (c.x - s.x) + (c.y - s.y) * (c.y - s.y) <= t.radius * t.radius
    ensures 0 <= s.y * t.w + s.x < |t.initial|
    ensures t.initial[s.y * t.w + s.x] == 254 ==> IsSource(t, s)
  {
    SideIsShort(c.x - s.x, c.y - s.y, t.radius);
    SideIsShort(c.y - s.y, c.x - s.x, t.radius);
    AtInRange(s.x, s.y, t.w, t.h);
    SourcesAre(t, s);
  }

  /** What one cell ends with, from its old cost and the cost it is charged. */
  lemma BlendIs(t: Task, before: int, v: int)
    requires v <= 254
    ensures before != 255 ==> Blend(t, before, v) == if before < v then v else before
    ensures before == 255 && t.inflateUnknown ==> Blend(t, before, v) == if v > 0 then v else 255
    ensures before == 255 && !t.inflateUnknown ==> Blend(t, before, v) == if v >= 253 then v else 255
  {
  }

  lemma WrittenIs(t: Task, painted: map<Cell, Cell>, c: Cell)
    requires |t.initial| == t.w * t.h && InMap(c.x, c.y, t.w, t.h) && c in painted
    ensures var (d, at) := (D2(c, painted[c]), Index(t, c));
            && 0 <= d && 0 <= at < |t.initial|
            && Written(t, painted, c) ==
               if t.minX <= c.x < t.maxX && t.minY <= c.y < t.maxY then Blend(t, t.initial[at], t.cost(d))
               else t.initial[at]
  {
    hide Blend, D2;
    AtInRange(c.x, c.y, t.w, t.h);
    ZeroDistance(c, painted[c]);
  }

  lemma MasterIs(t: Task, master: seq<int>, painted: map<Cell, Cell>, c: Cell)
    requires |t.initial| == t.w * t.h && MasterOk(t, master, painted) && InMap(c.x, c.y, t.w, t.h)
    ensures 0 <= Index(t, c) < |t.initial| == |master| && master[Index(t, c)] == Written(t, painted, c)
  {
    hide Written, Index;
    assert InGrid(t, c);
  }

  lemma CostIsSmall(t: Task, d: nat)
    requires IsCost(t.cost)
    ensures t.cost(d) <= 254
  {
  }

  /** The squared distance `d` of `c` from `s`, and its index `at` in the array. */
  ghost predicate Located(t: Task, c: Cell, s: Cell, d: int, at: int) {
    d == (c.x - s.x) * (c.x - s.x) + (c.y - s.y) * (c.y - s.y) && at == c.y * t.w + c.x
  }

  lemma LocatedIs(t: Task, c: Cell, s: Cell, d: int, at: int)
    requires Located(t, c, s, d, at)
    ensures d == D2(c, s) && at == Index(t, c) && 0 <= d
  {
    DistanceIs(c, s);
    ZeroDistance(c, s);
  }

  /** A visited cell of the window, charged to the obstacle `s`: a known cost becomes the larger of itself and
      the cost at that distance, an unknown one that cost, if it is high enough; outside the window nothing
      changes. */
  lemma PaintedIsRaised(t: Task, master: seq<int>, painted: map<Cell, Cell>, c: Cell, d: nat, at: nat)
    requires Ready(t) && Inflated(t, painted) && MasterOk(t, master, painted) && IsCost(t.cost) && c in painted
    requires Located(t, c, painted[c], d, at)
    ensures at < |t.initial| == |master|
    ensures var (before, v, after) := (t.initial[at], t.cost(d), master[at]);
            if t.minX <= c.x < t.maxX && t.minY <= c.y < t.maxY then
              && (before != 255 ==> after == if before < v then v else before)
              && (before == 255 && t.inflateUnknown ==> after == if v > 0 then v else 255)
              && (before == 255 && !t.inflateUnknown ==> after == if v >= 253 then v else 255)
            else after == before
  {
    PaintedInGrid(t, painted, c);
    LocatedIs(t, c, painted[c], d, at);
    hide Inflated, MasterOk, IsCost, Written, Blend, D2, Index, Ready, Located;
    WrittenIs(t, painted, c);
    MasterIs(t, master, painted, c);
    CostIsSmall(t, d);
    BlendIs(t, t.initial[at], t.cost(d));
  }

  lemma PaintedInGrid(t: Task, painted: map<Cell, Cell>, c: Cell)
    requires |t.initial| == t.w * t.h && Inflated(t, painted) && c in painted
    ensures InMap(c.x, c.y, t.w, t.h)
  {
    hide IsSource, Within, Reached;
    assert InGrid(t, c);
  }

  /** A cell that was not visited keeps its cost. */
  lemma UnpaintedIsKept(t: Task, master: seq<int>, painted: map<Cell, Cell>, c: Cell)
    requires Ready(t) && MasterOk(t, master, painted) && InMap(c.x, c.y, t.w, t.h) && c !in painted
    ensures 0 <= c.y * t.w + c.x < |t.initial| == |master|
    ensures master[c.y * t.w + c.x] == t.initial[c.y * t.w + c.x]
  {
    hide IsLevelTable, MasterOk, D2;
    MasterIs(t, master, painted, c);
  }

  /** After an update: a cell of the window that its strictly nearest obstacle reaches through cells it owns
      has the cost of that distance, unless it was worth more or is unknown and the cost too low. */
  lemma ReachedIsRaised(t: Task, master: seq<int>, painted: map<Cell, Cell>, s: Cell, c: Cell, d: nat, at: nat)
    requires Ready(t) && Inflated(t, painted) && MasterOk(t, master, painted) && IsCost(t.cost) && Reached(t, s, c)
    requires t.minX <= c.x < t.maxX && t.minY <= c.y < t.maxY && Located(t, c, s, d, at)
    ensures at < |t.initial| == |master|
    ensures var (before, v, after) := (t.initial[at], t.cost(d), master[at]);
            && (before != 255 ==> after == if before < v then v else before)
            && (before == 255 && t.inflateUnknown ==> after == if v > 0 then v else 255)
            && (before == 255 && !t.inflateUnknown ==> after == if v >= 253 then v else 255)
  {
    hide IsLevelTable, Reached, MasterOk, IsCost, Located;
    assert c in painted && painted[c] == s;
    hide Inflated;
    PaintedIsRaised(t, master, painted, c, d, at);
  }

  /** A lethal cell with no other obstacle within twice the radius raises every cell of the window within the
      radius, whatever else is on the map. */
  lemma AloneIsRaised(t: Task, master: seq<int>, painted: map<Cell, Cell>, s: Cell, c: Cell, d: nat, at: nat)
    requires Ready(t) && Inflated(t, painted) && MasterOk(t, master, painted) && IsCost(t.cost)
    requires IsSource(t, s) && forall r :: IsSource(t, r) && r != s ==> Apart(t, r, s)
    requires t.minX <= c.x < t.maxX && t.minY <= c.y < t.maxY && InMap(c.x, c.y, t.w, t.h)
    requires Located(t, c, s, d, at) && d <= t.radius * t.radius
    ensures at < |t.initial| == |master|
    ensures t.initial[at] != 255 ==> master[at] == if t.initial[at] < t.cost(d) then t.cost(d) else t.initial[at]
  {
    LocatedIs(t, c, s, d, at);
    hide IsLevelTable, MasterOk, IsCost, Inflated, IsSource, Located, D2;
    forall r, a | IsSource(t, r) && InGrid(t, a) && Within(t, a, s) && Within(t, a, r)
      ensures r == s
    {
      if r != s {
        assert Apart(t, r, s);
        NotBoth(t, r, s, a);
      }
    }
    var path := AloneIsReached(t, s, c);
    assert Reached(t, s, c);
    ReachedIsRaised(t, master, painted, s, c, d, at);
  }

  /** More than twice the radius apart on one axis. */
  ghost predicate Apart(t: Task, r: Cell, s: Cell) {
    r.x - s.x > 2 * t.radius || s.x - r.x > 2 * t.radius || r.y - s.y > 2 * t.radius || s.y - r.y > 2 * t.radius
  }

  lemma NotBoth(t: Task, r: Cell, s: Cell, a: Cell)
    requires Apart(t, r, s) && Within(t, a, s)
    ensures !Within(t, a, r)
  {
    if Within(t, a, r) {
      DistanceIs(a, r);
      DistanceIs(a, s);
      SideIsShort(a.x - r.x, a.y - r.y, t.radius);
      SideIsShort(a.y - r.y, a.x - r.x, t.radius);
      SideIsShort(a.x - s.x, a.y - s.y, t.radius);
      SideIsShort(a.y - s.y, a.x - s.x, t.radius);
    }
  }
}
