/** The wavefront of the inflation layer on values: what is queued, painted and written, and the
    invariants every step keeps.  InflationLayer.dfy holds the class. */
module Inflation {
  import opened IntegerDistances
  import opened Grids

  const NO_INFORMATION := 255
  const LETHAL_OBSTACLE := 254
  const INSCRIBED_INFLATED_OBSTACLE := 253
  const FREE_SPACE := 0

  datatype CellData = CellData(index: int, cell: Cell, src: Cell)

  /** One call of updateCosts: the grid, the layer's radius and level table, the costs on entry, the
      requested window and the flags.  `cost` is computeCost as a function of squared distance. */
  datatype Task = Task(
    w: nat, h: nat, radius: nat, table: seq<seq<int>>, top: int,
    initial: seq<int>, minX: int, minY: int, maxX: int, maxY: int,
    inflateUnknown: bool, aroundUnknown: bool, cost: nat -> int)

  ghost predicate Ready(t: Task) {
    && 0 < t.radius && 0 <= t.top && Shape(Reach(t.radius), t.table) && IsLevelTable(Reach(t.radius), t.table, t.top)
    && |t.initial| == t.w * t.h
  }

  predicate InGrid(t: Task, c: Cell) {
    InMap(c.x, c.y, t.w, t.h)
  }

  function Index(t: Task, c: Cell): int {
    At(c.x, c.y, t.w)
  }

  function Diff(c: Cell, s: Cell): Offset {
    Offset(c.x - s.x, c.y - s.y)
  }

  /** Squared distance. */
  function D2(c: Cell, s: Cell): int {
    Norm2(Diff(c, s))
  }

  predicate Within(t: Task, c: Cell, s: Cell) {
    D2(c, s) <= t.radius * t.radius
  }

  function LevelOf(t: Task, c: Cell, s: Cell): int
    requires Shape(Reach(t.radius), t.table)
  {
    Level(Reach(t.radius), t.table, Diff(c, s))
  }

  lemma IndexInRange(t: Task, c: Cell)
    requires InGrid(t, c)
    ensures 0 <= Index(t, c) < t.w * t.h
  {
    AtInRange(c.x, c.y, t.w, t.h);
  }

  lemma IndexIsInjective(t: Task, a: Cell, b: Cell)
    requires InGrid(t, a) && InGrid(t, b) && Index(t, a) == Index(t, b)
    ensures a == b
  {
    AtIsInjective(a.x, a.y, b.x, b.y, t.w);
  }

  predicate Lethal(t: Task, cost: int) {
    cost == LETHAL_OBSTACLE || (t.aroundUnknown && cost == NO_INFORMATION)
  }

  /** The window padded by the inflation radius. */
  predicate InPadded(t: Task, c: Cell) {
    && InGrid(t, c)
    && t.minX - t.radius <= c.x < t.maxX + t.radius
    && t.minY - t.radius <= c.y < t.maxY + t.radius
  }

  predicate InWindow(t: Task, c: Cell) {
    t.minX <= c.x < t.maxX && t.minY <= c.y < t.maxY
  }

  /** An obstacle the wave starts from. */
  ghost predicate IsSource(t: Task, c: Cell)
    requires |t.initial| == t.w * t.h
  {
    InPadded(t, c) && 0 <= Index(t, c) < t.w * t.h && Lethal(t, t.initial[Index(t, c)])
  }

  predicate Neighbour(a: Cell, b: Cell) {
    || b == Cell(a.x - 1, a.y) || b == Cell(a.x, a.y - 1)
    || b == Cell(a.x + 1, a.y) || b == Cell(a.x, a.y + 1)
  }

  /** One axis step changes the squared distance to any cell by an odd amount. */
  lemma StepIsOdd(c: Cell, n: Cell, s: Cell)
    requires Neighbour(c, n)
    ensures D2(n, s) != D2(c, s)
  {
    var (dx, dy) := (c.x - s.x, c.y - s.y);
    if n.y == c.y {
      var e := n.x - c.x;
      assert (dx + e) * (dx + e) == dx * dx + 2 * e * dx + 1;
    } else {
      var e := n.y - c.y;
      assert (dy + e) * (dy + e) == dy * dy + 2 * e * dy + 1;
    }
  }

  lemma WithinIsInDisc(t: Task, c: Cell, s: Cell)
    requires Within(t, c, s)
    ensures InDisc(Reach(t.radius), Diff(c, s)) && InSquare(t.radius, Diff(c, s))
  {
    SquareGrows(t.radius, Reach(t.radius));
    DiscInSquare(t.radius, Diff(c, s));
  }

  /** Levels order cells within the radius by squared distance, each from its own source. */
  lemma LevelsOrder(t: Task, a: Cell, s: Cell, b: Cell, r: Cell)
    requires Ready(t) && Within(t, a, s) && Within(t, b, r)
    ensures LevelOf(t, a, s) < LevelOf(t, b, r) <==> D2(a, s) < D2(b, r)
    ensures 0 <= LevelOf(t, a, s) <= t.top
  {
    WithinIsInDisc(t, a, s);
    WithinIsInDisc(t, b, r);
  }

  lemma NeighbourLevelDiffers(t: Task, c: Cell, n: Cell, s: Cell)
    requires Ready(t) && Neighbour(c, n) && Within(t, c, s) && Within(t, n, s)
    ensures LevelOf(t, n, s) != LevelOf(t, c, s)
  {
    hide D2;
    StepIsOdd(c, n, s);
    LevelsOrder(t, c, s, n, s);
    LevelsOrder(t, n, s, c, s);
  }

  // ---------------------------------------------------------------------------------------------
  // The state of the wave

  /** A queued cell: in the grid, from a real obstacle within the radius, in the bin of its distance. */
  ghost predicate EntryOk(t: Task, e: CellData, k: int)
    requires |t.initial| == t.w * t.h && Shape(Reach(t.radius), t.table)
  {
    && InGrid(t, e.cell) && e.index == Index(t, e.cell)
    && IsSource(t, e.src) && Within(t, e.cell, e.src) && LevelOf(t, e.cell, e.src) == k
  }

  ghost predicate BinsOk(t: Task, bins: seq<seq<CellData>>)
    requires |t.initial| == t.w * t.h && Shape(Reach(t.radius), t.table)
  {
    |bins| == t.top + 1 && forall k, e :: 0 <= k < |bins| && e in bins[k] ==> EntryOk(t, e, k)
  }

  /** `painted` maps each visited cell to the obstacle it is charged to. */
  ghost predicate PaintOk(t: Task, painted: map<Cell, Cell>)
    requires |t.initial| == t.w * t.h
  {
    forall c :: c in painted ==> InGrid(t, c) && IsSource(t, painted[c]) && Within(t, c, painted[c])
  }

  ghost predicate SeenOk(t: Task, seen: seq<bool>, painted: map<Cell, Cell>) {
    && |seen| == t.w * t.h
    && forall c :: InGrid(t, c) ==> 0 <= Index(t, c) < t.w * t.h && (seen[Index(t, c)] <==> c in painted)
  }

  ghost predicate Queued(t: Task, bins: seq<seq<CellData>>, c: Cell, s: Cell)
    requires Shape(Reach(t.radius), t.table)
  {
    0 <= LevelOf(t, c, s) < |bins| && CellData(Index(t, c), c, s) in bins[LevelOf(t, c, s)]
  }

  /** Each neighbour of `c` that is within the radius of c's obstacle is visited or queued for it. */
  ghost predicate Spread(t: Task, bins: seq<seq<CellData>>, painted: map<Cell, Cell>, c: Cell)
    requires Shape(Reach(t.radius), t.table) && c in painted
  {
    forall n :: Neighbour(c, n) && InGrid(t, n) && Within(t, n, painted[c]) ==>
      n in painted || Queued(t, bins, n, painted[c])
  }

  ghost predicate AllSpread(t: Task, bins: seq<seq<CellData>>, painted: map<Cell, Cell>)
    requires Shape(Reach(t.radius), t.table)
  {
    forall c :: c in painted ==> Spread(t, bins, painted, c)
  }

  ghost predicate SourcesQueued(t: Task, bins: seq<seq<CellData>>)
    requires |t.initial| == t.w * t.h && Shape(Reach(t.radius), t.table)
  {
    forall s :: IsSource(t, s) ==> Queued(t, bins, s, s)
  }

  /** An obstacle is charged to itself. */
  ghost predicate SourcesOwn(t: Task, painted: map<Cell, Cell>)
    requires |t.initial| == t.w * t.h
  {
    forall c :: c in painted && IsSource(t, c) ==> painted[c] == c
  }

  // ---------------------------------------------------------------------------------------------
  // Enqueueing

  function Enqueue(t: Task, bins: seq<seq<CellData>>, seen: seq<bool>, n: Cell, s: Cell): seq<seq<CellData>>
    requires Shape(Reach(t.radius), t.table)
  {
    var k := LevelOf(t, n, s);
    if InGrid(t, n) && 0 <= Index(t, n) < |seen| && !seen[Index(t, n)] && Within(t, n, s) && 0 <= k < |bins| then
      bins[k := bins[k] + [CellData(Index(t, n), n, s)]]
    else bins
  }

  ghost predicate Grows(a: seq<seq<CellData>>, b: seq<seq<CellData>>) {
    |a| == |b| && forall k :: 0 <= k < |a| ==> a[k] <= b[k]
  }

  ghost predicate SameBin(a: seq<seq<CellData>>, b: seq<seq<CellData>>, k: int) {
    0 <= k < |a| == |b| && a[k] == b[k]
  }

  ghost predicate Reachable(t: Task, bins: seq<seq<CellData>>, seen: seq<bool>, n: Cell, s: Cell)
    requires Shape(Reach(t.radius), t.table)
  {
    InGrid(t, n) && Within(t, n, s) ==> 0 <= Index(t, n) < |seen| && (seen[Index(t, n)] || Queued(t, bins, n, s))
  }

  lemma GrowsKeepsQueued(t: Task, a: seq<seq<CellData>>, b: seq<seq<CellData>>, c: Cell, s: Cell)
    requires Shape(Reach(t.radius), t.table) && Grows(a, b) && Queued(t, a, c, s)
    ensures Queued(t, b, c, s)
  {
    var k := LevelOf(t, c, s);
    assert a[k] <= b[k];
    var e := CellData(Index(t, c), c, s);
    var i :| 0 <= i < |a[k]| && a[k][i] == e;
    assert b[k][i] == e;
  }

  lemma EnqueueOk(t: Task, bins: seq<seq<CellData>>, seen: seq<bool>, c: Cell, n: Cell, s: Cell)
    requires Ready(t) && BinsOk(t, bins) && |seen| == t.w * t.h
    requires IsSource(t, s) && Neighbour(c, n) && Within(t, c, s)
    ensures var bins' := Enqueue(t, bins, seen, n, s);
            && BinsOk(t, bins') && Grows(bins, bins') && SameBin(bins, bins', LevelOf(t, c, s))
            && Reachable(t, bins', seen, n, s)
  {
    hide Within, IsLevelTable, IsSource, Level, Index;
    LevelsOrder(t, c, s, c, s);
    if InGrid(t, n) && Within(t, n, s) {
      IndexInRange(t, n);
      LevelsOrder(t, n, s, c, s);
      NeighbourLevelDiffers(t, c, n, s);
    }
  }

  /** The four neighbours, in the order of updateCosts. */
  function EnqueueAround(t: Task, bins: seq<seq<CellData>>, seen: seq<bool>, c: Cell, s: Cell): seq<seq<CellData>>
    requires Shape(Reach(t.radius), t.table)
  {
    var b1 := Enqueue(t, bins, seen, Cell(c.x - 1, c.y), s);
    var b2 := Enqueue(t, b1, seen, Cell(c.x, c.y - 1), s);
    var b3 := Enqueue(t, b2, seen, Cell(c.x + 1, c.y), s);
    Enqueue(t, b3, seen, Cell(c.x, c.y + 1), s)
  }

  lemma EnqueueAroundOk(t: Task, bins: seq<seq<CellData>>, seen: seq<bool>, c: Cell, s: Cell)
    requires Ready(t) && BinsOk(t, bins) && |seen| == t.w * t.h && IsSource(t, s) && Within(t, c, s)
    ensures var bins' := EnqueueAround(t, bins, seen, c, s);
            && BinsOk(t, bins') && Grows(bins, bins') && SameBin(bins, bins', LevelOf(t, c, s))
            && forall n :: Neighbour(c, n) ==> Reachable(t, bins', seen, n, s)
  {
    hide Enqueue, BinsOk, Within, IsSource, IsLevelTable, Shape, Index, Level, InGrid, Queued;
    var (n1, n2, n3, n4) := (Cell(c.x - 1, c.y), Cell(c.x, c.y - 1), Cell(c.x + 1, c.y), Cell(c.x, c.y + 1));
    var b1 := Enqueue(t, bins, seen, n1, s);
    var b2 := Enqueue(t, b1, seen, n2, s);
    var b3 := Enqueue(t, b2, seen, n3, s);
    var b4 := Enqueue(t, b3, seen, n4, s);
    EnqueueOk(t, bins, seen, c, n1, s);
    EnqueueOk(t, b1, seen, c, n2, s);
    EnqueueOk(t, b2, seen, c, n3, s);
    EnqueueOk(t, b3, seen, c, n4, s);
    assert Grows(b1, b4) && Grows(b2, b4) && Grows(bins, b4);
    forall n | Neighbour(c, n)
      ensures Reachable(t, b4, seen, n, s)
    {
      if n == n1 && Queued(t, b1, n, s) { GrowsKeepsQueued(t, b1, b4, n, s); }
      if n == n2 && Queued(t, b2, n, s) { GrowsKeepsQueued(t, b2, b4, n, s); }
      if n == n3 && Queued(t, b3, n, s) { GrowsKeepsQueued(t, b3, b4, n, s); }
    }
  }

  // ---------------------------------------------------------------------------------------------
  // Visiting a cell

  ghost predicate WaveOk(t: Task, bins: seq<seq<CellData>>, seen: seq<bool>, painted: map<Cell, Cell>) {
    && Ready(t)
    && BinsOk(t, bins) && SeenOk(t, seen, painted) && PaintOk(t, painted)
    && AllSpread(t, bins, painted) && SourcesQueued(t, bins) && SourcesOwn(t, painted)
  }

  lemma SeenStep(t: Task, seen: seq<bool>, painted: map<Cell, Cell>, c: Cell, s: Cell)
    requires SeenOk(t, seen, painted) && InGrid(t, c) && 0 <= Index(t, c) < t.w * t.h
    ensures SeenOk(t, seen[Index(t, c) := true], painted[c := s])
  {
    hide Index, InGrid;
    forall a | InGrid(t, a)
      ensures 0 <= Index(t, a) < t.w * t.h && (seen[Index(t, c) := true][Index(t, a)] <==> a in painted[c := s])
    {
      if Index(t, a) == Index(t, c) {
        IndexIsInjective(t, a, c);
      }
    }
  }

  lemma SpreadStep(
    t: Task, bins: seq<seq<CellData>>, bins': seq<seq<CellData>>, seen: seq<bool>, painted: map<Cell, Cell>,
    c: Cell, s: Cell)
    requires Ready(t) && AllSpread(t, bins, painted) && Grows(bins, bins') && SeenOk(t, seen, painted[c := s])
    requires c !in painted
    requires forall n :: Neighbour(c, n) ==> Reachable(t, bins', seen, n, s)
    ensures AllSpread(t, bins', painted[c := s])
  {
    hide Neighbour, InGrid, Within, Queued, Index, Grows, IsLevelTable;
    var painted' := painted[c := s];
    forall a | a in painted'
      ensures Spread(t, bins', painted', a)
    {
      forall n | Neighbour(a, n) && InGrid(t, n) && Within(t, n, painted'[a])
        ensures n in painted' || Queued(t, bins', n, painted'[a])
      {
        if a == c {
          assert Reachable(t, bins', seen, n, s);
        } else {
          assert Spread(t, bins, painted, a);
          if Queued(t, bins, n, painted[a]) {
            GrowsKeepsQueued(t, bins, bins', n, painted[a]);
          }
        }
      }
    }
  }

  lemma SourcesStayQueued(t: Task, bins: seq<seq<CellData>>, bins': seq<seq<CellData>>)
    requires Ready(t) && SourcesQueued(t, bins) && Grows(bins, bins')
    ensures SourcesQueued(t, bins')
  {
    hide Queued, Grows, IsSource, IsLevelTable;
    forall s | IsSource(t, s)
      ensures Queued(t, bins', s, s)
    {
      GrowsKeepsQueued(t, bins, bins', s, s);
    }
  }

  /** Visiting an unseen queued cell keeps the wave consistent and does not touch the bin it came
      from. */
  lemma VisitKeeps(t: Task, bins: seq<seq<CellData>>, seen: seq<bool>, painted: map<Cell, Cell>, k: int, e: CellData)
    requires WaveOk(t, bins, seen, painted) && 0 <= k < |bins| && e in bins[k]
    requires 0 <= e.index < |seen| && !seen[e.index]
    requires IsSource(t, e.cell) ==> e.src == e.cell
    ensures var seen' := seen[e.index := true];
            var bins' := EnqueueAround(t, bins, seen', e.cell, e.src);
            WaveOk(t, bins', seen', painted[e.cell := e.src]) && Grows(bins, bins') && SameBin(bins, bins', k)
    ensures e.cell !in painted
  {
    hide AllSpread, SourcesQueued, IsLevelTable, IsSource, Within, Level, EnqueueAround, Grows;
    assert EntryOk(t, e, k);
    hide EntryOk;
    assert e.cell !in painted;
    var seen' := seen[e.index := true];
    var painted' := painted[e.cell := e.src];
    SeenStep(t, seen, painted, e.cell, e.src);
    EnqueueAroundOk(t, bins, seen', e.cell, e.src);
    var bins' := EnqueueAround(t, bins, seen', e.cell, e.src);
    SpreadStep(t, bins, bins', seen', painted, e.cell, e.src);
    SourcesStayQueued(t, bins, bins');
  }

  // ---------------------------------------------------------------------------------------------
  // Draining bin after bin

  lemma ZeroDistance(c: Cell, s: Cell)
    ensures D2(c, s) == 0 <==> c == s
    ensures 0 <= D2(c, s)
  {
    SquareIsNonNegative(c.x - s.x);
    SquareIsNonNegative(c.y - s.y);
    if c.x != s.x { SquareIsPositive(c.x - s.x); }
    if c.y != s.y { SquareIsPositive(c.y - s.y); }
  }

  lemma SquareIsPositive(a: int)
    requires a != 0
    ensures 0 < a * a
  {
  }

  lemma OwnDisc(t: Task, s: Cell)
    requires Ready(t)
    ensures Within(t, s, s) && LevelOf(t, s, s) == 0
  {
    hide Norm2, Level;
    var r := Reach(t.radius);
    OriginInDisc(t.radius);
    OriginInDisc(r);
    assert LevelOccurs(r, t.table, 0);
    var p :| InDisc(r, p) && Level(r, t.table, p) == 0;
    NormIsNonNegative(p);
  }

  /** Level 0 holds exactly the obstacles themselves. */
  lemma LevelZero(t: Task, c: Cell, s: Cell)
    requires Ready(t) && Within(t, c, s) && LevelOf(t, c, s) == 0
    ensures c == s
  {
    hide D2, Within, LevelOf, IsLevelTable;
    OwnDisc(t, s);
    LevelsOrder(t, s, s, c, s);
    ZeroDistance(c, s);
    ZeroDistance(s, s);
  }

  ghost predicate SourcesPainted(t: Task, painted: map<Cell, Cell>)
    requires |t.initial| == t.w * t.h
  {
    forall s :: IsSource(t, s) ==> s in painted
  }

  /** `s` is strictly the nearest obstacle of `c`, and within the radius. */
  ghost predicate Owns(t: Task, s: Cell, c: Cell)
    requires |t.initial| == t.w * t.h
  {
    && IsSource(t, s) && InGrid(t, c) && Within(t, c, s)
    && forall r :: IsSource(t, r) && r != s ==> D2(c, s) < D2(c, r)
  }

  /** A path of neighbours away from `s`, all of whose cells `s` owns. */
  ghost predicate ClearPath(t: Task, s: Cell, path: seq<Cell>)
    requires |t.initial| == t.w * t.h
  {
    var n := |path| - 1;
    && n >= 0 && Owns(t, s, path[n])
    && if n == 0 then path[0] == s
       else Neighbour(path[n - 1], path[n]) && D2(path[n - 1], s) < D2(path[n], s) && ClearPath(t, s, path[..n])
  }

  ghost predicate Reached(t: Task, s: Cell, c: Cell)
    requires |t.initial| == t.w * t.h
  {
    exists path :: path != [] && ClearPath(t, s, path) && path[|path| - 1] == c
  }

  /** Everything charged so far is at level `k` or below from its obstacle. */
  ghost predicate ChargedUpTo(t: Task, painted: map<Cell, Cell>, k: int)
    requires Shape(Reach(t.radius), t.table)
  {
    forall c :: c in painted ==> LevelOf(t, c, painted[c]) <= k
  }

  /** While bin `k` is drained: every cell with a clear path from an obstacle is charged to it, if it is
      below level `k`. */
  ghost predicate DrainedBelow(t: Task, painted: map<Cell, Cell>, k: int)
    requires |t.initial| == t.w * t.h && Shape(Reach(t.radius), t.table)
  {
    && (0 < k ==> SourcesPainted(t, painted))
    && ChargedUpTo(t, painted, k)
    && forall s, c :: Reached(t, s, c) && LevelOf(t, c, s) < k ==> c in painted && painted[c] == s
  }

  ghost predicate AllVisited(bin: seq<CellData>, painted: map<Cell, Cell>) {
    forall e :: e in bin ==> e.cell in painted
  }

  /** Any cell other than the obstacle has a neighbour nearer to it, and inside the grid. */
  lemma CloserNeighbour(t: Task, c: Cell, s: Cell) returns (n: Cell)
    requires InGrid(t, c) && InGrid(t, s) && c != s
    ensures Neighbour(n, c) && InGrid(t, n) && D2(n, s) < D2(c, s)
  {
    hide D2;
    if c.x != s.x {
      n := Cell(if c.x > s.x then c.x - 1 else c.x + 1, c.y);
      NearerInX(n, c, s);
    } else {
      n := Cell(c.x, if c.y > s.y then c.y - 1 else c.y + 1);
      NearerInY(n, c, s);
    }
  }

  lemma NearerInX(n: Cell, c: Cell, s: Cell)
    requires n.y == c.y && n.x == (if c.x > s.x then c.x - 1 else c.x + 1) && c.x != s.x
    ensures D2(n, s) < D2(c, s)
  {
    StepDown(c.x - s.x, n.x - s.x);
  }

  lemma NearerInY(n: Cell, c: Cell, s: Cell)
    requires n.x == c.x && n.y == (if c.y > s.y then c.y - 1 else c.y + 1) && c.y != s.y
    ensures D2(n, s) < D2(c, s)
  {
    StepDown(c.y - s.y, n.y - s.y);
  }

  lemma StepDown(a: int, b: int)
    requires a != 0 && b == if a > 0 then a - 1 else a + 1
    ensures b * b < a * a
  {
    if a > 0 {
      assert a * a == b * b + 2 * b + 1;
    } else {
      assert a * a == b * b - 2 * b + 1;
    }
  }

  /** Once bin `k` is drained, a cell of that level with a clear path is charged to its obstacle. */
  lemma NextLevelIsPainted(
    t: Task, bins: seq<seq<CellData>>, seen: seq<bool>, painted: map<Cell, Cell>, k: int, s: Cell, path: seq<Cell>)
    requires WaveOk(t, bins, seen, painted) && 0 <= k < |bins| && AllVisited(bins[k], painted)
             && DrainedBelow(t, painted, k)
    requires ClearPath(t, s, path) && LevelOf(t, path[|path| - 1], s) == k
    ensures var c := path[|path| - 1]; c in painted && painted[c] == s
  {
    hide D2, IsLevelTable, Level, Lethal, BinsOk, SeenOk, Index, Reached, Within, InGrid, IsSource;
    var n := |path| - 1;
    var c := path[n];
    if n == 0 {
      OwnDisc(t, s);
      assert Queued(t, bins, s, s);
    } else {
      var before := path[n - 1];
      ClearPathReaches(t, s, path[..n], before);
      LevelsOrder(t, before, s, c, s);
      assert before in painted && painted[before] == s;
      assert Spread(t, bins, painted, before);
      LevelsOrder(t, c, s, c, painted[c]);
    }
  }

  lemma ClearPathReaches(t: Task, s: Cell, path: seq<Cell>, c: Cell)
    requires |t.initial| == t.w * t.h && ClearPath(t, s, path) && path[|path| - 1] == c
    ensures Reached(t, s, c) && Owns(t, s, c)
  {
  }

  lemma DrainKeeps(t: Task, bins: seq<seq<CellData>>, seen: seq<bool>, painted: map<Cell, Cell>, k: int)
    requires WaveOk(t, bins, seen, painted) && 0 <= k < |bins|
    requires AllVisited(bins[k], painted) && DrainedBelow(t, painted, k)
    ensures DrainedBelow(t, painted, k + 1)
  {
    hide Within, Level, IsSource, InGrid, IsLevelTable, BinsOk, SeenOk, AllSpread, ClearPath, LevelOf;
    if k == 0 {
      forall s | IsSource(t, s)
        ensures s in painted
      {
        OwnDisc(t, s);
        assert Queued(t, bins, s, s);
      }
    }
    forall s, c | Reached(t, s, c) && LevelOf(t, c, s) < k + 1
      ensures c in painted && painted[c] == s
    {
      if LevelOf(t, c, s) == k {
        var path :| path != [] && ClearPath(t, s, path) && path[|path| - 1] == c;
        NextLevelIsPainted(t, bins, seen, painted, k, s, path);
      }
    }
  }

  lemma PaintingKeepsDrained(t: Task, painted: map<Cell, Cell>, c: Cell, s: Cell, k: int)
    requires Ready(t) && DrainedBelow(t, painted, k) && c !in painted && LevelOf(t, c, s) == k
    ensures DrainedBelow(t, painted[c := s], k)
  {
    hide LevelOf, IsSource, IsLevelTable, Reached;
  }

  /** An unseen entry may be visited: an obstacle is only ever queued unseen under its own name. */
  lemma UnseenIsOwn(t: Task, bins: seq<seq<CellData>>, seen: seq<bool>, painted: map<Cell, Cell>, k: int, e: CellData)
    requires WaveOk(t, bins, seen, painted) && 0 <= k < |bins| && e in bins[k] && DrainedBelow(t, painted, k)
    ensures 0 <= e.index < |seen| && e.index == Index(t, e.cell) && InGrid(t, e.cell)
            && InSquare(t.radius, Diff(e.cell, e.src))
    ensures !seen[e.index] && IsSource(t, e.cell) ==> e.src == e.cell
    ensures LevelOf(t, e.cell, e.src) == k
  {
    assert EntryOk(t, e, k);
    IndexInRange(t, e.cell);
    WithinIsInDisc(t, e.cell, e.src);
    hide IsLevelTable, Level, Index, Within, IsSource;
    if k == 0 {
      LevelZero(t, e.cell, e.src);
    }
  }

  // ---------------------------------------------------------------------------------------------
  // What the painting means

  /** The result of the wave: every obstacle is charged to itself, every visited cell to an obstacle
      within the radius, and a cell that an obstacle can reach through cells it owns to that obstacle. */
  ghost predicate Inflated(t: Task, painted: map<Cell, Cell>)
    requires |t.initial| == t.w * t.h
  {
    && (forall c :: c in painted ==> InGrid(t, c) && IsSource(t, painted[c]) && Within(t, c, painted[c]))
    && (forall s :: IsSource(t, s) ==> s in painted && painted[s] == s)
    && (forall s, c :: Reached(t, s, c) ==> c in painted && painted[c] == s)
  }

  lemma WaveIsInflated(t: Task, bins: seq<seq<CellData>>, seen: seq<bool>, painted: map<Cell, Cell>)
    requires WaveOk(t, bins, seen, painted) && DrainedBelow(t, painted, |bins|)
    ensures Inflated(t, painted)
  {
    hide Level, IsLevelTable, IsSource, InGrid, SeenOk, AllSpread, SourcesQueued, Within, ClearPath;
    forall s, c | Reached(t, s, c)
      ensures c in painted && painted[c] == s
    {
      var path :| path != [] && ClearPath(t, s, path) && path[|path| - 1] == c;
      ClearPathReaches(t, s, path, c);
      LevelsOrder(t, c, s, c, s);
    }
  }

  /** No cell of the grid is within the radius of both `s` and another obstacle. */
  ghost predicate DiscAlone(t: Task, s: Cell)
    requires |t.initial| == t.w * t.h
  {
    IsSource(t, s) && forall r, c :: IsSource(t, r) && InGrid(t, c) && Within(t, c, s) && Within(t, c, r) ==> r == s
  }

  /** In a disc that stands alone every cell has a clear path: step by step nearer to the centre. */
  lemma {:induction false} AloneIsReached(t: Task, s: Cell, c: Cell) returns (path: seq<Cell>)
    requires Ready(t) && DiscAlone(t, s) && InGrid(t, c) && Within(t, c, s)
    ensures path != [] && ClearPath(t, s, path) && path[|path| - 1] == c
    decreases D2(c, s)
  {
    hide D2, IsSource, IsLevelTable;
    assert Owns(t, s, c);
    if c == s {
      path := [c];
    } else {
      SourceInGrid(t, s);
      ZeroDistance(c, s);
      var n := CloserNeighbour(t, c, s);
      ZeroDistance(n, s);
      var front := AloneIsReached(t, s, n);
      path := front + [c];
      assert path[..|front|] == front;
    }
  }

  lemma SourceInGrid(t: Task, s: Cell)
    requires |t.initial| == t.w * t.h && IsSource(t, s)
    ensures InGrid(t, s)
  {
  }

  /** With a single obstacle the visited cells are exactly the Euclidean disc of radius R in the grid,
      and each is charged its exact distance. */
  lemma SingleObstacleIsDisc(t: Task, painted: map<Cell, Cell>, s: Cell)
    requires Ready(t) && Inflated(t, painted)
    requires IsSource(t, s) && forall r :: IsSource(t, r) ==> r == s
    ensures forall c :: c in painted <==> InGrid(t, c) && Within(t, c, s)
    ensures forall c :: c in painted ==> painted[c] == s
  {
    hide IsSource, InGrid, Within, IsLevelTable, ClearPath;
    assert DiscAlone(t, s);
    forall c | InGrid(t, c) && Within(t, c, s)
      ensures c in painted
    {
      var path := AloneIsReached(t, s, c);
      assert Reached(t, s, c);
    }
  }

  // ---------------------------------------------------------------------------------------------
  // Writing back

  /** computeCost: lethal at distance 0, then inscribed, then decreasing. */
  ghost predicate IsCost(cost: nat -> int) {
    && cost(0) == LETHAL_OBSTACLE
    && (forall d :: 0 < d ==> 0 <= cost(d) <= INSCRIBED_INFLATED_OBSTACLE)
    && (forall d, e :: d <= e ==> cost(e) <= cost(d))
  }

  function Blend(t: Task, before: int, cost: int): int {
    if before == NO_INFORMATION && (if t.inflateUnknown then cost > FREE_SPACE else cost >= INSCRIBED_INFLATED_OBSTACLE)
    then cost
    else if before > cost then before else cost
  }

  /** The cost of a cell after the wave has painted `painted`. */
  ghost function Written(t: Task, painted: map<Cell, Cell>, c: Cell): int
    requires |t.initial| == t.w * t.h && 0 <= Index(t, c) < t.w * t.h
  {
    var before := t.initial[Index(t, c)];
    if c in painted && InWindow(t, c) && 0 <= D2(c, painted[c]) then
      Blend(t, before, t.cost(D2(c, painted[c])))
    else before
  }

  ghost predicate MasterOk(t: Task, master: seq<int>, painted: map<Cell, Cell>)
    requires |t.initial| == t.w * t.h
  {
    |master| == t.w * t.h &&
    forall c :: InGrid(t, c) ==> 0 <= Index(t, c) < t.w * t.h && master[Index(t, c)] == Written(t, painted, c)
  }

  lemma MasterStep(t: Task, master: seq<int>, painted: map<Cell, Cell>, c: Cell, s: Cell)
    requires Ready(t) && MasterOk(t, master, painted) && InGrid(t, c) && 0 <= Index(t, c) < t.w * t.h && c !in painted
    ensures MasterOk(t, master[Index(t, c) := Written(t, painted[c := s], c)], painted[c := s])
  {
    hide Index, InGrid, Blend, IsLevelTable, D2, InWindow;
    var master' := master[Index(t, c) := Written(t, painted[c := s], c)];
    forall a | InGrid(t, a)
      ensures 0 <= Index(t, a) < t.w * t.h && master'[Index(t, a)] == Written(t, painted[c := s], a)
    {
      if Index(t, a) == Index(t, c) {
        IndexIsInjective(t, a, c);
      }
    }
  }

  /** What the write-back guarantees, for costs of a byte: outside the window nothing changes; lethal
      cells stay lethal; known costs never decrease; and no cell gets more than the larger of its old
      cost and the cost its nearest obstacle in the padded window is worth. */
  lemma WriteBackIsBounded(t: Task, painted: map<Cell, Cell>, c: Cell, nearest: Cell)
    requires Ready(t) && Inflated(t, painted) && IsCost(t.cost) && InGrid(t, c) && 0 <= Index(t, c) < t.w * t.h
    requires 0 <= t.initial[Index(t, c)] <= NO_INFORMATION
    requires IsSource(t, nearest) && forall r :: IsSource(t, r) ==> D2(c, nearest) <= D2(c, r)
    ensures var before := t.initial[Index(t, c)];
            var after := Written(t, painted, c);
            && (!InWindow(t, c) ==> after == before)
            && (before == LETHAL_OBSTACLE ==> after == LETHAL_OBSTACLE)
            && (before != NO_INFORMATION ==> before <= after)
            && 0 <= D2(c, nearest) && (after <= before || after <= t.cost(D2(c, nearest)))
  {
    hide Index, InGrid, IsLevelTable, D2, InWindow, Within, IsSource;
    ZeroDistance(c, nearest);
    if c in painted {
      ZeroDistance(c, painted[c]);
      assert D2(c, nearest) <= D2(c, painted[c]);
      assert t.cost(D2(c, painted[c])) <= t.cost(D2(c, nearest));
      assert t.cost(D2(c, painted[c])) <= t.cost(0);
    }
  }

  /** Where the wave is exact, whatever else overlaps: a cell that its strictly nearest obstacle can reach
      through cells it owns gets, inside the window, the blend of its old cost with the cost of its true
      distance, and no obstacle is nearer. */
  lemma ReachedIsExact(t: Task, painted: map<Cell, Cell>, s: Cell, c: Cell)
    requires Ready(t) && Inflated(t, painted) && Reached(t, s, c) && InWindow(t, c) && 0 <= Index(t, c) < t.w * t.h
    ensures 0 <= D2(c, s) && Written(t, painted, c) == Blend(t, t.initial[Index(t, c)], t.cost(D2(c, s)))
    ensures forall r :: IsSource(t, r) && r != s ==> D2(c, s) < D2(c, r)
  {
    hide Index, InGrid, IsLevelTable, D2, InWindow, Within, IsSource, Blend, ClearPath;
    ZeroDistance(c, s);
    var path :| path != [] && ClearPath(t, s, path) && path[|path| - 1] == c;
    ClearPathReaches(t, s, path, c);
  }
}
