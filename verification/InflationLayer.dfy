/** The inflation layer (inflation_layer.cpp): caches, buckets and the wavefront that spreads costs
    from obstacles, changed in place.  Distances are kept squared. */
module InflationLayers {
  import opened IntegerDistances
  import opened Grids
  import opened Inflation

  /** cached_distances_ and cached_costs_: entry (i, j) at i * n + j. */
  ghost predicate IsCache(n: nat, distances: seq<int>, costs: seq<int>, cost: nat -> int) {
    && |distances| == |costs| == n * n
    && forall i: nat, j: nat :: i < n && j < n ==> CacheEntry(n, distances, costs, cost, i, j)
  }

  ghost predicate CacheEntry(n: nat, distances: seq<int>, costs: seq<int>, cost: nat -> int, i: nat, j: nat) {
    && 0 <= i * n + j < |distances| && 0 <= i * n + j < |costs|
    && distances[i * n + j] == i * i + j * j && costs[i * n + j] == cost(i * i + j * j)
  }

  method FillCaches(n: nat, cost: nat -> int) returns (distances: seq<int>, costs: seq<int>)
    ensures IsCache(n, distances, costs, cost)
  {
    hide CacheEntry;
    distances, costs := [], [];
    for i := 0 to n
      invariant |distances| == |costs| == i * n
      invariant forall k: nat, l: nat :: k < i && l < n ==> CacheEntry(n, distances, costs, cost, k, l)
    {
      for j := 0 to n
        invariant |distances| == |costs| == i * n + j
        invariant forall k: nat, l: nat :: k < i && l < n ==> CacheEntry(n, distances, costs, cost, k, l)
        invariant forall l: nat :: l < j ==> CacheEntry(n, distances, costs, cost, i, l)
      {
        CacheGrows(n, distances, costs, cost, i, j);
        distances := distances + [i * i + j * j];
        costs := costs + [cost(i * i + j * j)];
      }
    }
  }

  lemma CacheGrows(n: nat, distances: seq<int>, costs: seq<int>, cost: nat -> int, i: nat, j: nat)
    requires |distances| == |costs| == i * n + j
    ensures var (ds, cs) := (distances + [i * i + j * j], costs + [cost(i * i + j * j)]);
            && (forall k: nat, l: nat :: CacheEntry(n, distances, costs, cost, k, l) ==>
                  CacheEntry(n, ds, cs, cost, k, l))
            && CacheEntry(n, ds, cs, cost, i, j)
  {
  }

  /** Squared distance is what the caches are indexed by. */
  lemma DistanceOfAbs(c: Cell, s: Cell)
    ensures D2(c, s) == Abs(c.x - s.x) * Abs(c.x - s.x) + Abs(c.y - s.y) * Abs(c.y - s.y)
  {
    AbsSquare(c.x - s.x);
    AbsSquare(c.y - s.y);
  }

  lemma AbsSquare(a: int)
    ensures Abs(a) * Abs(a) == a * a
  {
  }

  class InflationLayer {
    const radius: nat
    const cost: nat -> int
    const enabled: bool
    const inflateUnknown: bool
    const aroundUnknown: bool
    var cacheLength: nat
    var distances: seq<int>
    var costs: seq<int>
    var table: seq<seq<int>>
    var bins: seq<seq<CellData>>
    var seen: seq<bool>

    /** The caches fit the radius and the buckets are empty. */
    ghost predicate Valid()
      reads this
    {
      && Cached()
      && forall k :: 0 <= k < |bins| ==> bins[k] == []
    }

    ghost predicate Cached()
      reads this
    {
      && cacheLength == radius + 2
      && IsCache(cacheLength, distances, costs, cost)
      && 0 < |bins| && IsLevelTable(Reach(radius), table, |bins| - 1)
    }

    /** computeCaches. */
    constructor (radius: nat, cost: nat -> int, enabled: bool, inflateUnknown: bool, aroundUnknown: bool)
      ensures Valid() && this.radius == radius && this.cost == cost
      ensures this.enabled == enabled && this.inflateUnknown == inflateUnknown && this.aroundUnknown == aroundUnknown
    {
      this.radius, this.cost, this.enabled := radius, cost, enabled;
      this.inflateUnknown, this.aroundUnknown := inflateUnknown, aroundUnknown;
      cacheLength := radius + 2;
      var ds, cs := FillCaches(radius + 2, cost);
      distances, costs := ds, cs;
      var levels, top := GenerateIntegerDistances(radius);
      table := levels;
      bins := seq(top + 1, (k: nat) => []);
      seen := [];
    }

    ghost function TaskOf(w: nat, h: nat, initial: seq<int>, minX: int, minY: int, maxX: int, maxY: int): Task
      reads this
    {
      Task(w, h, radius, table, |bins| - 1, initial, minX, minY, maxX, maxY, inflateUnknown, aroundUnknown, cost)
    }

    /** `t` is a task of this layer. */
    ghost predicate Serves(t: Task)
      reads this
    {
      && Cached() && t.radius == radius && t.table == table && t.top == |bins| - 1 && t.cost == cost
      && t.inflateUnknown == inflateUnknown && t.aroundUnknown == aroundUnknown
    }

    method DistanceLookup(c: Cell, s: Cell) returns (d: int)
      requires Cached() && InSquare(radius + 1, Diff(c, s))
      ensures d == D2(c, s)
    {
      var dx := if c.x > s.x then c.x - s.x else s.x - c.x;
      var dy := if c.y > s.y then c.y - s.y else s.y - c.y;
      DistanceOfAbs(c, s);
      assert CacheEntry(cacheLength, distances, costs, cost, dx, dy);
      d := distances[dx * cacheLength + dy];
    }

    method CostLookup(c: Cell, s: Cell) returns (v: int)
      requires Cached() && InSquare(radius + 1, Diff(c, s))
      ensures 0 <= D2(c, s) && v == cost(D2(c, s))
    {
      hide D2;
      ZeroDistance(c, s);
      var dx := if c.x > s.x then c.x - s.x else s.x - c.x;
      var dy := if c.y > s.y then c.y - s.y else s.y - c.y;
      DistanceOfAbs(c, s);
      assert CacheEntry(cacheLength, distances, costs, cost, dx, dy);
      v := costs[dx * cacheLength + dy];
    }

    /** enqueue: the cell may be one step outside the radius, which the caches and the level table
        still cover. */
    method EnqueueCell(index: int, n: Cell, s: Cell, ghost t: Task)
      requires Serves(t) && Ready(t) && |seen| == t.w * t.h && InGrid(t, n) && index == Index(t, n)
      requires InSquare(radius + 1, Diff(n, s))
      modifies this`bins
      ensures bins == Enqueue(t, old(bins), seen, n, s)
    {
      hide IsCache, IsLevelTable, Index;
      IndexInRange(t, n);
      if !seen[index] {
        var d := DistanceLookup(n, s);
        if d > radius * radius {
          return;
        }
        LevelsOrder(t, n, s, n, s);
        var r := radius + 2;
        var k := table[n.x - s.x + r][n.y - s.y + r];
        bins := bins[k := bins[k] + [CellData(index, n, s)]];
      }
    }

    /** The four attempts at the end of a visit, each guarded by the edge of the grid. */
    method EnqueueNeighbours(index: int, c: Cell, s: Cell, t: Task)
      requires Serves(t) && Ready(t) && |seen| == t.w * t.h && InGrid(t, c) && index == Index(t, c)
      requires InSquare(radius, Diff(c, s))
      modifies this`bins
      ensures bins == EnqueueAround(t, old(bins), seen, c, s) && |bins| == |old(bins)|
    {
      hide IsCache, IsLevelTable, Within, Level;
      NeighbourIndices(t, c);
      if c.x > 0 {
        EnqueueCell(index - 1, Cell(c.x - 1, c.y), s, t);
      }
      if c.y > 0 {
        EnqueueCell(index - t.w, Cell(c.x, c.y - 1), s, t);
      }
      if c.x < t.w - 1 {
        EnqueueCell(index + 1, Cell(c.x + 1, c.y), s, t);
      }
      if c.y < t.h - 1 {
        EnqueueCell(index + t.w, Cell(c.x, c.y + 1), s, t);
      }
    }

    /** One entry of a bin: skip it if its cell was visited, else charge the cell and spread from it. */
    method VisitEntry(master: array<int>, b: nat, e: CellData, t: Task, ghost painted: map<Cell, Cell>)
      returns (ghost painted': map<Cell, Cell>)
      requires Serves(t) && Ready(t) && b < |bins| && e in bins[b]
      requires WaveOk(t, bins, seen, painted) && MasterOk(t, master[..], painted) && DrainedBelow(t, painted, b)
      modifies this`bins, this`seen, master
      ensures Serves(t) && |bins| == |old(bins)| && bins[b] == old(bins[b])
      ensures WaveOk(t, bins, seen, painted') && MasterOk(t, master[..], painted') && DrainedBelow(t, painted', b)
      ensures e.cell in painted' && forall c :: c in painted ==> c in painted' && painted'[c] == painted[c]
    {
      hide IsCache, IsLevelTable, AllSpread, SourcesQueued, SourcesOwn, PaintOk, BinsOk, Index, EnqueueAround, Level,
        Enqueue, DrainedBelow, Blend, IsSource, D2, Within;
      UnseenIsOwn(t, bins, seen, painted, b, e);
      var index := e.index;
      if seen[index] {
        assert e.cell in painted;
        return painted;
      }
      VisitKeeps(t, bins, seen, painted, b, e);
      PaintingKeepsDrained(t, painted, e.cell, e.src, b);
      MasterStep(t, master[..], painted, e.cell, e.src);
      painted' := painted[e.cell := e.src];
      seen := seen[index := true];
      var cost := CostLookup(e.cell, e.src);
      var before := master[index];
      if t.minX <= e.cell.x && t.minY <= e.cell.y && e.cell.x < t.maxX && e.cell.y < t.maxY {
        master[index] := Blend(t, before, cost);
      }
      EnqueueNeighbours(index, e.cell, e.src, t);
    }

    /** The obstacles of the padded window, row by row. */
    method CollectObstacles(master: array<int>, t: Task) returns (found: seq<CellData>)
      requires Serves(t) && Ready(t) && master[..] == t.initial
      ensures forall e :: e in found ==> EntryOk(t, e, 0)
      ensures forall s :: IsSource(t, s) ==> CellData(Index(t, s), s, s) in found
    {
      hide IsCache, IsLevelTable, Index, Lethal, Within, Level;
      var minX := if t.minX - t.radius > 0 then t.minX - t.radius else 0;
      var minY := if t.minY - t.radius > 0 then t.minY - t.radius else 0;
      var maxX := if t.maxX + t.radius < t.w then t.maxX + t.radius else t.w;
      var maxY := if t.maxY + t.radius < t.h then t.maxY + t.radius else t.h;
      found := [];
      var j := minY;
      while j < maxY
        invariant minY <= j
        invariant forall e :: e in found ==> EntryOk(t, e, 0)
        invariant forall s :: IsSource(t, s) && s.y < j ==> CellData(Index(t, s), s, s) in found
      {
        var i := minX;
        while i < maxX
          invariant minX <= i
          invariant forall e :: e in found ==> EntryOk(t, e, 0)
          invariant forall s :: IsSource(t, s) && (s.y < j || (s.y == j && s.x < i)) ==>
                    CellData(Index(t, s), s, s) in found
        {
          var c := Cell(i, j);
          IndexInRange(t, c);
          var index := Index(t, c);
          if Lethal(t, master[index]) {
            OwnDisc(t, c);
            assert IsSource(t, c);
            found := found + [CellData(index, c, c)];
          }
          i := i + 1;
        }
        j := j + 1;
      }
    }

    /** Process one bin; new cells never land in it. */
    method DrainBin(
      master: array<int>, b: nat, t: Task, ghost painted: map<Cell, Cell>) returns (ghost painted': map<Cell, Cell>)
      requires Serves(t) && Ready(t) && b < |bins|
      requires WaveOk(t, bins, seen, painted) && MasterOk(t, master[..], painted) && DrainedBelow(t, painted, b)
      modifies this`bins, this`seen, master
      ensures Serves(t) && |bins| == |old(bins)| && bins[b] == old(bins[b])
      ensures WaveOk(t, bins, seen, painted') && MasterOk(t, master[..], painted') && DrainedBelow(t, painted', b + 1)
    {
      hide IsCache, IsLevelTable, WaveOk, MasterOk, DrainedBelow;
      painted' := painted;
      var i := 0;
      while i < |bins[b]|
        invariant Serves(t) && |bins| == |old(bins)| && bins[b] == old(bins[b])
        invariant WaveOk(t, bins, seen, painted') && MasterOk(t, master[..], painted') && DrainedBelow(t, painted', b)
        invariant 0 <= i <= |bins[b]| && forall j :: 0 <= j < i ==> bins[b][j].cell in painted'
        decreases |old(bins[b])| - i
      {
        painted' := VisitEntry(master, b, bins[b][i], t, painted');
        i := i + 1;
      }
      assert AllVisited(bins[b], painted');
      DrainKeeps(t, bins, seen, painted', b);
    }

    /** updateCosts. */
    method UpdateCosts(master: array<int>, w: nat, h: nat, minX: int, minY: int, maxX: int, maxY: int)
      returns (ghost painted: map<Cell, Cell>)
      requires Valid() && master.Length == w * h
      modifies this`bins, this`seen, master
      ensures Valid()
      ensures !enabled || radius == 0 ==> master[..] == old(master[..])
      ensures enabled && radius > 0 ==>
                var t := old(TaskOf(w, h, master[..], minX, minY, maxX, maxY));
                Ready(t) && Inflated(t, painted) && MasterOk(t, master[..], painted)
    {
      hide IsCache, IsLevelTable, WaveOk, MasterOk, DrainedBelow, Inflated;
      painted := map[];
      if !enabled || radius == 0 {
        return;
      }
      var t := Task(w, h, radius, table, |bins| - 1, master[..], minX, minY, maxX, maxY, inflateUnknown,
                    aroundUnknown, cost);
      assert Ready(t) by {
        LevelTableHasShape(t);
      }
      seen := seq(w * h, (k: nat) => false);
      var found := CollectObstacles(master, t);
      WaveStarts(t, bins, seen, found);
      bins := bins[0 := found];
      for b := 0 to |bins|
        invariant Serves(t) && |bins| == |old(bins)|
        invariant WaveOk(t, bins, seen, painted) && MasterOk(t, master[..], painted) && DrainedBelow(t, painted, b)
      {
        painted := DrainBin(master, b, t, painted);
      }
      WaveIsInflated(t, bins, seen, painted);
      bins := seq(|bins|, (k: nat) => []);
    }
  }

  lemma LevelTableHasShape(t: Task)
    requires IsLevelTable(Reach(t.radius), t.table, t.top)
    ensures Shape(Reach(t.radius), t.table)
  {
  }

  /** The wave before the first visit: only the obstacles are queued. */
  lemma WaveStarts(t: Task, bins: seq<seq<CellData>>, seen: seq<bool>, found: seq<CellData>)
    requires Ready(t) && |bins| == t.top + 1 && forall k :: 0 <= k < |bins| ==> bins[k] == []
    requires |seen| == t.w * t.h && forall k :: 0 <= k < |seen| ==> !seen[k]
    requires forall e :: e in found ==> EntryOk(t, e, 0)
    requires forall s :: IsSource(t, s) ==> CellData(Index(t, s), s, s) in found
    ensures WaveOk(t, bins[0 := found], seen, map[]) && MasterOk(t, t.initial, map[]) && DrainedBelow(t, map[], 0)
  {
    hide IsLevelTable, Index, IsSource, Within, Level, EntryOk, InGrid, Reached;
    forall c | InGrid(t, c)
      ensures 0 <= Index(t, c) < t.w * t.h
    {
      IndexInRange(t, c);
    }
    forall s | IsSource(t, s)
      ensures Queued(t, bins[0 := found], s, s)
    {
      OwnDisc(t, s);
    }
    forall s, c | Reached(t, s, c)
      ensures 0 <= LevelOf(t, c, s)
    {
      ReachedIsWithin(t, s, c);
      LevelsOrder(t, c, s, c, s);
    }
  }

  lemma ReachedIsWithin(t: Task, s: Cell, c: Cell)
    requires Ready(t) && Reached(t, s, c)
    ensures Within(t, c, s)
  {
    var path :| path != [] && ClearPath(t, s, path) && path[|path| - 1] == c;
    ClearPathReaches(t, s, path, c);
  }

  lemma NeighbourIndices(t: Task, c: Cell)
    ensures Index(t, Cell(c.x - 1, c.y)) == Index(t, c) - 1
    ensures Index(t, Cell(c.x + 1, c.y)) == Index(t, c) + 1
    ensures Index(t, Cell(c.x, c.y - 1)) == Index(t, c) - t.w
    ensures Index(t, Cell(c.x, c.y + 1)) == Index(t, c) + t.w
  {
  }
}
