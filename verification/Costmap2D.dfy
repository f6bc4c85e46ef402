/** The rolling window of the costmap (costmap_2d.cpp) and of the voxel layer, which shifts two maps
    together (voxel_layer.cpp).  Coordinates in the world are reals. */
module Costmaps {
  import opened Options
  import opened Grids
  import opened ConvexFills

  /** static_cast<int> of a double: truncation toward zero. */
  function Trunc(x: real): int {
    if x >= 0.0 then x.Floor else -((-x).Floor)
  }

  /** The region of a map that starts at (x0, y0). */
  predicate InRegion(x: int, y: int, x0: int, y0: int, rw: int, rh: int) {
    x0 <= x < x0 + rw && y0 <= y < y0 + rh
  }

  /** `after` is `before` with a region overwritten from `src`. */
  ghost predicate Copied<T>(
    src: seq<T>, sx: int, sy: int, sw: int, before: seq<T>, after: seq<T>, dx: int, dy: int, dw: int, dh: int,
    rw: int, rh: int)
  {
    && |after| == |before| == dw * dh
    && forall x, y :: InMap(x, y, dw, dh) ==> CopiedAt(src, sx, sy, sw, before, after, dx, dy, dw, rw, rh, x, y)
  }

  ghost predicate CopiedAt<T>(
    src: seq<T>, sx: int, sy: int, sw: int, before: seq<T>, after: seq<T>, dx: int, dy: int, dw: int, rw: int, rh: int,
    x: int, y: int)
  {
    && 0 <= At(x, y, dw) < |after| && |after| == |before|
    && if InRegion(x, y, dx, dy, rw, rh) then
         0 <= At(x - dx + sx, y - dy + sy, sw) < |src| && after[At(x, y, dw)] == src[At(x - dx + sx, y - dy + sy, sw)]
       else
         after[At(x, y, dw)] == before[At(x, y, dw)]
  }

  /** memcpy of one row. */
  method CopyRow<T>(src: array<T>, from: nat, dst: array<T>, to: nat, n: nat)
    requires src != dst && from + n <= src.Length && to + n <= dst.Length
    modifies dst
    ensures forall k :: 0 <= k < dst.Length ==> dst[k] == if to <= k < to + n then src[from + k - to] else old(dst[k])
  {
    for i := 0 to n
      invariant forall k :: 0 <= k < dst.Length ==>
                dst[k] == if to <= k < to + i then src[from + k - to] else old(dst[k])
    {
      dst[to + i] := src[from + i];
    }
  }

  lemma RowFits(x0: nat, y: nat, w: nat, h: nat, n: nat)
    requires x0 + n <= w && y < h
    ensures 0 <= At(x0, y, w) && At(x0, y, w) + n <= w * h
  {
    assert y * w <= (h - 1) * w;
    assert (h - 1) * w == w * h - w;
  }

  ghost predicate Blank<T>(s: seq<T>, d: T) {
    forall k :: 0 <= k < |s| ==> s[k] == d
  }

  lemma NothingCopied<T>(
    src: seq<T>, sx: int, sy: int, sw: int, s: seq<T>, dx: int, dy: int, dw: int, dh: int, rw: int, rh: int)
    requires |s| == dw * dh && (rw == 0 || rh == 0)
    ensures Copied(src, sx, sy, sw, s, s, dx, dy, dw, dh, rw, rh)
  {
    hide At;
    forall x, y | InMap(x, y, dw, dh)
      ensures CopiedAt(src, sx, sy, sw, s, s, dx, dy, dw, rw, rh, x, y)
    {
      AtInRange(x, y, dw, dh);
    }
  }

  /** copyMapRegion.  An empty region may start anywhere: nothing is copied. */
  method CopyMapRegion<T>(
    src: array<T>, sx: int, sy: int, sw: nat, sh: nat, dst: array<T>, dx: int, dy: int, dw: nat, dh: nat, rw: nat,
    rh: nat)
    requires src != dst && src.Length == sw * sh && dst.Length == dw * dh
    requires rw > 0 && rh > 0 ==> 0 <= sx && 0 <= sy && sx + rw <= sw && sy + rh <= sh
    requires rw > 0 && rh > 0 ==> 0 <= dx && 0 <= dy && dx + rw <= dw && dy + rh <= dh
    modifies dst
    ensures Copied(src[..], sx, sy, sw, old(dst[..]), dst[..], dx, dy, dw, dh, rw, rh)
  {
    hide At, Copied, CopiedAt;
    NothingCopied(src[..], sx, sy, sw, dst[..], dx, dy, dw, dh, rw, 0);
    if rw == 0 {
      NothingCopied(src[..], sx, sy, sw, dst[..], dx, dy, dw, dh, rw, rh);
      return;
    }
    for i := 0 to rh
      invariant Copied(src[..], sx, sy, sw, old(dst[..]), dst[..], dx, dy, dw, dh, rw, i)
    {
      RowFits(sx, sy + i, sw, sh, rw);
      RowFits(dx, dy + i, dw, dh, rw);
      ghost var before := dst[..];
      CopyRow(src, At(sx, sy + i, sw), dst, At(dx, dy + i, dw), rw);
      RowCopied(src[..], sx, sy, sw, sh, old(dst[..]), before, dst[..], dx, dy, dw, dh, rw, i);
    }
  }

  /** The indices of a row segment are exactly those of its cells. */
  lemma RowSegment(x: int, y: int, x0: int, y0: int, n: nat, w: int)
    requires 0 <= x < w && 0 <= x0 && x0 + n <= w
    ensures At(x0, y0, w) <= At(x, y, w) < At(x0, y0, w) + n <==> y == y0 && x0 <= x < x0 + n
    ensures y == y0 ==> At(x, y, w) - At(x0, y0, w) == x - x0
  {
    var k := At(x, y, w) - At(x0, y0, w);
    if 0 <= k < n {
      AtIsInjective(x, y, x0 + k, y0, w);
    }
  }

  lemma RowCopied<T>(
    src: seq<T>, sx: nat, sy: nat, sw: nat, sh: nat, start: seq<T>, before: seq<T>, after: seq<T>,
    dx: nat, dy: nat, dw: nat, dh: nat, rw: nat, i: nat)
    requires |src| == sw * sh && sx + rw <= sw && sy + i < sh && dx + rw <= dw && dy + i < dh
    requires Copied(src, sx, sy, sw, start, before, dx, dy, dw, dh, rw, i)
    requires |after| == |before| && 0 <= At(sx, sy + i, sw) && At(sx, sy + i, sw) + rw <= |src|
    requires var (from, to) := (At(sx, sy + i, sw), At(dx, dy + i, dw));
             forall k :: 0 <= k < |after| ==> after[k] == if to <= k < to + rw then src[from + k - to] else before[k]
    ensures Copied(src, sx, sy, sw, start, after, dx, dy, dw, dh, rw, i + 1)
  {
    hide At;
    forall x, y | InMap(x, y, dw, dh)
      ensures CopiedAt(src, sx, sy, sw, start, after, dx, dy, dw, rw, i + 1, x, y)
    {
      assert CopiedAt(src, sx, sy, sw, start, before, dx, dy, dw, rw, i, x, y);
      RowSegment(x, y, dx, dy + i, rw, dw);
      if InRegion(x, y, dx, dy + i, rw, 1) {
        RowSegment(x - dx + sx, sy + i, sx, sy + i, rw, sw);
      }
    }
  }

  // ---------------------------------------------------------------------------------------------
  // Shifting a window by whole cells

  function Clamp(v: int, hi: nat): nat {
    if v < 0 then 0 else if v > hi then hi else v
  }

  /** Every cell that was in the old window keeps its value; every other cell has the default. */
  ghost predicate Shifted<T>(before: seq<T>, after: seq<T>, w: nat, h: nat, cx: int, cy: int, d: T) {
    && |before| == |after| == w * h
    && forall x, y :: InMap(x, y, w, h) ==> ShiftedAt(before, after, w, h, cx, cy, d, x, y)
  }

  ghost predicate ShiftedAt<T>(before: seq<T>, after: seq<T>, w: nat, h: nat, cx: int, cy: int, d: T, x: int, y: int) {
    && 0 <= At(x, y, w) < |after|
    && after[At(x, y, w)] ==
       if InMap(x + cx, y + cy, w, h) && 0 <= At(x + cx, y + cy, w) < |before| then before[At(x + cx, y + cy, w)] else d
  }

  /** The overlap of the old window and the window shifted by `c` along one axis of `n` cells: it starts
      at `lower` in the old one and at `lower - c` in the new one, and is `upper - lower` long. */
  lemma Overlap(c: int, n: nat, x: int)
    requires 0 <= x < n
    ensures 0 <= x + c < n <==> Clamp(c, n) - c <= x < Clamp(c + n, n) - c
  {
  }

  method SaveOverlap<T>(grid: array<T>, w: nat, h: nat, cx: int, cy: int, d: T) returns (local: array<T>)
    requires grid.Length == w * h
    ensures fresh(local)
    ensures var (lx, ly, rw, rh) := OverlapBox(w, h, cx, cy);
            local.Length == rw * rh && Copied(grid[..], lx, ly, w, local[..], local[..], 0, 0, rw, rh, rw, rh)
  {
    var (lx, ly, rw, rh) := OverlapBox(w, h, cx, cy);
    ProductIsNat(rw, rh);
    local := new T[rw * rh](_ => d);
    ghost var junk := local[..];
    CopyMapRegion(grid, lx, ly, w, h, local, 0, 0, rw, rh, rw, rh);
    WholeCopy(grid[..], lx, ly, w, junk, local[..], rw, rh);
  }

  lemma ProductIsNat(a: nat, b: nat)
    ensures a * b >= 0
  {
  }

  /** When the whole of the destination is overwritten, what it held before does not matter. */
  lemma WholeCopy<T>(src: seq<T>, lx: int, ly: int, w: int, junk: seq<T>, after: seq<T>, rw: nat, rh: nat)
    requires Copied(src, lx, ly, w, junk, after, 0, 0, rw, rh, rw, rh)
    ensures Copied(src, lx, ly, w, after, after, 0, 0, rw, rh, rw, rh)
  {
    hide At;
    forall x, y | InMap(x, y, rw, rh)
      ensures CopiedAt(src, lx, ly, w, after, after, 0, 0, rw, rw, rh, x, y)
    {
      assert CopiedAt(src, lx, ly, w, junk, after, 0, 0, rw, rw, rh, x, y);
    }
  }

  /** Where the overlap starts in the old window, and its size. */
  function OverlapBox(w: nat, h: nat, cx: int, cy: int): (nat, nat, nat, nat) {
    var (lx, ly, ux, uy) := (Clamp(cx, w), Clamp(cy, h), Clamp(cx + w, w), Clamp(cy + h, h));
    (lx, ly, ux - lx, uy - ly)
  }

  method Reset<T>(grid: array<T>, d: T)
    modifies grid
    ensures Blank(grid[..], d)
  {
    for i := 0 to grid.Length
      invariant forall k :: 0 <= k < i ==> grid[k] == d
    {
      grid[i] := d;
    }
  }

  method RestoreOverlap<T>(
    local: array<T>, grid: array<T>, w: nat, h: nat, cx: int, cy: int, d: T, ghost before: seq<T>)
    requires grid != local && grid.Length == w * h == |before| && Blank(grid[..], d)
    requires var (lx, ly, rw, rh) := OverlapBox(w, h, cx, cy);
             local.Length == rw * rh && Copied(before, lx, ly, w, local[..], local[..], 0, 0, rw, rh, rw, rh)
    modifies grid
    ensures Shifted(before, grid[..], w, h, cx, cy, d)
  {
    hide Copied, Shifted, Blank;
    var (lx, ly, rw, rh) := OverlapBox(w, h, cx, cy);
    ghost var blank := grid[..];
    CopyMapRegion(local, 0, 0, rw, rh, grid, lx - cx, ly - cy, w, h, rw, rh);
    CopiesShift(before, local[..], blank, grid[..], w, h, cx, cy, d);
  }

  /** Save the overlap, reset, and put the overlap back in its new place. */
  lemma CopiesShift<T>(
    before: seq<T>, local: seq<T>, blank: seq<T>, after: seq<T>, w: nat, h: nat, cx: int, cy: int, d: T)
    requires |before| == |blank| == w * h && Blank(blank, d)
    requires var (lx, ly, rw, rh) := OverlapBox(w, h, cx, cy);
             && Copied(before, lx, ly, w, local, local, 0, 0, rw, rh, rw, rh)
             && Copied(local, 0, 0, rw, blank, after, lx - cx, ly - cy, w, h, rw, rh)
    ensures Shifted(before, after, w, h, cx, cy, d)
  {
    hide At;
    var (lx, ly, rw, rh) := OverlapBox(w, h, cx, cy);
    forall x, y | InMap(x, y, w, h)
      ensures ShiftedAt(before, after, w, h, cx, cy, d, x, y)
    {
      AtInRange(x, y, w, h);
      Overlap(cx, w, x);
      Overlap(cy, h, y);
      assert CopiedAt(local, 0, 0, rw, blank, after, lx - cx, ly - cy, w, rw, rh, x, y);
      if InMap(x + cx, y + cy, w, h) {
        AtInRange(x + cx, y + cy, w, h);
        var (i, j) := (x + cx - lx, y + cy - ly);
        assert InMap(i, j, rw, rh);
        assert CopiedAt(before, lx, ly, w, local, local, 0, 0, rw, rw, rh, i, j);
      }
    }
  }

  // ---------------------------------------------------------------------------------------------
  // The window in the world

  /** The length of `m` cells. */
  function Cells(m: int, r: real): real {
    m as real * r
  }

  /** An origin moved by `c` whole cells. */
  function Moved(origin: real, c: int, r: real): real {
    origin + Cells(c, r)
  }

  /** The centre of cell `m` on one axis. */
  function Centre(origin: real, r: real, m: int): real {
    origin + (m as real + 0.5) * r
  }

  datatype Window = Window(w: nat, h: nat, resolution: real, originX: real, originY: real) {
    ghost predicate Valid() {
      resolution > 0.0
    }

    /** worldToMap. */
    function WorldToMap(wx: real, wy: real): Option<(int, int)>
      requires Valid()
    {
      if wx < originX || wy < originY then None
      else
        var (mx, my) := (Trunc((wx - originX) / resolution), Trunc((wy - originY) / resolution));
        if mx < w && my < h then Some((mx, my)) else None
    }

    /** mapToWorld: the centre of a cell. */
    function MapToWorld(mx: int, my: int): (real, real) {
      (Centre(originX, resolution, mx), Centre(originY, resolution, my))
    }

    /** The cells the origin has to move by to come near the requested point. */
    function CellsTo(x: real, y: real): (int, int)
      requires Valid()
    {
      (Trunc((x - originX) / resolution), Trunc((y - originY) / resolution))
    }

    function MovedBy(cx: int, cy: int): Window {
      this.(originX := Moved(originX, cx, resolution), originY := Moved(originY, cy, resolution))
    }
  }

  /** What the map says about a point of the world, if the point is in the window. */
  ghost function Reading<T>(win: Window, data: seq<T>, wx: real, wy: real): Option<T>
    requires win.Valid()
  {
    match win.WorldToMap(wx, wy)
    case None => None
    case Some((mx, my)) =>
      if 0 <= At(mx, my, win.w) < |data| then Some(data[At(mx, my, win.w)]) else None
  }

  /** One axis of worldToMap. */
  ghost predicate Lands(p: real, origin: real, resolution: real, n: int, m: int)
    requires resolution > 0.0
  {
    p >= origin && Trunc((p - origin) / resolution) == m && 0 <= m < n
  }

  lemma Scaled(a: real, r: real, m: int)
    requires r > 0.0
    ensures a >= Cells(m, r) <==> a / r >= m as real
  {
    var q := a / r;
    var t := m as real;
    assert q * r == a;
    if q >= t { MulMono(t, q, r); } else { MulMono(q, t, r); }
  }

  lemma MulMono(a: real, b: real, r: real)
    requires r > 0.0
    ensures a <= b ==> a * r <= b * r
    ensures a < b ==> a * r < b * r
  {
  }

  lemma CellsAdd(a: int, b: int, r: real)
    ensures Cells(a + b, r) == Cells(a, r) + Cells(b, r)
    ensures Cells(0, r) == 0.0 && Cells(1, r) == r
  {
    var (x, y) := (a as real, b as real);
    assert (a + b) as real == x + y;
    assert (x + y) * r == x * r + y * r;
  }

  lemma CellsGrow(a: int, b: int, r: real)
    requires r > 0.0 && a <= b
    ensures Cells(a, r) <= Cells(b, r)
  {
    MulMono(a as real, b as real, r);
  }

  lemma FloorCells(a: real, r: real, m: int)
    requires r > 0.0
    ensures (a / r).Floor == m <==> Cells(m, r) <= a < Cells(m + 1, r)
  {
    hide Cells;
    Scaled(a, r, m);
    Scaled(a, r, m + 1);
  }

  /** A point lands in the cell whose half-open extent holds it. */
  lemma LandsInExtent(p: real, origin: real, resolution: real, n: int, m: int)
    requires resolution > 0.0
    ensures Lands(p, origin, resolution, n, m)
            <==> 0 <= m < n && Cells(m, resolution) <= p - origin < Cells(m + 1, resolution)
  {
    hide Cells;
    FloorCells(p - origin, resolution, m);
    Scaled(p - origin, resolution, 0);
    CellsAdd(0, 0, resolution);
    if 0 <= m {
      CellsGrow(0, m, resolution);
    }
  }

  /** A point that lands in cell `m` after the origin moved by `c` cells lands in cell `m + c` before. */
  lemma LandsShifted(p: real, origin: real, resolution: real, n: int, c: int, m: int)
    requires resolution > 0.0 && Lands(p, Moved(origin, c, resolution), resolution, n, m)
    ensures Lands(p, origin, resolution, n, m + c) <==> 0 <= m + c < n
    ensures forall k :: Lands(p, origin, resolution, n, k) ==> k == m + c
  {
    hide Lands, Cells;
    LandsInExtent(p, Moved(origin, c, resolution), resolution, n, m);
    LandsInExtent(p, origin, resolution, n, m + c);
    CellsAdd(m, c, resolution);
    CellsAdd(m + 1, c, resolution);
    forall k | Lands(p, origin, resolution, n, k)
      ensures k == m + c
    {
      LandsInExtent(p, origin, resolution, n, k);
      FloorCells(p - origin, resolution, k);
      FloorCells(p - origin, resolution, m + c);
    }
  }

  lemma WorldToMapLands(win: Window, wx: real, wy: real)
    requires win.Valid() && win.WorldToMap(wx, wy).Some?
    ensures var (mx, my) := win.WorldToMap(wx, wy).value;
            Lands(wx, win.originX, win.resolution, win.w, mx) && Lands(wy, win.originY, win.resolution, win.h, my)
  {
    Scaled(wx - win.originX, win.resolution, 0);
    Scaled(wy - win.originY, win.resolution, 0);
  }

  lemma LandingIsWorldToMap(win: Window, wx: real, wy: real, mx: int, my: int)
    requires win.Valid()
    requires Lands(wx, win.originX, win.resolution, win.w, mx) && Lands(wy, win.originY, win.resolution, win.h, my)
    ensures win.WorldToMap(wx, wy) == Some((mx, my))
  {
  }

  /** The centre of a cell is in that cell. */
  lemma RoundTrip(win: Window, mx: int, my: int)
    requires win.Valid() && InMap(mx, my, win.w, win.h)
    ensures var (wx, wy) := win.MapToWorld(mx, my);
            win.WorldToMap(wx, wy) == Some((mx, my))
  {
    hide Lands, Cells;
    var (wx, wy) := win.MapToWorld(mx, my);
    HalfWay(mx, win.resolution);
    HalfWay(my, win.resolution);
    LandsInExtent(wx, win.originX, win.resolution, win.w, mx);
    LandsInExtent(wy, win.originY, win.resolution, win.h, my);
    LandingIsWorldToMap(win, wx, wy, mx, my);
  }

  lemma HalfWay(m: int, r: real)
    requires r > 0.0
    ensures Cells(m, r) <= (m as real + 0.5) * r < Cells(m + 1, r)
  {
    var t := m as real;
    MulMono(t, t + 0.5, r);
    MulMono(t + 0.5, (m + 1) as real, r);
  }

  /** The origin stops less than a cell away from the requested point on each axis. */
  lemma LandsNear(origin: real, r: real, p: real)
    requires r > 0.0
    ensures var c := Trunc((p - origin) / r); -r < p - Moved(origin, c, r) < r
  {
    hide Cells;
    var c := Trunc((p - origin) / r);
    if (p - origin) / r >= 0.0 {
      FloorCells(p - origin, r, c);
    } else {
      assert (origin - p) / r == -((p - origin) / r);
      FloorCells(origin - p, r, -c);
      CellsAdd(c, -c, r);
    }
    CellsAdd(c, 1, r);
    CellsAdd(-c, 1, r);
  }

  /** The origin never passes the requested point: it stops between where it was and the request. */
  lemma LandsBefore(origin: real, r: real, p: real)
    requires r > 0.0
    ensures var o := Moved(origin, Trunc((p - origin) / r), r);
            if origin <= p then origin <= o <= p else p <= o <= origin
  {
    hide Cells;
    var c := Trunc((p - origin) / r);
    CellsAdd(0, 0, r);
    Scaled(p - origin, r, 0);
    if origin <= p {
      FloorCells(p - origin, r, c);
      CellsGrow(0, c, r);
    } else {
      assert (origin - p) / r == -((p - origin) / r);
      FloorCells(origin - p, r, -c);
      CellsAdd(c, -c, r);
      CellsGrow(0, -c, r);
    }
  }

  /** On both axes. */
  lemma OriginNeverPasses(win: Window, x: real, y: real)
    requires win.Valid()
    ensures var (cx, cy) := win.CellsTo(x, y);
            var to := win.MovedBy(cx, cy);
            && (if win.originX <= x then win.originX <= to.originX <= x else x <= to.originX <= win.originX)
            && (if win.originY <= y then win.originY <= to.originY <= y else y <= to.originY <= win.originY)
            && to.w == win.w && to.h == win.h && to.resolution == win.resolution
  {
    hide Trunc, Moved;
    LandsBefore(win.originX, win.resolution, x);
    LandsBefore(win.originY, win.resolution, y);
  }

  /** A point is in a cell exactly if it is within half a cell of the cell's centre, the upper ends excluded. */
  lemma CellIsAroundCentre(win: Window, mx: int, my: int, wx: real, wy: real)
    requires win.Valid() && InMap(mx, my, win.w, win.h)
    ensures var (cx, cy) := win.MapToWorld(mx, my);
            var half := win.resolution / 2.0;
            win.WorldToMap(wx, wy) == Some((mx, my)) <==>
            cx - half <= wx < cx + half && cy - half <= wy < cy + half
  {
    hide Lands, Cells, Window.WorldToMap, Centre;
    AroundCentre(wx, win.originX, win.resolution, win.w, mx);
    AroundCentre(wy, win.originY, win.resolution, win.h, my);
    if win.WorldToMap(wx, wy) == Some((mx, my)) {
      WorldToMapLands(win, wx, wy);
    } else if Lands(wx, win.originX, win.resolution, win.w, mx) && Lands(wy, win.originY, win.resolution, win.h, my) {
      LandingIsWorldToMap(win, wx, wy, mx, my);
    }
  }

  lemma AroundCentre(p: real, origin: real, r: real, n: int, m: int)
    requires r > 0.0 && 0 <= m < n
    ensures Lands(p, origin, r, n, m) <==> Centre(origin, r, m) - r / 2.0 <= p < Centre(origin, r, m) + r / 2.0
  {
    hide Lands, Cells;
    LandsInExtent(p, origin, r, n, m);
    HalfCell(m, r);
  }

  lemma HalfCell(m: int, r: real)
    ensures (m as real + 0.5) * r - r / 2.0 == Cells(m, r) && (m as real + 0.5) * r + r / 2.0 == Cells(m + 1, r)
  {
    var t := m as real;
    assert (m + 1) as real == t + 1.0;
    assert (t + 0.5) * r == t * r + 0.5 * r && (t + 1.0) * r == t * r + r;
  }

  ghost predicate Near(win: Window, x: real, y: real) {
    -win.resolution < x - win.originX < win.resolution && -win.resolution < y - win.originY < win.resolution
  }

  lemma MovesNear(win: Window, x: real, y: real)
    requires win.Valid()
    ensures var (cx, cy) := win.CellsTo(x, y); Near(win.MovedBy(cx, cy), x, y)
  {
    hide Trunc;
    LandsNear(win.originX, win.resolution, x);
    LandsNear(win.originY, win.resolution, y);
  }

  /** A shift by whole cells leaves what the map says about every point of the world unchanged, as long
      as the point stays in the window; points that enter the window read the default. */
  ghost predicate KeepsTheWorld<T>(win: Window, before: seq<T>, win': Window, after: seq<T>, d: T)
    requires win.Valid() && win'.Valid()
  {
    forall wx, wy :: ReadsSame(win, before, win', after, d, wx, wy)
  }

  ghost predicate ReadsSame<T>(win: Window, before: seq<T>, win': Window, after: seq<T>, d: T, wx: real, wy: real)
    requires win.Valid() && win'.Valid()
  {
    win'.WorldToMap(wx, wy).Some? ==>
      Reading(win', after, wx, wy) == if win.WorldToMap(wx, wy).Some? then Reading(win, before, wx, wy) else Some(d)
  }

  lemma ShiftKeepsTheWorld<T>(win: Window, before: seq<T>, after: seq<T>, cx: int, cy: int, d: T)
    requires win.Valid() && Shifted(before, after, win.w, win.h, cx, cy, d)
    ensures KeepsTheWorld(win, before, win.MovedBy(cx, cy), after, d)
  {
    hide Shifted, ReadsSame;
    forall wx, wy
      ensures ReadsSame(win, before, win.MovedBy(cx, cy), after, d, wx, wy)
    {
      PointReadsSame(win, before, after, cx, cy, d, wx, wy);
    }
  }

  lemma PointReadsSame<T>(win: Window, before: seq<T>, after: seq<T>, cx: int, cy: int, d: T, wx: real, wy: real)
    requires win.Valid() && Shifted(before, after, win.w, win.h, cx, cy, d)
    ensures ReadsSame(win, before, win.MovedBy(cx, cy), after, d, wx, wy)
  {
    hide Shifted, Window.WorldToMap, Reading;
    var win' := win.MovedBy(cx, cy);
    if win'.WorldToMap(wx, wy).Some? {
      var (x, y) := win'.WorldToMap(wx, wy).value;
      MovedLanding(win, cx, cy, wx, wy, x, y);
      ReadsShifted(win, before, after, cx, cy, d, wx, wy, x, y);
    }
  }

  lemma MovedLanding(win: Window, cx: int, cy: int, wx: real, wy: real, x: int, y: int)
    requires win.Valid() && win.MovedBy(cx, cy).WorldToMap(wx, wy) == Some((x, y))
    ensures InMap(x, y, win.w, win.h)
    ensures win.WorldToMap(wx, wy) == if InMap(x + cx, y + cy, win.w, win.h) then Some((x + cx, y + cy)) else None
  {
    hide Lands, Window.WorldToMap, Moved;
    WorldToMapLands(win.MovedBy(cx, cy), wx, wy);
    LandsShifted(wx, win.originX, win.resolution, win.w, cx, x);
    LandsShifted(wy, win.originY, win.resolution, win.h, cy, y);
    hide Cells;
    LandsInExtent(wx, Moved(win.originX, cx, win.resolution), win.resolution, win.w, x);
    LandsInExtent(wy, Moved(win.originY, cy, win.resolution), win.resolution, win.h, y);
    if InMap(x + cx, y + cy, win.w, win.h) {
      LandingIsWorldToMap(win, wx, wy, x + cx, y + cy);
    } else if win.WorldToMap(wx, wy).Some? {
      WorldToMapLands(win, wx, wy);
    }
  }

  lemma ReadsShifted<T>(
    win: Window, before: seq<T>, after: seq<T>, cx: int, cy: int, d: T, wx: real, wy: real, x: int, y: int)
    requires win.Valid() && Shifted(before, after, win.w, win.h, cx, cy, d)
    requires InMap(x, y, win.w, win.h) && win.MovedBy(cx, cy).WorldToMap(wx, wy) == Some((x, y))
    requires win.WorldToMap(wx, wy) == if InMap(x + cx, y + cy, win.w, win.h) then Some((x + cx, y + cy)) else None
    ensures ReadsSame(win, before, win.MovedBy(cx, cy), after, d, wx, wy)
  {
    hide At, Window.WorldToMap;
    assert ShiftedAt(before, after, win.w, win.h, cx, cy, d, x, y);
    if InMap(x + cx, y + cy, win.w, win.h) {
      AtInRange(x + cx, y + cy, win.w, win.h);
    }
  }

  // ---------------------------------------------------------------------------------------------
  // Painting a polygon

  /** The vertices of a polygon that is on the map, as cells. */
  function MapPolygon(win: Window, polygon: seq<(real, real)>): seq<Cell>
    requires win.Valid()
  {
    if polygon == [] then []
    else
      var last := |polygon| - 1;
      match win.WorldToMap(polygon[last].0, polygon[last].1)
      case None => []
      case Some((mx, my)) => MapPolygon(win, polygon[..last]) + [Cell(mx, my)]
  }

  /** Vertex by vertex. */
  lemma {:induction false} MapPolygonIs(win: Window, polygon: seq<(real, real)>)
    requires win.Valid() && forall i :: 0 <= i < |polygon| ==> win.WorldToMap(polygon[i].0, polygon[i].1).Some?
    ensures |MapPolygon(win, polygon)| == |polygon|
    ensures forall i :: 0 <= i < |polygon| ==>
              var c := MapPolygon(win, polygon)[i]; win.WorldToMap(polygon[i].0, polygon[i].1) == Some((c.x, c.y))
    decreases |polygon|
  {
    hide Window.WorldToMap;
    if polygon != [] {
      MapPolygonIs(win, polygon[..|polygon| - 1]);
    }
  }

  lemma WorldToMapInMap(win: Window, wx: real, wy: real)
    requires win.Valid() && win.WorldToMap(wx, wy).Some?
    ensures var (mx, my) := win.WorldToMap(wx, wy).value; InMap(mx, my, win.w, win.h)
  {
    hide Lands;
    WorldToMapLands(win, wx, wy);
    var (mx, my) := win.WorldToMap(wx, wy).value;
    LandsInExtent(wx, win.originX, win.resolution, win.w, mx);
    LandsInExtent(wy, win.originY, win.resolution, win.h, my);
  }

  ghost predicate PaintedAt(before: seq<bv8>, after: seq<bv8>, w: int, cells: seq<Cell>, cost: bv8, x: int, y: int)
  {
    && |before| == |after| && 0 <= At(x, y, w) < |after|
    && after[At(x, y, w)] == if Cell(x, y) in cells then cost else before[At(x, y, w)]
  }

  ghost predicate Painted(before: seq<bv8>, after: seq<bv8>, w: int, h: int, cells: seq<Cell>, cost: bv8) {
    && |before| == |after| == w * h
    && forall x, y :: InMap(x, y, w, h) ==> PaintedAt(before, after, w, cells, cost, x, y)
  }

  lemma Untouched(s: seq<bv8>, w: int, h: int, cost: bv8)
    requires |s| == w * h
    ensures Painted(s, s, w, h, [], cost)
  {
    hide At;
    forall x, y | InMap(x, y, w, h)
      ensures PaintedAt(s, s, w, [], cost, x, y)
    {
      AtInRange(x, y, w, h);
    }
  }

  lemma PaintOne(before: seq<bv8>, after: seq<bv8>, w: int, h: int, cells: seq<Cell>, c: Cell, cost: bv8)
    requires Painted(before, after, w, h, cells, cost) && InMap(c.x, c.y, w, h) && 0 <= At(c.x, c.y, w) < |after|
    ensures Painted(before, after[At(c.x, c.y, w) := cost], w, h, cells + [c], cost)
  {
    hide At;
    forall x, y | InMap(x, y, w, h)
      ensures PaintedAt(before, after[At(c.x, c.y, w) := cost], w, cells + [c], cost, x, y)
    {
      assert PaintedAt(before, after, w, cells, cost, x, y);
      if At(x, y, w) == At(c.x, c.y, w) {
        AtIsInjective(x, y, c.x, c.y, w);
      }
    }
  }

  /** Exactly the cells between outline cells of their column got the cost. */
  ghost predicate Overwritten(before: seq<bv8>, after: seq<bv8>, w: int, h: int, polygon: seq<Cell>, cost: bv8) {
    && |before| == |after| == w * h
    && forall x, y :: InMap(x, y, w, h) ==> OverwrittenAt(before, after, w, polygon, cost, x, y)
  }

  ghost predicate OverwrittenAt(
    before: seq<bv8>, after: seq<bv8>, w: int, polygon: seq<Cell>, cost: bv8, x: int, y: int)
  {
    && |before| == |after| && 0 <= At(x, y, w) < |after|
    && after[At(x, y, w)] ==
       if |polygon| >= 3 && Spanned(Outline(polygon), Cell(x, y)) then cost else before[At(x, y, w)]
  }

  lemma PaintedIsOverwritten(
    before: seq<bv8>, after: seq<bv8>, w: int, h: int, polygon: seq<Cell>, cells: seq<Cell>, cost: bv8)
    requires Painted(before, after, w, h, cells, cost)
    requires |polygon| < 3 ==> cells == []
    requires |polygon| >= 3 ==> forall c :: c in cells <==> Spanned(Outline(polygon), c)
    ensures Overwritten(before, after, w, h, polygon, cost)
  {
    hide At, Spanned, Outline;
    forall x, y | InMap(x, y, w, h)
      ensures OverwrittenAt(before, after, w, polygon, cost, x, y)
    {
      assert PaintedAt(before, after, w, cells, cost, x, y);
    }
  }

  // ---------------------------------------------------------------------------------------------
  // The maps

  class Costmap2D {
    var window: Window
    const costmap: array<bv8>
    const defaultValue: bv8

    ghost predicate Valid()
      reads this
    {
      window.Valid() && costmap.Length == window.w * window.h
    }

    constructor (window: Window, defaultValue: bv8)
      requires window.Valid()
      ensures Valid() && fresh(costmap) && this.window == window && this.defaultValue == defaultValue
      ensures Blank(costmap[..], defaultValue)
    {
      this.window := window;
      this.defaultValue := defaultValue;
      ProductIsNat(window.w, window.h);
      costmap := new bv8[window.w * window.h](_ => defaultValue);
    }

    method UpdateOrigin(newX: real, newY: real)
      requires Valid()
      modifies this, costmap
      ensures Valid()
      ensures var (cx, cy) := old(window).CellsTo(newX, newY);
              && window == old(window).MovedBy(cx, cy)
              && Shifted(old(costmap[..]), costmap[..], window.w, window.h, cx, cy, defaultValue)
      ensures Near(window, newX, newY)
      ensures KeepsTheWorld(old(window), old(costmap[..]), window, costmap[..], defaultValue)
    {
      hide Shifted, Copied, Blank, KeepsTheWorld, Near, Window.CellsTo;
      var (cx, cy) := window.CellsTo(newX, newY);
      var (w, h) := (window.w, window.h);
      var local := SaveOverlap(costmap, w, h, cx, cy, defaultValue);
      Reset(costmap, defaultValue);
      window := window.MovedBy(cx, cy);
      RestoreOverlap(local, costmap, w, h, cx, cy, defaultValue, old(costmap[..]));
      MovesNear(old(window), newX, newY);
      ShiftKeepsTheWorld(old(window), old(costmap[..]), costmap[..], cx, cy, defaultValue);
    }

    /** setConvexPolygonCost: all or nothing.  Either some vertex is off the map and nothing changes, or
        exactly the cells of the fill get the cost. */
    method SetConvexPolygonCost(polygon: seq<(real, real)>, cost: bv8) returns (ok: bool)
      requires Valid()
      modifies costmap
      ensures ok <==> forall i :: 0 <= i < |polygon| ==> window.WorldToMap(polygon[i].0, polygon[i].1).Some?
      ensures !ok ==> costmap[..] == old(costmap[..])
      ensures ok ==> |MapPolygon(window, polygon)| == |polygon|
                     && Overwritten(old(costmap[..]), costmap[..], window.w, window.h, MapPolygon(window, polygon),
                                     cost)
    {
      hide Window.WorldToMap, Spanned, Outline, At, Overwritten, Painted;
      var mapped: seq<Cell> := [];
      for i := 0 to |polygon|
        invariant mapped == MapPolygon(window, polygon[..i]) && |mapped| == i && Inside(mapped, window.w, window.h)
        invariant forall k :: 0 <= k < i ==> window.WorldToMap(polygon[k].0, polygon[k].1).Some?
        invariant costmap[..] == old(costmap[..])
      {
        assert polygon[..i + 1][..i] == polygon[..i];
        match window.WorldToMap(polygon[i].0, polygon[i].1)
        case None => return false;
        case Some((mx, my)) =>
          WorldToMapInMap(window, polygon[i].0, polygon[i].1);
          mapped := mapped + [Cell(mx, my)];
      }
      assert polygon[..|polygon|] == polygon;
      var cells := ConvexFillCells(window.w, window.h, mapped);
      Untouched(costmap[..], window.w, window.h, cost);
      for i := 0 to |cells|
        invariant Painted(old(costmap[..]), costmap[..], window.w, window.h, cells[..i], cost)
      {
        AtInRange(cells[i].x, cells[i].y, window.w, window.h);
        PaintOne(old(costmap[..]), costmap[..], window.w, window.h, cells[..i], cells[i], cost);
        assert cells[..i + 1] == cells[..i] + [cells[i]];
        costmap[At(cells[i].x, cells[i].y, window.w)] := cost;
      }
      assert cells[..|cells|] == cells;
      PaintedIsOverwritten(old(costmap[..]), costmap[..], window.w, window.h, mapped, cells, cost);
      ok := true;
    }
  }

  /** An unknown column of voxels: ~0 >> 16. */
  const UNKNOWN_COLUMN: bv32 := 0xFFFF

  /** A costmap and a grid of voxel columns over the same cells. */
  class VoxelLayer {
    var window: Window
    const costmap: array<bv8>
    const voxels: array<bv32>
    const defaultValue: bv8

    ghost predicate Valid()
      reads this
    {
      window.Valid() && costmap.Length == voxels.Length == window.w * window.h
    }

    constructor (window: Window, defaultValue: bv8)
      requires window.Valid()
      ensures Valid() && fresh(costmap) && fresh(voxels) && this.window == window && this.defaultValue == defaultValue
      ensures Blank(costmap[..], defaultValue) && Blank(voxels[..], UNKNOWN_COLUMN)
    {
      this.window := window;
      this.defaultValue := defaultValue;
      ProductIsNat(window.w, window.h);
      costmap := new bv8[window.w * window.h](_ => defaultValue);
      voxels := new bv32[window.w * window.h](_ => UNKNOWN_COLUMN);
    }

    /** Both arrays move by the same number of cells, so they keep describing the same world. */
    method UpdateOrigin(newX: real, newY: real)
      requires Valid()
      modifies this, costmap, voxels
      ensures Valid()
      ensures var (cx, cy) := old(window).CellsTo(newX, newY);
              && window == old(window).MovedBy(cx, cy)
              && Shifted(old(costmap[..]), costmap[..], window.w, window.h, cx, cy, defaultValue)
              && Shifted(old(voxels[..]), voxels[..], window.w, window.h, cx, cy, UNKNOWN_COLUMN)
      ensures Near(window, newX, newY)
      ensures KeepsTheWorld(old(window), old(costmap[..]), window, costmap[..], defaultValue)
      ensures KeepsTheWorld(old(window), old(voxels[..]), window, voxels[..], UNKNOWN_COLUMN)
    {
      hide Shifted, Copied, Blank, KeepsTheWorld, Near, Window.CellsTo;
      var (cx, cy) := window.CellsTo(newX, newY);
      var (w, h) := (window.w, window.h);
      var local := SaveOverlap(costmap, w, h, cx, cy, defaultValue);
      var localVoxels := SaveOverlap(voxels, w, h, cx, cy, UNKNOWN_COLUMN);
      Reset(costmap, defaultValue);
      Reset(voxels, UNKNOWN_COLUMN);
      window := window.MovedBy(cx, cy);
      RestoreOverlap(local, costmap, w, h, cx, cy, defaultValue, old(costmap[..]));
      RestoreOverlap(localVoxels, voxels, w, h, cx, cy, UNKNOWN_COLUMN, old(voxels[..]));
      MovesNear(old(window), newX, newY);
      ShiftKeepsTheWorld(old(window), old(costmap[..]), costmap[..], cx, cy, defaultValue);
      ShiftKeepsTheWorld(old(window), old(voxels[..]), voxels[..], cx, cy, UNKNOWN_COLUMN);
    }
  }
}
