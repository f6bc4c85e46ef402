/** Convex polygon fill (costmap_2d.cpp): trace the outline, sort it in place by column, and fill each
    column between its lowest and highest outline cell. */
module ConvexFills {
  import opened Grids
  import opened Raytrace

  // ---------------------------------------------------------------------------------------------
  // The outline

  function Chain(polygon: seq<Cell>, n: nat): seq<Cell>
    requires n < |polygon|
  {
    if n == 0 then [] else Chain(polygon, n - 1) + Line(polygon[n - 1], polygon[n])
  }

  function Outline(polygon: seq<Cell>): seq<Cell>
    requires 0 < |polygon|
  {
    Chain(polygon, |polygon| - 1) + Line(polygon[|polygon| - 1], polygon[0])
  }

  ghost predicate Inside(s: seq<Cell>, w: int, h: int) {
    forall i :: 0 <= i < |s| ==> InMap(s[i].x, s[i].y, w, h)
  }

  method PolygonOutlineCells(w: nat, h: nat, polygon: seq<Cell>) returns (cells: seq<Cell>)
    requires 0 < |polygon| && Inside(polygon, w, h)
    ensures cells == Outline(polygon)
  {
    hide Line;
    cells := [];
    for i := 0 to |polygon| - 1
      invariant cells == Chain(polygon, i)
    {
      var traced := RaytraceLine(w, polygon[i], polygon[i + 1]);
      cells := cells + traced;
    }
    var traced := RaytraceLine(w, polygon[|polygon| - 1], polygon[0]);
    cells := cells + traced;
  }

  /** A closed walk with steps of at most one cell and no corner visited only once. */
  ghost predicate ClosedWalk(s: seq<Cell>) {
    && 2 <= |s| && Connected(s) && NoPeak(s) && s[0] == s[|s| - 1]
    && NoNegative(s)
  }

  ghost predicate NoNegative(s: seq<Cell>) {
    forall i :: 0 <= i < |s| ==> s[i].x >= 0
  }

  lemma JoinedWalks(s: seq<Cell>, t: seq<Cell>)
    requires 1 <= |s| && 1 <= |t| && s[|s| - 1] == t[0]
    requires Connected(s) && Connected(t) && NoPeak(s) && NoPeak(t)
    ensures Connected(s + t) && NoPeak(s + t)
  {
    hide Touch, Turns;
    var u := s + t;
    forall i | 0 < i < |u|
      ensures Touch(u[i - 1], u[i])
    {
      Stays(t[0]);
      if i < |s| { assert Touch(s[i - 1], s[i]); }
      if i > |s| { assert Touch(t[i - |s| - 1], t[i - |s|]); }
    }
    forall i | 0 < i < |u| - 1
      ensures !Turns(u[i - 1], u[i], u[i + 1])
    {
      NoTurn(t[0], u[i - 1], u[i + 1]);
      if i < |s| - 1 { assert !Turns(s[i - 1], s[i], s[i + 1]); }
      if i > |s| { assert !Turns(t[i - |s| - 1], t[i - |s|], t[i - |s| + 1]); }
    }
  }

  lemma Stays(c: Cell)
    ensures Touch(c, c)
  {
  }

  lemma NoTurn(c: Cell, a: Cell, b: Cell)
    ensures !Turns(c, c, b) && !Turns(a, c, c)
  {
  }

  lemma {:induction false} ChainIsWalk(polygon: seq<Cell>, n: nat)
    requires 1 <= n < |polygon|
    ensures var s := Chain(polygon, n);
            Connected(s) && NoPeak(s) && 1 <= |s| && s[0] == polygon[0] && s[|s| - 1] == polygon[n]
  {
    hide Line, Connected, NoPeak;
    LineIsWalk(polygon[n - 1], polygon[n]);
    if n == 1 {
      assert Chain(polygon, n) == Line(polygon[0], polygon[1]);
    } else {
      ChainIsWalk(polygon, n - 1);
      JoinedWalks(Chain(polygon, n - 1), Line(polygon[n - 1], polygon[n]));
    }
  }

  lemma {:induction false} ChainStaysInside(polygon: seq<Cell>, n: nat, w: int, h: int)
    requires n < |polygon| && Inside(polygon, w, h)
    ensures Inside(Chain(polygon, n), w, h)
  {
    hide Line;
    if n > 0 {
      ChainStaysInside(polygon, n - 1, w, h);
      LineStaysInside(polygon[n - 1], polygon[n], w, h);
    }
  }

  lemma LineStaysInside(a: Cell, b: Cell, w: int, h: int)
    requires InMap(a.x, a.y, w, h) && InMap(b.x, b.y, w, h)
    ensures Inside(Line(a, b), w, h)
  {
    hide LineCell;
    forall i | 0 <= i < |Line(a, b)|
      ensures InMap(Line(a, b)[i].x, Line(a, b)[i].y, w, h)
    {
      LineStaysInBox(a, b, i);
    }
  }

  /** The outline of a closed polygon is a closed walk. */
  lemma OutlineIsClosedWalk(polygon: seq<Cell>, w: int, h: int)
    requires 2 <= |polygon| && Inside(polygon, w, h)
    ensures ClosedWalk(Outline(polygon)) && Inside(Outline(polygon), w, h)
  {
    hide Line, Connected, NoPeak;
    var n := |polygon| - 1;
    ChainIsWalk(polygon, n);
    ChainStaysInside(polygon, n, w, h);
    LineIsWalk(polygon[n], polygon[0]);
    LineStaysInside(polygon[n], polygon[0], w, h);
    JoinedWalks(Chain(polygon, n), Line(polygon[n], polygon[0]));
  }

  /** A closed walk is twice in every column it visits. */
  lemma VisitedTwice(s: seq<Cell>, k: nat) returns (j: nat)
    requires ClosedWalk(s) && k < |s|
    ensures j < |s| && j != k && s[j].x == s[k].x
  {
    var (x, last) := (s[k].x, |s| - 1);
    if s[0].x == x {
      j := if k == 0 then last else 0;
    } else {
      assert !Turns(s[k - 1], s[k], s[k + 1]);
      if (s[0].x < x && s[k + 1].x >= x) || (s[0].x > x && s[k + 1].x <= x) {
        j := Passes(s, k + 1, last, x);
      } else {
        j := Passes(s, 0, k - 1, x);
      }
    }
  }

  // ---------------------------------------------------------------------------------------------
  // The sort by column

  ghost predicate SortedByX(s: seq<Cell>) {
    forall i, j :: 0 <= i < j < |s| ==> s[i].x <= s[j].x
  }

  /** Cells weighted by how early they stand: swapping an ill-ordered pair lowers it. */
  ghost function Weight(s: seq<Cell>): int {
    if s == [] then 0 else |s| * s[0].x + Weight(s[1..])
  }

  lemma {:induction false} WeightIsNat(s: seq<Cell>)
    requires NoNegative(s)
    ensures Weight(s) >= 0
  {
    if s != [] {
      WeightIsNat(s[1..]);
      assert s[0].x >= 0;
      assert |s| * s[0].x >= 0;
    }
  }

  function Swapped(s: seq<Cell>, i: nat): seq<Cell>
    requires i + 1 < |s|
  {
    s[i := s[i + 1]][i + 1 := s[i]]
  }

  lemma {:induction false} SwapLowersWeight(s: seq<Cell>, i: nat)
    requires i + 1 < |s|
    ensures Weight(Swapped(s, i)) == Weight(s) - (s[i].x - s[i + 1].x)
  {
    var t := Swapped(s, i);
    if i == 0 {
      assert t[1..][1..] == s[2..] == s[1..][1..];
      var (n, a, b) := (|s|, s[0].x, s[1].x);
      assert Weight(s) == n * a + Weight(s[1..]) && Weight(s[1..]) == (n - 1) * b + Weight(s[2..]);
      assert Weight(t) == n * b + Weight(t[1..]) && Weight(t[1..]) == (n - 1) * a + Weight(s[2..]);
      assert n * a + (n - 1) * b - n * b - (n - 1) * a == a - b;
    } else {
      assert t[1..] == Swapped(s[1..], i - 1);
      SwapLowersWeight(s[1..], i - 1);
    }
  }

  lemma SwapIsPermutation(s: seq<Cell>, i: nat)
    requires i + 1 < |s|
    ensures multiset(Swapped(s, i)) == multiset(s)
  {
  }

  /** The sort steps back after every swap, and only a step forward when the pair is in order. */
  method SortByX(before: seq<Cell>) returns (cells: seq<Cell>)
    requires 0 < |before| && NoNegative(before)
    ensures |cells| == |before| && multiset(cells) == multiset(before) && SortedByX(cells)
  {
    hide Weight, Swapped;
    cells := before;
    var i := 0;
    WeightIsNat(cells);
    while i < |cells| - 1
      invariant 0 <= i < |cells| && |cells| == |before| && NoNegative(cells) && Weight(cells) >= 0
      invariant multiset(cells) == multiset(before)
      invariant SortedByX(cells[..i + 1])
      decreases Weight(cells), |cells| - i
    {
      if cells[i].x > cells[i + 1].x {
        SwapLowersWeight(cells, i);
        SwapIsPermutation(cells, i);
        SwapKeeps(cells, i);
        cells := Swapped(cells, i);
        WeightIsNat(cells);
        if i > 0 {
          i := i - 1;
        }
      } else {
        i := i + 1;
      }
    }
    assert cells[..i + 1] == cells;
  }

  lemma SwapKeeps(s: seq<Cell>, i: nat)
    requires i + 1 < |s| && NoNegative(s) && SortedByX(s[..i + 1])
    ensures |Swapped(s, i)| == |s| && NoNegative(Swapped(s, i))
    ensures SortedByX(Swapped(s, i)[..if i > 0 then i else 1])
  {
    if i > 0 {
      forall a, b | 0 <= a < b < i
        ensures s[a].x <= s[b].x
      {
        assert s[..i + 1][a].x <= s[..i + 1][b].x;
      }
    }
  }

  // ---------------------------------------------------------------------------------------------
  // Columns of the sorted outline

  ghost function CountX(s: seq<Cell>, x: int): nat {
    if s == [] then 0 else (if s[0].x == x then 1 else 0) + CountX(s[1..], x)
  }

  lemma {:induction false} CountConcat(s: seq<Cell>, t: seq<Cell>, x: int)
    ensures CountX(s + t, x) == CountX(s, x) + CountX(t, x)
  {
    if s == [] {
      assert s + t == t;
    } else {
      assert (s + t)[1..] == s[1..] + t;
      CountConcat(s[1..], t, x);
    }
  }

  lemma {:induction false} CountOfPermutation(s: seq<Cell>, t: seq<Cell>, x: int)
    requires multiset(s) == multiset(t)
    ensures CountX(s, x) == CountX(t, x)
  {
    if s == [] {
      assert |multiset(t)| == 0;
    } else {
      assert s[0] in multiset(t);
      var k :| 0 <= k < |t| && t[k] == s[0];
      var rest := t[..k] + t[k + 1..];
      assert s == [s[0]] + s[1..];
      assert t == t[..k] + ([t[k]] + t[k + 1..]);
      assert multiset(s[1..]) == multiset(s) - multiset{s[0]};
      assert multiset(rest) == multiset(t) - multiset{t[k]};
      CountOfPermutation(s[1..], rest, x);
      CountConcat(t[..k], [t[k]] + t[k + 1..], x);
      CountConcat(t[..k], t[k + 1..], x);
    }
  }

  lemma {:induction false} CountOne(s: seq<Cell>, i: nat)
    requires i < |s|
    ensures CountX(s, s[i].x) >= 1
  {
    if i > 0 {
      CountOne(s[1..], i - 1);
    }
  }

  lemma {:induction false} CountTwo(s: seq<Cell>, i: nat, j: nat)
    requires i < j < |s| && s[i].x == s[j].x
    ensures CountX(s, s[i].x) >= 2
  {
    if i == 0 {
      CountOne(s[1..], j - 1);
    } else {
      CountTwo(s[1..], i - 1, j - 1);
    }
  }

  lemma {:induction false} FindOne(s: seq<Cell>, x: int) returns (i: nat)
    requires CountX(s, x) >= 1
    ensures i < |s| && s[i].x == x
  {
    if s[0].x == x {
      i := 0;
    } else {
      var k := FindOne(s[1..], x);
      i := k + 1;
    }
  }

  lemma {:induction false} FindTwo(s: seq<Cell>, x: int) returns (i: nat, j: nat)
    requires CountX(s, x) >= 2
    ensures i < j < |s| && s[i].x == s[j].x == x
  {
    if s[0].x == x {
      i := 0;
      var k := FindOne(s[1..], x);
      j := k + 1;
    } else {
      var k, l := FindTwo(s[1..], x);
      i, j := k + 1, l + 1;
    }
  }

  /** Every column from the first to the last has at least two cells. */
  ghost predicate TwoPerColumn(s: seq<Cell>)
    requires 0 < |s|
  {
    forall x :: s[0].x <= x <= s[|s| - 1].x ==> CountX(s, x) >= 2
  }

  lemma SortedOutlineHasTwo(o: seq<Cell>, s: seq<Cell>)
    requires ClosedWalk(o) && multiset(s) == multiset(o) && SortedByX(s)
    ensures 2 <= |s| && TwoPerColumn(s)
  {
    hide CountX, ClosedWalk, SortedByX;
    assert |multiset(s)| == |s| && |multiset(o)| == |o|;
    assert 2 <= |s| by { WalkIsLong(o); }
    forall x | s[0].x <= x <= s[|s| - 1].x
      ensures CountX(s, x) >= 2
    {
      assert s[0] in multiset(o) && s[|s| - 1] in multiset(o);
      OutlineHasTwo(o, s[0], s[|s| - 1], x);
      CountOfPermutation(s, o, x);
    }
  }

  lemma WalkIsLong(o: seq<Cell>)
    requires ClosedWalk(o)
    ensures 2 <= |o| && NoNegative(o)
  {
  }

  /** A closed walk is twice in every column between two of its cells. */
  lemma OutlineHasTwo(o: seq<Cell>, a: Cell, b: Cell, x: int)
    requires ClosedWalk(o) && a in o && b in o && a.x <= x <= b.x
    ensures CountX(o, x) >= 2
  {
    hide CountX;
    var i :| 0 <= i < |o| && o[i] == a;
    var j :| 0 <= j < |o| && o[j] == b;
    var k := PassesEitherWay(o, i, j, x);
    var l := VisitedTwice(o, k);
    if k < l { CountTwo(o, k, l); } else { CountTwo(o, l, k); }
  }

  lemma PassesEitherWay(o: seq<Cell>, i: nat, j: nat, x: int) returns (k: nat)
    requires Connected(o) && i < |o| && j < |o| && o[i].x <= x <= o[j].x
    ensures k < |o| && o[k].x == x
  {
    if i <= j {
      k := Passes(o, i, j, x);
    } else {
      k := Passes(o, j, i, x);
    }
  }

  // ---------------------------------------------------------------------------------------------
  // The column scan

  /** `c` lies between two outline cells of its column. */
  ghost predicate Spanned(s: seq<Cell>, c: Cell) {
    exists p, q :: p in s && q in s && p.x == c.x == q.x && p.y <= c.y <= q.y
  }

  /** `i` is the first cell of column `x` in the sorted outline. */
  ghost predicate Starts(s: seq<Cell>, i: int, x: int) {
    0 <= i <= |s| && forall k :: 0 <= k < |s| ==> (k < i <==> s[k].x < x)
  }

  /** Everything in column `x` from `i` up to `j`, and its lowest and highest cell. */
  ghost predicate Scanned(s: seq<Cell>, i: int, j: int, x: int, low: Cell, high: Cell) {
    && 0 <= i < j <= |s| && low in s && high in s && low.x == x == high.x
    && forall k :: i <= k < j ==> s[k].x == x && low.y <= s[k].y <= high.y
  }

  /** Exactly the spanned cells of the columns before `x`. */
  ghost predicate FilledBefore(s: seq<Cell>, fill: seq<Cell>, x: int) {
    && (forall c :: c in fill <==> c.x < x && Spanned(s, c))
    && (fill == [] <==> |s| > 0 && x <= s[0].x)
    && (fill != [] ==> |s| > 0 && fill[0].x == s[0].x)
  }

  lemma PairStarts(s: seq<Cell>, i: int, x: int)
    requires 2 <= |s| && SortedByX(s) && TwoPerColumn(s) && Starts(s, i, x) && s[0].x <= x <= s[|s| - 1].x
    ensures i + 1 < |s| && s[i].x == s[i + 1].x == x
  {
    hide CountX;
    var j, k := FindTwo(s, x);
  }

  lemma FirstColumn(s: seq<Cell>)
    requires 2 <= |s| && SortedByX(s)
    ensures Starts(s, 0, s[0].x) && FilledBefore(s, [], s[0].x)
  {
    forall c: Cell | c.x < s[0].x
      ensures !Spanned(s, c)
    {
    }
  }

  /** When the scan of a column stops, it has seen the whole column. */
  lemma ColumnEnds(s: seq<Cell>, i: int, j: int, x: int, low: Cell, high: Cell)
    requires SortedByX(s) && Starts(s, i, x) && Scanned(s, i, j, x, low, high)
    requires j == |s| || s[j].x != x
    ensures Starts(s, j, x + 1)
    ensures forall c: Cell :: c.x == x ==> (Spanned(s, c) <==> low.y <= c.y <= high.y)
  {
    forall k | 0 <= k < |s|
      ensures k < j <==> s[k].x < x + 1
    {
      if k >= j { assert s[k].x >= s[j].x; }
    }
    forall c: Cell | c.x == x
      ensures Spanned(s, c) <==> low.y <= c.y <= high.y
    {
      if Spanned(s, c) {
        var p, q :| p in s && q in s && p.x == c.x == q.x && p.y <= c.y <= q.y;
        InScanned(s, i, j, x, low, high, p);
        InScanned(s, i, j, x, low, high, q);
      }
    }
  }

  lemma InScanned(s: seq<Cell>, i: int, j: int, x: int, low: Cell, high: Cell, p: Cell)
    requires Starts(s, i, x) && Starts(s, j, x + 1) && Scanned(s, i, j, x, low, high) && p in s && p.x == x
    ensures low.y <= p.y <= high.y
  {
    var k :| 0 <= k < |s| && s[k] == p;
    assert i <= k < j;
  }

  function Column(x: int, low: int, high: int): seq<Cell>
    requires low <= high + 1
  {
    seq(high - low + 1, (k: nat) => Cell(x, low + k))
  }

  lemma InColumn(x: int, low: int, high: int, c: Cell)
    requires low <= high + 1
    ensures c in Column(x, low, high) <==> c.x == x && low <= c.y <= high
  {
    if c.x == x && low <= c.y <= high {
      assert Column(x, low, high)[c.y - low] == c;
    }
  }

  lemma ColumnFilled(s: seq<Cell>, fill: seq<Cell>, x: int, low: int, high: int)
    requires 0 < |s| && s[0].x <= x && low <= high && FilledBefore(s, fill, x)
    requires forall c: Cell :: c.x == x ==> (Spanned(s, c) <==> low <= c.y <= high)
    ensures FilledBefore(s, fill + Column(x, low, high), x + 1)
  {
    hide Spanned, Column;
    var next := fill + Column(x, low, high);
    forall c
      ensures c in next <==> c.x < x + 1 && Spanned(s, c)
    {
      InColumn(x, low, high, c);
    }
    assert |Column(x, low, high)| > 0 && Column(x, low, high)[0].x == x by { ColumnStarts(x, low, high); }
  }

  lemma ColumnStarts(x: int, low: int, high: int)
    requires low <= high
    ensures |Column(x, low, high)| > 0 && Column(x, low, high)[0].x == x
  {
  }

  /** One column: read the pair it starts with and every further cell.  `n` cells are outline; what
      follows them was appended by the scan, and is never read as part of this column. */
  method ScanColumn(cells: seq<Cell>, ghost n: nat, start: nat, x: int) returns (i: nat, minPt: Cell, maxPt: Cell)
    requires start + 1 < n <= |cells| && cells[start].x == cells[start + 1].x == x
    requires n < |cells| ==> cells[n].x != x
    ensures i <= n && Scanned(cells[..n], start, i, x, minPt, maxPt) && (i == n || cells[i].x != x)
  {
    if cells[start].y < cells[start + 1].y {
      minPt, maxPt := cells[start], cells[start + 1];
    } else {
      minPt, maxPt := cells[start + 1], cells[start];
    }
    i := start + 2;
    assert cells[..n][start] == cells[start] && cells[..n][start + 1] == cells[start + 1];
    while i < |cells| && cells[i].x == x
      invariant i <= n && Scanned(cells[..n], start, i, x, minPt, maxPt)
    {
      assert cells[..n][i] == cells[i];
      if cells[i].y < minPt.y {
        minPt := cells[i];
      } else if cells[i].y > maxPt.y {
        maxPt := cells[i];
      }
      i := i + 1;
    }
  }

  lemma SortedEnds(s: seq<Cell>)
    requires 0 < |s| && SortedByX(s)
    ensures s[0].x <= s[|s| - 1].x
  {
  }

  /** What the scan appended starts in the first column, so it is not part of a later one. */
  lemma FirstAppended(s: seq<Cell>, fill: seq<Cell>, x: int)
    requires 0 < |s| && FilledBefore(s, fill, x)
    ensures fill != [] ==> fill[0].x != x
  {
  }

  lemma ScannedIsOrdered(s: seq<Cell>, i: int, j: int, x: int, low: Cell, high: Cell)
    requires Scanned(s, i, j, x, low, high)
    ensures low.y <= high.y
  {
    assert low.y <= s[i].y <= high.y;
  }

  lemma ColumnGrows(x: int, low: int, y: int)
    requires low <= y
    ensures Column(x, low, y) == Column(x, low, y - 1) + [Cell(x, y)]
    ensures Column(x, low, low - 1) == []
  {
  }

  lemma AllFilled(s: seq<Cell>, fill: seq<Cell>)
    requires 0 < |s| && SortedByX(s) && FilledBefore(s, fill, s[|s| - 1].x + 1)
    ensures forall c :: c in fill <==> Spanned(s, c)
  {
    hide Spanned;
    forall c | Spanned(s, c)
      ensures c in fill
    {
      SpannedIsInRange(s, c);
    }
  }

  lemma SpannedIsInRange(s: seq<Cell>, c: Cell)
    requires 0 < |s| && SortedByX(s) && Spanned(s, c)
    ensures c.x <= s[|s| - 1].x
  {
    var p, q :| p in s && q in s && p.x == c.x == q.x && p.y <= c.y <= q.y;
  }

  /** One round of the scan: column `x` has been read and its cells appended. */
  lemma ColumnDone(s: seq<Cell>, fill: seq<Cell>, i: int, j: int, x: int, low: Cell, high: Cell)
    requires 0 < |s| && s[0].x <= x && SortedByX(s) && FilledBefore(s, fill, x)
    requires Starts(s, i, x) && Scanned(s, i, j, x, low, high) && (j == |s| || s[j].x != x)
    ensures low.y <= high.y && Starts(s, j, x + 1) && FilledBefore(s, fill + Column(x, low.y, high.y), x + 1)
  {
    hide SortedByX, Starts, Scanned, FilledBefore, Column, Spanned;
    ColumnEnds(s, i, j, x, low, high);
    ScannedIsOrdered(s, i, j, x, low, high);
    ColumnFilled(s, fill, x, low.y, high.y);
  }

  /** The scan reads a vector that it is appending to.  It never stops early, and the cells it appends
      are exactly those between the lowest and the highest outline cell of each column. */
  method FillColumns(sorted: seq<Cell>) returns (cells: seq<Cell>)
    requires 2 <= |sorted| && SortedByX(sorted) && TwoPerColumn(sorted)
    ensures |sorted| <= |cells| && cells[..|sorted|] == sorted
    ensures forall c :: c in cells[|sorted|..] <==> Spanned(sorted, c)
  {
    hide SortedByX, TwoPerColumn, Starts, Scanned, FilledBefore, Column, Spanned;
    cells := sorted;
    var i := 0;
    var (minX, maxX) := (cells[0].x, cells[|cells| - 1].x);
    ghost var fill := [];
    FirstColumn(sorted);
    SortedEnds(sorted);
    for x := minX to maxX + 1
      invariant cells == sorted + fill && FilledBefore(sorted, fill, x) && Starts(sorted, i, x) && 0 <= i
    {
      PairStarts(sorted, i, x);
      if i >= |cells| - 1 {
        break;
      }
      FirstAppended(sorted, fill, x);
      assert cells[..|sorted|] == sorted;
      var minPt, maxPt;
      ghost var start := i;
      i, minPt, maxPt := ScanColumn(cells, |sorted|, i, x);
      ColumnDone(sorted, fill, start, i, x, minPt, maxPt);
      ColumnGrows(x, minPt.y, minPt.y);
      for y := minPt.y to maxPt.y + 1
        invariant cells == sorted + (fill + Column(x, minPt.y, y - 1))
      {
        ColumnGrows(x, minPt.y, y);
        cells := cells + [Cell(x, y)];
      }
      fill := fill + Column(x, minPt.y, maxPt.y);
    }
    AllFilled(sorted, fill);
    assert cells[|sorted|..] == fill;
  }

  // ---------------------------------------------------------------------------------------------
  // The fill

  lemma SpannedByPermutation(s: seq<Cell>, t: seq<Cell>, c: Cell)
    requires multiset(s) == multiset(t)
    ensures Spanned(s, c) ==> Spanned(t, c)
  {
    if Spanned(s, c) {
      var p, q :| p in s && q in s && p.x == c.x == q.x && p.y <= c.y <= q.y;
      assert p in multiset(s) && q in multiset(s);
    }
  }

  lemma OutlineIsSpanned(s: seq<Cell>, c: Cell)
    requires c in s
    ensures Spanned(s, c)
  {
  }

  lemma NothingIsInside(w: int, h: int)
    ensures Inside([], w, h)
  {
  }

  lemma FilledInside(o: seq<Cell>, cells: seq<Cell>, w: int, h: int)
    requires forall c :: c in cells <==> Spanned(o, c)
    requires forall c :: Spanned(o, c) ==> InMap(c.x, c.y, w, h)
    ensures Inside(cells, w, h)
  {
    hide Spanned;
  }

  lemma FillIsExact(o: seq<Cell>, sorted: seq<Cell>, cells: seq<Cell>)
    requires multiset(sorted) == multiset(o) && |sorted| <= |cells| && cells[..|sorted|] == sorted
    requires forall c :: c in cells[|sorted|..] <==> Spanned(sorted, c)
    ensures forall c :: c in cells <==> Spanned(o, c)
  {
    hide Spanned;
    assert cells == sorted + cells[|sorted|..];
    forall c
      ensures c in cells <==> Spanned(o, c)
    {
      SpannedByPermutation(sorted, o, c);
      SpannedByPermutation(o, sorted, c);
      if c in sorted { OutlineIsSpanned(sorted, c); }
    }
  }

  lemma SpannedStaysInside(s: seq<Cell>, w: int, h: int)
    requires Inside(s, w, h)
    ensures forall c :: Spanned(s, c) ==> InMap(c.x, c.y, w, h)
  {
  }

  /** The fill is column-exact: the outline, and all cells between the lowest and the highest outline
      cell of each column.  A polygon with fewer than three vertices fills nothing. */
  method ConvexFillCells(w: nat, h: nat, polygon: seq<Cell>) returns (cells: seq<Cell>)
    requires Inside(polygon, w, h)
    ensures |polygon| < 3 ==> cells == []
    ensures |polygon| >= 3 ==> forall c :: c in cells <==> Spanned(Outline(polygon), c)
    ensures Inside(cells, w, h)
  {
    hide ClosedWalk, TwoPerColumn, SortedByX, Spanned, Outline, Inside, NoNegative;
    cells := [];
    if |polygon| < 3 {
      assert Inside(cells, w, h) by { NothingIsInside(w, h); }
      return;
    }
    var outline := PolygonOutlineCells(w, h, polygon);
    OutlineIsClosedWalk(polygon, w, h);
    WalkIsLong(outline);
    var sorted := SortByX(outline);
    SortedOutlineHasTwo(outline, sorted);
    cells := FillColumns(sorted);
    FillIsExact(outline, sorted, cells);
    SpannedStaysInside(outline, w, h);
    assert Inside(cells, w, h) by { FilledInside(outline, cells, w, h); }
  }

  // ---------------------------------------------------------------------------------------------
  // What the fill means for the polygon

  /** The n-th edge; the last one closes the polygon. */
  function Edge(polygon: seq<Cell>, n: nat): (Cell, Cell)
    requires n < |polygon|
  {
    (polygon[n], if n + 1 < |polygon| then polygon[n + 1] else polygon[0])
  }

  lemma {:induction false} ChainHasEdges(polygon: seq<Cell>, m: nat, n: nat, c: Cell)
    requires n < m < |polygon| && c in Line(polygon[n], polygon[n + 1])
    ensures c in Chain(polygon, m)
  {
    if n < m - 1 {
      ChainHasEdges(polygon, m - 1, n, c);
    }
  }

  lemma OutlineHasEdges(polygon: seq<Cell>, n: nat, c: Cell)
    requires n < |polygon| && c in Line(Edge(polygon, n).0, Edge(polygon, n).1)
    ensures c in Outline(polygon)
  {
    if n + 1 < |polygon| {
      ChainHasEdges(polygon, |polygon| - 1, n, c);
    }
  }

  lemma {:induction false} ChainIsEdges(polygon: seq<Cell>, m: nat, c: Cell) returns (n: nat)
    requires m < |polygon| && c in Chain(polygon, m)
    ensures n < m && c in Line(polygon[n], polygon[n + 1])
  {
    if c in Line(polygon[m - 1], polygon[m]) {
      n := m - 1;
    } else {
      n := ChainIsEdges(polygon, m - 1, c);
    }
  }

  /** `c` has an edge of the polygon above it and one below it, or lies on one. */
  ghost predicate Enclosed(polygon: seq<Cell>, c: Cell) {
    && (exists n :: 0 <= n < |polygon| && Under(c, Edge(polygon, n).0, Edge(polygon, n).1))
    && (exists n :: 0 <= n < |polygon| && Over(c, Edge(polygon, n).0, Edge(polygon, n).1))
  }

  /** No cell of the polygon is left out, whatever its shape. */
  lemma EnclosedIsFilled(polygon: seq<Cell>, c: Cell)
    requires 0 < |polygon| && Enclosed(polygon, c)
    ensures Spanned(Outline(polygon), c)
  {
    hide LineCell, Under, Over, Outline;
    var m :| 0 <= m < |polygon| && Under(c, Edge(polygon, m).0, Edge(polygon, m).1);
    var n :| 0 <= n < |polygon| && Over(c, Edge(polygon, n).0, Edge(polygon, n).1);
    var i := UnderIsCapped(c, Edge(polygon, m).0, Edge(polygon, m).1);
    var j := OverIsFloored(c, Edge(polygon, n).0, Edge(polygon, n).1);
    var (top, bottom) :=
      (Line(Edge(polygon, m).0, Edge(polygon, m).1)[i], Line(Edge(polygon, n).0, Edge(polygon, n).1)[j]);
    OutlineHasEdges(polygon, m, top);
    OutlineHasEdges(polygon, n, bottom);
  }

  /** `c` is a cell of an edge's trace, so within half a cell of that edge and in its bounding box. */
  ghost predicate Hugs(polygon: seq<Cell>, c: Cell) {
    exists n :: 0 <= n < |polygon| && HugsEdge(Edge(polygon, n), c)
  }

  ghost predicate HugsEdge(e: (Cell, Cell), c: Cell) {
    InBox(e.0, e.1, c) && HalfCell(e.0, e.1, c)
  }

  lemma LineHugs(e: (Cell, Cell), c: Cell)
    requires c in Line(e.0, e.1)
    ensures HugsEdge(e, c)
  {
    hide LineCell;
    var i :| 0 <= i < |Line(e.0, e.1)| && Line(e.0, e.1)[i] == c;
    LineStaysInBox(e.0, e.1, i);
    LineIsNearest(e.0, e.1, i);
  }

  /** Nothing far from the polygon is filled: above and below every filled cell, in its column, there is
      a cell within half a cell of an edge. */
  lemma FilledIsBetweenEdges(polygon: seq<Cell>, c: Cell)
    requires 0 < |polygon| && Spanned(Outline(polygon), c)
    ensures exists p, q :: Hugs(polygon, p) && Hugs(polygon, q) && p.x == c.x == q.x && p.y <= c.y <= q.y
  {
    hide HugsEdge, Outline;
    var p, q :| p in Outline(polygon) && q in Outline(polygon) && p.x == c.x == q.x && p.y <= c.y <= q.y;
    OutlineHugs(polygon, p);
    OutlineHugs(polygon, q);
  }

  lemma OutlineHugs(polygon: seq<Cell>, c: Cell)
    requires 0 < |polygon| && c in Outline(polygon)
    ensures Hugs(polygon, c)
  {
    hide HugsEdge, Line;
    var last := |polygon| - 1;
    if c in Line(polygon[last], polygon[0]) {
      LineHugs(Edge(polygon, last), c);
    } else {
      var n := ChainIsEdges(polygon, last, c);
      LineHugs(Edge(polygon, n), c);
    }
  }
}
