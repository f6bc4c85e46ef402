/** generateIntegerDistances of the inflation layer: squared Euclidean distances compressed to
    consecutive integer levels. */
module IntegerDistances {

  datatype Offset = Offset(x: int, y: int)

  function Norm2(p: Offset): int {
    p.x * p.x + p.y * p.y
  }

  predicate InDisc(r: nat, p: Offset) {
    Norm2(p) <= r * r
  }

  predicate InSquare(r: nat, p: Offset) {
    0 - r <= p.x <= r && 0 - r <= p.y <= r
  }

  lemma SquareBound(a: int, r: nat)
    requires a * a <= r * r
    ensures 0 - r <= a <= r
  {
    var b := if a < 0 then -a else a;
    assert b * b == a * a;
    if b > r {
      SquareGrows(r, b);
    }
  }

  lemma SquareGrows(a: nat, b: nat)
    requires a < b
    ensures a * a < b * b
  {
    assert b * b == a * a + (b - a) * (a + b);
    assert 0 < (b - a) * (a + b);
  }

  lemma DiscInSquare(r: nat, p: Offset)
    requires InDisc(r, p)
    ensures InSquare(r, p)
  {
    SquareIsNonNegative(p.x);
    SquareIsNonNegative(p.y);
    SquareBound(p.x, r);
    SquareBound(p.y, r);
  }

  lemma SquareIsNonNegative(a: int)
    ensures 0 <= a * a
  {
  }

  predicate Shape(r: nat, table: seq<seq<int>>) {
    |table| == 2 * r + 1 && forall i :: 0 <= i < |table| ==> |table[i]| == 2 * r + 1
  }

  function Entry(r: nat, table: seq<seq<int>>, p: Offset): int
    requires Shape(r, table) && InSquare(r, p)
  {
    table[p.x + r][p.y + r]
  }

  /** The level of an offset; 0 outside the square. */
  function Level(r: nat, table: seq<seq<int>>, p: Offset): int
    requires Shape(r, table)
  {
    if InSquare(r, p) then Entry(r, table, p) else 0
  }

  /** Levels order the disc exactly as squared distance does, start at 0 and skip nothing up to `top`. */
  ghost predicate IsLevelTable(r: nat, table: seq<seq<int>>, top: int) {
    && Shape(r, table)
    && (forall p, q :: InDisc(r, p) && InDisc(r, q) ==>
          (Level(r, table, p) < Level(r, table, q) <==> Norm2(p) < Norm2(q)))
    && (forall p :: InDisc(r, p) ==> 0 <= Level(r, table, p) <= top)
    && (forall k :: 0 <= k <= top ==> LevelOccurs(r, table, k))
  }

  ghost predicate LevelOccurs(r: nat, table: seq<seq<int>>, k: int)
    requires Shape(r, table)
  {
    exists p :: InDisc(r, p) && Level(r, table, p) == k
  }

  ghost predicate SortedByNorm(s: seq<Offset>) {
    forall i, j :: 0 <= i < j < |s| ==> Norm2(s[i]) <= Norm2(s[j])
  }

  function Insert(s: seq<Offset>, p: Offset): (t: seq<Offset>)
    ensures multiset(t) == multiset(s) + multiset{p}
  {
    if s == [] || Norm2(s[|s| - 1]) <= Norm2(p) then s + [p]
    else
      var n := |s| - 1;
      assert s == s[..n] + [s[n]];
      Insert(s[..n], p) + [s[n]]
  }

  lemma {:induction false} InsertKeepsOrder(s: seq<Offset>, p: Offset)
    requires SortedByNorm(s)
    ensures SortedByNorm(Insert(s, p))
    decreases |s|
  {
    hide Norm2;
    if s != [] && Norm2(s[|s| - 1]) > Norm2(p) {
      var n := |s| - 1;
      var t := Insert(s[..n], p);
      InsertKeepsOrder(s[..n], p);
      forall i | 0 <= i < |t|
        ensures Norm2(t[i]) <= Norm2(s[n])
      {
        assert t[i] in multiset(t);
        assert t[i] == p || t[i] in s[..n];
      }
    }
  }

  /** std::sort with the distance comparison: sorted, a permutation, ties in any order. */
  method SortByNorm(points: seq<Offset>) returns (s: seq<Offset>)
    ensures SortedByNorm(s) && multiset(s) == multiset(points)
  {
    s := [];
    for i := 0 to |points|
      invariant SortedByNorm(s) && multiset(s) == multiset(points[..i])
    {
      assert points[..i + 1] == points[..i] + [points[i]];
      InsertKeepsOrder(s, points[i]);
      s := Insert(s, points[i]);
    }
    assert points[..|points|] == points;
  }

  /** The two nested loops that collect the disc row by row. */
  method CollectDisc(r: nat) returns (points: seq<Offset>)
    ensures forall p :: multiset(points)[p] == if InDisc(r, p) then 1 else 0
  {
    hide InDisc;
    forall p | InDisc(r, p)
      ensures InSquare(r, p)
    {
      DiscInSquare(r, p);
    }
    points := [];
    for y := 0 - r to r + 1
      invariant forall p :: multiset(points)[p] == if InDisc(r, p) && p.y < y then 1 else 0
    {
      for x := 0 - r to r + 1
        invariant forall p :: multiset(points)[p] == if InDisc(r, p) && (p.y < y || (p.y == y && p.x < x)) then 1 else 0
      {
        if InDisc(r, Offset(x, y)) {
          points := points + [Offset(x, y)];
        }
      }
    }
  }

  lemma OnceMeansDistinct(s: seq<Offset>)
    requires forall p :: multiset(s)[p] <= 1
    ensures forall i, j :: 0 <= i < j < |s| ==> s[i] != s[j]
  {
    forall i, j | 0 <= i < j < |s|
      ensures s[i] != s[j]
    {
      assert s == s[..j] + [s[j]] + s[j + 1..];
      assert multiset(s) == multiset(s[..j]) + multiset{s[j]} + multiset(s[j + 1..]);
      assert s[i] == s[..j][i];
      assert multiset(s[..j])[s[i]] >= 1;
      assert 1 >= multiset(s)[s[j]] >= multiset(s[..j])[s[j]] + 1;
    }
  }

  /** The levels given so far to sorted points. */
  ghost predicate Levels(s: seq<Offset>, lv: seq<int>, top: int) {
    && |lv| <= |s|
    && (forall i, j :: 0 <= i < j < |lv| ==> lv[i] <= lv[j] && (lv[i] < lv[j] <==> Norm2(s[i]) < Norm2(s[j])))
    && (forall i :: 0 <= i < |lv| ==> 0 <= lv[i] <= top)
    && (if lv == [] then top == 0 else lv[|lv| - 1] == top && forall k :: 0 <= k <= top ==> k in lv)
  }

  lemma NextLevel(s: seq<Offset>, lv: seq<int>, top: int, last: Offset, next: int)
    requires SortedByNorm(s) && |lv| < |s| && Levels(s, lv, top)
    requires Norm2(last) == if lv == [] then Norm2(s[0]) else Norm2(s[|lv| - 1])
    requires next == if Norm2(s[|lv|]) != Norm2(last) then top + 1 else top
    ensures Levels(s, lv + [next], next)
  {
    hide Norm2;
    var lv' := lv + [next];
    forall i | 0 <= i < |lv|
      ensures lv[i] <= next && (lv[i] < next <==> Norm2(s[i]) < Norm2(s[|lv|]))
    {
      assert i < |lv| - 1 ==> Norm2(s[i]) <= Norm2(s[|lv| - 1]);
    }
    forall k | 0 <= k <= next
      ensures k in lv'
    {
      assert lv'[|lv|] == next;
      assert k <= top && lv != [] ==> k in lv;
    }
  }

  function Write(r: nat, table: seq<seq<int>>, p: Offset, v: int): (t: seq<seq<int>>)
    requires Shape(r, table) && InSquare(r, p)
    ensures Shape(r, t)
    ensures forall q :: Level(r, t, q) == if q == p then v else Level(r, table, q)
  {
    table[p.x + r := table[p.x + r][p.y + r := v]]
  }

  lemma OriginInDisc(r: nat)
    ensures InDisc(r, Offset(0, 0)) && Norm2(Offset(0, 0)) == 0
  {
    SquareIsNonNegative(r);
  }

  lemma NormIsNonNegative(p: Offset)
    ensures 0 <= Norm2(p)
  {
    SquareIsNonNegative(p.x);
    SquareIsNonNegative(p.y);
  }

  lemma OriginFirst(r: nat, points: seq<Offset>)
    requires SortedByNorm(points) && forall p :: p in points <==> InDisc(r, p)
    ensures points != [] && Norm2(points[0]) == 0
  {
    hide Norm2, InDisc;
    OriginInDisc(r);
    assert Offset(0, 0) in points;
    NormIsNonNegative(points[0]);
  }

  /** The first |lv| points have their levels in the table, everything else is still 0. */
  ghost predicate Assigned(r: nat, table: seq<seq<int>>, points: seq<Offset>, lv: seq<int>) {
    && Shape(r, table) && |lv| <= |points|
    && (forall a :: 0 <= a < |lv| ==> Level(r, table, points[a]) == lv[a])
    && (forall p :: p !in points[..|lv|] ==> Level(r, table, p) == 0)
  }

  lemma LevelsMakeTable(r: nat, table: seq<seq<int>>, points: seq<Offset>, lv: seq<int>, top: int)
    requires Shape(r, table) && |lv| == |points| && points != [] && Levels(points, lv, top) && SortedByNorm(points)
    requires forall p :: p in points <==> InDisc(r, p)
    requires Assigned(r, table, points, lv)
    ensures 0 <= top && IsLevelTable(r, table, top)
    ensures forall p :: !InDisc(r, p) ==> Level(r, table, p) == 0
  {
    hide Norm2, InDisc, Level;
    assert points[..|points|] == points;
    forall p, q | InDisc(r, p) && InDisc(r, q)
      ensures Level(r, table, p) < Level(r, table, q) <==> Norm2(p) < Norm2(q)
    {
      var i :| 0 <= i < |points| && points[i] == p;
      var j :| 0 <= j < |points| && points[j] == q;
    }
    forall p | InDisc(r, p)
      ensures 0 <= Level(r, table, p) <= top
    {
      var i :| 0 <= i < |points| && points[i] == p;
    }
    forall k | 0 <= k <= top
      ensures LevelOccurs(r, table, k)
    {
      assert k in lv;
      var i :| 0 <= i < |lv| && lv[i] == k;
      assert InDisc(r, points[i]) && Level(r, table, points[i]) == k;
    }
  }

  lemma AssignStep(r: nat, table: seq<seq<int>>, points: seq<Offset>, lv: seq<int>, v: int)
    requires Assigned(r, table, points, lv) && |lv| < |points| && InSquare(r, points[|lv|])
    requires forall i, j :: 0 <= i < j < |points| ==> points[i] != points[j]
    ensures Assigned(r, Write(r, table, points[|lv|], v), points, lv + [v])
  {
    hide Level, Write;
    var n := |lv|;
    assert points[..n + 1] == points[..n] + [points[n]];
  }

  /** The last loop: a new level whenever the distance changes. */
  method AssignLevels(r: nat, points: seq<Offset>) returns (table: seq<seq<int>>, top: int)
    requires SortedByNorm(points) && forall i, j :: 0 <= i < j < |points| ==> points[i] != points[j]
    requires forall p :: p in points <==> InDisc(r, p)
    ensures 0 <= top && IsLevelTable(r, table, top)
    ensures forall p :: !InDisc(r, p) ==> Level(r, table, p) == 0
  {
    hide Norm2, InDisc, Levels, Assigned, SortedByNorm, Write, IsLevelTable;
    OriginFirst(r, points);
    OriginInDisc(r);
    table := seq(2 * r + 1, (i: nat) => seq(2 * r + 1, (j: nat) => 0));
    var last := Offset(0, 0);
    top := 0;
    ghost var lv: seq<int> := [];
    NothingAssigned(r, table, points);
    for i := 0 to |points|
      invariant |lv| == i && Levels(points, lv, top) && Shape(r, table) && Assigned(r, table, points, lv)
      invariant Norm2(last) == if i == 0 then Norm2(points[0]) else Norm2(points[i - 1])
    {
      var p := points[i];
      DiscInSquare(r, p);
      NextLevel(points, lv, top, last, if Norm2(p) != Norm2(last) then top + 1 else top);
      if Norm2(p) != Norm2(last) {
        top := top + 1;
      }
      AssignStep(r, table, points, lv, top);
      table := Write(r, table, p, top);
      lv := lv + [top];
      last := p;
    }
    LevelsMakeTable(r, table, points, lv, top);
  }

  lemma NothingAssigned(r: nat, table: seq<seq<int>>, points: seq<Offset>)
    requires Shape(r, table) && forall i, j :: 0 <= i < |table| && 0 <= j < |table[i]| ==> table[i][j] == 0
    ensures Assigned(r, table, points, []) && Levels(points, [], 0)
  {
  }

  /** One cell further than the cache: the radius of the level table. */
  function Reach(cellRadius: nat): nat {
    cellRadius + 2
  }

  /** Levels are order-isomorphic to Euclidean distance on the whole disc, and consecutive. */
  method GenerateIntegerDistances(cellRadius: nat) returns (table: seq<seq<int>>, top: int)
    ensures 0 <= top && IsLevelTable(Reach(cellRadius), table, top)
    ensures forall p :: !InDisc(Reach(cellRadius), p) ==> Level(Reach(cellRadius), table, p) == 0
  {
    hide Norm2, InDisc, Level;
    var r := Reach(cellRadius);
    var disc := CollectDisc(r);
    var points := SortByNorm(disc);
    forall p
      ensures p in points <==> InDisc(r, p)
    {
      assert p in points <==> multiset(points)[p] > 0;
    }
    OnceMeansDistinct(points);
    table, top := AssignLevels(r, points);
  }
}
