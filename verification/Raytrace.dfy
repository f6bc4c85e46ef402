/** Line tracing on a grid (raytraceLine and bresenham2D in costmap_2d.hpp), over the whole line: the
    default minimum and maximum lengths. */
module Raytrace {
  import opened Grids

  function Sign(a: int): int {
    if a > 0 then 1 else -1
  }

  /** How far the minor axis has moved after `i` steps of the major one. */
  function Minor(da: nat, db: nat, i: nat): nat {
    if da == 0 then 0 else (da / 2 + i * db) / da
  }

  /** The i-th cell of the line from `a` to `b`. */
  function LineCell(a: Cell, b: Cell, i: nat): Cell {
    var (dx, dy) := (b.x - a.x, b.y - a.y);
    if Abs(dx) >= Abs(dy) then
      Cell(a.x + Sign(dx) * i, a.y + Sign(dy) * Minor(Abs(dx), Abs(dy), i))
    else
      Cell(a.x + Sign(dx) * Minor(Abs(dy), Abs(dx), i), a.y + Sign(dy) * i)
  }

  function Major(a: Cell, b: Cell): nat {
    if Abs(b.x - a.x) >= Abs(b.y - a.y) then Abs(b.x - a.x) else Abs(b.y - a.y)
  }

  function Line(a: Cell, b: Cell): seq<Cell> {
    seq(Major(a, b) + 1, (i: nat) => LineCell(a, b, i))
  }

  // ---------------------------------------------------------------------------------------------
  // The minor axis

  lemma Quotient(n: nat, d: nat, q: nat)
    requires d > 0
    ensures n / d == q <==> q * d <= n < q * d + d
  {
    var r := n / d;
    assert r * d <= n < r * d + d;
    if q < r { Mono(q + 1, r, d); }
    if q > r { Mono(r + 1, q, d); }
  }

  lemma Mono(a: int, b: int, d: nat)
    requires a <= b
    ensures a * d <= b * d
  {
  }

  /** The minor axis is the ideal line rounded to the nearest cell. */
  lemma MinorIs(da: nat, db: nat, i: nat)
    requires da > 0
    ensures var q := Minor(da, db, i); q * da <= da / 2 + i * db < q * da + da
  {
    Quotient(da / 2 + i * db, da, Minor(da, db, i));
  }

  lemma MinorFrom(da: nat, db: nat, i: nat, q: nat)
    requires da > 0 && q * da <= da / 2 + i * db < q * da + da
    ensures Minor(da, db, i) == q
  {
    Quotient(da / 2 + i * db, da, q);
  }

  lemma MinorEnds(da: nat, db: nat)
    requires db <= da
    ensures Minor(da, db, 0) == 0 && Minor(da, db, da) == db
  {
    if da > 0 {
      MinorFrom(da, db, 0, 0);
      assert da * db == db * da;
      MinorFrom(da, db, da, db);
    }
  }

  /** One step: the error crosses `da`, and the minor axis moves, or neither. */
  lemma MinorNext(da: nat, db: nat, i: nat, q: nat)
    requires 0 < da && db <= da && q == Minor(da, db, i)
    ensures var e := da / 2 + i * db - q * da;
            0 <= e < da && Minor(da, db, i + 1) == if e + db >= da then q + 1 else q
  {
    MinorIs(da, db, i);
    assert (i + 1) * db == i * db + db;
    var q' := if da / 2 + i * db - q * da + db >= da then q + 1 else q;
    assert (q + 1) * da == q * da + da;
    MinorFrom(da, db, i + 1, q');
  }

  lemma {:induction false} MinorInRange(da: nat, db: nat, i: nat, j: nat)
    requires db <= da && i <= j <= da
    ensures Minor(da, db, i) <= Minor(da, db, j) <= db
    decreases da - i
  {
    if i == j {
      if i < da {
        MinorInRange(da, db, i + 1, da);
        MinorNext(da, db, i, Minor(da, db, i));
      } else {
        MinorEnds(da, db);
      }
    } else {
      MinorInRange(da, db, i + 1, j);
      MinorNext(da, db, i, Minor(da, db, i));
    }
  }

  // ---------------------------------------------------------------------------------------------
  // Properties of a line

  /** Consecutive cells touch. */
  ghost predicate Touch(a: Cell, b: Cell) {
    Abs(a.x - b.x) <= 1 && Abs(a.y - b.y) <= 1
  }

  ghost predicate Connected(s: seq<Cell>) {
    forall i {:trigger s[i]} :: 0 < i < |s| ==> Touch(s[i - 1], s[i])
  }

  /** `b` is not a strict extreme in x between `a` and `c`. */
  ghost predicate Turns(a: Cell, b: Cell, c: Cell) {
    (a.x < b.x && c.x < b.x) || (a.x > b.x && c.x > b.x)
  }

  ghost predicate NoPeak(s: seq<Cell>) {
    forall i {:trigger s[i]} :: 0 < i < |s| - 1 ==> !Turns(s[i - 1], s[i], s[i + 1])
  }

  lemma LineEnds(a: Cell, b: Cell)
    ensures LineCell(a, b, 0) == a && LineCell(a, b, Major(a, b)) == b
  {
    hide Minor;
    var (dx, dy) := (Abs(b.x - a.x), Abs(b.y - a.y));
    if dx >= dy { MinorEnds(dx, dy); } else { MinorEnds(dy, dx); }
  }

  /** One step moves the minor axis by 0 or 1 towards the end, and the major one by 1. */
  lemma LineStep(a: Cell, b: Cell, i: nat)
    requires i < Major(a, b)
    ensures var (c, d) := (LineCell(a, b, i), LineCell(a, b, i + 1));
            d.x - c.x in {0, Sign(b.x - a.x)} && d.y - c.y in {0, Sign(b.y - a.y)}
  {
    hide Minor;
    var (dx, dy) := (Abs(b.x - a.x), Abs(b.y - a.y));
    if dx >= dy {
      MinorNext(dx, dy, i, Minor(dx, dy, i));
    } else {
      MinorNext(dy, dx, i, Minor(dy, dx, i));
    }
  }

  lemma LineIsWalk(a: Cell, b: Cell)
    ensures Connected(Line(a, b)) && NoPeak(Line(a, b)) && |Line(a, b)| >= 1
    ensures Line(a, b)[0] == a && Line(a, b)[|Line(a, b)| - 1] == b
  {
    hide LineCell;
    var s := Line(a, b);
    LineEnds(a, b);
    forall i | 0 < i < |s|
      ensures Touch(s[i - 1], s[i])
    {
      LineStep(a, b, i - 1);
    }
    forall i | 0 < i < |s| - 1
      ensures !Turns(s[i - 1], s[i], s[i + 1])
    {
      LineStep(a, b, i - 1);
      LineStep(a, b, i);
    }
  }

  ghost predicate InBox(a: Cell, b: Cell, c: Cell) {
    && (a.x <= c.x <= b.x || b.x <= c.x <= a.x)
    && (a.y <= c.y <= b.y || b.y <= c.y <= a.y)
  }

  lemma LineStaysInBox(a: Cell, b: Cell, i: nat)
    requires i <= Major(a, b)
    ensures InBox(a, b, LineCell(a, b, i))
  {
    hide Minor;
    var (dx, dy) := (Abs(b.x - a.x), Abs(b.y - a.y));
    if dx >= dy { MinorInRange(dx, dy, i, dx); } else { MinorInRange(dy, dx, i, dy); }
  }

  /** Every cell of a line is within half a cell of the ideal line: on the minor axis, the distance
      times twice the major length is at most the major length. */
  ghost predicate HalfCell(a: Cell, b: Cell, c: Cell) {
    var cross := (c.x - a.x) * (b.y - a.y) - (c.y - a.y) * (b.x - a.x);
    2 * Abs(cross) <= Major(a, b)
  }

  lemma MinorIsNearest(da: nat, db: nat, i: nat)
    ensures da == 0 || 2 * Abs(i * db - Minor(da, db, i) * da) <= da
  {
    if da > 0 {
      MinorIs(da, db, i);
    }
  }

  lemma LineIsNearest(a: Cell, b: Cell, i: nat)
    requires i <= Major(a, b)
    ensures HalfCell(a, b, LineCell(a, b, i))
  {
    hide Minor;
    var (dx, dy) := (b.x - a.x, b.y - a.y);
    if Abs(dx) >= Abs(dy) {
      MinorIsNearest(Abs(dx), Abs(dy), i);
      SignedCross(dx, dy, i, Minor(Abs(dx), Abs(dy), i));
    } else {
      MinorIsNearest(Abs(dy), Abs(dx), i);
      SignedCross(dy, dx, i, Minor(Abs(dy), Abs(dx), i));
    }
  }

  lemma SignedCross(u: int, v: int, i: nat, q: nat)
    ensures Abs((Sign(u) * i) * v - (Sign(v) * q) * u) == Abs(i * Abs(v) - q * Abs(u))
  {
    var (su, sv) := (Sign(u), Sign(v));
    assert v == sv * Abs(v) && u == su * Abs(u);
    assert (su * i) * v == su * sv * (i * Abs(v));
    assert (sv * q) * u == su * sv * (q * Abs(u));
  }

  /** A connected walk passes every column between two of its cells. */
  lemma {:induction false} Passes(s: seq<Cell>, lo: nat, hi: nat, x: int) returns (k: nat)
    requires Connected(s) && lo <= hi < |s|
    requires s[lo].x <= x <= s[hi].x || s[hi].x <= x <= s[lo].x
    ensures lo <= k <= hi && s[k].x == x
    decreases hi - lo
  {
    if s[lo].x == x {
      k := lo;
    } else {
      assert Touch(s[lo + 1 - 1], s[lo + 1]);
      k := Passes(s, lo + 1, hi, x);
    }
  }

  /** An edge trace covers all columns between its endpoints. */
  lemma LineCovers(a: Cell, b: Cell, x: int) returns (k: nat)
    requires a.x <= x <= b.x || b.x <= x <= a.x
    ensures k < |Line(a, b)| && Line(a, b)[k].x == x
  {
    LineIsWalk(a, b);
    k := Passes(Line(a, b), 0, |Line(a, b)| - 1, x);
  }

  // ---------------------------------------------------------------------------------------------
  // A line caps every cell under the ideal segment

  /** `p` lies on or below the segment from `a` to `b`, in a column the segment spans. */
  ghost predicate Under(p: Cell, a: Cell, b: Cell) {
    && (a.x <= p.x <= b.x || b.x <= p.x <= a.x)
    && if a.x == b.x then p.y <= a.y || p.y <= b.y else (p.y - a.y) * Abs(b.x - a.x) <= (b.y - a.y) * Abs(p.x - a.x)
  }

  ghost predicate Over(p: Cell, a: Cell, b: Cell) {
    && (a.x <= p.x <= b.x || b.x <= p.x <= a.x)
    && if a.x == b.x then p.y >= a.y || p.y >= b.y else (p.y - a.y) * Abs(b.x - a.x) >= (b.y - a.y) * Abs(p.x - a.x)
  }

  lemma MinorAtLeast(da: nat, db: nat, i: nat, t: int)
    requires da > 0 && t * da <= i * db
    ensures Minor(da, db, i) >= t
  {
    var q := Minor(da, db, i);
    MinorIs(da, db, i);
    if q < t {
      Mono(q + 1, t, da);
    }
  }

  lemma MinorAtMost(da: nat, db: nat, i: nat, t: int)
    requires da > 0 && t * da >= i * db
    ensures Minor(da, db, i) <= t
  {
    var q := Minor(da, db, i);
    MinorIs(da, db, i);
    if q > t {
      Mono(t + 1, q, da);
    }
  }

  lemma {:induction false} MinorReaches(da: nat, db: nat, lo: nat, hi: nat, k: nat) returns (i: nat)
    requires db <= da && lo <= hi <= da && Minor(da, db, lo) <= k <= Minor(da, db, hi)
    ensures lo <= i <= hi && Minor(da, db, i) == k
    decreases hi - lo
  {
    if Minor(da, db, lo) == k {
      i := lo;
    } else {
      MinorNext(da, db, lo, Minor(da, db, lo));
      i := MinorReaches(da, db, lo + 1, hi, k);
    }
  }

  /** A steep line going up reaches column offset `k` at a step no lower than `u`. */
  lemma RisingCaps(da: nat, db: nat, k: nat, u: int) returns (i: nat)
    requires 0 < db <= da && k <= db && u * db <= da * k
    ensures i <= da && Minor(da, db, i) == k && u <= i
  {
    hide Minor;
    MinorEnds(da, db);
    if u <= 0 {
      i := MinorReaches(da, db, 0, da, k);
    } else {
      Mono(k, db, da);
      Swaps(da, db);
      Swaps(da, k);
      if u > da { Mono(da + 1, u, db); }
      MinorAtMost(da, db, u, k);
      i := MinorReaches(da, db, u, da, k);
    }
  }

  lemma Swaps(a: int, b: int)
    ensures a * b == b * a
  {
  }

  /** Going down, no later than `t`. */
  lemma FallingCaps(da: nat, db: nat, k: nat, t: int) returns (i: nat)
    requires 0 < db <= da && k <= db && t * db >= da * k
    ensures i <= da && Minor(da, db, i) == k && i <= t
  {
    hide Minor;
    MinorEnds(da, db);
    if t >= da {
      i := MinorReaches(da, db, 0, da, k);
    } else {
      Swaps(da, k);
      if t < 0 { Mono(t, -1, db); }
      MinorAtLeast(da, db, t, k);
      i := MinorReaches(da, db, 0, t, k);
    }
  }

  lemma SteepCaps(da: nat, db: nat, s: int, k: nat, u: int) returns (i: nat)
    requires 0 < db <= da && k <= db && s in {1, -1} && u * db <= s * da * k
    ensures i <= da && Minor(da, db, i) == k && u <= s * i
  {
    hide Minor;
    if s == 1 {
      i := RisingCaps(da, db, k, u);
    } else {
      Negated(u, db, da * k);
      i := FallingCaps(da, db, k, -u);
    }
  }

  lemma Negated(u: int, d: nat, v: int)
    ensures u * d <= -v <==> (-u) * d >= v
  {
  }

  lemma ShallowCaps(da: nat, db: nat, s: int, i: nat, u: int)
    requires 0 < da && s in {1, -1} && u * da <= s * db * i
    ensures u <= s * Minor(da, db, i)
  {
    hide Minor;
    assert db * i == i * db;
    if s == 1 {
      MinorAtLeast(da, db, i, u);
    } else {
      Negated(u, da, i * db);
      MinorAtMost(da, db, i, -u);
    }
  }

  lemma SignAbs(v: int, k: int)
    ensures v * k == Sign(v) * Abs(v) * k
  {
  }

  lemma UnderIsCapped(p: Cell, a: Cell, b: Cell) returns (i: nat)
    requires Under(p, a, b)
    ensures i <= Major(a, b) && LineCell(a, b, i).x == p.x && LineCell(a, b, i).y >= p.y
  {
    hide Minor;
    var (dx, dy) := (b.x - a.x, b.y - a.y);
    var k := Abs(p.x - a.x);
    if dx == 0 {
      i := if dy > 0 then Major(a, b) else 0;
      LineEnds(a, b);
    } else {
      SignAbs(dy, k);
      if Abs(dx) >= Abs(dy) {
        i := k;
        ShallowCaps(Abs(dx), Abs(dy), Sign(dy), i, p.y - a.y);
      } else {
        i := SteepCaps(Abs(dy), Abs(dx), Sign(dy), k, p.y - a.y);
      }
    }
  }

  function Flip(c: Cell): Cell {
    Cell(c.x, -c.y)
  }

  /** Tracing commutes with turning the picture upside down. */
  lemma FlippedLine(a: Cell, b: Cell, i: nat)
    requires i <= Major(a, b)
    ensures LineCell(Flip(a), Flip(b), i) == Flip(LineCell(a, b, i))
  {
    hide Minor;
    if a.y == b.y {
      MinorInRange(Abs(b.x - a.x), 0, i, Abs(b.x - a.x));
    }
  }

  lemma OverIsFloored(p: Cell, a: Cell, b: Cell) returns (i: nat)
    requires Over(p, a, b)
    ensures i <= Major(a, b) && LineCell(a, b, i).x == p.x && LineCell(a, b, i).y <= p.y
  {
    hide LineCell;
    assert Under(Flip(p), Flip(a), Flip(b)) by {
      OppositeProducts(p.y - a.y, Abs(b.x - a.x), b.y - a.y, Abs(p.x - a.x));
    }
    i := UnderIsCapped(Flip(p), Flip(a), Flip(b));
    FlippedLine(a, b, i);
  }

  lemma OppositeProducts(a: int, b: int, c: int, d: int)
    ensures (-a) * b == -(a * b) && (-c) * d == -(c * d)
  {
  }

  // ---------------------------------------------------------------------------------------------
  // The trace itself, on indices

  /** indexToCells. */
  function CellOf(index: int, w: nat): Cell
    requires w > 0
  {
    Cell(index - (index / w) * w, index / w)
  }

  lemma CellOfAt(c: Cell, w: nat)
    requires 0 <= c.x < w
    ensures CellOf(At(c.x, c.y, w), w) == c
  {
    var k := At(c.x, c.y, w);
    AtIsInjective(c.x, c.y, k % w, k / w, w);
  }

  /** The index reached after `i` steps, and the error left. */
  function Position(offset: int, offsetA: int, offsetB: int, da: nat, db: nat, i: nat): int {
    offset + offsetA * i + offsetB * Minor(da, db, i)
  }

  function Error(da: nat, db: nat, i: nat): int {
    da / 2 + i * db - Minor(da, db, i) * da
  }

  lemma PositionNext(offset: int, offsetA: int, offsetB: int, da: nat, db: nat, i: nat)
    requires db <= da
    ensures Position(offset, offsetA, offsetB, da, db, 0) == offset && Error(da, db, 0) == da / 2
    ensures i < da ==>
              var turns := Error(da, db, i) + db >= da;
              && Error(da, db, i + 1) == Error(da, db, i) + db - (if turns then da else 0)
              && Position(offset, offsetA, offsetB, da, db, i + 1)
                 == Position(offset, offsetA, offsetB, da, db, i) + offsetA + (if turns then offsetB else 0)
  {
    hide Minor;
    MinorEnds(da, db);
    if i < da {
      var q := Minor(da, db, i);
      MinorNext(da, db, i, q);
      assert (i + 1) * db == i * db + db;
      assert (q + 1) * da == q * da + da;
      assert offsetA * (i + 1) == offsetA * i + offsetA;
      assert offsetB * (q + 1) == offsetB * q + offsetB;
    }
  }

  /** bresenham2D: the line up to `maxLength` steps. */
  method Bresenham2D(
    w: nat, absDa: nat, absDb: nat, errorB: int, offsetA: int, offsetB: int, offset: int, maxLength: nat)
    returns (cells: seq<Cell>)
    requires w > 0 && absDb <= absDa && errorB == absDa / 2
    ensures |cells| == 1 + if maxLength < absDa then maxLength else absDa
    ensures forall i :: 0 <= i < |cells| ==> cells[i] == CellOf(Position(offset, offsetA, offsetB, absDa, absDb, i), w)
  {
    hide Position, Error, CellOf;
    cells := [];
    var at, error := offset, errorB;
    PositionNext(offset, offsetA, offsetB, absDa, absDb, absDa);
    var end := if maxLength < absDa then maxLength else absDa;
    for i := 0 to end
      invariant |cells| == i && error == Error(absDa, absDb, i)
      invariant at == Position(offset, offsetA, offsetB, absDa, absDb, i)
      invariant forall k :: 0 <= k < i ==> cells[k] == CellOf(Position(offset, offsetA, offsetB, absDa, absDb, k), w)
    {
      cells := cells + [CellOf(at, w)];
      PositionNext(offset, offsetA, offsetB, absDa, absDb, i);
      at := at + offsetA;
      error := error + absDb;
      if error >= absDa {
        at := at + offsetB;
        error := error - absDa;
      }
    }
    cells := cells + [CellOf(at, w)];
  }

  lemma IndexOfLineCell(w: nat, a: Cell, b: Cell, i: nat)
    ensures var (dx, dy) := (b.x - a.x, b.y - a.y);
            At(LineCell(a, b, i).x, LineCell(a, b, i).y, w) ==
            if Abs(dx) >= Abs(dy) then
              At(a.x, a.y, w) + Sign(dx) * i + Sign(dy) * w * Minor(Abs(dx), Abs(dy), i)
            else
              At(a.x, a.y, w) + Sign(dy) * w * i + Sign(dx) * Minor(Abs(dy), Abs(dx), i)
  {
    hide Minor;
    var (dx, dy) := (b.x - a.x, b.y - a.y);
    var q := if Abs(dx) >= Abs(dy) then Minor(Abs(dx), Abs(dy), i) else i;
    assert (a.y + Sign(dy) * q) * w == a.y * w + Sign(dy) * w * q;
  }

  method RaytraceLine(w: nat, a: Cell, b: Cell) returns (cells: seq<Cell>)
    requires 0 <= a.x < w && 0 <= b.x < w
    ensures cells == Line(a, b)
  {
    hide Minor, CellOf, At;
    var (dx, dy) := (b.x - a.x, b.y - a.y);
    var offset := At(a.x, a.y, w);
    var (offsetDx, offsetDy) := (Sign(dx), Sign(dy) * w);
    if Abs(dx) >= Abs(dy) {
      cells := Bresenham2D(w, Abs(dx), Abs(dy), Abs(dx) / 2, offsetDx, offsetDy, offset, Abs(dx));
    } else {
      cells := Bresenham2D(w, Abs(dy), Abs(dx), Abs(dy) / 2, offsetDy, offsetDx, offset, Abs(dy));
    }
    forall i | 0 <= i <= Major(a, b)
      ensures cells[i] == LineCell(a, b, i)
    {
      IndexOfLineCell(w, a, b, i);
      LineStaysInBox(a, b, i);
      CellOfAt(LineCell(a, b, i), w);
    }
  }
}
