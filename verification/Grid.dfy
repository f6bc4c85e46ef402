/** Row-major grids: cells and their indices. */
module Grids {
  datatype Cell = Cell(x: int, y: int)

  function At(x: int, y: int, w: int): int {
    y * w + x
  }

  predicate InMap(x: int, y: int, w: int, h: int) {
    0 <= x < w && 0 <= y < h
  }

  lemma AtInRange(x: int, y: int, w: int, h: int)
    requires InMap(x, y, w, h)
    ensures 0 <= At(x, y, w) < w * h
  {
    assert y * w <= (h - 1) * w;
    assert (h - 1) * w == w * h - w;
  }

  lemma AtIsInjective(x: int, y: int, x': int, y': int, w: int)
    requires 0 <= x < w && 0 <= x' < w && At(x, y, w) == At(x', y', w)
    ensures x == x' && y == y'
  {
    assert (y - y') * w == x' - x;
    AtLeast(y - y', w);
  }

  lemma AtLeast(k: int, w: int)
    requires 0 <= w
    ensures k >= 1 ==> k * w >= w
    ensures k <= -1 ==> k * w <= 0 - w
  {
  }

  function Abs(a: int): nat {
    if a < 0 then -a else a
  }
}
