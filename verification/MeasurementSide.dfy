/** What happens to measurement covariances before a correction: the sub-matrix with its floored
    diagonal (ekf.cpp), the 2D mode (ros_filter.cpp) and the first measurement (filter_base.cpp). */
module MeasurementSide {
  import opened LinearAlgebra
  import opened Covariances

  /** The matrix whose row i is `w(i)` times the unit row `s(i)`. */
  function Selector(m: nat, n: nat, s: nat -> nat, w: nat -> real): (a: Matrix)
    ensures a.rows == m && a.cols == n
  {
    Build(m, n, (i: nat, j: nat) => if j == s(i) then w(i) else 0.0)
  }

  lemma SelectorLeft(m: nat, n: nat, s: nat -> nat, w: nat -> real, c: Matrix, i: nat, j: nat)
    requires c.rows == n && i < m && j < c.cols && s(i) < n
    ensures At(Mul(Selector(m, n, s, w), c), i, j) == w(i) * At(c, s(i), j)
  {
    hide At;
    SumOne(n, s(i), Terms(Selector(m, n, s, w), c, i, j));
  }

  lemma SelectorRight(m: nat, n: nat, s: nat -> nat, w: nat -> real, b: Matrix, i: nat, j: nat)
    requires b.cols == n && i < b.rows && j < m && s(j) < n
    ensures At(Mul(b, Transpose(Selector(m, n, s, w))), i, j) == At(b, i, s(j)) * w(j)
  {
    hide At, Transpose;
    SumOne(n, s(j), Terms(b, Transpose(Selector(m, n, s, w)), i, j));
  }

  /** Selecting rows and columns is a congruence. */
  lemma SelectorEntry(m: nat, n: nat, s: nat -> nat, w: nat -> real, c: Matrix, i: nat, j: nat)
    requires c.rows == c.cols == n && i < m && j < m && s(i) < n && s(j) < n
    ensures At(Congruence(Selector(m, n, s, w), c), i, j) == w(i) * At(c, s(i), s(j)) * w(j)
  {
    hide At, Mul, Transpose, Selector;
    SelectorLeft(m, n, s, w, c, i, s(j));
    SelectorRight(m, n, s, w, Mul(Selector(m, n, s, w), c), i, j);
  }

  /** A negative variance becomes its absolute value, a tiny one becomes 1e-9. */
  function Floored(v: real): real {
    var a := if v < 0.0 then -v else v;
    if a < 0.000000001 then 0.000000001 else a
  }

  /** The sub-covariance of the updated variables, with its diagonal floored. */
  function Noise(c: Matrix, indices: seq<nat>): (r: Matrix)
    ensures r.rows == r.cols == |indices|
  {
    Build(|indices|, |indices|, (i: nat, j: nat) =>
      if i < |indices| && j < |indices| then
        if i == j then Floored(At(c, indices[i], indices[i])) else At(c, indices[i], indices[j])
      else 0.0)
  }

  function Pick(indices: seq<nat>): nat -> nat {
    (i: nat) => if i < |indices| then indices[i] else 0
  }

  function Raised(c: Matrix, indices: seq<nat>): nat -> real {
    (i: nat) => Floored(At(c, Pick(indices)(i), Pick(indices)(i))) - At(c, Pick(indices)(i), Pick(indices)(i))
  }

  function One(): nat -> real {
    (i: nat) => 1.0
  }

  lemma PickedEntry(c: Matrix, indices: seq<nat>, i: nat, j: nat)
    requires c.rows == c.cols && i < |indices| && j < |indices| && indices[i] < c.rows && indices[j] < c.rows
    ensures At(Congruence(Selector(|indices|, c.rows, Pick(indices), One()), c), i, j) == At(c, indices[i], indices[j])
  {
    hide At, Selector, Congruence;
    SelectorEntry(|indices|, c.rows, Pick(indices), One(), c, i, j);
    UnitTimes(At(c, indices[i], indices[j]));
  }

  lemma UnitTimes(x: real)
    ensures 1.0 * x * 1.0 == x
  {
  }

  lemma RaisedIsNonNegative(c: Matrix, indices: seq<nat>, i: nat)
    ensures 0.0 <= Raised(c, indices)(i)
  {
    hide At;
    var k := Pick(indices)(i);
    var v := At(c, k, k);
    assert Raised(c, indices)(i) == Floored(v) - v;
  }

  lemma NoiseEntry(c: Matrix, indices: seq<nat>, i: nat, j: nat)
    requires i < |indices| && j < |indices|
    ensures At(Noise(c, indices), i, j) ==
            At(c, indices[i], indices[j]) + At(Diagonal(|indices|, Raised(c, indices)), i, j)
  {
    hide At;
    var k := Pick(indices)(i);
    assert k == indices[i];
    var v := At(c, k, k);
    assert Raised(c, indices)(i) == Floored(v) - v;
  }

  /** The noise matrix is a selection of the covariance plus what raising its diagonal adds. */
  lemma NoiseIsSelection(c: Matrix, indices: seq<nat>)
    requires c.rows == c.cols && forall i :: 0 <= i < |indices| ==> indices[i] < c.rows
    ensures Noise(c, indices) ==
            Add(Congruence(Selector(|indices|, c.rows, Pick(indices), One()), c),
                Diagonal(|indices|, Raised(c, indices)))
  {
    hide At, Selector, Congruence, Noise, Diagonal;
    var m := |indices|;
    var h := Congruence(Selector(m, c.rows, Pick(indices), One()), c);
    var d := Diagonal(m, Raised(c, indices));
    forall i: nat, j: nat | i < m && j < m
      ensures At(Noise(c, indices), i, j) == At(Add(h, d), i, j)
    {
      PickedEntry(c, indices, i, j);
      NoiseEntry(c, indices, i, j);
    }
    Same(Noise(c, indices), Add(h, d));
  }

  /** The noise matrix of a covariance is a covariance. */
  lemma NoiseIsCovariance(c: Matrix, indices: seq<nat>)
    requires IsCovariance(c) && forall i :: 0 <= i < |indices| ==> indices[i] < c.rows
    ensures IsCovariance(Noise(c, indices))
  {
    hide Congruence, Selector, Add, Noise;
    var m := |indices|;
    var a := Selector(m, c.rows, Pick(indices), One());
    NoiseIsSelection(c, indices);
    CongruenceIsCovariance(a, c);
    forall i: nat | i < m
      ensures 0.0 <= Raised(c, indices)(i)
    {
      RaisedIsNonNegative(c, indices, i);
    }
    DiagonalIsCovariance(m, Raised(c, indices));
    SumIsCovariance(Congruence(a, c), Diagonal(m, Raised(c, indices)));
  }

  /** The rows and columns of the three-dimensional variables go to zero, their variances to 1e-6. */
  function Flattened(c: Matrix, flat: set<nat>): (r: Matrix)
    ensures r.rows == c.rows && r.cols == c.cols
  {
    Build(c.rows, c.cols, (i: nat, j: nat) =>
      if i in flat && i == j then 0.000001 else if i in flat || j in flat then 0.0 else At(c, i, j))
  }

  /** 1 on a set of indices, 0 elsewhere. */
  function On(s: set<nat>): nat -> real {
    (i: nat) => if i in s then 1.0 else 0.0
  }

  function Off(s: set<nat>): nat -> real {
    (i: nat) => if i in s then 0.0 else 1.0
  }

  function Self(): nat -> nat {
    (i: nat) => i
  }

  lemma MaskEntry(n: nat, w: nat -> real, c: Matrix, i: nat, j: nat)
    requires c.rows == c.cols == n && i < n && j < n
    ensures At(Congruence(Selector(n, n, Self(), w), c), i, j) == w(i) * At(c, i, j) * w(j)
  {
    SelectorEntry(n, n, Self(), w, c, i, j);
  }

  /** Two-dimensional mode keeps covariances covariances. */
  lemma FlattenedIsCovariance(c: Matrix, flat: set<nat>)
    requires IsCovariance(c)
    ensures IsCovariance(Flattened(c, flat))
  {
    var n := c.rows;
    var a := Selector(n, n, Self(), Off(flat));
    var small := (i: nat) => if i in flat then 0.000001 else 0.0;
    var d := Diagonal(n, small);
    forall i: nat, j: nat | i < n && j < n
      ensures At(Flattened(c, flat), i, j) == At(Add(Congruence(a, c), d), i, j)
    {
      MaskEntry(n, Off(flat), c, i, j);
    }
    Same(Flattened(c, flat), Add(Congruence(a, c), d));
    CongruenceIsCovariance(a, c);
    DiagonalIsCovariance(n, small);
    SumIsCovariance(Congruence(a, c), d);
  }

  /** A variance keeps its size: one of at least 1e-9 is left alone, a negative one loses its sign, and only
      what is nearer to zero becomes 1e-9. */
  lemma FlooredIs(v: real)
    ensures v >= 0.000000001 ==> Floored(v) == v
    ensures v <= -0.000000001 ==> Floored(v) == -v
    ensures -0.000000001 < v < 0.000000001 ==> Floored(v) == 0.000000001
  {
  }

  /** The noise is the covariance of the updated variables, its variances floored. */
  lemma NoiseIs(c: Matrix, indices: seq<nat>, i: nat, j: nat)
    requires i < |indices| && j < |indices|
    ensures i != j ==> At(Noise(c, indices), i, j) == At(c, indices[i], indices[j])
    ensures At(c, indices[i], indices[i]) >= 0.000000001 ==>
              At(Noise(c, indices), i, i) == At(c, indices[i], indices[i])
    ensures At(Noise(c, indices), i, i) >= 0.000000001
  {
    hide At;
    FlooredIs(At(c, indices[i], indices[i]));
  }

  function FillColumn(c: Matrix, k: nat, v: real): (r: Matrix)
    ensures r.rows == c.rows && r.cols == c.cols
  {
    Build(c.rows, c.cols, (i: nat, j: nat) => if j == k then v else At(c, i, j))
  }

  function FillRow(c: Matrix, k: nat, v: real): (r: Matrix)
    ensures r.rows == c.rows && r.cols == c.cols
  {
    Build(c.rows, c.cols, (i: nat, j: nat) => if i == k then v else At(c, i, j))
  }

  /** Z, roll, pitch and their velocities, and the vertical acceleration. */
  const FLAT: seq<nat> := [2, 3, 4, 8, 9, 10, 14]

  /** The variables of the plane. */
  const PLANAR: set<nat> := {0, 1, 5, 6, 7, 11, 12, 13}

  /** In two-dimensional mode x, y and yaw, their velocities and the two planar accelerations keep their
      covariances with each other; every other variable has the variance 1e-6 and no covariance. */
  lemma TwoDKeepsThePlane(c: Matrix, i: nat, j: nat)
    requires c.rows == c.cols == 15 && i < 15 && j < 15
    ensures var r := Flattened(c, set k: nat | k in FLAT);
            At(r, i, j) ==
            if i in PLANAR && j in PLANAR then At(c, i, j) else if i == j then 0.000001 else 0.0
  {
    hide At;
    InPlane(i);
    InPlane(j);
  }

  lemma InPlane(k: nat)
    requires k < 15
    ensures k in PLANAR <==> k !in FLAT
  {
  }

  /** forceTwoD: columns first, then rows, then the diagonal. */
  method ForceTwoD(covariance: Matrix) returns (c: Matrix)
    requires covariance.rows == covariance.cols && forall i :: 0 <= i < |FLAT| ==> FLAT[i] < covariance.rows
    ensures c == Flattened(covariance, set k: nat | k in FLAT)
  {
    hide At;
    var n := covariance.rows;
    c := covariance;
    for a := 0 to |FLAT|
      invariant c.rows == c.cols == n
      invariant forall i: nat, j: nat :: i < n && j < n ==>
                At(c, i, j) == if j in FLAT[..a] then 0.0 else At(covariance, i, j)
    {
      c := FillColumn(c, FLAT[a], 0.0);
    }
    for a := 0 to |FLAT|
      invariant c.rows == c.cols == n
      invariant forall i: nat, j: nat :: i < n && j < n ==>
                  At(c, i, j) == if i in FLAT[..a] || j in FLAT then 0.0 else At(covariance, i, j)
    {
      c := FillRow(c, FLAT[a], 0.0);
    }
    for a := 0 to |FLAT|
      invariant c.rows == c.cols == n
      invariant forall i: nat, j: nat :: i < n && j < n ==>
                  At(c, i, j) ==
                  if i == j && i in FLAT[..a] then 0.000001
                  else if i in FLAT || j in FLAT then 0.0 else At(covariance, i, j)
    {
      c := Put(c, FLAT[a], FLAT[a], 0.000001);
    }
    Same(c, Flattened(covariance, set k: nat | k in FLAT));
  }

  /** The first measurement overwrites the block of the measured variables. */
  function Initialized(p: Matrix, c: Matrix, measured: set<nat>): (r: Matrix)
    ensures r.rows == p.rows && r.cols == p.cols
  {
    Build(p.rows, p.cols, (i: nat, j: nat) => if i in measured && j in measured then At(c, i, j) else At(p, i, j))
  }

  /** No covariance between measured and unmeasured variables. */
  ghost predicate Uncoupled(p: Matrix, measured: set<nat>) {
    forall i: nat, j: nat :: i < p.rows && j < p.cols && i in measured && j !in measured ==> At(p, i, j) == 0.0
  }

  lemma InitializedEntry(p: Matrix, c: Matrix, measured: set<nat>, i: nat, j: nat)
    requires Symmetric(p) && c.rows == c.cols == p.rows && Uncoupled(p, measured) && i < p.rows && j < p.rows
    ensures At(Initialized(p, c, measured), i, j) ==
            On(measured)(i) * At(c, i, j) * On(measured)(j) + Off(measured)(i) * At(p, i, j) * Off(measured)(j)
  {
    hide At;
    assert At(Transpose(p), i, j) == At(p, j, i);
  }

  lemma InitializedIsCovariance(p: Matrix, c: Matrix, measured: set<nat>)
    requires IsCovariance(p) && IsCovariance(c) && p.rows == c.rows && Uncoupled(p, measured)
    ensures IsCovariance(Initialized(p, c, measured))
  {
    hide At, Congruence, Selector, Initialized, NonNegative;
    var n := p.rows;
    var a := Selector(n, n, Self(), On(measured));
    var b := Selector(n, n, Self(), Off(measured));
    var r := Add(Congruence(a, c), Congruence(b, p));
    forall i: nat, j: nat | i < n && j < n
      ensures At(Initialized(p, c, measured), i, j) == At(r, i, j)
    {
      MaskEntry(n, On(measured), c, i, j);
      MaskEntry(n, Off(measured), p, i, j);
      InitializedEntry(p, c, measured, i, j);
    }
    Same(Initialized(p, c, measured), r);
    CongruenceIsCovariance(a, c);
    CongruenceIsCovariance(b, p);
    SumIsCovariance(Congruence(a, c), Congruence(b, p));
  }

  // ---------------------------------------------------------------------------------------------
  // When the first measurement is safe

  /** The vector with `a` at i and `b` at j. */
  function Pair(n: nat, i: nat, a: real, j: nat, b: real): (x: Matrix)
    ensures x.rows == n && x.cols == 1
  {
    Build(n, 1, (k: nat, l: nat) => if k == i then a else if k == j then b else 0.0)
  }

  lemma {:induction false} SumTwo(n: nat, i: nat, j: nat, f: nat -> real)
    requires i < n && j < n && i != j && forall k: nat :: k < n && k != i && k != j ==> f(k) == 0.0
    ensures Sum(n, f) == f(i) + f(j)
  {
    if i == n - 1 {
      SumOne(n - 1, j, f);
    } else if j == n - 1 {
      SumOne(n - 1, i, f);
    } else {
      SumTwo(n - 1, i, j, f);
    }
  }

  lemma TimesPair(p: Matrix, i: nat, a: real, j: nat, b: real, k: nat)
    requires p.rows == p.cols && i < p.rows && j < p.rows && i != j && k < p.rows
    ensures At(Mul(p, Pair(p.rows, i, a, j, b)), k, 0) == At(p, k, i) * a + At(p, k, j) * b
  {
    hide At;
    SumTwo(p.rows, i, j, Terms(p, Pair(p.rows, i, a, j, b), k, 0));
  }

  lemma PairQuad(p: Matrix, i: nat, a: real, j: nat, b: real)
    requires p.rows == p.cols && i < p.rows && j < p.rows && i != j
    ensures var x := Pair(p.rows, i, a, j, b);
            Quad(p, x) == a * At(Mul(p, x), i, 0) + b * At(Mul(p, x), j, 0)
  {
    hide At, Transpose;
    var x := Pair(p.rows, i, a, j, b);
    SumTwo(p.rows, i, j, Terms(Transpose(x), Mul(p, x), 0, 0));
  }

  /** With a zero variance and a non-zero covariance there is a direction of negative variance. */
  lemma NegativeDirection(p: Matrix, i: nat, j: nat) returns (x: Matrix)
    requires p.rows == p.cols && i < p.rows && j < p.rows && i != j
    requires At(p, i, i) == 0.0 && At(p, j, i) == At(p, i, j) != 0.0
    ensures IsVector(x, p.rows) && Quad(p, x) == -1.0
  {
    hide At, Quad, Mul, Pair;
    var (c, v) := (At(p, i, j), At(p, j, j));
    var a := -(v + 1.0) / (2.0 * c);
    x := Pair(p.rows, i, a, j, 1.0);
    PairQuad(p, i, a, j, 1.0);
    TimesPair(p, i, a, j, 1.0, i);
    TimesPair(p, i, a, j, 1.0, j);
    assert a * c == -(v + 1.0) / 2.0;
    assert Quad(p, x) == a * c + (c * a + v);
  }

  /** A covariance with a zero variance has zero covariances in its row. */
  lemma ZeroVariance(p: Matrix, i: nat, j: nat)
    requires IsCovariance(p) && i < p.rows && j < p.rows && i != j && At(p, i, i) == 0.0
    ensures At(p, i, j) == 0.0
  {
    hide At, Quad;
    assert At(Transpose(p), i, j) == At(p, j, i);
    if At(p, i, j) != 0.0 {
      var x := NegativeDirection(p, i, j);
    }
  }

  /** The first measurement leaves a covariance, whatever covariance it carries, exactly when the
      initial covariance does not couple measured with unmeasured variables. */
  lemma FirstMeasurementIsSafeIff(p: Matrix, measured: set<nat>)
    requires IsCovariance(p)
    ensures (forall c: Matrix :: c.rows == p.rows && IsCovariance(c) ==> IsCovariance(Initialized(p, c, measured)))
            <==> Uncoupled(p, measured)
  {
    if Uncoupled(p, measured) {
      forall c: Matrix | c.rows == p.rows && IsCovariance(c)
        ensures IsCovariance(Initialized(p, c, measured))
      {
        InitializedIsCovariance(p, c, measured);
      }
    } else {
      var zero := (i: nat) => 0.0;
      var c := Diagonal(p.rows, zero);
      DiagonalIsCovariance(p.rows, zero);
      var i: nat, j: nat :| i < p.rows && j < p.cols && i in measured && j !in measured && At(p, i, j) != 0.0;
      CoupledIsUnsafe(p, c, measured, i, j);
    }
  }

  lemma CoupledIsUnsafe(p: Matrix, c: Matrix, measured: set<nat>, i: nat, j: nat)
    requires p.rows == p.cols == c.rows && c == Diagonal(p.rows, (k: nat) => 0.0)
    requires i < p.rows && j < p.cols && i in measured && j !in measured && At(p, i, j) != 0.0
    ensures !IsCovariance(Initialized(p, c, measured))
  {
    hide At;
    var r := Initialized(p, c, measured);
    assert At(r, i, i) == 0.0 && At(r, i, j) == At(p, i, j);
    if IsCovariance(r) {
      hide IsCovariance;
      ZeroVariance(r, i, j);
    }
  }

  /** Two variables that always move together. */
  const TOGETHER: Matrix := Build(2, 2, (i: nat, j: nat) => 1.0)

  lemma TogetherIsCovariance()
    ensures IsCovariance(TOGETHER)
  {
    hide At, Congruence, Selector, NonNegative;
    var first := (i: nat) => 0;
    var a := Selector(2, 1, first, One());
    var c := Diagonal(1, One());
    forall i: nat, j: nat | i < 2 && j < 2
      ensures At(TOGETHER, i, j) == At(Congruence(a, c), i, j)
    {
      SelectorEntry(2, 1, first, One(), c, i, j);
      assert At(c, 0, 0) == 1.0;
    }
    Same(TOGETHER, Congruence(a, c));
    DiagonalIsCovariance(1, One());
    CongruenceIsCovariance(a, c);
  }

  /** A first measurement that breaks it: one of the two is measured exactly. */
  lemma FirstMeasurementMayBeUnsafe()
    ensures var (p, c, measured) := (TOGETHER, Diagonal(2, (i: nat) => 0.0), {0});
            && IsCovariance(p) && IsCovariance(c) && c.rows == p.rows && !Uncoupled(p, measured)
            && !IsCovariance(Initialized(p, c, measured))
  {
    hide IsCovariance, Initialized;
    var zero := (i: nat) => 0.0;
    TogetherIsCovariance();
    DiagonalIsCovariance(2, zero);
    assert At(TOGETHER, 0, 1) == 1.0;
    CoupledIsUnsafe(TOGETHER, Diagonal(2, (i: nat) => 0.0), {0}, 0, 1);
  }
}
