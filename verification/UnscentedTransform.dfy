/** The unscented transform (ukf.cpp): sigma points through one matrix give exactly the mean and covariance
    of the linear map, and through two matrices their cross-covariance, whatever the scaling constants. */
module UnscentedTransforms {
  import opened LinearAlgebra
  import opened Covariances

  // ---------------------------------------------------------------------------------------------
  // What the loops compute

  function WeightedSum(points: seq<Matrix>, weights: seq<real>, n: nat, k: nat): (m: Matrix)
    requires k <= |points| && k <= |weights|
    requires forall i :: 0 <= i < |points| ==> points[i].rows == n && points[i].cols == 1
    ensures m.rows == n && m.cols == 1
  {
    if k == 0 then Zero(n, 1) else Add(WeightedSum(points, weights, n, k - 1), Scale(weights[k - 1], points[k - 1]))
  }

  /** The weighted products of how far one family is from `center` and another from `mean`. */
  function Cross(
    points: seq<Matrix>, center: Matrix, others: seq<Matrix>, mean: Matrix, weights: seq<real>, k: nat): (m: Matrix)
    requires k <= |points| && k <= |others| && k <= |weights| && center.cols == mean.cols == 1
    requires forall i :: 0 <= i < |points| ==> points[i].rows == center.rows && points[i].cols == 1
    requires forall i :: 0 <= i < |others| ==> others[i].rows == mean.rows && others[i].cols == 1
    ensures m.rows == center.rows && m.cols == mean.rows
  {
    if k == 0 then Zero(center.rows, mean.rows)
    else
      Add(Cross(points, center, others, mean, weights, k - 1),
          Scale(weights[k - 1], Mul(Sub(points[k - 1], center), Transpose(Sub(others[k - 1], mean)))))
  }

  function Spread(points: seq<Matrix>, weights: seq<real>, mean: Matrix, k: nat): (m: Matrix)
    requires k <= |points| && k <= |weights| && mean.cols == 1
    requires forall i :: 0 <= i < |points| ==> points[i].rows == mean.rows && points[i].cols == 1
    ensures m.rows == m.cols == mean.rows
  {
    Cross(points, mean, points, mean, weights, k)
  }

  function Column(l: Matrix, i: nat): (c: Matrix)
    ensures c.rows == l.rows && c.cols == 1
  {
    Build(l.rows, 1, (k: nat, j: nat) => At(l, k, i))
  }

  /** Sigma point `k` of the state `x` with square root `l`, mapped by `f`. */
  function SigmaPoint(f: Matrix, x: Matrix, l: Matrix, k: nat): (p: Matrix)
    requires f.cols == x.rows == l.rows == l.cols && x.cols == 1
    ensures p.rows == f.rows && p.cols == 1
  {
    var n := x.rows;
    if k == 0 then Mul(f, x)
    else if k <= n then Mul(f, Add(x, Column(l, k - 1)))
    else Mul(f, Sub(x, Column(l, k - 1 - n)))
  }

  function SigmaPoints(f: Matrix, x: Matrix, l: Matrix): (ps: seq<Matrix>)
    requires f.cols == x.rows == l.rows == l.cols && x.cols == 1
    ensures |ps| == 2 * x.rows + 1
    ensures forall k :: 0 <= k < |ps| ==> ps[k].rows == f.rows && ps[k].cols == 1 && ps[k] == SigmaPoint(f, x, l, k)
  {
    seq(2 * x.rows + 1, (k: nat) => SigmaPoint(f, x, l, k))
  }

  /** The weights that setConstants computes: `first` for the centre, `rest` for the others. */
  function Weights(n: nat, first: real, rest: real): (w: seq<real>)
    ensures |w| == 2 * n + 1 && w[0] == first && forall k :: 1 <= k < |w| ==> w[k] == rest
  {
    seq(2 * n + 1, (k: nat) => if k == 0 then first else rest)
  }

  function Lambda(n: nat, alpha: real, kappa: real): real {
    alpha * alpha * (n as real + kappa) - n as real
  }

  function CentreWeight(n: nat, lambda: real): real
    requires n as real + lambda != 0.0
  {
    lambda / (n as real + lambda)
  }

  function SideWeight(n: nat, lambda: real): real
    requires n as real + lambda != 0.0
  {
    1.0 / (2.0 * (n as real + lambda))
  }

  /** What the centre of the covariance weighs more than the centre of the state. */
  function CentreExtra(alpha: real, beta: real): real {
    1.0 - alpha * alpha + beta
  }

  /** Alpha and kappa set how far the points lie out, beta what the centre of the covariance weighs more; the
      default constants, alpha = 0.001, kappa = 0 and beta = 2, among them. */
  lemma ScalingIs(n: nat, alpha: real, kappa: real, beta: real)
    ensures n as real + Lambda(n, alpha, kappa) == (n as real + kappa) * (alpha * alpha)
    ensures CentreExtra(alpha, beta) - beta == 1.0 - alpha * alpha
    ensures CentreExtra(0.001, 2.0) == 2.999999
  {
  }

  // ---------------------------------------------------------------------------------------------
  // Entries of the two sums

  function StateTerm(points: seq<Matrix>, weights: seq<real>, r: nat): nat -> real {
    (k: nat) => if k < |points| && k < |weights| then weights[k] * At(points[k], r, 0) else 0.0
  }

  lemma {:induction false} WeightedSumEntry(points: seq<Matrix>, weights: seq<real>, n: nat, k: nat, r: nat)
    requires k <= |points| && k <= |weights|
    requires forall i :: 0 <= i < |points| ==> points[i].rows == n && points[i].cols == 1
    requires r < n
    ensures At(WeightedSum(points, weights, n, k), r, 0) == Sum(k, StateTerm(points, weights, r))
  {
    hide At, Add, Scale;
    if k > 0 {
      WeightedSumEntry(points, weights, n, k - 1, r);
      var last := Scale(weights[k - 1], points[k - 1]);
      AddEntry(WeightedSum(points, weights, n, k - 1), last, r, 0);
      ScaleEntry(weights[k - 1], points[k - 1], r, 0);
    }
  }

  function CrossTerm(
    points: seq<Matrix>, center: Matrix, others: seq<Matrix>, mean: Matrix, weights: seq<real>,
    r: nat, s: nat): nat -> real
  {
    (k: nat) =>
      if k < |points| && k < |others| && k < |weights| then
        weights[k] * ((At(points[k], r, 0) - At(center, r, 0)) * (At(others[k], s, 0) - At(mean, s, 0)))
      else 0.0
  }

  lemma OuterEntry(d: Matrix, e: Matrix, r: nat, s: nat)
    requires d.cols == e.cols == 1 && r < d.rows && s < e.rows
    ensures At(Mul(d, Transpose(e)), r, s) == At(d, r, 0) * At(e, s, 0)
  {
    SumOne(1, 0, Terms(d, Transpose(e), r, s));
  }

  lemma {:induction false} CrossEntry(
    points: seq<Matrix>, center: Matrix, others: seq<Matrix>, mean: Matrix, weights: seq<real>, k: nat, r: nat, s: nat)
    requires k <= |points| && k <= |others| && k <= |weights| && center.cols == mean.cols == 1
    requires r < center.rows && s < mean.rows
    requires forall i :: 0 <= i < |points| ==> points[i].rows == center.rows && points[i].cols == 1
    requires forall i :: 0 <= i < |others| ==> others[i].rows == mean.rows && others[i].cols == 1
    ensures At(Cross(points, center, others, mean, weights, k), r, s) ==
            Sum(k, CrossTerm(points, center, others, mean, weights, r, s))
  {
    hide At, Mul, Transpose, Sub, Add, Scale;
    if k > 0 {
      CrossEntry(points, center, others, mean, weights, k - 1, r, s);
      var last := Scale(weights[k - 1], Mul(Sub(points[k - 1], center), Transpose(Sub(others[k - 1], mean))));
      LastCross(points[k - 1], center, others[k - 1], mean, weights[k - 1], r, s);
      AddEntry(Cross(points, center, others, mean, weights, k - 1), last, r, s);
    }
  }

  lemma LastCross(p: Matrix, center: Matrix, q: Matrix, mean: Matrix, w: real, r: nat, s: nat)
    requires p.rows == center.rows && p.cols == center.cols == 1 && r < center.rows
    requires q.rows == mean.rows && q.cols == mean.cols == 1 && s < mean.rows
    ensures At(Scale(w, Mul(Sub(p, center), Transpose(Sub(q, mean)))), r, s) ==
            w * ((At(p, r, 0) - At(center, r, 0)) * (At(q, s, 0) - At(mean, s, 0)))
  {
    hide At, Mul, Transpose, Sub, Add, Scale;
    AddEntry(p, center, r, 0);
    AddEntry(q, mean, s, 0);
    OuterEntry(Sub(p, center), Sub(q, mean), r, s);
    ScaleEntry(w, Mul(Sub(p, center), Transpose(Sub(q, mean))), r, s);
  }

  lemma {:induction false} SumSplit(a: nat, b: nat, f: nat -> real, g: nat -> real)
    requires forall i: nat :: i < b ==> g(i) == f(a + i)
    ensures Sum(a + b, f) == Sum(a, f) + Sum(b, g)
  {
    if b > 0 {
      SumSplit(a, b - 1, f, g);
    }
  }

  lemma {:induction false} SumConst(n: nat, c: real, f: nat -> real)
    requires forall i: nat :: i < n ==> f(i) == c
    ensures Sum(n, f) == n as real * c
  {
    if n > 0 {
      SumConst(n - 1, c, f);
      var m := n as real;
      assert (n - 1) as real == m - 1.0;
      assert (m - 1.0) * c == m * c - c;
    }
  }

  /** A sum over a centre and two mirrored halves. */
  lemma SumMirrored(n: nat, f: nat -> real, g: nat -> real, h: nat -> real)
    requires forall i: nat :: i < n ==> h(i) == f(1 + i) + f(1 + n + i)
    ensures Sum(2 * n + 1, f) == f(0) + Sum(n, h)
  {
    var a := (i: nat) => f(1 + i);
    var b := (i: nat) => f(1 + n + i);
    SumSplit(1, n, f, a);
    SumSplit(1 + n, n, f, b);
    assert Sum(1, f) == f(0);
    hide Sum;
    SumAdd(n, a, b, h);
  }

  // ---------------------------------------------------------------------------------------------
  // Exact moment matching

  lemma ColumnEntry(f: Matrix, l: Matrix, i: nat, r: nat)
    requires f.cols == l.rows && i < l.cols && r < f.rows
    ensures At(Mul(f, Column(l, i)), r, 0) == At(Mul(f, l), r, i)
  {
    SumEq(f.cols, Terms(f, Column(l, i), r, 0), Terms(f, l, r, i));
  }

  /** Entries of the three kinds of sigma points. */
  lemma PointEntries(f: Matrix, x: Matrix, l: Matrix, i: nat, r: nat)
    requires f.cols == x.rows == l.rows == l.cols && x.cols == 1 && i < x.rows && r < f.rows
    ensures At(SigmaPoint(f, x, l, 0), r, 0) == At(Mul(f, x), r, 0)
    ensures At(SigmaPoint(f, x, l, 1 + i), r, 0) == At(Mul(f, x), r, 0) + At(Mul(f, l), r, i)
    ensures At(SigmaPoint(f, x, l, 1 + x.rows + i), r, 0) == At(Mul(f, x), r, 0) - At(Mul(f, l), r, i)
  {
    hide At, Mul, Add, Scale, Column;
    var c := Column(l, i);
    var (fx, fc) := (Mul(f, x), Mul(f, c));
    MulAddRight(f, x, c);
    MulAddRight(f, x, Scale(-1.0, c));
    MulScaleRight(-1.0, f, c);
    AddEntry(fx, fc, r, 0);
    AddEntry(fx, Scale(-1.0, fc), r, 0);
    ScaleEntry(-1.0, fc, r, 0);
    ColumnEntry(f, l, i, r);
  }

  lemma MeanTerms(f: Matrix, x: Matrix, l: Matrix, first: real, rest: real, r: nat, i: nat)
    requires f.cols == x.rows == l.rows == l.cols && x.cols == 1 && r < f.rows && i < x.rows
    ensures var t := StateTerm(SigmaPoints(f, x, l), Weights(x.rows, first, rest), r);
            var m := At(Mul(f, x), r, 0);
            t(1 + i) + t(1 + x.rows + i) == 2.0 * (rest * m)
  {
    hide At, Mul, SigmaPoint, SigmaPoints, Weights;
    PointEntries(f, x, l, i, r);
    Mirrored(rest, At(Mul(f, x), r, 0), At(Mul(f, l), r, i));
  }

  lemma CentreTerm(f: Matrix, x: Matrix, l: Matrix, first: real, rest: real, r: nat)
    requires f.cols == x.rows == l.rows == l.cols && x.cols == 1 && r < f.rows
    ensures StateTerm(SigmaPoints(f, x, l), Weights(x.rows, first, rest), r)(0) == first * At(Mul(f, x), r, 0)
  {
    hide At, Mul, SigmaPoints, Weights;
  }

  lemma MeanEntry(f: Matrix, x: Matrix, l: Matrix, first: real, rest: real, r: nat)
    requires f.cols == x.rows == l.rows == l.cols && x.cols == 1 && r < f.rows
    requires first + 2.0 * (x.rows as real * rest) == 1.0
    ensures Sum(2 * x.rows + 1, StateTerm(SigmaPoints(f, x, l), Weights(x.rows, first, rest), r)) == At(Mul(f, x), r, 0)
  {
    hide At, Mul, SigmaPoint, SigmaPoints, Weights, StateTerm;
    var n := x.rows;
    var m := At(Mul(f, x), r, 0);
    var t := StateTerm(SigmaPoints(f, x, l), Weights(n, first, rest), r);
    var h := (i: nat) => 2.0 * (rest * m);
    forall i: nat | i < n
      ensures h(i) == t(1 + i) + t(1 + n + i)
    {
      MeanTerms(f, x, l, first, rest, r, i);
    }
    CentreTerm(f, x, l, first, rest, r);
    SumMirrored(n, t, h, h);
    SumConst(n, 2.0 * (rest * m), h);
    WeightsCancel(n as real, first, rest, m);
  }

  lemma Mirrored(w: real, m: real, g: real)
    ensures w * (m + g) + w * (m - g) == 2.0 * (w * m)
  {
  }

  lemma WeightsCancel(n: real, first: real, rest: real, m: real)
    requires first + 2.0 * (n * rest) == 1.0
    ensures first * m + n * (2.0 * (rest * m)) == m
  {
    assert n * (2.0 * (rest * m)) == 2.0 * (n * rest) * m;
    assert first * m + 2.0 * (n * rest) * m == (first + 2.0 * (n * rest)) * m;
  }

  /** The recombined mean is the mapped mean, for any square root. */
  lemma MeanIsExact(f: Matrix, x: Matrix, l: Matrix, first: real, rest: real)
    requires f.cols == x.rows == l.rows == l.cols && x.cols == 1
    requires first + 2.0 * (x.rows as real * rest) == 1.0
    ensures WeightedSum(SigmaPoints(f, x, l), Weights(x.rows, first, rest), f.rows, 2 * x.rows + 1) == Mul(f, x)
  {
    hide At, Mul, SigmaPoint, SigmaPoints, Weights, WeightedSum;
    var n := x.rows;
    var (ps, ws) := (SigmaPoints(f, x, l), Weights(n, first, rest));
    forall r: nat, j: nat | r < f.rows && j < 1
      ensures At(WeightedSum(ps, ws, f.rows, 2 * n + 1), r, j) == At(Mul(f, x), r, j)
    {
      WeightedSumEntry(ps, ws, f.rows, 2 * n + 1, r);
      MeanEntry(f, x, l, first, rest, r);
    }
    Same(WeightedSum(ps, ws, f.rows, 2 * n + 1), Mul(f, x));
  }

  lemma MirroredProduct(w: real, m: real, a: real, y: real, k: real, h: real)
    ensures w * (((m + a) - y) * ((k + h) - k)) + w * (((m - a) - y) * ((k - h) - k)) == 2.0 * w * (a * h)
  {
    assert ((m + a) - y) * ((k + h) - k) == (m - y) * h + a * h;
    assert ((m - a) - y) * ((k - h) - k) == a * h - (m - y) * h;
  }

  /** The shapes of two maps of one family of sigma points, of mean `x` and square root `l`. */
  ghost predicate Fit(f: Matrix, g: Matrix, x: Matrix, l: Matrix, y: Matrix) {
    f.cols == g.cols == x.rows == l.rows == l.cols && x.cols == y.cols == 1 && y.rows == f.rows
  }

  lemma CrossTerms(
    f: Matrix, g: Matrix, x: Matrix, l: Matrix, y: Matrix, first: real, rest: real, r: nat, s: nat, i: nat)
    requires Fit(f, g, x, l, y) && r < f.rows && s < g.rows && i < x.rows
    ensures var ws := Weights(x.rows, first, rest);
            var t := CrossTerm(SigmaPoints(f, x, l), y, SigmaPoints(g, x, l), Mul(g, x), ws, r, s);
            t(1 + i) + t(1 + x.rows + i) == (2.0 * rest) * Terms(Mul(f, l), Transpose(Mul(g, l)), r, s)(i)
  {
    hide At, Mul, SigmaPoint, SigmaPoints, Weights, Transpose;
    PointEntries(f, x, l, i, r);
    PointEntries(g, x, l, i, s);
    MirroredProduct(rest, At(Mul(f, x), r, 0), At(Mul(f, l), r, i), At(y, r, 0),
                    At(Mul(g, x), s, 0), At(Mul(g, l), s, i));
  }

  /** The centre of the second family is its mean, so the centre's weight does not matter. */
  lemma CentreCancels(
    f: Matrix, g: Matrix, x: Matrix, l: Matrix, y: Matrix, first: real, rest: real, r: nat, s: nat)
    requires Fit(f, g, x, l, y) && r < f.rows && s < g.rows
    ensures var ws := Weights(x.rows, first, rest);
            CrossTerm(SigmaPoints(f, x, l), y, SigmaPoints(g, x, l), Mul(g, x), ws, r, s)(0) == 0.0
  {
    hide At, Mul, SigmaPoints, Weights;
    assert SigmaPoints(g, x, l)[0] == Mul(g, x);
  }

  lemma CrossSum(
    f: Matrix, g: Matrix, x: Matrix, l: Matrix, y: Matrix, first: real, rest: real, w: real, r: nat, s: nat)
    requires Fit(f, g, x, l, y) && r < f.rows && s < g.rows && w == 2.0 * rest
    ensures var ws := Weights(x.rows, first, rest);
            Sum(2 * x.rows + 1, CrossTerm(SigmaPoints(f, x, l), y, SigmaPoints(g, x, l), Mul(g, x), ws, r, s)) ==
            w * At(Mul(Mul(f, l), Transpose(Mul(g, l))), r, s)
  {
    hide At, Mul, SigmaPoint, SigmaPoints, Weights, Transpose, CrossTerm, Terms, Sum;
    var n := x.rows;
    var t := CrossTerm(SigmaPoints(f, x, l), y, SigmaPoints(g, x, l), Mul(g, x), Weights(n, first, rest), r, s);
    var products := Terms(Mul(f, l), Transpose(Mul(g, l)), r, s);
    var h := (i: nat) => w * products(i);
    forall i: nat | i < n
      ensures h(i) == t(1 + i) + t(1 + n + i)
    {
      CrossTerms(f, g, x, l, y, first, rest, r, s, i);
    }
    CentreCancels(f, g, x, l, y, first, rest, r, s);
    SumMirrored(n, t, h, h);
    SumScale(n, w, products, h);
  }

  lemma SquareRootMapped(f: Matrix, g: Matrix, l: Matrix, p: Matrix, c: real)
    requires f.cols == g.cols == l.rows == l.cols == p.rows == p.cols
    requires Mul(l, Transpose(l)) == Scale(c, p)
    ensures Mul(Mul(f, l), Transpose(Mul(g, l))) == Scale(c, Mul(Mul(f, p), Transpose(g)))
  {
    var (lt, gt) := (Transpose(l), Transpose(g));
    calc {
      Mul(Mul(f, l), Transpose(Mul(g, l)));
      { TransposeMul(g, l); MulAssoc(Mul(f, l), lt, gt); }
      Mul(Mul(Mul(f, l), lt), gt);
      { MulAssoc(f, l, lt); }
      Mul(Mul(f, Scale(c, p)), gt);
      { MulScaleRight(c, f, p); MulScaleLeft(c, Mul(f, p), gt); }
      Scale(c, Mul(Mul(f, p), gt));
    }
  }

  /** The recombined cross-covariance of two maps is F P Gᵀ, whatever the weight of the centre and whatever
      point the first family is compared with. */
  lemma CrossIsExact(
    f: Matrix, g: Matrix, x: Matrix, l: Matrix, y: Matrix, p: Matrix, c: real, first: real, rest: real)
    requires Fit(f, g, x, l, y) && p.rows == p.cols == x.rows
    requires Mul(l, Transpose(l)) == Scale(c, p) && (2.0 * rest) * c == 1.0
    ensures var ws := Weights(x.rows, first, rest);
            Cross(SigmaPoints(f, x, l), y, SigmaPoints(g, x, l), Mul(g, x), ws, 2 * x.rows + 1) ==
            Mul(Mul(f, p), Transpose(g))
  {
    hide At, Mul, SigmaPoint, SigmaPoints, Weights, Cross, Transpose, Scale, CrossTerm, Sum;
    var n := x.rows;
    var (ps, qs, mean, ws) := (SigmaPoints(f, x, l), SigmaPoints(g, x, l), Mul(g, x), Weights(n, first, rest));
    SquareRootMapped(f, g, l, p, c);
    var exact := Mul(Mul(f, p), Transpose(g));
    forall r: nat, s: nat | r < f.rows && s < g.rows
      ensures At(Cross(ps, y, qs, mean, ws, 2 * n + 1), r, s) == At(exact, r, s)
    {
      CrossEntry(ps, y, qs, mean, ws, 2 * n + 1, r, s);
      CrossSum(f, g, x, l, y, first, rest, 2.0 * rest, r, s);
      Rescaled(exact, 2.0 * rest, c, r, s);
    }
    Same(Cross(ps, y, qs, mean, ws, 2 * n + 1), exact);
  }

  /** The recombined covariance is the mapped covariance. */
  lemma SpreadIsExact(f: Matrix, x: Matrix, l: Matrix, p: Matrix, c: real, first: real, rest: real)
    requires f.cols == x.rows == l.rows == l.cols == p.rows == p.cols && x.cols == 1
    requires Mul(l, Transpose(l)) == Scale(c, p) && (2.0 * rest) * c == 1.0
    ensures Spread(SigmaPoints(f, x, l), Weights(x.rows, first, rest), Mul(f, x), 2 * x.rows + 1) == Congruence(f, p)
  {
    hide Mul, SigmaPoints, Weights, Cross, Transpose, Scale;
    CrossIsExact(f, f, x, l, Mul(f, x), p, c, first, rest);
  }

  lemma Rescaled(a: Matrix, w: real, c: real, r: nat, s: nat)
    requires w * c == 1.0 && r < a.rows && s < a.cols
    ensures w * At(Scale(c, a), r, s) == At(a, r, s)
  {
    hide At;
    var y := At(a, r, s);
    ScaleEntry(c, a, r, s);
    assert w * (c * y) == (w * c) * y;
  }

  /** The weights of the state sum to one. */
  lemma WeightsSumToOne(n: nat, lambda: real)
    requires n as real + lambda != 0.0
    ensures CentreWeight(n, lambda) + 2.0 * (n as real * SideWeight(n, lambda)) == 1.0
    ensures 2.0 * SideWeight(n, lambda) * (n as real + lambda) == 1.0
  {
    var (m, c) := (n as real, n as real + lambda);
    var (first, rest) := (lambda / c, 1.0 / (2.0 * c));
    assert first * c == lambda;
    assert rest * (2.0 * c) == 1.0;
    assert 2.0 * rest * c == rest * (2.0 * c);
    assert (first + 2.0 * (m * rest)) * c == first * c + m * (2.0 * rest * c);
    CancelFactor(first + 2.0 * (m * rest), c);
  }

  lemma CancelFactor(y: real, c: real)
    requires c != 0.0 && y * c == c
    ensures y == 1.0
  {
    assert (y - 1.0) * c == 0.0;
  }
}
