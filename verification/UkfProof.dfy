/** The unscented Kalman filter: what its sigma points stand for, what its correction does to the covariance,
    and why the covariance stays one in every run. */
module UkfProofs {
  import opened LinearAlgebra
  import opened Covariances
  import opened KalmanUpdates
  import opened MeasurementSide
  import opened FilterCycle
  import opened UnscentedTransforms
  import opened Ukfs
  import E = Ekfs

  // ---------------------------------------------------------------------------------------------
  // What the points stand for

  /** Sigma points of a mean and a covariance, sent through a matrix. */
  datatype Base = Base(f: Matrix, x: Matrix, l: Matrix, p: Matrix) {
    ghost predicate Fits(n: nat) {
      && f.rows == f.cols == l.rows == l.cols == p.rows == p.cols == n && IsVector(x, n)
    }

    ghost function Mean(): (m: Matrix)
      requires Fits(x.rows)
      ensures IsVector(m, x.rows)
    {
      Mul(f, x)
    }

    ghost function Covariance(): (c: Matrix)
      requires Fits(x.rows)
      ensures c.rows == c.cols == x.rows
    {
      Congruence(f, p)
    }
  }

  ghost predicate IsRoot(s: Setup, l: Matrix, p: Matrix) {
    l.rows == l.cols == p.rows == p.cols && Mul(l, Transpose(l)) == Scaled(s, p)
  }

  ghost predicate Backs(s: Setup, b: Base, points: seq<Matrix>) {
    b.Fits(s.n) && IsRoot(s, b.l, b.p) && points == SigmaPoints(b.f, b.x, b.l)
  }

  /** Measuring the points is sending them through one more matrix. */
  lemma SeenAreSent(h: Matrix, f: Matrix, x: Matrix, l: Matrix)
    requires h.cols == f.rows && f.cols == x.rows == l.rows == l.cols && x.cols == 1
    ensures Seen(h, SigmaPoints(f, x, l)) == SigmaPoints(Mul(h, f), x, l)
  {
    hide Mul, Add, Sub, Column;
    var (a, b) := (Seen(h, SigmaPoints(f, x, l)), SigmaPoints(Mul(h, f), x, l));
    forall k | 0 <= k < |a|
      ensures a[k] == b[k]
    {
      var n := x.rows;
      var y := if k == 0 then x else if k <= n then Add(x, Column(l, k - 1)) else Sub(x, Column(l, k - 1 - n));
      MulAssoc(h, f, y);
    }
  }

  lemma CongruenceTwice(h: Matrix, f: Matrix, p: Matrix)
    requires h.cols == f.rows && f.cols == p.rows == p.cols
    ensures Congruence(Mul(h, f), p) == Congruence(h, Congruence(f, p))
    ensures Mul(Mul(f, p), Transpose(Mul(h, f))) == Mul(Congruence(f, p), Transpose(h))
  {
    hide Mul, Transpose;
    var (ft, ht, fp) := (Transpose(f), Transpose(h), Mul(f, p));
    TransposeMul(h, f);
    MulAssoc(fp, ft, ht);
    MulAssoc(h, f, p);
    MulAssoc(h, fp, Mul(ft, ht));
    MulAssoc(h, Mul(fp, ft), ht);
  }

  /** What correct computes from the points: the moments of what they stand for, as seen by H, whatever the
      scaling constants, and whatever wrapping did to the state since. */
  lemma ExpectsMoments(s: Setup, b: Base, h: Matrix, x: Matrix, points: seq<Matrix>)
    requires s.Valid() && Backs(s, b, points) && h.cols == s.n && IsVector(x, s.n)
    ensures Expects(s.t, h, x, points) ==
            Expected(Mul(h, b.Mean()), Congruence(h, b.Covariance()), Mul(b.Covariance(), Transpose(h)))
  {
    hide Mul, Transpose, Scale, Congruence, SigmaPoints, Weights, WeightedSum, Cross, CentreWeight, SideWeight, Seen;
    var n := s.n;
    var c := n as real + s.t.lambda;
    var (first, extra, rest) := (CentreWeight(n, s.t.lambda), s.t.covarWeights[0], SideWeight(n, s.t.lambda));
    var g := Mul(h, b.f);
    WeightsSumToOne(n, s.t.lambda);
    SeenAreSent(h, b.f, b.x, b.l);
    MeanIsExact(g, b.x, b.l, first, rest);
    SpreadIsExact(g, b.x, b.l, b.p, c, extra, rest);
    CrossIsExact(b.f, g, b.x, b.l, x, b.p, c, extra, rest);
    CongruenceTwice(h, b.f, b.p);
    MulAssoc(h, b.f, b.x);
  }

  /** What predict computes: the moments of the linear map, whatever the scaling constants. */
  lemma PredictsMoments(s: Setup, e: Estimate, dt: real)
    requires s.Valid() && FitsEstimate(s.n, e) && IsRoot(s, s.cholesky(Scaled(s, e.p)), e.p)
    ensures var f := s.transfer(e.x, dt);
            && Predicted(s, e, dt).0 == Estimate(E.Wrapped(s.lib, Mul(f, e.x)), Add(Congruence(f, e.p), Scale(dt, s.q)))
            && Backs(s, Base(f, e.x, s.cholesky(Scaled(s, e.p)), e.p), Predicted(s, e, dt).1.sigmaPoints)
  {
    hide Mul, Transpose, Scale, Congruence, SigmaPoints, Weights, WeightedSum, Cross, CentreWeight, SideWeight, Add,
      E.Wrapped;
    var n := s.n;
    var f := s.transfer(e.x, dt);
    var l := s.cholesky(Scaled(s, e.p));
    var (first, extra, rest) := (CentreWeight(n, s.t.lambda), s.t.covarWeights[0], SideWeight(n, s.t.lambda));
    WeightsSumToOne(n, s.t.lambda);
    MeanIsExact(f, e.x, l, first, rest);
    SpreadIsExact(f, e.x, l, e.p, n as real + s.t.lambda, extra, rest);
  }

  /** New points stand for the filter's own state and covariance. */
  lemma NewPointsBack(s: Setup, e: Estimate)
    requires s.Valid() && FitsEstimate(s.n, e) && IsRoot(s, s.cholesky(Scaled(s, e.p)), e.p)
    ensures var b := Base(Identity(s.n), e.x, s.cholesky(Scaled(s, e.p)), e.p);
            Backs(s, b, Used(s, e, Cache(Blank(s.n), false))) && b.Mean() == e.x && b.Covariance() == e.p
  {
    hide Mul, SigmaPoints, Identity;
    MulIdentity(e.x);
    MulIdentity(e.p);
    TransposeIdentity(s.n);
  }

  // ---------------------------------------------------------------------------------------------
  // What the correction does to the covariance

  lemma CongruenceAdd(k: Matrix, a: Matrix, b: Matrix)
    requires a.rows == a.cols == b.rows == b.cols == k.cols
    ensures Congruence(k, Add(a, b)) == Add(Congruence(k, a), Congruence(k, b))
  {
    hide Mul, Add, Transpose;
    MulAddRight(k, a, b);
    MulAddLeft(Mul(k, a), Mul(k, b), Transpose(k));
  }

  /** Subtracting K P_zz Kᵀ is the Joseph update of what the points stand for, plus K R Kᵀ, plus whatever the
      filter's covariance exceeds theirs by. */
  lemma UpdateIsJoseph(p: Matrix, p0: Matrix, k: Matrix, h: Matrix, r: Matrix)
    requires p.rows == p.cols == p0.rows == p0.cols == k.rows == h.cols && k.cols == h.rows == r.rows == r.cols
    requires Symmetric(p0) && Symmetric(r)
    requires Mul(k, InnovationCovariance(p0, h, r)) == Mul(p0, Transpose(h))
    ensures Sub(p, Congruence(k, Congruence(h, p0))) == Add(Add(Joseph(p0, k, h, r), Congruence(k, r)), Sub(p, p0))
  {
    hide Mul, Add, Sub, Transpose, Congruence, Joseph, Symmetric, At;
    JosephIsTextbook(p0, k, h, r);
    InnovationIsSymmetric(p0, h, r);
    CongruenceAdd(k, Congruence(h, p0), r);
    Regroup(p, p0, Congruence(k, Congruence(h, p0)), Congruence(k, r));
  }

  lemma Regroup(p: Matrix, p0: Matrix, a: Matrix, b: Matrix)
    requires p.rows == p.cols == p0.rows == p0.cols == a.rows == a.cols == b.rows == b.cols
    ensures Sub(p, a) == Add(Add(Sub(p0, Add(a, b)), b), Sub(p, p0))
  {
    hide At, Add, Sub;
    var right := Add(Add(Sub(p0, Add(a, b)), b), Sub(p, p0));
    forall i: nat, j: nat | i < p.rows && j < p.rows
      ensures At(Sub(p, a), i, j) == At(right, i, j)
    {
      AddEntry(p, a, i, j);
      AddEntry(a, b, i, j);
      AddEntry(p0, Add(a, b), i, j);
      AddEntry(Sub(p0, Add(a, b)), b, i, j);
      AddEntry(p, p0, i, j);
      AddEntry(Add(Sub(p0, Add(a, b)), b), Sub(p, p0), i, j);
    }
    Same(Sub(p, a), right);
  }

  /** So it is a covariance. */
  lemma UpdateIsCovariance(p: Matrix, p0: Matrix, k: Matrix, h: Matrix, r: Matrix)
    requires p.rows == p.cols == p0.rows == k.rows == h.cols && k.cols == h.rows == r.rows
    requires IsCovariance(p0) && IsCovariance(r) && IsCovariance(Sub(p, p0))
    requires Mul(k, InnovationCovariance(p0, h, r)) == Mul(p0, Transpose(h))
    ensures IsCovariance(Sub(p, Congruence(k, Congruence(h, p0))))
  {
    hide Mul, Add, Sub, Transpose, Congruence, Joseph, NonNegative, InnovationCovariance;
    UpdateIsJoseph(p, p0, k, h, r);
    JosephIsCovariance(p0, k, h, r);
    CongruenceIsCovariance(k, r);
    SumIsCovariance(Joseph(p0, k, h, r), Congruence(k, r));
    SumIsCovariance(Add(Joseph(p0, k, h, r), Congruence(k, r)), Sub(p, p0));
  }

  /** The filter trusts a measurement less than the best linear filter does: with fresh points, it keeps
      exactly the variance K R Kᵀ more, and it is the best one exactly if that is zero. */
  lemma UpdateIsBestIff(p: Matrix, k: Matrix, h: Matrix, r: Matrix)
    requires p.rows == p.cols == k.rows == h.cols && k.cols == h.rows == r.rows == r.cols
    requires Symmetric(p) && Symmetric(r)
    requires Mul(k, InnovationCovariance(p, h, r)) == Mul(p, Transpose(h))
    ensures var after := Sub(p, Congruence(k, Congruence(h, p)));
            && after == Add(Joseph(p, k, h, r), Congruence(k, r))
            && (after == Joseph(p, k, h, r) <==> Congruence(k, r) == Zero(p.rows, p.rows))
  {
    hide Mul, Transpose, Congruence, Joseph, Symmetric, InnovationCovariance, At;
    UpdateIsJoseph(p, p, k, h, r);
    var (best, extra) := (Joseph(p, k, h, r), Congruence(k, r));
    SubSelf(p);
    AddZero(Add(best, extra));
    AddZero(best);
    SubAdd(best, extra, extra);
    SubSelf(best);
  }

  lemma SubSelf(a: Matrix)
    ensures Sub(a, a) == Zero(a.rows, a.cols)
  {
    Same(Sub(a, a), Zero(a.rows, a.cols));
  }

  lemma AddZero(a: Matrix)
    ensures Add(a, Zero(a.rows, a.cols)) == a
  {
    Same(Add(a, Zero(a.rows, a.cols)), a);
  }

  function Scalar(v: real): Matrix {
    Build(1, 1, (i: nat, j: nat) => v)
  }

  lemma ScalarMul(a: real, b: real)
    ensures Mul(Scalar(a), Scalar(b)) == Scalar(a * b)
  {
    SumOne(1, 0, Terms(Scalar(a), Scalar(b), 0, 0));
    Same(Mul(Scalar(a), Scalar(b)), Scalar(a * b));
  }

  lemma ScalarTranspose(a: real)
    ensures Transpose(Scalar(a)) == Scalar(a)
  {
    Same(Transpose(Scalar(a)), Scalar(a));
  }

  lemma ScalarAdd(a: real, b: real)
    ensures Add(Scalar(a), Scalar(b)) == Scalar(a + b)
  {
    Same(Add(Scalar(a), Scalar(b)), Scalar(a + b));
  }

  /** One variable of variance 1, measured with variance 1: the gain is a half, and the variance left is
      three quarters instead of a half. */
  lemma UpdateMayKeepMore()
    ensures var (p, k, h, r) := (Scalar(1.0), Scalar(0.5), Scalar(1.0), Scalar(1.0));
            && Symmetric(p) && Symmetric(r) && Mul(k, InnovationCovariance(p, h, r)) == Mul(p, Transpose(h))
            && Congruence(k, r) == Scalar(0.25) && Sub(p, Congruence(k, Congruence(h, p))) != Joseph(p, k, h, r)
  {
    hide Mul, Transpose, Add, Joseph, Sub;
    ScalarTranspose(1.0);
    ScalarTranspose(0.5);
    ScalarMul(1.0, 1.0);
    ScalarAdd(1.0, 1.0);
    ScalarMul(0.5, 2.0);
    ScalarMul(0.5, 1.0);
    ScalarMul(0.5, 0.5);
    assert At(Scalar(0.25), 0, 0) == 0.25 && At(Zero(1, 1), 0, 0) == 0.0;
    UpdateIsBestIff(Scalar(1.0), Scalar(0.5), Scalar(1.0), Scalar(1.0));
  }

  /** And no direction ever becomes less certain. */
  lemma UpdateNeverInflates(p: Matrix, p0: Matrix, k: Matrix, h: Matrix, x: Matrix)
    requires p.rows == p.cols == p0.rows == k.rows == h.cols && k.cols == h.rows
    requires IsCovariance(p0) && IsVector(x, p.rows)
    ensures Quad(Sub(p, Congruence(k, Congruence(h, p0))), x) <= Quad(p, x)
  {
    hide Congruence, Quad, Add, Scale;
    CongruenceIsCovariance(h, p0);
    CongruenceIsCovariance(k, Congruence(h, p0));
    var less := Congruence(k, Congruence(h, p0));
    QuadAdd(p, Scale(-1.0, less), x);
    QuadScale(-1.0, less, x);
  }

  // ---------------------------------------------------------------------------------------------
  // The covariance in every run

  /** The unscented filter as the inner filter of the cycle. */
  ghost function UkfDynamics(s: Setup): Dynamics
    requires s.Valid()
  {
    Dynamics(
      (e: Estimate, time: int, delta: int) =>
        if FitsEstimate(s.n, e) then Predicted(s, e, E.Seconds(delta)) else (e, Cache([], true)),
      (e: Estimate, c: Cache, m: Measurement) =>
        if FitsEstimate(s.n, e) && FitPoints(s.n, c.sigmaPoints) && E.FitsMeasurement(s.n, m) then Corrected(s, e, c, m)
        else (e, c),
      (e: Estimate, m: Measurement) =>
        if FitsEstimate(s.n, e) && E.FitsMeasurement(s.n, m) then First(e, m) else e)
  }

  /** The first measurement, as in any filter of this base. */
  function First(e: Estimate, m: Measurement): Estimate {
    var measured := E.Measured(m.payload.update);
    Estimate(E.FirstState(e.x, m.payload.z, measured), Initialized(e.p, m.payload.covariance, measured))
  }

  /** The points stand for a covariance that the filter's own exceeds by a covariance. */
  ghost predicate Explains(s: Setup, b: Base, p: Matrix, points: seq<Matrix>) {
    && Backs(s, b, points) && p.rows == p.cols == s.n
    && IsCovariance(b.Covariance()) && IsCovariance(Sub(p, b.Covariance()))
  }

  /** The estimate holds a covariance, and unused points stand for part of it. */
  ghost predicate Sound(s: Setup, e: Estimate, c: Cache) {
    && Ready(s, e, c) && IsCovariance(e.p)
    && (c.uncorrected ==> exists b :: Explains(s, b, e.p, c.sigmaPoints))
  }

  /** The factor taken of a covariance is its root. */
  ghost predicate Roots(s: Setup, p: Matrix) {
    p.rows == p.cols && IsRoot(s, s.cholesky(Scaled(s, p)), p)
  }

  ghost predicate Inverts(s: Setup, a: Matrix)
    requires s.Valid() && a.rows == a.cols
  {
    Mul(s.lib.inverse(a), a) == Identity(a.rows)
  }

  /** P_zz + R, the matrix a correction inverts. */
  ghost function ToInvert(s: Setup, e: Estimate, c: Cache, m: Measurement): (a: Matrix)
    requires Ready(s, e, c) && E.FitsMeasurement(s.n, m)
    ensures a.rows == a.cols
  {
    var indices := E.Indices(m.payload.update);
    Add(Expects(s.t, E.Selection(indices, s.n), e.x, Used(s, e, c)).pzz, Noise(m.payload.covariance, indices))
  }

  /** The factor and the inverse that a correction asks for are right. */
  ghost predicate Solves(s: Setup, e: Estimate, c: Cache, m: Measurement)
    requires Ready(s, e, c) && E.FitsMeasurement(s.n, m)
  {
    (c.uncorrected || Roots(s, e.p)) && Inverts(s, ToInvert(s, e, c, m))
  }

  ghost predicate Fits(s: Setup, m: Measurement) {
    E.FitsMeasurement(s.n, m) && IsCovariance(m.payload.covariance)
  }

  lemma PredictKeepsCovariance(s: Setup, e: Estimate, dt: real)
    requires s.Valid() && FitsEstimate(s.n, e) && IsCovariance(e.p) && IsCovariance(s.q) && 0.0 <= dt && Roots(s, e.p)
    ensures var (e', c') := Predicted(s, e, dt); Sound(s, e', c')
  {
    hide IsCovariance, Predicted, Roots, Tuned, Explains;
    var b := PredictedAreExplained(s, e, dt);
  }

  lemma PredictedAreExplained(s: Setup, e: Estimate, dt: real) returns (b: Base)
    requires s.Valid() && FitsEstimate(s.n, e) && IsCovariance(e.p) && IsCovariance(s.q) && 0.0 <= dt && Roots(s, e.p)
    ensures var (e', c') := Predicted(s, e, dt); IsCovariance(e'.p) && Explains(s, b, e'.p, c'.sigmaPoints)
  {
    PredictsMoments(s, e, dt);
    hide IsRoot, Add, Scale, Congruence, IsCovariance, Predicted, Backs, E.Wrapped, Tuned, Explains, FitPoints, Mul;
    b := Base(s.transfer(e.x, dt), e.x, s.cholesky(Scaled(s, e.p)), e.p);
    NoiseExplains(s, b, dt, Predicted(s, e, dt).0.p, Predicted(s, e, dt).1.sigmaPoints);
  }

  /** The process noise is what the filter's covariance exceeds that of the points by. */
  lemma NoiseExplains(s: Setup, b: Base, dt: real, p: Matrix, points: seq<Matrix>)
    requires s.Valid() && Backs(s, b, points) && IsCovariance(b.p) && IsCovariance(s.q) && 0.0 <= dt
    requires p == Add(Congruence(b.f, b.p), Scale(dt, s.q))
    ensures IsCovariance(p) && Explains(s, b, p, points)
  {
    CongruenceIsCovariance(b.f, b.p);
    hide IsRoot, Add, Sub, Scale, Congruence, IsCovariance, SigmaPoints, Tuned;
    NoiseOnTop(Congruence(b.f, b.p), s.q, dt);
  }

  lemma NoiseOnTop(p: Matrix, q: Matrix, dt: real)
    requires IsCovariance(p) && IsCovariance(q) && p.rows == q.rows && 0.0 <= dt
    ensures IsCovariance(Add(p, Scale(dt, q))) && IsCovariance(Sub(Add(p, Scale(dt, q)), p))
  {
    hide Add, Scale, Sub, NonNegative;
    ScaledIsCovariance(dt, q);
    SumIsCovariance(p, Scale(dt, q));
    SubAdd(p, Scale(dt, q), q);
  }

  /** A correction keeps a covariance, accepted or gated out, from old points or new ones. */
  lemma CorrectKeepsCovariance(s: Setup, e: Estimate, c: Cache, m: Measurement)
    requires Sound(s, e, c) && Fits(s, m) && Solves(s, e, c, m)
    ensures var (e', c') := Corrected(s, e, c, m); Sound(s, e', c')
  {
    hide IsCovariance, Explains, Corrected, Used, Tuned, Roots, Inverts, ToInvert;
    var b := UsedAreExplained(s, e, c);
    hide Solves;
    CorrectFrom(s, e, c, m, b);
    var (e', c') := Corrected(s, e, c, m);
    assert c'.uncorrected ==> Explains(s, b, e'.p, c'.sigmaPoints);
  }

  /** What a correction computed from its points is the view H has of a covariance `p0` within `p`. */
  ghost predicate Views(n: nat, h: Matrix, p: Matrix, p0: Matrix, w: Expected) {
    && FitsExpected(n, h.rows, w) && h.cols == p.rows == p.cols == p0.rows == p0.cols == n
    && IsCovariance(p0) && IsCovariance(Sub(p, p0))
    && w.pzz == Congruence(h, p0) && w.pxz == Mul(p0, Transpose(h))
  }

  lemma ExpectsViews(s: Setup, b: Base, p: Matrix, h: Matrix, x: Matrix, points: seq<Matrix>)
    requires s.Valid() && Explains(s, b, p, points) && FitPoints(s.n, points) && h.cols == s.n && IsVector(x, s.n)
    ensures |points| == |s.t.stateWeights| == |s.t.covarWeights|
    ensures b.Fits(s.n) && b.x.rows == s.n && Views(s.n, h, p, b.Covariance(), Expects(s.t, h, x, points))
  {
    ExplainsFits(s, b, p, points);
    TunedSizes(s.n, s.t);
    hide IsCovariance, Expects, Sub, Mul, Congruence, Transpose, Tuned, Explains, Backs;
    ExpectsMoments(s, b, h, x, points);
  }

  lemma CorrectFrom(s: Setup, e: Estimate, c: Cache, m: Measurement, b: Base)
    requires Ready(s, e, c) && IsCovariance(e.p)
    requires Fits(s, m) && Solves(s, e, c, m) && Explains(s, b, e.p, Used(s, e, c))
    ensures var (e', c') := Corrected(s, e, c, m);
            IsCovariance(e'.p) && (c'.uncorrected ==> c.uncorrected && e' == e && c'.sigmaPoints == Used(s, e, c))
  {
    var indices := E.Indices(m.payload.update);
    hide IsCovariance, Expects, E.Selection, E.Indices, Noise, Add, Tuned, Explains, Update, Used, Roots, Inverts,
      Views;
    var (h, points) := (E.Selection(indices, s.n), Used(s, e, c));
    ExpectsViews(s, b, e.p, h, e.x, points);
    NoiseIsCovariance(m.payload.covariance, indices);
    UpdatedIsCovariance(s, e, c, points, Expects(s.t, h, e.x, points), m, h, b.Covariance());
  }

  lemma ExplainsFits(s: Setup, b: Base, p: Matrix, points: seq<Matrix>)
    requires Explains(s, b, p, points)
    ensures Backs(s, b, points) && b.Fits(s.n) && b.x.rows == s.n && p.rows == p.cols == s.n
    ensures IsCovariance(b.Covariance()) && IsCovariance(Sub(p, b.Covariance()))
  {
    hide IsCovariance, IsRoot, SigmaPoints;
  }

  lemma UpdatedIsCovariance(
    s: Setup, e: Estimate, c: Cache, points: seq<Matrix>, w: Expected, m: Measurement, h: Matrix, p0: Matrix)
    requires Ready(s, e, c) && FitPoints(s.n, points) && E.FitsMeasurement(s.n, m) && IsCovariance(e.p)
    requires h.rows == |E.Indices(m.payload.update)| && Views(s.n, h, e.p, p0, w)
    requires var r := Noise(m.payload.covariance, E.Indices(m.payload.update));
             IsCovariance(r) && FitsExpected(s.n, r.rows, w) && Inverts(s, Add(w.pzz, r))
    ensures var (e', c') := Update(s, e, c, points, w, m);
            IsCovariance(e'.p) && (c'.uncorrected ==> c.uncorrected && e' == e && c'.sigmaPoints == points)
  {
    hide NonNegative, E.Wrapped, Innovation, E.Accepts, Noise, Add, Sub, Mul, Congruence, Transpose, Tuned, E.Indices;
    var r := Noise(m.payload.covariance, E.Indices(m.payload.update));
    GainUpdates(e.p, p0, h, r, s.lib.inverse(Add(w.pzz, r)));
  }

  lemma GainUpdates(p: Matrix, p0: Matrix, h: Matrix, r: Matrix, inverse: Matrix)
    requires IsCovariance(p0) && IsCovariance(r) && p.rows == p.cols == p0.rows == h.cols
    requires r.rows == h.rows == inverse.rows == inverse.cols && IsCovariance(Sub(p, p0))
    requires Mul(inverse, Add(Congruence(h, p0), r)) == Identity(h.rows)
    ensures IsCovariance(Sub(p, Congruence(Mul(Mul(p0, Transpose(h)), inverse), Congruence(h, p0))))
  {
    Innovations(p0, h, r);
    hide Mul, Transpose, Add, Sub, Congruence, NonNegative, InnovationCovariance;
    GainSolves(p0, h, r, inverse);
    UpdateIsCovariance(p, p0, Mul(Mul(p0, Transpose(h)), inverse), h, r);
  }

  lemma Innovations(p: Matrix, h: Matrix, r: Matrix)
    requires IsCovariance(p) && IsCovariance(r) && p.rows == h.cols && r.rows == h.rows
    ensures InnovationCovariance(p, h, r) == Add(Congruence(h, p), r)
  {
    InnovationIsSymmetric(p, h, r);
  }

  lemma UsedAreExplained(s: Setup, e: Estimate, c: Cache) returns (b: Base)
    requires Sound(s, e, c) && (c.uncorrected || Roots(s, e.p))
    ensures Explains(s, b, e.p, Used(s, e, c))
  {
    hide IsCovariance, SigmaPoints, IsRoot, Tuned, Backs, Congruence, Sub;
    if c.uncorrected {
      b :| Explains(s, b, e.p, c.sigmaPoints);
    } else {
      b := Base(Identity(s.n), e.x, s.cholesky(Scaled(s, e.p)), e.p);
      NewPointsBack(s, e);
      SubSelf(e.p);
      ZeroIsCovariance(s.n);
    }
  }

  lemma ZeroIsCovariance(n: nat)
    ensures IsCovariance(Zero(n, n))
  {
    var zero := (i: nat) => 0.0;
    Same(Zero(n, n), Diagonal(n, zero));
    DiagonalIsCovariance(n, zero);
  }

  /** The points of a filter that has never predicted stand for nothing at all. */
  lemma BlankBacks(s: Setup)
    ensures var b := Base(Zero(s.n, s.n), Zero(s.n, 1), Zero(s.n, s.n), Zero(s.n, s.n));
            && Backs(s, b, Blank(s.n)) && b.Mean() == Zero(s.n, 1) && b.Covariance() == Zero(s.n, s.n)
  {
    hide Mul, Add, Scale, Sub, Transpose;
    var n := s.n;
    var (z, x) := (Zero(n, n), Zero(n, 1));
    MulZero(z, z);
    MulZero(z, Transpose(z));
    ScaleZero(n as real + s.t.lambda, n, n);
    var points := SigmaPoints(z, x, z);
    forall k | 0 <= k < 2 * n + 1
      ensures points[k] == Blank(n)[k]
    {
      var y := if k == 0 then x else if k <= n then Add(x, Column(z, k - 1)) else Sub(x, Column(z, k - 1 - n));
      MulZero(z, y);
    }
    MulZero(z, x);
  }

  lemma MulZero(a: Matrix, b: Matrix)
    requires a.cols == b.rows
    ensures a == Zero(a.rows, a.cols) || b == Zero(b.rows, b.cols) ==> Mul(a, b) == Zero(a.rows, b.cols)
  {
    if a == Zero(a.rows, a.cols) || b == Zero(b.rows, b.cols) {
      forall i: nat, j: nat | i < a.rows && j < b.cols
        ensures At(Mul(a, b), i, j) == 0.0
      {
        SumZero(a.cols, Terms(a, b, i, j));
      }
      Same(Mul(a, b), Zero(a.rows, b.cols));
    }
  }

  lemma ScaleZero(c: real, m: nat, n: nat)
    ensures Scale(c, Zero(m, n)) == Zero(m, n)
  {
    Same(Scale(c, Zero(m, n)), Zero(m, n));
  }

  lemma BlankIsSound(s: Setup, e: Estimate)
    requires Ready(s, e, Cache(Blank(s.n), true)) && IsCovariance(e.p)
    ensures Sound(s, e, Cache(Blank(s.n), true))
  {
    hide IsCovariance, Sub, Zero, Backs, Tuned;
    var b := Base(Zero(s.n, s.n), Zero(s.n, 1), Zero(s.n, s.n), Zero(s.n, s.n));
    BlankBacks(s);
    ZeroIsCovariance(s.n);
    SubZero(e.p);
    assert Explains(s, b, e.p, Blank(s.n));
  }

  lemma SubZero(a: Matrix)
    ensures Sub(a, Zero(a.rows, a.cols)) == a
  {
    Same(Sub(a, Zero(a.rows, a.cols)), a);
  }

  ghost predicate Keeps(s: Setup, f: Filter) {
    && Sound(s, f.estimate, f.cache)
    && (!f.initialized ==> f.estimate.p == E.Fresh(s.n).p && f.cache == Cache(Blank(s.n), true))
  }

  /** What the filter holds when it comes to correct. */
  ghost function Ahead(s: Setup, f: Filter, m: Measurement): (r: (Estimate, Cache))
    requires Ready(s, f.estimate, f.cache)
    ensures Ready(s, r.0, r.1)
  {
    if m.time > f.last then Predicted(s, f.estimate, E.Seconds(m.time - f.last)) else (f.estimate, f.cache)
  }

  /** Every factor and inverse that processing a measurement asks for is right. */
  ghost predicate Trusted(s: Setup, f: Filter, m: Measurement) {
    && Ready(s, f.estimate, f.cache) && Fits(s, m)
    && (f.initialized ==>
          && (m.time > f.last ==> Roots(s, f.estimate.p))
          && Solves(s, Ahead(s, f, m).0, Ahead(s, f, m).1, m))
  }

  ghost predicate AllTrusted(s: Setup, f: Filter, ms: seq<Measurement>)
    requires s.Valid()
  {
    ms != [] ==>
      && AllTrusted(s, f, ms[..|ms| - 1])
      && Trusted(s, Fold(UkfDynamics(s), f, ms[..|ms| - 1]), ms[|ms| - 1])
  }

  lemma StepIs(s: Setup, f: Filter, m: Measurement)
    requires s.Valid() && Ready(s, f.estimate, f.cache) && E.FitsMeasurement(s.n, m)
    ensures var g := Step(UkfDynamics(s), f, m);
            && g.initialized
            && (g.estimate, g.cache) ==
               if f.initialized then Corrected(s, Ahead(s, f, m).0, Ahead(s, f, m).1, m)
               else (First(f.estimate, m), f.cache)
  {
    hide Predicted, Corrected, First, Tuned;
  }

  lemma FirstKeeps(s: Setup, e: Estimate, m: Measurement)
    requires Ready(s, e, Cache(Blank(s.n), true)) && e.p == E.Fresh(s.n).p && Fits(s, m)
    ensures Sound(s, First(e, m), Cache(Blank(s.n), true))
  {
    hide IsCovariance, E.FirstState, Initialized, E.Fresh, Uncoupled, Sound, Tuned;
    E.FreshIsCovariance(s.n);
    E.FreshIsUncoupled(s.n, E.Measured(m.payload.update));
    InitializedIsCovariance(e.p, m.payload.covariance, E.Measured(m.payload.update));
    BlankIsSound(s, First(e, m));
  }

  lemma AheadIsSound(s: Setup, f: Filter, m: Measurement)
    requires IsCovariance(s.q) && Sound(s, f.estimate, f.cache) && (m.time > f.last ==> Roots(s, f.estimate.p))
    ensures Sound(s, Ahead(s, f, m).0, Ahead(s, f, m).1)
  {
    hide IsCovariance, Predicted, Tuned, Explains, Roots;
    if m.time > f.last {
      PredictKeepsCovariance(s, f.estimate, E.Seconds(m.time - f.last));
    }
  }

  lemma StepKeeps(s: Setup, f: Filter, m: Measurement)
    requires s.Valid() && IsCovariance(s.q) && Keeps(s, f) && Trusted(s, f, m)
    ensures Keeps(s, Step(UkfDynamics(s), f, m))
  {
    SoundIsReady(s, f.estimate, f.cache);
    StepIs(s, f, m);
    hide IsCovariance, Ahead, Corrected, First, Tuned, E.Fresh, UkfDynamics, Step, Sound, Ready, Solves, Roots;
    if f.initialized {
      LaterKeeps(s, f, m);
    } else {
      FirstKeeps(s, f.estimate, m);
    }
  }

  lemma LaterKeeps(s: Setup, f: Filter, m: Measurement)
    requires IsCovariance(s.q) && Sound(s, f.estimate, f.cache) && f.initialized && Trusted(s, f, m)
    ensures var c := Corrected(s, Ahead(s, f, m).0, Ahead(s, f, m).1, m); Sound(s, c.0, c.1)
  {
    hide IsCovariance, Ahead, Corrected, Tuned, Solves, Roots, Sound, Ready, Fits;
    AheadIsSound(s, f, m);
    CorrectKeepsCovariance(s, Ahead(s, f, m).0, Ahead(s, f, m).1, m);
  }

  lemma SoundIsReady(s: Setup, e: Estimate, c: Cache)
    requires Sound(s, e, c)
    ensures Ready(s, e, c) && s.Valid() && IsCovariance(e.p)
  {
    hide IsCovariance, Explains;
  }

  lemma {:induction false} FoldKeeps(s: Setup, f: Filter, ms: seq<Measurement>)
    requires s.Valid() && IsCovariance(s.q) && Keeps(s, f) && AllTrusted(s, f, ms)
    ensures Keeps(s, Fold(UkfDynamics(s), f, ms))
    decreases |ms|
  {
    hide IsCovariance, Keeps, Trusted, UkfDynamics, Step;
    if ms != [] {
      FoldKeeps(s, f, ms[..|ms| - 1]);
      StepKeeps(s, Fold(UkfDynamics(s), f, ms[..|ms| - 1]), ms[|ms| - 1]);
    }
  }

  lemma FreshKeeps(s: Setup)
    requires s.Valid()
    ensures Keeps(s, Fresh(s.n))
  {
    E.FreshIsCovariance(s.n);
    hide IsCovariance, E.Fresh, Sound, Tuned;
    BlankIsSound(s, Fresh(s.n).estimate);
  }

  /** From a new filter on, the covariance stays symmetric positive semidefinite whatever the measurements and
      the order of their stamps, as long as every factor and inverse asked for is right. */
  lemma FreshRunKeepsCovariance(s: Setup, ms: seq<Measurement>)
    requires s.Valid() && IsCovariance(s.q) && AllTrusted(s, Fresh(s.n), ms)
    ensures IsCovariance(Fold(UkfDynamics(s), Fresh(s.n), ms).estimate.p)
  {
    hide IsCovariance, Fresh, UkfDynamics, Fold, AllTrusted, Sound, Tuned;
    FreshKeeps(s);
    FoldKeeps(s, Fresh(s.n), ms);
    var f := Fold(UkfDynamics(s), Fresh(s.n), ms);
    SoundIsReady(s, f.estimate, f.cache);
  }

  // ---------------------------------------------------------------------------------------------
  // A second measurement with the first stamp

  lemma BlankExpects(s: Setup, h: Matrix, x: Matrix)
    requires s.Valid() && h.cols == s.n && IsVector(x, s.n)
    ensures |s.t.stateWeights| == |s.t.covarWeights| == 2 * s.n + 1
    ensures Expects(s.t, h, x, Blank(s.n)) == Expected(Zero(h.rows, 1), Zero(h.rows, h.rows), Zero(s.n, h.rows))
  {
    TunedSizes(s.n, s.t);
    var b := Base(Zero(s.n, s.n), Zero(s.n, 1), Zero(s.n, s.n), Zero(s.n, s.n));
    BlankBacks(s);
    hide Mul, Transpose, Expects, Backs, Tuned, Zero;
    ExpectsMoments(s, b, h, x, Blank(s.n));
    MulZero(h, Zero(s.n, 1));
    MulZero(h, Zero(s.n, s.n));
    MulZero(Zero(h.rows, s.n), Transpose(h));
    MulZero(Zero(s.n, s.n), Transpose(h));
  }

  /** Until the first prediction a correction has no effect, except that it may wrap the angles. */
  lemma CorrectBeforePredict(s: Setup, e: Estimate, m: Measurement)
    requires Ready(s, e, Cache(Blank(s.n), true)) && E.FitsMeasurement(s.n, m)
    ensures var e' := Corrected(s, e, Cache(Blank(s.n), true), m).0;
            e'.p == e.p && (e'.x == e.x || e'.x == E.Wrapped(s.lib, e.x))
  {
    var indices := E.Indices(m.payload.update);
    var h := E.Selection(indices, s.n);
    var (e', c) := (Corrected(s, e, Cache(Blank(s.n), true), m).0, Cache(Blank(s.n), true));
    BlankExpects(s, h, e.x);
    NothingToUpdate(s, e, c, m);
  }

  lemma NothingToUpdate(s: Setup, e: Estimate, c: Cache, m: Measurement)
    requires Ready(s, e, c) && E.FitsMeasurement(s.n, m)
    ensures var k := |E.Indices(m.payload.update)|;
            var e' := Update(s, e, c, c.sigmaPoints, Expected(Zero(k, 1), Zero(k, k), Zero(s.n, k)), m).0;
            e'.p == e.p && (e'.x == e.x || e'.x == E.Wrapped(s.lib, e.x))
  {
    hide Mul, Add, Sub, Transpose, Zero, Tuned, Noise, E.Wrapped, E.Accepts, Innovation, E.Indices;
    var indices := E.Indices(m.payload.update);
    var n := |indices|;
    var inverse := s.lib.inverse(Add(Zero(n, n), Noise(m.payload.covariance, indices)));
    var v := Innovation(s.lib, m.payload.z, Zero(n, 1), indices);
    MulZero(Zero(s.n, n), inverse);
    MulZero(Zero(s.n, n), v);
    MulZero(Zero(s.n, n), Zero(n, n));
    MulZero(Zero(s.n, n), Transpose(Zero(s.n, n)));
    AddZero(e.x);
    SubZero(e.p);
  }

  /** A new filter after one measurement. */
  ghost function Once(s: Setup, a: Measurement): Filter
    requires s.Valid() && E.FitsMeasurement(s.n, a)
    ensures Ready(s, Once(s, a).estimate, Once(s, a).cache)
  {
    Filter(First(Fresh(s.n).estimate, a), Cache(Blank(s.n), true), a.time, true)
  }

  lemma OnceIsFirstStep(s: Setup, a: Measurement)
    requires s.Valid() && E.FitsMeasurement(s.n, a)
    ensures Once(s, a) == Step(UkfDynamics(s), Fresh(s.n), a)
  {
    hide Tuned;
  }

  /** The next measurement changes nothing, except that it may wrap the angles. */
  ghost predicate Ignores(s: Setup, a: Measurement, b: Measurement)
    requires s.Valid() && E.FitsMeasurement(s.n, a)
  {
    var (one, two) := (Once(s, a).estimate, Step(UkfDynamics(s), Once(s, a), b).estimate);
    two.p == one.p && (two.x == one.x || two.x == E.Wrapped(s.lib, one.x))
  }

  lemma SecondIs(s: Setup, a: Measurement, b: Measurement)
    requires s.Valid() && E.FitsMeasurement(s.n, a) && E.FitsMeasurement(s.n, b)
    ensures var (e, c) := Ahead(s, Once(s, a), b);
            Step(UkfDynamics(s), Once(s, a), b).estimate == Corrected(s, e, c, b).0
  {
    StepIs(s, Once(s, a), b);
    hide Corrected, Ahead, UkfDynamics, Step, Tuned, First, Ready;
  }

  lemma NotLaterIsIgnored(s: Setup, a: Measurement, b: Measurement)
    requires s.Valid() && E.FitsMeasurement(s.n, a) && E.FitsMeasurement(s.n, b) && b.time <= a.time
    ensures Ignores(s, a, b)
  {
    SecondIs(s, a, b);
    var f := Once(s, a);
    assert Ahead(s, f, b) == (f.estimate, f.cache) && f.cache == Cache(Blank(s.n), true);
    hide Corrected, Ahead, Once, UkfDynamics, Step, Tuned, E.Wrapped, Blank, Ready, E.FitsMeasurement;
    CorrectBeforePredict(s, f.estimate, b);
  }

  /** One variable that stands still, without process noise; square roots and inverses are right where the
      example needs them. */
  function Still(): Setup {
    var weights := Weights(1, CentreWeight(1, 0.0), SideWeight(1, 0.0));
    Setup(1, E.Library((a: Matrix) => if a == Scalar(2.0) then Scalar(0.5) else a, (v: real) => v, (v: real) => v),
          (a: Matrix) => a, (x: Matrix, dt: real) => Identity(1), Zero(1, 1), Tuning(0.0, weights, weights))
  }

  /** It is measured as 0 with variance 1. */
  function Reading(t: int): Measurement {
    Measurement(t, Payload([true], Scalar(0.0), Scalar(1.0), 1.0))
  }

  lemma StillIsValid()
    ensures Still().Valid() && Still().n == 1
  {
  }

  lemma ReadingFits(t: int)
    ensures E.FitsMeasurement(1, Reading(t)) && Reading(t).time == t
  {
  }

  lemma IdentityIsScalar()
    ensures Identity(1) == Scalar(1.0) && Zero(1, 1) == Scalar(0.0)
  {
    Same(Identity(1), Scalar(1.0));
    Same(Zero(1, 1), Scalar(0.0));
  }

  lemma ScaleScalar(c: real, v: real)
    ensures Scale(c, Scalar(v)) == Scalar(c * v)
  {
    Same(Scale(c, Scalar(v)), Scalar(c * v));
  }

  /** The first reading sets state and variance. */
  lemma FirstReading(t: int)
    ensures First(Fresh(1).estimate, Reading(t)) == Estimate(Scalar(0.0), Scalar(1.0))
  {
    var e := First(Fresh(1).estimate, Reading(t));
    Same(e.x, Scalar(0.0));
    Same(e.p, Scalar(1.0));
  }

  /** Predicting changes neither, and the points stand for them. */
  lemma StillPredicts(dt: real)
    requires Still().Valid()
    ensures var s := Still();
            var e := Estimate(Scalar(0.0), Scalar(1.0));
            var p := Predicted(s, e, dt);
            p.0 == e && p.1.uncorrected && Backs(s, Base(Scalar(1.0), e.x, e.p, e.p), p.1.sigmaPoints)
  {
    var (s, e) := (Still(), Estimate(Scalar(0.0), Scalar(1.0)));
    hide Mul, Add, Scale, Transpose, SigmaPoints, SigmaPoint, Identity, Zero, Predicted, Tuned;
    IdentityIsScalar();
    ScalarTranspose(1.0);
    ScalarMul(1.0, 1.0);
    ScalarMul(1.0, 0.0);
    ScaleScalar(1.0, 1.0);
    ScaleScalar(dt, 0.0);
    ScalarAdd(1.0, 0.0);
    Same(E.Wrapped(s.lib, Scalar(0.0)), Scalar(0.0));
    PredictsMoments(s, e, dt);
  }

  lemma ReadingParts(t: int)
    ensures var m := Reading(t).payload; var indices := E.Indices(m.update);
            && indices == [0] && E.Selection(indices, 1) == Scalar(1.0) && Noise(m.covariance, indices) == Scalar(1.0)
            && Innovation(Still().lib, m.z, Scalar(0.0), indices) == Scalar(0.0)
  {
    assert [true][..0] == [];
    Same(E.Selection([0], 1), Scalar(1.0));
    Same(Noise(Scalar(1.0), [0]), Scalar(1.0));
    Same(Innovation(Still().lib, Scalar(0.0), Scalar(0.0), [0]), Scalar(0.0));
  }

  lemma StillExpects(points: seq<Matrix>)
    requires Still().Valid() && Backs(Still(), Base(Scalar(1.0), Scalar(0.0), Scalar(1.0), Scalar(1.0)), points)
    ensures |points| == |Still().t.stateWeights| == |Still().t.covarWeights| && FitPoints(1, points)
    ensures Expects(Still().t, Scalar(1.0), Scalar(0.0), points) == Expected(Scalar(0.0), Scalar(1.0), Scalar(1.0))
  {
    hide Mul, Transpose, Tuned, Expects;
    ScalarTranspose(1.0);
    ScalarMul(1.0, 1.0);
    ScalarMul(1.0, 0.0);
    ExpectsMoments(Still(), Base(Scalar(1.0), Scalar(0.0), Scalar(1.0), Scalar(1.0)), Scalar(1.0), Scalar(0.0), points);
  }

  lemma ReadingUpdates(t: int, c: Cache)
    requires Ready(Still(), Estimate(Scalar(0.0), Scalar(1.0)), c)
    ensures E.FitsMeasurement(1, Reading(t)) && |E.Indices(Reading(t).payload.update)| == 1
    ensures var w := Expected(Scalar(0.0), Scalar(1.0), Scalar(1.0));
            Update(Still(), Estimate(Scalar(0.0), Scalar(1.0)), c, c.sigmaPoints, w, Reading(t)).0.p == Scalar(0.75)
  {
    ReadingParts(t);
    StillInverts();
    HalfGain();
    hide Mul, Add, Sub, Transpose, Tuned, Noise, Innovation, E.Indices, E.Wrapped, Ready, FitPoints, FitsEstimate,
      Still, Congruence, Scalar;
  }

  lemma HalfGain()
    ensures Add(Scalar(1.0), Scalar(1.0)) == Scalar(2.0) && Mul(Scalar(1.0), Scalar(0.5)) == Scalar(0.5)
    ensures At(Mul(Transpose(Scalar(0.0)), Mul(Scalar(0.5), Scalar(0.0))), 0, 0) == 0.0
    ensures Sub(Scalar(1.0), Congruence(Scalar(0.5), Scalar(1.0))) == Scalar(0.75)
  {
    hide Mul, Add, Sub, Transpose;
    ScalarAdd(1.0, 1.0);
    ScalarMul(1.0, 0.5);
    ScalarTranspose(0.0);
    ScalarMul(0.5, 0.0);
    ScalarMul(0.0, 0.0);
    ScalarTranspose(0.5);
    ScalarMul(0.5, 1.0);
    ScalarMul(0.5, 0.5);
    ScalarSub(1.0, 0.25);
  }

  lemma StillInverts()
    ensures Still().lib.inverse(Scalar(2.0)) == Scalar(0.5)
  {
  }

  /** And the second reading then leaves three quarters of the variance. */
  lemma SecondReading(t: int, c: Cache)
    requires Ready(Still(), Estimate(Scalar(0.0), Scalar(1.0)), c) && c.uncorrected
    requires Backs(Still(), Base(Scalar(1.0), Scalar(0.0), Scalar(1.0), Scalar(1.0)), c.sigmaPoints)
    ensures E.FitsMeasurement(1, Reading(t))
    ensures Corrected(Still(), Estimate(Scalar(0.0), Scalar(1.0)), c, Reading(t)).0.p == Scalar(0.75)
  {
    ReadingParts(t);
    hide Tuned, E.Selection, Noise, Innovation, Expects, E.Indices, Update, Backs, FitPoints, Still, Scalar;
    StillExpects(c.sigmaPoints);
    ReadingUpdates(t, c);
  }

  lemma ScalarSub(a: real, b: real)
    ensures Sub(Scalar(a), Scalar(b)) == Scalar(a - b)
  {
    Same(Sub(Scalar(a), Scalar(b)), Scalar(a - b));
  }

  lemma LaterIsNotIgnored(t: int, u: int)
    requires t < u
    ensures Still().Valid() && !Ignores(Still(), Reading(t), Reading(u))
    ensures E.FitsMeasurement(1, Reading(t)) && E.FitsMeasurement(1, Reading(u))
  {
    var s := Still();
    StillIsValid();
    ReadingFits(t);
    ReadingFits(u);
    hide Corrected, Ahead, UkfDynamics, Step, Tuned, E.Wrapped, Backs, Still, Scalar, Once, Reading, E.FitsMeasurement,
      Ready, Base.Fits;
    SecondIs(s, Reading(t), Reading(u));
    AheadOfSecond(t, u);
    SecondReading(u, Ahead(s, Once(s, Reading(t)), Reading(u)).1);
    DifferentScalars(0.75, 1.0);
  }

  lemma DifferentScalars(a: real, b: real)
    requires a != b
    ensures Scalar(a) != Scalar(b)
  {
    assert At(Scalar(a), 0, 0) == a && At(Scalar(b), 0, 0) == b;
  }

  lemma AheadOfSecond(t: int, u: int)
    requires t < u && Still().Valid() && Still().n == 1
    requires E.FitsMeasurement(1, Reading(t)) && E.FitsMeasurement(1, Reading(u)) && Reading(u).time == u
    ensures Once(Still(), Reading(t)).estimate == Estimate(Scalar(0.0), Scalar(1.0))
    ensures var (e, c) := Ahead(Still(), Once(Still(), Reading(t)), Reading(u));
            && e == Estimate(Scalar(0.0), Scalar(1.0)) && c.uncorrected
            && Backs(Still(), Base(Scalar(1.0), Scalar(0.0), Scalar(1.0), Scalar(1.0)), c.sigmaPoints)
  {
    FirstReading(t);
    ReadingFits(t);
    hide Predicted, UkfDynamics, Step, Tuned, First, Fresh, Blank, Ready, Backs, Scalar, Still, Reading,
      E.FitsMeasurement;
    StillPredicts(E.Seconds(u - t));
  }

  /** A filter, and two measurements for it with these stamps. */
  ghost predicate Meet(s: Setup, a: Measurement, t: int, b: Measurement, u: int) {
    s.Valid() && E.FitsMeasurement(s.n, a) && E.FitsMeasurement(s.n, b) && a.time == t && b.time == u
  }

  /** So a second measurement is ignored, whatever the filter and whatever is measured, exactly if its stamp
      is not later than the first. */
  lemma SecondIsIgnoredIff(t: int, u: int)
    ensures (forall s: Setup, a, b :: Meet(s, a, t, b, u) ==> Ignores(s, a, b)) <==> u <= t
  {
    hide Ignores;
    if u <= t {
      forall s: Setup, a, b | Meet(s, a, t, b, u)
        ensures Ignores(s, a, b)
      {
        NotLaterIsIgnored(s, a, b);
      }
    } else {
      LaterIsNotIgnored(t, u);
      assert Meet(Still(), Reading(t), t, Reading(u), u);
    }
  }
}
