/** The unscented Kalman filter (ukf.cpp), changed in place, proved against definitions on values.
    UkfProof.dfy holds what these definitions give.

    The transfer matrix is a parameter: an arbitrary function of the state and the time step. */
module Ukfs {
  import opened LinearAlgebra
  import opened Covariances
  import opened KalmanUpdates
  import opened MeasurementSide
  import opened FilterCycle
  import opened UnscentedTransforms
  import E = Ekfs

  /** lambda_, state_weights_ and covar_weights_. */
  datatype Tuning = Tuning(lambda: real, stateWeights: seq<real>, covarWeights: seq<real>)

  ghost predicate Tuned(n: nat, t: Tuning) {
    && n as real + t.lambda != 0.0 && |t.covarWeights| == 2 * n + 1
    && t.stateWeights == Weights(n, CentreWeight(n, t.lambda), SideWeight(n, t.lambda))
    && t.covarWeights == Weights(n, t.covarWeights[0], SideWeight(n, t.lambda))
  }

  datatype Setup = Setup(
    n: nat, lib: E.Library, cholesky: Matrix -> Matrix, transfer: (Matrix, real) -> Matrix, q: Matrix, t: Tuning)
  {
    ghost predicate Valid() {
      && q.rows == q.cols == n && Tuned(n, t)
      && (forall a: Matrix {:trigger lib.inverse(a)} :: a.rows == a.cols ==>
            lib.inverse(a).rows == lib.inverse(a).cols == a.rows)
      && (forall a: Matrix {:trigger cholesky(a)} :: a.rows == a.cols ==>
            cholesky(a).rows == cholesky(a).cols == a.rows)
      && (forall x: Matrix, dt: real {:trigger transfer(x, dt)} :: transfer(x, dt).rows == transfer(x, dt).cols == n)
    }
  }

  ghost predicate FitsEstimate(n: nat, e: Estimate) {
    IsVector(e.x, n) && e.p.rows == e.p.cols == n
  }

  ghost predicate FitPoints(n: nat, points: seq<Matrix>) {
    |points| == 2 * n + 1 && forall i :: 0 <= i < |points| ==> points[i].rows == n && points[i].cols == 1
  }

  ghost predicate Ready(s: Setup, e: Estimate, c: Cache) {
    s.Valid() && FitsEstimate(s.n, e) && FitPoints(s.n, c.sigmaPoints)
  }

  // ---------------------------------------------------------------------------------------------
  // predict and correct

  ghost function Scaled(s: Setup, p: Matrix): (a: Matrix)
    ensures a.rows == p.rows && a.cols == p.cols
  {
    Scale(s.n as real + s.t.lambda, p)
  }

  /** The points that predict sends through the transfer matrix. */
  ghost function Sent(s: Setup, e: Estimate, dt: real): (points: seq<Matrix>)
    requires s.Valid() && FitsEstimate(s.n, e)
    ensures FitPoints(s.n, points)
  {
    SigmaPoints(s.transfer(e.x, dt), e.x, s.cholesky(Scaled(s, e.p)))
  }

  ghost function Predicted(s: Setup, e: Estimate, dt: real): (r: (Estimate, Cache))
    requires s.Valid() && FitsEstimate(s.n, e)
    ensures Ready(s, r.0, r.1) && r.1.uncorrected
  {
    var points := Sent(s, e, dt);
    var mean := WeightedSum(points, s.t.stateWeights, s.n, |points|);
    var spread := Spread(points, s.t.covarWeights, mean, |points|);
    (Estimate(E.Wrapped(s.lib, mean), Add(spread, Scale(dt, s.q))), Cache(points, true))
  }

  /** The points that correct uses: the predicted ones, or new ones if they have been used already. */
  ghost function Used(s: Setup, e: Estimate, c: Cache): (points: seq<Matrix>)
    requires Ready(s, e, c)
    ensures FitPoints(s.n, points)
  {
    if c.uncorrected then c.sigmaPoints
    else SigmaPoints(Identity(s.n), e.x, s.cholesky(Scaled(s, e.p)))
  }

  function Seen(h: Matrix, points: seq<Matrix>): (zs: seq<Matrix>)
    requires forall i :: 0 <= i < |points| ==> points[i].rows == h.cols && points[i].cols == 1
    ensures |zs| == |points| && forall i :: 0 <= i < |zs| ==> zs[i].rows == h.rows && zs[i].cols == 1
    ensures forall i :: 0 <= i < |zs| ==> zs[i] == Mul(h, points[i])
  {
    seq(|points|, i requires 0 <= i < |points| => Mul(h, points[i]))
  }

  /** The innovation against a predicted measurement. */
  function Innovation(lib: E.Library, z: Matrix, predicted: Matrix, indices: seq<nat>): (v: Matrix)
    ensures v.rows == |indices| && v.cols == 1
  {
    Build(|indices|, 1, (i: nat, j: nat) =>
      var d := At(z, Pick(indices)(i), 0) - At(predicted, i, 0);
      if E.IsAngle(Pick(indices)(i)) then lib.normalizeAngle(d) else d)
  }

  /** What the points say about the measured variables: the predicted measurement, its covariance P_zz, and
      the cross-covariance P_xz. */
  datatype Expected = Expected(z: Matrix, pzz: Matrix, pxz: Matrix)

  ghost predicate FitsExpected(n: nat, m: nat, w: Expected) {
    IsVector(w.z, m) && w.pzz.rows == w.pzz.cols == m && w.pxz.rows == n && w.pxz.cols == m
  }

  function Expects(t: Tuning, h: Matrix, x: Matrix, points: seq<Matrix>): (w: Expected)
    requires IsVector(x, h.cols) && |points| == |t.stateWeights| == |t.covarWeights|
    requires forall i :: 0 <= i < |points| ==> points[i].rows == h.cols && points[i].cols == 1
    ensures FitsExpected(h.cols, h.rows, w)
  {
    var zs := Seen(h, points);
    var z := WeightedSum(zs, t.stateWeights, h.rows, |zs|);
    Expected(z, Spread(zs, t.covarWeights, z, |zs|), Cross(points, x, zs, z, t.covarWeights, |zs|))
  }

  /** Steps (3) to (6): the covariance loses K P_zz Kᵀ, without the measurement's own noise. */
  ghost function Update(
    s: Setup, e: Estimate, c: Cache, points: seq<Matrix>, w: Expected, m: Measurement): (r: (Estimate, Cache))
    requires s.Valid() && FitsEstimate(s.n, e) && FitPoints(s.n, points) && E.FitsMeasurement(s.n, m)
    requires FitsExpected(s.n, |E.Indices(m.payload.update)|, w)
    ensures Ready(s, r.0, r.1)
  {
    var indices := E.Indices(m.payload.update);
    var inverse := s.lib.inverse(Add(w.pzz, Noise(m.payload.covariance, indices)));
    var k := Mul(w.pxz, inverse);
    var v := Innovation(s.lib, m.payload.z, w.z, indices);
    if E.Accepts(v, inverse, m.payload.threshold) then
      (Estimate(E.Wrapped(s.lib, Add(e.x, Mul(k, v))), Sub(e.p, Congruence(k, w.pzz))), Cache(points, false))
    else (e, c.(sigmaPoints := points))
  }

  ghost function Corrected(s: Setup, e: Estimate, c: Cache, m: Measurement): (r: (Estimate, Cache))
    requires Ready(s, e, c) && E.FitsMeasurement(s.n, m)
    ensures Ready(s, r.0, r.1)
  {
    var points := Used(s, e, c);
    var h := E.Selection(E.Indices(m.payload.update), s.n);
    Update(s, e, c, points, Expects(s.t, h, e.x, points), m)
  }

  /** The points of a filter that has never predicted: all zero. */
  function Blank(n: nat): (points: seq<Matrix>)
    ensures |points| == 2 * n + 1
    ensures forall i :: 0 <= i < |points| ==> points[i] == Zero(n, 1)
    ensures forall i :: 0 <= i < |points| ==> points[i].rows == n && points[i].cols == 1
  {
    seq(2 * n + 1, (i: nat) => Zero(n, 1))
  }

  /** A new filter, after setConstants. */
  function Fresh(n: nat): Filter {
    Filter(Estimate(E.Fresh(n).x, E.Fresh(n).p), Cache(Blank(n), true), 0, false)
  }

  lemma TunedSizes(n: nat, t: Tuning)
    requires Tuned(n, t)
    ensures |t.stateWeights| == |t.covarWeights| == 2 * n + 1
  {
  }

  // ---------------------------------------------------------------------------------------------
  // The filter object

  /** The loop of setConstants: the centre gets its own weights, all others the same one. */
  method MakeWeights(
    n: nat, first: real, extra: real, rest: real) returns (stateWeights: seq<real>, covarWeights: seq<real>)
    ensures stateWeights == Weights(n, first, rest) && covarWeights == Weights(n, first + extra, rest)
  {
    stateWeights := [first];
    covarWeights := [stateWeights[0] + extra];
    for i := 1 to 2 * n + 1
      invariant |stateWeights| == |covarWeights| == i
      invariant stateWeights[0] == first && covarWeights[0] == first + extra
      invariant forall k :: 1 <= k < i ==> stateWeights[k] == rest && covarWeights[k] == rest
    {
      stateWeights := stateWeights + [rest];
      covarWeights := covarWeights + [stateWeights[i]];
    }
  }

  /** Steps (1) and (2) of predict: the sigma points, already mapped, in pairs around the state. */
  method MakePoints(f: Matrix, x: Matrix, l: Matrix) returns (ps: seq<Matrix>)
    requires f.rows == f.cols == l.rows == l.cols == x.rows && x.cols == 1
    ensures ps == SigmaPoints(f, x, l)
  {
    hide Mul, Add, Sub, Column;
    var n := x.rows;
    ghost var spec := SigmaPoints(f, x, l);
    ps := seq(2 * n + 1, (k: nat) => x);
    ps := ps[0 := Mul(f, x)];
    for i := 0 to n
      invariant |ps| == 2 * n + 1
      invariant forall k :: 0 <= k <= i || n < k <= n + i ==> ps[k] == spec[k]
    {
      ps := ps[i + 1 := Mul(f, Add(x, Column(l, i)))];
      ps := ps[i + 1 + n := Mul(f, Sub(x, Column(l, i)))];
    }
  }

  /** The new points of correct, around the state itself. */
  method RenewPoints(x: Matrix, l: Matrix) returns (ps: seq<Matrix>)
    requires l.rows == l.cols == x.rows && x.cols == 1
    ensures ps == SigmaPoints(Identity(x.rows), x, l)
  {
    hide Mul, Add, Sub, Column, Identity;
    var n := x.rows;
    ghost var spec := SigmaPoints(Identity(n), x, l);
    MulIdentity(x);
    ps := seq(2 * n + 1, (k: nat) => x);
    for i := 0 to n
      invariant |ps| == 2 * n + 1
      invariant forall k :: 0 <= k <= i || n < k <= n + i ==> ps[k] == spec[k]
    {
      MulIdentity(Add(x, Column(l, i)));
      MulIdentity(Sub(x, Column(l, i)));
      ps := ps[i + 1 := Add(x, Column(l, i))];
      ps := ps[i + 1 + n := Sub(x, Column(l, i))];
    }
  }

  /** Steps (3) and (4) of predict: the weighted mean, then the weighted spread around it. */
  method Recombine(points: seq<Matrix>, t: Tuning, n: nat) returns (mean: Matrix, covariance: Matrix)
    requires |points| == |t.stateWeights| == |t.covarWeights|
    requires forall k :: 0 <= k < |points| ==> points[k].rows == n && points[k].cols == 1
    ensures mean == WeightedSum(points, t.stateWeights, n, |points|)
    ensures covariance == Spread(points, t.covarWeights, mean, |points|)
  {
    hide Add, Scale, Mul, Transpose, Sub;
    mean := Zero(n, 1);
    for i := 0 to |points|
      invariant mean == WeightedSum(points, t.stateWeights, n, i)
    {
      mean := Add(mean, Scale(t.stateWeights[i], points[i]));
    }
    covariance := Zero(n, n);
    for i := 0 to |points|
      invariant covariance == Cross(points, mean, points, mean, t.covarWeights, i)
    {
      var diff := Sub(points[i], mean);
      covariance := Add(covariance, Scale(t.covarWeights[i], Mul(diff, Transpose(diff))));
    }
  }

  /** Step (1) of correct. */
  method Observe(t: Tuning, h: Matrix, points: seq<Matrix>) returns (zs: seq<Matrix>, z: Matrix)
    requires |points| == |t.stateWeights|
    requires forall i :: 0 <= i < |points| ==> points[i].rows == h.cols && points[i].cols == 1
    ensures zs == Seen(h, points) && z == WeightedSum(zs, t.stateWeights, h.rows, |zs|)
  {
    hide Add, Scale, Mul;
    ghost var spec := Seen(h, points);
    zs, z := [], Zero(h.rows, 1);
    for i := 0 to |points|
      invariant zs == spec[..i] && z == WeightedSum(spec, t.stateWeights, h.rows, i)
    {
      zs := zs + [Mul(h, points[i])];
      z := Add(z, Scale(t.stateWeights[i], zs[i]));
    }
    assert zs == spec;
  }

  /** Step (2). */
  method Correlate(weights: seq<real>, points: seq<Matrix>, x: Matrix, zs: seq<Matrix>, z: Matrix)
    returns (pzz: Matrix, pxz: Matrix)
    requires x.cols == z.cols == 1 && |points| == |zs| == |weights|
    requires forall i :: 0 <= i < |points| ==> points[i].rows == x.rows && points[i].cols == 1
    requires forall i :: 0 <= i < |zs| ==> zs[i].rows == z.rows && zs[i].cols == 1
    ensures pzz == Spread(zs, weights, z, |zs|) && pxz == Cross(points, x, zs, z, weights, |zs|)
  {
    hide Add, Scale, Mul, Transpose, Sub;
    pzz, pxz := Zero(z.rows, z.rows), Zero(x.rows, z.rows);
    for i := 0 to |points|
      invariant pzz == Cross(zs, z, zs, z, weights, i)
      invariant pxz == Cross(points, x, zs, z, weights, i)
    {
      var diff := Sub(zs[i], z);
      pzz := Add(pzz, Scale(weights[i], Mul(diff, Transpose(diff))));
      pxz := Add(pxz, Scale(weights[i], Mul(Sub(points[i], x), Transpose(diff))));
    }
  }

  /** Step (4) of correct. */
  method BuildInnovation(lib: E.Library, z: Matrix, predicted: Matrix, indices: seq<nat>) returns (v: Matrix)
    ensures v == Innovation(lib, z, predicted, indices)
  {
    hide At;
    ghost var spec := Innovation(lib, z, predicted, indices);
    v := Zero(|indices|, 1);
    for i := 0 to |indices|
      invariant v.rows == |indices| && v.cols == 1
      invariant forall k: nat :: k < i ==> At(v, k, 0) == At(spec, k, 0)
    {
      assert Pick(indices)(i) == indices[i];
      v := Put(v, i, 0, At(z, indices[i], 0) - At(predicted, i, 0));
      if E.IsAngle(indices[i]) {
        v := Put(v, i, 0, lib.normalizeAngle(At(v, i, 0)));
      }
    }
    Same(v, spec);
  }

  class Ukf {
    const n: nat
    const lib: E.Library
    const cholesky: Matrix -> Matrix
    const transfer: (Matrix, real) -> Matrix
    const processNoise: Matrix
    var lambda: real
    var stateWeights: seq<real>
    var covarWeights: seq<real>
    var sigmaPoints: seq<Matrix>
    var uncorrected: bool
    var state: Matrix
    var covariance: Matrix

    ghost function Settings(): Setup
      reads this
    {
      Setup(n, lib, cholesky, transfer, processNoise, Tuning(lambda, stateWeights, covarWeights))
    }

    ghost function Held(): (Estimate, Cache)
      reads this
    {
      (Estimate(state, covariance), Cache(sigmaPoints, uncorrected))
    }

    ghost predicate Valid()
      reads this
    {
      Ready(Settings(), Held().0, Held().1)
    }

    /** The constructor and setConstants, which the filter calls before anything else. */
    constructor (
      n: nat, lib: E.Library, cholesky: Matrix -> Matrix, transfer: (Matrix, real) -> Matrix, processNoise: Matrix,
      alpha: real, kappa: real, beta: real)
      requires n as real + Lambda(n, alpha, kappa) != 0.0
      requires var lambda := Lambda(n, alpha, kappa);
               var (first, rest) := (CentreWeight(n, lambda), SideWeight(n, lambda));
               var t := Tuning(lambda, Weights(n, first, rest), Weights(n, first + CentreExtra(alpha, beta), rest));
               Setup(n, lib, cholesky, transfer, processNoise, t).Valid()
      ensures Valid() && Held() == (Fresh(n).estimate, Fresh(n).cache)
      ensures this.n == n && this.lib == lib && this.cholesky == cholesky && this.transfer == transfer
      ensures this.processNoise == processNoise && lambda == Lambda(n, alpha, kappa)
      ensures stateWeights == Weights(n, CentreWeight(n, lambda), SideWeight(n, lambda))
      ensures covarWeights == Weights(n, CentreWeight(n, lambda) + CentreExtra(alpha, beta), SideWeight(n, lambda))
    {
      hide Lambda, Weights, CentreWeight, SideWeight, CentreExtra, Tuned;
      this.n, this.lib, this.cholesky, this.transfer, this.processNoise := n, lib, cholesky, transfer, processNoise;
      var l := Lambda(n, alpha, kappa);
      var states, covars := MakeWeights(n, CentreWeight(n, l), CentreExtra(alpha, beta), SideWeight(n, l));
      lambda, stateWeights, covarWeights := l, states, covars;
      sigmaPoints, uncorrected := Blank(n), true;
      state, covariance := Zero(n, 1), Scale(0.000000001, Identity(n));
    }

    method Predict(dt: real)
      requires Valid()
      modifies this`sigmaPoints, this`uncorrected, this`state, this`covariance
      ensures Valid() && Settings() == old(Settings()) && Held() == Predicted(Settings(), old(Held().0), dt)
    {
      hide Mul, Transpose, Scale, Add, SigmaPoints, WeightedSum, Cross, Tuned, E.Wrapped, Identity;
      TunedSizes(n, Tuning(lambda, stateWeights, covarWeights));
      var f := transfer(state, dt);
      var root := cholesky(Scale(n as real + lambda, covariance));
      sigmaPoints := MakePoints(f, state, root);
      var mean, spread := Recombine(sigmaPoints, Tuning(lambda, stateWeights, covarWeights), n);
      covariance := Add(spread, Scale(dt, processNoise));
      state := E.Wrapped(lib, mean);
      uncorrected := true;
    }

    /** New points, if the predicted ones have been used. */
    method CurrentPoints() returns (points: seq<Matrix>)
      requires Valid()
      ensures points == Used(Settings(), Held().0, Held().1)
    {
      hide SigmaPoints, SigmaPoint, Tuned, Scale, Identity;
      points := sigmaPoints;
      if !uncorrected {
        var root := cholesky(Scale(n as real + lambda, covariance));
        points := RenewPoints(state, root);
      }
    }

    /** Steps (3) to (6). */
    method Apply(m: Measurement, w: Expected)
      requires Valid() && E.FitsMeasurement(n, m) && FitsExpected(n, |E.Indices(m.payload.update)|, w)
      modifies this`uncorrected, this`state, this`covariance
      ensures Valid() && Settings() == old(Settings())
      ensures Held() == Update(Settings(), old(Held().0), old(Held().1), sigmaPoints, w, m)
    {
      hide Mul, Transpose, Add, Sub, Tuned, E.Wrapped, Noise, Innovation, E.Accepts, Congruence;
      var indices := E.UpdateIndices(m.payload.update);
      var r := E.BuildNoise(m.payload.covariance, indices);
      var inverse := lib.inverse(Add(w.pzz, r));
      var gain := Mul(w.pxz, inverse);
      var innovation := BuildInnovation(lib, m.payload.z, w.z, indices);
      if E.Accepts(innovation, inverse, m.payload.threshold) {
        state := E.Wrapped(lib, Add(state, Mul(gain, innovation)));
        covariance := Sub(covariance, Congruence(gain, w.pzz));
        uncorrected := false;
      }
    }

    method Correct(m: Measurement)
      requires Valid() && E.FitsMeasurement(n, m)
      modifies this`sigmaPoints, this`uncorrected, this`state, this`covariance
      ensures Valid() && Settings() == old(Settings())
      ensures Held() == Corrected(Settings(), old(Held().0), old(Held().1), m)
    {
      hide Tuned, E.Selection, WeightedSum, Cross, Spread, Used, SigmaPoint, SigmaPoints, Mul, Innovation, Noise;
      TunedSizes(n, Tuning(lambda, stateWeights, covarWeights));
      sigmaPoints := CurrentPoints();
      var indices := E.UpdateIndices(m.payload.update);
      var h := E.BuildSelection(indices, n);
      var zs, z := Observe(Tuning(lambda, stateWeights, covarWeights), h, sigmaPoints);
      var pzz, pxz := Correlate(covarWeights, sigmaPoints, state, zs, z);
      Apply(m, Expected(z, pzz, pxz));
    }
  }
}
