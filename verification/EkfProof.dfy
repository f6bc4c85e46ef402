/** What the extended Kalman filter does with a measurement, entry by entry: how far it predicts, which
    measurements it accepts, where a correction moves the state, and what the first measurement sets. */
module EkfProofs {
  import opened LinearAlgebra
  import opened Covariances
  import opened KalmanUpdates
  import opened MeasurementSide
  import opened FilterCycle
  import opened Ekfs

  // ---------------------------------------------------------------------------------------------
  // The prediction

  /** Roll, pitch and yaw are kept in range; nothing else is changed. */
  ghost predicate InRange(lib: Library, x: Matrix, y: Matrix) {
    && y.rows == x.rows && y.cols == x.cols == 1
    && forall i: nat :: i < x.rows ==>
         At(y, i, 0) == if i == 3 || i == 4 || i == 5 then lib.clampRotation(At(x, i, 0)) else At(x, i, 0)
  }

  lemma WrappedIsInRange(lib: Library, x: Matrix)
    requires x.cols == 1
    ensures InRange(lib, x, Wrapped(lib, x))
  {
  }

  /** In every direction `p'` is the variance that the Jacobian carries over, plus what the process noise adds
      in that time. */
  ghost predicate Carries(j: Matrix, p: Matrix, q: Matrix, dt: real, p': Matrix) {
    && j.rows == q.rows == q.cols == p'.rows == p'.cols && j.cols == p.rows == p.cols
    && forall y: Matrix :: IsVector(y, p'.rows) ==> Quad(p', y) == Quad(p, Mul(Transpose(j), y)) + dt * Quad(q, y)
  }

  /** The moments `dt` seconds ahead. */
  ghost predicate AreAhead(motion: Motion, lib: Library, q: Matrix, s: State, dt: real, x: Matrix, p: Matrix) {
    InRange(lib, motion.project(s.x, dt), x) && Carries(motion.jacobian(s.x, dt), s.p, q, dt, p)
  }

  lemma CarriesOver(j: Matrix, p: Matrix, q: Matrix, dt: real)
    requires j.rows == q.rows == q.cols && j.cols == p.rows == p.cols
    ensures Carries(j, p, q, dt, Add(Congruence(j, p), Scale(dt, q)))
  {
    hide Quad, Congruence, Scale, Add, Mul, Transpose;
    forall y: Matrix | IsVector(y, q.rows)
      ensures Quad(Add(Congruence(j, p), Scale(dt, q)), y) == Quad(p, Mul(Transpose(j), y)) + dt * Quad(q, y)
    {
      QuadAdd(Congruence(j, p), Scale(dt, q), y);
      QuadCongruence(j, p, y);
      QuadScale(dt, q, y);
    }
  }

  lemma PredictsMoments(n: nat, lib: Library, motion: Motion, q: Matrix, s: State, dt: real)
    requires FitsState(n, s) && Shaped(n, lib, motion) && q.rows == q.cols == n
    ensures var s' := Predicted(n, lib, motion, q, s, dt);
            AreAhead(motion, lib, q, s, dt, s'.x, s'.p) && s'.last == s.last && s'.initialized == s.initialized
  {
    hide Carries, Congruence, Scale, Add, Wrapped, InRange;
    CarriesOver(motion.jacobian(s.x, dt), s.p, q, dt);
    WrappedIsInRange(lib, motion.project(s.x, dt));
  }

  /** A strictly newer measurement corrects the moments at its own stamp, which is `(m.time - s.last)`
      billionths of a second ahead. */
  lemma NewerPredictsFirst(n: nat, lib: Library, motion: Motion, q: Matrix, s: State, m: Measurement)
    returns (ahead: State)
    requires FitsState(n, s) && FitsMeasurement(n, m) && Shaped(n, lib, motion) && q.rows == q.cols == n
    requires s.initialized && s.last < m.time
    ensures FitsState(n, ahead) && ahead.initialized
    ensures AreAhead(motion, lib, q, s, (m.time - s.last) as real / 1000000000.0, ahead.x, ahead.p)
    ensures Processed(n, lib, motion, q, s, m) == Corrected(n, lib, ahead, m).(last := m.time)
  {
    hide AreAhead, Predicted, Corrected;
    ahead := Predicted(n, lib, motion, q, s, Seconds(m.time - s.last));
    PredictsMoments(n, lib, motion, q, s, Seconds(m.time - s.last));
  }

  /** Any other measurement corrects the filter as it is, and leaves the clock. */
  lemma OlderOnlyCorrects(n: nat, lib: Library, motion: Motion, q: Matrix, s: State, m: Measurement)
    requires FitsState(n, s) && FitsMeasurement(n, m) && Shaped(n, lib, motion) && q.rows == q.cols == n
    requires s.initialized && m.time <= s.last
    ensures Processed(n, lib, motion, q, s, m) == Corrected(n, lib, s, m)
  {
    hide Corrected;
  }

  // ---------------------------------------------------------------------------------------------
  // The first measurement

  /** It sets exactly the entries it measures, and their covariances with each other. */
  lemma FirstSetsMeasured(n: nat, lib: Library, motion: Motion, q: Matrix, s: State, m: Measurement, i: nat, j: nat)
    requires FitsState(n, s) && FitsMeasurement(n, m) && Shaped(n, lib, motion) && q.rows == q.cols == n
    requires !s.initialized && i < n && j < n
    ensures var (s', update) := (Processed(n, lib, motion, q, s, m), m.payload.update);
            && s'.initialized && s'.last == m.time
            && At(s'.x, i, 0) == (if update[i] then At(m.payload.z, i, 0) else At(s.x, i, 0))
            && At(s'.p, i, j) == if update[i] && update[j] then At(m.payload.covariance, i, j) else At(s.p, i, j)
  {
  }

  /** A reset filter is at zero, with a variance of 1e-9 and no covariance, and not initialised. */
  lemma FreshIs(n: nat, i: nat, j: nat)
    requires i < n && j < n
    ensures At(Fresh(n).x, i, 0) == 0.0 && At(Fresh(n).p, i, j) == (if i == j then 0.000000001 else 0.0)
    ensures Fresh(n).x.rows == n && Fresh(n).x.cols == 1 && !Fresh(n).initialized
  {
  }

  // ---------------------------------------------------------------------------------------------
  // What a correction looks at

  /** The updated variables are exactly those whose flag is set, in ascending order. */
  lemma {:induction false} IndicesAre(update: seq<bool>)
    ensures forall k: nat :: k in Indices(update) <==> k < |update| && update[k]
    ensures forall a, b :: 0 <= a < b < |Indices(update)| ==> Indices(update)[a] < Indices(update)[b]
    decreases |update|
  {
    if update != [] {
      var n := |update| - 1;
      IndicesAre(update[..n]);
      forall k: nat
        ensures k in Indices(update) <==> k < |update| && update[k]
      {
        assert k in Indices(update) <==> k in Indices(update[..n]) || (update[n] && k == n);
      }
    }
  }

  /** Differences of angles are normalised, others are not. */
  lemma InnovationEntry(lib: Library, z: Matrix, x: Matrix, indices: seq<nat>, i: nat)
    requires i < |indices|
    ensures var (k, d) := (indices[i], At(z, indices[i], 0) - At(x, indices[i], 0));
            At(Innovation(lib, z, x, indices), i, 0) ==
            if k == 3 || k == 4 || k == 5 then lib.normalizeAngle(d) else d
  {
    hide At;
    assert Pick(indices)(i) == indices[i];
  }

  /** The squared Mahalanobis distance has to stay below the squared threshold. */
  lemma AcceptsIff(v: Matrix, inverse: Matrix, threshold: real)
    requires inverse.rows == inverse.cols == v.rows && v.cols == 1
    ensures Accepts(v, inverse, threshold) <==> Quad(inverse, v) < threshold * threshold
  {
  }

  /** What a threshold accepts a larger one accepts; with a covariance, the threshold 0 accepts nothing, and
      every innovation is accepted by some threshold. */
  lemma LargerAccepts(v: Matrix, inverse: Matrix, t: real, u: real)
    requires inverse.rows == inverse.cols == v.rows && v.cols == 1 && 0.0 <= t <= u
    ensures Accepts(v, inverse, t) ==> Accepts(v, inverse, u)
    ensures IsCovariance(inverse) ==> !Accepts(v, inverse, 0.0)
  {
    hide Quad, Symmetric;
    AcceptsIff(v, inverse, t);
    AcceptsIff(v, inverse, u);
    AcceptsIff(v, inverse, 0.0);
    SquareGrows(t, u);
  }

  lemma SquareGrows(t: real, u: real)
    requires 0.0 <= t <= u
    ensures t * t <= u * u
  {
    assert u * u - t * t == (u - t) * (u + t);
  }

  lemma SomeThresholdAccepts(v: Matrix, inverse: Matrix) returns (t: real)
    requires inverse.rows == inverse.cols == v.rows && v.cols == 1
    ensures 0.0 <= t && Accepts(v, inverse, t)
  {
    hide Quad;
    var d := Quad(inverse, v);
    t := if d < 0.0 then 1.0 else d + 1.0;
    AcceptsIff(v, inverse, t);
    if d >= 0.0 {
      assert t * t == d * d + 2.0 * d + 1.0;
      assert d * d >= 0.0;
    }
  }

  // ---------------------------------------------------------------------------------------------
  // What a correction does

  /** What is not accepted changes nothing. */
  lemma RejectedChangesNothing(n: nat, lib: Library, s: State, m: Measurement)
    requires FitsState(n, s) && FitsMeasurement(n, m)
    requires forall a: Matrix {:trigger lib.inverse(a)} :: a.rows == a.cols ==>
             lib.inverse(a).rows == lib.inverse(a).cols == a.rows
    requires var indices := Indices(m.payload.update);
             var a := InnovationCovariance(s.p, Selection(indices, n), Noise(m.payload.covariance, indices));
             var t := m.payload.threshold;
             Quad(lib.inverse(a), Innovation(lib, m.payload.z, s.x, indices)) >= t * t
    ensures Corrected(n, lib, s, m) == s
  {
    hide Quad, Innovation, Selection, Noise, InnovationCovariance, Accepts, Joseph, Gain, Wrapped;
    var indices := Indices(m.payload.update);
    var a := InnovationCovariance(s.p, Selection(indices, n), Noise(m.payload.covariance, indices));
    AcceptsIff(Innovation(lib, m.payload.z, s.x, indices), lib.inverse(a), m.payload.threshold);
  }

  /** What is accepted moves every entry of the state, measured or not, by P Hᵀ S⁻¹ times the innovation;
      the angles are then kept in range. */
  lemma AcceptedMoves(n: nat, lib: Library, s: State, m: Measurement)
    requires FitsState(n, s) && FitsMeasurement(n, m)
    requires forall a: Matrix {:trigger lib.inverse(a)} :: a.rows == a.cols ==>
             lib.inverse(a).rows == lib.inverse(a).cols == a.rows
    requires var indices := Indices(m.payload.update);
             var a := InnovationCovariance(s.p, Selection(indices, n), Noise(m.payload.covariance, indices));
             var t := m.payload.threshold;
             Quad(lib.inverse(a), Innovation(lib, m.payload.z, s.x, indices)) < t * t
    ensures var indices := Indices(m.payload.update);
            var h := Selection(indices, n);
            var inverse := lib.inverse(InnovationCovariance(s.p, h, Noise(m.payload.covariance, indices)));
            var move := Mul(Mul(s.p, Transpose(h)), Mul(inverse, Innovation(lib, m.payload.z, s.x, indices)));
            InRange(lib, Add(s.x, move), Corrected(n, lib, s, m).x)
  {
    hide Quad, Innovation, Selection, Noise, InnovationCovariance, Accepts, Joseph, Wrapped, Mul, Transpose, Add,
      InRange;
    var indices := Indices(m.payload.update);
    var h := Selection(indices, n);
    var inverse := lib.inverse(InnovationCovariance(s.p, h, Noise(m.payload.covariance, indices)));
    var v := Innovation(lib, m.payload.z, s.x, indices);
    AcceptsIff(v, inverse, m.payload.threshold);
    MulAssoc(Mul(s.p, Transpose(h)), inverse, v);
    WrappedIsInRange(lib, Add(s.x, Mul(Gain(s.p, h, inverse), v)));
  }

  /** And it leaves (I − K H) P, if the inverse is right at the one matrix it is asked for. */
  lemma AcceptedLeaves(n: nat, lib: Library, s: State, m: Measurement)
    requires FitsState(n, s) && FitsMeasurement(n, m) && IsCovariance(s.p) && IsCovariance(m.payload.covariance)
    requires forall a: Matrix {:trigger lib.inverse(a)} :: a.rows == a.cols ==>
             lib.inverse(a).rows == lib.inverse(a).cols == a.rows
    requires var indices := Indices(m.payload.update);
             var a := InnovationCovariance(s.p, Selection(indices, n), Noise(m.payload.covariance, indices));
             var t := m.payload.threshold;
             && Quad(lib.inverse(a), Innovation(lib, m.payload.z, s.x, indices)) < t * t
             && Mul(lib.inverse(a), a) == Identity(a.rows)
    ensures var indices := Indices(m.payload.update);
            var h := Selection(indices, n);
            var inverse := lib.inverse(InnovationCovariance(s.p, h, Noise(m.payload.covariance, indices)));
            var k := Mul(Mul(s.p, Transpose(h)), inverse);
            Corrected(n, lib, s, m).p == Mul(Sub(Identity(n), Mul(k, h)), s.p)
  {
    hide Quad, Innovation, Selection, Noise, InnovationCovariance, Accepts, Joseph, Wrapped, Mul, Transpose, Add, Sub,
      Identity, NonNegative;
    var indices := Indices(m.payload.update);
    var (h, r) := (Selection(indices, n), Noise(m.payload.covariance, indices));
    var inverse := lib.inverse(InnovationCovariance(s.p, h, r));
    AcceptsIff(Innovation(lib, m.payload.z, s.x, indices), inverse, m.payload.threshold);
    NoiseIsCovariance(m.payload.covariance, indices);
    GainSolves(s.p, h, r, inverse);
    JosephIsTextbook(s.p, Gain(s.p, h, inverse), h, r);
  }

  ghost predicate Turns(lib: Library, a: real, turn: real) {
    lib.normalizeAngle(a + turn) == lib.normalizeAngle(a)
  }

  /** A measured roll, pitch or yaw that is a full turn off gives the same correction. */
  lemma FullTurnIsInvisible(n: nat, lib: Library, s: State, m: Measurement, k: nat, turn: real)
    requires FitsState(n, s) && FitsMeasurement(n, m) && k < n && (k == 3 || k == 4 || k == 5)
    requires forall a: Matrix {:trigger lib.inverse(a)} :: a.rows == a.cols ==>
             lib.inverse(a).rows == lib.inverse(a).cols == a.rows
    requires forall a: real :: Turns(lib, a, turn)
    ensures var z := Put(m.payload.z, k, 0, At(m.payload.z, k, 0) + turn);
            Corrected(n, lib, s, m.(payload := m.payload.(z := z))) == Corrected(n, lib, s, m)
  {
    var z := Put(m.payload.z, k, 0, At(m.payload.z, k, 0) + turn);
    SameInnovation(lib, m.payload.z, z, s.x, Indices(m.payload.update), k, turn);
    hide Innovation, Selection, Noise, InnovationCovariance, Accepts, Joseph, Gain, Wrapped, Mul, Add, Put;
  }

  lemma SameInnovation(lib: Library, z: Matrix, z': Matrix, x: Matrix, indices: seq<nat>, k: nat, turn: real)
    requires z.cols == 1 && k < z.rows && (k == 3 || k == 4 || k == 5) && z' == Put(z, k, 0, At(z, k, 0) + turn)
    requires forall i :: 0 <= i < |indices| ==> indices[i] < z.rows
    requires forall a: real :: Turns(lib, a, turn)
    ensures Innovation(lib, z', x, indices) == Innovation(lib, z, x, indices)
  {
    hide At;
    var (v, v') := (Innovation(lib, z, x, indices), Innovation(lib, z', x, indices));
    forall i: nat, j: nat | i < |indices| && j < 1
      ensures At(v', i, j) == At(v, i, j)
    {
      InnovationEntry(lib, z, x, indices, i);
      InnovationEntry(lib, z', x, indices, i);
      var d := At(z, indices[i], 0) - At(x, indices[i], 0);
      if indices[i] == k {
        assert At(z', k, 0) - At(x, k, 0) == d + turn;
        assert Turns(lib, d, turn);
      }
    }
    Same(v', v);
  }
}
