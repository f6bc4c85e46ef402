/** Where an unscented correction moves the state, and when it moves it at all. */
module UkfEstimates {
  import opened LinearAlgebra
  import opened Covariances
  import opened KalmanUpdates
  import opened MeasurementSide
  import opened FilterCycle
  import opened UnscentedTransforms
  import opened Ukfs
  import opened UkfProofs
  import E = Ekfs
  import P = EkfProofs

  /** The measurement matrix, the noise and the inverse of a correction from points that stand for `p0`. */
  ghost function Measuring(s: Setup, m: Measurement): (h: Matrix)
    ensures h.rows == |E.Indices(m.payload.update)| && h.cols == s.n
  {
    E.Selection(E.Indices(m.payload.update), s.n)
  }

  ghost function NoiseOf(m: Measurement): (r: Matrix)
    ensures r.rows == r.cols == |E.Indices(m.payload.update)|
  {
    Noise(m.payload.covariance, E.Indices(m.payload.update))
  }

  /** H P₀ Hᵀ + R. */
  ghost function Spreads(s: Setup, p0: Matrix, m: Measurement): (a: Matrix)
    requires p0.rows == p0.cols == s.n
    ensures a.rows == a.cols == |E.Indices(m.payload.update)|
  {
    Add(Congruence(Measuring(s, m), p0), NoiseOf(m))
  }

  /** P₀ Hᵀ S⁻¹ v. */
  ghost function Move(s: Setup, p0: Matrix, m: Measurement, v: Matrix): (x: Matrix)
    requires s.Valid() && p0.rows == p0.cols == s.n && IsVector(v, |E.Indices(m.payload.update)|)
    ensures IsVector(x, s.n)
  {
    Mul(Mul(p0, Transpose(Measuring(s, m))), Mul(s.lib.inverse(Spreads(s, p0, m)), v))
  }

  /** The gate: the squared Mahalanobis distance of the innovation. */
  ghost predicate Passes(s: Setup, p0: Matrix, m: Measurement, v: Matrix)
    requires s.Valid() && p0.rows == p0.cols == s.n && IsVector(v, |E.Indices(m.payload.update)|)
  {
    Quad(s.lib.inverse(Spreads(s, p0, m)), v) < m.payload.threshold * m.payload.threshold
  }

  /** The points a correction uses stand for the mean and covariance of `b`. */
  ghost predicate Starts(s: Setup, e: Estimate, c: Cache, m: Measurement, b: Base) {
    && Ready(s, e, c) && E.FitsMeasurement(s.n, m) && Backs(s, b, Used(s, e, c))
    && b.Fits(s.n) && b.x.rows == s.n
  }

  /** The innovation against the mean of the points. */
  ghost function Surprise(s: Setup, m: Measurement, mean: Matrix): (v: Matrix)
    requires IsVector(mean, s.n)
    ensures IsVector(v, |E.Indices(m.payload.update)|)
  {
    Innovation(s.lib, m.payload.z, Mul(Measuring(s, m), mean), E.Indices(m.payload.update))
  }

  /** What a correction makes of `x`, from points that stand for `mean` and `p0`: P₀ Hᵀ S⁻¹ times the innovation
      is added and the angles are kept in range, or nothing happens. */
  ghost predicate Corrects(s: Setup, x: Matrix, mean: Matrix, p0: Matrix, m: Measurement, x': Matrix) {
    && s.Valid() && IsVector(x, s.n) && IsVector(mean, s.n) && p0.rows == p0.cols == s.n
    && var v := Surprise(s, m, mean);
       if Passes(s, p0, m, v) then P.InRange(s.lib, Add(x, Move(s, p0, m, v)), x') else x' == x
  }

  /** What an accepted correction leaves of the covariance: P - K H P₀ Hᵀ Kᵀ with K = P₀ Hᵀ S⁻¹. */
  ghost predicate Leaves(s: Setup, p: Matrix, p0: Matrix, m: Measurement, p': Matrix) {
    && s.Valid() && p.rows == p.cols == p0.rows == p0.cols == s.n
    && var h := Measuring(s, m);
       var k := Mul(Mul(p0, Transpose(h)), s.lib.inverse(Spreads(s, p0, m)));
       p' == Sub(p, Congruence(k, Congruence(h, p0)))
  }

  /** An accepted measurement moves every entry of the state, measured or not, by P₀ Hᵀ S⁻¹ times the
      innovation against the mean of the points, keeps the angles in range, and takes K H P₀ Hᵀ Kᵀ off the
      covariance; any other changes nothing. */
  lemma CorrectMoves(s: Setup, e: Estimate, c: Cache, m: Measurement, b: Base)
    requires Starts(s, e, c, m, b)
    ensures Corrects(s, e.x, b.Mean(), b.Covariance(), m, Corrected(s, e, c, m).0.x)
    ensures if Passes(s, b.Covariance(), m, Surprise(s, m, b.Mean())) then
              Leaves(s, e.p, b.Covariance(), m, Corrected(s, e, c, m).0.p)
            else Corrected(s, e, c, m).0 == e
  {
    var (h, points) := (Measuring(s, m), Used(s, e, c));
    TunedSizes(s.n, s.t);
    hide Expects, Backs, Tuned, Update, Used, E.Selection, E.Indices, Noise, Mul, Add, Congruence, Transpose,
      Innovation, Passes, Leaves, Corrects;
    ExpectsMoments(s, b, h, e.x, points);
    UpdateMoves(s, e, c, points, b, m);
  }

  lemma UpdateMoves(s: Setup, e: Estimate, c: Cache, points: seq<Matrix>, b: Base, m: Measurement)
    requires Ready(s, e, c) && FitPoints(s.n, points) && E.FitsMeasurement(s.n, m) && b.Fits(s.n) && b.x.rows == s.n
    ensures var (h, p0) := (Measuring(s, m), b.Covariance());
            var w := Expected(Mul(h, b.Mean()), Congruence(h, p0), Mul(p0, Transpose(h)));
            && FitsExpected(s.n, |E.Indices(m.payload.update)|, w)
            && Corrects(s, e.x, b.Mean(), p0, m, Update(s, e, c, points, w, m).0.x)
            && var e' := Update(s, e, c, points, w, m).0;
               if Passes(s, p0, m, Surprise(s, m, b.Mean())) then Leaves(s, e.p, p0, m, e'.p) else e' == e
  {
    hide E.Selection, E.Indices, Noise, Mul, Add, Sub, Congruence, Transpose, Innovation, E.Accepts, Quad, E.Wrapped,
      P.InRange, FitPoints, Tuned;
    var (h, p0, indices) := (Measuring(s, m), b.Covariance(), E.Indices(m.payload.update));
    var inverse := s.lib.inverse(Spreads(s, p0, m));
    var v := Innovation(s.lib, m.payload.z, Mul(h, b.Mean()), indices);
    P.AcceptsIff(v, inverse, m.payload.threshold);
    MulAssoc(Mul(p0, Transpose(h)), inverse, v);
    P.WrappedIsInRange(s.lib, Add(e.x, Move(s, p0, m, v)));
  }

  // ---------------------------------------------------------------------------------------------
  // Measurements without angles

  lemma InRangeIsWrapped(lib: E.Library, x: Matrix, y: Matrix)
    requires P.InRange(lib, x, y)
    ensures y == E.Wrapped(lib, x)
  {
    P.WrappedIsInRange(lib, x);
    hide E.Wrapped, At;
    Same(y, E.Wrapped(lib, x));
  }

  /** Without angles the innovation is H z - H μ. */
  lemma PlainInnovation(lib: E.Library, z: Matrix, x: Matrix, indices: seq<nat>, n: nat)
    requires z.rows == x.rows == n && z.cols == x.cols == 1 && E.NoAngles(indices)
    requires forall i :: 0 <= i < |indices| ==> indices[i] < n
    ensures var h := E.Selection(indices, n); Innovation(lib, z, Mul(h, x), indices) == Sub(Mul(h, z), Mul(h, x))
  {
    hide At, Mul, E.Selection, Sub;
    var h := E.Selection(indices, n);
    var (v, plain) := (Innovation(lib, z, Mul(h, x), indices), Sub(Mul(h, z), Mul(h, x)));
    forall i: nat, j: nat | i < |indices| && j < 1
      ensures At(v, i, j) == At(plain, i, j)
    {
      E.SelectionPicks(indices, n, z, i);
      AddEntry(Mul(h, z), Mul(h, x), i, 0);
      assert Pick(indices)(i) == indices[i] && !E.IsAngle(indices[i]);
    }
    Same(v, plain);
  }

  /** H z - H μ. */
  ghost function Plain(s: Setup, m: Measurement, mean: Matrix): (v: Matrix)
    requires E.FitsMeasurement(s.n, m) && IsVector(mean, s.n)
    ensures IsVector(v, |E.Indices(m.payload.update)|)
  {
    Sub(Mul(Measuring(s, m), m.payload.z), Mul(Measuring(s, m), mean))
  }

  /** Every entry of `x` but the angles moved by `move`, and what `h` sees of it moved by H times that. */
  ghost predicate Moves(n: nat, h: Matrix, x: Matrix, move: Matrix, x': Matrix) {
    && IsVector(x, n) && IsVector(move, n) && IsVector(x', n) && h.cols == n
    && (forall i: nat :: i < n && !E.IsAngle(i) ==> At(x', i, 0) == At(x, i, 0) + At(move, i, 0))
    && Mul(h, x') == Add(Mul(h, x), Mul(h, move))
  }

  /** Where an accepted measurement without angles moves the state. */
  ghost function Destination(s: Setup, m: Measurement, b: Base): (move: Matrix)
    requires s.Valid() && E.FitsMeasurement(s.n, m) && b.Fits(s.n) && b.x.rows == s.n
    ensures IsVector(move, s.n)
  {
    Move(s, b.Covariance(), m, Plain(s, m, b.Mean()))
  }

  /** An accepted measurement without angles, from points that stand for μ and P₀, moves the state by
      P₀ Hᵀ S⁻¹ (z - H μ). */
  lemma CorrectMovesPlain(s: Setup, e: Estimate, c: Cache, m: Measurement, b: Base)
    requires Starts(s, e, c, m, b) && E.NoAngles(E.Indices(m.payload.update))
    requires Passes(s, b.Covariance(), m, Plain(s, m, b.Mean()))
    ensures Moves(s.n, Measuring(s, m), e.x, Destination(s, m, b), Corrected(s, e, c, m).0.x)
  {
    CorrectMoves(s, e, c, m, b);
    hide Corrects, Corrected, Backs, Used, E.Indices, Passes, Plain, Measuring, Moves, Destination, Ready;
    PlainMoves(s, e.x, b, m, Corrected(s, e, c, m).0.x);
  }

  lemma PlainMoves(s: Setup, x: Matrix, b: Base, m: Measurement, x': Matrix)
    requires E.FitsMeasurement(s.n, m) && b.Fits(s.n) && b.x.rows == s.n && s.Valid()
    requires Corrects(s, x, b.Mean(), b.Covariance(), m, x') && E.NoAngles(E.Indices(m.payload.update))
    requires Passes(s, b.Covariance(), m, Plain(s, m, b.Mean()))
    ensures Moves(s.n, Measuring(s, m), x, Destination(s, m, b), x')
  {
    PlainIs(s, m, b.Mean());
    hide E.Selection, E.Indices, Mul, Add, Move, Passes, P.InRange, Moves, Plain, Surprise, Congruence;
    MovesPlain(s.lib, x, Destination(s, m, b), x', E.Indices(m.payload.update), s.n);
  }

  lemma PlainIs(s: Setup, m: Measurement, mean: Matrix)
    requires E.FitsMeasurement(s.n, m) && IsVector(mean, s.n) && E.NoAngles(E.Indices(m.payload.update))
    ensures Surprise(s, m, mean) == Plain(s, m, mean)
  {
    hide Innovation, Mul, Sub, E.Selection, E.Indices;
    PlainInnovation(s.lib, m.payload.z, mean, E.Indices(m.payload.update), s.n);
  }

  lemma MovesPlain(lib: E.Library, x: Matrix, move: Matrix, x': Matrix, indices: seq<nat>, n: nat)
    requires IsVector(x, n) && IsVector(move, n) && P.InRange(lib, Add(x, move), x') && E.NoAngles(indices)
    requires forall i :: 0 <= i < |indices| ==> indices[i] < n
    ensures Moves(n, E.Selection(indices, n), x, move, x')
  {
    hide At, Mul, Add, E.Selection, E.Wrapped;
    InRangeIsWrapped(lib, Add(x, move), x');
    E.WrapIsInvisible(lib, Add(x, move), indices, n);
    MulAddRight(E.Selection(indices, n), x, move);
    forall i: nat | i < n && !E.IsAngle(i)
      ensures At(x', i, 0) == At(x, i, 0) + At(move, i, 0)
    {
      AddEntry(x, move, i, 0);
    }
  }

  /** From points that stand for the filter's own state and covariance, as new ones do, what remains of the
      innovation is R S⁻¹ times what there was. */
  lemma CorrectPullsTowardsMeasurement(s: Setup, e: Estimate, c: Cache, m: Measurement, b: Base)
    requires Starts(s, e, c, m, b) && E.NoAngles(E.Indices(m.payload.update))
    requires b.Mean() == e.x && b.Covariance() == e.p && Passes(s, e.p, m, Plain(s, m, e.x))
    requires var a := Spreads(s, e.p, m); Mul(a, s.lib.inverse(a)) == Identity(a.rows)
    ensures Plain(s, m, Corrected(s, e, c, m).0.x) ==
            Mul(NoiseOf(m), Mul(s.lib.inverse(Spreads(s, e.p, m)), Plain(s, m, e.x)))
  {
    CorrectMovesPlain(s, e, c, m, b);
    var (h, r, z) := (Measuring(s, m), NoiseOf(m), Mul(Measuring(s, m), m.payload.z));
    hide Backs, Used, Corrected, Tuned, FitPoints, E.Selection, E.Indices, Mul, Add, Sub, Congruence, Transpose, Quad,
      NoiseOf, Measuring, Identity, Passes;
    Remains(e.p, h, r, s.lib.inverse(Spreads(s, e.p, m)), e.x, z);
  }

  lemma Remains(p: Matrix, h: Matrix, r: Matrix, inverse: Matrix, x: Matrix, z: Matrix)
    requires p.rows == p.cols == h.cols == x.rows
    requires r.rows == r.cols == h.rows == inverse.rows == inverse.cols == z.rows
    requires x.cols == z.cols == 1 && Mul(Add(Congruence(h, p), r), inverse) == Identity(h.rows)
    ensures var v := Sub(z, Mul(h, x));
            Sub(z, Add(Mul(h, x), Mul(h, Mul(Mul(p, Transpose(h)), Mul(inverse, v))))) == Mul(r, Mul(inverse, v))
  {
    var v := Sub(z, Mul(h, x));
    hide Mul, Add, Sub, Identity, Transpose;
    MulAssoc(h, p, Transpose(h));
    ResidualAfterCorrection(p, h, r, inverse, x, z);
    MulAssoc(Mul(p, Transpose(h)), inverse, v);
    MulAddRight(h, x, Mul(Gain(p, h, inverse), v));
  }

  // ---------------------------------------------------------------------------------------------
  // Angles

  /** Differences of angles are normalised, others are not. */
  lemma InnovationEntry(lib: E.Library, z: Matrix, predicted: Matrix, indices: seq<nat>, i: nat)
    requires i < |indices|
    ensures var (k, d) := (indices[i], At(z, indices[i], 0) - At(predicted, i, 0));
            At(Innovation(lib, z, predicted, indices), i, 0) ==
            if k == 3 || k == 4 || k == 5 then lib.normalizeAngle(d) else d
  {
    hide At;
    assert Pick(indices)(i) == indices[i];
  }

  /** `m'` measures one of roll, pitch and yaw a full turn further. */
  ghost predicate IsTurned(s: Setup, m: Measurement, k: nat, turn: real, m': Measurement) {
    && E.FitsMeasurement(s.n, m) && E.FitsMeasurement(s.n, m') && k < s.n && (k == 3 || k == 4 || k == 5)
    && m' == m.(payload := m.payload.(z := Put(m.payload.z, k, 0, At(m.payload.z, k, 0) + turn)))
    && forall a: real :: P.Turns(s.lib, a, turn)
  }

  /** It gives the same correction. */
  lemma FullTurnIsInvisible(s: Setup, e: Estimate, c: Cache, m: Measurement, k: nat, turn: real, m': Measurement)
    requires Ready(s, e, c) && IsTurned(s, m, k, turn, m')
    ensures Corrected(s, e, c, m') == Corrected(s, e, c, m)
  {
    TunedSizes(s.n, s.t);
    hide Used, Expects, Tuned, E.Selection, FitPoints, Update, E.Indices;
    SameUpdate(s, e, c, Used(s, e, c), Expects(s.t, Measuring(s, m), e.x, Used(s, e, c)), m, k, turn, m');
  }

  lemma SameUpdate(
    s: Setup, e: Estimate, c: Cache, points: seq<Matrix>, w: Expected, m: Measurement, k: nat, turn: real,
    m': Measurement)
    requires Ready(s, e, c) && FitPoints(s.n, points) && IsTurned(s, m, k, turn, m')
    requires FitsExpected(s.n, |E.Indices(m.payload.update)|, w)
    ensures Update(s, e, c, points, w, m') == Update(s, e, c, points, w, m)
  {
    SameInnovation(s.lib, m.payload.z, m'.payload.z, w.z, E.Indices(m.payload.update), k, turn);
    hide Innovation, E.Indices, Noise, E.Accepts, E.Wrapped, Mul, Add, Put, Congruence, Sub, Tuned, FitPoints, P.Turns;
  }

  lemma SameInnovation(
    lib: E.Library, z: Matrix, z': Matrix, predicted: Matrix, indices: seq<nat>, k: nat, turn: real)
    requires z.cols == 1 && k < z.rows && (k == 3 || k == 4 || k == 5) && z' == Put(z, k, 0, At(z, k, 0) + turn)
    requires forall i :: 0 <= i < |indices| ==> indices[i] < z.rows
    requires forall a: real :: P.Turns(lib, a, turn)
    ensures Innovation(lib, z', predicted, indices) == Innovation(lib, z, predicted, indices)
  {
    hide At;
    var (v, v') := (Innovation(lib, z, predicted, indices), Innovation(lib, z', predicted, indices));
    forall i: nat, j: nat | i < |indices| && j < 1
      ensures At(v', i, j) == At(v, i, j)
    {
      InnovationEntry(lib, z, predicted, indices, i);
      InnovationEntry(lib, z', predicted, indices, i);
      var d := At(z, indices[i], 0) - At(predicted, i, 0);
      if indices[i] == k {
        assert At(z', k, 0) - At(predicted, i, 0) == d + turn;
        assert P.Turns(lib, d, turn);
      }
    }
    Same(v', v);
  }
}
