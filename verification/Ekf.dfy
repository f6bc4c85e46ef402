/** The extended Kalman filter (ekf.cpp, filter_base.cpp): one measurement at a time, changed in
    place, and the theorem that its covariance stays a covariance in every run.

    The motion model is a parameter: the projected state and the Jacobian are arbitrary functions of
    the state and the time step.  So are the matrix inverse and the two angle functions. */
module Ekfs {
  import opened LinearAlgebra
  import opened Covariances
  import opened KalmanUpdates
  import opened MeasurementSide
  import opened FilterCycle

  datatype Library = Library(inverse: Matrix -> Matrix, normalizeAngle: real -> real, clampRotation: real -> real)

  datatype Motion = Motion(project: (Matrix, real) -> Matrix, jacobian: (Matrix, real) -> Matrix)

  datatype State = State(x: Matrix, p: Matrix, last: int, initialized: bool)

  /** Roll, pitch and yaw. */
  predicate IsAngle(i: nat) {
    3 <= i < 6
  }

  ghost predicate Shaped(n: nat, lib: Library, motion: Motion) {
    && (forall s: Matrix {:trigger lib.inverse(s)} :: s.rows == s.cols ==>
          lib.inverse(s).rows == lib.inverse(s).cols == s.rows)
    && (forall x: Matrix, t: real {:trigger motion.project(x, t)} :: x.rows == n && x.cols == 1 ==>
          motion.project(x, t).rows == n && motion.project(x, t).cols == 1)
    && (forall x: Matrix, t: real {:trigger motion.jacobian(x, t)} ::
          motion.jacobian(x, t).rows == motion.jacobian(x, t).cols == n)
  }

  ghost predicate FitsMeasurement(n: nat, m: Measurement) {
    && |m.payload.update| == n && m.payload.z.rows == n && m.payload.z.cols == 1
    && m.payload.covariance.rows == m.payload.covariance.cols == n
  }

  ghost predicate FitsState(n: nat, s: State) {
    s.x.rows == n && s.x.cols == 1 && s.p.rows == s.p.cols == n
  }

  // ---------------------------------------------------------------------------------------------
  // What one measurement does

  /** The variables a measurement updates, in order. */
  function Indices(update: seq<bool>): (r: seq<nat>)
    ensures forall i :: 0 <= i < |r| ==> r[i] < |update| && update[r[i]]
  {
    if update == [] then []
    else
      var n := |update| - 1;
      Indices(update[..n]) + if update[n] then [n] else []
  }

  function Measured(update: seq<bool>): set<nat> {
    set i: nat | i < |update| && update[i]
  }

  /** H: row i selects the i-th updated variable. */
  function Selection(indices: seq<nat>, n: nat): (h: Matrix)
    ensures h.rows == |indices| && h.cols == n
  {
    Selector(|indices|, n, Pick(indices), One())
  }

  function Innovation(lib: Library, z: Matrix, x: Matrix, indices: seq<nat>): (v: Matrix)
    ensures v.rows == |indices| && v.cols == 1
  {
    Build(|indices|, 1, (i: nat, j: nat) =>
      var d := At(z, Pick(indices)(i), 0) - At(x, Pick(indices)(i), 0);
      if IsAngle(Pick(indices)(i)) then lib.normalizeAngle(d) else d)
  }

  /** checkMahalanobisThreshold. */
  predicate Accepts(innovation: Matrix, inverse: Matrix, threshold: real)
    requires inverse.rows == inverse.cols == innovation.rows && innovation.cols == 1
  {
    At(Mul(Transpose(innovation), Mul(inverse, innovation)), 0, 0) < threshold * threshold
  }

  function Wrapped(lib: Library, x: Matrix): (y: Matrix)
    ensures y.rows == x.rows && y.cols == x.cols
  {
    Build(x.rows, x.cols, (i: nat, j: nat) => if IsAngle(i) then lib.clampRotation(At(x, i, j)) else At(x, i, j))
  }

  ghost function Corrected(n: nat, lib: Library, s: State, m: Measurement): (s': State)
    requires FitsState(n, s) && FitsMeasurement(n, m)
    requires forall a: Matrix {:trigger lib.inverse(a)} :: a.rows == a.cols ==>
             lib.inverse(a).rows == lib.inverse(a).cols == a.rows
    ensures FitsState(n, s') && s'.last == s.last && s'.initialized == s.initialized
  {
    var indices := Indices(m.payload.update);
    var h := Selection(indices, n);
    var r := Noise(m.payload.covariance, indices);
    var inverse := lib.inverse(InnovationCovariance(s.p, h, r));
    var k := Gain(s.p, h, inverse);
    var innovation := Innovation(lib, m.payload.z, s.x, indices);
    if Accepts(innovation, inverse, m.payload.threshold) then
      s.(x := Wrapped(lib, Add(s.x, Mul(k, innovation))), p := Joseph(s.p, k, h, r))
    else s
  }

  function Predicted(n: nat, lib: Library, motion: Motion, q: Matrix, s: State, dt: real): (s': State)
    requires s.x.rows == n && s.x.cols == 1 && s.p.rows == s.p.cols == n && q.rows == q.cols == n
    requires motion.project(s.x, dt).rows == n && motion.project(s.x, dt).cols == 1
    requires motion.jacobian(s.x, dt).rows == motion.jacobian(s.x, dt).cols == n
    ensures s'.x.rows == n && s'.x.cols == 1 && s'.p.rows == s'.p.cols == n
    ensures s'.last == s.last && s'.initialized == s.initialized
  {
    s.(x := Wrapped(lib, motion.project(s.x, dt)), p := Add(Congruence(motion.jacobian(s.x, dt), s.p), Scale(dt, q)))
  }

  function FirstState(x: Matrix, z: Matrix, measured: set<nat>): (y: Matrix)
    ensures y.rows == x.rows && y.cols == x.cols
  {
    Build(x.rows, x.cols, (i: nat, j: nat) => if i in measured then At(z, i, j) else At(x, i, j))
  }

  function Seconds(delta: int): real {
    delta as real / 1000000000.0
  }

  /** The filter brought forward to the measurement, if that is forward in time. */
  ghost function Ahead(n: nat, lib: Library, motion: Motion, q: Matrix, s: State, delta: int): (s': State)
    requires FitsState(n, s) && Shaped(n, lib, motion) && q.rows == q.cols == n
    ensures FitsState(n, s') && s'.last == s.last && s'.initialized == s.initialized
  {
    if delta > 0 then Predicted(n, lib, motion, q, s, Seconds(delta)) else s
  }

  /** processMeasurement. */
  ghost function Processed(n: nat, lib: Library, motion: Motion, q: Matrix, s: State, m: Measurement): (s': State)
    requires FitsState(n, s) && FitsMeasurement(n, m) && Shaped(n, lib, motion) && q.rows == q.cols == n
    ensures FitsState(n, s') && s'.initialized
  {
    if s.initialized then
      var delta := m.time - s.last;
      Corrected(n, lib, Ahead(n, lib, motion, q, s, delta), m).(last := if delta >= 0 then m.time else s.last)
    else
      State(FirstState(s.x, m.payload.z, Measured(m.payload.update)),
            Initialized(s.p, m.payload.covariance, Measured(m.payload.update)), m.time, true)
  }

  /** reset. */
  function Fresh(n: nat): State {
    State(Zero(n, 1), Scale(0.000000001, Identity(n)), 0, false)
  }

  // ---------------------------------------------------------------------------------------------
  // The covariance in every run

  lemma CorrectKeepsCovariance(n: nat, lib: Library, s: State, m: Measurement)
    requires FitsState(n, s) && FitsMeasurement(n, m)
    requires forall a: Matrix {:trigger lib.inverse(a)} :: a.rows == a.cols ==>
             lib.inverse(a).rows == lib.inverse(a).cols == a.rows
    requires IsCovariance(s.p) && IsCovariance(m.payload.covariance)
    ensures IsCovariance(Corrected(n, lib, s, m).p)
  {
    hide IsCovariance, Joseph, Noise, Selection, Gain, InnovationCovariance, Innovation, Wrapped, Accepts;
    var indices := Indices(m.payload.update);
    var h := Selection(indices, n);
    var r := Noise(m.payload.covariance, indices);
    NoiseIsCovariance(m.payload.covariance, indices);
    JosephIsCovariance(s.p, Gain(s.p, h, lib.inverse(InnovationCovariance(s.p, h, r))), h, r);
  }

  lemma PredictKeepsCovariance(n: nat, lib: Library, motion: Motion, q: Matrix, s: State, dt: real)
    requires FitsState(n, s) && Shaped(n, lib, motion) && q.rows == n && 0.0 <= dt
    requires IsCovariance(s.p) && IsCovariance(q)
    ensures IsCovariance(Predicted(n, lib, motion, q, s, dt).p)
  {
    hide NonNegative, Congruence, Scale, Add;
    CongruenceIsCovariance(motion.jacobian(s.x, dt), s.p);
    ScaledIsCovariance(dt, q);
    SumIsCovariance(Congruence(motion.jacobian(s.x, dt), s.p), Scale(dt, q));
  }

  lemma ProcessKeepsCovariance(n: nat, lib: Library, motion: Motion, q: Matrix, s: State, m: Measurement)
    requires FitsState(n, s) && FitsMeasurement(n, m) && Shaped(n, lib, motion) && q.rows == q.cols == n
    requires IsCovariance(s.p) && IsCovariance(q) && IsCovariance(m.payload.covariance)
    requires s.initialized || Uncoupled(s.p, Measured(m.payload.update))
    ensures IsCovariance(Processed(n, lib, motion, q, s, m).p)
  {
    hide IsCovariance, Predicted, Corrected, Uncoupled, Initialized;
    if s.initialized {
      var delta := m.time - s.last;
      if delta > 0 {
        PredictKeepsCovariance(n, lib, motion, q, s, Seconds(delta));
      }
      CorrectKeepsCovariance(n, lib, Ahead(n, lib, motion, q, s, delta), m);
    } else {
      InitializedIsCovariance(s.p, m.payload.covariance, Measured(m.payload.update));
    }
  }

  ghost predicate AllFit(n: nat, ms: seq<Measurement>) {
    forall i :: 0 <= i < |ms| ==> FitsMeasurement(n, ms[i]) && IsCovariance(ms[i].payload.covariance)
  }

  ghost function Run(n: nat, lib: Library, motion: Motion, q: Matrix, s: State, ms: seq<Measurement>): (s': State)
    requires FitsState(n, s) && AllFit(n, ms) && Shaped(n, lib, motion) && q.rows == q.cols == n
    ensures FitsState(n, s') && (ms != [] ==> s'.initialized)
  {
    if ms == [] then s
    else Processed(n, lib, motion, q, Run(n, lib, motion, q, s, ms[..|ms| - 1]), ms[|ms| - 1])
  }

  lemma {:induction false} RunKeepsCovariance(
    n: nat, lib: Library, motion: Motion, q: Matrix, s: State, ms: seq<Measurement>)
    requires FitsState(n, s) && AllFit(n, ms) && Shaped(n, lib, motion) && q.rows == q.cols == n
    requires IsCovariance(s.p) && IsCovariance(q)
    requires s.initialized || ms == [] || Uncoupled(s.p, Measured(ms[0].payload.update))
    ensures IsCovariance(Run(n, lib, motion, q, s, ms).p)
    decreases |ms|
  {
    if ms != [] {
      var init := ms[..|ms| - 1];
      assert FitsMeasurement(n, ms[|ms| - 1]) && IsCovariance(ms[|ms| - 1].payload.covariance);
      hide IsCovariance, Uncoupled, Processed, FitsMeasurement, Shaped, FitsState;
      RunKeepsCovariance(n, lib, motion, q, s, init);
      ProcessKeepsCovariance(n, lib, motion, q, Run(n, lib, motion, q, s, init), ms[|ms| - 1]);
    }
  }

  lemma FreshIsCovariance(n: nat)
    ensures FitsState(n, Fresh(n)) && IsCovariance(Fresh(n).p)
  {
    var tiny := (i: nat) => 0.000000001;
    Same(Fresh(n).p, Diagonal(n, tiny));
    DiagonalIsCovariance(n, tiny);
  }

  lemma FreshIsUncoupled(n: nat, measured: set<nat>)
    ensures Uncoupled(Fresh(n).p, measured)
  {
  }

  /** After a reset the covariance stays symmetric positive semidefinite for ever, whatever the
      measurements, the motion model, the inverse and the order of the stamps. */
  lemma ResetRunKeepsCovariance(n: nat, lib: Library, motion: Motion, q: Matrix, ms: seq<Measurement>)
    requires AllFit(n, ms) && Shaped(n, lib, motion) && q.rows == q.cols == n && IsCovariance(q)
    ensures IsCovariance(Run(n, lib, motion, q, Fresh(n), ms).p)
  {
    FreshIsCovariance(n);
    if ms != [] { FreshIsUncoupled(n, Measured(ms[0].payload.update)); }
    hide IsCovariance, Fresh, Uncoupled, Shaped, AllFit;
    RunKeepsCovariance(n, lib, motion, q, Fresh(n), ms);
  }

  /** No measurement makes the filter less certain in any direction, accepted or not, if the inverse
      is right at the one matrix it is asked for. */
  lemma CorrectNeverInflates(n: nat, lib: Library, s: State, m: Measurement, x: Matrix)
    requires FitsState(n, s) && FitsMeasurement(n, m) && IsVector(x, n)
    requires forall a: Matrix {:trigger lib.inverse(a)} :: a.rows == a.cols ==>
             lib.inverse(a).rows == lib.inverse(a).cols == a.rows
    requires IsCovariance(s.p) && IsCovariance(m.payload.covariance)
    requires var indices := Indices(m.payload.update);
             var a := InnovationCovariance(s.p, Selection(indices, n), Noise(m.payload.covariance, indices));
             Mul(lib.inverse(a), a) == Identity(a.rows)
    ensures Quad(Corrected(n, lib, s, m).p, x) <= Quad(s.p, x)
  {
    hide IsCovariance, Joseph, Noise, Selection, Gain, InnovationCovariance, Innovation, Wrapped, Accepts, Quad, Mul;
    var indices := Indices(m.payload.update);
    var h := Selection(indices, n);
    var r := Noise(m.payload.covariance, indices);
    NoiseIsCovariance(m.payload.covariance, indices);
    CorrectionNeverInflates(s.p, h, r, lib.inverse(InnovationCovariance(s.p, h, r)), x);
  }

  ghost predicate NoAngles(indices: seq<nat>) {
    forall i :: 0 <= i < |indices| ==> !IsAngle(indices[i])
  }

  lemma SelectionPicks(indices: seq<nat>, n: nat, x: Matrix, i: nat)
    requires x.rows == n && x.cols == 1 && i < |indices| && indices[i] < n
    ensures At(Mul(Selection(indices, n), x), i, 0) == At(x, indices[i], 0)
  {
    hide At;
    SelectorLeft(|indices|, n, Pick(indices), One(), x, i, 0);
  }

  lemma PlainInnovation(lib: Library, z: Matrix, x: Matrix, indices: seq<nat>, n: nat)
    requires z.rows == x.rows == n && z.cols == x.cols == 1 && NoAngles(indices)
    requires forall i :: 0 <= i < |indices| ==> indices[i] < n
    ensures var h := Selection(indices, n); Innovation(lib, z, x, indices) == Sub(Mul(h, z), Mul(h, x))
  {
    hide At, Mul, Selection, Sub;
    var h := Selection(indices, n);
    forall i: nat, j: nat | i < |indices| && j < 1
      ensures At(Innovation(lib, z, x, indices), i, j) == At(Sub(Mul(h, z), Mul(h, x)), i, j)
    {
      SelectionPicks(indices, n, z, i);
      SelectionPicks(indices, n, x, i);
      AddEntry(Mul(h, z), Mul(h, x), i, 0);
      assert Pick(indices)(i) == indices[i] && !IsAngle(indices[i]);
    }
    Same(Innovation(lib, z, x, indices), Sub(Mul(h, z), Mul(h, x)));
  }

  lemma WrapIsInvisible(lib: Library, x: Matrix, indices: seq<nat>, n: nat)
    requires x.rows == n && x.cols == 1 && NoAngles(indices) && forall i :: 0 <= i < |indices| ==> indices[i] < n
    ensures var h := Selection(indices, n); Mul(h, Wrapped(lib, x)) == Mul(h, x)
  {
    hide At, Mul, Selection;
    var h := Selection(indices, n);
    forall i: nat, j: nat | i < |indices| && j < 1
      ensures At(Mul(h, Wrapped(lib, x)), i, j) == At(Mul(h, x), i, j)
    {
      SelectionPicks(indices, n, Wrapped(lib, x), i);
      SelectionPicks(indices, n, x, i);
      assert !IsAngle(indices[i]);
    }
    Same(Mul(h, Wrapped(lib, x)), Mul(h, x));
  }

  /** An accepted measurement without angles pulls the state towards it: what remains of the innovation
      is R S⁻¹ times what there was. */
  lemma CorrectPullsTowardsMeasurement(n: nat, lib: Library, s: State, m: Measurement)
    requires FitsState(n, s) && FitsMeasurement(n, m) && NoAngles(Indices(m.payload.update))
    requires forall a: Matrix {:trigger lib.inverse(a)} :: a.rows == a.cols ==>
             lib.inverse(a).rows == lib.inverse(a).cols == a.rows
    requires var indices := Indices(m.payload.update);
             var a := InnovationCovariance(s.p, Selection(indices, n), Noise(m.payload.covariance, indices));
             && Mul(a, lib.inverse(a)) == Identity(a.rows)
             && Accepts(Innovation(lib, m.payload.z, s.x, indices), lib.inverse(a), m.payload.threshold)
    ensures var indices := Indices(m.payload.update);
            var (h, r) := (Selection(indices, n), Noise(m.payload.covariance, indices));
            var inverse := lib.inverse(InnovationCovariance(s.p, h, r));
            var z := Mul(h, m.payload.z);
            Sub(z, Mul(h, Corrected(n, lib, s, m).x)) == Mul(r, Mul(inverse, Sub(z, Mul(h, s.x))))
  {
    hide Mul, Noise, Selection, Gain, InnovationCovariance, Innovation, Wrapped, Accepts, Add, Sub, Joseph, IsAngle;
    var indices := Indices(m.payload.update);
    var (h, r) := (Selection(indices, n), Noise(m.payload.covariance, indices));
    var inverse := lib.inverse(InnovationCovariance(s.p, h, r));
    PlainInnovation(lib, m.payload.z, s.x, indices, n);
    var v := Innovation(lib, m.payload.z, s.x, indices);
    WrapIsInvisible(lib, Add(s.x, Mul(Gain(s.p, h, inverse), v)), indices, n);
    ResidualAfterCorrection(s.p, h, r, inverse, s.x, Mul(h, m.payload.z));
  }

  // ---------------------------------------------------------------------------------------------
  // The filter object

  method UpdateIndices(update: seq<bool>) returns (indices: seq<nat>)
    ensures indices == Indices(update)
  {
    indices := [];
    for i := 0 to |update|
      invariant indices == Indices(update[..i])
    {
      assert update[..i + 1][..i] == update[..i];
      if update[i] {
        indices := indices + [i];
      }
    }
    assert update[..|update|] == update;
  }

  method BuildNoise(covariance: Matrix, indices: seq<nat>) returns (r: Matrix)
    requires forall i :: 0 <= i < |indices| ==> indices[i] < covariance.rows
    ensures r == Noise(covariance, indices)
  {
    hide At;
    var m := |indices|;
    ghost var spec := Noise(covariance, indices);
    r := Zero(m, m);
    for i := 0 to m
      invariant r.rows == r.cols == m
      invariant forall k: nat, l: nat :: k < i && l < m ==> At(r, k, l) == At(spec, k, l)
    {
      for j := 0 to m
        invariant r.rows == r.cols == m
        invariant forall k: nat, l: nat :: k < i && l < m ==> At(r, k, l) == At(spec, k, l)
        invariant forall l: nat :: l < j ==> At(r, i, l) == At(covariance, indices[i], indices[l])
      {
        r := Put(r, i, j, At(covariance, indices[i], indices[j]));
      }
      ghost var v := At(r, i, i);
      if At(r, i, i) < 0.0 {
        r := Put(r, i, i, -At(r, i, i));
      }
      if At(r, i, i) < 0.000000001 {
        r := Put(r, i, i, 0.000000001);
      }
      assert At(r, i, i) == Floored(v);
    }
    Same(r, spec);
  }

  method BuildSelection(indices: seq<nat>, n: nat) returns (h: Matrix)
    requires forall i :: 0 <= i < |indices| ==> indices[i] < n
    ensures h == Selection(indices, n)
  {
    hide At;
    ghost var spec := Selection(indices, n);
    h := Zero(|indices|, n);
    for i := 0 to |indices|
      invariant h.rows == |indices| && h.cols == n
      invariant forall k: nat, l: nat :: k < i && l < n ==> At(h, k, l) == At(spec, k, l)
      invariant forall k: nat, l: nat :: i <= k < |indices| && l < n ==> At(h, k, l) == 0.0
    {
      h := Put(h, i, indices[i], 1.0);
    }
    Same(h, spec);
  }

  method BuildInnovation(lib: Library, z: Matrix, x: Matrix, indices: seq<nat>) returns (v: Matrix)
    ensures v == Innovation(lib, z, x, indices)
  {
    hide At;
    ghost var spec := Innovation(lib, z, x, indices);
    v := Zero(|indices|, 1);
    for i := 0 to |indices|
      invariant v.rows == |indices| && v.cols == 1
      invariant forall k: nat :: k < i ==> At(v, k, 0) == At(spec, k, 0)
    {
      assert Pick(indices)(i) == indices[i];
      v := Put(v, i, 0, At(z, indices[i], 0) - At(x, indices[i], 0));
      if IsAngle(indices[i]) {
        v := Put(v, i, 0, lib.normalizeAngle(At(v, i, 0)));
      }
    }
    Same(v, spec);
  }

  method BuildFirstState(x: Matrix, z: Matrix, update: seq<bool>) returns (y: Matrix)
    requires x.rows == z.rows == |update| && x.cols == z.cols == 1
    ensures y == FirstState(x, z, Measured(update))
  {
    hide At;
    ghost var spec := FirstState(x, z, Measured(update));
    y := x;
    for i := 0 to |update|
      invariant y.rows == |update| && y.cols == 1
      invariant forall k: nat :: k < |update| ==> At(y, k, 0) == if k < i then At(spec, k, 0) else At(x, k, 0)
    {
      y := Put(y, i, 0, if update[i] then At(z, i, 0) else At(y, i, 0));
    }
    Same(y, spec);
  }

  method BuildInitialized(p: Matrix, c: Matrix, update: seq<bool>) returns (r: Matrix)
    requires p.rows == p.cols == c.rows == c.cols == |update|
    ensures r == Initialized(p, c, Measured(update))
  {
    hide At;
    var n := |update|;
    ghost var spec := Initialized(p, c, Measured(update));
    r := p;
    for i := 0 to n
      invariant r.rows == r.cols == n
      invariant forall k: nat, l: nat :: k < n && l < n ==> At(r, k, l) == if k < i then At(spec, k, l) else At(p, k, l)
    {
      for j := 0 to n
        invariant r.rows == r.cols == n
        invariant forall k: nat, l: nat :: k < n && l < n ==>
                    At(r, k, l) == if k < i || (k == i && l < j) then At(spec, k, l) else At(p, k, l)
      {
        r := Put(r, i, j, if update[i] && update[j] then At(c, i, j) else At(r, i, j));
      }
    }
    Same(r, spec);
  }

  class Ekf {
    const n: nat
    const lib: Library
    const motion: Motion
    const processNoise: Matrix
    var state: Matrix
    var covariance: Matrix
    var last: int
    var initialized: bool

    ghost function Value(): State
      reads this
    {
      State(state, covariance, last, initialized)
    }

    ghost predicate Valid()
      reads this
    {
      Shaped(n, lib, motion) && processNoise.rows == processNoise.cols == n && FitsState(n, Value())
    }

    constructor (n: nat, lib: Library, motion: Motion, processNoise: Matrix)
      requires Shaped(n, lib, motion) && processNoise.rows == processNoise.cols == n
      ensures Valid() && Value() == Fresh(n)
      ensures this.n == n && this.lib == lib && this.motion == motion && this.processNoise == processNoise
    {
      this.n, this.lib, this.motion, this.processNoise := n, lib, motion, processNoise;
      state, covariance := Zero(n, 1), Scale(0.000000001, Identity(n));
      last, initialized := 0, false;
    }

    method Correct(m: Measurement)
      requires Valid() && FitsMeasurement(n, m)
      modifies this
      ensures Valid() && Value() == Corrected(n, lib, old(Value()), m)
    {
      hide Joseph, Gain, InnovationCovariance, Innovation, Wrapped, Noise, Selection, Accepts, Mul, Add;
      var indices := UpdateIndices(m.payload.update);
      var r := BuildNoise(m.payload.covariance, indices);
      var h := BuildSelection(indices, n);
      var inverse := lib.inverse(InnovationCovariance(covariance, h, r));
      var gain := Gain(covariance, h, inverse);
      var innovation := BuildInnovation(lib, m.payload.z, state, indices);
      if Accepts(innovation, inverse, m.payload.threshold) {
        state := Wrapped(lib, Add(state, Mul(gain, innovation)));
        covariance := Joseph(covariance, gain, h, r);
      }
    }

    method Predict(dt: real)
      requires Valid()
      modifies this
      ensures Valid() && Value() == Predicted(n, lib, motion, processNoise, old(Value()), dt)
    {
      hide Wrapped, Congruence, Add, Scale;
      var jacobian := motion.jacobian(state, dt);
      state := Wrapped(lib, motion.project(state, dt));
      covariance := Congruence(jacobian, covariance);
      covariance := Add(covariance, Scale(dt, processNoise));
    }

    /** The first measurement sets the variables it measures, and their covariances. */
    method Initialize(m: Measurement)
      requires Valid() && FitsMeasurement(n, m)
      modifies this
      ensures Valid()
      ensures Value() == State(FirstState(old(state), m.payload.z, Measured(m.payload.update)),
                               Initialized(old(covariance), m.payload.covariance, Measured(m.payload.update)),
                               old(last), true)
    {
      state := BuildFirstState(state, m.payload.z, m.payload.update);
      covariance := BuildInitialized(covariance, m.payload.covariance, m.payload.update);
      initialized := true;
    }

    method ProcessMeasurement(m: Measurement)
      requires Valid() && FitsMeasurement(n, m)
      modifies this
      ensures Valid() && Value() == Processed(n, lib, motion, processNoise, old(Value()), m)
    {
      hide Corrected, Predicted, FirstState, Initialized, Shaped;
      var delta := 0;
      if initialized {
        delta := m.time - last;
        if delta > 0 {
          Predict(Seconds(delta));
        }
        Correct(m);
      } else {
        Initialize(m);
      }
      if delta >= 0 {
        last := m.time;
      }
    }
  }
}
