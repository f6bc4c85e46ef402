/** The extended Kalman filter inside the replay engine: late data, reverts and predictions ahead leave
    its covariance a covariance in every run, and its estimate the one of the measurements in order. */
module EkfReplays {
  import opened Options
  import opened LinearAlgebra
  import opened Covariances
  import opened FilterCycle
  import opened Replay
  import opened ReplayProof
  import opened InOrder
  import opened MeasurementSide
  import K = KalmanUpdates
  import E = Ekfs

  /** The dimensions, library and motion model of an extended Kalman filter, with its process noise. */
  datatype Setup = Setup(n: nat, lib: E.Library, motion: E.Motion, q: Matrix) {
    ghost predicate Valid() {
      E.Shaped(n, lib, motion) && q.rows == q.cols == n && IsCovariance(q)
    }
  }

  function StateOf(e: Estimate, last: int, initialized: bool): E.State {
    E.State(e.x, e.p, last, initialized)
  }

  function EstimateOf(s: E.State): Estimate {
    Estimate(s.x, s.p)
  }

  const NO_CACHE := Cache([], true)

  ghost function EkfPredict(s: Setup, e: Estimate, delta: int): Estimate
    requires s.Valid()
  {
    if E.FitsState(s.n, StateOf(e, 0, true)) then
      EstimateOf(E.Predicted(s.n, s.lib, s.motion, s.q, StateOf(e, 0, true), E.Seconds(delta)))
    else e
  }

  ghost function EkfCorrect(s: Setup, e: Estimate, m: Measurement): Estimate
    requires s.Valid()
  {
    if E.FitsState(s.n, StateOf(e, 0, true)) && E.FitsMeasurement(s.n, m) then
      EstimateOf(E.Corrected(s.n, s.lib, StateOf(e, 0, true), m))
    else e
  }

  ghost function EkfInitial(s: Setup, e: Estimate, m: Measurement): Estimate
    requires s.Valid()
  {
    if E.FitsState(s.n, StateOf(e, 0, false)) && E.FitsMeasurement(s.n, m) then
      EstimateOf(E.Processed(s.n, s.lib, s.motion, s.q, StateOf(e, 0, false), m))
    else e
  }

  /** The extended Kalman filter as the inner filter of the cycle.  It has no cache. */
  ghost function EkfDynamics(s: Setup): Dynamics
    requires s.Valid()
  {
    Dynamics(
      (e: Estimate, time: int, delta: int) => (EkfPredict(s, e, delta), NO_CACHE),
      (e: Estimate, c: Cache, m: Measurement) => (EkfCorrect(s, e, m), NO_CACHE),
      (e: Estimate, m: Measurement) => EkfInitial(s, e, m))
  }

  /** The replayed filter holds the state of the extended Kalman filter. */
  ghost predicate Mirrors(f: Filter, s: E.State) {
    s == StateOf(f.estimate, f.last, f.initialized)
  }

  ghost predicate Fits(s: Setup, m: Measurement) {
    E.FitsMeasurement(s.n, m) && IsCovariance(m.payload.covariance)
  }

  /** What predict and correct do to the estimate does not depend on the clock or the flag. */
  lemma PredictIgnoresClock(s: Setup, a: E.State, b: E.State, dt: real)
    requires s.Valid() && E.FitsState(s.n, a) && a.x == b.x && a.p == b.p
    ensures EstimateOf(E.Predicted(s.n, s.lib, s.motion, s.q, a, dt)) ==
            EstimateOf(E.Predicted(s.n, s.lib, s.motion, s.q, b, dt))
  {
    hide IsCovariance, E.Wrapped, Add, Congruence, Scale;
  }

  lemma CorrectIgnoresClock(s: Setup, a: E.State, b: E.State, m: Measurement)
    requires s.Valid() && E.FitsState(s.n, a) && E.FitsMeasurement(s.n, m) && a.x == b.x && a.p == b.p
    ensures EstimateOf(E.Corrected(s.n, s.lib, a, m)) == EstimateOf(E.Corrected(s.n, s.lib, b, m))
  {
    hide IsCovariance, E.Wrapped, Add, K.Joseph, K.Gain, K.InnovationCovariance, E.Innovation, E.Selection, E.Accepts,
      E.Indices, Mul;
  }

  lemma PredictsAs(s: Setup, e: Estimate, state: E.State, time: int, delta: int)
    requires s.Valid() && E.FitsState(s.n, state) && e == EstimateOf(state)
    ensures EkfDynamics(s).predict(e, time, delta) ==
            (EstimateOf(E.Predicted(s.n, s.lib, s.motion, s.q, state, E.Seconds(delta))), NO_CACHE)
  {
    hide IsCovariance, E.Predicted, E.Corrected;
    PredictIgnoresClock(s, StateOf(e, 0, true), state, E.Seconds(delta));
  }

  lemma CorrectsAs(s: Setup, e: Estimate, c: Cache, state: E.State, m: Measurement)
    requires s.Valid() && E.FitsState(s.n, state) && E.FitsMeasurement(s.n, m) && e == EstimateOf(state)
    ensures EkfDynamics(s).correct(e, c, m) == (EstimateOf(E.Corrected(s.n, s.lib, state, m)), NO_CACHE)
  {
    hide IsCovariance, E.Predicted, E.Corrected;
    CorrectIgnoresClock(s, StateOf(e, 0, true), state, m);
  }

  lemma InitializesAs(s: Setup, e: Estimate, state: E.State, m: Measurement)
    requires s.Valid() && E.FitsState(s.n, state) && E.FitsMeasurement(s.n, m)
    requires e == EstimateOf(state) && !state.initialized
    ensures var next := E.Processed(s.n, s.lib, s.motion, s.q, state, m);
            EkfDynamics(s).initial(e, m) == EstimateOf(next) && next.last == m.time && next.initialized
  {
    hide IsCovariance, E.Predicted, E.Corrected, E.Shaped, E.FirstState;
    assert EkfDynamics(s).initial(e, m) == EkfInitial(s, e, m);
  }

  /** One step of the cycle is one processed measurement. */
  lemma StepIsProcessed(s: Setup, f: Filter, state: E.State, m: Measurement)
    requires s.Valid() && E.FitsState(s.n, state) && E.FitsMeasurement(s.n, m) && Mirrors(f, state)
    ensures Mirrors(Step(EkfDynamics(s), f, m), E.Processed(s.n, s.lib, s.motion, s.q, state, m))
  {
    hide IsCovariance, E.Corrected, E.Predicted, E.Shaped, EkfDynamics;
    if f.initialized {
      var delta := m.time - f.last;
      var ahead := E.Ahead(s.n, s.lib, s.motion, s.q, state, delta);
      PredictsAs(s, f.estimate, state, m.time, delta);
      CorrectsAs(s, EstimateOf(ahead), if delta > 0 then NO_CACHE else f.cache, ahead, m);
    } else {
      InitializesAs(s, f.estimate, state, m);
    }
  }

  lemma {:induction false} FoldIsRun(s: Setup, f: Filter, state: E.State, ms: seq<Measurement>)
    requires s.Valid() && E.FitsState(s.n, state) && Mirrors(f, state) && forall m :: m in ms ==> Fits(s, m)
    ensures E.AllFit(s.n, ms)
    ensures Mirrors(Fold(EkfDynamics(s), f, ms), E.Run(s.n, s.lib, s.motion, s.q, state, ms))
    decreases |ms|
  {
    hide IsCovariance, E.FitsMeasurement, E.Shaped, E.Processed, EkfDynamics, Step;
    assert forall i :: 0 <= i < |ms| ==> ms[i] in ms;
    if ms != [] {
      var (front, m) := (ms[..|ms| - 1], ms[|ms| - 1]);
      assert forall x :: x in front ==> x in ms;
      FoldIsRun(s, f, state, front);
      StepIsProcessed(s, Fold(EkfDynamics(s), f, front), E.Run(s.n, s.lib, s.motion, s.q, state, front), m);
    }
  }

  // ---------------------------------------------------------------------------------------------
  // The covariance in every run

  ghost predicate Sound(s: Setup, e: Estimate) {
    E.FitsState(s.n, StateOf(e, 0, true)) && IsCovariance(e.p)
  }

  /** An uninitialised filter still has the covariance of a reset, which couples nothing. */
  ghost predicate Holds(s: Setup, f: Filter) {
    Sound(s, f.estimate) && (!f.initialized ==> f.estimate.p == E.Fresh(s.n).p)
  }

  ghost predicate AllSound(s: Setup, states: seq<Saved>, clock: int) {
    forall i :: 0 <= i < |states| ==> Sound(s, states[i].estimate) && states[i].last <= clock
  }

  ghost predicate AllFits(s: Setup, ms: multiset<Measurement>) {
    forall m :: m in ms ==> Fits(s, m)
  }

  /** The filter and every state it may go back to hold covariances and are not ahead of the clock. */
  ghost predicate Keeps(s: Setup, n: Node, clock: int) {
    && Holds(s, n.filter) && (n.filter.initialized ==> n.filter.last <= clock)
    && AllSound(s, n.states, clock) && (n.states != [] ==> n.filter.initialized)
    && AllFits(s, n.queue) && AllFits(s, multiset(n.history))
  }

  lemma StepHolds(s: Setup, f: Filter, m: Measurement)
    requires s.Valid() && Holds(s, f) && Fits(s, m)
    ensures Holds(s, Step(EkfDynamics(s), f, m))
  {
    var state := StateOf(f.estimate, f.last, f.initialized);
    hide IsCovariance, E.Shaped, E.FitsMeasurement, E.Processed, EkfDynamics, Step;
    StepIsProcessed(s, f, state, m);
    if !f.initialized { E.FreshIsUncoupled(s.n, E.Measured(m.payload.update)); }
    hide E.Fresh, Uncoupled;
    E.ProcessKeepsCovariance(s.n, s.lib, s.motion, s.q, state, m);
  }

  lemma StepClock(d: Dynamics, f: Filter, m: Measurement, clock: int)
    requires (f.initialized ==> f.last <= clock) && m.time <= clock
    ensures Step(d, f, m).initialized && Step(d, f, m).last <= clock
  {
  }

  lemma PredictHolds(s: Setup, f: Filter, now: int)
    requires s.Valid() && Holds(s, f) && f.initialized && f.last <= now
    ensures Holds(s, PredictTo(EkfDynamics(s), f, now))
  {
    hide IsCovariance, E.Shaped, E.Predicted, EkfDynamics, E.Fresh;
    var state := StateOf(f.estimate, 0, true);
    PredictsAs(s, f.estimate, state, now, now - f.last);
    E.PredictKeepsCovariance(s.n, s.lib, s.motion, s.q, state, E.Seconds(now - f.last));
  }

  lemma {:induction false} RestoredWerePopped(popped: seq<Measurement>, from: int)
    ensures forall m :: m in RestoredFrom(popped, from) ==> m in popped
    decreases |popped|
  {
    if popped != [] { RestoredWerePopped(popped[1..], from); }
  }

  lemma {:induction false} KeptIsPrefix(history: seq<Measurement>, t: int)
    ensures KeepHistory(history, t) == history[..|KeepHistory(history, t)|]
    decreases |history|
  {
    if history != [] && history[|history| - 1].time > t {
      KeptIsPrefix(history[..|history| - 1], t);
    }
  }

  /** Going back, however far, even to a state that is too new for the late data. */
  lemma RevertHolds(s: Setup, n: Node, t: int, clock: int)
    requires Keeps(s, n, clock)
    ensures Keeps(s, RevertTo(n, t), clock)
  {
    hide Holds, Fits, Sound, KeepStates, RestoredFrom, KeepHistory;
    var k := KeptStates(n.states, t);
    if n.states != [] {
      KeptIsPrefix(n.history, t);
      var q := |KeepHistory(n.history, t)|;
      RestoredWerePopped(n.history[q..], (if k > 0 then n.states[k - 1] else n.states[0]).last);
      assert forall m :: m in n.history ==> m in multiset(n.history);
      RestoredHolds(s, n.filter, if k > 0 then n.states[k - 1] else n.states[0], clock);
    }
  }

  lemma RestoredHolds(s: Setup, f: Filter, saved: Saved, clock: int)
    requires f.initialized && Sound(s, saved.estimate) && saved.last <= clock
    ensures Holds(s, f.(estimate := saved.estimate, last := saved.last))
  {
  }

  lemma DrainStepHolds(s: Setup, smooth: bool, n: Node, m: Measurement, clock: int)
    requires s.Valid() && Keeps(s, n, clock) && m in n.queue && m.time <= clock
    ensures Keeps(s, DrainStep(EkfDynamics(s), smooth, n, m), clock)
  {
    StepHoldsAt(s, n, m, clock);
    var f := Step(EkfDynamics(s), n.filter, m);
    hide Keeps, Holds, Step, SavesAfter, EkfDynamics, AllFits;
    if smooth {
      TakenHolds(s, n, m, f, clock);
      SavedHolds(s, Node(f, n.queue - multiset{m}, n.history + [m], n.states), clock);
    } else {
      ReplacedHolds(s, n, f, n.queue - multiset{m}, clock);
    }
  }

  lemma StepHoldsAt(s: Setup, n: Node, m: Measurement, clock: int)
    requires s.Valid() && Keeps(s, n, clock) && m in n.queue && m.time <= clock
    ensures var f := Step(EkfDynamics(s), n.filter, m); Holds(s, f) && f.initialized && f.last <= clock
    ensures AllFits(s, n.queue - multiset{m})
  {
    hide Holds, Fits, Sound, AllSound;
    StepClock(EkfDynamics(s), n.filter, m, clock);
    hide Step, EkfDynamics;
    OneLess(s, n.queue, m);
    StepHolds(s, n.filter, m);
  }

  lemma ReplacedHolds(s: Setup, n: Node, f: Filter, queue: multiset<Measurement>, clock: int)
    requires Keeps(s, n, clock) && Holds(s, f) && f.initialized && f.last <= clock && AllFits(s, queue)
    ensures Keeps(s, n.(filter := f, queue := queue), clock)
  {
    hide Holds, AllSound, AllFits;
  }

  lemma TakenHolds(s: Setup, n: Node, m: Measurement, f: Filter, clock: int)
    requires Keeps(s, n, clock) && Holds(s, f) && f.initialized && f.last <= clock && m in n.queue
    ensures Keeps(s, Node(f, n.queue - multiset{m}, n.history + [m], n.states), clock)
  {
    hide Holds, AllSound;
    OneLess(s, n.queue, m);
    OneMore(s, n.history, m);
    hide AllFits, Fits;
  }

  lemma SavedHolds(s: Setup, n: Node, clock: int)
    requires Keeps(s, n, clock) && n.filter.initialized
    ensures Keeps(s, n.(states := n.states + [Snapshot(n.filter)]), clock)
  {
    SavedIsSound(s, n.states, n.filter, clock);
    hide Holds, AllSound, AllFits;
  }

  lemma OneLess(s: Setup, queue: multiset<Measurement>, m: Measurement)
    requires AllFits(s, queue) && m in queue
    ensures Fits(s, m) && AllFits(s, queue - multiset{m})
  {
    hide Fits;
  }

  lemma OneMore(s: Setup, history: seq<Measurement>, m: Measurement)
    requires AllFits(s, multiset(history)) && Fits(s, m)
    ensures AllFits(s, multiset(history + [m]))
  {
    hide Fits;
  }

  lemma SavedIsSound(s: Setup, states: seq<Saved>, f: Filter, clock: int)
    requires AllSound(s, states, clock) && Holds(s, f) && f.last <= clock
    ensures AllSound(s, states + [Snapshot(f)], clock)
  {
    hide Sound;
  }

  lemma {:induction false} DrainHolds(
    s: Setup, smooth: bool, now: int, n: Node, batch: seq<Measurement>, mid: Node)
    requires s.Valid() && Keeps(s, n, now) && Drains(EkfDynamics(s), smooth, now, n, batch, mid)
    ensures Keeps(s, mid, now)
    decreases |batch|
  {
    hide Keeps, DrainStep, EkfDynamics;
    if batch != [] {
      DrainStepHolds(s, smooth, n, batch[0], now);
      DrainHolds(s, smooth, now, DrainStep(EkfDynamics(s), smooth, n, batch[0]), batch[1..], mid);
    }
  }

  lemma PredictAheadHolds(s: Setup, n: Node, now: int, wanted: bool)
    requires s.Valid() && Keeps(s, n, now)
    ensures Keeps(s, PredictAhead(EkfDynamics(s), n, now, wanted), now)
  {
    hide Holds, Fits, Sound, EkfDynamics;
    if n.filter.initialized && wanted { PredictHolds(s, n.filter, now); }
  }

  lemma ExpireHolds(s: Setup, n: Node, cutoff: int, clock: int)
    requires Keeps(s, n, clock)
    ensures Keeps(s, ClearExpired(n, cutoff), clock)
  {
    hide Holds, Fits, Sound, DropOldMeasurements, DropOldStates;
    var j := DroppedMeasurements(n.history, cutoff);
    var k := DroppedStates(n.states, cutoff);
    assert forall m :: m in n.history ==> m in multiset(n.history);
  }

  lemma LaterHolds(s: Setup, n: Node, clock: int, now: int)
    requires Keeps(s, n, clock) && clock <= now
    ensures Keeps(s, n, now)
  {
  }

  /** One update, smoothing or not, with or without late data, predicting or not. */
  lemma UpdateHolds(s: Setup, cfg: Config, n: Node, now: int, n': Node)
    requires s.Valid() && Keeps(s, n, now) && Updates(EkfDynamics(s), cfg, n, now, n')
    ensures Keeps(s, n', now)
  {
    hide Keeps, Drains, RevertTo, TimedOut, PredictAhead, ClearExpired, EkfDynamics, IsLate;
    var d := EkfDynamics(s);
    var batch, mid :| Integrates(d, cfg, n, now, batch, mid)
                      && n' == if cfg.smooth then ClearExpired(mid, mid.filter.last - cfg.historyLength) else mid;
    var wanted := cfg.predictToNow || TimedOut(cfg, n, now);
    var drained :| Drains(d, cfg.smooth, now, DrainStart(cfg, n), batch, drained)
                   && mid == PredictAhead(d, drained, now, wanted);
    StartHolds(s, cfg, n, now);
    DrainHolds(s, cfg.smooth, now, DrainStart(cfg, n), batch, drained);
    PredictAheadHolds(s, drained, now, wanted);
    ExpireHolds(s, mid, mid.filter.last - cfg.historyLength, now);
  }

  lemma StartHolds(s: Setup, cfg: Config, n: Node, now: int)
    requires Keeps(s, n, now)
    ensures Keeps(s, DrainStart(cfg, n), now)
  {
    hide Keeps, RevertTo;
    if IsLate(cfg, n) { RevertHolds(s, n, TopTime(n.queue) - 1, now); }
  }

  /** A run from a node with nothing queued and no history in which the clock does not go back. */
  ghost predicate IsForwardRun(d: Dynamics, cfg: Config, events: seq<Event>, nodes: seq<Node>) {
    && |nodes| == |events| + 1
    && nodes[0].queue == multiset{} && nodes[0].history == [] && nodes[0].states == []
    && forall i :: 0 <= i < |events| ==> ForwardStep(d, cfg, events, nodes, i)
  }

  ghost predicate ForwardStep(d: Dynamics, cfg: Config, events: seq<Event>, nodes: seq<Node>, i: nat) {
    && i < |events| && i + 1 < |nodes|
    && Next(d, cfg, nodes[i], events[i], nodes[i + 1])
    && (events[i].Update? && Clock(events[..i]).Some? ==> Clock(events[..i]).value <= events[i].now)
  }

  lemma ForwardPrefix(d: Dynamics, cfg: Config, events: seq<Event>, nodes: seq<Node>)
    requires IsForwardRun(d, cfg, events, nodes) && events != []
    ensures IsForwardRun(d, cfg, events[..|events| - 1], nodes[..|events|])
  {
    hide Next;
    var n := |events| - 1;
    forall i | 0 <= i < n
      ensures ForwardStep(d, cfg, events[..n], nodes[..|events|], i)
    {
      assert ForwardStep(d, cfg, events, nodes, i);
      assert events[..n][..i] == events[..i];
    }
  }

  /** Before the first update the filter is not initialised and the clock can be anything. */
  ghost predicate KeptAt(s: Setup, n: Node, clock: Option<int>) {
    match clock
    case None => !n.filter.initialized && forall now :: Keeps(s, n, now)
    case Some(t) => Keeps(s, n, t)
  }

  lemma ArriveHolds(s: Setup, n: Node, m: Measurement, clock: int)
    requires Keeps(s, n, clock) && Fits(s, m)
    ensures Keeps(s, n.(queue := n.queue + multiset{m}), clock)
  {
    hide Holds, Fits, Sound;
  }

  lemma NextHolds(s: Setup, cfg: Config, n: Node, clock: Option<int>, e: Event, n': Node)
    requires s.Valid() && KeptAt(s, n, clock) && Next(EkfDynamics(s), cfg, n, e, n')
    requires e.Update? && clock.Some? ==> clock.value <= e.now
    requires e.Arrive? ==> Fits(s, e.m)
    ensures KeptAt(s, n', if e.Update? then Some(e.now) else clock)
  {
    hide Keeps, Updates, EkfDynamics, Fits;
    match e
    case Arrive(m) =>
      if clock.Some? {
        ArriveHolds(s, n, m, clock.value);
      } else {
        forall now: int
          ensures Keeps(s, n', now)
        {
          ArriveHolds(s, n, m, now);
        }
      }
    case Update(now) =>
      if clock.Some? { LaterHolds(s, n, clock.value, now); }
      UpdateHolds(s, cfg, n, now, n');
  }

  lemma StartIsKept(s: Setup, n: Node)
    requires s.Valid() && Mirrors(n.filter, E.Fresh(s.n))
    requires n.queue == multiset{} && n.history == [] && n.states == []
    ensures KeptAt(s, n, None)
  {
    hide IsCovariance, Fits, E.Shaped;
    E.FreshIsCovariance(s.n);
  }

  /** After any events of any run from a reset, the covariance of the filter and of every state it may go
      back to is symmetric positive semidefinite: with smoothing or without, whatever is late or overtakes
      a prediction, and even if no saved state is old enough.  Only the clock must not go back. */
  lemma {:induction false} EveryRunKeepsCovariance(s: Setup, cfg: Config, events: seq<Event>, nodes: seq<Node>)
    requires s.Valid() && IsForwardRun(EkfDynamics(s), cfg, events, nodes)
    requires Mirrors(nodes[0].filter, E.Fresh(s.n)) && forall m :: m in Received(events) ==> Fits(s, m)
    ensures KeptAt(s, nodes[|events|], Clock(events))
    ensures IsCovariance(nodes[|events|].filter.estimate.p)
    decreases |events|
  {
    hide Keeps, Fits, EkfDynamics, Next, Mirrors, E.Shaped, IsCovariance, IsForwardRun;
    RunSize(EkfDynamics(s), cfg, events, nodes);
    if events == [] {
      StartIsKept(s, nodes[0]);
    } else {
      var n := |events| - 1;
      ForwardPrefix(EkfDynamics(s), cfg, events, nodes);
      EveryRunKeepsCovariance(s, cfg, events[..n], nodes[..|events|]);
      LastForward(EkfDynamics(s), cfg, events, nodes);
      NextHolds(s, cfg, nodes[n], Clock(events[..n]), events[n], nodes[n + 1]);
    }
    KeptIsCovariance(s, nodes[|events|], Clock(events));
  }

  lemma RunSize(d: Dynamics, cfg: Config, events: seq<Event>, nodes: seq<Node>)
    requires IsForwardRun(d, cfg, events, nodes)
    ensures |nodes| == |events| + 1 && nodes[0].queue == multiset{} && nodes[0].history == [] && nodes[0].states == []
  {
  }

  lemma LastForward(d: Dynamics, cfg: Config, events: seq<Event>, nodes: seq<Node>)
    requires IsForwardRun(d, cfg, events, nodes) && events != []
    ensures var n := |events| - 1;
            && Next(d, cfg, nodes[n], events[n], nodes[n + 1])
            && (events[n].Update? && Clock(events[..n]).Some? ==> Clock(events[..n]).value <= events[n].now)
  {
    hide Next;
    assert ForwardStep(d, cfg, events, nodes, |events| - 1);
  }

  lemma KeptIsCovariance(s: Setup, n: Node, clock: Option<int>)
    requires KeptAt(s, n, clock)
    ensures IsCovariance(n.filter.estimate.p)
  {
    hide IsCovariance;
    if clock.None? { assert Keeps(s, n, 0); }
  }

  // ---------------------------------------------------------------------------------------------
  // The estimate

  /** If overtaken predictions were harmless, the state is that of the measurements received so far,
      processed in time order, whatever was late; the predictions made since data was last due, if any,
      come on top. */
  lemma LateDataIsInOrder(s: Setup, cfg: Config, events: seq<Event>, nodes: seq<Node>) returns (done: seq<Measurement>)
    requires s.Valid() && cfg.smooth && IsRun(EkfDynamics(s), cfg, events, nodes)
    requires Mirrors(nodes[0].filter, E.Fresh(s.n)) && AllTolerable(cfg, events, nodes)
    requires events != [] && events[|events| - 1].Update? && forall m :: m in Received(events) ==> Fits(s, m)
    ensures Arranges(done, Received(events), events[|events| - 1].now) && E.AllFit(s.n, done)
    ensures var (d, inOrder) := (EkfDynamics(s), Fold(EkfDynamics(s), nodes[0].filter, done));
            && Mirrors(inOrder, E.Run(s.n, s.lib, s.motion, s.q, E.Fresh(s.n), done))
            && nodes[|events|].filter == AheadBy(d, inOrder, Predicted(cfg, events, nodes))
  {
    assert |nodes| == |events| + 1;
    hide IsCovariance, IsRun, Received, AllTolerable, Predicted, E.Shaped, E.FitsMeasurement, EkfDynamics, Arranges;
    done := ReplayEqualsInOrder(EkfDynamics(s), cfg, events, nodes);
    AllReceived(done, Received(events), events[|events| - 1].now);
    FoldIsRun(s, nodes[0].filter, E.Fresh(s.n), done);
  }

  lemma AllReceived(done: seq<Measurement>, received: multiset<Measurement>, now: int)
    requires Arranges(done, received, now)
    ensures forall m :: m in done ==> m in received
  {
    forall m | m in done
      ensures m in received
    {
      assert m in multiset(done);
    }
  }
}
