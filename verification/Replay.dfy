/** Lagged-data replay (ros_filter.cpp) on values: what one call does to the queue, the two
    histories and the filter, and why late data gives the same answer as data in order.
    RosFilter.dfy holds the class whose methods are proved against these definitions. */
module Replay {
  import opened Options
  import opened FilterCycle

  /** What saveFilterState records. */
  datatype Saved = Saved(estimate: Estimate, last: int)

  datatype Config = Config(smooth: bool, historyLength: nat, predictToNow: bool, sensorTimeout: int)

  datatype Node = Node(
    filter: Filter,
    queue: multiset<Measurement>,
    history: seq<Measurement>,
    states: seq<Saved>)

  ghost function Snapshot(f: Filter): Saved {
    Saved(f.estimate, f.last)
  }

  // ---------------------------------------------------------------------------------------------
  // The measurement queue: a priority queue by stamp.  The order among equal stamps is open.

  ghost predicate IsTop(m: Measurement, q: multiset<Measurement>) {
    m in q && forall x :: x in q ==> m.time <= x.time
  }

  lemma {:induction false} TopExists(q: multiset<Measurement>)
    requires q != multiset{}
    ensures exists m :: IsTop(m, q)
    decreases |q|
  {
    var x :| x in q;
    var rest := q - multiset{x};
    if rest == multiset{} {
      assert q == multiset{x};
      assert IsTop(x, q);
    } else {
      TopExists(rest);
      var m :| IsTop(m, rest);
      var t := if m.time <= x.time then m else x;
      forall y | y in q
        ensures t.time <= y.time
      {
        assert y == x || y in rest;
      }
      assert IsTop(t, q);
    }
  }

  ghost function TopTime(q: multiset<Measurement>): (t: int)
    requires q != multiset{}
    ensures exists m :: m in q && m.time == t
    ensures forall x :: x in q ==> t <= x.time
  {
    TopExists(q);
    var m :| IsTop(m, q);
    m.time
  }

  // ---------------------------------------------------------------------------------------------
  // revertTo and clearExpiredHistory

  ghost function KeepStates(states: seq<Saved>, t: int): seq<Saved> {
    if states == [] || states[|states| - 1].last <= t then states
    else KeepStates(states[..|states| - 1], t)
  }

  ghost function KeepHistory(history: seq<Measurement>, t: int): (r: seq<Measurement>)
    ensures |r| <= |history|
  {
    if history == [] || history[|history| - 1].time <= t then history
    else KeepHistory(history[..|history| - 1], t)
  }

  /** The popped measurements that go back to the queue. */
  ghost function RestoredFrom(popped: seq<Measurement>, from: int): multiset<Measurement> {
    if popped == [] then multiset{}
    else
      (if from <= popped[0].time then multiset{popped[0]} else multiset{}) + RestoredFrom(popped[1..], from)
  }

  /** The state revertTo goes back to: the newest one at or before `t`, else the oldest one. */
  ghost function Target(states: seq<Saved>, t: int): Option<Saved> {
    var kept := KeepStates(states, t);
    if kept != [] then Some(kept[|kept| - 1]) else if states != [] then Some(states[0]) else None
  }

  ghost function RevertTo(n: Node, t: int): Node {
    match Target(n.states, t)
    case None => n
    case Some(s) =>
      var kept := KeepHistory(n.history, t);
      Node(n.filter.(estimate := s.estimate, last := s.last),
           n.queue + RestoredFrom(n.history[|kept|..], s.last), kept, KeepStates(n.states, t))
  }

  ghost function DropOldMeasurements(history: seq<Measurement>, cutoff: int): seq<Measurement> {
    if history == [] || history[0].time >= cutoff then history else DropOldMeasurements(history[1..], cutoff)
  }

  ghost function DropOldStates(states: seq<Saved>, cutoff: int): seq<Saved> {
    if states == [] || states[0].last >= cutoff then states else DropOldStates(states[1..], cutoff)
  }

  ghost function ClearExpired(n: Node, cutoff: int): Node {
    n.(history := DropOldMeasurements(n.history, cutoff), states := DropOldStates(n.states, cutoff))
  }

  // ---------------------------------------------------------------------------------------------
  // integrateMeasurements

  /** Whether the state is saved after a measurement, given what is left in the queue. */
  ghost predicate SavesAfter(f: Filter, queue: multiset<Measurement>) {
    queue == multiset{} || TopTime(queue) != f.last
  }

  /** One pass of the drain loop: `m` leaves the queue and is processed and recorded. */
  ghost function DrainStep(
    d: Dynamics, smooth: bool, n: Node, m: Measurement): Node
  {
    var f := Step(d, n.filter, m);
    var queue := n.queue - multiset{m};
    if smooth then
      Node(f, queue, n.history + [m], if SavesAfter(f, queue) then n.states + [Snapshot(f)] else n.states)
    else
      n.(filter := f, queue := queue)
  }

  /** The whole loop: it takes `batch` off the queue in that order and leaves only the future. */
  ghost predicate Drains(
    d: Dynamics, smooth: bool, now: int, n: Node, batch: seq<Measurement>, n': Node)
    decreases |batch|
  {
    if batch == [] then
      n' == n && forall x :: x in n.queue ==> now < x.time
    else
      && IsTop(batch[0], n.queue) && batch[0].time <= now
      && Drains(d, smooth, now, DrainStep(d, smooth, n, batch[0]), batch[1..], n')
  }

  /** An initialised filter predicted to a time without a measurement. */
  function PredictTo(d: Dynamics, f: Filter, now: int): Filter {
    var (e, c) := d.predict(f.estimate, now, now - f.last);
    Filter(e, c, now, true)
  }

  ghost function PredictAhead(d: Dynamics, n: Node, now: int, wanted: bool): Node {
    if n.filter.initialized && wanted then n.(filter := PredictTo(d, n.filter, now)) else n
  }

  ghost predicate IsLate(cfg: Config, n: Node) {
    cfg.smooth && n.queue != multiset{} && TopTime(n.queue) < n.filter.last
  }

  /** The node from which the drain starts. */
  ghost function DrainStart(cfg: Config, n: Node): Node {
    if IsLate(cfg, n) then RevertTo(n, TopTime(n.queue) - 1) else n
  }

  ghost predicate TimedOut(cfg: Config, n: Node, now: int) {
    n.queue == multiset{} && n.filter.initialized && now - n.filter.last >= cfg.sensorTimeout
  }

  ghost predicate Integrates(
    d: Dynamics, cfg: Config, n: Node, now: int, batch: seq<Measurement>, n': Node)
  {
    exists mid ::
      && Drains(d, cfg.smooth, now, DrainStart(cfg, n), batch, mid)
      && n' == PredictAhead(d, mid, now, cfg.predictToNow || TimedOut(cfg, n, now))
  }

  /** One enabled, toggled-on periodicUpdate. */
  ghost predicate Updates(
    d: Dynamics, cfg: Config, n: Node, now: int, n': Node)
  {
    exists batch, mid ::
      && Integrates(d, cfg, n, now, batch, mid)
      && n' == if cfg.smooth then ClearExpired(mid, mid.filter.last - cfg.historyLength) else mid
  }
}
