/** What one update does to the node, said without the engine's own vocabulary: when an idle filter is
    predicted, what a busy one processes, what is recorded and what is forgotten. */
module UpdateEffects {
  import opened Options
  import opened FilterCycle
  import opened Replay
  import opened InOrder

  // ---------------------------------------------------------------------------------------------
  // The parts of an update

  /** The filter is untouched by expiry, and the queue too. */
  lemma UpdateParts(d: Dynamics, cfg: Config, n: Node, now: int, n': Node)
    returns (batch: seq<Measurement>, drained: Node, ahead: Node)
    requires Updates(d, cfg, n, now, n')
    ensures Drains(d, cfg.smooth, now, DrainStart(cfg, n), batch, drained)
    ensures ahead == PredictAhead(d, drained, now, cfg.predictToNow || TimedOut(cfg, n, now))
    ensures n' == if cfg.smooth then ClearExpired(ahead, ahead.filter.last - cfg.historyLength) else ahead
  {
    hide Drains, DrainStart, ClearExpired, TimedOut, PredictAhead;
    var b, mid :| Integrates(d, cfg, n, now, b, mid)
                  && n' == if cfg.smooth then ClearExpired(mid, mid.filter.last - cfg.historyLength) else mid;
    batch, ahead := b, mid;
    drained :| Drains(d, cfg.smooth, now, DrainStart(cfg, n), batch, drained)
               && mid == PredictAhead(d, drained, now, cfg.predictToNow || TimedOut(cfg, n, now));
  }

  lemma NothingToDrain(d: Dynamics, smooth: bool, now: int, n: Node, batch: seq<Measurement>, n': Node)
    requires Drains(d, smooth, now, n, batch, n') && forall x :: x in n.queue ==> now < x.time
    ensures batch == [] && n' == n
  {
  }

  // ---------------------------------------------------------------------------------------------
  // An update with nothing queued

  /** An idle filter is left alone until the sensor timeout, unless it is to follow the clock; then it is
      predicted to now, once. */
  lemma IdleUpdate(d: Dynamics, cfg: Config, n: Node, now: int, n': Node)
    requires Updates(d, cfg, n, now, n') && n.queue == multiset{}
    ensures n'.queue == multiset{}
    ensures !n.filter.initialized ==> n'.filter == n.filter
    ensures n.filter.initialized && !cfg.predictToNow && now - n.filter.last < cfg.sensorTimeout ==>
              n'.filter == n.filter
    ensures n.filter.initialized && (cfg.predictToNow || now - n.filter.last >= cfg.sensorTimeout) ==>
              && (n'.filter.estimate, n'.filter.cache) == d.predict(n.filter.estimate, now, now - n.filter.last)
              && n'.filter.last == now && n'.filter.initialized
  {
    var batch, drained, ahead := UpdateParts(d, cfg, n, now, n');
    NothingToDrain(d, cfg.smooth, now, n, batch, drained);
  }

  /** So an initialised filter is never further behind than the timeout after such an update. */
  lemma IdleKeepsUp(d: Dynamics, cfg: Config, n: Node, now: int, n': Node)
    requires Updates(d, cfg, n, now, n') && n.queue == multiset{} && n.filter.initialized && cfg.sensorTimeout > 0
    ensures now - n'.filter.last < cfg.sensorTimeout
  {
    hide Updates;
    IdleUpdate(d, cfg, n, now, n');
  }

  /** In every run: whenever an update finds nothing queued, the filter keeps up with the clock. */
  lemma RunKeepsUp(d: Dynamics, cfg: Config, events: seq<Event>, nodes: seq<Node>, i: nat)
    requires IsRun(d, cfg, events, nodes) && i < |events| && events[i].Update? && cfg.sensorTimeout > 0
    requires nodes[i].queue == multiset{} && nodes[i].filter.initialized
    ensures events[i].now - nodes[i + 1].filter.last < cfg.sensorTimeout
  {
    hide Updates, Replayable;
    assert RunStep(d, cfg, events, nodes, i);
    IdleKeepsUp(d, cfg, nodes[i], events[i].now, nodes[i + 1]);
  }

  // ---------------------------------------------------------------------------------------------
  // An update with something queued

  /** `batch` is what is due, in time order, and the rest is in the future. */
  ghost predicate IsDueInOrder(queue: multiset<Measurement>, now: int, batch: seq<Measurement>) {
    && TimeSorted(batch)
    && forall m :: multiset(batch)[m] == if m.time <= now then queue[m] else 0
  }

  lemma {:induction false} DrainTakesDue(
    d: Dynamics, smooth: bool, now: int, n: Node, batch: seq<Measurement>, n': Node)
    requires Drains(d, smooth, now, n, batch, n')
    ensures IsDueInOrder(n.queue, now, batch) && n'.queue == n.queue - multiset(batch)
    ensures n'.filter == Fold(d, n.filter, batch)
    decreases |batch|
  {
    hide Step, SavesAfter, Fold, IsDueInOrder, DrainStep;
    if batch == [] {
      NothingTaken(d, n, now);
    } else {
      var (m, rest) := (batch[0], batch[1..]);
      assert batch == [m] + rest;
      DrainTakesDue(d, smooth, now, DrainStep(d, smooth, n, m), rest, n');
      hide Drains;
      TakesOneMore(d, smooth, n, m, rest);
      FirstIsOldest(n.queue, now, m, rest);
    }
  }

  lemma NothingTaken(d: Dynamics, n: Node, now: int)
    requires forall x :: x in n.queue ==> now < x.time
    ensures IsDueInOrder(n.queue, now, []) && n.queue - multiset([]) == n.queue && Fold(d, n.filter, []) == n.filter
  {
  }

  lemma TakesOneMore(d: Dynamics, smooth: bool, n: Node, m: Measurement, rest: seq<Measurement>)
    ensures var next := DrainStep(d, smooth, n, m);
            && next.queue == n.queue - multiset{m}
            && next.queue - multiset(rest) == n.queue - multiset([m] + rest)
            && Fold(d, next.filter, rest) == Fold(d, n.filter, [m] + rest)
  {
    FoldConcat(d, n.filter, [m], rest);
    FoldOne(d, n.filter, m);
    hide Step, SavesAfter, Fold;
  }

  lemma FoldOne(d: Dynamics, f: Filter, m: Measurement)
    ensures Fold(d, f, [m]) == Step(d, f, m)
  {
    assert [m][..0] == [];
  }

  lemma FirstIsOldest(queue: multiset<Measurement>, now: int, m: Measurement, rest: seq<Measurement>)
    requires IsTop(m, queue) && m.time <= now && IsDueInOrder(queue - multiset{m}, now, rest)
    ensures IsDueInOrder(queue, now, [m] + rest)
  {
    forall i | 0 <= i < |rest|
      ensures m.time <= rest[i].time
    {
      assert rest[i] in multiset(rest);
    }
  }

  /** With something queued and no wish to follow the clock nothing is predicted after the drain: if no
      queued measurement is older than the filter, the filter is exactly that of the due ones on top of
      itself, oldest first. */
  lemma BusyUpdate(d: Dynamics, cfg: Config, n: Node, now: int, n': Node) returns (batch: seq<Measurement>)
    requires Updates(d, cfg, n, now, n') && n.queue != multiset{}
    requires !cfg.smooth || forall m :: m in n.queue ==> n.filter.last <= m.time
    ensures IsDueInOrder(n.queue, now, batch) && n'.queue == n.queue - multiset(batch)
    ensures var f := Fold(d, n.filter, batch);
            if cfg.predictToNow && f.initialized then
              && (n'.filter.estimate, n'.filter.cache) == d.predict(f.estimate, now, now - f.last)
              && n'.filter.last == now && n'.filter.initialized
            else n'.filter == f
  {
    hide Drains, IsDueInOrder, Fold;
    var drained, ahead;
    batch, drained, ahead := UpdateParts(d, cfg, n, now, n');
    NotLate(cfg, n);
    DrainTakesDue(d, cfg.smooth, now, n, batch, drained);
  }

  lemma NotLate(cfg: Config, n: Node)
    requires !cfg.smooth || forall m :: m in n.queue ==> n.filter.last <= m.time
    ensures !IsLate(cfg, n) && DrainStart(cfg, n) == n
  {
  }

  /** Only what is older than the filter makes it go back, and then to a state no later than just before the
      oldest, if there is one. */
  lemma LateUpdateReverts(cfg: Config, n: Node, m: Measurement)
    requires cfg.smooth && m in n.queue && m.time < n.filter.last
    requires n.states != [] && forall x :: x in n.queue ==> m.time <= x.time
    ensures var back := DrainStart(cfg, n);
            && (exists s :: s in n.states && back.filter.estimate == s.estimate && back.filter.last == s.last)
            && (n.states[0].last < m.time ==> back.filter.last < m.time)
  {
    hide KeepHistory, RestoredFrom;
    assert TopTime(n.queue) == m.time;
    KeptIsOld(n.states, m.time - 1);
  }

  lemma {:induction false} KeptIsOld(states: seq<Saved>, t: int)
    ensures KeepStates(states, t) <= states
    ensures KeepStates(states, t) != [] ==> KeepStates(states, t)[|KeepStates(states, t)| - 1].last <= t
    ensures states != [] && states[0].last <= t ==> KeepStates(states, t) != []
    decreases |states|
  {
    if states != [] && states[|states| - 1].last > t {
      KeptIsOld(states[..|states| - 1], t);
    }
  }

  // ---------------------------------------------------------------------------------------------
  // What is recorded

  /** Without smoothing nothing is. */
  lemma {:induction false} PlainDrainRecordsNothing(d: Dynamics, now: int, n: Node, batch: seq<Measurement>, n': Node)
    requires Drains(d, false, now, n, batch, n')
    ensures n'.history == n.history && n'.states == n.states
    decreases |batch|
  {
    hide Step, SavesAfter;
    if batch != [] {
      PlainDrainRecordsNothing(d, now, DrainStep(d, false, n, batch[0]), batch[1..], n');
    }
  }

  lemma PlainUpdateRecordsNothing(d: Dynamics, cfg: Config, n: Node, now: int, n': Node)
    requires Updates(d, cfg, n, now, n') && !cfg.smooth
    ensures n'.history == n.history && n'.states == n.states
  {
    hide Drains;
    var batch, drained, ahead := UpdateParts(d, cfg, n, now, n');
    PlainDrainRecordsNothing(d, now, n, batch, drained);
  }

  /** The states saved while `batch` is processed: one where the next measurement has another stamp. */
  ghost function SavedAlong(d: Dynamics, f: Filter, batch: seq<Measurement>): seq<Saved>
    decreases |batch|
  {
    if batch == [] then []
    else
      var (g, rest) := (Step(d, f, batch[0]), batch[1..]);
      (if rest == [] || rest[0].time != g.last then [Saved(g.estimate, g.last)] else []) + SavedAlong(d, g, rest)
  }

  ghost predicate InTime(f: Filter, queue: multiset<Measurement>) {
    f.initialized ==> forall m :: m in queue ==> f.last <= m.time
  }

  /** With smoothing every measurement is, and the state once for every stamp, after the last measurement
      that carries it. */
  lemma {:induction false} SmoothDrainRecords(d: Dynamics, now: int, n: Node, batch: seq<Measurement>, n': Node)
    requires Drains(d, true, now, n, batch, n') && InTime(n.filter, n.queue)
    ensures n'.history == n.history + batch && n'.states == n.states + SavedAlong(d, n.filter, batch)
    decreases |batch|
  {
    hide Step, InTime, SavesAfter, DrainStep;
    if batch == [] {
      assert n.history + batch == n.history && n.states + [] == n.states;
    } else {
      var (m, rest, next) := (batch[0], batch[1..], DrainStep(d, true, n, batch[0]));
      FirstInTime(d, n, m, next);
      SavesByNext(d, now, next, rest, n');
      SmoothDrainRecords(d, now, next, rest, n');
      hide Drains;
      StepRecords(d, n, m, rest);
      var (along, saved) := (SavedAlong(d, next.filter, rest), next.states[|n.states|..]);
      assert SavedAlong(d, n.filter, batch) == saved + along;
      assert next.states + along == n.states + (saved + along);
      assert batch == [m] + rest;
      assert n.history + batch == n.history + [m] + rest;
    }
  }

  lemma FirstInTime(d: Dynamics, n: Node, m: Measurement, next: Node)
    requires InTime(n.filter, n.queue) && IsTop(m, n.queue) && next == DrainStep(d, true, n, m)
    ensures InTime(next.filter, next.queue) && next.filter.last == m.time
  {
    StepIsAt(d, n.filter, m);
    hide Step, SavesAfter;
  }

  lemma StepRecords(d: Dynamics, n: Node, m: Measurement, rest: seq<Measurement>)
    requires var next := DrainStep(d, true, n, m);
             SavesAfter(next.filter, next.queue) <==> rest == [] || rest[0].time != next.filter.last
    ensures var next := DrainStep(d, true, n, m);
            && next.history == n.history + [m] && next.filter == Step(d, n.filter, m)
            && n.states <= next.states
            && next.states[|n.states|..] ==
               if rest == [] || rest[0].time != next.filter.last then
                 [Saved(next.filter.estimate, next.filter.last)]
               else []
  {
    hide Step, SavesAfter;
  }

  lemma StepIsAt(d: Dynamics, f: Filter, m: Measurement)
    requires f.initialized ==> f.last <= m.time
    ensures Step(d, f, m).initialized && Step(d, f, m).last == m.time
  {
  }

  /** What is next in the queue is the next of the batch, if that is due. */
  lemma SavesByNext(d: Dynamics, now: int, n: Node, rest: seq<Measurement>, n': Node)
    requires Drains(d, true, now, n, rest, n') && n.filter.last <= now
    ensures SavesAfter(n.filter, n.queue) <==> rest == [] || rest[0].time != n.filter.last
  {
    hide DrainStep;
    if rest != [] {
      assert TopTime(n.queue) == rest[0].time;
    }
  }

  // ---------------------------------------------------------------------------------------------
  // What is forgotten

  /** After an update with smoothing both histories start within the history length of the filter's clock,
      and what went is older than that. */
  lemma UpdateForgets(d: Dynamics, cfg: Config, n: Node, now: int, n': Node)
    requires Updates(d, cfg, n, now, n') && cfg.smooth
    ensures n'.history != [] ==> n'.filter.last - cfg.historyLength <= n'.history[0].time
    ensures n'.states != [] ==> n'.filter.last - cfg.historyLength <= n'.states[0].last
  {
    hide Drains;
    var batch, drained, ahead := UpdateParts(d, cfg, n, now, n');
    OldIsDropped(ahead.history, ahead.filter.last - cfg.historyLength);
    var k := DroppedStates(ahead.states, ahead.filter.last - cfg.historyLength);
  }

  lemma {:induction false} OldIsDropped(history: seq<Measurement>, cutoff: int)
    ensures var kept := DropOldMeasurements(history, cutoff); kept != [] ==> cutoff <= kept[0].time
    decreases |history|
  {
    if history != [] && history[0].time < cutoff {
      OldIsDropped(history[1..], cutoff);
    }
  }
}
