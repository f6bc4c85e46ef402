/** The measurement engine of ros_filter.cpp: a queue, two histories and the filter, changed in
    place.  Each method is proved against the definitions in Replay.dfy. */
module RosFilters {
  import opened Options
  import opened FilterCycle
  import opened Replay

  /** The fields of filter_base.cpp that a measurement changes. */
  class FilterBase {
    const dynamics: Dynamics
    var estimate: Estimate
    var cache: Cache
    var last: int
    var initialized: bool

    ghost function Value(): Filter
      reads this
    {
      Filter(estimate, cache, last, initialized)
    }

    constructor (dynamics: Dynamics, estimate: Estimate, cache: Cache)
      ensures this.dynamics == dynamics && Value() == Filter(estimate, cache, 0, false)
    {
      this.dynamics := dynamics;
      this.estimate, this.cache, this.last, this.initialized := estimate, cache, 0, false;
    }

    method ProcessMeasurement(m: Measurement)
      modifies this
      ensures Value() == Step(dynamics, old(Value()), m)
    {
      var delta := 0;
      if initialized {
        delta := m.time - last;
        if delta > 0 {
          var (e, c) := dynamics.predict(estimate, m.time, delta);
          estimate, cache := e, c;
        }
        var (e, c) := dynamics.correct(estimate, cache, m);
        estimate, cache := e, c;
      } else {
        estimate := dynamics.initial(estimate, m);
        initialized := true;
      }
      if delta >= 0 {
        last := m.time;
      }
    }
  }

  lemma DrainsCons(d: Dynamics, smooth: bool, now: int, n: Node, m: Measurement, rest: seq<Measurement>, n': Node)
    requires IsTop(m, n.queue) && m.time <= now
    requires Drains(d, smooth, now, DrainStep(d, smooth, n, m), rest, n')
    ensures Drains(d, smooth, now, n, [m] + rest, n')
  {
    assert ([m] + rest)[1..] == rest;
  }

  lemma DrainsNothing(d: Dynamics, smooth: bool, now: int, n: Node)
    requires forall x :: x in n.queue ==> now < x.time
    ensures Drains(d, smooth, now, n, [], n)
  {
  }

  lemma RestoredNothing(from: int)
    ensures RestoredFrom([], from) == multiset{}
  {
  }

  lemma RestoredOneMore(s: seq<Measurement>, k: nat, from: int)
    requires k < |s|
    ensures RestoredFrom(s[k..], from) ==
            (if from <= s[k].time then multiset{s[k]} else multiset{}) + RestoredFrom(s[k + 1..], from)
  {
    assert s[k..][1..] == s[k + 1..];
  }

  class RosFilter {
    const cfg: Config
    const filter: FilterBase
    var queue: multiset<Measurement>
    var history: seq<Measurement>
    var states: seq<Saved>

    ghost function Value(): Node
      reads this, filter
    {
      Node(filter.Value(), queue, history, states)
    }

    constructor (cfg: Config, filter: FilterBase)
      ensures this.cfg == cfg && this.filter == filter
      ensures queue == multiset{} && history == [] && states == []
    {
      this.cfg, this.filter := cfg, filter;
      queue, history, states := multiset{}, [], [];
    }

    method EnqueueMeasurement(m: Measurement)
      modifies this
      ensures Value() == old(Value()).(queue := old(queue) + multiset{m})
    {
      queue := queue + multiset{m};
    }

    /** The top of the priority queue; any of the oldest may be first. */
    method Top() returns (m: Measurement)
      requires queue != multiset{}
      ensures IsTop(m, queue) && m.time == TopTime(queue)
    {
      TopExists(queue);
      m :| m in queue && forall x :: x in queue ==> m.time <= x.time;
    }

    method SaveFilterState()
      modifies this
      ensures Value() == old(Value()).(states := old(states) + [Snapshot(filter.Value())])
    {
      states := states + [Saved(filter.estimate, filter.last)];
    }

    /** Pops the states later than `t`; the last one popped or the one left on top is the target. */
    method PopStates(t: int) returns (target: Option<Saved>)
      modifies this`states
      ensures states == KeepStates(old(states), t) && target == Target(old(states), t)
    {
      target := None;
      while states != [] && states[|states| - 1].last > t
        invariant |states| <= |old(states)| && states == old(states)[..|states|]
        invariant KeepStates(states, t) == KeepStates(old(states), t)
        invariant target == if |states| == |old(states)| then None else Some(old(states)[|states|])
      {
        target := Some(states[|states| - 1]);
        states := states[..|states| - 1];
      }
      if states != [] {
        target := Some(states[|states| - 1]);
      }
    }

    /** Pops the measurements later than `t`; those the restored state does not predate go back. */
    method RestoreMeasurements(t: int, from: int)
      modifies this`history, this`queue
      ensures history == KeepHistory(old(history), t)
      ensures queue == old(queue) + RestoredFrom(old(history)[|history|..], from)
    {
      hide RestoredFrom;
      RestoredNothing(from);
      assert history[|history|..] == [] && history[..|history|] == history;
      while history != [] && history[|history| - 1].time > t
        invariant |history| <= |old(history)| && history == old(history)[..|history|]
        invariant KeepHistory(history, t) == KeepHistory(old(history), t)
        invariant queue == old(queue) + RestoredFrom(old(history)[|history|..], from)
      {
        var m := history[|history| - 1];
        RestoredOneMore(old(history), |history| - 1, from);
        assert history[..|history| - 1] == old(history)[..|history| - 1];
        if from <= m.time {
          queue := queue + multiset{m};
        }
        history := history[..|history| - 1];
      }
    }

    method RevertTo(t: int) returns (reverted: bool)
      modifies this, filter
      ensures Value() == Replay.RevertTo(old(Value()), t)
      ensures reverted == (KeepStates(old(states), t) != [])
    {
      var target := PopStates(t);
      reverted := states != [];
      if target.Some? {
        filter.estimate := target.value.estimate;
        filter.last := target.value.last;
        RestoreMeasurements(t, target.value.last);
      }
    }

    /** One pass of the loop of integrateMeasurements. */
    method ProcessNext(m: Measurement)
      requires IsTop(m, queue)
      modifies this, filter
      ensures Value() == DrainStep(filter.dynamics, cfg.smooth, old(Value()), m)
      ensures |queue| < |old(queue)|
    {
      queue := queue - multiset{m};
      filter.ProcessMeasurement(m);
      if cfg.smooth {
        history := history + [m];
        var due := true;
        if queue != multiset{} {
          var next := Top();
          due := next.time != filter.last;
        }
        if due {
          SaveFilterState();
        }
      }
    }

    method Drain(now: int) returns (ghost batch: seq<Measurement>)
      modifies this, filter
      ensures Drains(filter.dynamics, cfg.smooth, now, old(Value()), batch, Value())
    {
      hide Drains, DrainStep;
      batch := [];
      ghost var start := Value();
      assert forall rest: seq<Measurement> :: batch + rest == rest;
      while queue != multiset{}
        invariant forall rest, n :: Drains(filter.dynamics, cfg.smooth, now, Value(), rest, n) ==>
                    Drains(filter.dynamics, cfg.smooth, now, start, batch + rest, n)
        decreases |queue|
      {
        ghost var before, so := Value(), batch;
        var m := Top();
        if now < m.time {
          break;
        }
        ProcessNext(m);
        batch := batch + [m];
        forall rest, n | Drains(filter.dynamics, cfg.smooth, now, Value(), rest, n)
          ensures Drains(filter.dynamics, cfg.smooth, now, start, batch + rest, n)
        {
          DrainsCons(filter.dynamics, cfg.smooth, now, before, m, rest, n);
          assert batch + rest == so + ([m] + rest);
        }
      }
      DrainsNothing(filter.dynamics, cfg.smooth, now, Value());
      assert batch + [] == batch;
    }

    method IntegrateMeasurements(now: int) returns (ghost batch: seq<Measurement>)
      modifies this, filter
      ensures Integrates(filter.dynamics, cfg, old(Value()), now, batch, Value())
    {
      hide Drains, Replay.RevertTo;
      var predictToNow := cfg.predictToNow;
      batch := [];
      if queue != multiset{} {
        var first := Top();
        if cfg.smooth && first.time < filter.last {
          var _ := RevertTo(first.time - 1);
        }
        batch := Drain(now);
      } else {
        DrainsNothing(filter.dynamics, cfg.smooth, now, Value());
        if filter.initialized && now - filter.last >= cfg.sensorTimeout {
          predictToNow := true;
        }
      }
      ghost var mid := Value();
      assert Drains(filter.dynamics, cfg.smooth, now, DrainStart(cfg, old(Value())), batch, mid);
      if filter.initialized && predictToNow {
        var (e, c) := filter.dynamics.predict(filter.estimate, now, now - filter.last);
        filter.estimate, filter.cache := e, c;
        filter.last := filter.last + (now - filter.last);
      }
    }

    method ClearExpiredHistory(cutoff: int)
      modifies this
      ensures Value() == ClearExpired(old(Value()), cutoff)
    {
      while history != [] && history[0].time < cutoff
        invariant DropOldMeasurements(history, cutoff) == DropOldMeasurements(old(history), cutoff)
        invariant queue == old(queue) && states == old(states)
      {
        history := history[1..];
      }
      while states != [] && states[0].last < cutoff
        invariant DropOldStates(states, cutoff) == DropOldStates(old(states), cutoff)
        invariant queue == old(queue) && history == DropOldMeasurements(old(history), cutoff)
      {
        states := states[1..];
      }
    }

    method ClearMeasurementQueue()
      modifies this
      ensures Value() == old(Value()).(queue := multiset{})
    {
      while queue != multiset{}
        invariant Value() == old(Value()).(queue := queue)
        decreases |queue|
      {
        var m := Top();
        queue := queue - multiset{m};
      }
    }

    /** periodicUpdate on an enabled filter, without its publishing. */
    method PeriodicUpdate(now: int, toggledOn: bool)
      modifies this, filter
      ensures toggledOn ==> Updates(filter.dynamics, cfg, old(Value()), now, Value())
      ensures !toggledOn ==>
                var f := old(filter.Value());
                var idle := old(Value()).(queue := multiset{}, filter := if f.initialized then f.(last := now) else f);
                Value() == if cfg.smooth then ClearExpired(idle, idle.filter.last - cfg.historyLength) else idle
    {
      hide Integrates, DropOldMeasurements, DropOldStates;
      ghost var batch := [];
      if toggledOn {
        batch := IntegrateMeasurements(now);
      } else {
        ClearMeasurementQueue();
        if filter.initialized {
          filter.last := now;
        }
      }
      ghost var mid := Value();
      if cfg.smooth {
        ClearExpiredHistory(filter.last - cfg.historyLength);
      }
      assert toggledOn ==> Integrates(filter.dynamics, cfg, old(Value()), now, batch, mid);
    }

    /** setPoseCallback: the new pose becomes the start of a new log; `initialized` stays. */
    method SetPose(estimate: Estimate, now: int)
      modifies this, filter
      ensures queue == multiset{} && history == [] && states == []
      ensures filter.Value() == old(filter.Value()).(estimate := estimate, last := now)
    {
      ClearMeasurementQueue();
      states, history := [], [];
      filter.estimate := estimate;
      filter.last := now;
    }
  }
}
