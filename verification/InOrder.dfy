/** Late data gives the same answer as data in order: the theorems about whole runs of the
    replay engine, and what goes wrong when the history is too short. */
module InOrder {
  import opened Options
  import opened LinearAlgebra
  import opened FilterCycle
  import opened Replay
  import opened ReplayProof

  // ---------------------------------------------------------------------------------------------
  // Forgetting expired history

  lemma {:induction false} DroppedMeasurements(history: seq<Measurement>, cutoff: int) returns (k: nat)
    ensures k <= |history| && DropOldMeasurements(history, cutoff) == history[k..]
    ensures forall i :: 0 <= i < k ==> history[i].time < cutoff
    decreases |history|
  {
    if history == [] || history[0].time >= cutoff {
      k := 0;
    } else {
      var j := DroppedMeasurements(history[1..], cutoff);
      k := j + 1;
      assert history[1..][j..] == history[k..];
    }
  }

  lemma {:induction false} DroppedStates(states: seq<Saved>, cutoff: int) returns (k: nat)
    ensures k <= |states| && DropOldStates(states, cutoff) == states[k..]
    ensures forall i :: 0 <= i < k ==> states[i].last < cutoff
    ensures k < |states| ==> cutoff <= states[k].last
    decreases |states|
  {
    if states == [] || states[0].last >= cutoff {
      k := 0;
    } else {
      var j := DroppedStates(states[1..], cutoff);
      k := j + 1;
      assert states[1..][j..] == states[k..];
    }
  }

  lemma ForgetStates(log: Log, states: seq<Saved>, k: nat)
    requires Checkpoints(log, states) && k <= |states|
    ensures Checkpoints(log.(cuts := log.cuts[k..]), states[k..])
  {
    var cuts' := log.cuts[k..];
    forall i | 0 < i < |cuts'|
      ensures OneStamp(log.done, cuts', i)
    {
      assert OneStamp(log.done, log.cuts, k + i);
    }
  }

  lemma SuffixOfSuffix<T>(s: seq<T>, p: nat, j: nat)
    requires p + j <= |s|
    ensures s[p..][j..] == s[p + j..]
  {
  }

  /** What stays in the history covers every state that stays. */
  lemma ForgetHistory(log: Log, states: seq<Saved>, history: seq<Measurement>, cutoff: int, j: nat, k: nat)
    requires Sorted(log) && Checkpoints(log, states) && Retains(log, history)
    requires j <= |history| && forall i :: 0 <= i < j ==> history[i].time < cutoff
    requires k < |states| && cutoff <= states[k].last
    ensures Retains(log.(cuts := log.cuts[k..]), history[j..])
  {
    var p := |log.done| - |history|;
    SavedAscend(log, states, k);
    hide Sorted, Checkpoints;
    forall i | 0 <= i < p + j
      ensures log.done[i].time < log.done[log.cuts[k] - 1].time
    {
      if i >= p {
        assert log.done[i] == history[i - p];
      }
    }
    SuffixOfSuffix(log.done, p, j);
  }

  /** Saved states are as old as the last measurement they contain, and stand in that order. */
  lemma SavedAscend(log: Log, states: seq<Saved>, k: nat)
    requires Sorted(log) && Checkpoints(log, states) && k < |states|
    ensures |log.cuts| == |states| && 0 < log.cuts[0] <= log.cuts[k] <= |log.done|
    ensures states[k].last == log.done[log.cuts[k] - 1].time
            && log.done[log.cuts[0] - 1].time <= log.done[log.cuts[k] - 1].time
  {
    assert AtStamp(log, log.cuts[k] - 1);
    if k > 0 { assert log.cuts[0] < log.cuts[k]; }
  }

  lemma LastCutStays(cuts: seq<nat>, k: nat)
    requires k < |cuts|
    ensures LastCut(cuts[k..]) == LastCut(cuts)
  {
  }

  lemma CutsMatchStates(d: Dynamics, n: Node, log: Log, received: multiset<Measurement>)
    requires Consistent(d, n, log, received)
    ensures |log.cuts| == |n.states|
  {
  }

  /** Forgetting the `j` oldest measurements and the `k` oldest states of a settled node. */
  lemma ForgetKeeps(d: Dynamics, n: Node, log: Log, received: multiset<Measurement>, cutoff: int, j: nat, k: nat)
    requires Settled(d, n, log, received)
    requires j <= |n.history| && forall i :: 0 <= i < j ==> n.history[i].time < cutoff
    requires k < |n.states| && cutoff <= n.states[k].last
    ensures Settled(d, n.(history := n.history[j..], states := n.states[k..]), log.(cuts := log.cuts[k..]), received)
  {
    hide Traced, Sorted, Checkpoints, Retains;
    CutsMatchStates(d, n, log, received);
    var log' := log.(cuts := log.cuts[k..]);
    ForgetStates(log, n.states, k);
    ForgetHistory(log, n.states, n.history, cutoff, j, k);
    SameLog(d, log, log'.cuts);
    LastCutStays(log.cuts, k);
  }

  lemma SameLog(d: Dynamics, log: Log, cuts: seq<nat>)
    requires Traced(d, log) && Sorted(log)
    ensures Traced(d, log.(cuts := cuts)) && Sorted(log.(cuts := cuts))
  {
    hide Sorted, AheadBy, Ascends;
    var log' := log.(cuts := cuts);
    forall i | 0 <= i < |log'.done|
      ensures Links(d, log', i) && GapFits(log', i)
    {
      assert Links(d, log, i) && GapFits(log, i);
    }
    SameOrder(log, cuts);
  }

  lemma SameOrder(log: Log, cuts: seq<nat>)
    requires Sorted(log)
    ensures Sorted(log.(cuts := cuts))
  {
    forall k | 0 <= k < |log.done|
      ensures AtStamp(log.(cuts := cuts), k)
    {
      assert AtStamp(log, k);
    }
  }

  lemma NewestIsKept(d: Dynamics, n: Node, log: Log, received: multiset<Measurement>)
    requires Settled(d, n, log, received)
    ensures if n.states == [] then n.history == [] else n.states[|n.states| - 1].last == n.filter.last
  {
  }

  /** Expiry keeps the invariant: without predictions the current state is never forgotten, and every
      processed measurement later than a state still held is still in the history. */
  lemma ExpireKeeps(d: Dynamics, n: Node, log: Log, received: multiset<Measurement>, nows: seq<int>, length: nat)
    returns (log': Log)
    requires Trails(d, n, log, received, nows)
    ensures Trails(d, ClearExpired(n, n.filter.last - length), log', received, nows)
    ensures log'.done == log.done && log'.gaps == log.gaps && log'.folds == log.folds
  {
    hide Consistent, DropOldMeasurements, DropOldStates, AheadBy;
    var cutoff := n.filter.last - length;
    var j := DroppedMeasurements(n.history, cutoff);
    var k := DroppedStates(n.states, cutoff);
    log' := log;
    if n.states != [] && k < |n.states| {
      CutsMatchStates(d, n.(filter := log.folds[|log.done|]), log, received);
      log' := log.(cuts := log.cuts[k..]);
      ForgetKeeps(d, n.(filter := log.folds[|log.done|]), log, received, cutoff, j, k);
    } else if nows == [] {
      NothingAhead(d, n, log);
      NewestIsKept(d, n, log, received);
      assert n.states == [] && ClearExpired(n, cutoff) == n;
    } else {
      log' := log.(cuts := []);
      AheadStays(d, log.folds[|log.done|], nows);
      EverythingForgotten(d, n, log, received, nows, cutoff, j);
    }
  }

  /** Every saved state is older than the cutoff: what is forgotten with them is older than the predicted
      clock. */
  lemma EverythingForgotten(
    d: Dynamics, n: Node, log: Log, received: multiset<Measurement>, nows: seq<int>, cutoff: int, j: nat)
    requires Trails(d, n, log, received, nows) && nows != [] && cutoff <= nows[|nows| - 1]
    requires j <= |n.history| && forall i :: 0 <= i < j ==> n.history[i].time < cutoff
    requires forall i :: 0 <= i < |n.states| ==> n.states[i].last < cutoff
    ensures Lost(d, n.(history := n.history[j..], states := []), log.(cuts := []), received, nows[|nows| - 1])
  {
    hide Traced, AheadBy, Ascends, Uncovered;
    var t := nows[|nows| - 1];
    TrailsLog(d, n, log, received, nows);
    CutsMatch(log, n.states);
    SameLog(d, log, []);
    var p := |log.done| - |n.history|;
    if log.cuts != [] { SavedAscend(log, n.states, 0); }
    forall i | 0 <= i < p + j
      ensures log.done[i].time < t
    {
      if i >= p {
        assert log.done[i] == n.history[i - p];
      }
    }
    SuffixOfSuffix(log.done, p, j);
  }

  lemma NothingAhead(d: Dynamics, n: Node, log: Log)
    requires |log.folds| == |log.done| + 1 && n.filter == AheadBy(d, log.folds[|log.done|], [])
    ensures n.(filter := log.folds[|log.done|]) == n
  {
  }

  // ---------------------------------------------------------------------------------------------
  // Whole runs

  /** What happens to the node between two states of a run. */
  datatype Event = Arrive(m: Measurement) | Update(now: int)

  ghost predicate Next(d: Dynamics, cfg: Config, n: Node, e: Event, n': Node) {
    match e
    case Arrive(m) => n' == n.(queue := n.queue + multiset{m})
    case Update(now) => Updates(d, cfg, n, now, n')
  }

  /** A measurement is due. */
  ghost predicate IsDue(n: Node, now: int) {
    n.queue != multiset{} && TopTime(n.queue) <= now
  }

  /** What every run here keeps to, visible before the update: the clock does not go back, not even
      behind the one the run started with, and late data finds a saved state older than itself. */
  ghost predicate Replayable(cfg: Config, n: Node, clock: Option<int>, e: Event) {
    e.Update? ==>
      && (if clock.Some? then clock.value <= e.now else n.filter.initialized ==> n.filter.last <= e.now)
      && (IsLate(cfg, n) ==> KeepStates(n.states, TopTime(n.queue) - 1) != [])
  }

  /** The predictions the last node is ahead by: those made since data was last due. */
  ghost function Predicted(cfg: Config, events: seq<Event>, nodes: seq<Node>): seq<int>
    requires |nodes| == |events| + 1
  {
    if events == [] then []
    else
      var k := |events| - 1;
      PredictedNext(cfg, nodes[k], Predicted(cfg, events[..k], nodes[..k + 1]), events[k], nodes[k + 1])
  }

  ghost function PredictedNext(cfg: Config, n: Node, nows: seq<int>, e: Event, n': Node): seq<int> {
    match e
    case Arrive(_) => nows
    case Update(now) =>
      (if IsDue(n, now) then [] else nows)
      + if n'.filter.initialized && (cfg.predictToNow || TimedOut(cfg, n, now)) then [now] else []
  }

  /** Data overtakes predictions: it is due after them and not late, so it is processed on top. */
  ghost predicate Overtakes(cfg: Config, n: Node, nows: seq<int>, e: Event) {
    e.Update? && nows != [] && IsDue(n, e.now) && !IsLate(cfg, n)
  }

  /** ... harmlessly: there was one prediction, to the very stamp of the data, from an older filter. */
  ghost predicate Tolerable(cfg: Config, n: Node, nows: seq<int>, e: Event) {
    Overtakes(cfg, n, nows, e) ==>
      && nows == [TopTime(n.queue)]
      && n.states != [] && n.states[|n.states| - 1].last < TopTime(n.queue)
  }

  ghost function Clock(events: seq<Event>): Option<int> {
    if events == [] then None
    else
      var e := events[|events| - 1];
      if e.Update? then Some(e.now) else Clock(events[..|events| - 1])
  }

  ghost function Received(events: seq<Event>): multiset<Measurement> {
    if events == [] then multiset{}
    else
      var e := events[|events| - 1];
      Received(events[..|events| - 1]) + (if e.Arrive? then multiset{e.m} else multiset{})
  }

  /** A run from a node with nothing queued and no history, as reset and set_pose leave it. */
  ghost predicate IsRun(d: Dynamics, cfg: Config, events: seq<Event>, nodes: seq<Node>) {
    && |nodes| == |events| + 1
    && nodes[0].queue == multiset{} && nodes[0].history == [] && nodes[0].states == []
    && forall i :: 0 <= i < |events| ==> RunStep(d, cfg, events, nodes, i)
  }

  ghost predicate RunStep(d: Dynamics, cfg: Config, events: seq<Event>, nodes: seq<Node>, i: nat) {
    && i < |events| && i + 1 < |nodes|
    && Next(d, cfg, nodes[i], events[i], nodes[i + 1])
    && Replayable(cfg, nodes[i], Clock(events[..i]), events[i])
  }

  lemma RunPrefix(d: Dynamics, cfg: Config, events: seq<Event>, nodes: seq<Node>)
    requires IsRun(d, cfg, events, nodes) && events != []
    ensures IsRun(d, cfg, events[..|events| - 1], nodes[..|events|])
  {
    hide Next, Replayable;
    var n := |events| - 1;
    forall i | 0 <= i < n
      ensures RunStep(d, cfg, events[..n], nodes[..|events|], i)
    {
      assert RunStep(d, cfg, events, nodes, i);
      assert events[..n][..i] == events[..i];
    }
  }

  /** Nothing in the log or predicted is later than the clock. */
  ghost predicate OnlyPast(log: Log, nows: seq<int>, clock: Option<int>)
    requires |log.folds| == |log.done| + 1
  {
    match clock
    case None => log.done == [] && nows == []
    case Some(t) => LogUpTo(log, t) && (nows != [] ==> nows[|nows| - 1] <= t)
  }

  /** The predictions before a measurement make no difference, whatever the filter. */
  ghost predicate IsHarmless(gap: seq<int>, before: int, t: int) {
    gap == [] || (gap == [t] && before < t)
  }

  ghost predicate AllHarmless(log: Log)
    requires |log.folds| == |log.done| + 1 && |log.gaps| == |log.done|
  {
    forall k :: 0 <= k < |log.gaps| ==> IsHarmless(log.gaps[k], log.folds[k].last, log.done[k].time)
  }

  lemma ExtendsHarmless(log: Log, log': Log)
    requires |log.folds| == |log.done| + 1 && |log.gaps| == |log.done|
    requires |log'.folds| == |log'.done| + 1 && |log'.gaps| == |log'.done|
    requires Extends(log, log') && AllHarmless(log)
    ensures AllHarmless(log')
  {
    forall k | 0 <= k < |log'.gaps|
      ensures IsHarmless(log'.gaps[k], log'.folds[k].last, log'.done[k].time)
    {
      if k < |log.gaps| {
        assert IsHarmless(log.gaps[k], log.folds[k].last, log.done[k].time);
        assert log'.gaps[k] == log.gaps[k] && log'.folds[k] == log.folds[k] && log'.done[k] == log.done[k];
      }
    }
  }

  /** The drain, in each of its cases, leaves only the future in the queue. */
  lemma IntegrateKeeps(
    d: Dynamics, cfg: Config, n: Node, log: Log, received: multiset<Measurement>, nows: seq<int>, now: int,
    batch: seq<Measurement>, mid: Node) returns (log': Log, nows': seq<int>)
    requires cfg.smooth && Trails(d, n, log, received, nows) && LogUpTo(log, now)
    requires nows != [] ==> nows[|nows| - 1] <= now
    requires IsLate(cfg, n) ==> KeepStates(n.states, TopTime(n.queue) - 1) != []
    requires Drains(d, true, now, DrainStart(cfg, n), batch, mid)
    ensures Trails(d, mid, log', received, nows') && Shaped(log') && Shaped(log)
    ensures log'.folds[0] == log.folds[0] && nows' == if IsDue(n, now) then [] else nows
    ensures LogUpTo(log', now) && forall x :: x in mid.queue ==> now < x.time
    ensures AllHarmless(log) && Tolerable(cfg, n, nows, Update(now)) ==> AllHarmless(log')
  {
    hide Drains, RevertTo, KeepStates, Tracking, Consistent, AheadBy, AllHarmless, Extends;
    TrailsLog(d, n, log, received, nows);
    if IsLate(cfg, n) {
      log' := LateKeeps(d, cfg, n, log, received, nows, now, batch, mid);
      nows' := [];
    } else if !IsDue(n, now) {
      NothingDue(d, n, now, batch, mid);
      log', nows' := log, nows;
    } else if nows == [] {
      NothingAhead(d, n, log);
      InOrderStart(d, n, log, received, now);
      log' := DrainKeeps(d, n, log, received, now, false, batch, mid);
      nows' := [];
      SettledTrails(d, mid, log', received, now);
      ExtendsUpTo(log, log', now);
      if AllHarmless(log) { ExtendsHarmless(log, log'); }
    } else {
      log' := OvertakingKeeps(d, cfg, n, log, received, nows, now, batch, mid);
      nows' := [];
    }
  }

  lemma LateKeeps(
    d: Dynamics, cfg: Config, n: Node, log: Log, received: multiset<Measurement>, nows: seq<int>, now: int,
    batch: seq<Measurement>, mid: Node) returns (log': Log)
    requires Trails(d, n, log, received, nows) && LogUpTo(log, now) && (nows != [] ==> nows[|nows| - 1] <= now)
    requires IsLate(cfg, n) && KeepStates(n.states, TopTime(n.queue) - 1) != []
    requires Drains(d, true, now, RevertTo(n, TopTime(n.queue) - 1), batch, mid)
    ensures Trails(d, mid, log', received, []) && Shaped(log') && Shaped(log)
    ensures log'.folds[0] == log.folds[0] && IsDue(n, now)
    ensures LogUpTo(log', now) && forall x :: x in mid.queue ==> now < x.time
    ensures AllHarmless(log) ==> AllHarmless(log')
  {
    hide Drains, RevertTo, KeepStates, Tracking, Consistent, AheadBy, AllHarmless, Extends;
    TrailsLog(d, n, log, received, nows);
    LateIsDue(d, cfg, n, log, received, nows, now);
    var k := RevertStart(d, n, log, received, now);
    var cut := Truncate(log, k);
    log' := DrainKeeps(d, RevertTo(n, TopTime(n.queue) - 1), cut, received, now, true, batch, mid);
    SettledTrails(d, mid, log', received, now);
    FirstFold(log, log', k);
    if AllHarmless(log) {
      TruncateHarmless(log, k);
      ExtendsHarmless(cut, log');
    }
  }

  lemma FirstFold(log: Log, log': Log, k: nat)
    requires 0 < k <= |log.cuts| && log.cuts[k - 1] <= |log.done| == |log.gaps| < |log.folds|
    requires Extends(Truncate(log, k), log')
    ensures log'.folds[0] == log.folds[0]
  {
  }

  lemma TruncateHarmless(log: Log, k: nat)
    requires |log.folds| == |log.done| + 1 && |log.gaps| == |log.done| && AllHarmless(log)
    requires 0 < k <= |log.cuts| && log.cuts[k - 1] <= |log.done|
    ensures AllHarmless(Truncate(log, k))
  {
    forall i | 0 <= i < log.cuts[k - 1]
      ensures IsHarmless(log.gaps[i], log.folds[i].last, log.done[i].time)
    {
    }
  }

  lemma OvertakingKeeps(
    d: Dynamics, cfg: Config, n: Node, log: Log, received: multiset<Measurement>, nows: seq<int>, now: int,
    batch: seq<Measurement>, mid: Node) returns (log': Log)
    requires cfg.smooth && Trails(d, n, log, received, nows) && LogUpTo(log, now) && nows != []
    requires IsDue(n, now) && !IsLate(cfg, n) && Drains(d, true, now, n, batch, mid)
    ensures Trails(d, mid, log', received, []) && Shaped(log') && Shaped(log)
    ensures log'.folds[0] == log.folds[0] && LogUpTo(log', now) && forall x :: x in mid.queue ==> now < x.time
    ensures AllHarmless(log) && Tolerable(cfg, n, nows, Update(now)) ==> AllHarmless(log')
  {
    hide Tracking, Consistent, AheadBy, AllHarmless, Extends, DrainStep, SavesAfter, Step;
    TrailsLog(d, n, log, received, nows);
    DueIsFirst(d, n, now, batch, mid);
    var m := batch[0];
    OvertakingStart(d, n, log, received, nows, now, m);
    var next := ExtendBy(d, log, n, m, nows);
    LogHasFolds(d, DrainStep(d, true, n, m), next, received);
    log' := DrainKeeps(d, DrainStep(d, true, n, m), next, received, now, false, batch[1..], mid);
    SettledTrails(d, mid, log', received, now);
    ExtendsFirst(log, next, log');
    if AllHarmless(log) && Tolerable(cfg, n, nows, Update(now)) {
      NewestIsFilter(d, n, log, received);
      OneMoreHarmless(log, m, Step(d, n.filter, m), SavesAfter(Step(d, n.filter, m), n.queue - multiset{m}));
      ExtendsHarmless(next, log');
    }
  }

  lemma ExtendsFirst(log: Log, next: Log, log': Log)
    requires log.folds != [] && log.folds <= next.folds && next.done != [] && Extends(next, log')
    ensures log'.folds[0] == log.folds[0] && log'.done != []
  {
  }

  lemma ExtendsUpTo(log: Log, log': Log, now: int)
    requires |log.folds| == |log.done| + 1 && |log'.folds| == |log'.done| + 1 && LogUpTo(log, now) && Extends(log, log')
    requires AllUpTo(log'.done, now) && (log'.done != [] ==> LogUpTo(log', now))
    ensures log'.folds[0] == log.folds[0] && LogUpTo(log', now)
  {
  }

  lemma OneMoreHarmless(log: Log, m: Measurement, f: Filter, saved: bool)
    requires Shaped(log) && AllHarmless(log) && log.folds[|log.done|].last < m.time
    ensures AllHarmless(Extend(log, m, [m.time], f, saved))
  {
    var next := Extend(log, m, [m.time], f, saved);
    forall k | 0 <= k < |next.gaps|
      ensures IsHarmless(next.gaps[k], next.folds[k].last, next.done[k].time)
    {
      if k < |log.gaps| {
        assert IsHarmless(log.gaps[k], log.folds[k].last, log.done[k].time);
      }
    }
  }

  lemma NewestIsFilter(d: Dynamics, n: Node, log: Log, received: multiset<Measurement>)
    requires Underlying(d, n, log, received) && n.states != []
    ensures n.states[|n.states| - 1].last == log.folds[|log.done|].last
  {
  }

  lemma SettledTrails(d: Dynamics, n: Node, log: Log, received: multiset<Measurement>, now: int)
    requires Settled(d, n, log, received)
    ensures Trails(d, n, log, received, []) && |log.gaps| == |log.done|
    ensures AllUpTo(log.done, now) && log.done != [] ==> LogUpTo(log, now)
  {
    hide Traced;
    assert n.(filter := log.folds[|log.done|]) == n;
    if log.done != [] {
      assert AtStamp(log, |log.done| - 1);
    }
  }

  /** Late data is not in the future, and the filter it is late for is initialised. */
  lemma LateIsDue(
    d: Dynamics, cfg: Config, n: Node, log: Log, received: multiset<Measurement>, nows: seq<int>, now: int)
    requires Trails(d, n, log, received, nows) && LogUpTo(log, now) && IsLate(cfg, n)
    requires KeepStates(n.states, TopTime(n.queue) - 1) != [] && (nows != [] ==> nows[|nows| - 1] <= now)
    ensures Underlying(d, n, log, received) && IsDue(n, now) && n.filter.initialized
  {
    hide Traced, Retains;
    assert n.states != [];
    SavedIsInitialized(log, n.states);
    AheadStays(d, log.folds[|log.done|], nows);
  }

  lemma NothingDue(d: Dynamics, n: Node, now: int, batch: seq<Measurement>, mid: Node)
    requires Drains(d, true, now, n, batch, mid) && !IsDue(n, now)
    ensures mid == n && forall x :: x in mid.queue ==> now < x.time
  {
    if batch != [] {
      FirstIsDue(d, n, now, batch, mid);
    }
  }

  lemma FirstIsDue(d: Dynamics, n: Node, now: int, batch: seq<Measurement>, mid: Node)
    requires Drains(d, true, now, n, batch, mid) && batch != []
    ensures IsDue(n, now)
  {
    assert TopTime(n.queue) <= batch[0].time;
  }

  lemma DueIsFirst(d: Dynamics, n: Node, now: int, batch: seq<Measurement>, mid: Node)
    requires Drains(d, true, now, n, batch, mid) && IsDue(n, now)
    ensures batch != [] && IsTop(batch[0], n.queue) && batch[0].time == TopTime(n.queue) <= now
    ensures Drains(d, true, now, DrainStep(d, true, n, batch[0]), batch[1..], mid)
  {
    hide DrainStep;
    if batch != [] {
      assert TopTime(n.queue) == batch[0].time;
    }
  }

  /** One update keeps the invariant and leaves only future measurements in the queue. */
  lemma UpdateKeeps(
    d: Dynamics, cfg: Config, n: Node, log: Log, received: multiset<Measurement>, nows: seq<int>, now: int, n': Node)
    returns (log': Log, nows': seq<int>)
    requires cfg.smooth && Trails(d, n, log, received, nows) && LogUpTo(log, now)
    requires nows != [] ==> nows[|nows| - 1] <= now
    requires IsLate(cfg, n) ==> KeepStates(n.states, TopTime(n.queue) - 1) != []
    requires Updates(d, cfg, n, now, n')
    ensures Trails(d, n', log', received, nows') && Shaped(log') && Shaped(log)
    ensures log'.folds[0] == log.folds[0] && nows' == PredictedNext(cfg, n, nows, Update(now), n')
    ensures LogUpTo(log', now) && (forall x :: x in n'.queue ==> now < x.time)
    ensures nows' != [] ==> nows'[|nows'| - 1] <= now
    ensures AllHarmless(log) && Tolerable(cfg, n, nows, Update(now)) ==> AllHarmless(log')
  {
    hide Trails, Updates, Drains, DrainStart, KeepStates, ClearExpired, PredictAhead, IsLate, IsDue, TimedOut,
      AllHarmless, Tolerable, LogUpTo, Shaped, PredictedNext;
    var wanted := cfg.predictToNow || TimedOut(cfg, n, now);
    var batch, drained := UpdateDrains(d, cfg, n, now, n');
    var mid := PredictAhead(d, drained, now, wanted);
    var kept, before := IntegrateKeeps(d, cfg, n, log, received, nows, now, batch, drained);
    nows' := PredictKeeps(d, drained, kept, received, before, now, wanted);
    log' := ExpireKeeps(d, mid, kept, received, nows', cfg.historyLength);
    PredictedIs(d, cfg, n, nows, now, drained, cfg.historyLength);
    SameFolds(kept, log', now);
  }

  lemma UpdateDrains(
    d: Dynamics, cfg: Config, n: Node, now: int, n': Node) returns (batch: seq<Measurement>, drained: Node)
    requires cfg.smooth && Updates(d, cfg, n, now, n')
    ensures Drains(d, true, now, DrainStart(cfg, n), batch, drained)
    ensures var mid := PredictAhead(d, drained, now, cfg.predictToNow || TimedOut(cfg, n, now));
            n' == ClearExpired(mid, mid.filter.last - cfg.historyLength)
  {
    hide Drains, DrainStart, ClearExpired, TimedOut;
    var b, mid :| Integrates(d, cfg, n, now, b, mid) && n' == ClearExpired(mid, mid.filter.last - cfg.historyLength);
    batch := b;
    drained :| Drains(d, true, now, DrainStart(cfg, n), batch, drained)
               && mid == PredictAhead(d, drained, now, cfg.predictToNow || TimedOut(cfg, n, now));
  }

  lemma PredictedIs(d: Dynamics, cfg: Config, n: Node, nows: seq<int>, now: int, drained: Node, length: nat)
    ensures var wanted := cfg.predictToNow || TimedOut(cfg, n, now);
            var mid := PredictAhead(d, drained, now, wanted);
            var n' := ClearExpired(mid, mid.filter.last - length);
            && n'.queue == drained.queue
            && PredictedNext(cfg, n, nows, Update(now), n') ==
               (if IsDue(n, now) then [] else nows) + if drained.filter.initialized && wanted then [now] else []
  {
    hide IsDue, TimedOut;
  }

  lemma SameFolds(log: Log, log': Log, now: int)
    requires Shaped(log) && LogUpTo(log, now)
    requires log'.done == log.done && log'.gaps == log.gaps && log'.folds == log.folds
    ensures Shaped(log') && LogUpTo(log', now) && (AllHarmless(log) ==> AllHarmless(log'))
  {
  }

  lemma PredictedIsInitialized(d: Dynamics, n: Node, now: int)
    ensures PredictTo(d, n.filter, now).initialized
  {
  }

  lemma ArriveKeeps(d: Dynamics, n: Node, log: Log, received: multiset<Measurement>, nows: seq<int>, m: Measurement)
    requires Trails(d, n, log, received, nows)
    ensures Trails(d, n.(queue := n.queue + multiset{m}), log, received + multiset{m}, nows)
  {
    hide Traced, Sorted, Checkpoints, Retains, AheadBy;
  }

  lemma NextKeeps(
    d: Dynamics, cfg: Config, n: Node, log: Log, received: multiset<Measurement>, nows: seq<int>, clock: Option<int>,
    e: Event, n': Node) returns (log': Log, nows': seq<int>)
    requires cfg.smooth && Trails(d, n, log, received, nows) && OnlyPast(log, nows, clock)
    requires Next(d, cfg, n, e, n') && Replayable(cfg, n, clock, e)
    ensures Trails(d, n', log', received + (if e.Arrive? then multiset{e.m} else multiset{}), nows')
    ensures Shaped(log') && Shaped(log)
    ensures log'.folds[0] == log.folds[0] && nows' == PredictedNext(cfg, n, nows, e, n')
    ensures OnlyPast(log', nows', if e.Update? then Some(e.now) else clock)
    ensures e.Update? ==> forall x :: x in n'.queue ==> e.now < x.time
    ensures AllHarmless(log) && Tolerable(cfg, n, nows, e) ==> AllHarmless(log')
  {
    hide Updates, KeepStates, IsLate, AllHarmless, Tolerable, Trails, Traced, Sorted, Checkpoints, EndsWith,
      ForgotBefore, LogUpTo, PredictedNext, Replayable, OnlyPast;
    TrailsLog(d, n, log, received, nows);
    match e
    case Arrive(m) =>
      log', nows' := log, nows;
      ArriveKeeps(d, n, log, received, nows, m);
      NothingPredicted(cfg, n, nows, m, n');
    case Update(now) =>
      ClockCovers(d, cfg, n, log, received, nows, clock, now);
      log', nows' := UpdateKeeps(d, cfg, n, log, received, nows, now, n');
      assert received + multiset{} == received;
      PastIs(log', nows', now);
  }

  lemma NothingPredicted(cfg: Config, n: Node, nows: seq<int>, m: Measurement, n': Node)
    ensures PredictedNext(cfg, n, nows, Arrive(m), n') == nows
  {
  }

  lemma PastIs(log: Log, nows: seq<int>, now: int)
    requires |log.folds| == |log.done| + 1 && LogUpTo(log, now) && (nows != [] ==> nows[|nows| - 1] <= now)
    ensures OnlyPast(log, nows, Some(now))
  {
  }

  /** The clock of an update has passed everything processed and predicted so far. */
  lemma ClockCovers(
    d: Dynamics, cfg: Config, n: Node, log: Log, received: multiset<Measurement>, nows: seq<int>, clock: Option<int>,
    now: int)
    requires Trails(d, n, log, received, nows) && Shaped(log) && OnlyPast(log, nows, clock)
    requires Replayable(cfg, n, clock, Update(now))
    ensures LogUpTo(log, now) && (nows != [] ==> nows[|nows| - 1] <= now)
    ensures IsLate(cfg, n) ==> KeepStates(n.states, TopTime(n.queue) - 1) != []
  {
    hide Underlying, Lost, KeepStates, IsLate, Ascends;
    AheadStays(d, log.folds[|log.done|], nows);
  }

  /** Every overtaking of the run is harmless. */
  ghost predicate AllTolerable(cfg: Config, events: seq<Event>, nodes: seq<Node>) {
    |nodes| == |events| + 1 && forall i :: 0 <= i < |events| ==> TolerableAt(cfg, events, nodes, i)
  }

  ghost predicate TolerableAt(cfg: Config, events: seq<Event>, nodes: seq<Node>, i: nat) {
    i < |events| && i < |nodes| && Tolerable(cfg, nodes[i], Predicted(cfg, events[..i], nodes[..i + 1]), events[i])
  }

  lemma TolerablePrefix(cfg: Config, events: seq<Event>, nodes: seq<Node>)
    requires AllTolerable(cfg, events, nodes) && events != []
    ensures AllTolerable(cfg, events[..|events| - 1], nodes[..|events|])
  {
    hide Tolerable, Predicted;
    var n := |events| - 1;
    forall i | 0 <= i < n
      ensures TolerableAt(cfg, events[..n], nodes[..|events|], i)
    {
      assert TolerableAt(cfg, events, nodes, i);
      assert events[..n][..i] == events[..i];
      assert nodes[..|events|][..i + 1] == nodes[..i + 1];
    }
  }

  lemma {:induction false} RunTrails(d: Dynamics, cfg: Config, events: seq<Event>, nodes: seq<Node>)
    returns (log: Log, nows: seq<int>)
    requires cfg.smooth && IsRun(d, cfg, events, nodes)
    ensures Trails(d, nodes[|events|], log, Received(events), nows) && Shaped(log)
    ensures log.folds[0] == nodes[0].filter && nows == Predicted(cfg, events, nodes)
    ensures OnlyPast(log, nows, Clock(events))
    ensures events != [] && events[|events| - 1].Update? ==>
              forall x :: x in nodes[|events|].queue ==> events[|events| - 1].now < x.time
    ensures AllTolerable(cfg, events, nodes) ==> AllHarmless(log)
    decreases |events|
  {
    hide Next, Replayable, PredictedNext;
    if events == [] {
      log, nows := Log([], [], [nodes[0].filter], []), [];
      SettledTrails(d, nodes[0], log, Received(events), 0);
    } else {
      hide Trails, OnlyPast, AllTolerable, AllHarmless, Tolerable;
      var n := |events| - 1;
      RunPrefix(d, cfg, events, nodes);
      var before, past := RunTrails(d, cfg, events[..n], nodes[..|events|]);
      assert RunStep(d, cfg, events, nodes, n);
      assert nodes[..|events|] == nodes[..n + 1];
      log, nows := NextKeeps(d, cfg, nodes[n], before, Received(events[..n]), past, Clock(events[..n]), events[n],
                             nodes[n + 1]);
      if AllTolerable(cfg, events, nodes) {
        TolerablePrefix(cfg, events, nodes);
        LastIsTolerable(cfg, events, nodes);
      }
    }
  }

  lemma LastIsTolerable(cfg: Config, events: seq<Event>, nodes: seq<Node>)
    requires AllTolerable(cfg, events, nodes) && events != []
    ensures var n := |events| - 1; Tolerable(cfg, nodes[n], Predicted(cfg, events[..n], nodes[..n + 1]), events[n])
  {
    assert TolerableAt(cfg, events, nodes, |events| - 1);
  }

  /** `done` is a time-sorted arrangement of exactly the measurements up to `now`. */
  ghost predicate Arranges(done: seq<Measurement>, received: multiset<Measurement>, now: int) {
    TimeSorted(done) && forall m :: multiset(done)[m] == if m.time <= now then received[m] else 0
  }

  lemma SettledArranges(done: seq<Measurement>, queue: multiset<Measurement>, now: int)
    requires TimeSorted(done) && AllUpTo(done, now) && forall x :: x in queue ==> now < x.time
    ensures Arranges(done, multiset(done) + queue, now)
  {
    forall m: Measurement
      ensures multiset(done)[m] == if m.time <= now then (multiset(done) + queue)[m] else 0
    {
      if m.time <= now {
        assert m !in queue;
      } else {
        assert m !in done;
      }
    }
  }

  /** What the predictions before each measurement look like: forward in time, from its predecessor to its
      stamp. */
  ghost predicate GapsFit(last: int, initialized: bool, done: seq<Measurement>, gaps: seq<seq<int>>) {
    && |gaps| == |done|
    && forall k :: 0 <= k < |done| ==> GapFitsAt(last, initialized, done, gaps, k)
  }

  ghost function Before(last: int, done: seq<Measurement>, k: nat): int
    requires k <= |done|
  {
    if k == 0 then last else done[k - 1].time
  }

  ghost predicate GapFitsAt(last: int, initialized: bool, done: seq<Measurement>, gaps: seq<seq<int>>, k: nat) {
    && k < |done| && k < |gaps|
    && (gaps[k] != [] ==>
          && (k > 0 || initialized) && Ascends(Before(last, done, k), gaps[k])
          && gaps[k][|gaps[k]| - 1] <= done[k].time)
  }

  lemma LogGapsFit(d: Dynamics, log: Log)
    requires Traced(d, log) && Sorted(log)
    ensures GapsFit(log.folds[0].last, log.folds[0].initialized, log.done, log.gaps)
  {
    hide Ascends, AheadBy;
    forall k | 0 <= k < |log.done|
      ensures GapFitsAt(log.folds[0].last, log.folds[0].initialized, log.done, log.gaps, k)
    {
      assert GapFits(log, k);
      if k > 0 { assert AtStamp(log, k - 1); }
    }
  }

  /** What a run computes, late data or not, overtaken predictions or not: after any update the filter is
      that of processing every measurement received so far and not in the future, once each, in time
      order, from the filter the run started with; some of them on top of predictions that they overtook,
      and with what was predicted since on top of all. */
  lemma ReplayIsInTimeOrder(d: Dynamics, cfg: Config, events: seq<Event>, nodes: seq<Node>)
    returns (done: seq<Measurement>, gaps: seq<seq<int>>)
    requires cfg.smooth && IsRun(d, cfg, events, nodes)
    requires events != [] && events[|events| - 1].Update?
    ensures var (f, nows) := (nodes[0].filter, Predicted(cfg, events, nodes));
            && Arranges(done, Received(events), events[|events| - 1].now) && AllFrom(done, f.last)
            && GapsFit(f.last, f.initialized, done, gaps)
            && nodes[|events|].filter == AheadBy(d, FoldWith(d, f, done, gaps), nows)
            && (nows != [] ==> FoldWith(d, f, done, gaps).initialized)
            && Ascends(FoldWith(d, f, done, gaps).last, nows)
    ensures AllTolerable(cfg, events, nodes) ==>
              forall k :: 0 <= k < |done| ==> IsHarmless(gaps[k], Before(nodes[0].filter.last, done, k), done[k].time)
  {
    hide Predicted, AheadBy, AllTolerable, Ascends, Trails, Arranges, FoldWith, GapsFit, Received;
    var log, nows := RunTrails(d, cfg, events, nodes);
    done, gaps := log.done, log.gaps;
    TrailsAre(d, nodes[|events|], log, Received(events), nows, events[|events| - 1].now);
    if AllTolerable(cfg, events, nodes) { HarmlessStamps(log); }
  }

  lemma TrailsAre(d: Dynamics, n: Node, log: Log, received: multiset<Measurement>, nows: seq<int>, now: int)
    requires Trails(d, n, log, received, nows) && Shaped(log) && AllUpTo(log.done, now)
    requires forall x :: x in n.queue ==> now < x.time
    ensures Sorted(log) && Arranges(log.done, received, now) && AllFrom(log.done, log.folds[0].last)
    ensures GapsFit(log.folds[0].last, log.folds[0].initialized, log.done, log.gaps)
    ensures var f := FoldWith(d, log.folds[0], log.done, log.gaps);
            n.filter == AheadBy(d, f, nows) && (nows != [] ==> f.initialized) && Ascends(f.last, nows)
  {
    hide AheadBy, Ascends, Traced, Arranges, FoldWith, GapsFit;
    TrailsLog(d, n, log, received, nows);
    SettledArranges(log.done, n.queue, now);
    TracedIsFold(d, log, |log.done|);
    assert log.done[..|log.done|] == log.done && log.gaps[..|log.done|] == log.gaps;
    LogGapsFit(d, log);
  }

  lemma HarmlessStamps(log: Log)
    requires Sorted(log) && AllHarmless(log)
    ensures forall k :: 0 <= k < |log.done| ==>
              IsHarmless(log.gaps[k], Before(log.folds[0].last, log.done, k), log.done[k].time)
  {
    forall k | 0 <= k < |log.done|
      ensures IsHarmless(log.gaps[k], Before(log.folds[0].last, log.done, k), log.done[k].time)
    {
      assert IsHarmless(log.gaps[k], log.folds[k].last, log.done[k].time);
      if k > 0 { assert AtStamp(log, k - 1); }
    }
  }

  /** A prediction to the stamp of the next measurement is the one that measurement makes itself. */
  lemma HarmlessStep(d: Dynamics, f: Filter, gap: seq<int>, m: Measurement)
    requires IsHarmless(gap, f.last, m.time) && (gap != [] ==> f.initialized)
    ensures Step(d, AheadBy(d, f, gap), m) == Step(d, f, m)
  {
    if gap != [] {
      assert gap[..0] == [];
      assert AheadBy(d, f, gap) == PredictTo(d, AheadBy(d, f, []), m.time);
    }
  }

  ghost predicate AllHarmlessFrom(last: int, done: seq<Measurement>, gaps: seq<seq<int>>)
    requires |gaps| == |done|
  {
    forall k :: 0 <= k < |done| ==> IsHarmless(gaps[k], Before(last, done, k), done[k].time)
  }

  lemma {:induction false} FoldsInStep(d: Dynamics, f: Filter, done: seq<Measurement>, gaps: seq<seq<int>>)
    requires TimeSorted(done) && AllFrom(done, f.last) && GapsFit(f.last, f.initialized, done, gaps)
    ensures FoldWith(d, f, done, gaps).last == Fold(d, f, done).last == Before(f.last, done, |done|)
    ensures FoldWith(d, f, done, gaps).initialized == Fold(d, f, done).initialized == (f.initialized || done != [])
    decreases |done|
  {
    hide AheadBy, Ascends;
    if done != [] {
      var n := |done| - 1;
      GapsPrefix(f.last, f.initialized, done, gaps);
      FoldsInStep(d, f, done[..n], gaps[..n]);
      assert GapFitsAt(f.last, f.initialized, done, gaps, n);
      AheadStays(d, FoldWith(d, f, done[..n], gaps[..n]), gaps[n]);
      assert Before(f.last, done, n) <= done[n].time;
    }
  }

  lemma GapsPrefix(last: int, initialized: bool, done: seq<Measurement>, gaps: seq<seq<int>>)
    requires GapsFit(last, initialized, done, gaps) && done != []
    ensures GapsFit(last, initialized, done[..|done| - 1], gaps[..|done| - 1])
  {
    hide Ascends;
    var n := |done| - 1;
    forall k | 0 <= k < n
      ensures GapFitsAt(last, initialized, done[..n], gaps[..n], k)
    {
      assert GapFitsAt(last, initialized, done, gaps, k);
    }
  }

  lemma {:induction false} HarmlessFold(d: Dynamics, f: Filter, done: seq<Measurement>, gaps: seq<seq<int>>)
    requires TimeSorted(done) && AllFrom(done, f.last) && GapsFit(f.last, f.initialized, done, gaps)
             && AllHarmlessFrom(f.last, done, gaps)
    ensures FoldWith(d, f, done, gaps) == Fold(d, f, done)
    decreases |done|
  {
    hide AheadBy, Ascends;
    if done != [] {
      var n := |done| - 1;
      GapsPrefix(f.last, f.initialized, done, gaps);
      HarmlessPrefix(f.last, done, gaps);
      HarmlessFold(d, f, done[..n], gaps[..n]);
      FoldsInStep(d, f, done[..n], gaps[..n]);
      assert GapFitsAt(f.last, f.initialized, done, gaps, n)
             && IsHarmless(gaps[n], Before(f.last, done, n), done[n].time);
      HarmlessStep(d, Fold(d, f, done[..n]), gaps[n], done[n]);
    }
  }

  lemma HarmlessPrefix(last: int, done: seq<Measurement>, gaps: seq<seq<int>>)
    requires |gaps| == |done| && AllHarmlessFrom(last, done, gaps) && done != []
    ensures AllHarmlessFrom(last, done[..|done| - 1], gaps[..|done| - 1])
  {
    var n := |done| - 1;
    forall k | 0 <= k < n
      ensures IsHarmless(gaps[..n][k], Before(last, done[..n], k), done[..n][k].time)
    {
      assert IsHarmless(gaps[k], Before(last, done, k), done[k].time);
    }
  }

  // ---------------------------------------------------------------------------------------------
  // When overtaken predictions matter

  function Grown(x: Matrix): Matrix {
    Build(x.rows + 1, x.cols, (i: nat, j: nat) => 0.0)
  }

  /** A filter that only counts its predictions, in the rows of its state. */
  function Counting(): Dynamics {
    Dynamics(
      (e: Estimate, time: int, delta: int) => (e.(x := Grown(e.x)), Cache([], true)),
      (e: Estimate, c: Cache, m: Measurement) => (e, c),
      (e: Estimate, m: Measurement) => e)
  }

  lemma {:induction false} CountsAhead(f: Filter, nows: seq<int>)
    ensures AheadBy(Counting(), f, nows).estimate.x.rows == f.estimate.x.rows + |nows|
  {
    if nows != [] {
      CountsAhead(f, nows[..|nows| - 1]);
    }
  }

  lemma CountsStep(f: Filter, m: Measurement)
    ensures Step(Counting(), f, m).estimate.x.rows ==
            f.estimate.x.rows + if f.initialized && f.last < m.time then 1 else 0
  {
  }

  /** It counts at least as many with overtaken predictions as without, and as many only if all were
      harmless. */
  lemma {:induction false} CountsMore(f: Filter, done: seq<Measurement>, gaps: seq<seq<int>>)
    requires TimeSorted(done) && AllFrom(done, f.last) && GapsFit(f.last, f.initialized, done, gaps)
    ensures var (a, b) := (FoldWith(Counting(), f, done, gaps), Fold(Counting(), f, done));
            && b.estimate.x.rows <= a.estimate.x.rows
            && (b.estimate.x.rows == a.estimate.x.rows ==> AllHarmlessFrom(f.last, done, gaps))
    decreases |done|
  {
    hide AheadBy, Ascends, Counting, Step;
    if done != [] {
      var n := |done| - 1;
      GapsPrefix(f.last, f.initialized, done, gaps);
      CountsMore(f, done[..n], gaps[..n]);
      FoldsInStep(Counting(), f, done[..n], gaps[..n]);
      var (a, b) := (FoldWith(Counting(), f, done[..n], gaps[..n]), Fold(Counting(), f, done[..n]));
      CountsLast(a, b, gaps[n], done[n]);
      assert GapFitsAt(f.last, f.initialized, done, gaps, n);
      if AllHarmlessFrom(f.last, done[..n], gaps[..n]) && IsHarmless(gaps[n], Before(f.last, done, n), done[n].time) {
        HarmlessOneMore(f.last, done, gaps);
      }
    }
  }

  /** The last gap adds as many predictions as the measurement saves, or more unless it is harmless. */
  lemma CountsLast(a: Filter, b: Filter, gap: seq<int>, m: Measurement)
    requires a.last == b.last && a.initialized == b.initialized && b.estimate.x.rows <= a.estimate.x.rows
    requires gap != [] ==> a.initialized && Ascends(a.last, gap) && gap[|gap| - 1] <= m.time
    ensures var (x, y) := (Step(Counting(), AheadBy(Counting(), a, gap), m), Step(Counting(), b, m));
            && y.estimate.x.rows <= x.estimate.x.rows
            && (y.estimate.x.rows == x.estimate.x.rows ==>
                  a.estimate.x.rows == b.estimate.x.rows && IsHarmless(gap, a.last, m.time))
  {
    hide AheadBy, Counting, Step;
    CountsAhead(a, gap);
    AheadStays(Counting(), a, gap);
    CountsStep(AheadBy(Counting(), a, gap), m);
    CountsStep(b, m);
    if |gap| == 1 {
      assert gap == [gap[0]];
    }
  }

  lemma HarmlessOneMore(last: int, done: seq<Measurement>, gaps: seq<seq<int>>)
    requires |gaps| == |done| && done != [] && AllHarmlessFrom(last, done[..|done| - 1], gaps[..|done| - 1])
    requires IsHarmless(gaps[|done| - 1], Before(last, done, |done| - 1), done[|done| - 1].time)
    ensures AllHarmlessFrom(last, done, gaps)
  {
    var n := |done| - 1;
    forall k | 0 <= k < |done|
      ensures IsHarmless(gaps[k], Before(last, done, k), done[k].time)
    {
      if k < n {
        assert IsHarmless(gaps[..n][k], Before(last, done[..n], k), done[..n][k].time);
      }
    }
  }

  /** Overtaken predictions make no difference to any filter exactly if each measurement overtook none, or
      the one that it would have made itself. */
  lemma OvertakingIsExactIff(last: int, initialized: bool, done: seq<Measurement>, gaps: seq<seq<int>>)
    requires TimeSorted(done) && AllFrom(done, last) && |gaps| == |done|
    requires GapsFit(last, initialized, done, gaps)
    ensures (forall d, f: Filter :: f.last == last && f.initialized == initialized ==>
               FoldWith(d, f, done, gaps) == Fold(d, f, done))
            <==> AllHarmlessFrom(last, done, gaps)
  {
    hide AheadBy, GapsFit, FoldWith, Fold;
    if AllHarmlessFrom(last, done, gaps) {
      forall d, f: Filter | f.last == last && f.initialized == initialized
        ensures FoldWith(d, f, done, gaps) == Fold(d, f, done)
      {
        HarmlessFold(d, f, done, gaps);
      }
    } else {
      var f := Filter(Estimate(Zero(0, 0), Zero(0, 0)), Cache([], true), last, initialized);
      CountsMore(f, done, gaps);
      assert FoldWith(Counting(), f, done, gaps) != Fold(Counting(), f, done);
    }
  }

  /** The nodes of a run with prediction to the current time: one measurement, an update, a newer one and
      another update. */
  ghost function OvertakingRun(d: Dynamics, f: Filter, a: Measurement, b: Measurement): seq<Node> {
    var g := Step(d, f, a);
    var ahead := PredictTo(d, g, a.time);
    var h := Step(d, ahead, b);
    [Node(f, multiset{}, [], []), Node(f, multiset{a}, [], []),
     Node(ahead, multiset{}, [a], [Snapshot(g)]), Node(ahead, multiset{b}, [a], [Snapshot(g)]),
     Node(PredictTo(d, h, b.time), multiset{}, [b], [Snapshot(h)])]
  }

  const PREDICTING := Config(true, 0, true, 1)

  ghost function OvertakingEvents(a: Measurement, b: Measurement): seq<Event> {
    [Arrive(a), Update(a.time), Arrive(b), Update(b.time)]
  }

  /** It is a run, nothing in it is late, and it ends with the newer measurement processed on top of the
      prediction: for the counting filter that is not what processing both in order gives. */
  lemma PredictionMaySurvive(f: Filter, a: Measurement, b: Measurement)
    requires !f.initialized && f.last <= a.time < b.time
    ensures var (d, events) := (Counting(), OvertakingEvents(a, b));
            var nodes := OvertakingRun(d, f, a, b);
            && IsRun(d, PREDICTING, events, nodes) && nodes[0].filter == f
            && nodes[4].filter != PredictTo(d, Fold(d, f, [a, b]), b.time)
  {
    hide Updates, Step, PredictTo, Counting;
    var (d, events) := (Counting(), OvertakingEvents(a, b));
    var nodes := OvertakingRun(d, f, a, b);
    OvertakingUpdates(d, f, a, b);
    FirstIsReplayable(PREDICTING, f, a);
    SecondIsReplayable(d, f, a, b);
    assert nodes[0].queue + multiset{a} == nodes[1].queue && nodes[2].queue + multiset{b} == nodes[3].queue;
    assert Clock(events[..1]) == None by { assert events[..1][..0] == []; }
    assert Clock(events[..3]) == Some(a.time) by {
      assert events[..3][..2] == events[..2];
      assert events[..2][1] == Update(a.time);
    }
    hide Clock, Replayable;
    ArrivalIsReplayable(PREDICTING, nodes[0], Clock(events[..0]), a);
    ArrivalIsReplayable(PREDICTING, nodes[2], Clock(events[..2]), b);
    assert RunStep(d, PREDICTING, events, nodes, 0) && RunStep(d, PREDICTING, events, nodes, 1);
    assert RunStep(d, PREDICTING, events, nodes, 2) && RunStep(d, PREDICTING, events, nodes, 3);
    OvertakingCounts(f, a, b);
  }

  lemma SecondIsReplayable(d: Dynamics, f: Filter, a: Measurement, b: Measurement)
    requires !f.initialized && f.last <= a.time < b.time
    ensures Replayable(PREDICTING, OvertakingRun(d, f, a, b)[3], Some(a.time), Update(b.time))
  {
    OneInQueue(b);
  }

  lemma OvertakingUpdates(d: Dynamics, f: Filter, a: Measurement, b: Measurement)
    requires !f.initialized && f.last <= a.time < b.time
    ensures var nodes := OvertakingRun(d, f, a, b);
            && Updates(d, PREDICTING, nodes[1], a.time, nodes[2]) && Updates(d, PREDICTING, nodes[3], b.time, nodes[4])
  {
    hide Updates;
    OneInQueue(a);
    OneInQueue(b);
    var g := Step(d, f, a);
    var ahead := PredictTo(d, g, a.time);
    var h := Step(d, ahead, b);
    FirstOvertaken(d, Node(f, multiset{a}, [], []), a, g);
    SecondOvertakes(d, Node(ahead, multiset{b}, [a], [Snapshot(g)]), a, b, g, h);
  }

  lemma FirstOvertaken(d: Dynamics, n: Node, a: Measurement, g: Filter)
    requires n == Node(n.filter, multiset{a}, [], []) && !n.filter.initialized && n.filter.last <= a.time
    requires IsTop(a, n.queue) && TopTime(n.queue) == a.time && g == Step(d, n.filter, a)
    ensures Updates(d, PREDICTING, n, a.time, Node(PredictTo(d, g, a.time), multiset{}, [a], [Snapshot(g)]))
  {
    hide Integrates;
    OneIntegrates(d, n, a, Node(g, multiset{}, [] + [a], [] + [Snapshot(g)]));
  }

  lemma SecondOvertakes(d: Dynamics, n: Node, a: Measurement, b: Measurement, g: Filter, h: Filter)
    requires n == Node(PredictTo(d, g, a.time), multiset{b}, [a], [Snapshot(g)]) && g.last == a.time < b.time
    requires IsTop(b, n.queue) && TopTime(n.queue) == b.time && h == Step(d, n.filter, b)
    ensures Updates(d, PREDICTING, n, b.time, Node(PredictTo(d, h, b.time), multiset{}, [b], [Snapshot(h)]))
  {
    hide Integrates;
    OneIntegrates(d, n, b, Node(h, multiset{}, [a] + [b], [Snapshot(g)] + [Snapshot(h)]));
    OlderExpires(a, b, g, h);
  }

  /** A single due measurement, not late: it is processed, and the filter then predicted to its stamp. */
  lemma OneIntegrates(d: Dynamics, n: Node, m: Measurement, mid: Node)
    requires n.queue == multiset{m} && !IsLate(PREDICTING, n) && IsTop(m, n.queue)
    requires var f := Step(d, n.filter, m);
             f.initialized && mid == Node(f, multiset{}, n.history + [m], n.states + [Snapshot(f)])
    ensures Integrates(d, PREDICTING, n, m.time, [m], mid.(filter := PredictTo(d, mid.filter, m.time)))
  {
    hide Step, PredictTo;
    assert n.queue - multiset{m} == multiset{};
    assert DrainStep(d, true, n, m) == mid;
    assert Drains(d, true, m.time, mid, [m][1..], mid);
    assert Drains(d, true, m.time, DrainStart(PREDICTING, n), [m], mid);
  }

  lemma OlderExpires(a: Measurement, b: Measurement, g: Filter, h: Filter)
    requires a.time < b.time && g.last == a.time && h.last == b.time
    ensures DropOldMeasurements([a] + [b], b.time) == [b]
    ensures DropOldStates([Snapshot(g)] + [Snapshot(h)], b.time) == [Snapshot(h)]
  {
    assert ([a] + [b])[1..] == [b] && ([Snapshot(g)] + [Snapshot(h)])[1..] == [Snapshot(h)];
  }

  lemma OvertakingCounts(f: Filter, a: Measurement, b: Measurement)
    requires !f.initialized && f.last <= a.time < b.time
    ensures OvertakingRun(Counting(), f, a, b)[4].filter != PredictTo(Counting(), Fold(Counting(), f, [a, b]), b.time)
  {
    var d := Counting();
    assert [a, b][..1] == [a] && [a][..0] == [];
    assert Fold(d, f, [a]) == Step(d, f, a);
    assert Fold(d, f, [a, b]) == Step(d, Step(d, f, a), b);
    var (inOrder, overtaken) := (Fold(d, f, [a, b]), Step(d, PredictTo(d, Step(d, f, a), a.time), b));
    assert overtaken.estimate.x.rows == inOrder.estimate.x.rows + 1;
  }

  /** A filter whose predictions compose. */
  ghost predicate Composes(d: Dynamics) {
    forall e, t, u, a, b :: a >= 0 && b > 0 ==> ComposesAt(d, e, t, u, a, b)
  }

  ghost predicate ComposesAt(d: Dynamics, e: Estimate, t: int, u: int, a: int, b: int) {
    d.predict(d.predict(e, t, a).0, u, b) == d.predict(e, u, a + b)
  }

  /** For such a filter any measurement strictly newer than the predictions it overtakes is exact. */
  lemma {:induction false} ComposingIsExact(d: Dynamics, f: Filter, gap: seq<int>, m: Measurement)
    requires Composes(d) && f.initialized && Ascends(f.last, gap) && f.last < m.time
    requires gap != [] ==> gap[|gap| - 1] < m.time
    ensures Step(d, AheadBy(d, f, gap), m) == Step(d, f, m)
    decreases |gap|
  {
    if gap != [] {
      var (front, now) := (gap[..|gap| - 1], gap[|gap| - 1]);
      ComposingIsExact(d, f, front, m);
      var g := AheadBy(d, f, front);
      AheadStays(d, f, front);
      assert ComposesAt(d, g.estimate, now, m.time, now - g.last, m.time - now);
    }
  }

  // ---------------------------------------------------------------------------------------------
  // Replay equals in-order processing

  /** After any update of any run in which data overtakes predictions harmlessly, if at all, the filter's
      state, covariance and clock are those of processing every measurement received so far and not in
      the future, once each, in time order, from the filter the run started with; what was predicted
      ahead since, if anything, comes on top. */
  lemma ReplayEqualsInOrder(d: Dynamics, cfg: Config, events: seq<Event>, nodes: seq<Node>)
    returns (done: seq<Measurement>)
    requires cfg.smooth && IsRun(d, cfg, events, nodes) && AllTolerable(cfg, events, nodes)
    requires events != [] && events[|events| - 1].Update?
    ensures var (f, nows) := (nodes[0].filter, Predicted(cfg, events, nodes));
            && Arranges(done, Received(events), events[|events| - 1].now)
            && nodes[|events|].filter == AheadBy(d, Fold(d, f, done), nows)
            && (nows != [] ==> Fold(d, f, done).initialized) && Ascends(Fold(d, f, done).last, nows)
  {
    assert |nodes| == |events| + 1;
    hide IsRun, Predicted, AheadBy, AllTolerable, Ascends, GapsFit, FoldWith, Fold;
    var gaps;
    done, gaps := ReplayIsInTimeOrder(d, cfg, events, nodes);
    HarmlessFold(d, nodes[0].filter, done, gaps);
  }

  /** Arrival order does not matter: two such runs that received the same measurements, all with different
      stamps, and were last updated at the same time are in the same filter state, whatever was late in
      either of them and whatever was predicted and undone on the way. */
  lemma ArrivalOrderIsIrrelevant(
    d: Dynamics, cfg: Config, events: seq<Event>, nodes: seq<Node>, events': seq<Event>, nodes': seq<Node>)
    requires cfg.smooth && IsRun(d, cfg, events, nodes) && IsRun(d, cfg, events', nodes')
    requires AllTolerable(cfg, events, nodes) && AllTolerable(cfg, events', nodes')
    requires Predicted(cfg, events, nodes) == Predicted(cfg, events', nodes')
    requires nodes[0].filter == nodes'[0].filter && Received(events) == Received(events')
    requires events != [] && events' != [] && events[|events| - 1].Update?
             && events'[|events'| - 1] == events[|events| - 1]
    requires forall a, b :: a in Received(events) && b in Received(events) && a.time == b.time ==> a == b
    requires forall a :: Received(events)[a] <= 1
    ensures nodes[|events|].filter == nodes'[|events'|].filter
  {
    hide IsRun, Predicted, AllTolerable, AheadBy, Arranges, Received, Fold, Ascends;
    var a := ReplayEqualsInOrder(d, cfg, events, nodes);
    var b := ReplayEqualsInOrder(d, cfg, events', nodes');
    ArrangementIsUnique(a, b, Received(events), events[|events| - 1].now);
  }

  lemma ArrangementIsUnique(a: seq<Measurement>, b: seq<Measurement>, received: multiset<Measurement>, now: int)
    requires Arranges(a, received, now) && Arranges(b, received, now)
    requires forall x, y :: x in received && y in received && x.time == y.time ==> x == y
    requires forall x :: received[x] <= 1
    ensures a == b
  {
    assert multiset(a) == multiset(b);
    forall i, j | 0 <= i < j < |a|
      ensures a[i].time != a[j].time
    {
      OccursTwice(a, i, j);
    }
    SortedArrangementIsUnique(a, b);
  }

  lemma OccursTwice<T>(s: seq<T>, i: nat, j: nat)
    requires i < j < |s|
    ensures s[i] in multiset(s) && s[j] in multiset(s)
    ensures s[i] == s[j] ==> multiset(s)[s[i]] >= 2
  {
    assert s == s[..j] + [s[j]] + s[j + 1..];
    assert s[i] in multiset(s[..j]);
  }

  // ---------------------------------------------------------------------------------------------
  // A history that is too short

  /** The measurements restored when only the oldest state is left: they start before its cut. */
  lemma RestoredTooEarly(done: seq<Measurement>, p: nat, t: int, c: nat) returns (x: nat)
    requires TimeSorted(done) && p < c <= |done| && t < done[c - 1].time
    ensures x < c
    ensures var history := done[p..];
            RestoredFrom(history[|KeepHistory(history, t)|..], done[c - 1].time) == multiset(done[x..])
  {
    var history := done[p..];
    var q := |KeepHistory(history, t)|;
    KeptHistoryIsOld(history, t);
    assert history[c - 1 - p].time > t;
    assert q <= c - 1 - p;
    var popped := history[q..];
    var k := RestoredIsSuffix(popped, done[c - 1].time);
    assert popped[c - 1 - p - q] == done[c - 1];
    x := p + q + k;
    assert popped[k..] == done[x..];
  }

  lemma {:induction false} KeptHistoryIsOld(history: seq<Measurement>, t: int)
    requires TimeSorted(history)
    ensures forall i :: 0 <= i < |KeepHistory(history, t)| ==> history[i].time <= t
    decreases |history|
  {
    if history != [] && history[|history| - 1].time > t {
      KeptHistoryIsOld(history[..|history| - 1], t);
    }
  }

  /** How much of the log the state that revertTo leaves contains: all of it when nothing was saved. */
  ghost function TargetCut(n: Node, log: Log, t: int): nat
    requires |log.cuts| == |n.states| && |KeepStates(n.states, t)| <= |n.states|
  {
    var k := |KeepStates(n.states, t)|;
    if log.cuts == [] then |log.done| else log.cuts[if k > 0 then k - 1 else 0]
  }

  /** No saved state is old enough: revertTo goes back to the oldest one, and everything it restores
      from `x` on includes measurements that state already contains. */
  lemma ShortHistory(d: Dynamics, n: Node, log: Log, received: multiset<Measurement>, t: int) returns (x: nat)
    requires Settled(d, n, log, received) && n.states != [] && KeepStates(n.states, t) == []
    ensures x < log.cuts[0] <= |log.done|
    ensures RevertTo(n, t).queue == n.queue + multiset(log.done[x..])
  {
    hide Traced, TimeSorted, RestoredFrom, KeepHistory, RevertTo, Uncovered;
    SavedAscend(log, n.states, 0);
    NothingNewerForgotten(log, n.history, 1);
    hide Sorted, Checkpoints;
    var k := KeptStates(n.states, t);
    var c := log.cuts[0];
    x := RestoredTooEarly(log.done, |log.done| - |n.history|, t, c);
    RevertsToOldest(n, t);
  }

  lemma RevertsToOldest(n: Node, t: int)
    requires n.states != [] && KeepStates(n.states, t) == []
    ensures var kept := KeepHistory(n.history, t);
            RevertTo(n, t).queue == n.queue + RestoredFrom(n.history[|kept|..], n.states[0].last)
  {
    hide KeepStates, KeepHistory, RestoredFrom;
  }

  /** A revert neither loses nor repeats a measurement exactly when nothing was saved, and it does
      nothing, or some saved state is old enough: then and only then the measurements in the restored
      state and those in the queue are together what was received. */
  lemma RevertConservesIff(d: Dynamics, n: Node, log: Log, received: multiset<Measurement>, t: int)
    requires Settled(d, n, log, received)
    ensures |KeepStates(n.states, t)| <= |n.states| == |log.cuts| && TargetCut(n, log, t) <= |log.done|
    ensures received == multiset(log.done[..TargetCut(n, log, t)]) + RevertTo(n, t).queue
            <==> n.states == [] || KeepStates(n.states, t) != []
  {
    hide Traced, Sorted, Retains;
    var k := KeptStates(n.states, t);
    if n.states == [] {
      assert log.done[..|log.done|] == log.done;
    } else if k == 0 {
      TooShortRepeats(d, n, log, received, t);
    } else {
      OldEnoughConserves(d, n, log, received, t, k);
    }
  }

  lemma TooShortRepeats(d: Dynamics, n: Node, log: Log, received: multiset<Measurement>, t: int)
    requires Settled(d, n, log, received) && n.states != [] && KeepStates(n.states, t) == []
    ensures log.cuts != [] && log.cuts[0] <= |log.done|
    ensures received != multiset(log.done[..log.cuts[0]]) + RevertTo(n, t).queue
  {
    var x := ShortHistory(d, n, log, received, t);
    hide Consistent, RevertTo, KeepStates;
    var before := log.done[..log.cuts[0]];
    assert |received| == |log.done| + |n.queue|;
    assert |multiset(before) + RevertTo(n, t).queue| == log.cuts[0] + |n.queue| + |log.done| - x;
  }

  lemma OldEnoughConserves(d: Dynamics, n: Node, log: Log, received: multiset<Measurement>, t: int, k: nat)
    requires Settled(d, n, log, received) && IsTarget(n.states, t, k) && KeepStates(n.states, t) == n.states[..k]
    ensures k <= |log.cuts| && log.cuts[k - 1] <= |log.done|
    ensures received == multiset(log.done[..log.cuts[k - 1]]) + RevertTo(n, t).queue
  {
    RevertCuts(n, log, t, k);
    CutBackKeepsLog(d, n, log, received, k);
  }

  /** A run that ends there: a first measurement, an update, and then a measurement from before the
      first.  Reverting goes back to the only saved state, which contains the first measurement, and puts
      that measurement back into the queue as well. */
  lemma HistoryMayBeTooShort(
    d: Dynamics, f: Filter, a: Measurement, b: Measurement)
    returns (cfg: Config, events: seq<Event>, nodes: seq<Node>)
    requires !f.initialized && f.last <= a.time && b.time < a.time
    ensures cfg.smooth && IsRun(d, cfg, events, nodes) && nodes[0].filter == f
    ensures var n := nodes[|events|];
            && IsLate(cfg, n) && n.states == [Snapshot(Step(d, f, a))]
            && KeepStates(n.states, TopTime(n.queue) - 1) == []
            && n.queue == multiset{b} && RevertTo(n, TopTime(n.queue) - 1).queue == multiset{a, b}
  {
    hide Updates, Step, RevertTo, KeepStates, Replayable, TopTime;
    cfg := Config(true, 0, false, 1);
    events := [Arrive(a), Update(a.time), Arrive(b)];
    var (start, g) := (Node(f, multiset{}, [], []), Step(d, f, a));
    var waiting := start.(queue := multiset{a});
    var after := Node(g, multiset{}, [a], [Snapshot(g)]);
    var late := after.(queue := multiset{b});
    nodes := [start, waiting, after, late];
    FirstUpdate(d, cfg, f, a, after);
    FirstIsReplayable(cfg, f, a);
    ArrivalIsReplayable(cfg, start, None, a);
    ArrivalIsReplayable(cfg, after, Clock(events[..2]), b);
    assert start.queue + multiset{a} == waiting.queue && after.queue + multiset{b} == late.queue;
    assert Clock(events[..1]) == None by { assert events[..1][..0] == []; }
    assert RunStep(d, cfg, events, nodes, 0) && RunStep(d, cfg, events, nodes, 1) && RunStep(d, cfg, events, nodes, 2);
    FirstStepInitializes(d, f, a);
    LateReverts(cfg, late, g, a, b);
  }

  lemma ArrivalIsReplayable(cfg: Config, n: Node, clock: Option<int>, m: Measurement)
    ensures Replayable(cfg, n, clock, Arrive(m))
  {
  }

  lemma FirstIsReplayable(cfg: Config, f: Filter, a: Measurement)
    requires f.last <= a.time
    ensures Replayable(cfg, Node(f, multiset{a}, [], []), None, Update(a.time))
  {
    OneInQueue(a);
  }

  lemma FirstStepInitializes(d: Dynamics, f: Filter, a: Measurement)
    requires !f.initialized
    ensures Step(d, f, a).last == a.time && Step(d, f, a).initialized
  {
  }

  lemma OneInQueue(m: Measurement)
    ensures IsTop(m, multiset{m}) && TopTime(multiset{m}) == m.time
  {
  }

  lemma FirstUpdate(d: Dynamics, cfg: Config, f: Filter, a: Measurement, after: Node)
    requires !f.initialized && f.last <= a.time && cfg == Config(true, 0, false, 1)
    requires after == Node(Step(d, f, a), multiset{}, [a], [Snapshot(Step(d, f, a))])
    ensures Updates(d, cfg, Node(f, multiset{a}, [], []), a.time, after)
  {
    var n := Node(f, multiset{a}, [], []);
    OneInQueue(a);
    assert n.queue - multiset{a} == multiset{};
    assert DrainStep(d, true, n, a) == after;
    assert Drains(d, true, a.time, after, [a][1..], after);
    assert Drains(d, true, a.time, n, [a], after);
    assert DrainStart(cfg, n) == n
           && PredictAhead(d, after, a.time, cfg.predictToNow || TimedOut(cfg, n, a.time)) == after;
    assert Integrates(d, cfg, n, a.time, [a], after);
    assert ClearExpired(after, after.filter.last - cfg.historyLength) == after;
  }

  lemma LateReverts(cfg: Config, n: Node, g: Filter, a: Measurement, b: Measurement)
    requires n == Node(g, multiset{b}, [a], [Snapshot(g)]) && g.last == a.time && b.time < a.time && cfg.smooth
    ensures IsLate(cfg, n) && KeepStates(n.states, TopTime(n.queue) - 1) == []
    ensures RevertTo(n, TopTime(n.queue) - 1).queue == multiset{a, b}
  {
    OneInQueue(b);
    assert [Snapshot(g)][..0] == [];
    assert [a][..0] == [] && [a][0..] == [a];
    assert KeepHistory([a], b.time - 1) == [];
    assert RestoredFrom([a], a.time) == multiset{a} + RestoredFrom([a][1..], a.time);
  }
}
