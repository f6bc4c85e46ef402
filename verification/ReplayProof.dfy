/** Why replay is exact: the histories are a log with checkpoints, every step of the engine keeps
    the log consistent, and a consistent log determines the filter. */
module ReplayProof {
  import opened FilterCycle
  import opened Replay

  // ---------------------------------------------------------------------------------------------
  // Predictions without a measurement

  /** The filter after predictions to `nows`, one on top of the other. */
  ghost function AheadBy(d: Dynamics, f: Filter, nows: seq<int>): Filter {
    if nows == [] then f else PredictTo(d, AheadBy(d, f, nows[..|nows| - 1]), nows[|nows| - 1])
  }

  ghost predicate Ascends(from: int, nows: seq<int>) {
    && (forall i :: 0 <= i < |nows| ==> from <= nows[i])
    && forall i, j :: 0 <= i < j < |nows| ==> nows[i] <= nows[j]
  }

  lemma AheadStays(d: Dynamics, f: Filter, nows: seq<int>)
    ensures if nows == [] then AheadBy(d, f, nows) == f
            else AheadBy(d, f, nows).initialized && AheadBy(d, f, nows).last == nows[|nows| - 1]
  {
  }

  /** Processing `done` in order, with predictions to `gaps[k]` just before measurement k. */
  ghost function FoldWith(d: Dynamics, f: Filter, done: seq<Measurement>, gaps: seq<seq<int>>): Filter
    requires |gaps| == |done|
  {
    if done == [] then f
    else
      var n := |done| - 1;
      Step(d, AheadBy(d, FoldWith(d, f, done[..n], gaps[..n]), gaps[n]), done[n])
  }

  // ---------------------------------------------------------------------------------------------
  // The log

  /** The log behind a node: the filter it started from, every measurement processed since in the
      order that counts, the predictions that each of them was processed on top of, the filter after
      each of them, and how many of them each saved state covers. */
  datatype Log = Log(done: seq<Measurement>, gaps: seq<seq<int>>, folds: seq<Filter>, cuts: seq<nat>)

  ghost predicate Links(d: Dynamics, log: Log, k: nat) {
    && k < |log.done| && k < |log.gaps| && k + 1 < |log.folds|
    && log.folds[k + 1] == Step(d, AheadBy(d, log.folds[k], log.gaps[k]), log.done[k])
  }

  /** Predictions before measurement k went forward, from an initialised filter to its stamp or before. */
  ghost predicate GapFits(log: Log, k: nat) {
    && k < |log.done| && k < |log.gaps| && k < |log.folds|
    && (log.gaps[k] != [] ==>
          && log.folds[k].initialized && log.gaps[k][|log.gaps[k]| - 1] <= log.done[k].time
          && Ascends(log.folds[k].last, log.gaps[k]))
  }

  ghost predicate Traced(d: Dynamics, log: Log) {
    && |log.folds| == |log.done| + 1 && |log.gaps| == |log.done|
    && forall k :: 0 <= k < |log.done| ==> Links(d, log, k) && GapFits(log, k)
  }

  lemma {:induction false} TracedIsFold(d: Dynamics, log: Log, k: nat)
    requires Traced(d, log) && k <= |log.done|
    ensures log.folds[k] == FoldWith(d, log.folds[0], log.done[..k], log.gaps[..k])
  {
    if k > 0 {
      TracedIsFold(d, log, k - 1);
      assert Links(d, log, k - 1);
      assert log.done[..k][..k - 1] == log.done[..k - 1] && log.gaps[..k][..k - 1] == log.gaps[..k - 1];
    }
  }

  ghost function LastCut(cuts: seq<nat>): nat {
    if cuts == [] then 0 else cuts[|cuts| - 1]
  }

  /** The log is in time order, and in time order the filter's clock is the newest stamp. */
  ghost predicate Sorted(log: Log) {
    && |log.folds| == |log.done| + 1 && |log.gaps| == |log.done|
    && TimeSorted(log.done) && AllFrom(log.done, log.folds[0].last)
    && forall k :: 0 <= k < |log.done| ==> AtStamp(log, k)
  }

  /** The filter after measurement k is at its stamp. */
  ghost predicate AtStamp(log: Log, k: int) {
    && 0 <= k < |log.done| && k + 1 < |log.folds|
    && log.folds[k + 1].last == log.done[k].time && log.folds[k + 1].initialized
  }

  /** The cuts rise, and between two of them all measurements carry one stamp. */
  ghost predicate CutsFit(done: seq<Measurement>, cuts: seq<nat>) {
    && (forall i :: 0 <= i < |cuts| ==> 0 < cuts[i] <= |done|)
    && (forall i, j :: 0 <= i < j < |cuts| ==> cuts[i] < cuts[j])
    && (forall i :: 0 < i < |cuts| ==> OneStamp(done, cuts, i))
  }

  /** The measurements between cuts `i - 1` and `i`. */
  ghost predicate OneStamp(done: seq<Measurement>, cuts: seq<nat>, i: nat) {
    && 0 < i < |cuts| && cuts[i] <= |done|
    && forall k :: cuts[i - 1] <= k < cuts[i] ==> done[k].time == done[cuts[i] - 1].time
  }

  /** State `i` was saved after the first `cuts[i]` measurements. */
  ghost predicate Checkpoints(log: Log, states: seq<Saved>) {
    && |log.folds| == |log.done| + 1 && |log.cuts| == |states|
    && CutsFit(log.done, log.cuts)
    && forall i :: 0 <= i < |states| ==> states[i] == Snapshot(log.folds[log.cuts[i]])
  }

  /** The measurement history is the end of the log. */
  ghost predicate EndsWith(log: Log, history: seq<Measurement>) {
    |history| <= |log.done| && history == log.done[|log.done| - |history|..]
  }

  /** Everything in the log that the history has forgotten is strictly older than `t`. */
  ghost predicate ForgotBefore(log: Log, history: seq<Measurement>, t: int) {
    forall k :: 0 <= k < |log.done| - |history| ==> log.done[k].time < t
  }

  /** The history is the end of the log; what it has forgotten is strictly older than every saved state,
      or than the filter if nothing is saved. */
  ghost predicate Retains(log: Log, history: seq<Measurement>) {
    && |log.folds| == |log.done| + 1 && EndsWith(log, history)
    && (log.cuts == [] || 0 < log.cuts[0] <= |log.done|)
    && ForgotBefore(log, history, if log.cuts == [] then log.folds[|log.done|].last else log.done[log.cuts[0] - 1].time)
  }

  ghost predicate Consistent(
    d: Dynamics, n: Node, log: Log, received: multiset<Measurement>)
  {
    && Traced(d, log)
    && Sorted(log)
    && Checkpoints(log, n.states)
    && Retains(log, n.history)
    && received == multiset(log.done) + n.queue
  }

  /** The invariant at every update boundary: the filter is the fold of the log, and the newest
      saved state is the current one. */
  ghost predicate Settled(
    d: Dynamics, n: Node, log: Log, received: multiset<Measurement>)
  {
    && Consistent(d, n, log, received)
    && n.filter == log.folds[|log.done|]
    && LastCut(log.cuts) == |log.done|
  }

  ghost predicate AllUpTo(ms: seq<Measurement>, t: int) {
    forall i :: 0 <= i < |ms| ==> ms[i].time <= t
  }

  /** The queue holds nothing older than the log's filter, and measurements that no saved state covers
      carry one stamp, which is also due next. */
  ghost predicate InStep(queue: multiset<Measurement>, log: Log, now: int)
    requires |log.folds| == |log.done| + 1
  {
    var t := log.folds[|log.done|].last;
    && (forall x :: x in queue ==> t <= x.time)
    && AllUpTo(log.done, now)
    && Uncovered(log, t)
    && (LastCut(log.cuts) < |log.done| ==> queue != multiset{} && TopTime(queue) == t)
  }

  ghost predicate Uncovered(log: Log, t: int) {
    log.cuts != [] ==> forall k :: LastCut(log.cuts) <= k < |log.done| ==> log.done[k].time == t
  }

  /** The filter follows the log.  Right after a revert the cache is still the one from before (`stale`),
      but then the next measurement is due and strictly newer than the filter. */
  ghost predicate Tracking(
    filter: Filter, queue: multiset<Measurement>, log: Log, now: int, stale: bool)
    requires |log.folds| == |log.done| + 1
  {
    var f := log.folds[|log.done|];
    && filter == f.(cache := filter.cache)
    && (!stale ==> filter == f)
    && (stale ==> f.initialized && queue != multiset{} && f.last < TopTime(queue) <= now)
    && InStep(queue, log, now)
  }

  /** The invariant of the drain loop. */
  ghost predicate Draining(
    d: Dynamics, n: Node, log: Log, received: multiset<Measurement>, now: int, stale: bool)
  {
    Consistent(d, n, log, received) && Tracking(n.filter, n.queue, log, now, stale)
  }

  // ---------------------------------------------------------------------------------------------
  // The drain loop

  ghost function Extend(log: Log, m: Measurement, gap: seq<int>, f: Filter, saved: bool): Log {
    Log(log.done + [m], log.gaps + [gap], log.folds + [f], if saved then log.cuts + [|log.done| + 1] else log.cuts)
  }

  ghost function ExtendBy(d: Dynamics, log: Log, n: Node, m: Measurement, gap: seq<int>): Log {
    var f := Step(d, n.filter, m);
    Extend(log, m, gap, f, SavesAfter(f, n.queue - multiset{m}))
  }

  lemma ExtendKeepsCuts(done: seq<Measurement>, cuts: seq<nat>, m: Measurement, saved: bool)
    requires CutsFit(done, cuts)
    requires saved && cuts != [] ==> forall k :: LastCut(cuts) <= k < |done| ==> done[k].time == m.time
    ensures CutsFit(done + [m], if saved then cuts + [|done| + 1] else cuts)
  {
    var done' := done + [m];
    var cuts' := if saved then cuts + [|done| + 1] else cuts;
    assert forall k :: 0 <= k < |done| ==> done'[k] == done[k];
    forall i | 0 < i < |cuts'|
      ensures OneStamp(done', cuts', i)
    {
      assert i < |cuts| ==> OneStamp(done, cuts, i);
    }
  }

  lemma ExtendKeepsHistory(
    log: Log, history: seq<Measurement>, m: Measurement, gap: seq<int>, f: Filter, saved: bool)
    requires |log.folds| == |log.done| + 1 && EndsWith(log, history) && f.last == m.time
    requires log.cuts == [] || 0 < log.cuts[0] <= |log.done|
    requires ForgotBefore(log, history, if log.cuts == [] then m.time else log.done[log.cuts[0] - 1].time)
    ensures Retains(Extend(log, m, gap, f, saved), history + [m])
  {
    var log' := Extend(log, m, gap, f, saved);
    var p := |log.done| - |history|;
    assert (log.done + [m])[p..] == log.done[p..] + [m];
    assert forall k :: 0 <= k < p ==> log'.done[k] == log.done[k];
  }

  lemma ExtendKeepsTrace(
    d: Dynamics, log: Log, m: Measurement, gap: seq<int>, f: Filter, saved: bool)
    requires Traced(d, log) && f == Step(d, AheadBy(d, log.folds[|log.done|], gap), m)
    requires gap != [] ==> log.folds[|log.done|].initialized && gap[|gap| - 1] <= m.time
    requires gap != [] ==> Ascends(log.folds[|log.done|].last, gap)
    ensures Traced(d, Extend(log, m, gap, f, saved))
  {
    hide AheadBy, Ascends;
    var log' := Extend(log, m, gap, f, saved);
    forall k | 0 <= k < |log'.done|
      ensures Links(d, log', k) && GapFits(log', k)
    {
      assert k < |log.done| ==> Links(d, log, k) && GapFits(log, k);
    }
  }

  lemma ExtendKeepsOrder(log: Log, m: Measurement, gap: seq<int>, f: Filter, saved: bool)
    requires Sorted(log) && log.folds[|log.done|].last <= m.time && f.last == m.time && f.initialized
    ensures Sorted(Extend(log, m, gap, f, saved))
  {
    var log' := Extend(log, m, gap, f, saved);
    if log.done != [] {
      assert AtStamp(log, |log.done| - 1);
    }
    SortedOn(log.done, log.folds[0].last, m);
    assert log'.done == log.done + [m] && log'.folds[0] == log.folds[0];
    hide TimeSorted, AllFrom;
    forall k | 0 <= k < |log'.done|
      ensures AtStamp(log', k)
    {
      if k < |log.done| {
        assert AtStamp(log, k);
      }
    }
  }

  lemma SortedOn(done: seq<Measurement>, from: int, m: Measurement)
    requires TimeSorted(done) && AllFrom(done, from)
    requires (if done == [] then from else done[|done| - 1].time) <= m.time
    ensures TimeSorted(done + [m]) && AllFrom(done + [m], from)
  {
  }

  lemma ExtendKeepsStates(
    log: Log, states: seq<Saved>, m: Measurement, gap: seq<int>, f: Filter, saved: bool)
    requires Checkpoints(log, states) && Uncovered(log, m.time)
    ensures Checkpoints(Extend(log, m, gap, f, saved), if saved then states + [Snapshot(f)] else states)
  {
    ExtendKeepsCuts(log.done, log.cuts, m, saved);
  }

  /** Processing the next measurement from the log's filter, predicted ahead to `gap`, extends the log. */
  lemma DrainStepKeepsLog(
    d: Dynamics, n: Node, log: Log, received: multiset<Measurement>, m: Measurement, gap: seq<int>)
    requires Traced(d, log) && Sorted(log) && Checkpoints(log, n.states) && EndsWith(log, n.history)
    requires ForgotBefore(log, n.history, if log.cuts == [] then m.time else log.done[log.cuts[0] - 1].time)
    requires received == multiset(log.done) + n.queue && m in n.queue && log.folds[|log.done|].last <= m.time
    requires Step(d, n.filter, m) == Step(d, AheadBy(d, log.folds[|log.done|], gap), m)
    requires gap != [] ==> log.folds[|log.done|].initialized && gap[|gap| - 1] <= m.time
    requires gap != [] ==> Ascends(log.folds[|log.done|].last, gap)
    requires Uncovered(log, m.time)
    ensures Consistent(d, DrainStep(d, true, n, m), ExtendBy(d, log, n, m, gap), received)
  {
    hide Traced, Sorted, AheadBy, Ascends, Uncovered, EndsWith, ForgotBefore, Retains;
    var f := Step(d, n.filter, m);
    var saved := SavesAfter(f, n.queue - multiset{m});
    StepIsAtStamp(d, log.folds[|log.done|], gap, m);
    ExtendKeepsTrace(d, log, m, gap, f, saved);
    ExtendKeepsOrder(log, m, gap, f, saved);
    ExtendKeepsStates(log, n.states, m, gap, f, saved);
    ExtendKeepsHistory(log, n.history, m, gap, f, saved);
    ExtendMultiset(log.done, m, n.queue);
  }

  lemma StepIsAtStamp(d: Dynamics, f: Filter, gap: seq<int>, m: Measurement)
    requires f.last <= m.time && (gap != [] ==> gap[|gap| - 1] <= m.time)
    ensures var g := Step(d, AheadBy(d, f, gap), m); g.last == m.time && g.initialized
  {
    AheadStays(d, f, gap);
  }

  lemma ExtendMultiset<T>(done: seq<T>, m: T, queue: multiset<T>)
    requires m in queue
    ensures multiset(done + [m]) + (queue - multiset{m}) == multiset(done) + queue
  {
    assert multiset(done + [m]) == multiset(done) + multiset{m};
  }

  lemma DrainStepKeepsPace(queue: multiset<Measurement>, log: Log, now: int, m: Measurement, gap: seq<int>, f: Filter)
    requires |log.folds| == |log.done| + 1 && AllUpTo(log.done, now) && Uncovered(log, m.time)
    requires IsTop(m, queue) && f.last == m.time <= now
    ensures InStep(queue - multiset{m}, Extend(log, m, gap, f, SavesAfter(f, queue - multiset{m})), now)
  {
    var log' := Extend(log, m, gap, f, SavesAfter(f, queue - multiset{m}));
    assert forall x :: x in queue - multiset{m} ==> x in queue;
    assert forall k :: 0 <= k < |log.done| ==> log'.done[k] == log.done[k];
  }

  lemma InStepIsUncovered(queue: multiset<Measurement>, log: Log, now: int, m: Measurement)
    requires |log.folds| == |log.done| + 1 && InStep(queue, log, now) && IsTop(m, queue)
    ensures Uncovered(log, m.time)
  {
    assert TopTime(queue) == m.time;
  }

  /** One pass of the drain loop keeps the invariant, and the cache is fresh afterwards. */
  lemma DrainStepKeeps(
    d: Dynamics, n: Node, log: Log, received: multiset<Measurement>, now: int, stale: bool,
    m: Measurement)
    requires Draining(d, n, log, received, now, stale)
    requires IsTop(m, n.queue) && m.time <= now
    ensures Draining(d, DrainStep(d, true, n, m), ExtendBy(d, log, n, m, []), received, now, false)
  {
    hide Traced, Sorted, Checkpoints, EndsWith, ForgotBefore, Uncovered;
    var f := log.folds[|log.done|];
    AheadStays(d, f, []);
    if stale {
      assert TopTime(n.queue) == m.time;
      StepForgetsCache(d, f, n.filter, m);
    }
    InStepIsUncovered(n.queue, log, now, m);
    ForgotBeforeNext(log, n.history, m);
    DrainStepKeepsLog(d, n, log, received, m, []);
    StepIsAtStamp(d, f, [], m);
    DrainStepKeepsPace(n.queue, log, now, m, [], Step(d, n.filter, m));
  }

  lemma ForgotBeforeNext(log: Log, history: seq<Measurement>, m: Measurement)
    requires Retains(log, history) && log.folds[|log.done|].last <= m.time
    ensures ForgotBefore(log, history, if log.cuts == [] then m.time else log.done[log.cuts[0] - 1].time)
  {
  }

  lemma {:induction false} DrainKeeps(
    d: Dynamics, n: Node, log: Log, received: multiset<Measurement>, now: int, stale: bool,
    batch: seq<Measurement>, n': Node) returns (log': Log)
    requires Draining(d, n, log, received, now, stale)
    requires Drains(d, true, now, n, batch, n')
    ensures Settled(d, n', log', received) && Extends(log, log')
    ensures AllUpTo(log'.done, now) && forall x :: x in n'.queue ==> now < x.time
    decreases |batch|
  {
    if batch == [] {
      log' := log;
      DrainEnds(d, n, log, received, now, stale);
    } else {
      hide Consistent, Tracking, SavesAfter;
      DrainStepKeeps(d, n, log, received, now, stale, batch[0]);
      var next := ExtendBy(d, log, n, batch[0], []);
      LogHasFolds(d, DrainStep(d, true, n, batch[0]), next, received);
      log' := DrainKeeps(d, DrainStep(d, true, n, batch[0]), next, received, now, false, batch[1..], n');
      ExtendsFurther(log, batch[0], Step(d, n.filter, batch[0]),
                     SavesAfter(Step(d, n.filter, batch[0]), n.queue - multiset{batch[0]}), log');
    }
  }

  lemma LogHasFolds(d: Dynamics, n: Node, log: Log, received: multiset<Measurement>)
    requires Consistent(d, n, log, received)
    ensures |log.folds| == |log.done| + 1 && |log.gaps| == |log.done|
  {
  }

  lemma DrainEnds(d: Dynamics, n: Node, log: Log, received: multiset<Measurement>, now: int, stale: bool)
    requires Draining(d, n, log, received, now, stale) && forall x :: x in n.queue ==> now < x.time
    ensures Settled(d, n, log, received) && AllUpTo(log.done, now) && Extends(log, log)
  {
    assert n.queue != multiset{} ==> now < TopTime(n.queue);
    if log.done != [] {
      assert AtStamp(log, |log.done| - 1);
      assert log.done[|log.done| - 1].time <= now;
    }
  }

  lemma ExtendsFurther(log: Log, m: Measurement, f: Filter, saved: bool, log': Log)
    requires |log.folds| == |log.done| + 1 && |log.gaps| == |log.done| && Extends(Extend(log, m, [], f, saved), log')
    ensures Extends(log, log')
  {
    var next := Extend(log, m, [], f, saved);
    assert next.gaps[|log.gaps|] == [];
    assert log'.gaps[|log.gaps|] == next.gaps[|log.gaps|];
  }

  /** `log'` goes on from `log` without further predictions. */
  ghost predicate Extends(log: Log, log': Log) {
    && log.folds != [] && log'.folds != [] && log'.folds[0] == log.folds[0]
    && log.done <= log'.done && log.gaps <= log'.gaps && log.folds <= log'.folds
    && forall k :: |log.gaps| <= k < |log'.gaps| ==> log'.gaps[k] == []
  }

  /** Data in order: the drain starts from the settled node itself. */
  lemma InOrderStart(
    d: Dynamics, n: Node, log: Log, received: multiset<Measurement>, now: int)
    requires Settled(d, n, log, received) && AllUpTo(log.done, now)
    requires n.queue == multiset{} || n.filter.last <= TopTime(n.queue)
    ensures Draining(d, n, log, received, now, false)
  {
  }

  // ---------------------------------------------------------------------------------------------
  // Reverting

  /** `states[k - 1]` is the newest saved state at or before `t`. */
  ghost predicate IsTarget(states: seq<Saved>, t: int, k: nat) {
    0 < k <= |states| && states[k - 1].last <= t && forall i :: k <= i < |states| ==> t < states[i].last
  }

  lemma {:induction false} KeptStates(states: seq<Saved>, t: int) returns (k: nat)
    ensures k <= |states| && KeepStates(states, t) == states[..k]
    ensures k == 0 || IsTarget(states, t, k)
    ensures forall i :: k <= i < |states| ==> t < states[i].last
    decreases |states|
  {
    var n := |states|;
    if n > 0 && states[n - 1].last > t {
      k := KeptStates(states[..n - 1], t);
      assert states[..n - 1][..k] == states[..k];
    } else {
      k := n;
      assert states[..n] == states;
    }
  }

  /** revertTo pops the history down to the last measurement at or before `t`. */
  lemma {:induction false} KeptHistory(history: seq<Measurement>, t: int, q: nat)
    requires q <= |history| && (q == 0 || history[q - 1].time <= t)
    requires forall i :: q <= i < |history| ==> t < history[i].time
    ensures KeepHistory(history, t) == history[..q]
    decreases |history|
  {
    if q == |history| {
      assert history[..q] == history;
    } else {
      var shorter := history[..|history| - 1];
      KeptHistory(shorter, t, q);
      assert shorter[..q] == history[..q];
    }
  }

  /** On sorted measurements, restoring keeps exactly those from the first one at or after `from`. */
  lemma {:induction false} RestoredIsSuffix(popped: seq<Measurement>, from: int) returns (k: nat)
    requires TimeSorted(popped)
    ensures k <= |popped| && RestoredFrom(popped, from) == multiset(popped[k..])
    ensures forall i :: 0 <= i < k ==> popped[i].time < from
    ensures forall i :: k <= i < |popped| ==> from <= popped[i].time
    decreases |popped|
  {
    hide TimeSorted;
    if popped == [] {
      k := 0;
    } else {
      var rest := popped[1..];
      RestIsSorted(popped);
      var j := RestoredIsSuffix(rest, from);
      assert popped == [popped[0]] + rest;
      if from <= popped[0].time {
        k := 0;
        assert j == 0 by {
          assert forall i :: 0 <= i < |rest| ==> from <= rest[i].time;
        }
      } else {
        k := j + 1;
        assert popped[k..] == rest[j..];
      }
    }
  }

  lemma RestIsSorted(s: seq<Measurement>)
    requires TimeSorted(s) && s != []
    ensures TimeSorted(s[1..]) && forall i :: 0 <= i < |s[1..]| ==> s[0].time <= s[1..][i].time
  {
  }

  /** The log up to the cut of its `k`-th saved state. */
  ghost function Truncate(log: Log, k: nat): Log
    requires 0 < k <= |log.cuts| && log.cuts[k - 1] <= |log.done| == |log.gaps| < |log.folds|
  {
    var c := log.cuts[k - 1];
    Log(log.done[..c], log.gaps[..c], log.folds[..c + 1], log.cuts[..k])
  }

  lemma TruncateKeepsLog(d: Dynamics, log: Log, states: seq<Saved>, k: nat)
    requires Traced(d, log) && Sorted(log) && Checkpoints(log, states) && 0 < k <= |states|
    ensures Traced(d, Truncate(log, k)) && Sorted(Truncate(log, k)) && Checkpoints(Truncate(log, k), states[..k])
  {
    hide Traced;
    var log' := Truncate(log, k);
    assert forall i :: 0 <= i < k ==> log'.cuts[i] == log.cuts[i] <= log.cuts[k - 1];
    forall i | 0 < i < k
      ensures OneStamp(log'.done, log'.cuts, i)
    {
      assert OneStamp(log.done, log.cuts, i);
    }
    TruncateKeepsTrace(d, log, k);
    TruncateKeepsOrder(log, k);
  }

  lemma TruncateKeepsOrder(log: Log, k: nat)
    requires Sorted(log) && 0 < k <= |log.cuts| && log.cuts[k - 1] <= |log.done|
    ensures Sorted(Truncate(log, k))
  {
    var log' := Truncate(log, k);
    forall j | 0 <= j < |log'.done|
      ensures AtStamp(log', j)
    {
      assert AtStamp(log, j);
    }
  }

  lemma TruncateKeepsTrace(d: Dynamics, log: Log, k: nat)
    requires Traced(d, log) && 0 < k <= |log.cuts| && log.cuts[k - 1] <= |log.done|
    ensures Traced(d, Truncate(log, k))
  {
    hide AheadBy, Ascends;
    var log' := Truncate(log, k);
    forall j | 0 <= j < |log'.done|
      ensures Links(d, log', j) && GapFits(log', j)
    {
      assert Links(d, log, j) && GapFits(log, j);
    }
  }

  lemma NothingNewerForgotten(log: Log, history: seq<Measurement>, k: nat)
    requires Retains(log, history) && CutsFit(log.done, log.cuts) && 0 < k <= |log.cuts|
    ensures |log.done| - |history| < log.cuts[0] <= log.cuts[k - 1] <= |log.done|
  {
    var newest := log.done[log.cuts[0] - 1];
    assert |log.done| - |history| <= log.cuts[0] - 1;
  }

  lemma TruncateKeepsHistory(log: Log, history: seq<Measurement>, k: nat)
    requires Sorted(log) && Retains(log, history) && CutsFit(log.done, log.cuts) && 0 < k <= |log.cuts|
    ensures var p := |log.done| - |history|;
            p < log.cuts[k - 1] && Retains(Truncate(log, k), log.done[p..log.cuts[k - 1]])
  {
    NothingNewerForgotten(log, history, k);
    assert log.done[..log.cuts[k - 1]][|log.done| - |history|..] == log.done[|log.done| - |history|..log.cuts[k - 1]];
  }

  lemma NextSegment(done: seq<Measurement>, cuts: seq<nat>, k: nat)
    requires TimeSorted(done) && CutsFit(done, cuts) && 0 < k < |cuts|
    ensures cuts[k - 1] <= |done|
    ensures forall j :: cuts[k - 1] <= j < |done| ==> done[cuts[k] - 1].time <= done[j].time
  {
    assert OneStamp(done, cuts, k);
    forall j | cuts[k - 1] <= j < |done|
      ensures done[cuts[k] - 1].time <= done[j].time
    {
      if j < cuts[k] {
        assert done[j].time == done[cuts[k] - 1].time;
      }
    }
  }

  /** The state revertTo picks is no later than `t`, and everything after its cut is later. */
  lemma LaterThanTarget(log: Log, states: seq<Saved>, t: int, k: nat)
    requires Sorted(log) && Checkpoints(log, states) && LastCut(log.cuts) == |log.done|
    requires IsTarget(states, t, k)
    ensures var c := log.cuts[k - 1];
            && log.folds[c].last == log.done[c - 1].time <= t && log.folds[c].initialized
            && forall j :: c <= j < |log.done| ==> t < log.done[j].time
  {
    assert AtStamp(log, log.cuts[k - 1] - 1);
    if k < |states| {
      assert AtStamp(log, log.cuts[k] - 1);
      NextSegment(log.done, log.cuts, k);
    }
  }

  /** The popped part of the history is exactly the log after the cut. */
  lemma PoppedHistory(done: seq<Measurement>, p: nat, t: int, c: nat)
    requires p < c <= |done| && done[c - 1].time <= t
    requires forall k :: c <= k < |done| ==> t < done[k].time
    ensures KeepHistory(done[p..], t) == done[p..c]
    ensures done[p..][c - p..] == done[c..]
  {
    var history := done[p..];
    assert history[c - p - 1] == done[c - 1];
    assert forall i :: 0 <= i < |history| ==> history[i] == done[p + i];
    KeptHistory(history, t, c - p);
    assert history[..c - p] == done[p..c];
  }

  lemma RestoredAll(popped: seq<Measurement>, from: int)
    requires TimeSorted(popped) && AllFrom(popped, from)
    ensures RestoredFrom(popped, from) == multiset(popped)
  {
    var k := RestoredIsSuffix(popped, from);
    assert popped[0..] == popped;
  }

  /** A node cut back to its `k`-th saved state. */
  ghost function CutBack(n: Node, log: Log, k: nat): Node
    requires 0 < k <= |log.cuts| && k <= |n.states|
    requires 0 <= |log.done| - |n.history| <= log.cuts[k - 1] <= |log.done| < |log.folds|
  {
    var c := log.cuts[k - 1];
    Node(n.filter.(estimate := log.folds[c].estimate, last := log.folds[c].last),
         n.queue + multiset(log.done[c..]), log.done[|log.done| - |n.history|..c], n.states[..k])
  }

  /** What revertTo does when a saved state is old enough: everything after its cut moves from the
      histories back to the queue. */
  lemma RevertCuts(n: Node, log: Log, t: int, k: nat)
    requires Sorted(log) && Checkpoints(log, n.states) && Retains(log, n.history)
    requires LastCut(log.cuts) == |log.done| && IsTarget(n.states, t, k)
    requires KeepStates(n.states, t) == n.states[..k]
    ensures |log.done| - |n.history| < log.cuts[k - 1] && RevertTo(n, t) == CutBack(n, log, k)
  {
    hide KeepStates, RevertTo, Sorted, Checkpoints, Retains, IsTarget;
    TargetIs(n, log, t, k);
    RevertPops(n, log.done, |log.done| - |n.history|, t, log.cuts[k - 1], k);
  }

  /** The target of a revert, and where the history and the log part. */
  lemma TargetIs(n: Node, log: Log, t: int, k: nat)
    requires Sorted(log) && Checkpoints(log, n.states) && Retains(log, n.history)
    requires LastCut(log.cuts) == |log.done| && IsTarget(n.states, t, k)
    ensures 0 < k <= |n.states| == |log.cuts| && TimeSorted(log.done)
    ensures var (c, p) := (log.cuts[k - 1], |log.done| - |n.history|);
            && 0 <= p < c <= |log.done| < |log.folds| && n.history == log.done[p..]
            && n.states[k - 1] == Snapshot(log.folds[c]) && n.states[k - 1].last == log.done[c - 1].time <= t
            && forall j :: c <= j < |log.done| ==> t < log.done[j].time
  {
    hide TimeSorted, OneStamp;
    NothingNewerForgotten(log, n.history, k);
    LaterThanTarget(log, n.states, t, k);
    SavedIs(log, n.states, k);
  }

  lemma SavedIs(log: Log, states: seq<Saved>, k: nat)
    requires Sorted(log) && Checkpoints(log, states) && 0 < k <= |states|
    ensures |log.cuts| == |states| && 0 < log.cuts[k - 1] <= |log.done| < |log.folds| && TimeSorted(log.done)
    ensures states[k - 1] == Snapshot(log.folds[log.cuts[k - 1]])
  {
  }

  lemma RevertPops(n: Node, done: seq<Measurement>, p: nat, t: int, c: nat, k: nat)
    requires TimeSorted(done) && p < c <= |done| && n.history == done[p..]
    requires 0 < k <= |n.states| && KeepStates(n.states, t) == n.states[..k]
             && n.states[k - 1].last == done[c - 1].time <= t
    requires forall j :: c <= j < |done| ==> t < done[j].time
    ensures RevertTo(n, t) == Node(n.filter.(estimate := n.states[k - 1].estimate, last := n.states[k - 1].last),
                                   n.queue + multiset(done[c..]), done[p..c], n.states[..k])
  {
    hide TimeSorted, AllFrom, KeepHistory, KeepStates, RestoredFrom, RevertTo;
    PoppedHistory(done, p, t, c);
    RestIsLater(done, c);
    RestoredAll(done[c..], n.states[k - 1].last);
    RevertFields(n, t, n.states[..k], done[p..c], done[c..]);
  }

  lemma RestIsLater(done: seq<Measurement>, c: nat)
    requires TimeSorted(done) && 0 < c <= |done|
    ensures TimeSorted(done[c..]) && AllFrom(done[c..], done[c - 1].time)
  {
  }

  lemma RevertFields(
    n: Node, t: int, kept: seq<Saved>, history: seq<Measurement>, popped: seq<Measurement>)
    requires KeepStates(n.states, t) == kept != []
    requires KeepHistory(n.history, t) == history && n.history[|history|..] == popped
    requires RestoredFrom(popped, kept[|kept| - 1].last) == multiset(popped)
    ensures var s := kept[|kept| - 1];
            RevertTo(n, t) ==
            Node(n.filter.(estimate := s.estimate, last := s.last), n.queue + multiset(popped), history, kept)
  {
  }

  lemma SplitAt<T>(s: seq<T>, c: nat)
    requires c <= |s|
    ensures multiset(s) == multiset(s[..c]) + multiset(s[c..])
  {
    assert s == s[..c] + s[c..];
  }

  /** Reverting leaves a consistent log, and queue plus log hold exactly the same measurements. */
  lemma CutBackKeepsLog(
    d: Dynamics, n: Node, log: Log, received: multiset<Measurement>, k: nat)
    requires Consistent(d, n, log, received) && 0 < k <= |n.states|
    ensures |log.done| - |n.history| < log.cuts[k - 1]
    ensures Consistent(d, CutBack(n, log, k), Truncate(log, k), received)
  {
    TruncateKeepsLog(d, log, n.states, k);
    TruncateKeepsHistory(log, n.history, k);
    SplitAt(log.done, log.cuts[k - 1]);
  }

  lemma NewerQueue(queue: multiset<Measurement>, popped: seq<Measurement>, t: int)
    requires queue != multiset{} && TopTime(queue) == t + 1
    requires forall i :: 0 <= i < |popped| ==> t < popped[i].time
    ensures queue + multiset(popped) != multiset{} && TopTime(queue + multiset(popped)) == t + 1
  {
    var all := queue + multiset(popped);
    var m :| m in queue && m.time == TopTime(queue);
    assert m in all;
    forall x | x in all
      ensures t < x.time
    {
      if x !in queue {
        assert x in popped;
      }
    }
  }

  /** After reverting to just before the oldest queued measurement, the filter is the fold of the
      log that is left, up to its cache, and everything queued is newer. */
  lemma CutBackTracks(n: Node, log: Log, t: int, now: int, k: nat)
    requires Sorted(log) && Checkpoints(log, n.states) && LastCut(log.cuts) == |log.done|
    requires IsTarget(n.states, t, k) && 0 <= |log.done| - |n.history| < log.cuts[k - 1]
    requires n.queue != multiset{} && TopTime(n.queue) == t + 1 <= now && n.filter.initialized
    ensures var n' := CutBack(n, log, k); Tracking(n'.filter, n'.queue, Truncate(log, k), now, true)
  {
    hide IsTarget, CutsFit, TimeSorted, TopTime, Sorted, Checkpoints;
    TruncateEnds(log, n.states, t, k);
    LaterThanTarget(log, n.states, t, k);
    NewerQueue(n.queue, log.done[log.cuts[k - 1]..], t);
    QueueIsLater(n.queue + multiset(log.done[log.cuts[k - 1]..]));
  }

  /** The log up to a saved state at or before `t`: its filter is that state, all in it is as old. */
  lemma TruncateEnds(log: Log, states: seq<Saved>, t: int, k: nat)
    requires Sorted(log) && Checkpoints(log, states) && IsTarget(states, t, k)
    ensures 0 < k <= |log.cuts| == |states| && 0 < log.cuts[k - 1] <= |log.done| < |log.folds|
    ensures LastCut(Truncate(log, k).cuts) == log.cuts[k - 1]
    ensures var (log', c) := (Truncate(log, k), log.cuts[k - 1]);
            && log'.folds[|log'.done|] == log.folds[c] && log.folds[c].last <= t && log.folds[c].initialized
            && AllUpTo(log'.done, t)
  {
    var c := log.cuts[k - 1];
    assert AtStamp(log, c - 1);
    forall i | 0 <= i < c
      ensures log.done[i].time <= t
    {
      assert log.done[i].time <= log.done[c - 1].time;
    }
  }

  lemma QueueIsLater(q: multiset<Measurement>)
    requires q != multiset{}
    ensures forall x :: x in q ==> TopTime(q) <= x.time
  {
  }

  /** The node is settled but for what was predicted on top of the log. */
  ghost predicate Underlying(d: Dynamics, n: Node, log: Log, received: multiset<Measurement>) {
    |log.folds| == |log.done| + 1 && Settled(d, n.(filter := log.folds[|log.done|]), log, received)
  }

  /** A revert to a saved state forgets the filter, except for its cache. */
  lemma RevertForgetsFilter(n: Node, m: Node, t: int)
    requires m == n.(filter := m.filter) && n.filter.initialized == m.filter.initialized
             && KeepStates(n.states, t) != []
    ensures var r := RevertTo(m, t); RevertTo(n, t) == r.(filter := r.filter.(cache := n.filter.cache))
  {
  }

  lemma StaleCacheIsFree(d: Dynamics, n: Node, log: Log, received: multiset<Measurement>, now: int, c: Cache)
    requires Draining(d, n, log, received, now, true)
    ensures Draining(d, n.(filter := n.filter.(cache := c)), log, received, now, true)
  {
  }

  lemma SavedIsInitialized(log: Log, states: seq<Saved>)
    requires Sorted(log) && Checkpoints(log, states) && states != []
    ensures log.done != [] && log.folds[|log.done|].initialized
  {
    assert 0 < log.cuts[0] <= |log.done|;
    assert AtStamp(log, |log.done| - 1);
  }

  /** Late data with a saved state before it, whatever was predicted meanwhile: the drain starts from the
      reverted node. */
  lemma RevertStart(
    d: Dynamics, n: Node, log: Log, received: multiset<Measurement>, now: int)
    returns (k: nat)
    requires Underlying(d, n, log, received) && AllUpTo(log.done, now) && n.filter.initialized
    requires n.queue != multiset{} && TopTime(n.queue) <= now
    requires KeepStates(n.states, TopTime(n.queue) - 1) != []
    ensures 0 < k <= |n.states| && k <= |log.cuts| && log.cuts[k - 1] <= |log.done| < |log.folds|
    ensures Draining(d, RevertTo(n, TopTime(n.queue) - 1), Truncate(log, k), received, now, true)
  {
    hide KeepStates, RevertTo;
    var t := TopTime(n.queue) - 1;
    var m := n.(filter := log.folds[|log.done|]);
    k := KeptStates(n.states, t);
    SavedIsInitialized(log, n.states);
    hide Traced, Tracking, Retains;
    RevertCuts(m, log, t, k);
    CutBackKeepsLog(d, m, log, received, k);
    CutBackTracks(m, log, t, now, k);
    RevertForgetsFilter(n, m, t);
    StaleCacheIsFree(d, RevertTo(m, t), Truncate(log, k), received, now, n.filter.cache);
  }

  // ---------------------------------------------------------------------------------------------
  // Between updates

  /** Expiry against a predicted clock may drop every saved state; what it dropped with them is older than
      that clock. */
  ghost predicate Lost(d: Dynamics, n: Node, log: Log, received: multiset<Measurement>, clock: int) {
    && Traced(d, log) && Sorted(log) && log.cuts == [] && n.states == []
    && EndsWith(log, n.history) && ForgotBefore(log, n.history, clock)
    && received == multiset(log.done) + n.queue
  }

  /** The invariant of a run: the filter is the last of the log, predicted ahead to `nows`.  As long as a
      state is saved, or nothing was predicted, the node under the predictions is settled. */
  ghost predicate Trails(d: Dynamics, n: Node, log: Log, received: multiset<Measurement>, nows: seq<int>) {
    && |log.folds| == |log.done| + 1
    && n.filter == AheadBy(d, log.folds[|log.done|], nows)
    && (nows != [] ==> log.folds[|log.done|].initialized)
    && Ascends(log.folds[|log.done|].last, nows)
    && if nows != [] && n.states == [] then Lost(d, n, log, received, nows[|nows| - 1])
       else Underlying(d, n, log, received)
  }

  ghost predicate Shaped(log: Log) {
    |log.folds| == |log.done| + 1 && |log.gaps| == |log.done|
  }

  lemma TrailsLog(d: Dynamics, n: Node, log: Log, received: multiset<Measurement>, nows: seq<int>)
    requires Trails(d, n, log, received, nows)
    ensures Shaped(log) && Traced(d, log) && Sorted(log) && received == multiset(log.done) + n.queue
    ensures Checkpoints(log, n.states) && EndsWith(log, n.history)
            && (log.cuts == [] || LastCut(log.cuts) == |log.done|)
    ensures log.cuts != [] ==>
            0 < log.cuts[0] <= |log.done| && ForgotBefore(log, n.history, log.done[log.cuts[0] - 1].time)
    ensures log.cuts == [] && nows != [] ==> ForgotBefore(log, n.history, nows[|nows| - 1])
  {
    hide AheadBy, Traced;
  }

  /** The filter under the predictions is no later than `now`. */
  ghost predicate LogUpTo(log: Log, now: int)
    requires |log.folds| == |log.done| + 1
  {
    AllUpTo(log.done, now) && (log.folds[|log.done|].initialized ==> log.folds[|log.done|].last <= now)
  }

  /** One more prediction. */
  lemma PredictKeeps(
    d: Dynamics, n: Node, log: Log, received: multiset<Measurement>, nows: seq<int>, now: int, wanted: bool)
    returns (nows': seq<int>)
    requires Trails(d, n, log, received, nows) && LogUpTo(log, now) && (nows != [] ==> nows[|nows| - 1] <= now)
    ensures nows' == nows + if n.filter.initialized && wanted then [now] else []
    ensures Trails(d, PredictAhead(d, n, now, wanted), log, received, nows')
  {
    hide Consistent, Traced, Sorted, Checkpoints, EndsWith, ForgotBefore;
    nows' := nows;
    if n.filter.initialized && wanted {
      nows' := nows + [now];
      assert nows'[..|nows|] == nows;
      AheadStays(d, log.folds[|log.done|], nows);
      TrailsLog(d, n, log, received, nows);
      AscendsOn(log.folds[|log.done|].last, nows, now);
      if n.states == [] {
        CutsMatch(log, n.states);
        if log.cuts == [] && nows == [] { NothingForgotten(d, n, log, received, now); }
        if nows != [] { ForgotEarlier(log, n.history, nows[|nows| - 1], now); }
      }
      assert n.(filter := log.folds[|log.done|]) == PredictAhead(d, n, now, wanted).(filter := log.folds[|log.done|]);
    } else {
      assert nows + [] == nows;
    }
  }

  lemma AscendsOn(from: int, nows: seq<int>, now: int)
    requires Ascends(from, nows) && from <= now && (nows != [] ==> nows[|nows| - 1] <= now)
    ensures Ascends(from, nows + [now])
  {
  }

  lemma CutsMatch(log: Log, states: seq<Saved>)
    requires Checkpoints(log, states)
    ensures |log.cuts| == |states|
  {
  }

  lemma NothingForgotten(d: Dynamics, n: Node, log: Log, received: multiset<Measurement>, t: int)
    requires Underlying(d, n, log, received) && log.cuts == []
    ensures ForgotBefore(log, n.history, t)
  {
  }

  lemma LogEndsBy(d: Dynamics, n: Node, log: Log, received: multiset<Measurement>, nows: seq<int>, now: int)
    requires Trails(d, n, log, received, nows) && AllUpTo(log.done, now) && log.done != []
    ensures log.folds[|log.done|].last <= now && log.folds[|log.done|].initialized
  {
    assert AtStamp(log, |log.done| - 1);
  }

  /** Data that is due after predictions and not late: the first of it is processed on top of them, and
      from then on the drain goes in order. */
  lemma OvertakingStart(
    d: Dynamics, n: Node, log: Log, received: multiset<Measurement>, nows: seq<int>, now: int, m: Measurement)
    requires Trails(d, n, log, received, nows) && AllUpTo(log.done, now) && nows != []
    requires IsTop(m, n.queue) && n.filter.last <= m.time <= now
    ensures Draining(d, DrainStep(d, true, n, m), ExtendBy(d, log, n, m, nows), received, now, false)
  {
    hide Traced, Checkpoints, EndsWith, ForgotBefore, AheadBy, Ascends;
    var f := log.folds[|log.done|];
    AheadStays(d, f, nows);
    TrailsLog(d, n, log, received, nows);
    LastIsBefore(f.last, nows);
    if log.cuts == [] { ForgotEarlier(log, n.history, nows[|nows| - 1], m.time); }
    StillUncovered(log, m.time);
    DrainStepKeepsLog(d, n, log, received, m, nows);
    StepIsAtStamp(d, f, nows, m);
    DrainStepKeepsPace(n.queue, log, now, m, nows, Step(d, n.filter, m));
  }

  lemma LastIsBefore(from: int, nows: seq<int>)
    requires Ascends(from, nows) && nows != []
    ensures from <= nows[|nows| - 1]
  {
  }

  lemma StillUncovered(log: Log, t: int)
    requires log.cuts == [] || LastCut(log.cuts) == |log.done|
    ensures Uncovered(log, t)
  {
  }

  lemma ForgotEarlier(log: Log, history: seq<Measurement>, t: int, u: int)
    requires t <= u && ForgotBefore(log, history, t)
    ensures ForgotBefore(log, history, u)
  {
  }
}
