/** The measurement cycle of the filter (filter_base.cpp), over an arbitrary inner filter.

    The arithmetic of `predict` and `correct` is a parameter.  Times are integer nanoseconds.
 */
module FilterCycle {
  import opened LinearAlgebra

  /** The pair (state_, estimate_error_covariance_), the part of the filter a checkpoint saves. */
  datatype Estimate = Estimate(x: Matrix, p: Matrix)

  /** What the filter carries from one call to the next and a checkpoint does not save: the sigma points
      of the unscented filter and the flag that says they are fresh. */
  datatype Cache = Cache(sigmaPoints: seq<Matrix>, uncorrected: bool)

  /** A measurement's vectors and threshold. */
  datatype Payload = Payload(update: seq<bool>, z: Matrix, covariance: Matrix, threshold: real)

  datatype Measurement = Measurement(time: int, payload: Payload)

  /** `predict` overwrites the cache without reading it; `correct` reads and writes it; the first
      measurement initialises the estimate and leaves the cache alone. */
  datatype Dynamics = Dynamics(
    predict: (Estimate, int, int) -> (Estimate, Cache),
    correct: (Estimate, Cache, Measurement) -> (Estimate, Cache),
    initial: (Estimate, Measurement) -> Estimate)

  datatype Filter = Filter(estimate: Estimate, cache: Cache, last: int, initialized: bool)

  /** One call of processMeasurement. */
  function Step(d: Dynamics, f: Filter, m: Measurement): Filter {
    if f.initialized then
      var delta := m.time - f.last;
      var (e, c) := if delta > 0 then d.predict(f.estimate, m.time, delta) else (f.estimate, f.cache);
      var (e', c') := d.correct(e, c, m);
      Filter(e', c', if delta >= 0 then m.time else f.last, true)
    else
      Filter(d.initial(f.estimate, m), f.cache, m.time, true)
  }

  /** The filter after processing `ms` in order. */
  function Fold(d: Dynamics, f: Filter, ms: seq<Measurement>): Filter {
    if ms == [] then f else Step(d, Fold(d, f, ms[..|ms| - 1]), ms[|ms| - 1])
  }

  ghost predicate TimeSorted(ms: seq<Measurement>) {
    forall i, j :: 0 <= i < j < |ms| ==> ms[i].time <= ms[j].time
  }

  ghost predicate AllFrom(ms: seq<Measurement>, t: int) {
    forall i :: 0 <= i < |ms| ==> t <= ms[i].time
  }

  lemma {:induction false} FoldConcat(d: Dynamics, f: Filter, a: seq<Measurement>, b: seq<Measurement>)
    ensures Fold(d, f, a + b) == Fold(d, Fold(d, f, a), b)
    decreases |b|
  {
    if b == [] {
      assert a + b == a;
    } else {
      var n := |b| - 1;
      assert (a + b)[..|a + b| - 1] == a + b[..n];
      FoldConcat(d, f, a, b[..n]);
    }
  }

  /** In time order the filter's clock is the stamp of the newest measurement. */
  lemma {:induction false} FoldLast(d: Dynamics, f: Filter, ms: seq<Measurement>)
    requires TimeSorted(ms) && AllFrom(ms, f.last) && ms != []
    ensures Fold(d, f, ms).last == ms[|ms| - 1].time
    ensures Fold(d, f, ms).initialized
    decreases |ms|
  {
    var n := |ms| - 1;
    if n > 0 {
      FoldLast(d, f, ms[..n]);
    } else {
      assert ms[..n] == [];
    }
  }

  /** The next measurement is strictly newer, so it starts with a prediction: whatever the cache
      held, the filter ends in the same state. */
  lemma StepForgetsCache(d: Dynamics, f: Filter, g: Filter, m: Measurement)
    requires f.initialized && f.last < m.time
    requires g == f.(cache := g.cache)
    ensures Step(d, f, m) == Step(d, g, m)
  {
  }

  lemma {:induction false} FoldForgetsCache(d: Dynamics, f: Filter, g: Filter, ms: seq<Measurement>)
    requires ms != [] && f.initialized && f.last < ms[0].time
    requires g == f.(cache := g.cache)
    ensures Fold(d, f, ms) == Fold(d, g, ms)
    decreases |ms|
  {
    var n := |ms| - 1;
    if n > 0 {
      FoldForgetsCache(d, f, g, ms[..n]);
    } else {
      assert ms[..n] == [];
      StepForgetsCache(d, f, g, ms[0]);
    }
  }

  /** A later measurement starts with one prediction over the time since the clock; any other corrects
      what is there, and the clock stays. */
  lemma StepCases(d: Dynamics, f: Filter, m: Measurement)
    requires f.initialized
    ensures var g := Step(d, f, m);
            && g.initialized
            && (f.last < m.time ==>
                  var (e, c) := d.predict(f.estimate, m.time, m.time - f.last);
                  (g.estimate, g.cache) == d.correct(e, c, m) && g.last == m.time)
            && (m.time <= f.last ==> (g.estimate, g.cache) == d.correct(f.estimate, f.cache, m) && g.last == f.last)
  {
  }

  /** Whatever the order of the stamps, the clock ends at the newest of them, or where it was. */
  lemma {:induction false} ClockIsNewest(d: Dynamics, f: Filter, ms: seq<Measurement>)
    requires f.initialized
    ensures var g := Fold(d, f, ms);
            && g.initialized && f.last <= g.last
            && (forall m :: m in ms ==> m.time <= g.last)
            && (g.last == f.last || exists m :: m in ms && m.time == g.last)
    decreases |ms|
  {
    hide Step;
    if ms != [] {
      var (front, m) := (ms[..|ms| - 1], ms[|ms| - 1]);
      assert ms == front + [m];
      ClockIsNewest(d, f, front);
      StepCases(d, Fold(d, f, front), m);
      assert m in ms;
    }
  }

  ghost predicate DistinctStamps(ms: seq<Measurement>) {
    forall i, j :: 0 <= i < j < |ms| ==> ms[i].time != ms[j].time
  }

  lemma SplitLast<T>(a: seq<T>)
    requires a != []
    ensures multiset(a[..|a| - 1]) == multiset(a) - multiset{a[|a| - 1]}
    ensures a[|a| - 1] in multiset(a)
  {
    var n := |a| - 1;
    assert a == a[..n] + [a[n]];
  }

  /** Two time-sorted arrangements of distinct stamps end in the same measurement. */
  lemma SameNewest(a: seq<Measurement>, b: seq<Measurement>)
    requires TimeSorted(a) && TimeSorted(b) && multiset(a) == multiset(b) && a != [] && b != []
    requires DistinctStamps(a)
    ensures a[|a| - 1] == b[|b| - 1]
  {
    var x, y := a[|a| - 1], b[|b| - 1];
    SplitLast(a);
    SplitLast(b);
    assert y in a && x in b;
    var i :| 0 <= i < |a| && a[i] == y;
    var j :| 0 <= j < |b| && b[j] == x;
    assert x.time == y.time;
  }

  /** Two time-sorted arrangements of the same measurements agree when no stamp repeats. */
  lemma {:induction false} SortedArrangementIsUnique(a: seq<Measurement>, b: seq<Measurement>)
    requires TimeSorted(a) && TimeSorted(b) && multiset(a) == multiset(b)
    requires DistinctStamps(a)
    ensures a == b
    decreases |a|
  {
    hide TimeSorted;
    assert |a| == |multiset(a)| == |multiset(b)| == |b|;
    if a != [] {
      SameNewest(a, b);
      FrontIsSorted(a);
      FrontIsSorted(b);
      SameFronts(a, b);
      DistinctFront(a);
      SortedArrangementIsUnique(a[..|a| - 1], b[..|b| - 1]);
      assert a == a[..|a| - 1] + [a[|a| - 1]] && b == b[..|b| - 1] + [b[|b| - 1]];
    }
  }

  lemma FrontIsSorted(s: seq<Measurement>)
    requires TimeSorted(s) && s != []
    ensures TimeSorted(s[..|s| - 1])
  {
  }

  lemma SameFronts<T>(s: seq<T>, t: seq<T>)
    requires s != [] && t != [] && s[|s| - 1] == t[|t| - 1] && multiset(s) == multiset(t)
    ensures multiset(s[..|s| - 1]) == multiset(t[..|t| - 1])
  {
    SplitLast(s);
    SplitLast(t);
  }

  lemma DistinctFront(a: seq<Measurement>)
    requires a != [] && DistinctStamps(a)
    ensures DistinctStamps(a[..|a| - 1])
  {
  }
}
