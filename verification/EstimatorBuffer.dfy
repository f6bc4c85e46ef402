/** The estimator's buffer (robot_localization_estimator.cpp): bounded, sorted by stamp, fed in any
    order.  It always holds the newest states of what an unbounded buffer would hold. */
module EstimatorBuffers {

  type Belief(!new)

  datatype EstimatorState = EstimatorState(stamp: real, belief: Belief)

  datatype EstimatorResult =
    ExtrapolationIntoFuture | Interpolation | ExtrapolationIntoPast | Exact | EmptyBuffer | Failed

  // ---------------------------------------------------------------------------------------------
  // boost::circular_buffer

  /** push_back: a full buffer drops its oldest element. */
  function PushBack<T>(buffer: seq<T>, capacity: nat, e: T): seq<T> {
    if capacity == 0 then buffer
    else if |buffer| < capacity then buffer + [e]
    else if buffer == [] then [e]
    else buffer[1..] + [e]
  }

  /** insert: a full buffer drops its oldest element, unless the new one would become the oldest. */
  function InsertAt<T>(buffer: seq<T>, capacity: nat, i: nat, e: T): seq<T>
    requires i <= |buffer|
  {
    if |buffer| < capacity then buffer[..i] + [e] + buffer[i..]
    else if i == 0 then buffer
    else buffer[1..i] + [e] + buffer[i..]
  }

  // ---------------------------------------------------------------------------------------------
  // What an unbounded buffer would hold

  ghost predicate Sorted(s: seq<EstimatorState>) {
    forall i, j :: 0 <= i < j < |s| ==> s[i].stamp <= s[j].stamp
  }

  ghost predicate StrictlySorted(s: seq<EstimatorState>) {
    forall i, j :: 0 <= i < j < |s| ==> s[i].stamp < s[j].stamp
  }

  /** The index of the first state later than `t`. */
  function FirstLater(s: seq<EstimatorState>, t: real): (i: nat)
    ensures i <= |s| && (forall k :: 0 <= k < i ==> s[k].stamp <= t) && (i < |s| ==> t < s[i].stamp)
  {
    if s == [] then 0 else if t < s[0].stamp then 0 else 1 + FirstLater(s[1..], t)
  }

  /** A state as late as the latest is dropped; any other goes after the states that are not later. */
  function Accepted(s: seq<EstimatorState>, e: EstimatorState): seq<EstimatorState> {
    if s != [] && e.stamp == s[|s| - 1].stamp then s
    else
      var i := FirstLater(s, e.stamp);
      s[..i] + [e] + s[i..]
  }

  /** Everything accepted since the buffer was last cleared. */
  function Accumulated(offers: seq<EstimatorState>): seq<EstimatorState> {
    if offers == [] then [] else Accepted(Accumulated(offers[..|offers| - 1]), offers[|offers| - 1])
  }

  function Newest<T>(s: seq<T>, k: nat): seq<T> {
    if |s| <= k then s else s[|s| - k..]
  }

  /** setState on a buffer of the given capacity. */
  function Stored(buffer: seq<EstimatorState>, capacity: nat, e: EstimatorState): seq<EstimatorState> {
    if buffer == [] || e.stamp > buffer[|buffer| - 1].stamp then PushBack(buffer, capacity, e)
    else
      var i := FirstLater(buffer, e.stamp);
      if i < |buffer| then InsertAt(buffer, capacity, i, e) else buffer
  }

  lemma AcceptedIsSorted(s: seq<EstimatorState>, e: EstimatorState)
    requires Sorted(s)
    ensures Sorted(Accepted(s, e))
  {
    hide FirstLater;
    var i := FirstLater(s, e.stamp);
    var t := s[..i] + [e] + s[i..];
    forall a, b | 0 <= a < b < |t|
      ensures t[a].stamp <= t[b].stamp
    {
      if a == i && b > i { assert s[i].stamp <= s[b - 1].stamp; }
    }
  }

  lemma {:induction false} AccumulatedIsSorted(offers: seq<EstimatorState>)
    ensures Sorted(Accumulated(offers))
  {
    if offers != [] {
      AccumulatedIsSorted(offers[..|offers| - 1]);
      AcceptedIsSorted(Accumulated(offers[..|offers| - 1]), offers[|offers| - 1]);
    }
  }

  lemma FirstLaterIs(s: seq<EstimatorState>, t: real, i: nat)
    requires i <= |s| && (forall k :: 0 <= k < i ==> s[k].stamp <= t) && (i < |s| ==> t < s[i].stamp)
    ensures FirstLater(s, t) == i
  {
    var j := FirstLater(s, t);
  }

  lemma FirstLaterInNewest(s: seq<EstimatorState>, k: nat, t: real)
    requires Sorted(s)
    ensures var (i, cut) := (FirstLater(s, t), |s| - |Newest(s, k)|);
            FirstLater(Newest(s, k), t) == if i <= cut then 0 else i - cut
  {
    hide FirstLater;
    var (i, cut) := (FirstLater(s, t), |s| - |Newest(s, k)|);
    if i <= cut && cut < |s| {
      assert s[cut].stamp >= s[i].stamp;
    }
    FirstLaterIs(Newest(s, k), t, if i <= cut then 0 else i - cut);
  }

  /** Keeping the newest `k` commutes with accepting a state: the bounded buffer loses nothing it would
      need. */
  lemma BoundedRefinesUnbounded(s: seq<EstimatorState>, k: nat, e: EstimatorState)
    requires Sorted(s)
    ensures Stored(Newest(s, k), k, e) == Newest(Accepted(s, e), k)
  {
    hide FirstLater, InsertAt, PushBack, Newest, Accepted, Stored;
    if k == 0 {
      NewestIs(s, k);
      NewestIs(Accepted(s, e), k);
      EmptyStaysEmpty(e);
    } else if s == [] || e.stamp > s[|s| - 1].stamp {
      RefinesAtEnd(s, k, e);
    } else if e.stamp == s[|s| - 1].stamp {
      RefinesSame(s, k, e);
    } else {
      RefinesInside(s, k, e);
    }
  }

  lemma RefinesAtEnd(s: seq<EstimatorState>, k: nat, e: EstimatorState)
    requires k > 0 && Sorted(s) && (s == [] || e.stamp > s[|s| - 1].stamp)
    ensures Stored(Newest(s, k), k, e) == Newest(Accepted(s, e), k)
  {
    hide FirstLater, PushBack, Newest, InsertAt;
    NewestIs(s, k);
    FirstLaterIs(s, e.stamp, |s|);
    assert Accepted(s, e) == s + [e];
    PushKeepsNewest(s, k, e);
  }

  lemma RefinesSame(s: seq<EstimatorState>, k: nat, e: EstimatorState)
    requires k > 0 && Sorted(s) && s != [] && e.stamp == s[|s| - 1].stamp
    ensures Stored(Newest(s, k), k, e) == Newest(Accepted(s, e), k)
  {
    hide FirstLater, PushBack, Newest, InsertAt;
    var b := Newest(s, k);
    NewestIs(s, k);
    assert b[|b| - 1] == s[|s| - 1];
    FirstLaterIs(b, e.stamp, |b|);
  }

  lemma RefinesInside(s: seq<EstimatorState>, k: nat, e: EstimatorState)
    requires k > 0 && Sorted(s) && s != [] && e.stamp < s[|s| - 1].stamp
    ensures Stored(Newest(s, k), k, e) == Newest(Accepted(s, e), k)
  {
    hide FirstLater, PushBack, Newest, InsertAt, Sorted;
    var b := Newest(s, k);
    NewestIs(s, k);
    assert b[|b| - 1] == s[|s| - 1];
    var i := FirstLater(s, e.stamp);
    assert i < |s|;
    FirstLaterInNewest(s, k, e.stamp);
    InsertKeepsNewest(s, k, i, e);
  }

  lemma NewestIs<T>(s: seq<T>, k: nat)
    ensures var b := Newest(s, k); |b| == (if |s| <= k then |s| else k) && b == s[|s| - |b|..]
  {
  }

  lemma EmptyStaysEmpty(e: EstimatorState)
    ensures Stored([], 0, e) == []
  {
  }

  lemma PushKeepsNewest(s: seq<EstimatorState>, k: nat, e: EstimatorState)
    ensures PushBack(Newest(s, k), k, e) == Newest(s + [e], k)
  {
    if 0 < k <= |s| {
      assert s[|s| - k..][1..] + [e] == (s + [e])[|s| + 1 - k..];
    }
  }

  /** Inserting before position `i` of everything is inserting before the matching position of the
      newest, or nothing when that position was dropped long ago. */
  lemma InsertKeepsNewest(s: seq<EstimatorState>, k: nat, i: nat, e: EstimatorState)
    requires 0 < k && i < |s|
    ensures var cut := |s| - |Newest(s, k)|;
            InsertAt(Newest(s, k), k, if i <= cut then 0 else i - cut, e) == Newest(s[..i] + [e] + s[i..], k)
  {
    if |s| >= k {
      if i <= |s| - k {
        SuffixAfter(s, i, e, |s| - k);
      } else {
        SuffixAround(s, i, e, |s| - k);
      }
    }
  }

  lemma SuffixAfter(s: seq<EstimatorState>, i: nat, e: EstimatorState, cut: nat)
    requires i <= cut <= |s|
    ensures (s[..i] + [e] + s[i..])[cut + 1..] == s[cut..]
  {
  }

  lemma SuffixAround(s: seq<EstimatorState>, i: nat, e: EstimatorState, cut: nat)
    requires cut < i <= |s|
    ensures (s[..i] + [e] + s[i..])[cut + 1..] == s[cut..][1..i - cut] + [e] + s[cut..][i - cut..]
  {
    assert s[cut..][1..i - cut] == s[cut + 1..i];
    assert s[cut..][i - cut..] == s[i..];
    assert (s[..i] + [e] + s[i..])[cut + 1..] == s[..i][cut + 1..] + [e] + s[i..];
  }

  /** What the buffer of a fixed capacity holds after any offers. */
  function Buffered(offers: seq<EstimatorState>, k: nat): seq<EstimatorState> {
    if offers == [] then [] else Stored(Buffered(offers[..|offers| - 1], k), k, offers[|offers| - 1])
  }

  lemma {:induction false} BufferIsNewest(offers: seq<EstimatorState>, k: nat)
    ensures Buffered(offers, k) == Newest(Accumulated(offers), k)
  {
    hide Stored, Accepted;
    if offers != [] {
      var front := offers[..|offers| - 1];
      BufferIsNewest(front, k);
      AccumulatedIsSorted(front);
      BoundedRefinesUnbounded(Accumulated(front), k, offers[|offers| - 1]);
    }
  }

  // ---------------------------------------------------------------------------------------------
  // Which offers are dropped

  /** Offer `i` is as late as the latest of the offers before it. */
  ghost predicate RepeatsLatest(offers: seq<EstimatorState>, i: int) {
    && 0 < i < |offers|
    && (forall j :: 0 <= j < i ==> offers[j].stamp <= offers[i].stamp)
    && exists j :: 0 <= j < i && offers[j].stamp == offers[i].stamp
  }

  /** What was accepted last is as late as the latest offer. */
  lemma {:induction false} LatestIsAccepted(offers: seq<EstimatorState>)
    requires offers != []
    ensures var s := Accumulated(offers);
            && s != [] && (forall j :: 0 <= j < |offers| ==> offers[j].stamp <= s[|s| - 1].stamp)
            && exists j :: 0 <= j < |offers| && offers[j].stamp == s[|s| - 1].stamp
  {
    hide FirstLater;
    var (front, e) := (offers[..|offers| - 1], offers[|offers| - 1]);
    if front != [] {
      LatestIsAccepted(front);
      AccumulatedIsSorted(front);
      LatestStays(Accumulated(front), e);
      var j :| 0 <= j < |front| && front[j].stamp == Accumulated(front)[|Accumulated(front)| - 1].stamp;
      assert offers[j] == front[j];
    }
  }

  lemma LatestStays(s: seq<EstimatorState>, e: EstimatorState)
    requires s != [] && Sorted(s)
    ensures var (t, last) := (Accepted(s, e), s[|s| - 1].stamp);
            t != [] && t[|t| - 1].stamp == if e.stamp > last then e.stamp else last
  {
    hide FirstLater;
  }

  /** Everything offered is accepted exactly if no offer is as late as the latest before it. */
  lemma {:induction false} AcceptsAllIff(offers: seq<EstimatorState>)
    ensures |Accumulated(offers)| <= |offers|
    ensures |Accumulated(offers)| == |offers| <==> forall i :: 0 <= i < |offers| ==> !RepeatsLatest(offers, i)
    ensures |Accumulated(offers)| == |offers| ==> multiset(Accumulated(offers)) == multiset(offers)
  {
    hide Accepted;
    if offers != [] {
      var n := |offers| - 1;
      var (front, e) := (offers[..n], offers[n]);
      AcceptsAllIff(front);
      assert offers == front + [e];
      forall i | 0 <= i < n
        ensures RepeatsLatest(offers, i) <==> RepeatsLatest(front, i)
      {
        SamePast(offers, n, i);
      }
      LastOffer(front, e);
    }
  }

  lemma SamePast(offers: seq<EstimatorState>, n: nat, i: int)
    requires n <= |offers| && i < n
    ensures RepeatsLatest(offers, i) <==> RepeatsLatest(offers[..n], i)
  {
    assert forall j :: 0 <= j < n ==> offers[..n][j] == offers[j];
  }

  /** The last offer is dropped exactly if it is as late as the latest before it. */
  lemma LastOffer(front: seq<EstimatorState>, e: EstimatorState)
    ensures var (s, t) := (Accumulated(front), Accepted(Accumulated(front), e));
            if RepeatsLatest(front + [e], |front|) then t == s
            else |t| == |s| + 1 && multiset(t) == multiset(s) + multiset{e}
  {
    hide Accumulated, RepeatsLatest, FirstLater;
    RepeatsWhen(front, e);
    if !RepeatsLatest(front + [e], |front|) {
      AcceptedAdds(Accumulated(front), e);
    }
  }

  lemma RepeatsWhen(front: seq<EstimatorState>, e: EstimatorState)
    ensures var s := Accumulated(front);
            RepeatsLatest(front + [e], |front|) <==> s != [] && s[|s| - 1].stamp == e.stamp
  {
    hide Accumulated;
    var (s, offers) := (Accumulated(front), front + [e]);
    assert offers[|front|] == e && forall j :: 0 <= j < |front| ==> offers[j] == front[j];
    if front == [] {
      NothingAccepted();
    } else {
      LatestIsAccepted(front);
      var j :| 0 <= j < |front| && front[j].stamp == s[|s| - 1].stamp;
    }
  }

  lemma NothingAccepted()
    ensures Accumulated([]) == []
  {
  }

  /** Two offers with one stamp: the second is dropped. */
  lemma LateTwinIsDropped(a: EstimatorState, b: EstimatorState, k: nat)
    requires a.stamp == b.stamp && k > 0
    ensures Buffered([a, b], k) == [a]
  {
    BufferOf(a, k);
    assert [a, b][..1] == [a];
  }

  lemma BufferOf(a: EstimatorState, k: nat)
    requires k > 0
    ensures Buffered([a], k) == [a]
  {
    assert [a][..0] == [];
  }

  /** With a later state between them the second is kept, after its twin. */
  lemma EarlyTwinIsKept(a: EstimatorState, b: EstimatorState, c: EstimatorState, k: nat)
    requires a.stamp == c.stamp < b.stamp && k >= 3
    ensures Buffered([a, b, c], k) == [a, c, b]
  {
    BufferOf(a, k);
    assert [a, b][..1] == [a];
    assert Buffered([a, b], k) == [a, b];
    assert [a, b, c][..2] == [a, b];
    FirstLaterIs([a, b], c.stamp, 1);
    assert [a, b][..1] + [c] + [a, b][1..] == [a, c, b];
  }

  // ---------------------------------------------------------------------------------------------
  // Distinct stamps: the newest of what was offered

  ghost predicate Distinct(s: seq<EstimatorState>) {
    forall i, j :: 0 <= i < j < |s| ==> s[i].stamp != s[j].stamp
  }

  lemma {:induction false} AccumulatedIsAll(offers: seq<EstimatorState>)
    requires Distinct(offers)
    ensures multiset(Accumulated(offers)) == multiset(offers) && StrictlySorted(Accumulated(offers))
  {
    hide FirstLater, Accepted;
    if offers != [] {
      var (front, e) := (offers[..|offers| - 1], offers[|offers| - 1]);
      AccumulatedIsAll(front);
      NewStamp(front, Accumulated(front), e);
      AcceptedIsStrict(Accumulated(front), e);
      AcceptedAdds(Accumulated(front), e);
      assert offers == front + [e];
    }
  }

  lemma AcceptedAdds(s: seq<EstimatorState>, e: EstimatorState)
    requires s == [] || s[|s| - 1].stamp != e.stamp
    ensures multiset(Accepted(s, e)) == multiset(s) + multiset{e} && |Accepted(s, e)| == |s| + 1
  {
    hide FirstLater;
    InsertedAdds(s, FirstLater(s, e.stamp), e);
  }

  lemma InsertedAdds(s: seq<EstimatorState>, i: nat, e: EstimatorState)
    requires i <= |s|
    ensures multiset(s[..i] + [e] + s[i..]) == multiset(s) + multiset{e}
  {
    assert s == s[..i] + s[i..];
  }

  lemma NewStamp(front: seq<EstimatorState>, s: seq<EstimatorState>, e: EstimatorState)
    requires multiset(s) == multiset(front) && forall i :: 0 <= i < |front| ==> front[i].stamp != e.stamp
    ensures forall i :: 0 <= i < |s| ==> s[i].stamp != e.stamp
  {
    forall i | 0 <= i < |s|
      ensures s[i].stamp != e.stamp
    {
      assert s[i] in multiset(front);
    }
  }

  lemma AcceptedIsStrict(s: seq<EstimatorState>, e: EstimatorState)
    requires StrictlySorted(s) && forall i :: 0 <= i < |s| ==> s[i].stamp != e.stamp
    ensures StrictlySorted(Accepted(s, e))
  {
    hide FirstLater;
    var i := FirstLater(s, e.stamp);
    var t := s[..i] + [e] + s[i..];
    forall a, b | 0 <= a < b < |t|
      ensures t[a].stamp < t[b].stamp
    {
      if a == i && b > i + 1 { assert s[i].stamp < s[b - 1].stamp; }
    }
  }

  /** The buffer holds the `k` newest of the states offered, oldest first. */
  lemma BufferIsTopK(offers: seq<EstimatorState>, k: nat)
    requires Distinct(offers)
    ensures var b := Buffered(offers, k);
            && StrictlySorted(b) && |b| == (if |offers| <= k then |offers| else k)
            && (forall e :: e in b ==> e in offers)
            && (forall e, f :: e in offers && e !in b && f in b ==> e.stamp < f.stamp)
  {
    hide Buffered, Accumulated, Newest;
    BufferIsNewest(offers, k);
    AccumulatedIsAll(offers);
    var s := Accumulated(offers);
    assert |multiset(s)| == |s| && |multiset(offers)| == |offers|;
    assert forall e :: e in s <==> e in multiset(s);
    assert forall e :: e in offers <==> e in multiset(offers);
    NewestIs(s, k);
    DroppedIsOlder(s, k);
  }

  lemma DroppedIsOlder(s: seq<EstimatorState>, k: nat)
    requires StrictlySorted(s)
    ensures StrictlySorted(Newest(s, k))
    ensures forall e, f :: e in s && e !in Newest(s, k) && f in Newest(s, k) ==> e.stamp < f.stamp
  {
    hide Newest;
    NewestIs(s, k);
    var b := Newest(s, k);
    forall e, f | e in s && e !in b && f in b
      ensures e.stamp < f.stamp
    {
      IsOlder(s, |s| - |b|, e, f);
    }
  }

  lemma IsOlder(s: seq<EstimatorState>, cut: nat, e: EstimatorState, f: EstimatorState)
    requires StrictlySorted(s) && cut <= |s| && e in s && e !in s[cut..] && f in s[cut..]
    ensures e.stamp < f.stamp
  {
    var i :| 0 <= i < |s| && s[i] == e;
    var j :| cut <= j < |s| && s[j] == f;
    assert forall x :: cut <= x < |s| ==> s[x] in s[cut..];
  }

  lemma NewestIsSorted(s: seq<EstimatorState>, k: nat)
    requires Sorted(s)
    ensures Sorted(Newest(s, k))
  {
  }

  lemma {:induction false} StrictOrderIsUnique(s: seq<EstimatorState>, t: seq<EstimatorState>)
    requires StrictlySorted(s) && StrictlySorted(t) && multiset(s) == multiset(t)
    ensures s == t
  {
    hide StrictlySorted;
    assert |multiset(s)| == |s| && |multiset(t)| == |t|;
    if s != [] {
      SameLatest(s, t);
      FrontIsStrict(s);
      FrontIsStrict(t);
      var (front, back, a) := (s[..|s| - 1], t[..|t| - 1], s[|s| - 1]);
      assert s == front + [a] && t == back + [a];
      SameFronts(front, back, a);
      StrictOrderIsUnique(front, back);
    }
  }

  lemma FrontIsStrict(s: seq<EstimatorState>)
    requires StrictlySorted(s) && s != []
    ensures StrictlySorted(s[..|s| - 1])
  {
  }

  lemma SameFronts(s: seq<EstimatorState>, t: seq<EstimatorState>, a: EstimatorState)
    requires multiset(s + [a]) == multiset(t + [a])
    ensures multiset(s) == multiset(t)
  {
    assert multiset(s) == multiset(s + [a]) - multiset{a};
    assert multiset(t) == multiset(t + [a]) - multiset{a};
  }

  lemma SameLatest(s: seq<EstimatorState>, t: seq<EstimatorState>)
    requires StrictlySorted(s) && StrictlySorted(t) && multiset(s) == multiset(t) && s != [] && t != []
    ensures s[|s| - 1] == t[|t| - 1]
  {
    var (a, b) := (s[|s| - 1], t[|t| - 1]);
    assert a in multiset(t) && b in multiset(s);
    var i :| 0 <= i < |t| && t[i] == a;
    var j :| 0 <= j < |s| && s[j] == b;
  }

  /** Whatever order the states arrive in, the buffer is the same. */
  lemma ArrivalOrderIsIrrelevant(offers: seq<EstimatorState>, others: seq<EstimatorState>, k: nat)
    requires Distinct(offers) && Distinct(others) && multiset(offers) == multiset(others)
    ensures Buffered(offers, k) == Buffered(others, k)
  {
    hide Buffered, Accumulated;
    BufferIsNewest(offers, k);
    BufferIsNewest(others, k);
    AccumulatedIsAll(offers);
    AccumulatedIsAll(others);
    StrictOrderIsUnique(Accumulated(offers), Accumulated(others));
  }

  // ---------------------------------------------------------------------------------------------
  // The class

  /** What getState has to answer: where the requested time falls decides the kind of answer, and the
      closest earlier state, if there is one, is what is extrapolated. */
  ghost predicate Answers(
    buffer: seq<EstimatorState>, predict: (Belief, real, real) -> Belief, t: real, r: EstimatorResult,
    state: EstimatorState)
  {
    match r
    case EmptyBuffer => buffer == []
    case Exact => state.stamp == t && exists k :: 0 <= k < |buffer| && NextLater(buffer, k, t) && buffer[k] == state
    case Interpolation =>
      exists k ::
        && 0 <= k < |buffer| - 1 && NextLater(buffer, k, t) && buffer[k].stamp < t
        && state == Carried(predict, buffer[k], t)
    case ExtrapolationIntoFuture =>
      buffer != [] && buffer[|buffer| - 1].stamp < t && state == Carried(predict, buffer[|buffer| - 1], t)
    case ExtrapolationIntoPast =>
      buffer != [] && t < buffer[0].stamp && state == Carried(predict, buffer[0], t)
    case Failed => false
  }

  /** `k` is the last state not later than `t`. */
  ghost predicate NextLater(buffer: seq<EstimatorState>, k: nat, t: real)
    requires k < |buffer|
  {
    buffer[k].stamp <= t && forall j :: k < j < |buffer| ==> t < buffer[j].stamp
  }

  /** extrapolate: predict from a state to another time. */
  function Carried(predict: (Belief, real, real) -> Belief, from: EstimatorState, t: real): EstimatorState {
    EstimatorState(t, predict(from.belief, from.stamp, t - from.stamp))
  }

  /** The kind of answer is a function of where the time falls. */
  lemma AnswerIsDetermined(
    buffer: seq<EstimatorState>, predict: (Belief, real, real) -> Belief, t: real, r: EstimatorResult,
    state: EstimatorState)
    requires Sorted(buffer) && Answers(buffer, predict, t, r, state)
    ensures r == EmptyBuffer <==> buffer == []
    ensures r == Exact <==> exists k :: 0 <= k < |buffer| && buffer[k].stamp == t
    ensures r == ExtrapolationIntoFuture <==> buffer != [] && forall k :: 0 <= k < |buffer| ==> buffer[k].stamp < t
    ensures r == ExtrapolationIntoPast <==> buffer != [] && forall k :: 0 <= k < |buffer| ==> t < buffer[k].stamp
    ensures r != Failed
  {
    hide Carried;
    match r
    case Interpolation =>
      var k :| 0 <= k < |buffer| - 1 && NextLater(buffer, k, t) && buffer[k].stamp < t
               && state == Carried(predict, buffer[k], t);
      assert buffer[k + 1].stamp > t;
      forall j | 0 <= j < |buffer|
        ensures buffer[j].stamp != t
      {
        if j < k { assert buffer[j].stamp <= buffer[k].stamp; }
      }
    case ExtrapolationIntoFuture =>
      assert forall j :: 0 <= j < |buffer| ==> buffer[j].stamp <= buffer[|buffer| - 1].stamp;
    case ExtrapolationIntoPast =>
      assert forall j :: 0 <= j < |buffer| ==> buffer[0].stamp <= buffer[j].stamp;
    case _ =>
  }

  /** What is answered for a time that no state has: the belief of the last state before it, or of the first
      state if there is none, predicted over the difference, and stamped with the time asked for. */
  lemma AnswerIsPredicted(
    buffer: seq<EstimatorState>, predict: (Belief, real, real) -> Belief, t: real, r: EstimatorResult,
    state: EstimatorState)
    requires Sorted(buffer) && Answers(buffer, predict, t, r, state) && buffer != []
    requires forall k :: 0 <= k < |buffer| ==> buffer[k].stamp != t
    ensures t < buffer[0].stamp ==>
              state == EstimatorState(t, predict(buffer[0].belief, buffer[0].stamp, t - buffer[0].stamp))
    ensures buffer[0].stamp < t ==>
              exists k :: 0 <= k < |buffer| && IsBefore(buffer, k, t) &&
                          state == EstimatorState(t, predict(buffer[k].belief, buffer[k].stamp, t - buffer[k].stamp))
  {
    match r
    case Interpolation =>
      var k :| 0 <= k < |buffer| - 1 && NextLater(buffer, k, t) && buffer[k].stamp < t
               && state == Carried(predict, buffer[k], t);
      assert IsBefore(buffer, k, t) && buffer[0].stamp <= buffer[k].stamp;
    case ExtrapolationIntoFuture =>
      assert IsBefore(buffer, |buffer| - 1, t);
      assert buffer[0].stamp <= buffer[|buffer| - 1].stamp;
    case _ =>
  }

  /** The last state before `t`. */
  ghost predicate IsBefore(buffer: seq<EstimatorState>, k: int, t: real)
    requires 0 <= k < |buffer|
  {
    buffer[k].stamp < t && forall j :: k < j < |buffer| ==> t < buffer[j].stamp
  }

  /** For the time of a state the answer is the last state with that time, unchanged. */
  lemma AnswerIsStored(
    buffer: seq<EstimatorState>, predict: (Belief, real, real) -> Belief, t: real, r: EstimatorResult,
    state: EstimatorState, k: nat)
    requires Sorted(buffer) && Answers(buffer, predict, t, r, state)
    requires k < |buffer| && buffer[k].stamp == t && forall j :: k < j < |buffer| ==> buffer[j].stamp != t
    ensures state == buffer[k]
  {
    AnswerIsDetermined(buffer, predict, t, r, state);
    var i :| 0 <= i < |buffer| && NextLater(buffer, i, t) && buffer[i] == state;
  }

  class RobotLocalizationEstimator {
    const predict: (Belief, real, real) -> Belief
    const capacity: nat
    var buffer: seq<EstimatorState>
    ghost var offers: seq<EstimatorState>

    /** The buffer holds the newest of what was accepted since it was last cleared. */
    ghost predicate Valid()
      reads this
    {
      buffer == Newest(Accumulated(offers), capacity)
    }

    constructor (capacity: nat, predict: (Belief, real, real) -> Belief)
      ensures Valid() && buffer == [] && offers == [] && this.capacity == capacity && this.predict == predict
    {
      this.capacity, this.predict := capacity, predict;
      buffer, offers := [], [];
    }

    method ClearBuffer()
      modifies this
      ensures Valid() && buffer == [] && offers == []
    {
      buffer, offers := [], [];
    }

    method SetState(e: EstimatorState)
      requires Valid()
      modifies this
      ensures Valid() && offers == old(offers) + [e]
      ensures buffer == Stored(old(buffer), capacity, e)
    {
      hide Accepted, FirstLater, Newest, InsertAt, PushBack;
      AccumulatedIsSorted(offers);
      BoundedRefinesUnbounded(Accumulated(offers), capacity, e);
      assert (offers + [e])[..|offers|] == offers;
      offers := offers + [e];
      if buffer == [] || e.stamp > buffer[|buffer| - 1].stamp {
        buffer := PushBack(buffer, capacity, e);
        return;
      }
      var it := 0;
      while it < |buffer|
        invariant 0 <= it <= |buffer| && buffer == old(buffer) && offers == old(offers) + [e]
        invariant forall k :: 0 <= k < it ==> buffer[k].stamp <= e.stamp
      {
        if e.stamp < buffer[it].stamp {
          FirstLaterIs(buffer, e.stamp, it);
          buffer := InsertAt(buffer, capacity, it, e);
          return;
        }
        it := it + 1;
      }
      FirstLaterIs(buffer, e.stamp, |buffer|);
    }

    method GetState(time: real, state0: EstimatorState) returns (r: EstimatorResult, state: EstimatorState)
      requires Valid()
      ensures Sorted(buffer) && Answers(buffer, predict, time, r, state)
      ensures r == EmptyBuffer ==> state == state0
      ensures r != EmptyBuffer ==> state.stamp == time
    {
      hide Accumulated, Newest;
      AccumulatedIsSorted(offers);
      NewestIsSorted(Accumulated(offers), capacity);
      state := state0;
      if |buffer| == 0 {
        return EmptyBuffer, state;
      }
      state := buffer[|buffer| - 1];
      var before, after := buffer[0], buffer[|buffer| - 1];
      var beforeFound, afterFound := false, false;
      var it := |buffer| - 1;
      while it >= 0
        invariant -1 <= it < |buffer| && !beforeFound
        invariant forall k :: it < k < |buffer| ==> time < buffer[k].stamp
        invariant afterFound <==> it < |buffer| - 1
        invariant afterFound ==> after == buffer[it + 1]
      {
        if buffer[it].stamp == time {
          assert NextLater(buffer, it, time);
          return Exact, buffer[it];
        } else if buffer[it].stamp <= time {
          before := buffer[it];
          beforeFound := true;
          break;
        } else {
          after := buffer[it];
          afterFound := true;
        }
        it := it - 1;
      }
      assert beforeFound ==> 0 <= it && NextLater(buffer, it, time) && before == buffer[it] && before.stamp < time;
      if beforeFound && afterFound {
        state := Carried(predict, before, time);
        return Interpolation, state;
      } else if beforeFound {
        state := Carried(predict, before, time);
        return ExtrapolationIntoFuture, state;
      } else if afterFound {
        state := Carried(predict, after, time);
        return ExtrapolationIntoPast, state;
      } else {
        return Failed, state;
      }
    }
  }
}
