/** Arbitration between requests to go slower, and the rule for publishing the outcome
    (collision_monitor_node.cpp, types.hpp). */
module Arbitrations {
  import opened RayCrossings

  datatype Velocity = Velocity(x: real, y: real, tw: real)

  datatype ActionType = DO_NOTHING | STOP | SLOWDOWN | APPROACH

  datatype Action = Action(action: ActionType, reqVel: Velocity)

  function Scale(v: Velocity, r: real): Velocity {
    Velocity(v.x * r, v.y * r, v.tw * r)
  }

  /** The magnitude that velocities are compared by, rotation included. */
  function Norm2(v: Velocity): real {
    SumOfSquares([v.x, v.y, v.tw])
  }

  function SumOfSquares(s: seq<real>): real {
    if s == [] then 0.0 else Square(s[0]) + SumOfSquares(s[1..])
  }

  function Square(a: real): real {
    a * a
  }

  predicate IsZero(v: Velocity) {
    v.x == 0.0 && v.y == 0.0 && v.tw == 0.0
  }

  lemma NormIs(v: Velocity)
    ensures Norm2(v) == Square(v.x) + Square(v.y) + Square(v.tw)
  {
    hide Square;
    var (all, two, one) := ([v.x, v.y, v.tw], [v.y, v.tw], [v.tw]);
    assert all[1..] == two && two[1..] == one && one[1..] == [];
    assert SumOfSquares(one) == Square(v.tw) + SumOfSquares([]);
    assert SumOfSquares(two) == Square(v.y) + SumOfSquares(one);
    assert SumOfSquares(all) == Square(v.x) + SumOfSquares(two);
  }

  lemma NormOfScaled(v: Velocity, r: real)
    ensures Norm2(Scale(v, r)) == r * r * Norm2(v)
  {
    hide Norm2;
    NormIs(v);
    NormIs(Scale(v, r));
    ScaledSquare(v.x, r);
    ScaledSquare(v.y, r);
    ScaledSquare(v.tw, r);
  }

  lemma ScaledSquare(a: real, r: real)
    ensures Square(a * r) == r * r * Square(a)
  {
  }

  lemma NormSign(v: Velocity)
    ensures Norm2(v) >= 0.0
    ensures !IsZero(v) ==> Norm2(v) > 0.0
    ensures IsZero(v) ==> Norm2(v) == 0.0
  {
    hide Square, Norm2;
    NormIs(v);
    SquareSign(v.x);
    SquareSign(v.y);
    SquareSign(v.tw);
  }

  lemma SquareSign(a: real)
    ensures if a == 0.0 then Square(a) == 0.0 else Square(a) > 0.0
  {
    if a != 0.0 {
      ProductSign(a, a, Square(a));
    }
  }

  lemma ProductSign(a: real, b: real, c: real)
    requires c == a * b && ((a > 0.0 && b > 0.0) || (a < 0.0 && b < 0.0))
    ensures c > 0.0
  {
  }

  lemma RatioSigns(q: real, d: real)
    requires d > 0.0
    ensures q < 0.0 ==> q * d < 0.0
    ensures q > 0.0 ==> q * d > 0.0
    ensures q > 1.0 ==> q * d > d
  {
    assert (q - 1.0) * d == q * d - d;
  }

  // ---------------------------------------------------------------------------------------------
  // The slowest of the actions asked for

  /** The action leaves the input unchanged or was asked for; no slower one was asked for; and it is a
      stop exactly if one was asked for. */
  ghost predicate IsChoice(v: Velocity, asked: set<Action>, a: Action) {
    && (a == Action(DO_NOTHING, v) || a in asked)
    && Norm2(a.reqVel) <= Norm2(v)
    && (forall b :: b in asked ==> Norm2(a.reqVel) <= Norm2(b.reqVel))
    && (a.action == STOP <==> exists b :: b in asked && b.action == STOP)
  }

  lemma NothingAsked(v: Velocity)
    ensures IsChoice(v, {}, Action(DO_NOTHING, v))
  {
  }

  /** An action that is no slower leaves the choice as it is. */
  lemma ChoiceStays(v: Velocity, asked: set<Action>, b: Action, a: Action)
    requires IsChoice(v, asked, a) && (a.action == STOP || b.action != STOP) && Norm2(a.reqVel) <= Norm2(b.reqVel)
    ensures IsChoice(v, asked + {b}, a)
  {
    hide Norm2;
  }

  /** One that is at least as slow may become the choice. */
  lemma ChoiceMoves(v: Velocity, asked: set<Action>, b: Action, a: Action)
    requires IsChoice(v, asked, a) && a.action != STOP && b.action != DO_NOTHING && Norm2(b.reqVel) <= Norm2(a.reqVel)
    ensures IsChoice(v, asked + {b}, b)
  {
    hide Norm2;
    assert b in asked + {b};
  }

  const STANDSTILL := Velocity(0.0, 0.0, 0.0)

  /** A stop asks for no velocity at all. */
  ghost predicate StopsStop(asked: set<Action>) {
    forall b :: b in asked && b.action == STOP ==> b.reqVel == STANDSTILL
  }

  /** Once the robot has to stop, no further request matters. */
  lemma StopIsFinal(v: Velocity, asked: set<Action>, more: set<Action>, a: Action)
    requires IsChoice(v, asked, a) && a.action == STOP && StopsStop(asked)
    ensures IsChoice(v, asked + more, a)
  {
    hide Norm2;
    NormSign(a.reqVel);
    forall b | b in more
      ensures Norm2(a.reqVel) <= Norm2(b.reqVel)
    {
      NormSign(b.reqVel);
    }
  }

  lemma ScaledByZero(v: Velocity)
    ensures Scale(v, 0.0) == STANDSTILL
  {
  }

  lemma SquaresOrder(r: real, q: real)
    requires r >= 0.0 && q >= 0.0 && r * r <= q * q
    ensures r <= q
  {
    assert (r - q) * (r + q) == r * r - q * q;
    if r > q {
      RatioSigns(r - q, r + q);
    }
  }

  lemma CancelPositive(a: real, b: real, n: real)
    requires n > 0.0 && a * n <= b * n
    ensures a <= b
  {
    RatioSigns(a - b, n);
    assert (a - b) * n == a * n - b * n;
  }

  lemma SlowerIsLess(v: Velocity, r: real, q: real)
    requires r >= 0.0 && q >= 0.0 && !IsZero(v) && Norm2(Scale(v, r)) <= Norm2(Scale(v, q))
    ensures r <= q
  {
    hide Norm2, Scale, IsZero;
    NormOfScaled(v, r);
    NormOfScaled(v, q);
    NormSign(v);
    CancelPositive(r * r, q * q, Norm2(v));
    SquaresOrder(r, q);
  }

  lemma ZeroScales(v: Velocity, r: real)
    requires IsZero(v)
    ensures Scale(v, r) == v
  {
  }

  lemma OneScales(v: Velocity)
    ensures Scale(v, 1.0) == v
  {
  }

  // ---------------------------------------------------------------------------------------------
  // Publishing

  /** The last requested velocity, and when the robot was last told to stop. */
  datatype Publisher = Publisher(prev: Velocity, stamp: int)

  datatype Request = Request(velocity: Velocity, now: int)

  const IDLE := Publisher(Velocity(-1.0, -1.0, -1.0), 0)

  predicate Passes(p: Publisher, r: Request, timeout: int) {
    !IsZero(r.velocity) || !IsZero(p.prev) || r.now - p.stamp <= timeout
  }

  function NextPublisher(p: Publisher, r: Request): Publisher {
    Publisher(r.velocity, if IsZero(r.velocity) && !IsZero(p.prev) then r.now else p.stamp)
  }

  /** The publisher after the first `n` requests. */
  function PublisherAfter(rs: seq<Request>, n: nat): Publisher
    requires n <= |rs|
  {
    if n == 0 then IDLE else NextPublisher(PublisherAfter(rs, n - 1), rs[n - 1])
  }

  /** Requests `j` to `k` are all zero, and the one before them, if any, is not. */
  ghost predicate Standing(rs: seq<Request>, j: nat, k: nat) {
    && j <= k < |rs| && (forall i :: j <= i <= k ==> IsZero(rs[i].velocity))
    && (j > 0 ==> !IsZero(rs[j - 1].velocity))
  }

  lemma {:induction false} StampIsStart(rs: seq<Request>, j: nat, k: nat)
    requires Standing(rs, j, k)
    ensures PublisherAfter(rs, k + 1) == Publisher(rs[k].velocity, rs[j].now)
  {
    if j < k {
      StampIsStart(rs, j, k - 1);
    }
  }

  /** In any run, a moving robot is always commanded, and a standing one until `timeout` after it was
      told to stop. */
  lemma PublishesUntilTimeout(rs: seq<Request>, j: nat, k: nat, timeout: int)
    requires k < |rs| && timeout >= 0
    ensures !IsZero(rs[k].velocity) ==> Passes(PublisherAfter(rs, k), rs[k], timeout)
    ensures Standing(rs, j, k) ==> (Passes(PublisherAfter(rs, k), rs[k], timeout) <==> rs[k].now - rs[j].now <= timeout)
  {
    if Standing(rs, j, k) {
      if j < k {
        StampIsStart(rs, j, k - 1);
        assert IsZero(rs[k - 1].velocity);
      }
    }
  }
}
