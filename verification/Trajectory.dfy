/** Where the simulated robot of the collision monitor is, what it then sees, and what polygons ask for. */
module Trajectories {
  import opened Options
  import opened RayCrossings
  import opened Arbitrations
  import opened CollisionMonitors

  // ---------------------------------------------------------------------------------------------
  // The trajectory

  lemma ProjectedIs(trig: Trig, dt: real, pose: Pose, vel: Velocity)
    ensures var (pose', vel') := Projected(trig, dt, pose, vel);
            && pose' == Pose(pose.x + vel.x * dt, pose.y + vel.y * dt, pose.theta + vel.tw * dt)
            && vel'.tw == vel.tw
  {
  }

  lemma AfterNext(trig: Trig, dt: real, vel: Velocity, k: nat)
    ensures var (pose, v) := After(trig, dt, vel, k); After(trig, dt, vel, k + 1) == Projected(trig, dt, pose, v)
  {
    hide Projected;
  }

  /** Each step moves the robot by its velocity over the step, and turns it at the commanded rate. */
  lemma StepMoves(trig: Trig, dt: real, vel: Velocity, k: nat)
    ensures var ((pose, v), (pose', v')) := (After(trig, dt, vel, k), After(trig, dt, vel, k + 1));
            && pose' == Pose(pose.x + v.x * dt, pose.y + v.y * dt, pose.theta + v.tw * dt)
            && v'.tw == v.tw
  {
    AfterNext(trig, dt, vel, k);
    hide After, Projected;
    ProjectedIs(trig, dt, After(trig, dt, vel, k).0, After(trig, dt, vel, k).1);
  }

  lemma NoStep(trig: Trig, dt: real, vel: Velocity)
    ensures After(trig, dt, vel, 0) == (Pose(0.0, 0.0, 0.0), vel)
  {
  }

  /** The heading after `k` steps is the turning rate times the time. */
  lemma {:induction false} HeadingIs(trig: Trig, dt: real, vel: Velocity, k: nat)
    ensures After(trig, dt, vel, k).0.theta == Distance(k, dt, vel.tw) && After(trig, dt, vel, k).1.tw == vel.tw
  {
    hide After, Distance;
    NoStep(trig, dt, vel);
    NoDistance(dt, vel.tw);
    if k > 0 {
      HeadingIs(trig, dt, vel, k - 1);
      StepMoves(trig, dt, vel, k - 1);
      OneMoreStep(k - 1, dt, vel.tw);
    }
  }

  /** How far a constant rate leads in `k` steps. */
  function Distance(k: nat, dt: real, rate: real): real {
    k as real * dt * rate
  }

  lemma OneMoreStep(k: nat, dt: real, rate: real)
    ensures Distance(k + 1, dt, rate) == Distance(k, dt, rate) + rate * dt
  {
    assert (k + 1) as real * dt == k as real * dt + dt;
    assert (k as real * dt + dt) * rate == k as real * dt * rate + dt * rate;
  }

  lemma NoDistance(dt: real, rate: real)
    ensures Distance(0, dt, rate) == 0.0
  {
  }

  /** The velocity after `k` steps is the command, turned counterclockwise by that heading. */
  lemma VelocityIs(trig: Trig, dt: real, vel: Velocity, k: nat)
    requires IsTrig(trig)
    ensures var theta := Distance(k, dt, vel.tw);
            After(trig, dt, vel, k).1 ==
            Velocity(vel.x * trig.cos(theta) - vel.y * trig.sin(theta),
                     vel.x * trig.sin(theta) + vel.y * trig.cos(theta), vel.tw)
  {
    hide After, IsTrig, Distance;
    HeadingIs(trig, dt, vel, k);
    VelocityFollowsHeading(trig, dt, vel, k);
  }

  // ---------------------------------------------------------------------------------------------
  // Driving straight

  lemma VelocityStays(trig: Trig, dt: real, vel: Velocity, k: nat)
    requires IsTrig(trig) && vel.tw == 0.0
    ensures After(trig, dt, vel, k).0.theta == 0.0 && After(trig, dt, vel, k).1 == vel
  {
    hide After, Turned;
    HeadingIs(trig, dt, vel, k);
    VelocityFollowsHeading(trig, dt, vel, k);
    NoTurn(vel);
  }

  /** Without turning the robot is `k` steps along its velocity. */
  lemma {:induction false} StraightIs(trig: Trig, dt: real, vel: Velocity, k: nat)
    requires IsTrig(trig) && vel.tw == 0.0
    ensures After(trig, dt, vel, k) == (Pose(Distance(k, dt, vel.x), Distance(k, dt, vel.y), 0.0), vel)
  {
    hide After, Distance, IsTrig;
    VelocityStays(trig, dt, vel, k);
    NoStep(trig, dt, vel);
    NoDistance(dt, vel.x);
    NoDistance(dt, vel.y);
    if k > 0 {
      StraightIs(trig, dt, vel, k - 1);
      StepMoves(trig, dt, vel, k - 1);
      StraightStep(k - 1, dt, vel, After(trig, dt, vel, k - 1).0, After(trig, dt, vel, k).0);
    }
  }

  lemma StraightStep(k: nat, dt: real, vel: Velocity, before: Pose, after: Pose)
    requires before.x == Distance(k, dt, vel.x) && before.y == Distance(k, dt, vel.y)
    requires after.x == before.x + vel.x * dt && after.y == before.y + vel.y * dt
    ensures after.x == Distance(k + 1, dt, vel.x) && after.y == Distance(k + 1, dt, vel.y)
  {
    hide Distance;
    OneMoreStep(k, dt, vel.x);
    OneMoreStep(k, dt, vel.y);
  }

  /** The obstacles move towards it by as much. */
  function Shifted(points: seq<Point>, x: real, y: real): (moved: seq<Point>)
    ensures |moved| == |points|
    ensures forall i :: 0 <= i < |points| ==> moved[i] == Point(points[i].x - x, points[i].y - y)
  {
    seq(|points|, i requires 0 <= i < |points| => Point(points[i].x - x, points[i].y - y))
  }

  lemma SeenStraight(trig: Trig, pose: Pose, points: seq<Point>)
    requires IsTrig(trig) && pose.theta == 0.0
    ensures Transformed(trig, pose, points) == Shifted(points, pose.x, pose.y)
  {
  }

  /** So a straight drive hits at step `k` exactly if more than the allowed number of the points, moved by
      `k + 1` steps of the velocity, are inside. */
  lemma StraightHitsIff(trig: Trig, pg: Polygon, points: seq<Point>, vel: Velocity, k: nat)
    requires IsTrig(trig) && vel.tw == 0.0
    ensures var (x, y) := (Distance(k + 1, pg.step, vel.x), Distance(k + 1, pg.step, vel.y));
            Hits(trig, pg, points, vel, k) <==> CountIn(pg.shape, Shifted(points, x, y)) > pg.maxPoints
  {
    hide CountIn, After, Hits, IsTrig, Transformed, Distance;
    HitsWhen(trig, pg, points, vel, k);
    StraightIs(trig, pg.step, vel, k + 1);
    SeenStraight(trig, After(trig, pg.step, vel, k + 1).0, points);
  }

  // ---------------------------------------------------------------------------------------------
  // Counting

  ghost function IndicesInside(poly: seq<Point>, points: seq<Point>): set<nat> {
    set i: nat | i < |points| && Inside(points[i], poly)
  }

  ghost function IndicesInCircle(r2: real, points: seq<Point>): set<nat> {
    set i: nat | i < |points| && InCircle(r2, points[i])
  }

  /** How many points a polygon or a circle holds. */
  lemma {:induction false} CountInsideIs(poly: seq<Point>, points: seq<Point>)
    ensures CountInside(poly, points) == |IndicesInside(poly, points)|
    decreases |points|
  {
    hide Inside;
    if points != [] {
      var n := |points| - 1;
      CountInsideIs(poly, points[..n]);
      assert IndicesInside(poly, points) ==
             IndicesInside(poly, points[..n]) + if Inside(points[n], poly) then {n} else {};
    }
  }

  lemma {:induction false} CountInCircleIs(r2: real, points: seq<Point>)
    ensures CountInCircle(r2, points) == |IndicesInCircle(r2, points)|
    decreases |points|
  {
    hide InCircle;
    if points != [] {
      var n := |points| - 1;
      CountInCircleIs(r2, points[..n]);
      OneMoreInCircle(r2, points);
      hide CountInCircle;
      assert IndicesInCircle(r2, points) ==
             IndicesInCircle(r2, points[..n]) + if InCircle(r2, points[n]) then {n} else {};
    }
  }

  lemma OneMoreInCircle(r2: real, points: seq<Point>)
    requires points != []
    ensures var n := |points| - 1;
            CountInCircle(r2, points) == CountInCircle(r2, points[..n]) + if InCircle(r2, points[n]) then 1 else 0
  {
    hide InCircle;
    InCircleIs(r2, points[|points| - 1]);
  }

  /** Strictly nearer to the robot than the radius. */
  predicate InCircle(r2: real, p: Point) {
    Distance2(p, Point(0.0, 0.0)) < r2
  }

  lemma InCircleIs(r2: real, p: Point)
    ensures InCircle(r2, p) <==> p.x * p.x + p.y * p.y < r2
  {
  }

  // ---------------------------------------------------------------------------------------------
  // What polygons ask for

  /** A stop or slowdown polygon triggers exactly if more than the allowed number of points is inside, and
      then asks for a standstill or for its own ratio. */
  lemma StopAndSlowdownAsk(sc: Scene, pg: Polygon)
    requires pg.enabled && pg.action in {STOP, SLOWDOWN}
    ensures Wanted(sc, pg).Some? <==> CountIn(pg.shape, sc.points) > pg.maxPoints
    ensures Wanted(sc, pg).Some? ==> Wanted(sc, pg).value == if pg.action == STOP then 0.0 else pg.slowdownRatio
  {
    hide CountIn;
  }

  /** An approach polygon asks for the collision time over the horizon: 0 with enough points inside already,
      else the time of the first simulated step that hits; and for nothing if none does. */
  lemma ApproachAsks(sc: Scene, pg: Polygon)
    requires pg.enabled && pg.action == APPROACH && Usable(pg)
    ensures CountIn(pg.shape, sc.points) >= pg.maxPoints ==> Wanted(sc, pg) == Some(0.0)
    ensures CountIn(pg.shape, sc.points) < pg.maxPoints ==>
              && (Wanted(sc, pg) == None <==> NeverHits(sc.trig, pg, sc.points, sc.velocity))
              && (Wanted(sc, pg).Some? ==>
                    exists k: nat :: HitsFirst(sc.trig, pg, sc.points, sc.velocity, k) &&
                                     Wanted(sc, pg).value == k as real * pg.step / pg.timeBeforeCollision)
  {
    hide CountIn, CollisionTime, HitsFirst, NeverHits, AlreadyInside;
    CollisionTimeIsExact(sc.trig, pg, sc.points, sc.velocity);
    CollisionTimeIsBounded(sc.trig, pg, sc.points, sc.velocity);
    ZeroRatio(0.0, pg.timeBeforeCollision);
    var t := CollisionTime(sc.trig, pg, sc.points, sc.velocity);
    assert Time(pg, 0) == 0.0;
  }

  /** What a ratio makes of a velocity: each component, the turning rate too, times the ratio. */
  lemma ScaledIs(v: Velocity, r: real)
    ensures Scale(v, r) == Velocity(r * v.x, r * v.y, r * v.tw)
  {
  }
}
