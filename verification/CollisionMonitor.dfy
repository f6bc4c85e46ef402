/** The collision monitor (polygon.cpp, circle.cpp, kinematics.cpp, collision_monitor_node.cpp): time to
    collision by simulation, and arbitration between polygons that want the robot slower. */
module CollisionMonitors {
  import opened Options
  import opened RayCrossings
  import opened Arbitrations

  datatype Pose = Pose(x: real, y: real, theta: real)

  /** Cosine and sine of an angle. */
  datatype Trig = Trig(cos: real -> real, sin: real -> real)

  datatype Shape = Vertices(poly: seq<Point>) | Circle(radiusSquared: real)

  datatype Polygon = Polygon(
    shape: Shape, enabled: bool, action: ActionType, maxPoints: int,
    slowdownRatio: real, timeBeforeCollision: real, step: real)

  // ---------------------------------------------------------------------------------------------
  // Points inside a shape

  function CountIn(shape: Shape, points: seq<Point>): nat {
    match shape
    case Vertices(poly) => CountInside(poly, points)
    case Circle(r2) => CountInCircle(r2, points)
  }

  function CountInCircle(r2: real, points: seq<Point>): nat {
    if points == [] then 0
    else
      var p := points[|points| - 1];
      CountInCircle(r2, points[..|points| - 1]) + (if p.x * p.x + p.y * p.y < r2 then 1 else 0)
  }

  method PointsIn(shape: Shape, points: seq<Point>) returns (num: nat)
    ensures num == CountIn(shape, points)
  {
    match shape
    case Vertices(poly) =>
      num := GetPointsInside(poly, points);
    case Circle(r2) =>
      num := 0;
      for k := 0 to |points|
        invariant num == CountInCircle(r2, points[..k])
      {
        assert points[..k + 1][..k] == points[..k];
        if points[k].x * points[k].x + points[k].y * points[k].y < r2 {
          num := num + 1;
        }
      }
      assert points[..|points|] == points;
  }

  // ---------------------------------------------------------------------------------------------
  // The simulated motion

  /** projectState. */
  function Projected(trig: Trig, dt: real, pose: Pose, vel: Velocity): (Pose, Velocity) {
    var theta := vel.tw * dt;
    (Pose(pose.x + vel.x * dt, pose.y + vel.y * dt, pose.theta + theta), Turned(vel, trig.cos(theta), trig.sin(theta)))
  }

  function Turned(vel: Velocity, c: real, s: real): Velocity {
    Velocity(vel.x * c - vel.y * s, vel.x * s + vel.y * c, vel.tw)
  }

  function Seen(trig: Trig, pose: Pose, p: Point): Point {
    var (c, s) := (trig.cos(pose.theta), trig.sin(pose.theta));
    Point((p.x - pose.x) * c + (p.y - pose.y) * s, -(p.x - pose.x) * s + (p.y - pose.y) * c)
  }

  /** transformPoints. */
  function Transformed(trig: Trig, pose: Pose, points: seq<Point>): seq<Point> {
    seq(|points|, i requires 0 <= i < |points| => Seen(trig, pose, points[i]))
  }

  /** The robot after `k` simulation steps. */
  function After(trig: Trig, dt: real, vel: Velocity, k: nat): (Pose, Velocity) {
    if k == 0 then (Pose(0.0, 0.0, 0.0), vel)
    else
      var (pose, v) := After(trig, dt, vel, k - 1);
      Projected(trig, dt, pose, v)
  }

  ghost predicate IsTrig(trig: Trig) {
    && trig.cos(0.0) == 1.0 && trig.sin(0.0) == 0.0
    && (forall a :: trig.cos(a) * trig.cos(a) + trig.sin(a) * trig.sin(a) == 1.0)
    && forall a, b :: AddsUp(trig, a, b)
  }

  ghost predicate AddsUp(trig: Trig, a: real, b: real) {
    && trig.cos(a + b) == trig.cos(a) * trig.cos(b) - trig.sin(a) * trig.sin(b)
    && trig.sin(a + b) == trig.sin(a) * trig.cos(b) + trig.cos(a) * trig.sin(b)
  }

  function Distance2(p: Point, q: Point): real {
    (p.x - q.x) * (p.x - q.x) + (p.y - q.y) * (p.y - q.y)
  }

  lemma RotatedLength(x: real, y: real, c: real, s: real)
    requires c * c + s * s == 1.0
    ensures (x * c + y * s) * (x * c + y * s) + (-x * s + y * c) * (-x * s + y * c) == x * x + y * y
  {
    var n := x * x + y * y;
    assert (x * c + y * s) * (x * c + y * s) + (-x * s + y * c) * (-x * s + y * c) == n * (c * c) + n * (s * s);
    assert n * (c * c) + n * (s * s) == n * (c * c + s * s);
  }

  /** The robot's view of the obstacles is a rigid motion: distances between points are kept. */
  lemma SeenIsRigid(trig: Trig, pose: Pose, p: Point, q: Point)
    requires IsTrig(trig)
    ensures Distance2(Seen(trig, pose, p), Seen(trig, pose, q)) == Distance2(p, q)
  {
    var (c, s) := (trig.cos(pose.theta), trig.sin(pose.theta));
    var (x, y) := (p.x - q.x, p.y - q.y);
    var (a, b) := (Seen(trig, pose, p), Seen(trig, pose, q));
    assert a.x - b.x == x * c + y * s;
    assert a.y - b.y == -x * s + y * c;
    RotatedLength(x, y, c, s);
  }

  /** What the robot sees is where the point is: turned by the pose's heading and moved to its origin, it
      is the point again. */
  lemma SeenIsInverse(trig: Trig, pose: Pose, p: Point)
    requires IsTrig(trig)
    ensures var (q, c, s) := (Seen(trig, pose, p), trig.cos(pose.theta), trig.sin(pose.theta));
            p == Point(pose.x + q.x * c - q.y * s, pose.y + q.x * s + q.y * c)
  {
    TurnBack(p.x - pose.x, p.y - pose.y, trig.cos(pose.theta), trig.sin(pose.theta));
  }

  lemma TurnBack(x: real, y: real, c: real, s: real)
    requires c * c + s * s == 1.0
    ensures (x * c + y * s) * c - (-x * s + y * c) * s == x
    ensures (x * c + y * s) * s + (-x * s + y * c) * c == y
  {
    assert (x * c + y * s) * c - (-x * s + y * c) * s == x * (c * c + s * s);
    assert (x * c + y * s) * s + (-x * s + y * c) * c == y * (c * c + s * s);
  }

  /** The simulated robot drives on with the commanded velocity in its own frame: after any number of
      steps its velocity is the input turned by its heading. */
  lemma {:induction false} VelocityFollowsHeading(trig: Trig, dt: real, vel: Velocity, k: nat)
    requires IsTrig(trig)
    ensures var (pose, v) := After(trig, dt, vel, k);
            v == Turned(vel, trig.cos(pose.theta), trig.sin(pose.theta))
  {
    hide Turned;
    if k == 0 {
      NoTurn(vel);
    } else {
      VelocityFollowsHeading(trig, dt, vel, k - 1);
      var (pose, v) := After(trig, dt, vel, k - 1);
      var theta := v.tw * dt;
      assert AddsUp(trig, pose.theta, theta);
      var next := Projected(trig, dt, pose, v);
      assert After(trig, dt, vel, k) == next;
      assert next.1 == Turned(v, trig.cos(theta), trig.sin(theta)) && next.0.theta == pose.theta + theta;
      TurnedOn(trig, vel, pose.theta, theta);
    }
  }

  lemma NoTurn(v: Velocity)
    ensures Turned(v, 1.0, 0.0) == v
  {
  }

  lemma TurnedOn(trig: Trig, v: Velocity, a: real, b: real)
    requires AddsUp(trig, a, b)
    ensures Turned(Turned(v, trig.cos(a), trig.sin(a)), trig.cos(b), trig.sin(b)) ==
            Turned(v, trig.cos(a + b), trig.sin(a + b))
  {
    TurnedTwice(v, trig.cos(a), trig.sin(a), trig.cos(b), trig.sin(b));
  }

  lemma TurnedTwice(v: Velocity, c: real, s: real, c': real, s': real)
    ensures Turned(Turned(v, c, s), c', s') == Turned(v, c * c' - s * s', s * c' + c * s')
  {
    assert (v.x * c - v.y * s) * c' - (v.x * s + v.y * c) * s' == v.x * (c * c' - s * s') - v.y * (s * c' + c * s');
    assert (v.x * c - v.y * s) * s' + (v.x * s + v.y * c) * c' == v.x * (s * c' + c * s') + v.y * (c * c' - s * s');
  }

  // ---------------------------------------------------------------------------------------------
  // Time to collision

  /** With one more step, more than the allowed number of points is inside. */
  function Hits(trig: Trig, pg: Polygon, points: seq<Point>, vel: Velocity, k: nat): bool {
    CountIn(pg.shape, Transformed(trig, After(trig, pg.step, vel, k + 1).0, points)) > pg.maxPoints
  }

  function Time(pg: Polygon, k: nat): real {
    k as real * pg.step
  }

  lemma TimeNext(pg: Polygon, k: nat)
    ensures Time(pg, k + 1) == Time(pg, k) + pg.step && Time(pg, 0) == 0.0
  {
  }

  lemma TimeGrows(pg: Polygon, j: nat, k: nat)
    requires pg.step > 0.0 && j <= k
    ensures Time(pg, j) <= Time(pg, k)
  {
    assert (k - j) as real * pg.step >= 0.0;
    assert k as real * pg.step == j as real * pg.step + (k - j) as real * pg.step;
  }

  /** More steps than fit in the horizon. */
  ghost function Horizon(pg: Polygon): int
    requires pg.step > 0.0
  {
    (pg.timeBeforeCollision / pg.step).Floor + 1
  }

  lemma InHorizon(pg: Polygon, k: nat)
    requires pg.step > 0.0 && Time(pg, k) <= pg.timeBeforeCollision
    ensures k < Horizon(pg)
  {
    var q := pg.timeBeforeCollision / pg.step;
    assert q * pg.step == pg.timeBeforeCollision;
    if q < k as real {
      assert q * pg.step < k as real * pg.step;
    }
  }

  /** The time of the first step from the `k`-th on that hits within the horizon, else -1. */
  ghost function FirstHit(trig: Trig, pg: Polygon, points: seq<Point>, vel: Velocity, k: nat): real
    requires pg.step > 0.0
    decreases Horizon(pg) - k
  {
    if Time(pg, k) > pg.timeBeforeCollision then -1.0
    else
      InHorizon(pg, k);
      if Hits(trig, pg, points, vel, k) then Time(pg, k) else FirstHit(trig, pg, points, vel, k + 1)
  }

  /** The static check of getCollisionTime. */
  predicate AlreadyInside(pg: Polygon, points: seq<Point>) {
    CountIn(pg.shape, points) >= pg.maxPoints
  }

  /** What getCollisionTime answers; 0 when enough points are inside already. */
  ghost function CollisionTime(trig: Trig, pg: Polygon, points: seq<Point>, vel: Velocity): real
    requires pg.step > 0.0
  {
    if AlreadyInside(pg, points) then 0.0 else FirstHit(trig, pg, points, vel, 0)
  }

  method GetCollisionTime(trig: Trig, pg: Polygon, points: seq<Point>, velocity: Velocity) returns (result: real)
    requires pg.step > 0.0
    ensures result == CollisionTime(trig, pg, points, velocity)
  {
    hide Hits, Time, CountIn, Horizon;
    var pose, vel := Pose(0.0, 0.0, 0.0), velocity;
    var num := PointsIn(pg.shape, points);
    if num >= pg.maxPoints {
      return 0.0;
    }
    var time := 0.0;
    ghost var k: nat := 0;
    TimeNext(pg, 0);
    while time <= pg.timeBeforeCollision
      invariant time == Time(pg, k) && (pose, vel) == After(trig, pg.step, velocity, k)
      invariant FirstHit(trig, pg, points, velocity, k) == FirstHit(trig, pg, points, velocity, 0)
      decreases Horizon(pg) - k
    {
      InHorizon(pg, k);
      TimeNext(pg, k);
      var projected := Projected(trig, pg.step, pose, vel);
      pose, vel := projected.0, projected.1;
      num := PointsIn(pg.shape, Transformed(trig, pose, points));
      HitsWhen(trig, pg, points, velocity, k);
      if num > pg.maxPoints {
        return time;
      }
      time := time + pg.step;
      k := k + 1;
    }
    result := -1.0;
  }

  lemma HitsWhen(trig: Trig, pg: Polygon, points: seq<Point>, vel: Velocity, k: nat)
    ensures Hits(trig, pg, points, vel, k) <==>
            CountIn(pg.shape, Transformed(trig, After(trig, pg.step, vel, k + 1).0, points)) > pg.maxPoints
  {
  }

  ghost predicate HitsFirst(trig: Trig, pg: Polygon, points: seq<Point>, vel: Velocity, k: nat) {
    && Time(pg, k) <= pg.timeBeforeCollision && Hits(trig, pg, points, vel, k)
    && forall j: nat :: j < k ==> !Hits(trig, pg, points, vel, j)
  }

  ghost predicate NeverHits(trig: Trig, pg: Polygon, points: seq<Point>, vel: Velocity) {
    forall k: nat :: Time(pg, k) <= pg.timeBeforeCollision ==> !Hits(trig, pg, points, vel, k)
  }

  /** From a step with no hit before it, the search finds the first hit, or there is none. */
  lemma {:induction false} FirstHitIsFirst(trig: Trig, pg: Polygon, points: seq<Point>, vel: Velocity, k: nat)
    requires pg.step > 0.0 && forall j: nat :: j < k ==> !Hits(trig, pg, points, vel, j)
    ensures var t := FirstHit(trig, pg, points, vel, k);
            || (t == -1.0 && NeverHits(trig, pg, points, vel))
            || (exists i: nat :: HitsFirst(trig, pg, points, vel, i) && t == Time(pg, i))
    decreases Horizon(pg) - k
  {
    hide Hits, Time, Horizon;
    if Time(pg, k) > pg.timeBeforeCollision {
      forall i: nat | Time(pg, i) <= pg.timeBeforeCollision
        ensures !Hits(trig, pg, points, vel, i)
      {
        if i >= k { TimeGrows(pg, k, i); }
      }
    } else if !Hits(trig, pg, points, vel, k) {
      InHorizon(pg, k);
      FirstHitIsFirst(trig, pg, points, vel, k + 1);
    } else {
      assert HitsFirst(trig, pg, points, vel, k);
    }
  }

  /** The answer is 0 when enough points are inside already, else the time of the first step that hits
      within the horizon, else -1. */
  lemma CollisionTimeIsExact(trig: Trig, pg: Polygon, points: seq<Point>, vel: Velocity)
    requires pg.step > 0.0
    ensures var t := CollisionTime(trig, pg, points, vel);
            if CountIn(pg.shape, points) >= pg.maxPoints then t == 0.0
            else
              && (t == -1.0 <==> NeverHits(trig, pg, points, vel))
              && (t != -1.0 ==> exists k: nat :: HitsFirst(trig, pg, points, vel, k) && t == Time(pg, k))
  {
    hide Hits, CountIn, Time, FirstHit;
    if CountIn(pg.shape, points) < pg.maxPoints {
      FirstHitIsFirst(trig, pg, points, vel, 0);
      if k: nat :| HitsFirst(trig, pg, points, vel, k) {
        TimeNext(pg, 0);
        TimeGrows(pg, 0, k);
      }
    }
  }

  /** A collision time is never beyond the horizon, so it makes a ratio between 0 and 1. */
  lemma CollisionTimeIsBounded(trig: Trig, pg: Polygon, points: seq<Point>, vel: Velocity)
    requires pg.step > 0.0 && pg.timeBeforeCollision > 0.0
    ensures var t := CollisionTime(trig, pg, points, vel);
            t != -1.0 ==> 0.0 <= t <= pg.timeBeforeCollision && 0.0 <= t / pg.timeBeforeCollision <= 1.0
  {
    hide Hits, CountIn, Time, FirstHit, CollisionTime;
    CollisionTimeIsExact(trig, pg, points, vel);
    var t := CollisionTime(trig, pg, points, vel);
    if k: nat :| HitsFirst(trig, pg, points, vel, k) && t == Time(pg, k) {
      TimeNext(pg, 0);
      TimeGrows(pg, 0, k);
    }
    if t != -1.0 {
      UnitRatio(t, pg.timeBeforeCollision);
    }
  }

  lemma UnitRatio(t: real, d: real)
    requires 0.0 <= t <= d && d > 0.0
    ensures 0.0 <= t / d <= 1.0
  {
    var q := t / d;
    assert q * d == t;
    RatioSigns(q, d);
  }

  // ---------------------------------------------------------------------------------------------
  // What the polygons ask for

  /** What a call of process sees besides the polygons. */
  datatype Scene = Scene(trig: Trig, points: seq<Point>, velocity: Velocity)

  /** What the source needs of a polygon that simulates: a step forward and a horizon to divide by. */
  ghost predicate Usable(pg: Polygon) {
    pg.action == APPROACH ==> pg.step > 0.0 && pg.timeBeforeCollision > 0.0
  }

  ghost predicate AllUsable(pgs: seq<Polygon>) {
    forall pg :: pg in pgs ==> Usable(pg)
  }

  /** The ratio a polygon wants the velocity scaled by, if it triggers. */
  ghost function Wanted(sc: Scene, pg: Polygon): Option<real> {
    if !pg.enabled then None
    else
      match pg.action
      case DO_NOTHING => None
      case STOP => if CountIn(pg.shape, sc.points) > pg.maxPoints then Some(0.0) else None
      case SLOWDOWN => if CountIn(pg.shape, sc.points) > pg.maxPoints then Some(pg.slowdownRatio) else None
      case APPROACH =>
        if pg.step <= 0.0 || pg.timeBeforeCollision <= 0.0 then None
        else
          var t := CollisionTime(sc.trig, pg, sc.points, sc.velocity);
          if t >= 0.0 then Some(t / pg.timeBeforeCollision) else None
  }

  /** An approach polygon halts the robot where a stop polygon of the same shape and limit does not
      trigger. */
  ghost predicate OnlyApproachHalts(sc: Scene, approach: Polygon, stop: Polygon) {
    Wanted(sc, approach) == Some(0.0) && Wanted(sc, stop) == None
  }

  ghost predicate Twins(approach: Polygon, stop: Polygon) {
    && approach.enabled && stop.enabled && approach.action == APPROACH && stop.action == STOP
    && approach.shape == stop.shape && approach.maxPoints == stop.maxPoints && Usable(approach)
  }

  /** A stop polygon never halts the robot where its twin does not; the twin alone halts it exactly at
      the limit, or below it when the first simulated step goes over it. */
  lemma OnlyApproachHaltsIff(sc: Scene, approach: Polygon, stop: Polygon)
    requires Twins(approach, stop)
    ensures Wanted(sc, stop).Some? ==> Wanted(sc, approach) == Some(0.0)
    ensures var n := CountIn(approach.shape, sc.points);
            OnlyApproachHalts(sc, approach, stop) <==>
              n == approach.maxPoints || (n < approach.maxPoints && Hits(sc.trig, approach, sc.points, sc.velocity, 0))
  {
    hide CountIn, Hits, Time, FirstHit;
    var t := CollisionTime(sc.trig, approach, sc.points, sc.velocity);
    ZeroRatio(t, approach.timeBeforeCollision);
    if CountIn(approach.shape, sc.points) < approach.maxPoints {
      FirstHitIsZeroIff(sc, approach);
    }
  }

  lemma ZeroRatio(t: real, d: real)
    requires d > 0.0
    ensures t / d == 0.0 <==> t == 0.0
  {
    var q := t / d;
    assert q * d == t;
    if t == 0.0 {
      RatioSigns(q, d);
    }
  }

  lemma FirstHitIsZeroIff(sc: Scene, pg: Polygon)
    requires pg.step > 0.0 && pg.timeBeforeCollision > 0.0
    ensures FirstHit(sc.trig, pg, sc.points, sc.velocity, 0) == 0.0 <==> Hits(sc.trig, pg, sc.points, sc.velocity, 0)
  {
    hide Hits, Time;
    TimeNext(pg, 0);
    FirstHitIsFirst(sc.trig, pg, sc.points, sc.velocity, 0);
    var t := FirstHit(sc.trig, pg, sc.points, sc.velocity, 0);
    if k: nat :| HitsFirst(sc.trig, pg, sc.points, sc.velocity, k) && t == Time(pg, k) {
      if k > 0 {
        TimeGrows(pg, 1, k);
      }
    }
  }

  /** One point in a circle that allows one: the approach polygon halts the robot, the stop polygon lets
      it drive on. */
  lemma TwinsDisagree(trig: Trig, velocity: Velocity) returns (sc: Scene, approach: Polygon, stop: Polygon)
    ensures sc.trig == trig && sc.velocity == velocity && Twins(approach, stop) && OnlyApproachHalts(sc, approach, stop)
  {
    hide FirstHit, Hits, CountIn;
    var origin := Point(0.0, 0.0);
    sc := Scene(trig, [origin], velocity);
    approach := Polygon(Circle(1.0), true, APPROACH, 1, 0.0, 1.0, 1.0);
    stop := approach.(action := STOP);
    OneInCircle(origin);
    OnlyApproachHaltsIff(sc, approach, stop);
  }

  lemma OneInCircle(p: Point)
    requires p == Point(0.0, 0.0)
    ensures CountIn(Circle(1.0), [p]) == 1
  {
    assert [p][..0] == [];
    assert p.x * p.x + p.y * p.y == 0.0;
    assert CountInCircle(1.0, []) == 0;
  }

  ghost function Asked(sc: Scene, pgs: seq<Polygon>): set<Action> {
    set pg | pg in pgs && Wanted(sc, pg).Some? :: Action(pg.action, Scale(sc.velocity, Wanted(sc, pg).value))
  }

  lemma AskedMore(sc: Scene, pgs: seq<Polygon>, pg: Polygon)
    ensures match Wanted(sc, pg)
            case None => Asked(sc, pgs + [pg]) == Asked(sc, pgs)
            case Some(r) => Asked(sc, pgs + [pg]) == Asked(sc, pgs) + {Action(pg.action, Scale(sc.velocity, r))}
  {
    hide Wanted, Scale;
    assert forall q :: q in pgs + [pg] <==> q in pgs || q == pg;
  }

  lemma AskedStopsStop(sc: Scene, pgs: seq<Polygon>)
    ensures StopsStop(Asked(sc, pgs))
  {
    hide CountIn, CollisionTime, Scale;
    ScaledByZero(sc.velocity);
  }

  /** The action after one more polygon: a stop is final, and any other request has to be strictly slower than
      what was chosen so far. */
  ghost function Decides(sc: Scene, a: Action, pg: Polygon): Action {
    if a.action == STOP || Wanted(sc, pg) == None then a
    else
      var safe := Scale(sc.velocity, Wanted(sc, pg).value);
      if pg.action == STOP || Norm2(safe) < Norm2(a.reqVel) then Action(pg.action, safe) else a
  }

  /** The action after all polygons, in their order. */
  ghost function Decided(sc: Scene, pgs: seq<Polygon>): Action {
    if pgs == [] then Action(DO_NOTHING, sc.velocity)
    else Decides(sc, Decided(sc, pgs[..|pgs| - 1]), pgs[|pgs| - 1])
  }

  method ProcessStopSlowdown(pg: Polygon, sc: Scene, action: Action) returns (next: Action)
    requires pg.enabled && pg.action in {STOP, SLOWDOWN} && action.action != STOP
    ensures next == Decides(sc, action, pg)
  {
    hide Norm2, CountIn, Scale;
    next := action;
    ScaledByZero(sc.velocity);
    var num := PointsIn(pg.shape, sc.points);
    if num > pg.maxPoints {
      if pg.action == STOP {
        next := Action(STOP, Velocity(0.0, 0.0, 0.0));
      } else {
        var safe := Scale(sc.velocity, pg.slowdownRatio);
        if Norm2(safe) < Norm2(action.reqVel) {
          next := Action(SLOWDOWN, safe);
        }
      }
    }
  }

  method ProcessApproach(pg: Polygon, sc: Scene, action: Action) returns (next: Action)
    requires pg.enabled && pg.action == APPROACH && Usable(pg) && action.action != STOP
    ensures next == Decides(sc, action, pg)
  {
    hide Norm2, CollisionTime, Scale;
    next := action;
    var time := GetCollisionTime(sc.trig, pg, sc.points, sc.velocity);
    if time >= 0.0 {
      var ratio := time / pg.timeBeforeCollision;
      var safe := Scale(sc.velocity, ratio);
      if Norm2(safe) < Norm2(action.reqVel) {
        next := Action(APPROACH, safe);
      }
    }
  }

  /** One more polygon extends the choice by what it asks for. */
  lemma DecidesKeepsChoice(sc: Scene, pgs: seq<Polygon>, a: Action, pg: Polygon)
    requires IsChoice(sc.velocity, Asked(sc, pgs), a)
    ensures IsChoice(sc.velocity, Asked(sc, pgs + [pg]), Decides(sc, a, pg))
  {
    AskedMore(sc, pgs, pg);
    AskedStopsStop(sc, pgs);
    WantingActs(sc, pg);
    hide Norm2, IsChoice, Asked, Scale, Wanted;
    if Wanted(sc, pg).Some? {
      var b := Action(pg.action, Scale(sc.velocity, Wanted(sc, pg).value));
      if a.action == STOP {
        StopIsFinal(sc.velocity, Asked(sc, pgs), {b}, a);
      } else if pg.action == STOP {
        ScaledByZero(sc.velocity);
        NormSign(STANDSTILL);
        NormSign(a.reqVel);
        ChoiceMoves(sc.velocity, Asked(sc, pgs), b, a);
      } else if Norm2(b.reqVel) < Norm2(a.reqVel) {
        ChoiceMoves(sc.velocity, Asked(sc, pgs), b, a);
      } else {
        ChoiceStays(sc.velocity, Asked(sc, pgs), b, a);
      }
    }
  }

  lemma WantingActs(sc: Scene, pg: Polygon)
    ensures Wanted(sc, pg).Some? ==> pg.action != DO_NOTHING
    ensures Wanted(sc, pg).Some? && pg.action == STOP ==> Wanted(sc, pg).value == 0.0
  {
    hide CountIn, CollisionTime;
  }

  /** What is decided is the slowest of the input and everything asked for. */
  lemma {:induction false} DecidedIsChoice(sc: Scene, pgs: seq<Polygon>)
    ensures IsChoice(sc.velocity, Asked(sc, pgs), Decided(sc, pgs))
    decreases |pgs|
  {
    hide IsChoice, Wanted, Decides, Asked;
    if pgs == [] {
      NothingAsked(sc.velocity);
      AskedNothing(sc, pgs);
    } else {
      var (front, pg) := (pgs[..|pgs| - 1], pgs[|pgs| - 1]);
      assert pgs == front + [pg];
      DecidedIsChoice(sc, front);
      DecidesKeepsChoice(sc, front, Decided(sc, front), pg);
    }
  }

  /** No polygon comes in again after a stop. */
  lemma {:induction false} StopStays(sc: Scene, pgs: seq<Polygon>, more: seq<Polygon>)
    requires Decided(sc, pgs).action == STOP
    ensures Decided(sc, pgs + more) == Decided(sc, pgs)
    decreases |more|
  {
    hide Wanted;
    if more == [] {
      assert pgs + more == pgs;
    } else {
      StopStays(sc, pgs, more[..|more| - 1]);
      assert (pgs + more)[..|pgs + more| - 1] == pgs + more[..|more| - 1];
    }
  }

  /** The speed a polygon asks for. */
  ghost function Speed(sc: Scene, pg: Polygon): real
    requires Wanted(sc, pg).Some?
  {
    Norm2(Scale(sc.velocity, Wanted(sc, pg).value))
  }

  /** Polygon `k` is the first of those that ask for the least, and slower than the input. */
  ghost predicate IsFirstSlowest(sc: Scene, pgs: seq<Polygon>, k: nat) {
    && k < |pgs| && Wanted(sc, pgs[k]).Some? && Speed(sc, pgs[k]) < Norm2(sc.velocity)
    && (forall j :: 0 <= j < k && Wanted(sc, pgs[j]).Some? ==> Speed(sc, pgs[k]) < Speed(sc, pgs[j]))
    && (forall j :: k < j < |pgs| && Wanted(sc, pgs[j]).Some? ==> Speed(sc, pgs[k]) <= Speed(sc, pgs[j]))
  }

  ghost predicate NoneIsSlower(sc: Scene, pgs: seq<Polygon>) {
    forall j :: 0 <= j < |pgs| && Wanted(sc, pgs[j]).Some? ==> Norm2(sc.velocity) <= Speed(sc, pgs[j])
  }

  /** `a` is what polygon `k` asks for. */
  ghost predicate AsksFor(sc: Scene, pg: Polygon, a: Action) {
    Wanted(sc, pg).Some? && a == Action(pg.action, Scale(sc.velocity, Wanted(sc, pg).value))
  }

  /** `a` is what the first polygon among those that ask for the least asks for, if that is slower than the
      input; else there is no action. */
  ghost predicate IsOfFirstSlowest(sc: Scene, pgs: seq<Polygon>, a: Action) {
    || (a == Action(DO_NOTHING, sc.velocity) && NoneIsSlower(sc, pgs))
    || (exists k: nat :: IsFirstSlowest(sc, pgs, k) && AsksFor(sc, pgs[k], a))
  }

  lemma NotSlower(sc: Scene, front: seq<Polygon>, pg: Polygon, a: Action)
    requires IsOfFirstSlowest(sc, front, a) && (Wanted(sc, pg).Some? ==> Norm2(a.reqVel) <= Speed(sc, pg))
    ensures IsOfFirstSlowest(sc, front + [pg], a)
  {
    hide Wanted, Norm2, Scale;
    var pgs := front + [pg];
    if k: nat :| IsFirstSlowest(sc, front, k) && AsksFor(sc, front[k], a) {
      assert pgs[k] == front[k];
      assert Speed(sc, pgs[k]) == Norm2(a.reqVel);
      assert IsFirstSlowest(sc, pgs, k);
    }
  }

  lemma Slower(sc: Scene, front: seq<Polygon>, pg: Polygon, a: Action, b: Action)
    requires IsOfFirstSlowest(sc, front, a) && AsksFor(sc, pg, b) && Norm2(b.reqVel) < Norm2(a.reqVel)
    ensures IsOfFirstSlowest(sc, front + [pg], b)
  {
    hide Wanted, Norm2, Scale;
    var pgs := front + [pg];
    SlowestSoFar(sc, front, a);
    assert pgs[|front|] == pg;
    assert IsFirstSlowest(sc, pgs, |front|) && AsksFor(sc, pgs[|front|], b);
  }

  lemma SlowestSoFar(sc: Scene, pgs: seq<Polygon>, a: Action)
    requires IsOfFirstSlowest(sc, pgs, a)
    ensures Norm2(a.reqVel) <= Norm2(sc.velocity)
    ensures forall j :: 0 <= j < |pgs| && Wanted(sc, pgs[j]).Some? ==> Norm2(a.reqVel) <= Speed(sc, pgs[j])
  {
    hide Wanted, Norm2, Scale;
    if k: nat :| IsFirstSlowest(sc, pgs, k) && AsksFor(sc, pgs[k], a) {
      assert Speed(sc, pgs[k]) == Norm2(a.reqVel);
    }
  }

  /** Unless the robot has to stop, what is decided is that. */
  lemma {:induction false} FirstSlowestDecides(sc: Scene, pgs: seq<Polygon>)
    requires Decided(sc, pgs).action != STOP
    ensures IsOfFirstSlowest(sc, pgs, Decided(sc, pgs))
    decreases |pgs|
  {
    hide Wanted, Norm2, Scale, IsFirstSlowest;
    if pgs != [] {
      var (front, pg) := (pgs[..|pgs| - 1], pgs[|pgs| - 1]);
      assert pgs == front + [pg];
      FirstSlowestDecides(sc, front);
      var (a, b) := (Decided(sc, front), Decided(sc, pgs));
      assert b == Decides(sc, a, pg);
      hide Decided, IsOfFirstSlowest;
      if AsksFor(sc, pg, b) && Norm2(b.reqVel) < Norm2(a.reqVel) {
        Slower(sc, front, pg, a, b);
      } else {
        NotSlower(sc, front, pg, a);
      }
    }
  }

  // ---------------------------------------------------------------------------------------------
  // What the choice is

  ghost predicate NoNegativeRatio(pgs: seq<Polygon>) {
    forall pg :: pg in pgs ==> pg.slowdownRatio >= 0.0
  }

  ghost predicate Triggers(sc: Scene, pgs: seq<Polygon>, r: real) {
    exists pg :: pg in pgs && Wanted(sc, pg) == Some(r)
  }

  /** The minimum of 1 and all ratios wanted. */
  ghost predicate IsLeastRatio(sc: Scene, pgs: seq<Polygon>, r: real) {
    && (r == 1.0 || Triggers(sc, pgs, r))
    && r <= 1.0 && forall q :: Triggers(sc, pgs, q) ==> r <= q
  }

  lemma WantedIsNotNegative(sc: Scene, pgs: seq<Polygon>, r: real)
    requires NoNegativeRatio(pgs) && Triggers(sc, pgs, r)
    ensures r >= 0.0
  {
    hide CountIn, CollisionTime;
    var pg :| pg in pgs && Wanted(sc, pg) == Some(r);
    if pg.action == APPROACH {
      CollisionTimeIsBounded(sc.trig, pg, sc.points, sc.velocity);
    }
  }

  lemma ChosenRatio(sc: Scene, pgs: seq<Polygon>, a: Action) returns (r: real)
    requires IsChoice(sc.velocity, Asked(sc, pgs), a)
    ensures a.reqVel == Scale(sc.velocity, r) && (r == 1.0 || Triggers(sc, pgs, r))
  {
    hide Norm2, Wanted, Scale;
    if a == Action(DO_NOTHING, sc.velocity) {
      r := 1.0;
      OneScales(sc.velocity);
    } else {
      var pg :| pg in pgs && Wanted(sc, pg).Some? && a == Action(pg.action, Scale(sc.velocity, Wanted(sc, pg).value));
      r := Wanted(sc, pg).value;
    }
  }

  lemma NoSlowerTriggers(sc: Scene, pgs: seq<Polygon>, a: Action, r: real)
    requires IsChoice(sc.velocity, Asked(sc, pgs), a) && (r == 1.0 || Triggers(sc, pgs, r))
    ensures Norm2(a.reqVel) <= Norm2(Scale(sc.velocity, r))
  {
    hide Norm2, Wanted, Scale;
    if r == 1.0 {
      OneScales(sc.velocity);
    } else {
      var pg :| pg in pgs && Wanted(sc, pg) == Some(r);
      assert Action(pg.action, Scale(sc.velocity, r)) in Asked(sc, pgs);
    }
  }

  /** The requested velocity is the input times the minimum of 1 and all ratios wanted. */
  lemma ChoiceIsLeast(sc: Scene, pgs: seq<Polygon>, a: Action, r: real)
    requires NoNegativeRatio(pgs) && IsChoice(sc.velocity, Asked(sc, pgs), a) && IsLeastRatio(sc, pgs, r)
    ensures a.reqVel == Scale(sc.velocity, r)
  {
    hide Norm2, Scale, IsZero, NoNegativeRatio, Triggers, IsChoice;
    var chosen := ChosenRatio(sc, pgs, a);
    if IsZero(sc.velocity) {
      ZeroScales(sc.velocity, r);
      ZeroScales(sc.velocity, chosen);
    } else {
      NoSlowerTriggers(sc, pgs, a, r);
      if r != 1.0 { WantedIsNotNegative(sc, pgs, r); }
      if chosen != 1.0 { WantedIsNotNegative(sc, pgs, chosen); }
      SlowerIsLess(sc.velocity, chosen, r);
    }
  }

  /** The minimum exists. */
  lemma {:induction false} LeastRatioExists(sc: Scene, pgs: seq<Polygon>) returns (r: real)
    ensures IsLeastRatio(sc, pgs, r)
  {
    hide Wanted;
    if pgs == [] {
      r := 1.0;
    } else {
      var (front, pg) := (pgs[..|pgs| - 1], pgs[|pgs| - 1]);
      assert pgs == front + [pg];
      r := LeastRatioExists(sc, front);
      TriggersMore(sc, front, pg);
      hide Triggers;
      if Wanted(sc, pg).Some? && Wanted(sc, pg).value < r {
        r := Wanted(sc, pg).value;
      }
    }
  }

  lemma TriggersMore(sc: Scene, pgs: seq<Polygon>, pg: Polygon)
    ensures forall r :: Triggers(sc, pgs + [pg], r) <==> Triggers(sc, pgs, r) || Wanted(sc, pg) == Some(r)
  {
    hide Wanted;
    assert forall q :: q in pgs + [pg] <==> q in pgs || q == pg;
  }

  /** The order of the polygons does not matter. */
  lemma OrderIsIrrelevant(sc: Scene, pgs: seq<Polygon>, qgs: seq<Polygon>, a: Action, b: Action)
    requires multiset(pgs) == multiset(qgs) && NoNegativeRatio(pgs)
    requires IsChoice(sc.velocity, Asked(sc, pgs), a) && IsChoice(sc.velocity, Asked(sc, qgs), b)
    ensures a.reqVel == b.reqVel && (a.action == STOP <==> b.action == STOP)
  {
    hide Norm2, Scale, Wanted;
    SameRequests(sc, pgs, qgs);
    var r := LeastRatioExists(sc, pgs);
    ChoiceIsLeast(sc, pgs, a, r);
    ChoiceIsLeast(sc, pgs, b, r);
  }

  lemma SameRequests(sc: Scene, pgs: seq<Polygon>, qgs: seq<Polygon>)
    requires multiset(pgs) == multiset(qgs)
    ensures Asked(sc, pgs) == Asked(sc, qgs)
  {
    hide Wanted, Scale;
    assert forall pg :: pg in pgs <==> pg in multiset(pgs);
    assert forall pg :: pg in qgs <==> pg in multiset(qgs);
  }

  class CollisionMonitor {
    const polygons: seq<Polygon>
    const trig: Trig
    const timeout: int
    var active: bool
    var publisher: Publisher

    constructor (polygons: seq<Polygon>, trig: Trig, timeout: int)
      ensures this.polygons == polygons && this.trig == trig && this.timeout == timeout
      ensures !active && publisher == IDLE
    {
      this.polygons, this.trig, this.timeout := polygons, trig, timeout;
      active, publisher := false, IDLE;
    }

    method Activate()
      modifies this
      ensures active && publisher == old(publisher)
    {
      active := true;
    }

    method Deactivate()
      modifies this
      ensures !active && publisher == IDLE.(stamp := old(publisher).stamp)
    {
      active := false;
      publisher := publisher.(prev := IDLE.prev);
    }

    /** `out` is what goes to the robot. */
    method PublishVelocity(v: Velocity, now: int) returns (out: Option<Velocity>)
      modifies this
      ensures active == old(active) && publisher.prev == old(publisher).prev
      ensures publisher.stamp == NextPublisher(old(publisher), Request(v, now)).stamp
      ensures out == if Passes(old(publisher), Request(v, now), timeout) then Some(v) else None
    {
      if IsZero(v) {
        if !IsZero(publisher.prev) {
          publisher := publisher.(stamp := now);
        } else if now - publisher.stamp > timeout {
          return None;
        }
      }
      return Some(v);
    }

    method Process(points: seq<Point>, cmdVel: Velocity, now: int) returns (out: Option<Velocity>, action: Action)
      requires AllUsable(polygons)
      modifies this
      ensures active == old(active)
      ensures !active ==> out == None && publisher == old(publisher)
      ensures active ==> action == Decided(Scene(trig, points, cmdVel), polygons)
      ensures active ==> IsChoice(cmdVel, Asked(Scene(trig, points, cmdVel), polygons), action)
      ensures active ==> publisher == NextPublisher(old(publisher), Request(action.reqVel, now))
      ensures active ==>
              out == if Passes(old(publisher), Request(action.reqVel, now), timeout) then Some(action.reqVel) else None
    {
      hide IsChoice, Wanted, Usable, IsZero, Asked;
      action := Action(DO_NOTHING, cmdVel);
      if !active {
        return None, action;
      }
      var sc := Scene(trig, points, cmdVel);
      var i := 0;
      while i < |polygons|
        invariant 0 <= i <= |polygons| && action == Decided(sc, polygons[..i])
        invariant active == old(active) && publisher == old(publisher)
      {
        var pg := polygons[i];
        assert polygons[..i + 1][..i] == polygons[..i];
        if !pg.enabled {
          WantsNothing(sc, pg);
        } else if action.action == STOP {
          break;
        } else if pg.action == STOP || pg.action == SLOWDOWN {
          action := ProcessStopSlowdown(pg, sc, action);
        } else if pg.action == APPROACH {
          action := ProcessApproach(pg, sc, action);
        } else {
          WantsNothing(sc, pg);
        }
        i := i + 1;
      }
      if i < |polygons| {
        StopStays(sc, polygons[..i], polygons[i..]);
      }
      assert polygons[..i] + polygons[i..] == polygons && polygons[..|polygons|] == polygons;
      DecidedIsChoice(sc, polygons);
      out := PublishVelocity(action.reqVel, now);
      publisher := publisher.(prev := action.reqVel);
    }
  }

  lemma AskedNothing(sc: Scene, pgs: seq<Polygon>)
    requires pgs == []
    ensures Asked(sc, pgs) == {}
  {
  }

  lemma WantsNothing(sc: Scene, pg: Polygon)
    requires !pg.enabled || pg.action == DO_NOTHING
    ensures Wanted(sc, pg) == None
  {
  }
}
