/** The waypoint runner (waypoint_runner.cpp): a route is sent to the navigation server in one goal; a
    pause cancels it and a continue sends what is left. */
module WaypointRunners {
  import opened Options

  type Pose(!new)

  datatype RunState = Idle | Running | Pausing | Paused

  /** A service request; `Go` names one of the route files. */
  datatype Request = Go(scene: nat) | Pause | Continue | Unknown

  datatype ResultCode = SUCCEEDED | ABORTED | CANCELED | UNKNOWN

  /** The fields of the node. */
  datatype Runner = Runner(
    state: RunState, paused: int, lastScene: Option<nat>, base: int, local: int, goalSize: int, hasGoal: bool)

  /** The routes on disk: a scene with no entry cannot be read. */
  type Routes = map<nat, seq<Pose>>

  const FRESH := Runner(Idle, -1, None, 0, -1, 0, false)

  function Max(a: int, b: int): int {
    if a >= b then a else b
  }

  function SliceFrom(v: seq<Pose>, start: int): seq<Pose> {
    var i := Max(start, 0);
    if i >= |v| then [] else v[i..]
  }

  // ---------------------------------------------------------------------------------------------
  // The callbacks, on values

  /** sendWaypointsGoal: an empty list is not sent. */
  function Sent(r: Runner, poses: seq<Pose>, base: int): Runner {
    if poses == [] then r else r.(base := base, local := -1, goalSize := |poses|)
  }

  /** What a request leaves behind: the node, the goal it sent, and the answer. */
  datatype Outcome = Outcome(runner: Runner, goal: seq<Pose>, respond: bool)

  function Requested(routes: Routes, r: Runner, req: Request): Outcome {
    match req
    case Go(scene) =>
      var loaded := scene in routes;
      var r1 := r.(paused := -1, lastScene := if loaded then Some(scene) else r.lastScene);
      if !loaded || routes[scene] == [] then Outcome(r1, [], false)
      else Outcome(Sent(r1.(hasGoal := false), routes[scene], 0), routes[scene], true)
    case Pause =>
      if r.state == Running && r.hasGoal then Outcome(r.(state := Pausing), [], true) else Outcome(r, [], false)
    case Continue =>
      if r.state != Paused || r.lastScene == None || r.lastScene.value !in routes
         || routes[r.lastScene.value] == [] then
        Outcome(r, [], false)
      else
        var resume := Max(0, r.paused + 1);
        var remain := SliceFrom(routes[r.lastScene.value], resume);
        if remain == [] then Outcome(r, [], true)
        else Outcome(Sent(r.(hasGoal := false), remain, resume), remain, true)
    case Unknown => Outcome(r, [], false)
  }

  function Answered(r: Runner, accepted: bool): Runner {
    if accepted then r.(hasGoal := true, state := Running) else r
  }

  /** The last waypoint that a result counts as completed: on success the last of the goal, else the one
      before the current target. */
  function LastCompleted(r: Runner, code: ResultCode): int {
    if code == SUCCEEDED then r.base + Max(r.goalSize - 1, 0) else r.base + Max(r.local - 1, -1)
  }

  function Finished(r: Runner, code: ResultCode): Runner {
    var paused := Max(r.paused, LastCompleted(r, code));
    match code
    case SUCCEEDED => r.(paused := paused, state := Idle)
    case UNKNOWN => r
    case _ => r.(paused := paused, hasGoal := false, state := Paused)
  }

  // ---------------------------------------------------------------------------------------------
  // The node and the server together

  /** The goal the server has and, once it has reported, the position of its target in it. */
  datatype Phase = NoGoal | Waiting(goal: seq<Pose>) | Active(goal: seq<Pose>, target: int)

  /** `done` lists the poses the server has driven to in this scene, whatever the node believes. */
  datatype World = World(runner: Runner, phase: Phase, done: seq<Pose>)

  datatype Event = Task(req: Request) | Answer(accepted: bool) | Feedback(target: int) | Result(code: ResultCode)

  const START := World(FRESH, NoGoal, [])

  /** The server answers and reports only on a goal it has, its targets are positions in that goal, and
      no goal is sent while another is outstanding. */
  ghost predicate Allowed(w: World, e: Event) {
    match e
    case Task(Go(_)) => w.phase == NoGoal
    case Task(Continue) => !w.phase.Waiting?
    case Task(_) => true
    case Answer(_) => w.phase.Waiting?
    case Feedback(target) => w.phase.Active? && 0 <= target < |w.phase.goal|
    case Result(_) => w.phase.Active?
  }

  /** What the server has driven to when it ends: all of its goal on success, else what comes before its
      target. */
  ghost function Driven(phase: Phase, code: ResultCode): seq<Pose> {
    if !phase.Active? then []
    else if code == SUCCEEDED then phase.goal
    else if 0 <= phase.target <= |phase.goal| then phase.goal[..phase.target]
    else []
  }

  ghost function Next(routes: Routes, w: World, e: Event): World {
    match e
    case Task(req) =>
      var o := Requested(routes, w.runner, req);
      World(o.runner,
            if o.goal == [] then w.phase else Waiting(o.goal),
            if req.Go? && req.scene in routes then [] else w.done)
    case Answer(accepted) =>
      World(Answered(w.runner, accepted),
            if accepted && w.phase.Waiting? then Active(w.phase.goal, -1) else NoGoal,
            w.done)
    case Feedback(target) =>
      World(w.runner.(local := target), if w.phase.Active? then w.phase.(target := target) else w.phase, w.done)
    case Result(code) =>
      World(Finished(w.runner, code), NoGoal, w.done + Driven(w.phase, code))
  }

  /** The world after `events`. */
  ghost function After(routes: Routes, w: World, events: seq<Event>): World {
    if events == [] then w else Next(routes, After(routes, w, events[..|events| - 1]), events[|events| - 1])
  }

  ghost predicate CanFollow(routes: Routes, w: World, events: seq<Event>) {
    events != [] ==>
      && CanFollow(routes, w, events[..|events| - 1])
      && Allowed(After(routes, w, events[..|events| - 1]), events[|events| - 1])
  }

  ghost function Run(routes: Routes, events: seq<Event>): World {
    After(routes, START, events)
  }

  ghost predicate IsRun(routes: Routes, events: seq<Event>) {
    CanFollow(routes, START, events)
  }

  /** A requested route can be read and is not empty. */
  ghost predicate Loads(routes: Routes, e: Event) {
    e.Task? && e.req.Go? ==> e.req.scene in routes && routes[e.req.scene] != []
  }

  ghost predicate AllLoad(routes: Routes, events: seq<Event>) {
    forall e :: e in events ==> Loads(routes, e)
  }

  ghost function Route(routes: Routes, r: Runner): seq<Pose> {
    if r.lastScene.Some? && r.lastScene.value in routes then routes[r.lastScene.value] else []
  }

  /** What was driven is the beginning of the route, an outstanding goal is the rest of it, and a paused
      run has something left.  While a goal is out or the run is paused the node knows how far it is. */
  ghost predicate Tiled(routes: Routes, w: World) {
    var (r, route, k) := (w.runner, Route(routes, w.runner), |w.done|);
    && k <= |route| && w.done == route[..k]
    && -1 <= r.paused < k
    && (w.phase != NoGoal || r.state == Paused ==> r.paused == k - 1)
    && (w.phase != NoGoal ==>
          && k < |route| && w.phase.goal == route[k..]
          && r.base == k && r.goalSize == |w.phase.goal|
          && r.local == (if w.phase.Active? then w.phase.target else -1) && -1 <= r.local < r.goalSize)
    && (w.phase.Active? ==> (r.state == Running || r.state == Pausing) && r.hasGoal)
    && (r.state == Paused ==> k < |route|)
  }

  /** Every step of the protocol keeps the tiling when requested routes load. */
  lemma NextKeepsTiling(routes: Routes, w: World, e: Event)
    requires Tiled(routes, w) && Allowed(w, e) && Loads(routes, e)
    ensures Tiled(routes, Next(routes, w, e))
  {
    if e.Result? {
      ResultKeepsTiling(routes, w, e.code);
    }
  }

  lemma ResultKeepsTiling(routes: Routes, w: World, code: ResultCode)
    requires Tiled(routes, w) && w.phase.Active?
    ensures Tiled(routes, Next(routes, w, Result(code)))
  {
    var (route, driven) := (Route(routes, w.runner), Driven(w.phase, code));
    DrivenIsNext(route, |w.done|, |driven|);
  }

  lemma DrivenIsNext(route: seq<Pose>, k: nat, n: nat)
    requires k + n <= |route|
    ensures route[..k] + route[k..][..n] == route[..k + n]
  {
  }

  lemma {:induction false} AfterIsTiled(routes: Routes, w: World, events: seq<Event>)
    requires Tiled(routes, w) && CanFollow(routes, w, events) && AllLoad(routes, events)
    ensures Tiled(routes, After(routes, w, events))
    decreases |events|
  {
    hide Allowed, Next, Tiled, Loads;
    if events != [] {
      var (front, e) := (events[..|events| - 1], events[|events| - 1]);
      assert forall x :: x in front ==> x in events;
      assert e in events;
      AfterIsTiled(routes, w, front);
      NextKeepsTiling(routes, After(routes, w, front), e);
    }
  }

  /** In every run, what the server drove to is the beginning of the route, pose by pose: no gap, no
      overlap, nothing lost. */
  lemma RunIsTiled(routes: Routes, events: seq<Event>)
    requires IsRun(routes, events) && AllLoad(routes, events)
    ensures Tiled(routes, Run(routes, events))
  {
    hide Tiled, AllLoad, CanFollow;
    StartIsTiled(routes);
    AfterIsTiled(routes, START, events);
  }

  lemma StartIsTiled(routes: Routes)
    ensures Tiled(routes, START)
  {
  }

  // ---------------------------------------------------------------------------------------------
  // What the tiling gives

  /** A paused run resumes: a continue sends the rest of the route, which is not empty. */
  lemma ContinueResumes(routes: Routes, w: World)
    requires Tiled(routes, w) && w.runner.state == Paused
    ensures var o := Requested(routes, w.runner, Continue);
            && o.respond && o.goal != []
            && o.goal == Route(routes, w.runner)[w.runner.paused + 1..]
            && o.runner.base == w.runner.paused + 1
  {
  }

  /** A success completes the route. */
  lemma SuccessCompletes(routes: Routes, w: World)
    requires Tiled(routes, w) && Allowed(w, Result(SUCCEEDED))
    ensures var w' := Next(routes, w, Result(SUCCEEDED));
            var route := Route(routes, w.runner);
            && w'.runner.paused == |route| - 1 && w'.done == route && w'.runner.state == Idle
            && w'.runner == w.runner.(paused := |route| - 1, state := Idle) && w'.phase == NoGoal
  {
  }

  /** A requested route that the server accepts and completes is driven from its first waypoint to its last,
      and nothing else is. */
  lemma RequestDrivesRoute(routes: Routes, w: World, scene: nat)
    requires w.phase == NoGoal && scene in routes && routes[scene] != []
    ensures Requested(routes, w.runner, Go(scene)).respond
    ensures var sent := Next(routes, w, Task(Go(scene)));
            var driving := Next(routes, sent, Answer(true));
            var w' := Next(routes, driving, Result(SUCCEEDED));
            && sent.phase == Waiting(routes[scene]) && sent.done == [] && sent.runner.lastScene == Some(scene)
            && driving.runner.state == Running && driving.runner.hasGoal
            && w'.done == routes[scene] && w'.runner.state == Idle && w'.runner.paused == |routes[scene]| - 1
  {
  }

  /** A goal that the server rejects leaves the node as it was. */
  lemma RejectionChangesNothing(routes: Routes, w: World)
    ensures Next(routes, w, Answer(false)).runner == w.runner && Next(routes, w, Answer(false)).phase == NoGoal
  {
  }

  /** A pause of a run under way is answered with yes and sends nothing; when the server then cancels, or
      aborts, the run is paused where it stood, and a continue sends the waypoints from there on. */
  lemma PauseSuspends(routes: Routes, w: World, code: ResultCode)
    requires Tiled(routes, w) && w.phase.Active? && w.runner.state == Running && code in {CANCELED, ABORTED}
    ensures Requested(routes, w.runner, Pause).respond && Requested(routes, w.runner, Pause).goal == []
    ensures var pausing := Next(routes, w, Task(Pause));
            var w' := Next(routes, pausing, Result(code));
            && pausing.runner == w.runner.(state := Pausing) && pausing.phase == w.phase && pausing.done == w.done
            && w'.runner.state == Paused && w'.phase == NoGoal
            && w'.done == w.done + w.phase.goal[..Max(w.phase.target, 0)]
            && Requested(routes, w'.runner, Continue).respond
            && Requested(routes, w'.runner, Continue).goal == Route(routes, w.runner)[|w'.done|..]
  {
    var pausing := Next(routes, w, Task(Pause));
    NextKeepsTiling(routes, w, Task(Pause));
    ResultKeepsTiling(routes, pausing, code);
    ContinueResumes(routes, Next(routes, pausing, Result(code)));
  }

  /** A continue with nothing left of the route is answered with yes and sends nothing. */
  lemma ContinueAtTheEnd(routes: Routes, r: Runner)
    requires r.state == Paused && Route(routes, r) != [] && r.paused + 1 >= |Route(routes, r)|
    ensures Requested(routes, r, Continue) == Outcome(r, [], true)
  {
  }

  /** A pause of anything else, a continue of what is not paused and an unknown request are answered with no
      and change nothing. */
  lemma RefusalChangesNothing(routes: Routes, r: Runner, req: Request)
    requires (req == Pause && r.state != Running) || (req == Continue && r.state != Paused) || req == Unknown
    ensures Requested(routes, r, req) == Outcome(r, [], false)
  {
  }

  ghost predicate NoScene(events: seq<Event>) {
    forall e :: e in events ==> !(e.Task? && e.req.Go?)
  }

  lemma NoSceneFront(events: seq<Event>)
    requires NoScene(events) && events != []
    ensures NoScene(events[..|events| - 1])
    ensures var e := events[|events| - 1]; !(e.Task? && e.req.Go?)
  {
    assert events[|events| - 1] in events && forall x :: x in events[..|events| - 1] ==> x in events;
  }

  /** As long as no scene is requested, nothing that was driven is forgotten and the node's count does not
      go back. */
  lemma {:induction false} ProgressNeverDecreases(routes: Routes, w: World, events: seq<Event>)
    requires NoScene(events)
    ensures var w' := After(routes, w, events);
            w.done <= w'.done && w.runner.paused <= w'.runner.paused && w.runner.lastScene == w'.runner.lastScene
    decreases |events|
  {
    hide Requested, NoScene;
    if events != [] {
      var (front, e) := (events[..|events| - 1], events[|events| - 1]);
      NoSceneFront(events);
      ProgressNeverDecreases(routes, w, front);
      OneStepForward(routes, After(routes, w, front), e);
    }
  }

  lemma OneStepForward(routes: Routes, w: World, e: Event)
    requires !(e.Task? && e.req.Go?)
    ensures var w' := Next(routes, w, e);
            w.done <= w'.done && w.runner.paused <= w'.runner.paused && w.runner.lastScene == w'.runner.lastScene
  {
  }

  // ---------------------------------------------------------------------------------------------
  // Requests that cannot be served, and results of unknown code

  /** No goal is out, and a continue would send none. */
  ghost predicate Silent(routes: Routes, w: World) {
    w.phase == NoGoal && (w.runner.state == Paused ==> Route(routes, w.runner) == [])
  }

  /** Only a scene request ends the silence. */
  lemma {:induction false} SilentStays(routes: Routes, w: World, events: seq<Event>)
    requires Silent(routes, w) && NoScene(events) && CanFollow(routes, w, events)
    ensures var w' := After(routes, w, events); Silent(routes, w') && w'.done == w.done
    decreases |events|
  {
    hide Next, Allowed, Silent, NoScene;
    if events != [] {
      var (front, e) := (events[..|events| - 1], events[|events| - 1]);
      NoSceneFront(events);
      SilentStays(routes, w, front);
      SilentStep(routes, After(routes, w, front), e);
    }
  }

  lemma SilentStep(routes: Routes, w: World, e: Event)
    requires Silent(routes, w) && Allowed(w, e) && !(e.Task? && e.req.Go?)
    ensures Silent(routes, Next(routes, w, e)) && Next(routes, w, e).done == w.done
  {
  }

  /** A request for a route that cannot be used is answered with no, but it is not without effect: it
      forgets the progress of the current scene, and an empty route replaces it.  This is exactly when
      the tiling survives it. */
  lemma RequestKeepsTilingIff(routes: Routes, w: World, scene: nat)
    requires Tiled(routes, w) && w.phase == NoGoal
    ensures Tiled(routes, Next(routes, w, Task(Go(scene)))) <==>
            w.runner.state != Paused || if scene in routes then routes[scene] != [] else w.done == []
  {
  }

  /** After some continuation without a scene request, what was driven is no longer the beginning of the
      route. */
  ghost predicate MayRepeat(routes: Routes, w: World) {
    exists more ::
      NoScene(more) && CanFollow(routes, w, more) && !(After(routes, w, more).done <= Route(routes, w.runner))
  }

  /** After a request for an unreadable route completed waypoints may be driven to again exactly if the
      run was paused and something had been driven. */
  lemma UnreadableRequestRepeatsIff(routes: Routes, w: World, scene: nat)
    requires Tiled(routes, w) && w.phase == NoGoal && scene !in routes
    ensures MayRepeat(routes, Next(routes, w, Task(Go(scene)))) <==> w.runner.state == Paused && w.done != []
    ensures !(w.runner.state == Paused && w.done != []) ==>
              forall more :: CanFollow(routes, Next(routes, w, Task(Go(scene))), more) && AllLoad(routes, more) ==>
                               Tiled(routes, After(routes, Next(routes, w, Task(Go(scene))), more))
  {
    hide NoScene, CanFollow, After;
    var w' := Next(routes, w, Task(Go(scene)));
    if w.runner.state == Paused && w.done != [] {
      ContinueRepeats(routes, w');
    } else {
      RequestKeepsTilingIff(routes, w, scene);
      forall more | CanFollow(routes, w', more) && AllLoad(routes, more)
        ensures Tiled(routes, After(routes, w', more))
      {
        AfterIsTiled(routes, w', more);
      }
      forall more | NoScene(more) && CanFollow(routes, w', more)
        ensures After(routes, w', more).done <= Route(routes, w'.runner)
      {
        NoSceneLoads(routes, more);
        ProgressNeverDecreases(routes, w', more);
      }
    }
  }

  lemma NoSceneLoads(routes: Routes, events: seq<Event>)
    requires NoScene(events)
    ensures AllLoad(routes, events)
  {
  }

  /** A paused node that has forgotten its progress sends the whole route. */
  lemma ContinueRepeats(routes: Routes, w: World)
    requires w.runner.state == Paused && w.runner.paused == -1 && w.phase == NoGoal
    requires w.done != [] && Route(routes, w.runner) != []
    ensures MayRepeat(routes, w)
  {
    hide CanFollow, After;
    var route := Route(routes, w.runner);
    var sent := Next(routes, w, Task(Continue));
    var moving := Next(routes, sent, Answer(true));
    var e, a, r := Task(Continue), Answer(true), Result(SUCCEEDED);
    Following(routes, w, [], w, e);
    Following(routes, w, [] + [e], sent, a);
    Following(routes, w, [] + [e] + [a], moving, r);
    var more := [] + [e] + [a] + [r];
    assert NoScene(more);
    assert After(routes, w, more).done == w.done + route;
  }

  lemma Following(routes: Routes, w: World, events: seq<Event>, now: World, e: Event)
    requires events == [] ==> now == w
    requires events != [] ==> CanFollow(routes, w, events) && After(routes, w, events) == now
    requires Allowed(now, e)
    ensures CanFollow(routes, w, events + [e]) && After(routes, w, events + [e]) == Next(routes, now, e)
  {
    hide Next, Allowed;
    assert (events + [e])[..|events|] == events;
  }

  /** After a request for an empty route nothing is driven without a new scene; a run is lost by it exactly
      if it was paused. */
  lemma EmptyRequestStrandsIff(routes: Routes, w: World, scene: nat)
    requires Tiled(routes, w) && w.phase == NoGoal && scene in routes && routes[scene] == []
    ensures var w' := Next(routes, w, Task(Go(scene)));
            && (forall more :: NoScene(more) && CanFollow(routes, w', more) ==> After(routes, w', more).done == [])
            && (Requested(routes, w.runner, Continue).goal != [] <==> w.runner.state == Paused)
  {
    hide Next, NoScene;
    var w' := Next(routes, w, Task(Go(scene)));
    EmptySilences(routes, w, scene);
    forall more | NoScene(more) && CanFollow(routes, w', more)
      ensures After(routes, w', more).done == []
    {
      SilentStays(routes, w', more);
    }
    if w.runner.state == Paused { ContinueResumes(routes, w); }
  }

  lemma EmptySilences(routes: Routes, w: World, scene: nat)
    requires w.phase == NoGoal && scene in routes && routes[scene] == []
    ensures var w' := Next(routes, w, Task(Go(scene))); Silent(routes, w') && w'.done == []
  {
  }

  /** After a result of unknown code nothing is sent and nothing driven until a scene is requested. */
  lemma UnknownResultSilences(routes: Routes, w: World, more: seq<Event>)
    requires Tiled(routes, w) && w.phase.Active?
    requires var w' := Next(routes, w, Result(UNKNOWN)); NoScene(more) && CanFollow(routes, w', more)
    ensures var w' := Next(routes, w, Result(UNKNOWN));
            After(routes, w', more).phase == NoGoal && After(routes, w', more).done == w'.done
  {
    var w' := Next(routes, w, Result(UNKNOWN));
    hide NoScene, CanFollow, After;
    SilentStays(routes, w', more);
  }

  /** A result of unknown code is not counted: the node knows how far the run is exactly if the server had
      not yet reached the first waypoint of its goal. */
  lemma UnknownResultLosesIff(routes: Routes, w: World)
    requires Tiled(routes, w) && w.phase.Active?
    ensures var w' := Next(routes, w, Result(UNKNOWN));
            w'.runner.paused == |w'.done| - 1 <==> w.phase.target <= 0
  {
  }

  lemma RunExtends(routes: Routes, events: seq<Event>, e: Event, w: World)
    requires IsRun(routes, events) && Run(routes, events) == w && Allowed(w, e)
    ensures IsRun(routes, events + [e]) && Run(routes, events + [e]) == Next(routes, w, e)
  {
    Following(routes, START, events, w, e);
  }

  /** A goal of two waypoints: the first is reached, then the goal is cancelled. */
  lemma FirstLeg(
    routes: Routes, events: seq<Event>, w: World, e: Event, state: RunState, goal: seq<Pose>, done: seq<Pose>)
    requires IsRun(routes, events) && Run(routes, events) == w && Allowed(w, e) && |goal| == 2
    requires Next(routes, w, e) == World(Runner(state, -1, Some(1), 0, -1, 2, false), Waiting(goal), done)
    ensures var more := events + [e] + [Answer(true)] + [Feedback(1)] + [Result(CANCELED)];
            && IsRun(routes, more)
            && Run(routes, more) == World(Runner(Paused, 0, Some(1), 0, 1, 2, false), NoGoal, done + [goal[0]])
  {
    hide IsRun, Run;
    var sent := Runner(state, -1, Some(1), 0, -1, 2, false);
    RunExtends(routes, events, e, w);
    RunExtends(routes, events + [e], Answer(true), World(sent, Waiting(goal), done));
    var moving := sent.(hasGoal := true, state := Running);
    RunExtends(routes, events + [e] + [Answer(true)], Feedback(1), World(moving, Active(goal, -1), done));
    RunExtends(routes, events + [e] + [Answer(true)] + [Feedback(1)], Result(CANCELED),
               World(moving.(local := 1), Active(goal, 1), done));
    assert goal[..1] == [goal[0]];
  }

  /** The loss is real: after a request for an unreadable route, a continued run drives to a waypoint
      that it had completed. */
  lemma FailedRequestRepeats(a: Pose, b: Pose)
    ensures exists routes, events :: IsRun(routes, events) && Run(routes, events).done == [a, a]
  {
    hide IsRun, Run;
    var routes: Routes := map[1 := [a, b]];
    NoEvents(routes);
    FirstLeg(routes, [], START, Task(Go(1)), Idle, [a, b], []);
    var half := [] + [Task(Go(1))] + [Answer(true)] + [Feedback(1)] + [Result(CANCELED)];
    var w := World(Runner(Paused, 0, Some(1), 0, 1, 2, false), NoGoal, [a]);
    assert Run(routes, half) == w;
    RunExtends(routes, half, Task(Go(2)), w);
    FirstLeg(routes, half + [Task(Go(2))], w.(runner := w.runner.(paused := -1)), Task(Continue), Paused, [a, b], [a]);
  }

  lemma NoEvents(routes: Routes)
    ensures IsRun(routes, []) && Run(routes, []) == START
  {
  }

  // ---------------------------------------------------------------------------------------------
  // The node

  class WaypointRunner {
    const routes: Routes
    var state: RunState
    var paused: int
    var lastScene: Option<nat>
    var base: int
    var local: int
    var goalSize: int
    var hasGoal: bool

    function Node(): Runner
      reads this
    {
      Runner(state, paused, lastScene, base, local, goalSize, hasGoal)
    }

    constructor (routes: Routes)
      ensures this.routes == routes && Node() == FRESH
    {
      this.routes := routes;
      state, paused, lastScene := Idle, -1, None;
      base, local, goalSize, hasGoal := 0, -1, 0, false;
    }

    /** `goal` is what goes to the server; an empty one is not sent. */
    method SendWaypointsGoal(poses: seq<Pose>, start: int) returns (goal: seq<Pose>)
      modifies this
      ensures Node() == Sent(old(Node()), poses, start) && goal == poses
    {
      if poses == [] {
        return [];
      }
      base, local := start, -1;
      goalSize := |poses|;
      goal := poses;
    }

    method SetTask(req: Request, ready: bool, debounced: bool) returns (goal: seq<Pose>, respond: bool)
      modifies this
      ensures !ready || debounced ==> Node() == old(Node()) && goal == [] && !respond
      ensures ready && !debounced ==> Outcome(Node(), goal, respond) == Requested(routes, old(Node()), req)
    {
      if !ready || debounced {
        return [], false;
      }
      match req
      case Go(scene) =>
        var ok := scene in routes;
        if ok {
          lastScene := Some(scene);
        }
        paused := -1;
        if !ok || routes[scene] == [] {
          return [], false;
        }
        hasGoal := false;
        goal := SendWaypointsGoal(routes[scene], 0);
        respond := true;
      case Pause =>
        if state != Running || !hasGoal {
          return [], false;
        }
        state := Pausing;
        return [], true;
      case Continue =>
        if state != Paused || lastScene == None || lastScene.value !in routes || routes[lastScene.value] == [] {
          return [], false;
        }
        var resume := Max(0, paused + 1);
        var remain := SliceFrom(routes[lastScene.value], resume);
        if remain == [] {
          return [], true;
        }
        hasGoal := false;
        goal := SendWaypointsGoal(remain, resume);
        respond := true;
      case Unknown =>
        return [], false;
    }

    method GoalResponseCallback(accepted: bool)
      modifies this
      ensures Node() == Answered(old(Node()), accepted)
    {
      if accepted {
        hasGoal := true;
        state := Running;
      }
    }

    method FeedbackCallback(target: int)
      modifies this
      ensures Node() == old(Node()).(local := target)
    {
      local := target;
    }

    method ResultCallback(code: ResultCode)
      modifies this
      ensures Node() == Finished(old(Node()), code)
    {
      var last := if code == SUCCEEDED then base + Max(goalSize - 1, 0) else base + Max(local - 1, -1);
      match code
      case SUCCEEDED =>
        paused := Max(paused, last);
        state := Idle;
      case UNKNOWN =>
      case _ =>
        paused := Max(paused, last);
        hasGoal := false;
        state := Paused;
    }
  }
}
