/** FlockUnit: the per-unit steering state machine. It switches between
    Idle, Move, Waypoint and Wander, throttles its obstruction checks and
    force updates with timers, asks the pathing service for a route when the
    straight line to its goal is blocked, and walks that route waypoint by
    waypoint. Geometry comes in as inputs (positions, lengths, sphere-cast
    hits); the engine clock and the random wander direction are parameters. */
module Flock {
  import opened Basics
  import opened FlockNeighbours

  datatype State = Idle | Move | Waypoint | Wander

  /** Identity of an engine Transform, the thing a unit can be sent to. */
  type Transform = nat

  /** The unit's tuning values, fixed while it runs. */
  datatype Settings = Settings(
    pathRadius: real,
    separateDistance: real,
    avoidDistance: real,
    updateDelay: real,
    seekDelay: real,
    catchUpMinDistance: real,
    wanderDelay: real)

  /** A call to the pathing service: route from `start` to `dest`. */
  datatype PathRequest = PathRequest(start: Vec3, dest: Vec3)

  /** Which weight the move-to-goal term uses. */
  datatype Factor = CatchUp | MoveTo

  /** The move-to-goal term of one force update: none, or steering along the
      goal direction (`away`: the direction is reversed, backing off). */
  datatype Goal = NoGoal | Toward(factor: Factor, away: bool)

  /** The terms one force update is built from: the neighbour counts that
      feed separation, avoidance and alignment/cohesion, the goal term, and
      whether the waypoint and wander terms are added. */
  datatype Steering = Steering(crowd: Tally, goal: Goal, path: bool, wander: bool)

  /** The state a unit falls back to when it stops following a path. */
  function Fallback(target: Option<Transform>, wanderEnabled: bool): (s: State)
    ensures s != Waypoint
    ensures s == Move <==> target.Some?
    ensures s == Wander <==> target.None? && wanderEnabled
    ensures s == Idle <==> target.None? && !wanderEnabled
  {
    if target.None? then (if wanderEnabled then Wander else Idle) else Move
  }

  /** The obstruction test: a sphere cast along the goal direction over
      `dist`, whose hit is the input `castHit`. No cast is made for a
      non-positive distance. */
  function CheckTargetBlock(dist: real, castHit: bool): (blocked: bool)
    ensures dist <= 0.0 ==> !blocked
    ensures blocked ==> castHit
    ensures dist > 0.0 && castHit ==> blocked
  {
    dist > 0.0 && castHit
  }

  /** The catch-up rule for the move-to-goal weight. */
  function GoalFactor(catchUpEnabled: bool, hasSensor: bool, numFollow: nat, dist: real,
                      catchUpMinDistance: real): (f: Factor)
    ensures f == CatchUp ==> catchUpEnabled && dist > catchUpMinDistance
    ensures hasSensor && numFollow > 0 ==> f == MoveTo
    ensures catchUpEnabled && numFollow == 0 && dist > catchUpMinDistance ==> f == CatchUp
  {
    if catchUpEnabled && (!hasSensor || numFollow == 0) && dist > catchUpMinDistance
    then CatchUp else MoveTo
  }

  /** The goal direction: the offset divided by its length, or by minus its
      length when the unit is closer than `minDistance`. */
  function GoalDir(offset: Vec2, dist: real, minDistance: real): Vec2
    requires dist > 0.0
  {
    Scale(offset, 1.0 / (if dist < minDistance then -dist else dist))
  }

  /** The goal direction is a unit vector along the offset, pointing at the
      goal when the unit is far enough and away from it when too close. */
  lemma GoalDirSense(offset: Vec2, dist: real, minDistance: real)
    requires IsLength(dist, offset) && dist > 0.0
    ensures Dot(GoalDir(offset, dist, minDistance), offset) == if dist < minDistance then -dist else dist
    ensures SqrMagnitude(GoalDir(offset, dist, minDistance)) == 1.0
  {
  }

  class FlockUnit {
    // Tuning and collaborators.
    var settings: Settings
    var filter: Filter
    /** Whether the proximity sensor reference is set. */
    var hasSensor: bool
    var sensorEnabled: bool
    /** The sensor's current snapshot; null entries are destroyed units. */
    var items: seq<Option<Neighbour>>
    var enabled: bool
    var groupMoveEnabled: bool
    var catchUpEnabled: bool
    var minMoveTargetDistance: real
    var wanderEnabled: bool

    // Steering state.
    var state: State
    var moveTarget: Option<Transform>
    var moveTargetDist: real
    /** Last goal or wander direction; None is the NaN vector a zero-length
        offset produces. */
    var moveTargetDir: Option<Vec2>
    var curUpdateDelay: real
    var curSeekDelay: real
    var wanderStartTime: real
    var seekPath: Option<seq<Vec3>>
    var seekCurPath: int
    var seekStarted: bool
    var wallCheck: bool
    /** Every route asked of the pathing service, oldest first. */
    var requests: seq<PathRequest>

    /** The path cursor always points into the stored path, and the unit is
        only in Waypoint while it holds a path. */
    ghost predicate Valid()
      reads this
    {
      && (seekPath.Some? ==> |seekPath.value| > 0 && 0 <= seekCurPath < |seekPath.value|)
      && (state == Waypoint ==> seekPath.Some?)
      && seekCurPath >= -1
    }

    /** The neighbour counts the sensor's snapshot yields (none without a
        sensor). */
    ghost function Sensed(): Tally
      reads this
    {
      if hasSensor then TallyOf(items, filter, settings.separateDistance, settings.avoidDistance)
      else NoNeighbours
    }

    /** The new state is `to`; entering Wander picks the wander direction and
        restarts the wander timer, any other state leaves both alone. */
    twostate predicate Entered(to: State, now: real, rnd: Vec2)
      reads this
    {
      && state == to
      && (if to == Wander then wanderStartTime == now && moveTargetDir == Some(rnd)
          else wanderStartTime == old(wanderStartTime) && moveTargetDir == old(moveTargetDir))
    }

    /** The effect of SeekPathStop: no path, no request in flight, timer and
        cursor reset, and the fallback state for the current target. */
    twostate predicate SeekStopped(now: real, rnd: Vec2)
      reads this
    {
      && seekPath.None? && seekCurPath == -1 && !seekStarted && curSeekDelay == 0.0
      && Entered(Fallback(moveTarget, wanderEnabled), now, rnd)
    }

    /** Nothing the seek logic owns has changed: route, cursor, request
        flag, timer, state, wander timer and direction. */
    twostate predicate SeekKept()
      reads this
    {
      && seekPath == old(seekPath) && seekCurPath == old(seekCurPath) && seekStarted == old(seekStarted)
      && curSeekDelay == old(curSeekDelay) && state == old(state)
      && wanderStartTime == old(wanderStartTime) && moveTargetDir == old(moveTargetDir)
    }

    /** The seek timer runs while there is a target and no request is
        waiting for its answer. */
    ghost predicate SeekTimerRuns()
      reads this
    {
      moveTarget.Some? && (!seekStarted || seekPath.Some?)
    }

    /** The unit stands inside the path radius of its current waypoint. */
    ghost predicate AtWaypoint(pos: Vec3)
      reads this
      requires Valid() && state == Waypoint
    {
      SqrMagnitude(Offset(pos, seekPath.value[seekCurPath])) < settings.pathRadius * settings.pathRadius
    }

    constructor (settings: Settings, filter: Filter, hasSensor: bool)
      ensures Valid()
      ensures this.settings == settings && this.filter == filter && this.hasSensor == hasSensor
      ensures sensorEnabled && items == [] && enabled
      ensures groupMoveEnabled && catchUpEnabled && minMoveTargetDistance == 0.0 && !wanderEnabled
      ensures state == Move && moveTarget.None? && moveTargetDist == 0.0
      ensures moveTargetDir == Some(Vec2(1.0, 0.0))
      ensures curUpdateDelay == 0.0 && curSeekDelay == 0.0 && wanderStartTime == 0.0
      ensures seekPath.None? && seekCurPath == -1 && !seekStarted && !wallCheck && requests == []
    {
      this.settings := settings;
      this.filter := filter;
      this.hasSensor := hasSensor;
      sensorEnabled := true;
      items := [];
      enabled := true;
      groupMoveEnabled := true;
      catchUpEnabled := true;
      minMoveTargetDistance := 0.0;
      wanderEnabled := false;
      state := Move;
      moveTarget := None;
      moveTargetDist := 0.0;
      moveTargetDir := Some(Vec2(1.0, 0.0));
      curUpdateDelay := 0.0;
      curSeekDelay := 0.0;
      wanderStartTime := 0.0;
      seekPath := None;
      seekCurPath := -1;
      seekStarted := false;
      wallCheck := false;
      requests := [];
    }

    /** The `wanderEnabled` setter: an Idle unit starts wandering at once.
        It writes the state directly, so the wander direction and timer are
        not refreshed. */
    method SetWanderEnabled(value: bool)
      requires Valid()
      modifies this`wanderEnabled, this`state
      ensures Valid()
      ensures wanderEnabled == value
      ensures state == if value && old(state) == Idle then Wander else old(state)
    {
      wanderEnabled := value;
      if wanderEnabled && state == Idle {
        state := Wander;
      }
    }

    /** The `moveTarget` setter: a different target drops any path or
        pending request; assigning the current target does nothing. */
    method SetMoveTarget(value: Option<Transform>, now: real, rnd: Vec2)
      requires Valid()
      modifies this`moveTarget, this`seekPath, this`curSeekDelay, this`seekStarted, this`seekCurPath,
               this`state, this`wanderStartTime, this`moveTargetDir
      ensures Valid()
      ensures moveTarget == value
      ensures value == old(moveTarget) ==> unchanged(this)
      ensures value != old(moveTarget) ==> SeekStopped(now, rnd)
    {
      if moveTarget != value {
        moveTarget := value;
        SeekPathStop(now, rnd);
      }
    }

    /** Stop: no target and no minimum distance. */
    method Stop(now: real, rnd: Vec2)
      requires Valid()
      modifies this`moveTarget, this`seekPath, this`curSeekDelay, this`seekStarted, this`seekCurPath,
               this`state, this`wanderStartTime, this`moveTargetDir, this`minMoveTargetDistance
      ensures Valid()
      ensures moveTarget.None? && minMoveTargetDistance == 0.0
      ensures old(moveTarget).Some? ==> SeekStopped(now, rnd) && state != Move
      ensures old(moveTarget).None? ==> SeekKept()
    {
      SetMoveTarget(None, now, rnd);
      minMoveTargetDistance := 0.0;
    }

    /** ResetData, run when a pooled unit is reused. */
    method ResetData(now: real, rnd: Vec2)
      requires Valid()
      modifies this`enabled, this`wanderEnabled, this`groupMoveEnabled, this`catchUpEnabled,
               this`minMoveTargetDistance, this`sensorEnabled, this`items,
               this`moveTarget, this`seekPath, this`curSeekDelay, this`seekStarted, this`seekCurPath,
               this`state, this`wanderStartTime, this`moveTargetDir
      ensures Valid()
      ensures enabled && !wanderEnabled && groupMoveEnabled && catchUpEnabled
      ensures minMoveTargetDistance == 0.0 && moveTarget.None?
      ensures hasSensor ==> sensorEnabled && items == []
      ensures !hasSensor ==> sensorEnabled == old(sensorEnabled) && items == old(items)
      ensures old(moveTarget).Some? ==> SeekStopped(now, rnd) && state == Idle
      // Without a target nothing resets the state: a wandering unit keeps
      // wandering although wandering is now disabled.
      ensures old(moveTarget).None? ==> SeekKept()
    {
      enabled := true;
      SetWanderEnabled(false);
      groupMoveEnabled := true;
      catchUpEnabled := true;
      minMoveTargetDistance := 0.0;
      SetMoveTarget(None, now, rnd);
      if hasSensor {
        sensorEnabled := true;
        items := [];
      }
    }

    method WanderRefresh(now: real, rnd: Vec2)
      modifies this`wanderStartTime, this`moveTargetDir
      ensures wanderStartTime == now && moveTargetDir == Some(rnd)
    {
      wanderStartTime := now;
      moveTargetDir := Some(rnd);
    }

    method ApplyState(toState: State, now: real, rnd: Vec2)
      modifies this`state, this`wanderStartTime, this`moveTargetDir
      ensures Entered(toState, now, rnd)
    {
      state := toState;
      if toState == Wander {
        WanderRefresh(now, rnd);
      }
    }

    /** Asks the pathing service for a route; with no active service the
        request is silently dropped. The unit idles while it waits. */
    method SeekPathStart(start: Vec3, dest: Vec3, pathingActive: bool)
      requires Valid()
      modifies this`requests, this`seekPath, this`curSeekDelay, this`seekStarted, this`state
      ensures Valid()
      ensures !pathingActive ==> unchanged(this)
      ensures pathingActive ==>
        && requests == old(requests) + [PathRequest(start, dest)]
        && seekPath.None? && curSeekDelay == 0.0 && seekStarted && state == Idle
    {
      if pathingActive {
        requests := requests + [PathRequest(start, dest)];
        seekPath := None;
        curSeekDelay := 0.0;
        seekStarted := true;
        state := Idle;
      }
    }

    /** Drops the path and any pending request and falls back to Move,
        Wander or Idle. */
    method SeekPathStop(now: real, rnd: Vec2)
      modifies this`seekPath, this`curSeekDelay, this`seekStarted, this`seekCurPath,
               this`state, this`wanderStartTime, this`moveTargetDir
      ensures Valid()
      ensures SeekStopped(now, rnd)
    {
      seekPath := None;
      curSeekDelay := 0.0;
      seekStarted := false;
      seekCurPath := -1;
      ApplyState(Fallback(moveTarget, wanderEnabled), now, rnd);
    }

    /** The pathing service's answer. It is taken whether or not a request
        is pending and whatever the target now is: a late answer for an old
        target still puts the unit on that route. */
    method OnSeekPathComplete(p: Option<seq<Vec3>>, now: real, rnd: Vec2)
      requires Valid()
      modifies this`seekPath, this`curSeekDelay, this`seekStarted, this`seekCurPath,
               this`state, this`wanderStartTime, this`moveTargetDir
      ensures Valid()
      ensures p.None? || |p.value| == 0 ==> SeekStopped(now, rnd)
      ensures p.Some? && |p.value| > 0 ==>
        && seekPath == p && seekCurPath == 0 && state == Waypoint
        && seekStarted == old(seekStarted) && curSeekDelay == old(curSeekDelay)
        && wanderStartTime == old(wanderStartTime) && moveTargetDir == old(moveTargetDir)
    {
      if p.None? || |p.value| == 0 {
        SeekPathStop(now, rnd);
      } else {
        seekPath := p;
        seekCurPath := 0;
        ApplyState(Waypoint, now, rnd);
      }
    }

    /** The frame tick: the throttled obstruction check and the wall probe.
        `targetPos` is the target's position and `dist` the length of the
        plane offset to it; `castHit` is what the obstruction sphere cast
        reports and `wallHit` what the wall probe reports. */
    method Update(pos: Vec3, targetPos: Vec3, dist: real, dt: real,
                  castHit: bool, pathingActive: bool, wallHit: bool)
      requires Valid()
      requires IsLength(dist, Offset(pos, targetPos))
      modifies this`curSeekDelay, this`moveTargetDist, this`moveTargetDir, this`seekPath,
               this`seekStarted, this`seekCurPath, this`state, this`requests, this`wallCheck,
               this`wanderStartTime
      ensures Valid()
      ensures wallCheck == wallHit && wanderStartTime == old(wanderStartTime)
      // A pending request blocks new ones, and at most one is made per frame.
      ensures old(seekStarted) ==> requests == old(requests)
      ensures requests == old(requests) || |requests| == |old(requests)| + 1
      ensures seekCurPath == old(seekCurPath) || seekCurPath == -1
      // Nothing is checked until the accumulated time reaches seekDelay.
      ensures !old(SeekTimerRuns()) || old(curSeekDelay) + dt < settings.seekDelay ==>
        && seekPath == old(seekPath) && seekStarted == old(seekStarted)
        && seekCurPath == old(seekCurPath) && state == old(state) && requests == old(requests)
        && moveTargetDist == old(moveTargetDist) && moveTargetDir == old(moveTargetDir)
        && curSeekDelay == (if old(SeekTimerRuns()) then old(curSeekDelay) + dt else old(curSeekDelay))
      ensures old(SeekTimerRuns()) && old(curSeekDelay) + dt >= settings.seekDelay ==>
        && moveTargetDist == dist
        && moveTargetDir == (if dist > 0.0 then Some(Scale(Offset(pos, targetPos), 1.0 / dist)) else None)
      // Following a path: it is dropped when the goal has left the route's
      // end or the straight line is clear again.
      ensures old(SeekTimerRuns()) && old(curSeekDelay) + dt >= settings.seekDelay && old(seekStarted) ==>
        requests == old(requests) &&
        if targetPos != old(seekPath).value[|old(seekPath).value| - 1]
           || !CheckTargetBlock(dist - minMoveTargetDistance, castHit)
        then seekPath.None? && seekCurPath == -1 && !seekStarted && curSeekDelay == 0.0 && state == Move
        else && curSeekDelay == 0.0 && seekPath == old(seekPath) && seekStarted
             && seekCurPath == old(seekCurPath) && state == old(state)
      // Heading straight: a blocked line asks for a route.
      ensures old(SeekTimerRuns()) && old(curSeekDelay) + dt >= settings.seekDelay && !old(seekStarted) ==>
        && seekCurPath == old(seekCurPath)
        && if CheckTargetBlock(dist - minMoveTargetDistance, castHit) && pathingActive
           then && requests == old(requests) + [PathRequest(pos, targetPos)]
                && seekPath.None? && curSeekDelay == 0.0 && seekStarted && state == Idle
           else && requests == old(requests) && seekPath == old(seekPath)
                && !seekStarted && state == old(state)
                && curSeekDelay == (if CheckTargetBlock(dist - minMoveTargetDistance, castHit)
                                    then old(curSeekDelay) + dt else 0.0)
    {
      if moveTarget.Some? {
        if seekStarted {
          if seekPath.Some? {
            curSeekDelay := curSeekDelay + dt;
            if curSeekDelay >= settings.seekDelay {
              var offset := Offset(pos, targetPos);
              moveTargetDir := if dist > 0.0 then Some(Scale(offset, 1.0 / dist)) else None;
              moveTargetDist := dist;
              var path := seekPath.value;
              if targetPos != path[|path| - 1]
                 || !CheckTargetBlock(moveTargetDist - minMoveTargetDistance, castHit) {
                // The target is set, so the fallback is Move and neither the
                // clock nor a random direction is consulted.
                SeekPathStop(wanderStartTime, Vec2(0.0, 0.0));
              } else {
                curSeekDelay := 0.0;
              }
            }
          }
        } else {
          curSeekDelay := curSeekDelay + dt;
          if curSeekDelay >= settings.seekDelay {
            var offset := Offset(pos, targetPos);
            moveTargetDir := if dist > 0.0 then Some(Scale(offset, 1.0 / dist)) else None;
            moveTargetDist := dist;
            if CheckTargetBlock(moveTargetDist - minMoveTargetDistance, castHit) {
              SeekPathStart(pos, targetPos, pathingActive);
            } else {
              curSeekDelay := 0.0;
            }
          }
        }
      }
      wallCheck := wallHit;
    }

    /** Separation and avoidance counts, as ComputeSeparate gathers them. */
    method ComputeSeparate() returns (crowd: Tally)
      ensures crowd == SeparateOnly(Sensed())
    {
      crowd := NoNeighbours;
      if hasSensor && |items| > 0 {
        var numSeparate, numAvoid := 0, 0;
        var i := 0;
        while i < |items|
          invariant 0 <= i <= |items|
          invariant numSeparate == Count(items[..i], SeparateTerm, filter, settings.separateDistance, settings.avoidDistance)
          invariant numAvoid == Count(items[..i], AvoidTerm, filter, settings.separateDistance, settings.avoidDistance)
        {
          var unit := items[i];
          if unit.Some? {
            if filter.checkAvoid(unit.value.id) {
              if unit.value.dist < settings.avoidDistance {
                numAvoid := numAvoid + 1;
              }
            } else if filter.id == unit.value.id {
              if unit.value.dist < settings.separateDistance {
                numSeparate := numSeparate + 1;
              }
            }
          }
          assert items[..i + 1][..i] == items[..i];
          i := i + 1;
        }
        assert items[..|items|] == items;
        crowd := Tally(numSeparate, numAvoid, 0);
      }
    }

    /** Separation, avoidance and follow counts, as ComputeMovement gathers
        them. */
    method ComputeMovement() returns (crowd: Tally)
      ensures crowd == Sensed()
    {
      crowd := NoNeighbours;
      if hasSensor && |items| > 0 {
        var numSeparate, numAvoid, numFollow := 0, 0, 0;
        var i := 0;
        while i < |items|
          invariant 0 <= i <= |items|
          invariant numSeparate == Count(items[..i], SeparateTerm, filter, settings.separateDistance, settings.avoidDistance)
          invariant numAvoid == Count(items[..i], AvoidTerm, filter, settings.separateDistance, settings.avoidDistance)
          invariant numFollow == Count(items[..i], FollowTerm, filter, settings.separateDistance, settings.avoidDistance)
        {
          var unit := items[i];
          if unit.Some? {
            if filter.checkAvoid(unit.value.id) {
              if unit.value.dist < settings.avoidDistance {
                numAvoid := numAvoid + 1;
              }
            } else if filter.id == unit.value.id {
              if unit.value.dist < settings.separateDistance {
                numSeparate := numSeparate + 1;
              }
              if unit.value.isLegit && unit.value.hasBody && !unit.value.isKinematic {
                numFollow := numFollow + 1;
              }
            }
          }
          assert items[..i + 1][..i] == items[..i];
          i := i + 1;
        }
        assert items[..|items|] == items;
        crowd := Tally(numSeparate, numAvoid, numFollow);
      }
    }

    /** The Waypoint part of the physics tick. */
    method WaypointTick(pos: Vec3, dt: real, now: real, rnd: Vec2) returns (force: Option<Steering>)
      requires Valid() && state == Waypoint
      modifies this`curUpdateDelay, this`seekPath, this`curSeekDelay, this`seekStarted, this`seekCurPath,
               this`state, this`wanderStartTime, this`moveTargetDir
      ensures Valid()
      ensures seekCurPath == -1 || seekCurPath >= old(seekCurPath)
      ensures old(AtWaypoint(pos)) ==>
        && force.None? && curUpdateDelay == old(curUpdateDelay)
        && if old(seekCurPath) + 1 == |old(seekPath).value|
           then SeekStopped(now, rnd) && state != Waypoint
           else && seekCurPath == old(seekCurPath) + 1 && state == Waypoint
                && seekPath == old(seekPath) && seekStarted == old(seekStarted)
                && curSeekDelay == old(curSeekDelay)
                && wanderStartTime == old(wanderStartTime) && moveTargetDir == old(moveTargetDir)
      ensures !old(AtWaypoint(pos)) ==>
        && state == Waypoint && seekPath == old(seekPath) && seekCurPath == old(seekCurPath)
        && seekStarted == old(seekStarted) && curSeekDelay == old(curSeekDelay)
        && wanderStartTime == old(wanderStartTime) && moveTargetDir == old(moveTargetDir)
        && if old(curUpdateDelay) + dt >= settings.updateDelay
           then curUpdateDelay == 0.0 && force == Some(Steering(SeparateOnly(Sensed()), NoGoal, true, false))
           else curUpdateDelay == old(curUpdateDelay) + dt && force.None?
    {
      var path := seekPath.value;
      if SqrMagnitude(Offset(pos, path[seekCurPath])) < settings.pathRadius * settings.pathRadius {
        var nextPath := seekCurPath + 1;
        if nextPath == |path| {
          SeekPathStop(now, rnd);
        } else {
          seekCurPath := nextPath;
        }
        force := None;
      } else {
        curUpdateDelay := curUpdateDelay + dt;
        if curUpdateDelay >= settings.updateDelay {
          curUpdateDelay := 0.0;
          var crowd := ComputeSeparate();
          force := Some(Steering(crowd, NoGoal, true, false));
        } else {
          force := None;
        }
      }
    }

    /** The Move force update: fall back without a target, otherwise group
        or plain separation plus the goal term. */
    method MoveTick(pos: Vec3, targetPos: Vec3, dist: real, now: real, rnd: Vec2) returns (force: Steering)
      requires Valid() && state == Move
      requires IsLength(dist, Offset(pos, targetPos))
      modifies this`state, this`wanderStartTime, this`moveTargetDir, this`moveTargetDist
      ensures Valid()
      ensures moveTarget.None? ==>
        && Entered(Fallback(moveTarget, wanderEnabled), now, rnd)
        && force == Steering(NoNeighbours, NoGoal, false, false)
        && moveTargetDist == old(moveTargetDist)
      ensures moveTarget.Some? ==>
        && state == Move && moveTargetDist == dist && wanderStartTime == old(wanderStartTime)
        && force.crowd == (if groupMoveEnabled then Sensed() else SeparateOnly(Sensed()))
        && !force.path && !force.wander
        && (dist > 0.0 ==>
              && force.goal == Toward(GoalFactor(catchUpEnabled, hasSensor, force.crowd.numFollow,
                                                 dist, settings.catchUpMinDistance),
                                      dist < minMoveTargetDistance)
              && moveTargetDir == Some(GoalDir(Offset(pos, targetPos), dist, minMoveTargetDistance)))
        && (dist == 0.0 ==> force.goal == NoGoal && moveTargetDir == old(moveTargetDir))
    {
      if moveTarget.None? {
        ApplyState(Fallback(moveTarget, wanderEnabled), now, rnd);
        force := Steering(NoNeighbours, NoGoal, false, false);
      } else {
        moveTargetDist := dist;
        var crowd;
        if groupMoveEnabled {
          crowd := ComputeMovement();
        } else {
          crowd := ComputeSeparate();
        }
        var goal := NoGoal;
        if moveTargetDist > 0.0 {
          var factor := GoalFactor(catchUpEnabled, hasSensor, crowd.numFollow,
                                   moveTargetDist, settings.catchUpMinDistance);
          moveTargetDir := Some(GoalDir(Offset(pos, targetPos), moveTargetDist, minMoveTargetDistance));
          goal := Toward(factor, moveTargetDist < minMoveTargetDistance);
        }
        force := Steering(crowd, goal, false, false);
      }
    }

    /** The physics tick: waypoint advance, the throttled force update of the
        current state, and the wall force. `targetPos`/`dist` are as for
        Update; `now` is the fixed clock and `rnd` the random direction a
        wander refresh would pick. Returns the terms of the state force when
        one is applied this tick, and whether the wall force is applied. */
    method FixedUpdate(pos: Vec3, targetPos: Vec3, dist: real, dt: real, now: real, rnd: Vec2)
      returns (force: Option<Steering>, wall: bool)
      requires Valid()
      requires IsLength(dist, Offset(pos, targetPos))
      modifies this`curUpdateDelay, this`seekPath, this`curSeekDelay, this`seekStarted, this`seekCurPath,
               this`state, this`wanderStartTime, this`moveTargetDir, this`moveTargetDist
      ensures Valid()
      ensures wall == wallCheck
      // The cursor only moves forward, or is reset with the path.
      ensures seekCurPath == -1 || seekCurPath >= old(seekCurPath)
      // Waypoint reached: advance, or leave Waypoint after the last one.
      ensures old(state) == Waypoint && old(AtWaypoint(pos)) ==>
        && force.None? && curUpdateDelay == old(curUpdateDelay)
        && moveTargetDist == old(moveTargetDist)
        && if old(seekCurPath) + 1 == |old(seekPath).value|
           then SeekStopped(now, rnd) && state != Waypoint
           else && seekCurPath == old(seekCurPath) + 1 && state == Waypoint
                && seekPath == old(seekPath) && seekStarted == old(seekStarted)
                && curSeekDelay == old(curSeekDelay)
                && wanderStartTime == old(wanderStartTime) && moveTargetDir == old(moveTargetDir)
      // Waypoint not reached: steer along the path with separation.
      ensures old(state) == Waypoint && !old(AtWaypoint(pos)) ==>
        && state == Waypoint && seekPath == old(seekPath) && seekCurPath == old(seekCurPath)
        && seekStarted == old(seekStarted) && curSeekDelay == old(curSeekDelay)
        && wanderStartTime == old(wanderStartTime) && moveTargetDir == old(moveTargetDir)
        && moveTargetDist == old(moveTargetDist)
        && if old(curUpdateDelay) + dt >= settings.updateDelay
           then curUpdateDelay == 0.0 && force == Some(Steering(SeparateOnly(Sensed()), NoGoal, true, false))
           else curUpdateDelay == old(curUpdateDelay) + dt && force.None?
      ensures old(state) != Waypoint ==>
        && seekPath == old(seekPath) && seekCurPath == old(seekCurPath)
        && seekStarted == old(seekStarted) && curSeekDelay == old(curSeekDelay)
      // Between force updates nothing else happens.
      ensures old(state) != Waypoint && old(curUpdateDelay) + dt < settings.updateDelay ==>
        && force.None? && curUpdateDelay == old(curUpdateDelay) + dt && state == old(state)
        && wanderStartTime == old(wanderStartTime) && moveTargetDir == old(moveTargetDir)
        && moveTargetDist == old(moveTargetDist)
      ensures old(state) != Waypoint && old(curUpdateDelay) + dt >= settings.updateDelay ==>
        curUpdateDelay == 0.0 && force.Some?
      // Move without a target falls back at the next update.
      ensures old(state) == Move && moveTarget.None? && old(curUpdateDelay) + dt >= settings.updateDelay ==>
        && Entered(Fallback(moveTarget, wanderEnabled), now, rnd)
        && force == Some(Steering(NoNeighbours, NoGoal, false, false))
        && moveTargetDist == old(moveTargetDist)
      // Move with a target: group or plain separation, then the goal term.
      ensures old(state) == Move && moveTarget.Some? && old(curUpdateDelay) + dt >= settings.updateDelay ==>
        && state == Move && moveTargetDist == dist && wanderStartTime == old(wanderStartTime)
        && force.value.crowd == (if groupMoveEnabled then Sensed() else SeparateOnly(Sensed()))
        && !force.value.path && !force.value.wander
        && (dist > 0.0 ==>
              && force.value.goal == Toward(GoalFactor(catchUpEnabled, hasSensor, force.value.crowd.numFollow,
                                                       dist, settings.catchUpMinDistance),
                                            dist < minMoveTargetDistance)
              && moveTargetDir == Some(GoalDir(Offset(pos, targetPos), dist, minMoveTargetDistance)))
        && (dist == 0.0 ==> force.value.goal == NoGoal && moveTargetDir == old(moveTargetDir))
      ensures old(state) == Wander && old(curUpdateDelay) + dt >= settings.updateDelay ==>
        && state == Wander && moveTargetDist == old(moveTargetDist)
        && force == Some(Steering(SeparateOnly(Sensed()), NoGoal, false, true))
        && if now - old(wanderStartTime) >= settings.wanderDelay
           then wanderStartTime == now && moveTargetDir == Some(rnd)
           else wanderStartTime == old(wanderStartTime) && moveTargetDir == old(moveTargetDir)
      ensures old(state) == Idle && old(curUpdateDelay) + dt >= settings.updateDelay ==>
        && state == Idle && moveTargetDist == old(moveTargetDist)
        && wanderStartTime == old(wanderStartTime) && moveTargetDir == old(moveTargetDir)
        && force == Some(Steering(Sensed(), NoGoal, false, false))
    {
      wall := wallCheck;
      if state == Waypoint {
        force := WaypointTick(pos, dt, now, rnd);
      } else {
        curUpdateDelay := curUpdateDelay + dt;
        if curUpdateDelay >= settings.updateDelay {
          curUpdateDelay := 0.0;
          match state {
            case Move =>
              var steering := MoveTick(pos, targetPos, dist, now, rnd);
              force := Some(steering);
            case Wander =>
              if now - wanderStartTime >= settings.wanderDelay {
                WanderRefresh(now, rnd);
              }
              var crowd := ComputeSeparate();
              force := Some(Steering(crowd, NoGoal, false, true));
            case Idle =>
              var crowd := ComputeMovement();
              force := Some(Steering(crowd, NoGoal, false, false));
          }
        } else {
          force := None;
        }
      }
    }
  }

  /** A late route answer outlives the target it was asked for: a unit sent
      from `here` to a blocked target at `there` asks for a route, its target
      is then cleared, and the answer still puts it in Waypoint, with no
      target at all. */
  method StaleRouteScenario(here: Vec3, there: Vec3, dist: real)
    returns (requested: seq<PathRequest>, state: State, target: Option<Transform>, path: Option<seq<Vec3>>)
    requires IsLength(dist, Offset(here, there)) && dist > 0.0
    ensures requested == [PathRequest(here, there)]
    ensures state == Waypoint && target.None? && path == Some([there])
  {
    var settings := Settings(1.0, 2.0, 0.0, 1.0, 1.0, 0.0, 0.0);
    var unit := new FlockUnit(settings, Filter(0, id => false), false);
    unit.SetMoveTarget(Some(1), 0.0, Vec2(1.0, 0.0));
    // One second later the seek timer is due and the straight line is blocked.
    unit.Update(here, there, dist, 1.0, true, true, false);
    unit.SetMoveTarget(None, 1.0, Vec2(1.0, 0.0));
    unit.OnSeekPathComplete(Some([there]), 1.0, Vec2(1.0, 0.0));
    requested, state, target, path := unit.requests, unit.state, unit.moveTarget, unit.seekPath;
  }
}
