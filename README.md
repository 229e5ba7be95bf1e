# Flock steering and action binding, modelled in Dafny

This project models the discrete decision logic of a Unity flocking
subsystem. It has three parts:

- **FlockUnit** (`flock_unit.dfy`, module `Flock`) is the per-unit steering
  state machine.
  - It has four states: Idle, Move, Waypoint and Wander.
  - It throttles its obstruction checks and force updates with timers.
  - When the straight line to its goal is blocked, it asks a pathing service
    for a route, then walks that route with a cursor.
  - Each force update sorts the units its proximity sensor holds into
    "avoid", "same flock" and "ignored". The counts decide which steering
    terms fire (`flock_neighbours.dfy`, module `FlockNeighbours`).
- **FlockActionController** (`flock_action.dfy`, module `FlockAction`) binds
  a unit's move target to the action it is given: attack, retreat, follow,
  disperse or another.
  - It switches the attack sensor on and off.
  - It adopts attack targets the sensor reports.
  - It runs two watches. One pulls the unit back to its leader or cancels the
    action. The other stops chasing a target that has come to rest.
- **AttackSensor** (`attack_sensor.dfy`, module `AttackSensor`) holds two pure
  predicates:
  - the hostile-flock bitmask test;
  - the min/max-range and facing-angle test.

The two components that update their own fields are Dafny classes.
`FlockUnit` and `FlockActionController` have the source's fields. Each
method's `modifies` clause names the fields it may write, field by field,
and its `ensures` gives their new values. The controller writes only the
unit's seek fields (target, route, cursor, request flag, seek timer, state,
wander timer and direction) and, when it enters or finishes an action, its
stopping distance. `FlockAction.UnitPointedAt` states what pointing the unit
at a target does: a new target drops the route and enters the fallback
state; the current target leaves every seek field as it was.
`FlockUnit.Valid()` is the path invariant every public method keeps: in
Waypoint the unit holds a non-empty route and the cursor points into it.
The private helpers `ApplyState` and `WanderRefresh` neither need nor
promise it; their callers re-establish it.

The neighbour-counting loops are proved against the recursive specification
`TallyOf` over the sensor's snapshot. The properties of the counts (null
entries skipped, the same for every reordering of the snapshot, avoid
excluding same flock, zero exactly when nobody qualifies) are lemmas about
`TallyOf`.

Geometry is an input to the model:

- A distance is passed together with its offset. `IsLength(dist, v)` states
  that `dist` is the length of `v`.
- Sphere casts are booleans: `castHit` for the obstruction test and
  `wallHit` for the wall probe.
- Whether a pathing service is active is a boolean.

The engine clock (`now`) and the random wander direction (`rnd`) are
parameters. A force is summarised by which terms make it up (`Steering`),
not by its vector.

A coroutine watch is modelled by one iteration of its loop, run after its
wait: `ReturnToLeaderStep` and `FollowStopStep`. A flag records whether the
loop is still alive. Where the source would dereference a reference that
was cleared during the wait, the step returns `faulted` and the loop ends.
Calls to the base class's `StopAction(priority, forced)` are recorded in
`stops`, in order. Route requests to the pathing service are recorded in
`requests`.

Behaviours the model keeps as the code has them:

- The path-completion callback checks neither whether a request is pending
  nor whether the target has changed. A late answer still puts the unit in
  Waypoint, even after its target was cleared. `Flock.StaleRouteScenario`
  shows this for any blocked goal at a positive distance. One would expect a
  unit never to stay in Waypoint with no goal; the code does not ensure it,
  and the model follows the code.
- The `wanderEnabled` setter writes the state directly. An Idle unit becomes
  Wander without picking a direction or restarting the wander timer.
- `ResetData` clears the target through the `moveTarget` setter. That changes
  the state only when there was a target, so a wandering unit stays in
  Wander although wandering is now disabled.
- `SeekPathStart` with no active pathing service does nothing, not even reset
  the seek timer. The obstruction check then runs on every frame until the
  line clears.
- One would expect Idle to steer by separation and avoidance only. The code
  runs the full group computation in Idle (`ComputeMovement`, which adds
  alignment and cohesion), and `FixedUpdate`'s contract follows the code.
- With group movement disabled, the follow count passed to the catch-up rule
  is 0. The catch-up factor can then apply even with flock mates around.
- `1 << flockId` on a C# int uses only the low five bits of `flockId`, so
  flock ids 32 apart share a hostile bit (`AttackSensor.ShiftCount`).

## Model

| member | source | states |
|---|---|---|
| `AttackSensor.ShiftCount` | Untitled/Assets/Scripts/Game/AttackSensor.cs:26 | the shift count C# uses for `1 << flockId` is congruent to the id modulo 32 |
| `AttackSensor.UnitVerify` | Untitled/Assets/Scripts/Game/AttackSensor.cs:25-27 | a unit is hostile exactly when bit (flock id mod 32) of `hostileFlags` is set, read by shifting the mask down |
| `AttackSensor.MaskHasReadsBit` | Untitled/Assets/Scripts/Game/AttackSensor.cs:26 | the shifted-one test `flags & (1 << k) != 0` reads bit k |
| `AttackSensor.UnitVerifyIsBitTest` | Untitled/Assets/Scripts/Game/AttackSensor.cs:25-27 | ids 0 to 31 test bits 0 to 31; ids 32 apart get the same answer |
| `AttackSensor.AngleTestScales` | Untitled/Assets/Scripts/Game/AttackSensor.cs:18-22 | for a positive distance, comparing the normalised direction's dot product with cos θ is comparing the raw offset's with cos θ · dist |
| `AttackSensor.CheckRange` | Untitled/Assets/Scripts/Game/AttackSensor.cs:14-23 | without the angle check, in range exactly when min ≤ dist ≤ max; with it, additionally a positive distance and dot(offset, facing) > cos θ · dist, strictly |
| `AttackSensor.CheckRangeIgnoresFacing` | Untitled/Assets/Scripts/Game/AttackSensor.cs:22 | with the angle check off, the facing does not change the answer |
| `FlockNeighbours.Alive` | Untitled/Assets/Scripts/Flock/FlockUnit.cs:405-406 | the live entries of a snapshot: all non-null, as many as `Present` counts |
| `FlockNeighbours.CountAppend` | Untitled/Assets/Scripts/Flock/FlockUnit.cs:405-429 | counting a term over two parts of a snapshot and adding gives the count over the whole |
| `FlockNeighbours.TallyAppend` | Untitled/Assets/Scripts/Flock/FlockUnit.cs:478-517 | all three counts split over concatenation |
| `FlockNeighbours.CountPermutation` | Untitled/Assets/Scripts/Flock/FlockUnit.cs:405-429 | two snapshots with the same entries (as multisets) give the same count, whatever their order |
| `FlockNeighbours.TallyOrderIrrelevant` | Untitled/Assets/Scripts/Flock/FlockUnit.cs:478-517 | all three counts are the same for every reordering of the sensor's entries |
| `FlockNeighbours.CountSkipsNull` | Untitled/Assets/Scripts/Flock/FlockUnit.cs:405-406 | removing destroyed (null) entries changes no count |
| `FlockNeighbours.TallySkipsNull` | Untitled/Assets/Scripts/Flock/FlockUnit.cs:478-479 | null entries contribute to none of the three counts |
| `FlockNeighbours.AvoidExcludesSameGroup` | Untitled/Assets/Scripts/Flock/FlockUnit.cs:485-515 | an avoided unit is never counted as same flock: avoid + separate and avoid + follow never exceed the number of live entries |
| `FlockNeighbours.CountZeroIff` | Untitled/Assets/Scripts/Flock/FlockUnit.cs:405-429 | a term's count is zero exactly when no entry qualifies for it |
| `FlockNeighbours.TallyZeroIff` | Untitled/Assets/Scripts/Flock/FlockUnit.cs:478-517 | no separation iff no same-flock unit strictly inside `separateDistance`; no avoidance iff no avoided unit strictly inside `avoidDistance`; no following iff no same-flock unit with a legit, non-kinematic body |
| `Flock.Fallback` | Untitled/Assets/Scripts/Flock/FlockUnit.cs:355 | the fallback state is never Waypoint; it is Move exactly when there is a target; without one, Wander exactly when wandering is enabled and Idle otherwise |
| `Flock.CheckTargetBlock` | Untitled/Assets/Scripts/Flock/FlockUnit.cs:328-336 | never blocked at a non-positive distance; blocked only on a cast hit; at a positive distance exactly the cast's result |
| `Flock.GoalFactor` | Untitled/Assets/Scripts/Flock/FlockUnit.cs:262-265 | catch-up only when enabled and beyond `catchUpMinDistance`; never with a sensor that sees flock mates to follow; always when enabled, beyond the distance and with no one to follow |
| `Flock.GoalDirSense` | Untitled/Assets/Scripts/Flock/FlockUnit.cs:267-270 | the goal direction is a unit vector pointing at the goal, reversed (pointing away) when closer than `minMoveTargetDistance` |
| `Flock.FlockUnit.constructor` | Untitled/Assets/Scripts/Flock/FlockUnit.cs:45-89 | field defaults: state Move, no target, direction (1, 0), cursor -1, no path or request, timers 0 |
| `Flock.FlockUnit.SetWanderEnabled` | Untitled/Assets/Scripts/Flock/FlockUnit.cs:51-59 | stores the flag; Idle becomes Wander when it is set, every other state is kept; the wander timer and direction are not touched |
| `Flock.FlockUnit.SetMoveTarget` | Untitled/Assets/Scripts/Flock/FlockUnit.cs:96-106 | the same target changes nothing; a different one drops path, request, timer and cursor and enters the fallback state for the new target |
| `Flock.FlockUnit.Stop` | Untitled/Assets/Scripts/Flock/FlockUnit.cs:119-122 | no target and no minimum distance; a unit that had a target leaves Move with its path dropped |
| `Flock.FlockUnit.ResetData` | Untitled/Assets/Scripts/Flock/FlockUnit.cs:124-137 | every flag back to its default, the sensor re-enabled and emptied; a unit with a target falls back to Idle; a unit without one keeps its state, route, cursor, request flag, timers and direction |
| `Flock.FlockUnit.WanderRefresh` | Untitled/Assets/Scripts/Flock/FlockUnit.cs:369-373 | restarts the wander timer at the clock and takes the random direction |
| `Flock.FlockUnit.ApplyState` | Untitled/Assets/Scripts/Flock/FlockUnit.cs:358-367 | enters the state; only entering Wander refreshes the wander timer and direction |
| `Flock.FlockUnit.SeekPathStart` | Untitled/Assets/Scripts/Flock/FlockUnit.cs:338-347 | without a pathing service nothing changes; otherwise one route request is recorded, the path is cleared, the timer zeroed, a request marked pending and the unit idles (not Waypoint) |
| `Flock.FlockUnit.SeekPathStop` | Untitled/Assets/Scripts/Flock/FlockUnit.cs:349-356 | no path, no pending request, timer 0, cursor -1, and the fallback state for the current target |
| `Flock.FlockUnit.OnSeekPathComplete` | Untitled/Assets/Scripts/Flock/FlockUnit.cs:316-326 | a null or empty route acts exactly like SeekPathStop; otherwise the route is stored, the cursor set to 0 and the unit enters Waypoint whatever its target now is |
| `Flock.FlockUnit.Update` | Untitled/Assets/Scripts/Flock/FlockUnit.cs:159-206 | the check waits until the seek timer reaches `seekDelay`; no request while one is pending, at most one per frame; a followed route is dropped when the goal left its last waypoint or the line cleared; a blocked straight line asks for a route, a clear one resets the timer; the wall flag is the probe's result |
| `Flock.FlockUnit.ComputeSeparate` | Untitled/Assets/Scripts/Flock/FlockUnit.cs:390-429 | the separation and avoidance counts of the sensor's snapshot, no follow count; all zero without a sensor or entries |
| `Flock.FlockUnit.ComputeMovement` | Untitled/Assets/Scripts/Flock/FlockUnit.cs:459-517 | the separation, avoidance and follow counts of the snapshot; all zero without a sensor or entries |
| `Flock.FlockUnit.FixedUpdate` | Untitled/Assets/Scripts/Flock/FlockUnit.cs:209-300 | reaching a waypoint advances the cursor by one or, at the last one, stops seeking and leaves Waypoint; the cursor never moves back except to -1; forces only every `updateDelay`; Move without a target falls back; Move with one uses group or plain separation and the catch-up rule, and reverses the direction when too close; Wander re-picks its direction after `wanderDelay`; Idle uses the group counts |
| `Flock.FlockUnit.WaypointTick` | Untitled/Assets/Scripts/Flock/FlockUnit.cs:210-235 | inside the path radius the cursor advances by one, or the route ends with SeekPathStop; outside it, a path force with separation every `updateDelay` |
| `Flock.FlockUnit.MoveTick` | Untitled/Assets/Scripts/Flock/FlockUnit.cs:247-275 | no target: fall back to Wander or Idle with no force; a target: group or plain separation counts, the catch-up rule, and a goal direction reversed when closer than `minMoveTargetDistance` |
| `Flock.StaleRouteScenario` | Untitled/Assets/Scripts/Flock/FlockUnit.cs:316-326 | a unit whose blocked goal made it ask for a route, and whose target was then cleared, is put in Waypoint with no target by the late answer |
| `FlockAction.AdoptionRule` | Untitled/Assets/Scripts/Game/FlockActionController.cs:151-158 | an attacking or retreating unit is never redirected; only a vacant attack target is adopted, never one of lower priority; adoption at one priority implies adoption at any lower one |
| `FlockAction.LeaderDecision` | Untitled/Assets/Scripts/Game/FlockActionController.cs:172-182 | cancel exactly beyond the cached cancel radius; back to the leader only with a unit, an unlocked action, inside the cancel radius and beyond the move-back radius; nothing happens to a missing unit |
| `FlockAction.LeaderDecisionMonotone` | Untitled/Assets/Scripts/Game/FlockActionController.cs:172-182 | straying farther from the leader never softens the reaction (target, then leader, then cancel) |
| `FlockAction.FollowDecision` | Untitled/Assets/Scripts/Game/FlockActionController.cs:194-200 | retarget exactly when the target moves at or above `followStopSpeed`; a slow target clears the move target exactly when the unit has one within `followStopRadius` |
| `FlockAction.FlockActionController.constructor` | Untitled/Assets/Scripts/Game/FlockActionController.cs:8-21 | the radii and speed defaults, then Awake's reset: sensor active as `attackStartEnable` and enabled |
| `FlockAction.FlockActionController.AutoAttack` | Untitled/Assets/Scripts/Game/FlockActionController.cs:24 | off without a sensor; with one, on exactly when the sensor's object is active |
| `FlockAction.FlockActionController.SetAutoAttack` | Untitled/Assets/Scripts/Game/FlockActionController.cs:25-39 | without a sensor nothing happens; with one, `autoAttack` reads back the value set; switching off during an attack with a target records StopAction(Highest, forced) |
| `FlockAction.FlockActionController.CheckRange` | Untitled/Assets/Scripts/Game/FlockActionController.cs:43-60 | in range with no target, a non-attack action or no unit; an attack with a unit is in range exactly when there is a sensor, the unit is enabled and the sensor's range test (distance band and facing cone) passes |
| `FlockAction.FlockActionController.PointUnitAt` | Untitled/Assets/Scripts/Game/FlockActionController.cs:97-99 | the unit, if any, gets the target through its setter: a new target drops its route and enters the fallback state, the current one leaves every seek field unchanged; nothing else of the unit is written |
| `FlockAction.FlockActionController.EnterAttack` | Untitled/Assets/Scripts/Game/FlockActionController.cs:77-93 | chase the target's transform; the return-to-leader watch starts (caching the squared radii) when the object is active; the sensor is disabled and its `minRange` becomes the unit's minimum distance |
| `FlockAction.FlockActionController.EnterFollow` | Untitled/Assets/Scripts/Game/FlockActionController.cs:95-103 | chase what the target points to; the follow-stop watch starts when the object is active and the target moves |
| `FlockAction.FlockActionController.OnActionEnter` | Untitled/Assets/Scripts/Game/FlockActionController.cs:70-111 | by action type: Disperse leaves the unit alone; Attack chases the target, switches the sensor off and sets the stopping distance; Retreat, Follow and the rest chase the target's target; only Attack starts the leader watch, only Retreat/Follow the follow-stop watch |
| `FlockAction.FlockActionController.OnActionFinish` | Untitled/Assets/Scripts/Game/FlockActionController.cs:116-131 | the unit is stopped as by its Stop (no target, minimum distance 0; a unit that had a target drops its route and falls back to Wander or Idle, one that had none keeps its seek fields), the target's motion forgotten, the sensor re-enabled, both watches ended |
| `FlockAction.FlockActionController.AutoAttackCheck` | Untitled/Assets/Scripts/Game/FlockActionController.cs:151-158 | the current target becomes the candidate exactly when the adoption rule allows it, otherwise stays |
| `FlockAction.FlockActionController.ReturnToLeaderStep` | Untitled/Assets/Scripts/Game/FlockActionController.cs:160-184 | beyond the cancel radius, StopAction(High, forced); otherwise the unit is pointed at the leader or back at the target by the leader rule (a changed target drops its route, the same one changes nothing); the loop goes on only while unlocked, with a target other than the default one and a leader |
| `FlockAction.FlockActionController.FollowStopStep` | Untitled/Assets/Scripts/Game/FlockActionController.cs:186-212 | for Retreat/Follow, a slow target near the unit clears its move target and a moving one renews it, each through the setter (a changed target drops the route); any other action ends the watch; the loop goes on while the target and its motion exist |
| `FlockAction.FlockActionController.ResetAutoActions` | Untitled/Assets/Scripts/Game/FlockActionController.cs:214-220 | with a sensor, its active state goes back to `attackStartEnable` and it is enabled |
| `FlockAction.FlockActionController.SetActive` | Untitled/Assets/Scripts/Game/FlockActionController.cs:62-68 | deactivation resets the sensor when there is one; activation, or deactivation without a sensor, leaves both sensor flags alone |

## Left out

- Vector and float arithmetic: magnitudes, normalisation, the steering helper
  `M8.MathUtil.Steer` and `body.AddForce`. A force is reduced to the terms
  it is built from (`Steering`). The magnitude > 0 tests on averaged
  separation and avoidance vectors (FlockUnit.cs:436, 447, 524, 535) and the
  alignment and cohesion sums are not modelled.
- Flock.FlockUnit.ComputeSeparate: states the counts that decide which terms
  fire, not the force vector it returns.
- Flock.FlockUnit.ComputeMovement: states the counts, not the force vector.
- Flock.FlockUnit.FixedUpdate: the waypoint force's direction and the wall
  force (`Wall`, `Seek`) are not modelled; only whether they are applied.
- Physics casts: the obstruction sphere cast, the wall probe and the cached
  collider radius are boolean or real inputs.
- Unity compares `Vector3` values approximately; the test "the goal left the
  route's last waypoint" is modelled as exact inequality.
- `Random.onUnitSphere` and `Time.fixedTime` are the parameters `rnd` and
  `now`. `Mathf.Cos` in the sensor's Awake is not modelled: the cached
  cosine is a field of `Sensor`.
- The pathing plugin (`Seeker`, `AstarPath.active`, route computation): a
  request is a recorded `PathRequest` and the answer is the argument of
  `OnSeekPathComplete`.
- Coroutine scheduling: `StartCoroutine`, `StopCoroutine`, `WaitForSeconds`
  and `WaitForFixedUpdate`. Only one loop iteration and a running flag are
  modelled. Several instances of the same watch are one flag, and the cached
  radii are those of the latest start.
- FlockAction.FlockActionController.ReturnToLeaderStep: takes the squared
  leader distance as an input instead of computing it from the positions.
- FlockAction.FlockActionController.FollowStopStep: takes the target's speed
  as an input (`MotionBase.curSpeed` is not part of this model).
- The base classes `ActionListener`, `MotionBase`, `SensorSingle` and
  `FlockFilter` are not part of this model. `currentTarget`, `type`,
  `currentPriority`, `lockAction` and `defaultTarget` are plain fields.
  `StopAction` is a recorded call. The avoid relation `CheckAvoid` is a
  function input. `base.ResetData`, `base.FixedUpdate` and `base.SetActive`
  are not modelled.
- Flock.FlockUnit.SetMoveTarget: a Unity object that has been destroyed
  compares equal to null; the model's targets are plain handles, so a
  target destroyed while held is not turned into "no target" by the
  setter's comparison (FlockUnit.cs:100).
- Flock.FlockUnit.Update: the same for the `moveTarget != null` test
  (FlockUnit.cs:163); a destroyed target is still treated as present.
- Flock.FlockUnit.MoveTick: the same for the `moveTarget == null` test
  (FlockUnit.cs:248); Move with a destroyed target does not fall back.
- FlockAction.FlockActionController.OnActionEnter: requires a current
  target. The source reads `currentTarget` unguarded (FlockActionController.cs:71)
  and throws a null-reference exception without one; that path is not modelled.
- FlockAction.FlockActionController.EnterAttack: requires a current target,
  for the same reason; it is only reached from OnActionEnter.
- FlockAction.FlockActionController.EnterFollow: requires a current target,
  for the same reason; it is only reached from OnActionEnter.
- Flock.FlockUnit.ResetData: with no sensor reference the source throws a
  null-reference exception; the model skips the sensor part instead.
- Engine and editor plumbing: `Awake` and `OnDestroy` callback subscription,
  `GameObject` activation beyond the `activeInHierarchy` input, gizmo
  drawing, and the PlayMaker shim `MotionGetDir`.
