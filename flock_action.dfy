/** FlockActionController: binds a flock unit's move target to the action
    its owner is given (attack, retreat, follow, disperse), switches the
    attack sensor, adopts hostile attack targets the sensor reports, and runs
    two watches: one pulling the unit back to its leader, one that stops
    chasing a target that has stopped. Each watch is modelled by the body of
    one loop iteration and a flag saying whether the loop is still alive. */
module FlockAction {
  import opened Basics
  import opened Flock
  import AttackSensor

  datatype ActionType = Attack | Retreat | Follow | Disperse | Other

  /** An action target as the controller reads it: its identity, its own
      transform, the transform it points units to (`target`, may be null),
      its action type, priority and whether it has room for another unit. */
  datatype ActionTarget = ActionTarget(
    handle: nat,
    transform: Transform,
    target: Option<Transform>,
    actionType: ActionType,
    priority: int,
    vacancy: bool)

  /** The two priorities the controller cancels an action with. */
  datatype StopLevel = High | Highest

  /** A call to StopAction(priority, forced). */
  datatype StopRequest = StopRequest(level: StopLevel, forced: bool)

  /** Whether a target reported by the attack sensor replaces the current
      one. */
  predicate AdoptsTarget(currentType: ActionType, currentPriority: int, candidate: Option<ActionTarget>)
  {
    && currentType != Attack && currentType != Retreat
    && candidate.Some?
    && candidate.value.actionType == Attack
    && candidate.value.vacancy
    && currentPriority <= candidate.value.priority
  }

  /** A unit already attacking or retreating is never redirected; otherwise
      only a vacant attack target of at least the current priority is taken. */
  lemma AdoptionRule(currentType: ActionType, currentPriority: int, candidate: Option<ActionTarget>)
    ensures currentType == Attack || currentType == Retreat ==> !AdoptsTarget(currentType, currentPriority, candidate)
    ensures AdoptsTarget(currentType, currentPriority, candidate) ==>
      candidate.Some? && candidate.value.actionType == Attack && candidate.value.vacancy
    ensures candidate.Some? && candidate.value.priority < currentPriority ==>
      !AdoptsTarget(currentType, currentPriority, candidate)
    ensures AdoptsTarget(currentType, currentPriority, candidate) ==>
      forall p :: p <= currentPriority ==> AdoptsTarget(currentType, p, candidate)
  {
  }

  /** What one return-to-leader iteration does. */
  datatype LeaderMove = CancelAction | MoveToLeader | MoveToTarget | KeepGoal

  /** `cancelSqr` and `moveBackSqr` are the squared cancel and move-back
      radii the watch cached when it started. */
  function LeaderDecision(distSqr: real, cancelSqr: real, moveBackSqr: real,
                          hasUnit: bool, locked: bool): (m: LeaderMove)
    ensures m == CancelAction <==> distSqr > cancelSqr
    ensures m == MoveToLeader <==> distSqr <= cancelSqr && hasUnit && !locked && distSqr > moveBackSqr
    ensures m == KeepGoal <==> !hasUnit && distSqr <= cancelSqr
  {
    if distSqr > cancelSqr then CancelAction
    else if !hasUnit then KeepGoal
    else if distSqr > moveBackSqr && !locked then MoveToLeader
    else MoveToTarget
  }

  /** How far the reaction escalates: back to the target, to the leader,
      cancel. */
  function Escalation(m: LeaderMove): nat
  {
    match m
    case KeepGoal => 0
    case MoveToTarget => 0
    case MoveToLeader => 1
    case CancelAction => 2
  }

  /** Straying farther from the leader never softens the reaction. */
  lemma LeaderDecisionMonotone(d1: real, d2: real, cancelSqr: real, moveBackSqr: real,
                               hasUnit: bool, locked: bool)
    requires d1 <= d2
    ensures Escalation(LeaderDecision(d1, cancelSqr, moveBackSqr, hasUnit, locked))
         <= Escalation(LeaderDecision(d2, cancelSqr, moveBackSqr, hasUnit, locked))
  {
  }

  /** What one follow-stop iteration does to the unit's move target. */
  datatype FollowMove = ClearTarget | Retarget | KeepTarget

  function FollowDecision(targetSpeed: real, stopSpeed: real, unitHasTarget: bool,
                          unitDist: real, stopRadius: real): (m: FollowMove)
    ensures m == Retarget <==> targetSpeed >= stopSpeed
    ensures m == ClearTarget ==> unitHasTarget && unitDist <= stopRadius
    ensures targetSpeed < stopSpeed && unitHasTarget && unitDist <= stopRadius ==> m == ClearTarget
  {
    if targetSpeed < stopSpeed then
      (if unitHasTarget && unitDist <= stopRadius then ClearTarget else KeepTarget)
    else Retarget
  }

  /** The unit, when there is one, was pointed at `t` through its
      moveTarget setter. */
  twostate predicate UnitPointedAt(u: FlockUnit?, t: Option<Transform>, now: real, rnd: Vec2)
    reads u
  {
    u != null ==>
      && u.moveTarget == t
      && (t != old(u.moveTarget) ==> u.SeekStopped(now, rnd))
      && (t == old(u.moveTarget) ==> u.SeekKept())
  }

  class FlockActionController {
    var flockUnit: FlockUnit?
    var actionMaxRadius: real
    var actionCancelRadius: real
    var followStopRadius: real
    var followStopSpeed: real
    var attackStartEnable: bool
    /** Whether the attack sensor reference is set, its settings, whether
        its game object is active (auto attack) and whether it is enabled. */
    var hasAttackSensor: bool
    var attackSensor: AttackSensor.Sensor
    var sensorActive: bool
    var sensorEnabled: bool
    var leader: Option<Transform>
    /** Whether the current target has a motion component. */
    var hasTargetMotion: bool

    // The action listener's state.
    var currentTarget: Option<ActionTarget>
    var actionType: ActionType
    var currentPriority: int
    var lockAction: bool
    var defaultTarget: Option<ActionTarget>
    /** Every StopAction call made, oldest first. */
    var stops: seq<StopRequest>

    // Whether each watch loop is alive, and the squared radii the
    // return-to-leader watch cached when it started.
    var returnToLeaderRunning: bool
    var cancelSqr: real
    var moveBackSqr: real
    var followStopRunning: bool

    ghost predicate Valid()
      reads this, flockUnit
    {
      flockUnit != null ==> flockUnit.Valid()
    }

    /** The unit, as a frame: empty when the controller has none. The
        controller's steps write only the unit's seek fields through it
        (and the stopping distance), never its tuning or sensor state. */
    ghost function Unit(): set<FlockUnit>
      reads this
    {
      if flockUnit == null then {} else {flockUnit}
    }

    /** Creation with the component's defaults, followed by Awake. */
    constructor (unit: FlockUnit?, hasAttackSensor: bool, attackSensor: AttackSensor.Sensor,
                 attackStartEnable: bool, defaultTarget: Option<ActionTarget>)
      requires unit != null ==> unit.Valid()
      ensures Valid()
      ensures flockUnit == unit && this.hasAttackSensor == hasAttackSensor && this.attackSensor == attackSensor
      ensures this.attackStartEnable == attackStartEnable && this.defaultTarget == defaultTarget
      ensures actionMaxRadius == 6.75 && actionCancelRadius == 12.0
      ensures followStopRadius == 2.0 && followStopSpeed == 0.01
      ensures sensorActive == (hasAttackSensor && attackStartEnable) && sensorEnabled
      ensures leader.None? && !hasTargetMotion && currentTarget.None? && stops == []
      ensures !returnToLeaderRunning && !followStopRunning
    {
      flockUnit := unit;
      actionMaxRadius := 6.75;
      actionCancelRadius := 12.0;
      followStopRadius := 2.0;
      followStopSpeed := 0.01;
      this.attackStartEnable := attackStartEnable;
      this.hasAttackSensor := hasAttackSensor;
      this.attackSensor := attackSensor;
      sensorActive := false;
      sensorEnabled := true;
      leader := None;
      hasTargetMotion := false;
      currentTarget := None;
      actionType := Other;
      currentPriority := 0;
      lockAction := false;
      this.defaultTarget := defaultTarget;
      stops := [];
      returnToLeaderRunning := false;
      cancelSqr := 0.0;
      moveBackSqr := 0.0;
      followStopRunning := false;
      new;
      ResetAutoActions();
    }

    /** The `autoAttack` getter: off without a sensor, otherwise whether the
        sensor's object is active. */
    function AutoAttack(): (on: bool)
      reads this
      ensures !hasAttackSensor ==> !on
      ensures hasAttackSensor ==> (on <==> sensorActive)
    {
      hasAttackSensor && sensorActive
    }

    /** The `autoAttack` setter: acts only on a change; switching it off
        during an attack cancels that attack at the highest priority. */
    method SetAutoAttack(value: bool)
      modifies this`stops, this`sensorActive
      ensures hasAttackSensor ==> AutoAttack() == value
      ensures !hasAttackSensor ==> sensorActive == old(sensorActive)
      ensures stops == old(stops) +
        (if old(AutoAttack()) && !value && currentTarget.Some? && actionType == Attack
         then [StopRequest(Highest, true)] else [])
    {
      if hasAttackSensor {
        var isActive := sensorActive;
        if isActive != value {
          if !value {
            if currentTarget.Some? && actionType == Attack {
              stops := stops + [StopRequest(Highest, true)];
            }
          }
          sensorActive := value;
        }
      }
    }

    /** Whether the unit can hit its current target. Only an attack with a
        flock unit is ever out of range. `curDir` is the unit's facing,
        `offset`/`dist` the plane offset from the sensor to the target. */
    function CheckRange(curDir: Vec2, offset: Vec2, dist: real): (inRange: bool)
      reads this, flockUnit
      requires IsLength(dist, offset)
      ensures currentTarget.None? || actionType != Attack || flockUnit == null ==> inRange
      ensures currentTarget.Some? && actionType == Attack && flockUnit != null ==>
        (inRange <==>
          && hasAttackSensor && flockUnit.enabled
          && attackSensor.minRange <= dist <= attackSensor.maxRange
          && (!attackSensor.angleCheck || (dist > 0.0 && Dot(offset, curDir) > attackSensor.cosTheta * dist)))
    {
      if currentTarget.Some? && actionType == Attack && flockUnit != null then
        hasAttackSensor && flockUnit.enabled && AttackSensor.CheckRange(attackSensor, curDir, offset, dist)
      else true
    }

    /** The current target is the default one: the same object, which the
        source tests by reference and the model by handle. */
    predicate OnDefaultTarget()
      reads this
    {
      currentTarget.Some? && defaultTarget.Some? && currentTarget.value.handle == defaultTarget.value.handle
    }

    /** The return-to-leader loop goes on while this holds. */
    predicate ReturnToLeaderContinues()
      reads this
    {
      !lockAction && currentTarget.Some? && !OnDefaultTarget() && leader.Some?
    }

    /** The follow-stop loop goes on while this holds. */
    predicate FollowStopContinues()
      reads this
    {
      currentTarget.Some? && hasTargetMotion
    }

    method PointUnitAt(t: Option<Transform>, now: real, rnd: Vec2)
      requires Valid()
      modifies Unit()`moveTarget, Unit()`seekPath, Unit()`curSeekDelay, Unit()`seekStarted,
               Unit()`seekCurPath, Unit()`state, Unit()`wanderStartTime, Unit()`moveTargetDir
      ensures Valid() && UnitPointedAt(flockUnit, t, now, rnd)
    {
      if flockUnit != null {
        flockUnit.SetMoveTarget(t, now, rnd);
      }
    }

    /** Entering an attack: chase the target's own transform, start the
        return-to-leader watch and switch the sensor off, the unit keeping
        the sensor's minimum range as its stopping distance. */
    method EnterAttack(activeInHierarchy: bool, now: real, rnd: Vec2)
      requires Valid() && currentTarget.Some?
      modifies this`returnToLeaderRunning, this`sensorEnabled, this`cancelSqr, this`moveBackSqr,
               Unit()`moveTarget, Unit()`seekPath, Unit()`curSeekDelay, Unit()`seekStarted,
               Unit()`seekCurPath, Unit()`state, Unit()`wanderStartTime, Unit()`moveTargetDir, Unit()`minMoveTargetDistance
      ensures Valid() && UnitPointedAt(flockUnit, Some(currentTarget.value.transform), now, rnd)
      ensures hasAttackSensor ==> !sensorEnabled
      ensures !hasAttackSensor ==> sensorEnabled == old(sensorEnabled)
      ensures flockUnit != null ==> flockUnit.minMoveTargetDistance ==
                                    if hasAttackSensor then attackSensor.minRange
                                    else old(flockUnit.minMoveTargetDistance)
      ensures returnToLeaderRunning == (old(returnToLeaderRunning) || (activeInHierarchy && ReturnToLeaderContinues()))
      ensures activeInHierarchy ==>
        cancelSqr == actionCancelRadius * actionCancelRadius && moveBackSqr == actionMaxRadius * actionMaxRadius
      ensures !activeInHierarchy ==> cancelSqr == old(cancelSqr) && moveBackSqr == old(moveBackSqr)
    {
      PointUnitAt(Some(currentTarget.value.transform), now, rnd);
      if activeInHierarchy {
        cancelSqr := actionCancelRadius * actionCancelRadius;
        moveBackSqr := actionMaxRadius * actionMaxRadius;
        returnToLeaderRunning := returnToLeaderRunning || ReturnToLeaderContinues();
      }
      if hasAttackSensor {
        sensorEnabled := false;
        if flockUnit != null {
          flockUnit.minMoveTargetDistance := attackSensor.minRange;
        }
      }
    }

    /** Entering a retreat or a follow: chase what the target points to and
        start the follow-stop watch. */
    method EnterFollow(activeInHierarchy: bool, now: real, rnd: Vec2)
      requires Valid() && currentTarget.Some?
      modifies this`followStopRunning, Unit()`moveTarget, Unit()`seekPath, Unit()`curSeekDelay, Unit()`seekStarted,
               Unit()`seekCurPath, Unit()`state, Unit()`wanderStartTime, Unit()`moveTargetDir
      ensures Valid() && UnitPointedAt(flockUnit, currentTarget.value.target, now, rnd)
      ensures followStopRunning == (old(followStopRunning) || (activeInHierarchy && FollowStopContinues()))
    {
      PointUnitAt(currentTarget.value.target, now, rnd);
      if activeInHierarchy {
        followStopRunning := followStopRunning || FollowStopContinues();
      }
    }

    /** Entering an action: point the unit at the target and start the
        watch that belongs to the action type. `hasMotion` says whether the
        target has a motion component, `activeInHierarchy` whether the
        controller's object is active (otherwise no watch starts). */
    method OnActionEnter(hasMotion: bool, activeInHierarchy: bool, now: real, rnd: Vec2)
      requires Valid() && currentTarget.Some?
      modifies this`hasTargetMotion, this`returnToLeaderRunning, this`followStopRunning,
               this`sensorEnabled, this`cancelSqr, this`moveBackSqr,
               Unit()`moveTarget, Unit()`seekPath, Unit()`curSeekDelay, Unit()`seekStarted,
               Unit()`seekCurPath, Unit()`state, Unit()`wanderStartTime, Unit()`moveTargetDir, Unit()`minMoveTargetDistance
      ensures Valid()
      ensures hasTargetMotion == hasMotion
      ensures actionType == Disperse ==> flockUnit != null ==> unchanged(flockUnit)
      ensures actionType == Attack ==> UnitPointedAt(flockUnit, Some(currentTarget.value.transform), now, rnd)
      ensures actionType == Retreat || actionType == Follow || actionType == Other ==>
        UnitPointedAt(flockUnit, currentTarget.value.target, now, rnd)
      // Only an attack turns the sensor off and sets the stopping distance.
      ensures sensorEnabled == (old(sensorEnabled) && !(actionType == Attack && hasAttackSensor))
      ensures flockUnit != null ==> flockUnit.minMoveTargetDistance ==
                                    if actionType == Attack && hasAttackSensor then attackSensor.minRange
                                    else old(flockUnit.minMoveTargetDistance)
      // Only an attack starts the return-to-leader watch, and caches its radii.
      ensures returnToLeaderRunning == (old(returnToLeaderRunning) ||
        (actionType == Attack && activeInHierarchy && ReturnToLeaderContinues()))
      ensures actionType == Attack && activeInHierarchy ==>
        cancelSqr == actionCancelRadius * actionCancelRadius && moveBackSqr == actionMaxRadius * actionMaxRadius
      ensures !(actionType == Attack && activeInHierarchy) ==>
        cancelSqr == old(cancelSqr) && moveBackSqr == old(moveBackSqr)
      // Only a retreat or a follow starts the follow-stop watch.
      ensures followStopRunning == (old(followStopRunning) ||
        ((actionType == Retreat || actionType == Follow) && activeInHierarchy && hasMotion))
    {
      hasTargetMotion := hasMotion;
      match actionType {
        case Disperse =>
        case Attack =>
          EnterAttack(activeInHierarchy, now, rnd);
        case Retreat =>
          EnterFollow(activeInHierarchy, now, rnd);
        case Follow =>
          EnterFollow(activeInHierarchy, now, rnd);
        case Other =>
          PointUnitAt(currentTarget.value.target, now, rnd);
      }
    }

    /** Finishing an action: stop the unit, forget the target's motion,
        re-enable the attack sensor and end both watches. */
    method OnActionFinish(now: real, rnd: Vec2)
      requires Valid()
      modifies this`hasTargetMotion, this`sensorEnabled, this`returnToLeaderRunning,
               this`followStopRunning, Unit()`moveTarget, Unit()`seekPath, Unit()`curSeekDelay, Unit()`seekStarted,
               Unit()`seekCurPath, Unit()`state, Unit()`wanderStartTime, Unit()`moveTargetDir, Unit()`minMoveTargetDistance
      ensures Valid()
      // The unit's Stop: no target (dropping any route) and no minimum distance.
      ensures UnitPointedAt(flockUnit, None, now, rnd)
      ensures flockUnit != null ==> flockUnit.minMoveTargetDistance == 0.0
      ensures !hasTargetMotion
      ensures sensorEnabled == (hasAttackSensor || old(sensorEnabled))
      ensures !returnToLeaderRunning && !followStopRunning
    {
      if flockUnit != null {
        flockUnit.Stop(now, rnd);
      }
      hasTargetMotion := false;
      if hasAttackSensor {
        sensorEnabled := true;
      }
      followStopRunning := false;
      returnToLeaderRunning := false;
    }

    /** The attack sensor's "stay" callback for a hostile unit whose action
        target is `candidate`. */
    method AutoAttackCheck(candidate: Option<ActionTarget>)
      modifies this`currentTarget
      ensures currentTarget == if AdoptsTarget(actionType, currentPriority, candidate) then candidate
                               else old(currentTarget)
    {
      if !(actionType == Attack || actionType == Retreat) {
        if candidate.Some? && candidate.value.actionType == Attack && candidate.value.vacancy
           && currentPriority <= candidate.value.priority {
          currentTarget := candidate;
        }
      }
    }

    /** One iteration of the return-to-leader watch, run after its wait.
        `distSqr` is the squared plane distance to the leader. Returns
        whether the source would fail on a null reference here (the leader
        or the target was cleared during the wait), which ends the loop. */
    method ReturnToLeaderStep(distSqr: real, now: real, rnd: Vec2) returns (faulted: bool)
      requires Valid() && distSqr >= 0.0
      modifies this`stops, this`returnToLeaderRunning, Unit()`moveTarget, Unit()`seekPath, Unit()`curSeekDelay, Unit()`seekStarted,
               Unit()`seekCurPath, Unit()`state, Unit()`wanderStartTime, Unit()`moveTargetDir
      ensures Valid()
      ensures faulted <==> (leader.None? ||
        (LeaderDecision(distSqr, cancelSqr, moveBackSqr, flockUnit != null, lockAction) == MoveToTarget
         && currentTarget.None?))
      ensures returnToLeaderRunning == (!faulted && ReturnToLeaderContinues())
      ensures !faulted && distSqr > cancelSqr ==> stops == old(stops) + [StopRequest(High, true)]
      ensures faulted || distSqr <= cancelSqr ==> stops == old(stops)
      ensures !faulted && flockUnit != null ==>
        match LeaderDecision(distSqr, cancelSqr, moveBackSqr, true, lockAction)
        case CancelAction => unchanged(flockUnit)
        case MoveToLeader => UnitPointedAt(flockUnit, leader, now, rnd)
        case MoveToTarget => UnitPointedAt(flockUnit, Some(currentTarget.value.transform), now, rnd)
        case KeepGoal => unchanged(flockUnit)
      ensures faulted && flockUnit != null ==> unchanged(flockUnit)
    {
      faulted := false;
      if leader.None? {
        faulted := true;
      } else {
        match LeaderDecision(distSqr, cancelSqr, moveBackSqr, flockUnit != null, lockAction) {
          case CancelAction =>
            stops := stops + [StopRequest(High, true)];
          case KeepGoal =>
          case MoveToLeader =>
            flockUnit.SetMoveTarget(leader, now, rnd);
          case MoveToTarget =>
            if currentTarget.None? {
              faulted := true;
            } else {
              flockUnit.SetMoveTarget(Some(currentTarget.value.transform), now, rnd);
            }
        }
      }
      returnToLeaderRunning := !faulted && ReturnToLeaderContinues();
    }

    /** One iteration of the follow-stop watch, run after its wait.
        `targetSpeed` is the target's current speed. Returns whether the
        source would fail on a null reference here (the target or its motion
        was cleared during the wait), which ends the loop. */
    method FollowStopStep(targetSpeed: real, now: real, rnd: Vec2) returns (faulted: bool)
      requires Valid()
      modifies this`followStopRunning, Unit()`moveTarget, Unit()`seekPath, Unit()`curSeekDelay, Unit()`seekStarted,
               Unit()`seekCurPath, Unit()`state, Unit()`wanderStartTime, Unit()`moveTargetDir
      ensures Valid()
      // Any other action type ends the watch and leaves the unit alone.
      ensures actionType != Retreat && actionType != Follow ==>
        !faulted && !followStopRunning && (flockUnit != null ==> unchanged(flockUnit))
      ensures actionType == Retreat || actionType == Follow ==>
        followStopRunning == (!faulted && FollowStopContinues())
      ensures flockUnit == null ==> !faulted
      ensures (actionType == Retreat || actionType == Follow) && flockUnit != null ==>
        if !hasTargetMotion then faulted && unchanged(flockUnit)
        else match FollowDecision(targetSpeed, followStopSpeed, old(flockUnit.moveTarget).Some?,
                                  old(flockUnit.moveTargetDist), followStopRadius)
          case ClearTarget => !faulted && UnitPointedAt(flockUnit, None, now, rnd)
          case KeepTarget => !faulted && unchanged(flockUnit)
          case Retarget =>
            if currentTarget.None? then faulted && unchanged(flockUnit)
            else !faulted && UnitPointedAt(flockUnit, currentTarget.value.target, now, rnd)
    {
      faulted := false;
      if actionType == Retreat || actionType == Follow {
        if flockUnit != null {
          if !hasTargetMotion {
            faulted := true;
          } else {
            match FollowDecision(targetSpeed, followStopSpeed, flockUnit.moveTarget.Some?,
                                 flockUnit.moveTargetDist, followStopRadius) {
              case ClearTarget =>
                flockUnit.SetMoveTarget(None, now, rnd);
              case KeepTarget =>
              case Retarget =>
                if currentTarget.None? {
                  faulted := true;
                } else {
                  flockUnit.SetMoveTarget(currentTarget.value.target, now, rnd);
                }
            }
          }
        }
        followStopRunning := !faulted && FollowStopContinues();
      } else {
        followStopRunning := false;
      }
    }

    /** Puts the attack sensor back to its start-up setting. */
    method ResetAutoActions()
      modifies this`sensorActive, this`sensorEnabled
      ensures hasAttackSensor ==> sensorActive == attackStartEnable && sensorEnabled
      ensures !hasAttackSensor ==> sensorActive == old(sensorActive) && sensorEnabled == old(sensorEnabled)
    {
      if hasAttackSensor {
        sensorActive := attackStartEnable;
        sensorEnabled := true;
      }
    }

    /** Deactivation resets the attack sensor; activation changes nothing
        here. */
    method SetActive(activate: bool)
      modifies this`sensorActive, this`sensorEnabled
      ensures activate ==> sensorActive == old(sensorActive) && sensorEnabled == old(sensorEnabled)
      ensures !activate && hasAttackSensor ==> sensorActive == attackStartEnable && sensorEnabled
      ensures !hasAttackSensor ==> sensorActive == old(sensorActive) && sensorEnabled == old(sensorEnabled)
    {
      if !activate {
        ResetAutoActions();
      }
    }
  }
}
