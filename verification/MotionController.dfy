/** The motion scheduler updated in place; every method is proved equal to the value-level step. */
module MotionControl {
  import opened Wire
  import opened Servo
  import opened Easing
  import opened MotionPlan
  import opened Runtime
  import opened Scheduler

  class MotionController {
    const machine: StateMachine
    const waypoints: array<Waypoint>
    const calibrated: bool
    const calibratedHome: Target

    var active: bool
    var phase: Phase
    var name: Motion
    var home: Target
    var count: nat
    var index: nat
    var servoTimeMs: nat
    var segmentInitialized: bool
    var segmentStart: Target
    var segmentEnd: Target
    var segmentEasing: Curve
    var segmentDurationMs: nat
    var segmentStartedMs: nat
    var lastRetargetMs: nat
    var phaseStartedMs: nat
    var currentMotion: Motion
    var bus: seq<Target>
    ghost var arrived: seq<Target>

    ghost predicate Ready()
      reads this
    {
      && waypoints.Length == MAX_WAYPOINTS && count <= MAX_WAYPOINTS
      && (if active then servoTimeMs > 0 else !segmentInitialized && lastRetargetMs == 0)
    }

    ghost function CurrentSegment(): Segment
      reads this
    {
      if segmentInitialized
      then Segment(segmentStart, segmentEnd, segmentEasing, segmentDurationMs, segmentStartedMs)
      else NoSegment
    }

    ghost function CurrentJob(): Job
      requires count <= waypoints.Length
      reads this, waypoints
    {
      if active
      then Job(name, home, waypoints[..count], index, servoTimeMs, phase, CurrentSegment(), lastRetargetMs,
               phaseStartedMs)
      else NoJob
    }

    ghost function View(): World
      requires count <= waypoints.Length
      reads this, waypoints, machine
    {
      World(machine.state, CurrentJob(), currentMotion, calibrated, calibratedHome, bus, arrived)
    }

    constructor (calibrated: bool, home: Target)
      ensures Ready() && fresh(machine) && fresh(waypoints)
      ensures View() == Initial(calibrated, home)
    {
      var m := new StateMachine();
      m.BootFinished();
      machine := m;
      waypoints := new Waypoint[MAX_WAYPOINTS](_ => Waypoint(NEUTRAL, 0, DEFAULT_SERVO_TIME_MS, EaseInOutCubic));
      this.calibrated, calibratedHome := calibrated, home;
      active, phase, name, this.home, count, index := false, MoveWaypoint, IdleMotion, NEUTRAL, 0, 0;
      servoTimeMs, segmentInitialized := DEFAULT_SERVO_TIME_MS, false;
      segmentStart, segmentEnd, segmentEasing := NEUTRAL, NEUTRAL, EaseInOutCubic;
      segmentDurationMs, segmentStartedMs, lastRetargetMs, phaseStartedMs := DEFAULT_SERVO_TIME_MS, 0, 0, 0;
      currentMotion, bus, arrived := IdleMotion, [], [];
    }

    method Move(t: Target, ensureTorque: bool, a: Answers) returns (code: Code)
      modifies `bus
      ensures code == MoveServo(t, ensureTorque, a)
      ensures bus == old(bus) + if code == Ok then [t] else []
    {
      if a.adapter != Ok { return a.adapter; }
      if !RawTargetValid(t) { return ServoLimitExceeded; }
      if ensureTorque && !a.torqueOk { return MotionInterrupted; }
      bus := bus + [t];
      code := Ok;
    }

    method Reset()
      requires Ready()
      modifies this`active, this`home, this`count, this`index, this`servoTimeMs, this`segmentInitialized,
          this`lastRetargetMs
      ensures Ready() && !active
    {
      active, home, count, index := false, NEUTRAL, 0, 0;
      servoTimeMs, segmentInitialized, lastRetargetMs := DEFAULT_SERVO_TIME_MS, false, 0;
    }

    method Finish()
      requires Ready()
      modifies this, machine
      ensures Ready() && View() == FinishJob(old(View()))
    {
      currentMotion := IdleMotion;
      if machine.state == Acting { machine.FinishCommand(); }
      Reset();
    }

    method Fail(code: Code, a: Answers)
      requires Ready()
      modifies this, machine
      ensures Ready() && View() == FailJob(old(View()), code, a)
    {
      var recovery := CalibrationInvalid;
      if calibrated { recovery := Move(calibratedHome, true, a); }
      if SafetyFault(code) || recovery != Ok {
        machine.RaiseFault();
      } else if machine.state == Acting {
        machine.FinishCommand();
      }
      currentMotion := IdleMotion;
      Reset();
    }

    method BeginSegment(start: Target, end: Target, easing: Curve, styleMs: nat, now: nat)
      requires Ready() && active
      modifies this`segmentInitialized, this`segmentStart, this`segmentEnd, this`segmentEasing, this`segmentDurationMs,
               this`segmentStartedMs, this`lastRetargetMs
      ensures segmentInitialized && CurrentJob() == StartSegment(old(CurrentJob()), start, end, easing, styleMs, now)
    {
      segmentInitialized, segmentStart, segmentEnd, segmentEasing := true, start, end, easing;
      segmentDurationMs := SegmentDuration(name, start, end, styleMs);
      segmentStartedMs, lastRetargetMs := now, 0;
    }

    method Advance(now: nat, a: Answers) returns (code: Code, completed: bool)
      requires Ready() && active && segmentInitialized
      modifies `bus, `lastRetargetMs
      ensures var adv := AdvanceSegment(old(CurrentJob()), now, a);
              code == adv.code && completed == adv.completed
              && View() == old(View()).(job := adv.job, writes := old(bus) + adv.writes)
    {
      var elapsed := Since(now, segmentStartedMs);
      if elapsed >= segmentDurationMs {
        if name == Shake && phase == MoveWaypoint { return Ok, true; }
        code := Move(segmentEnd, false, a);
        return code, true;
      }
      completed := false;
      if lastRetargetMs != 0 && Since(now, lastRetargetMs) < SEGMENT_TICK_MS { return Ok, false; }
      if lastRetargetMs == 0 && elapsed < SEGMENT_TICK_MS { elapsed := SEGMENT_TICK_MS; }
      var progress := EasedProgress(elapsed, segmentDurationMs, segmentEasing);
      code := Move(Interpolate(segmentStart, segmentEnd, progress), false, a);
      if code == Ok { lastRetargetMs := now; }
    }

    method StepSettle(now: nat, a: Answers)
      requires Ready() && active && machine.state != Fault && phase == FinalSettle
      modifies this, machine
      ensures Ready() && View() == Tick(old(View()), now, a)
    {
      var elapsed := Since(now, phaseStartedMs);
      if elapsed < SETTLE_MIN_MS { return; }
      if a.adapter == Ok && a.moving == Stopped {
        Finish();
        return;
      }
      if elapsed >= SETTLE_TIMEOUT_MS { Finish(); }
    }

    method ArriveHome(now: nat)
      requires Ready() && active
      modifies this`segmentInitialized, this`phase, this`phaseStartedMs, this`arrived
      ensures View() == AtHome(old(View()), now)
    {
      segmentInitialized, phase, phaseStartedMs := false, FinalSettle, now;
      arrived := arrived + [LastSent(View())];
    }

    method ReturnTick(now: nat, a: Answers)
      requires Ready() && active && phase == ReturnHome
      modifies this, machine
      ensures Ready() && View() == TickReturn(old(View()), now, a)
    {
      if !segmentInitialized {
        BeginSegment(ReturnOrigin(a), home, EaseInOutCubic, servoTimeMs, now);
      }
      var code, completed := Advance(now, a);
      if code != Ok {
        Fail(code, a);
      } else if completed {
        ArriveHome(now);
      }
    }

    function ReturnOrigin(a: Answers): Target
      requires Ready() && active
      reads this, waypoints
      ensures ReturnOrigin(a) == ReturnStart(CurrentJob(), a)
    {
      if name == Shake then ShakeTarget(home, SHAKE_DURATION_MS, a.wave)
      else if count == 0 then home
      else Offset(home, waypoints[count - 1].offset)
    }

    method BeginLeg(now: nat, a: Answers)
      requires Ready() && active && phase == MoveWaypoint && index < count
      modifies this`segmentInitialized, this`segmentStart, this`segmentEnd, this`segmentEasing, this`segmentDurationMs,
               this`segmentStartedMs, this`lastRetargetMs
      ensures segmentInitialized && CurrentJob() == WithSegment(old(CurrentJob()), now, a)
    {
      if !segmentInitialized {
        var waypoint := waypoints[index];
        var timeMs := if waypoint.servoTimeMs == 0 then servoTimeMs else waypoint.servoTimeMs;
        var start := if index == 0 then home else Offset(home, waypoints[index - 1].offset);
        BeginSegment(start, Offset(home, waypoint.offset), waypoint.easing, timeMs, now);
      }
    }

    method Arrive(now: nat)
      requires Ready() && active && phase == MoveWaypoint && index < count
      modifies this`segmentInitialized, this`index, this`phase, this`phaseStartedMs, this`arrived
      ensures Ready() && View() == if waypoints[old(index)].holdMs == 0 then NextLeg(old(View()), now)
              else Hold(old(View()), now)
    {
      segmentInitialized, phaseStartedMs := false, now;
      arrived := arrived + [LastSent(View())];
      if waypoints[index].holdMs == 0 {
        index := index + 1;
        phase := if index >= count then ReturnHome else MoveWaypoint;
      } else {
        phase := HoldWaypoint;
      }
    }

    method MoveTick(now: nat, a: Answers)
      requires Ready() && active && phase == MoveWaypoint && index < count
      modifies this, machine
      ensures Ready() && View() == TickMove(old(View()), now, a)
      decreases Nesting(CurrentJob()), 0
    {
      BeginLeg(now, a);
      var code, completed := Advance(now, a);
      if code != Ok {
        Fail(code, a);
      } else if completed {
        EndLeg(now, a);
      }
    }

    method EndLeg(now: nat, a: Answers)
      requires Ready() && active && phase == MoveWaypoint && index < count
      modifies this, machine
      ensures Ready()
      ensures View() == if waypoints[old(index)].holdMs == 0 then Tick(NextLeg(old(View()), now), now, a)
              else Hold(old(View()), now)
      decreases 0, 2
    {
      Arrive(now);
      if phase != HoldWaypoint { Step(now, a); }
    }

    method HeadHome(now: nat)
      requires Ready() && active
      modifies this`phase, this`phaseStartedMs, this`segmentInitialized
      ensures View() == BeginReturn(old(View()), now)
    {
      phase, phaseStartedMs, segmentInitialized := ReturnHome, now, false;
    }

    method LeaveHold(now: nat)
      requires Ready() && active
      modifies this`phase, this`phaseStartedMs, this`segmentInitialized, this`index
      ensures View() == HoldOver(old(View()), now)
    {
      index := index + 1;
      segmentInitialized := false;
      if index >= count {
        phase, phaseStartedMs := ReturnHome, now;
      } else {
        phase := MoveWaypoint;
      }
    }

    method ShakeMove(now: nat, a: Answers)
      requires Ready() && active
      modifies this, machine
      ensures Ready() && View() == ShakeOn(old(View()), now, a)
    {
      if lastRetargetMs != 0 && Since(now, lastRetargetMs) < SEGMENT_TICK_MS { return; }
      var elapsed := Since(now, phaseStartedMs);
      var shown := if elapsed < SEGMENT_TICK_MS then SEGMENT_TICK_MS else elapsed;
      var code := Move(ShakeTarget(home, shown, a.wave), false, a);
      if code != Ok {
        Fail(code, a);
      } else {
        lastRetargetMs := now;
      }
    }

    method ShakeTick(now: nat, a: Answers)
      requires Ready() && active && machine.state != Fault && phase == ShakeTrajectory
      modifies this, machine
      ensures Ready() && View() == Tick(old(View()), now, a)
      decreases Nesting(CurrentJob()), 0
    {
      if Since(now, phaseStartedMs) >= SHAKE_DURATION_MS {
        HeadHome(now);
        Step(now, a);
      } else {
        ShakeMove(now, a);
      }
    }

    method HoldTick(now: nat, a: Answers)
      requires Ready() && active && machine.state != Fault && phase == HoldWaypoint
      modifies this, machine
      ensures Ready() && View() == Tick(old(View()), now, a)
      decreases Nesting(CurrentJob()), 0
    {
      if index < count && Since(now, phaseStartedMs) < waypoints[index].holdMs { return; }
      LeaveHold(now);
      Step(now, a);
    }

    method Step(now: nat, a: Answers)
      requires Ready()
      modifies this, machine
      ensures Ready() && View() == Tick(old(View()), now, a)
      decreases Nesting(CurrentJob()), 1
    {
      if !active { return; }
      if machine.state == Fault {
        Fail(MotionInterrupted, a);
      } else if phase == FinalSettle {
        StepSettle(now, a);
      } else if phase == ShakeTrajectory {
        ShakeTick(now, a);
      } else if phase == MoveWaypoint && index < count {
        MoveTick(now, a);
      } else if phase == HoldWaypoint {
        HoldTick(now, a);
      } else {
        if phase == MoveWaypoint { HeadHome(now); }
        ReturnTick(now, a);
      }
    }

    // ---- Commands ----

    method Validate(plan: Plan) returns (code: Code)
      ensures code == ValidateTargets(calibratedHome, plan.waypoints)
    {
      if !WithinLimits(calibratedHome) { return ServoLimitExceeded; }
      for i := 0 to |plan.waypoints|
        invariant forall k :: 0 <= k < i ==> WithinNormalLimits(Offset(calibratedHome, plan.waypoints[k].offset))
      {
        if !WithinNormalLimits(Offset(calibratedHome, plan.waypoints[i].offset)) { return ServoLimitExceeded; }
      }
      code := Ok;
    }

    method CopyWaypoints(plan: Plan)
      requires waypoints.Length == MAX_WAYPOINTS && |plan.waypoints| <= MAX_WAYPOINTS
      modifies waypoints
      ensures waypoints[..|plan.waypoints|] == plan.waypoints
    {
      for i := 0 to MAX_WAYPOINTS
        invariant forall k :: 0 <= k < i && k < |plan.waypoints| ==> waypoints[k] == plan.waypoints[k]
      {
        waypoints[i] := if i < |plan.waypoints| then plan.waypoints[i]
                        else Waypoint(NEUTRAL, 0, DEFAULT_SERVO_TIME_MS, EaseInOutCubic);
      }
    }

    method Schedule(plan: Plan, motion: Motion, now: nat)
      requires Ready() && !active
      requires |plan.waypoints| <= MAX_WAYPOINTS && plan.servoTimeMs > 0
      modifies this, waypoints, machine
      ensures Ready() && View() == Scheduled(old(View()), plan, motion, now)
    {
      CopyWaypoints(plan);
      LoadJob(plan, motion, now);
      machine.StartCommand();
      currentMotion, arrived := motion, [];
    }

    method LoadJob(plan: Plan, motion: Motion, now: nat)
      requires Ready() && !active && |plan.waypoints| <= MAX_WAYPOINTS && plan.servoTimeMs > 0
      requires waypoints[..|plan.waypoints|] == plan.waypoints
      modifies this`active, this`home, this`name, this`phase, this`count, this`index, this`servoTimeMs,
          this`phaseStartedMs
      ensures Ready()
      ensures CurrentJob() == Job(motion, calibratedHome, plan.waypoints, 0, plan.servoTimeMs,
                                  if motion == Shake then ShakeTrajectory else MoveWaypoint, NoSegment, 0, now)
    {
      active, home, name := true, calibratedHome, motion;
      phase := if motion == Shake then ShakeTrajectory else MoveWaypoint;
      count, index, servoTimeMs, phaseStartedMs := |plan.waypoints|, 0, plan.servoTimeMs, now;
    }

    method EnqueuePlan(plan: Plan, motion: Motion, now: nat, a: Answers) returns (code: Code)
      requires Ready() && |plan.waypoints| <= MAX_WAYPOINTS && plan.servoTimeMs > 0
      modifies this, waypoints, machine
      ensures Ready() && (View(), code) == Enqueue(old(View()), plan, motion, now, a)
    {
      if active || machine.state == Acting { return FirmwareBusy; }
      if |plan.waypoints| == 0 {
        currentMotion := IdleMotion;
        return Ok;
      }
      code := Validate(plan);
      if code != Ok { return; }
      if a.adapter != Ok { return a.adapter; }
      if !a.torqueOk { return MotionInterrupted; }
      Schedule(plan, motion, now);
    }

    method HandlePlan(plan: Plan, motion: Motion, now: nat, a: Answers) returns (code: Code)
      requires Ready() && |plan.waypoints| <= MAX_WAYPOINTS && plan.servoTimeMs > 0
      modifies this, waypoints, machine
      ensures Ready() && (View(), code) == CommandPlan(old(View()), plan, motion, now, a)
    {
      if plan.code != Ok {
        currentMotion := IdleMotion;
        return plan.code;
      }
      code := EnqueuePlan(plan, motion, now, a);
      if code != Ok { currentMotion := IdleMotion; }
    }

    method HandleMotion(motion: Motion, intensity: Intensity, durationMs: nat, safetyPriority: bool,
                        servoReadOk: bool, now: nat, a: Answers)
      returns (code: Code)
      requires Ready()
      modifies this, waypoints, machine
      ensures Ready()
      ensures (View(), code) == Command(old(View()), motion, intensity, durationMs, safetyPriority, servoReadOk, now, a)
    {
      if safetyPriority { return InvalidPriority; }
      if machine.state == Fault { return FirmwareBusy; }
      if active || machine.state == Acting { return FirmwareBusy; }
      var plan := PlanMotion(motion, intensity, durationMs, calibrated, calibrated && servoReadOk, false);
      AcceptedPlanIsSafe(motion, intensity, durationMs, calibrated, calibrated && servoReadOk, false);
      code := HandlePlan(plan, motion, now, a);
    }

    /** A head pose: one write and no job, if the plan and both targets are in order. */
    method HandlePose(planned: bool, target: Target, a: Answers)
      requires Ready()
      modifies this, machine
      ensures Ready() && View() == HeadPose(old(View()), planned, target, a)
    {
      if machine.state == Fault || active || machine.state == Acting { return; }
      currentMotion := IdleMotion;
      if !planned || !calibrated || !WithinLimits(calibratedHome) || !WithinNormalLimits(target) { return; }
      var code := Move(target, true, a);
      if SafetyFault(code) && code != ServoLimitExceeded {
        var recovery := Move(calibratedHome, true, a);
        if recovery != Ok { machine.RaiseFault(); }
      }
    }

    method AgentChanged(connected: bool)
      modifies machine
      ensures machine.state == if connected then AgentConnected(old(machine.state))
              else AgentDisconnected(old(machine.state))
    {
      if connected { machine.Connect(); } else { machine.Disconnect(); }
    }
  }
}
