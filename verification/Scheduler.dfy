/**
 The motion scheduler as a value: one tick of the phase machine, coupled to the runtime state.
 `MotionController` refines it.
 */
module Scheduler {
  import opened Wire
  import opened Servo
  import opened Easing
  import opened MotionPlan
  import opened Runtime

  const SETTLE_MIN_MS := 250
  const SETTLE_TIMEOUT_MS := 1200
  const SEGMENT_TICK_MS := 25
  const SHAKE_DURATION_MS := 3000
  const DISTANCE_DURATION_MAX_MS := 1200
  const DISTANCE_BASE_MS := 190
  const MS_PER_DEGREE := 7

  datatype Phase = ShakeTrajectory | MoveWaypoint | HoldWaypoint | ReturnHome | FinalSettle

  datatype Segment = NoSegment | Segment(start: Target, end: Target, easing: Curve, durationMs: nat, startedMs: nat)

  datatype Job =
    | NoJob
    | Job(motion: Motion, home: Target, waypoints: seq<Waypoint>, index: nat, servoTimeMs: nat,
          phase: Phase, segment: Segment, lastRetargetMs: nat, phaseStartedMs: nat)

  /**
   What the hardware answers during one tick: the adapter and torque results, the moving flag, and the sine
   of the shake as a function of the milliseconds since it began.
   */
  datatype Moving = ReadFailed | StillMoving | Stopped
  datatype Answers = Answers(adapter: Code, torqueOk: bool, moving: Moving, wave: nat -> real)

  /**
   `writes` are the targets sent to the servos, `arrived` what had been sent last whenever a segment of the current
   job was completed.
   */
  datatype World = World(runtime: RuntimeState, job: Job, currentMotion: Motion, calibrated: bool, home: Target,
                         writes: seq<Target>, arrived: seq<Target>)

  function LastSent(w: World): Target { if w.writes == [] then w.home else w.writes[|w.writes| - 1] }

  function Since(now: nat, started: nat): nat { if now >= started then now - started else 0 }

  // ---- Servo writes ----

  function MoveServo(t: Target, ensureTorque: bool, a: Answers): Code {
    if a.adapter != Ok then a.adapter
    else if !RawTargetValid(t) then ServoLimitExceeded
    else if ensureTorque && !a.torqueOk then MotionInterrupted
    else Ok
  }

  predicate SafetyFault(code: Code) { code in {ServoLimitExceeded, ServoReadFailed, MotionInterrupted} }

  function NeutralRecovery(w: World, a: Answers): Code {
    if !w.calibrated then CalibrationInvalid else MoveServo(w.home, true, a)
  }

  function RecoveryWrites(w: World, a: Answers): seq<Target> {
    if NeutralRecovery(w, a) == Ok then [w.home] else []
  }

  function FinishJob(w: World): World {
    w.(runtime := CommandFinished(w.runtime), job := NoJob, currentMotion := IdleMotion)
  }

  function FailJob(w: World, code: Code, a: Answers): World {
    w.(runtime := if SafetyFault(code) || NeutralRecovery(w, a) != Ok then Fault else CommandFinished(w.runtime),
       job := NoJob, currentMotion := IdleMotion, writes := w.writes + RecoveryWrites(w, a))
  }

  // ---- Segments ----

  function Destination(job: Job, i: nat): Target
    requires job.Job? && i < |job.waypoints|
  {
    Offset(job.home, job.waypoints[i].offset)
  }

  function SegmentStart(job: Job, i: nat): Target
    requires job.Job?
  {
    if i == 0 || i > |job.waypoints| then job.home else Destination(job, i - 1)
  }

  function Round(r: real): int { if r >= 0.0 then TruncReal(r + 0.5) else TruncReal(r - 0.5) }

  /** The share of the shake trajectory that is over. */
  function Normalized(elapsedMs: nat): real {
    if elapsedMs >= SHAKE_DURATION_MS then 1.0 else elapsedMs as real / SHAKE_DURATION_MS as real
  }

  function Taper(elapsedMs: nat): real { 1.0 - 0.12 * Normalized(elapsedMs) }

  function YawOffset(taper: real, sine: real): real { 86.0 * taper * sine }

  function PitchOffset(sine: real): real { 8.0 + 3.0 * (sine * sine) }

  /** Where the shake stands after `elapsedMs`: the sine of the elapsed phase, its yaw tapering off. */
  function ShakeTarget(home: Target, elapsedMs: nat, wave: nat -> real): Target {
    var sine := wave(if elapsedMs >= SHAKE_DURATION_MS then SHAKE_DURATION_MS else elapsedMs);
    Target(home.x + Round(YawOffset(Taper(elapsedMs), sine)), home.y + Round(PitchOffset(sine)))
  }

  function ReturnStart(job: Job, a: Answers): Target
    requires job.Job?
  {
    if job.motion == Shake then ShakeTarget(job.home, SHAKE_DURATION_MS, a.wave) else SegmentStart(job, |job.waypoints|)
  }

  function AxisDistance(a: int, b: int): nat { if a > b then a - b else b - a }

  function DistanceDuration(start: Target, end: Target, floorMs: nat): nat {
    var dx, dy := AxisDistance(start.x, end.x), AxisDistance(start.y, end.y);
    var byDistance := DISTANCE_BASE_MS + (if dx > dy then dx else dy) * MS_PER_DEGREE;
    var adjusted := if byDistance > floorMs then byDistance else floorMs;
    if adjusted > DISTANCE_DURATION_MAX_MS then DISTANCE_DURATION_MAX_MS else adjusted
  }

  function SegmentDuration(motion: Motion, start: Target, end: Target, styleMs: nat): nat {
    if motion == Cheerful then DistanceDuration(start, end, styleMs) else styleMs
  }

  function StartSegment(job: Job, start: Target, end: Target, easing: Curve, styleMs: nat, now: nat): Job
    requires job.Job?
  {
    job.(segment := Segment(start, end, easing, SegmentDuration(job.motion, start, end, styleMs), now),
         lastRetargetMs := 0)
  }

  function WaypointTime(job: Job, i: nat): nat
    requires job.Job? && i < |job.waypoints|
  {
    if job.waypoints[i].servoTimeMs == 0 then job.servoTimeMs else job.waypoints[i].servoTimeMs
  }

  /** The job with the segment of its phase under way. */
  function WithSegment(job: Job, now: nat, a: Answers): Job
    requires job.Job? && (job.phase == ReturnHome || (job.phase == MoveWaypoint && job.index < |job.waypoints|))
  {
    if job.segment.Segment? then job
    else if job.phase == ReturnHome then
      StartSegment(job, ReturnStart(job, a), job.home, EaseInOutCubic, job.servoTimeMs, now)
    else
      StartSegment(job, SegmentStart(job, job.index), Destination(job, job.index),
                   job.waypoints[job.index].easing, WaypointTime(job, job.index), now)
  }

  datatype Advance = Advance(code: Code, completed: bool, job: Job, writes: seq<Target>)

  function Write(job: Job, t: Target, completed: bool, now: nat, a: Answers): Advance
    requires job.Job?
  {
    var code := MoveServo(t, false, a);
    if code != Ok then Advance(code, completed, job, [])
    else Advance(Ok, completed, if completed then job else job.(lastRetargetMs := now), [t])
  }

  function AdvanceSegment(job: Job, now: nat, a: Answers): Advance
    requires job.Job? && job.segment.Segment?
  {
    var seg := job.segment;
    var elapsed := Since(now, seg.startedMs);
    if elapsed >= seg.durationMs then
      if job.motion == Shake && job.phase == MoveWaypoint then Advance(Ok, true, job, [])
      else Write(job, seg.end, true, now, a)
    else if job.lastRetargetMs != 0 && Since(now, job.lastRetargetMs) < SEGMENT_TICK_MS then Advance(Ok, false, job, [])
    else
      var shown := if job.lastRetargetMs == 0 && elapsed < SEGMENT_TICK_MS then SEGMENT_TICK_MS else elapsed;
      Write(job, Interpolate(seg.start, seg.end, EasedProgress(shown, seg.durationMs, seg.easing)), false, now, a)
  }

  // ---- One tick ----

  /** Every segment takes time, because the fallback servo time is positive. */
  ghost predicate Timed(w: World) { w.job.Job? ==> w.job.servoTimeMs > 0 }

  /** How deep the step may call itself: not at all once a fresh segment has to be started. */
  function Nesting(job: Job): nat {
    if job.NoJob? then 0
    else match job.phase
    case ShakeTrajectory => 1
    case HoldWaypoint => 1
    case MoveWaypoint => if job.segment.Segment? then 1 else 0
    case _ => 0
  }

  /** On the way home, the segment not started yet. */
  function BeginReturn(w: World, now: nat): World
    requires w.job.Job?
  {
    w.(job := w.job.(phase := ReturnHome, phaseStartedMs := now, segment := NoSegment))
  }

  /** A hold is over: on to the next waypoint, or home. */
  function HoldOver(w: World, now: nat): World
    requires w.job.Job?
  {
    var job := w.job.(index := w.job.index + 1, segment := NoSegment);
    w.(job := if job.index >= |job.waypoints| then job.(phase := ReturnHome, phaseStartedMs := now)
              else job.(phase := MoveWaypoint))
  }

  /** The shake under way: the next target, no sooner than a tick after the last. */
  function ShakeOn(w: World, now: nat, a: Answers): World
    requires w.job.Job?
  {
    var job, elapsed := w.job, Since(now, w.job.phaseStartedMs);
    if job.lastRetargetMs != 0 && Since(now, job.lastRetargetMs) < SEGMENT_TICK_MS then w
    else
      var target := ShakeTarget(job.home, if elapsed < SEGMENT_TICK_MS then SEGMENT_TICK_MS else elapsed, a.wave);
      var code := MoveServo(target, false, a);
      if code != Ok then FailJob(w, code, a)
      else w.(job := job.(lastRetargetMs := now), writes := w.writes + [target])
  }

  function Tick(w: World, now: nat, a: Answers): World
    requires Timed(w)
    decreases Nesting(w.job), 1
  {
    var job := w.job;
    if job.NoJob? then w
    else if w.runtime == Fault then FailJob(w, MotionInterrupted, a)
    else match job.phase
    case FinalSettle =>
      var elapsed := Since(now, job.phaseStartedMs);
      if elapsed < SETTLE_MIN_MS then w
      else if a.adapter == Ok && a.moving == Stopped then FinishJob(w)
      else if elapsed >= SETTLE_TIMEOUT_MS then FinishJob(w)
      else w
    case ShakeTrajectory =>
      var elapsed := Since(now, job.phaseStartedMs);
      if elapsed >= SHAKE_DURATION_MS then
        Tick(BeginReturn(w, now), now, a)
      else ShakeOn(w, now, a)
    case MoveWaypoint =>
      if job.index >= |job.waypoints| then
        TickReturn(BeginReturn(w, now), now, a)
      else TickMove(w, now, a)
    case ReturnHome => TickReturn(w, now, a)
    case HoldWaypoint =>
      if job.index < |job.waypoints| && Since(now, job.phaseStartedMs) < job.waypoints[job.index].holdMs then w
      else Tick(HoldOver(w, now), now, a)
  }

  /** Home again: let the servos settle. */
  function AtHome(w: World, now: nat): World
    requires w.job.Job?
  {
    w.(job := w.job.(segment := NoSegment, phase := FinalSettle, phaseStartedMs := now),
       arrived := w.arrived + [LastSent(w)])
  }

  function TickReturn(w: World, now: nat, a: Answers): World
    requires w.job.Job? && w.job.phase == ReturnHome
  {
    var adv := AdvanceSegment(WithSegment(w.job, now, a), now, a);
    var w1 := w.(job := adv.job, writes := w.writes + adv.writes);
    if adv.code != Ok then FailJob(w1, adv.code, a)
    else if !adv.completed then w1
    else AtHome(w1, now)
  }

  /** Arrived at a waypoint without a hold: the next leg, not started yet. */
  function NextLeg(w: World, now: nat): World
    requires w.job.Job? && w.job.index < |w.job.waypoints|
  {
    var next := w.job.index + 1;
    w.(arrived := w.arrived + [LastSent(w)],
       job := w.job.(segment := NoSegment, index := next, phaseStartedMs := now,
                     phase := if next >= |w.job.waypoints| then ReturnHome else MoveWaypoint))
  }

  /** Arrived at a waypoint with a hold. */
  function Hold(w: World, now: nat): World
    requires w.job.Job? && w.job.index < |w.job.waypoints|
  {
    w.(arrived := w.arrived + [LastSent(w)],
       job := w.job.(segment := NoSegment, phase := HoldWaypoint, phaseStartedMs := now))
  }

  function TickMove(w: World, now: nat, a: Answers): World
    requires Timed(w) && w.job.Job? && w.job.phase == MoveWaypoint && w.job.index < |w.job.waypoints|
    decreases Nesting(w.job), 0
  {
    var job := WithSegment(w.job, now, a);
    var adv := AdvanceSegment(job, now, a);
    var w1 := w.(job := adv.job, writes := w.writes + adv.writes);
    if adv.code != Ok then FailJob(w1, adv.code, a)
    else if !adv.completed then w1
    else if w1.job.waypoints[w1.job.index].holdMs == 0 then Tick(NextLeg(w1, now), now, a)
    else Hold(w1, now)
  }

  // ---- Commands ----

  /** The home target and every waypoint target have to be inside their limits before anything moves. */
  function ValidateTargets(home: Target, waypoints: seq<Waypoint>): Code {
    if !WithinLimits(home) then ServoLimitExceeded
    else if exists i :: 0 <= i < |waypoints| && !WithinNormalLimits(Offset(home, waypoints[i].offset)) then
      ServoLimitExceeded
    else Ok
  }

  function EnableTorque(a: Answers): Code {
    if a.adapter != Ok then a.adapter else if !a.torqueOk then MotionInterrupted else Ok
  }

  function Scheduled(w: World, plan: Plan, motion: Motion, now: nat): World {
    w.(runtime := CommandStarted(w.runtime), currentMotion := motion, arrived := [],
       job := Job(motion, w.home, plan.waypoints, 0, plan.servoTimeMs,
                  if motion == Shake then ShakeTrajectory else MoveWaypoint, NoSegment, 0, now))
  }

  function Enqueue(w: World, plan: Plan, motion: Motion, now: nat, a: Answers): (World, Code) {
    if w.job.Job? || w.runtime == Acting then (w, FirmwareBusy)
    else if plan.waypoints == [] then (w.(currentMotion := IdleMotion), Ok)
    else if ValidateTargets(w.home, plan.waypoints) != Ok then (w, ValidateTargets(w.home, plan.waypoints))
    else if EnableTorque(a) != Ok then (w, EnableTorque(a))
    else (Scheduled(w, plan, motion, now), Ok)
  }

  function CommandPlan(w: World, plan: Plan, motion: Motion, now: nat, a: Answers): (World, Code) {
    if plan.code != Ok then (w.(currentMotion := IdleMotion), plan.code)
    else
      var (w1, code) := Enqueue(w, plan, motion, now, a);
      (if code != Ok then w1.(currentMotion := IdleMotion) else w1, code)
  }

  function Command(w: World, motion: Motion, intensity: Intensity, durationMs: nat, safetyPriority: bool,
                   servoReadOk: bool, now: nat, a: Answers): (World, Code)
  {
    if safetyPriority then (w, InvalidPriority)
    else if w.runtime == Fault || w.job.Job? || w.runtime == Acting then (w, FirmwareBusy)
    else
      CommandPlan(w, PlanMotion(motion, intensity, durationMs, w.calibrated, w.calibrated && servoReadOk, false),
                  motion, now, a)
  }

  /** A head pose command whose plan was accepted (or not) and whose target is already in degrees. */
  function HeadPose(w: World, planned: bool, target: Target, a: Answers): World {
    if w.runtime == Fault || w.job.Job? || w.runtime == Acting then w
    else if !planned || !w.calibrated || !WithinLimits(w.home) || !WithinNormalLimits(target) then
      w.(currentMotion := IdleMotion)
    else
      var code := MoveServo(target, true, a);
      if code == Ok then w.(currentMotion := IdleMotion, writes := w.writes + [target])
      else if SafetyFault(code) && code != ServoLimitExceeded then
        w.(currentMotion := IdleMotion, writes := w.writes + RecoveryWrites(w, a),
           runtime := if NeutralRecovery(w, a) != Ok then Fault else w.runtime)
      else w.(currentMotion := IdleMotion)
  }

  // ---- Everything that can happen once setup has finished ----

  datatype Input =
    | Clock(now: nat, answers: Answers)
    | MotionCommand(motion: Motion, intensity: Intensity, durationMs: nat, safetyPriority: bool, servoReadOk: bool,
                    at: nat, reply: Answers)
    | PoseCommand(planned: bool, target: Target, answer: Answers)
    | Connect
    | Disconnect

  /** After setup: waiting for the agent, nothing scheduled. */
  function Initial(calibrated: bool, home: Target): World {
    World(WaitingForAgent, NoJob, IdleMotion, calibrated, home, [], [])
  }

  /** Scheduler and runtime state agree. */
  ghost predicate Agreeing(w: World) {
    && Timed(w)
    && (w.runtime == Acting ==> w.job.Job?)
    && w.currentMotion == (if w.job.Job? then w.job.motion else IdleMotion)
    && (w.job.Job? ==> w.job.motion != IdleMotion)
  }

  lemma {:induction false} TickKeepsAgreeing(w: World, now: nat, a: Answers)
    requires Agreeing(w)
    ensures Agreeing(Tick(w, now, a))
    ensures w.runtime == Fault ==> Tick(w, now, a).runtime == Fault
    ensures w.runtime == Fault ==> Tick(w, now, a).job == NoJob
    decreases Nesting(w.job), 1
  {
    var job := w.job;
    if job.Job? && w.runtime != Fault {
      match job.phase {
        case ShakeTrajectory => ShakeKeepsAgreeing(w, now, a);
        case MoveWaypoint =>
          if job.index < |job.waypoints| { TickMoveKeepsAgreeing(w, now, a); }
        case HoldWaypoint => TickKeepsAgreeing(HoldOver(w, now), now, a);
        case _ =>
      }
    }
  }

  lemma {:induction false} ShakeKeepsAgreeing(w: World, now: nat, a: Answers)
    requires Agreeing(w) && w.runtime != Fault && w.job.Job? && w.job.phase == ShakeTrajectory
    ensures Agreeing(Tick(w, now, a))
    decreases Nesting(w.job), 0
  {
    if Since(now, w.job.phaseStartedMs) >= SHAKE_DURATION_MS { TickKeepsAgreeing(BeginReturn(w, now), now, a); }
  }

  lemma {:induction false} TickMoveKeepsAgreeing(w: World, now: nat, a: Answers)
    requires Agreeing(w) && w.runtime != Fault
    requires w.job.Job? && w.job.phase == MoveWaypoint && w.job.index < |w.job.waypoints|
    ensures Agreeing(TickMove(w, now, a))
    decreases Nesting(w.job), 0
  {
    var job := WithSegment(w.job, now, a);
    var adv := AdvanceSegment(job, now, a);
    if adv.code == Ok && adv.completed && job.waypoints[job.index].holdMs == 0 {
      TickKeepsAgreeing(NextLeg(w.(job := adv.job, writes := w.writes + adv.writes), now), now, a);
    }
  }

  lemma CommandKeepsAgreeing(w: World, motion: Motion, intensity: Intensity, durationMs: nat, safetyPriority: bool,
                             servoReadOk: bool, now: nat, a: Answers)
    requires Agreeing(w)
    ensures Agreeing(Command(w, motion, intensity, durationMs, safetyPriority, servoReadOk, now, a).0)
    ensures w.runtime == Fault ==> Command(w, motion, intensity, durationMs, safetyPriority, servoReadOk, now, a).0 == w
  {
    AcceptedPlanIsSafe(motion, intensity, durationMs, w.calibrated, w.calibrated && servoReadOk, false);
  }

  function Step(w: World, input: Input): World
    requires Timed(w)
  {
    match input
    case Clock(now, a) => Tick(w, now, a)
    case MotionCommand(motion, intensity, durationMs, safety, servoReadOk, at, reply) =>
      Command(w, motion, intensity, durationMs, safety, servoReadOk, at, reply).0
    case PoseCommand(planned, target, answer) => HeadPose(w, planned, target, answer)
    case Connect => w.(runtime := AgentConnected(w.runtime))
    case Disconnect => w.(runtime := AgentDisconnected(w.runtime))
  }

  /** One step of anything keeps the agreement, and a fault is never left. */
  lemma StepKeepsAgreeing(w: World, input: Input)
    requires Agreeing(w)
    ensures Agreeing(Step(w, input))
    ensures w.runtime == Fault ==> Step(w, input).runtime == Fault
  {
    match input
    case Clock(now, a) => TickKeepsAgreeing(w, now, a);
    case MotionCommand(motion, intensity, durationMs, safety, servoReadOk, at, reply) =>
      CommandKeepsAgreeing(w, motion, intensity, durationMs, safety, servoReadOk, at, reply);
    case PoseCommand(_, _, _) =>
    case Connect =>
    case Disconnect =>
  }

  /** Over every interleaving of commands, ticks, servo failures and connection changes. */
  ghost function Run(w: World, inputs: seq<Input>): (last: World)
    requires Agreeing(w)
    ensures Agreeing(last)
    ensures w.runtime == Fault ==> last.runtime == Fault
    decreases |inputs|
  {
    if inputs == [] then w
    else
      StepKeepsAgreeing(w, inputs[0]);
      Run(Step(w, inputs[0]), inputs[1..])
  }

  lemma SetupAgrees(calibrated: bool, home: Target)
    ensures Agreeing(Initial(calibrated, home))
  {
  }
}
