/**
 Whole runs of the motion scheduler: every servo write stays inside the limits, every stop is
 reached once and in order, and every accepted motion is over in bounded time.
 */
module MotionRuns {
  import opened Wire
  import opened Servo
  import opened Easing
  import opened MotionPlan
  import opened Runtime
  import opened Scheduler
  import opened ShakeWave
  import Calibration

  /** What stays fixed while a job runs. */
  datatype Course = Course(motion: Motion, home: Target, waypoints: seq<Waypoint>, servoTimeMs: nat)

  function CourseOf(job: Job): Course
    requires job.Job?
  {
    Course(job.motion, job.home, job.waypoints, job.servoTimeMs)
  }

  /** The stop at waypoint `i`, and home after the last one. */
  function Stop(c: Course, i: nat): Target {
    if i < |c.waypoints| then Offset(c.home, c.waypoints[i].offset) else c.home
  }

  function Stops(c: Course, n: nat): seq<Target> { seq(n, i requires 0 <= i => Stop(c, i)) }

  // ---- Safety ----

  /** A box around the degree limits that the raw check lets through: the limits themselves, or the raw ones. */
  predicate BoxOk(box: Box) {
    && RAW_LIMITS.minX <= box.minX <= MIN_X && MAX_X <= box.maxX <= RAW_LIMITS.maxX
    && RAW_LIMITS.minY <= box.minY <= MIN_Y && MAX_Y <= box.maxY <= RAW_LIMITS.maxY
  }

  lemma InsideIsRawValid(box: Box, t: Target)
    requires BoxOk(box) && Inside(t, box)
    ensures RawTargetValid(t)
  {
    RawValidExactly(t);
  }

  ghost predicate SafeCourse(box: Box, c: Course) {
    && Inside(c.home, box) && 0 < c.servoTimeMs < 0x1_0000
    && (c.motion == Shake ==> ShakeRoom(c.home, box))
    && forall i :: 0 <= i < |c.waypoints| ==> Inside(Stop(c, i), box) && c.waypoints[i].servoTimeMs < 0x1_0000
  }

  ghost predicate SafeSegment(box: Box, job: Job)
    requires job.Job?
  {
    job.segment.Segment? ==>
      && Inside(job.segment.start, box) && Inside(job.segment.end, box) && 0 < job.segment.durationMs < 0x1_0000
      && (job.phase == MoveWaypoint ==>
            job.index < |job.waypoints| && job.segment.end == Stop(CourseOf(job), job.index))
      && (job.phase == ReturnHome ==> job.segment.end == job.home)
  }

  /** The shake has its own phase and no waypoint legs. */
  predicate Steady(job: Job)
    requires job.Job?
  {
    && (job.phase == ShakeTrajectory ==> job.motion == Shake)
    && (job.motion == Shake ==> job.phase in {ShakeTrajectory, ReturnHome, FinalSettle})
  }

  ghost predicate SafeJob(box: Box, job: Job)
    requires job.Job?
  {
    && BoxOk(box) && SafeCourse(box, CourseOf(job)) && SafeSegment(box, job) && Steady(job)
    && (job.phase == HoldWaypoint ==> job.index < |job.waypoints|)
    && (job.phase == MoveWaypoint ==> job.index <= |job.waypoints|)
  }

  ghost predicate AllInside(box: Box, writes: seq<Target>) { forall i :: 0 <= i < |writes| ==> Inside(writes[i], box) }

  /** The stops reached so far, as the phase tells it. */
  function Visited(job: Job): seq<Target>
    requires job.Job?
  {
    var c := CourseOf(job);
    var n := |job.waypoints|;
    match job.phase
    case ShakeTrajectory => []
    case MoveWaypoint => Stops(c, job.index)
    case HoldWaypoint => Stops(c, job.index + 1)
    case ReturnHome => if job.motion == Shake then [] else Stops(c, n)
    case FinalSettle => Itinerary(c)
  }

  /** Every waypoint once, in order, then home; the shake only comes home. */
  function Itinerary(c: Course): seq<Target> {
    (if c.motion == Shake then [] else Stops(c, |c.waypoints|)) + [c.home]
  }

  ghost predicate InOrder(w: World) {
    w.job.Job? ==>
      && w.arrived == Visited(w.job)
      && (w.job.phase == FinalSettle ==> w.writes != [] && w.writes[|w.writes| - 1] == w.job.home)
  }

  /** The job keeps to its course, inside the box. */
  ghost predicate OnCourse(box: Box, w: World) {
    && BoxOk(box) && Agreeing(w) && InOrder(w)
    && (w.calibrated ==> Inside(w.home, box))
    && (w.job.Job? ==> SafeJob(box, w.job))
  }

  ghost predicate SafeWorld(box: Box, w: World) { OnCourse(box, w) && AllInside(box, w.writes) }

  /** Whatever was written since is inside the box. */
  ghost predicate Grows(box: Box, w: World, w': World) { AllInside(box, w.writes) ==> AllInside(box, w'.writes) }

  predicate Healthy(a: Answers) { a.adapter == Ok && a.torqueOk }

  // ---- Room for the shake ----

  /** At full intensity the enqueued waypoints already demand that room. */
  lemma FullShakeLeavesRoom(home: Target, durationMs: nat)
    requires ValidateTargets(home, PlanMotion(Shake, Value(1.0), durationMs, true, true, false).waypoints) == Ok
    requires PlanMotion(Shake, Value(1.0), durationMs, true, true, false).waypoints != []
    ensures ShakeRoom(home, LIMITS)
  {
    var plan := PlanMotion(Shake, Value(1.0), durationMs, true, true, false);
    PlanStarts(Plan(Ok, [], PlanServoTime(Shake)), Rows(Shake, durationMs), 1.0, 2);
    assert plan.waypoints[0].offset == Target(88, 8) && plan.waypoints[1].offset == Target(-88, 11);
    assert WithinNormalLimits(Offset(home, plan.waypoints[0].offset))
           && WithinNormalLimits(Offset(home, plan.waypoints[1].offset));
  }

  lemma StillRow(row: Row)
    ensures WaypointOf(row, 0.0).offset == NEUTRAL
  {
    if row.Move? { assert Scaled(row.x, 0.0) == 0.0 && Scaled(row.y, 0.0) == 0.0; }
  }

  lemma StillPlan(motion: Motion, durationMs: nat)
    requires motion != IdleMotion && PlanMotion(motion, Value(0.0), durationMs, true, true, false).code == Ok
    ensures var plan := PlanMotion(motion, Value(0.0), durationMs, true, true, false);
            |plan.waypoints| == |Rows(motion, durationMs)| && plan.servoTimeMs > 0
            && forall i :: 0 <= i < |plan.waypoints| ==> plan.waypoints[i].offset == NEUTRAL
  {
    AcceptedPlanIsSafe(motion, Value(0.0), durationMs, true, true, false);
    StillRows(Plan(Ok, [], PlanServoTime(motion)), Rows(motion, durationMs));
  }

  lemma StillRows(plan: Plan, rows: seq<Row>)
    requires AddRows(plan, rows, 0.0).code == Ok && plan.waypoints == []
    ensures |AddRows(plan, rows, 0.0).waypoints| == |rows|
    ensures forall i :: 0 <= i < |rows| ==> AddRows(plan, rows, 0.0).waypoints[i].offset == NEUTRAL
  {
    PlanStarts(plan, rows, 0.0, |rows|);
    forall i | 0 <= i < |rows|
      ensures AddRows(plan, rows, 0.0).waypoints[i].offset == NEUTRAL
    {
      StillRow(rows[i]);
      assert AddRows(plan, rows, 0.0).waypoints[|plan.waypoints| + i] == WaypointOf(rows[i], 0.0);
    }
  }

  lemma StillShakeStarts(w: World, plan: Plan, now: nat, a: Answers)
    requires w.runtime == Idle && w.job == NoJob && WithinNormalLimits(w.home)
    requires Healthy(a) && plan.code == Ok && plan.waypoints != [] && plan.servoTimeMs > 0
    requires forall i :: 0 <= i < |plan.waypoints| ==> plan.waypoints[i].offset == NEUTRAL
    ensures Enqueue(w, plan, Shake, now, a) == (Scheduled(w, plan, Shake, now), Ok)
  {
    assert Offset(w.home, NEUTRAL) == w.home;
    assert ValidateTargets(w.home, plan.waypoints) == Ok;
  }

  /** The first tick of a shake, `e` ms after it was accepted. */
  lemma FirstShakeTick(w: World, plan: Plan, now: nat, e: nat, a: Answers)
    requires w.runtime == Idle && Healthy(a) && plan.servoTimeMs > 0 && SEGMENT_TICK_MS <= e < SHAKE_DURATION_MS
    ensures var t := ShakeTarget(w.home, e, a.wave);
            var w' := Tick(Scheduled(w, plan, Shake, now), now + e, a);
            if RawTargetValid(t) then w'.writes == w.writes + [t] else w'.runtime == Fault
  {
    assert Since(now + e, now) == e;
  }

  /** `e` ms on the job was failed for a target that the raw check caught. */
  ghost predicate FailsAt(w: World, now: nat, e: nat, a: Answers)
    requires Timed(w)
  {
    Tick(w, now + e, a).runtime == Fault
  }

  /** `e` ms on a target outside the limits was sent, or the job was failed for one. */
  ghost predicate EscapesAt(w: World, now: nat, e: nat, a: Answers)
    requires Timed(w)
  {
    !AllInside(LIMITS, Tick(w, now + e, a).writes) || FailsAt(w, now, e, a)
  }

  lemma FirstTickEscapes(home: Target, plan: Plan, now: nat, e: nat, a: Answers)
    requires Healthy(a) && plan.servoTimeMs > 0 && SEGMENT_TICK_MS <= e < SHAKE_DURATION_MS
    ensures var w := Scheduled(Ready(home), plan, Shake, now);
            && (EscapesAt(w, now, e, a) <==> !Inside(ShakeTarget(home, e, a.wave), LIMITS))
            && (FailsAt(w, now, e, a) <==> !Inside(ShakeTarget(home, e, a.wave), RAW_LIMITS))
  {
    var t := ShakeTarget(home, e, a.wave);
    FirstShakeTick(Ready(home), plan, now, e, a);
    var w' := Tick(Scheduled(Ready(home), plan, Shake, now), now + e, a);
    RawValidExactly(t);
    if RawTargetValid(t) { assert w'.writes[0] == t && |w'.writes| == 1; }
  }

  /** Calibrated and connected, nothing scheduled. */
  function Ready(home: Target): World { Initial(true, home).(runtime := Idle) }

  lemma ScheduledShakeExactlyWhen(home: Target, plan: Plan, now: nat, a: Answers)
    requires plan.servoTimeMs > 0 && Healthy(a) && IsSine(a.wave)
    ensures var w := Scheduled(Ready(home), plan, Shake, now);
            && (ShakeRoom(home, LIMITS) <==>
                  forall e: nat :: SEGMENT_TICK_MS <= e < SHAKE_DURATION_MS ==> !EscapesAt(w, now, e, a))
            && (ShakeRoom(home, RAW_LIMITS) <==>
                  forall e: nat :: SEGMENT_TICK_MS <= e < SHAKE_DURATION_MS ==> !FailsAt(w, now, e, a))
  {
    var w := Scheduled(Ready(home), plan, Shake, now);
    forall e: nat | SEGMENT_TICK_MS <= e < SHAKE_DURATION_MS
      ensures EscapesAt(w, now, e, a) <==> !Inside(ShakeTarget(home, e, a.wave), LIMITS)
      ensures FailsAt(w, now, e, a) <==> !Inside(ShakeTarget(home, e, a.wave), RAW_LIMITS)
    {
      FirstTickEscapes(home, plan, now, e, a);
    }
    ShakeInsideExactlyWhen(home, LIMITS, a.wave);
    ShakeInsideExactlyWhen(home, RAW_LIMITS, a.wave);
  }

  lemma AcceptedShakeIsScheduled(home: Target, intensity: Intensity, durationMs: nat, servoReadOk: bool, now: nat,
                                 a: Answers)
    returns (plan: Plan)
    requires Command(Ready(home), Shake, intensity, durationMs, false, servoReadOk, now, a).1 == Ok
    ensures plan == PlanMotion(Shake, intensity, durationMs, true, servoReadOk, false) && plan.servoTimeMs > 0
    ensures Command(Ready(home), Shake, intensity, durationMs, false, servoReadOk, now, a).0
         == Scheduled(Ready(home), plan, Shake, now)
  {
    plan := PlanMotion(Shake, intensity, durationMs, true, servoReadOk, false);
    AcceptedPlanIsSafe(Shake, intensity, durationMs, true, servoReadOk, false);
    PlanStarts(Plan(Ok, [], PlanServoTime(Shake)), Rows(Shake, durationMs), intensity.r, 0);
  }

  /**
   Of every accepted shake, at any intensity: some first tick leaves the degree limits exactly when home leaves
   no room inside them, and some first tick fails the job exactly when it leaves none inside the raw ones.
   */
  lemma AcceptedShakeExactlyWhen(home: Target, intensity: Intensity, durationMs: nat, servoReadOk: bool, now: nat,
                                 a: Answers)
    requires Command(Ready(home), Shake, intensity, durationMs, false, servoReadOk, now, a).1 == Ok
    requires Healthy(a) && IsSine(a.wave)
    ensures var w := Command(Ready(home), Shake, intensity, durationMs, false, servoReadOk, now, a).0;
            && Timed(w)
            && (ShakeRoom(home, LIMITS) <==>
                  forall e: nat :: SEGMENT_TICK_MS <= e < SHAKE_DURATION_MS ==> !EscapesAt(w, now, e, a))
            && (ShakeRoom(home, RAW_LIMITS) <==>
                  forall e: nat :: SEGMENT_TICK_MS <= e < SHAKE_DURATION_MS ==> !FailsAt(w, now, e, a))
  {
    var plan := AcceptedShakeIsScheduled(home, intensity, durationMs, servoReadOk, now, a);
    ScheduledShakeExactlyWhen(home, plan, now, a);
  }

  /** At intensity 0 every home inside the normal limits will do to have a shake accepted, room or not. */
  lemma GentleShakeAccepted(home: Target, durationMs: nat, now: nat, a: Answers)
    requires WithinNormalLimits(home) && Healthy(a)
    requires durationMs == 0 || MIN_DURATION_MS <= durationMs <= MAX_DURATION_MS
    ensures Command(Ready(home), Shake, Value(0.0), durationMs, false, true, now, a).1 == Ok
  {
    AcceptedExactlyWhen(Shake, 0.0, durationMs);
    StillPlan(Shake, durationMs);
    StillShakeStarts(Ready(home), PlanMotion(Shake, Value(0.0), durationMs, true, true, false), now, a);
  }

  /** So below full intensity the limits are not safe: the shake is accepted, and leaves them exactly without room. */
  lemma GentleShakeLeavesTheLimits(home: Target, durationMs: nat, now: nat, a: Answers)
    requires WithinNormalLimits(home) && Healthy(a) && IsSine(a.wave)
    requires durationMs == 0 || MIN_DURATION_MS <= durationMs <= MAX_DURATION_MS
    ensures var (w, code) := Command(Ready(home), Shake, Value(0.0), durationMs, false, true, now, a);
            code == Ok && Timed(w)
            && (ShakeRoom(home, LIMITS) <==>
                  forall e: nat :: SEGMENT_TICK_MS <= e < SHAKE_DURATION_MS ==> !EscapesAt(w, now, e, a))
  {
    GentleShakeAccepted(home, durationMs, now, a);
    AcceptedShakeExactlyWhen(home, Value(0.0), durationMs, true, now, a);
  }

  /** From a home past 43 degrees the first yaw peak is sent past the limit: from 60, say, to 145. */
  lemma GentleShakeOvershoots(home: Target, durationMs: nat, now: nat, a: Answers)
    requires WithinNormalLimits(home) && 43 < home.x <= 84 && Healthy(a) && IsSine(a.wave)
    requires durationMs == 0 || MIN_DURATION_MS <= durationMs <= MAX_DURATION_MS
    ensures var (w, code) := Command(Ready(home), Shake, Value(0.0), durationMs, false, true, now, a);
            var peak := Target(home.x + 85, home.y + 11);
            code == Ok && Timed(w) && Tick(w, now + PEAK_MS, a).writes == [peak] && !WithinLimits(peak)
  {
    GentleShakeAccepted(home, durationMs, now, a);
    var plan := AcceptedShakeIsScheduled(home, Value(0.0), durationMs, true, now, a);
    Extremes(home, a.wave);
    FirstShakeTick(Ready(home), plan, now, PEAK_MS, a);
  }

  // ---- One segment ----

  lemma AdvanceSafe(box: Box, job: Job, now: nat, a: Answers)
    requires job.Job? && SafeJob(box, job) && job.segment.Segment?
    ensures var adv := AdvanceSegment(job, now, a);
            && AllInside(box, adv.writes)
            && (Healthy(a) ==> adv.code == Ok)
            && adv.job == job.(lastRetargetMs := adv.job.lastRetargetMs)
            && (adv.completed <==> Since(now, job.segment.startedMs) >= job.segment.durationMs)
            && (adv.code == Ok && adv.completed && job.motion != Shake ==> adv.writes == [job.segment.end])
            && (adv.code == Ok && adv.completed && job.phase == ReturnHome ==> adv.writes == [job.home])
  {
    var seg := job.segment;
    InsideIsRawValid(box, seg.end);
    var elapsed := Since(now, seg.startedMs);
    var shown := if job.lastRetargetMs == 0 && elapsed < SEGMENT_TICK_MS then SEGMENT_TICK_MS else elapsed;
    ProgressMonotone(shown, shown, seg.durationMs, seg.easing);
    var progress := EasedProgress(shown, seg.durationMs, seg.easing);
    InterpolateInside(seg.start, seg.end, progress, box);
    InsideIsRawValid(box, Interpolate(seg.start, seg.end, progress));
  }

  lemma WithSegmentSafe(box: Box, job: Job, now: nat, a: Answers)
    requires job.Job? && SafeJob(box, job) && IsSine(a.wave)
    requires job.phase == ReturnHome || (job.phase == MoveWaypoint && job.index < |job.waypoints|)
    requires job.servoTimeMs > 0
    ensures var job' := WithSegment(job, now, a);
            && SafeJob(box, job') && job'.segment.Segment?
            && job' == job.(segment := job'.segment, lastRetargetMs := job'.lastRetargetMs)
            && (job.segment.Segment? ==> job' == job)
            && (job.segment.NoSegment? ==> job'.segment.startedMs == now)
  {
    var c := CourseOf(job);
    ShakeRangeIfShaking(box, job, a);
    assert forall i :: 0 <= i < |c.waypoints| ==> Inside(Stop(c, i), box);
    assert forall i :: 0 <= i < |c.waypoints| ==> Stop(c, i) == Destination(job, i);
  }

  lemma ShakeRangeIfShaking(box: Box, job: Job, a: Answers)
    requires job.Job? && SafeJob(box, job) && IsSine(a.wave)
    ensures Inside(ReturnStart(job, a), box)
  {
    if job.motion == Shake {
      ShakeRange(job.home, SHAKE_DURATION_MS, a.wave);
    } else if job.waypoints != [] {
      var c := CourseOf(job);
      var last := |job.waypoints| - 1;
      assert Inside(Stop(c, last), box) && Stop(c, last) == Destination(job, last);
    }
  }

  // ---- One tick ----

  lemma NextStop(c: Course, i: nat)
    ensures Stops(c, i + 1) == Stops(c, i) + [Stop(c, i)]
  {
  }

  lemma AppendInside(box: Box, writes: seq<Target>, more: seq<Target>)
    requires AllInside(box, more)
    ensures AllInside(box, writes) ==> AllInside(box, writes + more)
  {
  }

  lemma FailSafe(box: Box, w: World, code: Code, a: Answers)
    requires OnCourse(box, w)
    ensures OnCourse(box, FailJob(w, code, a)) && Grows(box, w, FailJob(w, code, a))
  {
    AppendInside(box, w.writes, RecoveryWrites(w, a));
  }

  /** A fresh segment of this job is started by the next tick. */
  predicate Fresh(job: Job) { job.Job? && job.phase in {MoveWaypoint, ReturnHome} && job.segment.NoSegment? }

  /** What one tick with working servos does to the stops. */
  ghost predicate Progresses(w: World, w': World) {
    && w'.runtime != Fault
    && (w'.job.Job? ==> w.job.Job? && CourseOf(w'.job) == CourseOf(w.job))
    && (w'.job.Job? ==> |w'.arrived| <= |w.arrived| + (if Fresh(w.job) then 0 else 1))
    && (w'.job.NoJob? && w.job.Job? ==>
          w.job.phase == FinalSettle && w'.arrived == Itinerary(CourseOf(w.job)) && w'.writes == w.writes)
  }

  lemma TickReturnSafe(box: Box, w: World, now: nat, a: Answers)
    requires OnCourse(box, w) && IsSine(a.wave) && w.runtime != Fault && w.job.Job? && w.job.phase == ReturnHome
    ensures OnCourse(box, TickReturn(w, now, a)) && Grows(box, w, TickReturn(w, now, a))
    ensures Healthy(a) ==> Progresses(w, TickReturn(w, now, a))
  {
    WithSegmentSafe(box, w.job, now, a);
    var job := WithSegment(w.job, now, a);
    AdvanceSafe(box, job, now, a);
    var adv := AdvanceSegment(job, now, a);
    var w1 := w.(job := adv.job, writes := w.writes + adv.writes);
    AppendInside(box, w.writes, adv.writes);
    if adv.code != Ok { FailSafe(box, w1, adv.code, a); }
  }

  lemma ArriveSafe(box: Box, w: World, now: nat)
    requires OnCourse(box, w) && w.job.Job? && w.job.phase == MoveWaypoint && w.job.index < |w.job.waypoints|
    requires LastSent(w) == Stop(CourseOf(w.job), w.job.index)
    ensures OnCourse(box, NextLeg(w, now)) && CourseOf(NextLeg(w, now).job) == CourseOf(w.job)
            && Fresh(NextLeg(w, now).job)
    ensures OnCourse(box, Hold(w, now)) && CourseOf(Hold(w, now).job) == CourseOf(w.job)
  {
    NextStop(CourseOf(w.job), w.job.index);
  }

  lemma {:induction false} TickMoveSafe(box: Box, w: World, now: nat, a: Answers)
    requires OnCourse(box, w) && IsSine(a.wave) && w.runtime != Fault
    requires w.job.Job? && w.job.phase == MoveWaypoint && w.job.index < |w.job.waypoints|
    ensures OnCourse(box, TickMove(w, now, a)) && Grows(box, w, TickMove(w, now, a))
    ensures Healthy(a) ==> Progresses(w, TickMove(w, now, a))
    decreases Nesting(w.job), 0
  {
    WithSegmentSafe(box, w.job, now, a);
    var job := WithSegment(w.job, now, a);
    AdvanceSafe(box, job, now, a);
    var adv := AdvanceSegment(job, now, a);
    var w1 := w.(job := adv.job, writes := w.writes + adv.writes);
    AppendInside(box, w.writes, adv.writes);
    if adv.code != Ok {
      FailSafe(box, w1, adv.code, a);
    } else if adv.completed {
      ArriveSafe(box, w1, now);
      if w1.job.waypoints[w1.job.index].holdMs == 0 { TickSafe(box, NextLeg(w1, now), now, a); }
    }
  }

  /**
   One tick keeps every servo write inside the limits and the stops in order, and working servos never
   raise a fault.
   */
  lemma {:induction false} TickSafe(box: Box, w: World, now: nat, a: Answers)
    requires OnCourse(box, w) && IsSine(a.wave)
    ensures OnCourse(box, Tick(w, now, a)) && Grows(box, w, Tick(w, now, a))
    ensures Healthy(a) && w.runtime != Fault ==> Progresses(w, Tick(w, now, a))
    decreases Nesting(w.job), 1
  {
    var job := w.job;
    if job.Job? && w.runtime == Fault {
      FailSafe(box, w, MotionInterrupted, a);
    } else if job.Job? {
      match job.phase {
        case FinalSettle =>
        case ShakeTrajectory => TickShakeSafe(box, w, now, a);
        case MoveWaypoint =>
          if job.index >= |job.waypoints| {
            TickReturnSafe(box, BeginReturn(w, now), now, a);
          } else {
            TickMoveSafe(box, w, now, a);
          }
        case ReturnHome => TickReturnSafe(box, w, now, a);
        case HoldWaypoint => TickHoldSafe(box, w, now, a);
      }
    }
  }

  lemma {:induction false} TickShakeSafe(box: Box, w: World, now: nat, a: Answers)
    requires OnCourse(box, w) && IsSine(a.wave) && w.runtime != Fault && w.job.Job? && w.job.phase == ShakeTrajectory
    ensures OnCourse(box, Tick(w, now, a)) && Grows(box, w, Tick(w, now, a))
    ensures Healthy(a) ==> Progresses(w, Tick(w, now, a))
    decreases Nesting(w.job), 0
  {
    var elapsed := Since(now, w.job.phaseStartedMs);
    if elapsed >= SHAKE_DURATION_MS {
      TickSafe(box, BeginReturn(w, now), now, a);
    } else {
      ShakeTickSafe(box, w, if elapsed < SEGMENT_TICK_MS then SEGMENT_TICK_MS else elapsed, a);
    }
  }

  lemma {:induction false} TickHoldSafe(box: Box, w: World, now: nat, a: Answers)
    requires OnCourse(box, w) && IsSine(a.wave) && w.runtime != Fault && w.job.Job? && w.job.phase == HoldWaypoint
    ensures OnCourse(box, Tick(w, now, a)) && Grows(box, w, Tick(w, now, a))
    ensures Healthy(a) ==> Progresses(w, Tick(w, now, a))
    decreases Nesting(w.job), 0
  {
    if Since(now, w.job.phaseStartedMs) >= w.job.waypoints[w.job.index].holdMs {
      TickSafe(box, HoldOver(w, now), now, a);
    }
  }

  lemma ShakeTickSafe(box: Box, w: World, shown: nat, a: Answers)
    requires OnCourse(box, w) && IsSine(a.wave) && w.job.Job? && w.job.motion == Shake && shown < SHAKE_DURATION_MS
    ensures var t := ShakeTarget(w.job.home, shown, a.wave);
            Inside(t, box) && RawTargetValid(t)
            && OnCourse(box, FailJob(w, MoveServo(t, false, a), a))
            && Grows(box, w, FailJob(w, MoveServo(t, false, a), a))
  {
    var t := ShakeTarget(w.job.home, shown, a.wave);
    ShakeRange(w.job.home, shown, a.wave);
    InsideIsRawValid(box, t);
    FailSafe(box, w, MoveServo(t, false, a), a);
  }

  // ---- Safety of every run ----

  /** Every motion but the shake, or the shake at full intensity, or a home that leaves it room. */
  predicate RoomFor(box: Box, motion: Motion, intensity: Intensity, home: Target) {
    motion == Shake ==> intensity == Value(1.0) || ShakeRoom(home, box)
  }

  ghost predicate Covered(box: Box, input: Input, home: Target) {
    match input
    case Clock(_, a) => IsSine(a.wave)
    case MotionCommand(motion, intensity, _, _, _, _, a) => IsSine(a.wave) && RoomFor(box, motion, intensity, home)
    case PoseCommand(_, _, a) => IsSine(a.wave)
    case Connect => true
    case Disconnect => true
  }

  /** What is scheduled starts on its course. */
  lemma ScheduledOnCourse(box: Box, w: World, plan: Plan, motion: Motion, now: nat)
    requires BoxOk(box) && Agreeing(w) && SafePlan(plan) && motion != IdleMotion && w.job.NoJob? && w.runtime != Acting
    requires ValidateTargets(w.home, plan.waypoints) == Ok && (motion == Shake ==> ShakeRoom(w.home, box))
    ensures OnCourse(box, Scheduled(w, plan, motion, now))
  {
    var w' := Scheduled(w, plan, motion, now);
    var c := CourseOf(w'.job);
    forall i | 0 <= i < |c.waypoints|
      ensures Inside(Stop(c, i), box) && c.waypoints[i].servoTimeMs < 0x1_0000
    {
      assert SafeWaypoint(plan.waypoints[i]);
      assert WithinNormalLimits(Offset(w.home, plan.waypoints[i].offset));
    }
    assert Stops(c, 0) == [];
  }

  /** An accepted command leaves nothing scheduled or a job on its course. */
  lemma AcceptedOnCourse(box: Box, w: World, motion: Motion, intensity: Intensity, durationMs: nat, servoReadOk: bool,
                         now: nat, a: Answers)
    requires BoxOk(box) && Agreeing(w) && RoomFor(box, motion, intensity, w.home)
    requires Command(w, motion, intensity, durationMs, false, servoReadOk, now, a).1 == Ok
    ensures var w' := Command(w, motion, intensity, durationMs, false, servoReadOk, now, a).0;
            w'.job.Job? ==> OnCourse(box, w') && w'.job.home == w.home && w'.writes == w.writes
  {
    var plan := PlanMotion(motion, intensity, durationMs, w.calibrated, w.calibrated && servoReadOk, false);
    AcceptedPlanIsSafe(motion, intensity, durationMs, w.calibrated, w.calibrated && servoReadOk, false);
    if plan.waypoints != [] {
      if motion == Shake && !ShakeRoom(w.home, box) { FullShakeLeavesRoom(w.home, durationMs); }
      ScheduledOnCourse(box, w, plan, motion, now);
    }
  }

  lemma CommandSafe(box: Box, w: World, motion: Motion, intensity: Intensity, durationMs: nat, safetyPriority: bool,
                    servoReadOk: bool, now: nat, a: Answers)
    requires SafeWorld(box, w) && RoomFor(box, motion, intensity, w.home)
    ensures SafeWorld(box, Command(w, motion, intensity, durationMs, safetyPriority, servoReadOk, now, a).0)
  {
    if !safetyPriority && Command(w, motion, intensity, durationMs, false, servoReadOk, now, a).1 == Ok {
      AcceptedOnCourse(box, w, motion, intensity, durationMs, servoReadOk, now, a);
    }
  }

  lemma StepSafe(box: Box, w: World, input: Input)
    requires SafeWorld(box, w) && Covered(box, input, w.home)
    ensures SafeWorld(box, Step(w, input))
  {
    match input
    case Clock(now, a) => TickSafe(box, w, now, a);
    case MotionCommand(motion, intensity, durationMs, safety, servoReadOk, at, reply) =>
      CommandSafe(box, w, motion, intensity, durationMs, safety, servoReadOk, at, reply);
    case PoseCommand(planned, target, a) =>
      AppendInside(box, w.writes, RecoveryWrites(w, a));
    case Connect =>
    case Disconnect =>
  }

  lemma {:induction false} HomeStays(w: World, now: nat, a: Answers)
    requires Timed(w)
    ensures Tick(w, now, a).home == w.home
    decreases Nesting(w.job), 1
  {
    if w.job.Job? {
      match w.job.phase {
        case ShakeTrajectory =>
          if Since(now, w.job.phaseStartedMs) >= SHAKE_DURATION_MS { HomeStays(BeginReturn(w, now), now, a); }
        case HoldWaypoint => HomeStays(HoldOver(w, now), now, a);
        case MoveWaypoint => if w.job.index < |w.job.waypoints| { MoveHomeStays(w, now, a); }
        case _ =>
      }
    }
  }

  lemma {:induction false} MoveHomeStays(w: World, now: nat, a: Answers)
    requires Timed(w) && w.job.Job? && w.job.phase == MoveWaypoint && w.job.index < |w.job.waypoints|
    ensures TickMove(w, now, a).home == w.home
    decreases Nesting(w.job), 0
  {
    var adv := AdvanceSegment(WithSegment(w.job, now, a), now, a);
    var w1 := w.(job := adv.job, writes := w.writes + adv.writes);
    if adv.code == Ok && adv.completed && w1.job.waypoints[w1.job.index].holdMs == 0 {
      HomeStays(NextLeg(w1, now), now, a);
    }
  }

  /** Whatever is commanded and whenever the clock ticks, no servo is ever sent outside the box. */
  lemma {:induction false} EveryWriteInside(box: Box, w: World, inputs: seq<Input>)
    requires SafeWorld(box, w) && forall i :: 0 <= i < |inputs| ==> Covered(box, inputs[i], w.home)
    ensures SafeWorld(box, Run(w, inputs))
    decreases |inputs|
  {
    if inputs != [] {
      StepSafe(box, w, inputs[0]);
      if inputs[0].Clock? { HomeStays(w, inputs[0].now, inputs[0].answers); }
      EveryWriteInside(box, Step(w, inputs[0]), inputs[1..]);
    }
  }

  /** From setup on, whatever calibration record was loaded: an invalid one leaves nothing to move. */
  lemma EveryRunIsSafe(r: Calibration.Record, inputs: seq<Input>)
    requires forall i :: 0 <= i < |inputs| ==> Covered(LIMITS, inputs[i], Calibration.CorrectedHome(r.servo))
    ensures AllInside(LIMITS, Run(Initial(Calibration.Validates(r), Calibration.CorrectedHome(r.servo)), inputs).writes)
  {
    EveryWriteInside(LIMITS, Initial(Calibration.Validates(r), Calibration.CorrectedHome(r.servo)), inputs);
  }
}
