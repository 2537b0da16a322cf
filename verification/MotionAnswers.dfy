/** What the motion commands answer: the first requirement that is not met decides. */
module MotionAnswers {
  import opened Wire
  import opened Servo
  import opened Easing
  import opened MotionPlan
  import opened Runtime
  import opened Scheduler

  // ---- Planning ----

  predicate SafeIntensity(intensity: Intensity) { intensity.Value? && 0.0 <= intensity.r <= 1.0 }

  predicate SafeDuration(durationMs: nat) { durationMs == 0 || 100 <= durationMs <= 2000 }

  /** Before anything is planned: the name, the intensity, the duration. */
  lemma UnplannableIsRejected(motion: Motion, intensity: Intensity, durationMs: nat,
                              calibrationValid: bool, servoReadOk: bool, faultState: bool)
    ensures var plan := PlanMotion(motion, intensity, durationMs, calibrationValid, servoReadOk, faultState);
            && (plan.code != Ok ==> plan.waypoints == [])
            && (motion == UnknownMotion ==> plan.code == UnknownCommand)
            && (motion != UnknownMotion && !SafeIntensity(intensity) ==> plan.code == ServoLimitExceeded)
            && (motion != UnknownMotion && SafeIntensity(intensity) && !SafeDuration(durationMs) ==>
                  plan.code == MotionInterrupted)
            && (motion == IdleMotion && SafeIntensity(intensity) && SafeDuration(durationMs) ==>
                  plan.code == Ok && plan.waypoints == [])
  {
  }

  /** Then the calibration, the servos, a fault, and last the waypoints themselves. */
  lemma PlanAnswers(motion: Motion, i: real, durationMs: nat,
                    calibrationValid: bool, servoReadOk: bool, faultState: bool)
    requires motion != UnknownMotion && motion != IdleMotion && 0.0 <= i <= 1.0 && SafeDuration(durationMs)
    ensures var code := PlanMotion(motion, Value(i), durationMs, calibrationValid, servoReadOk, faultState).code;
            && (!calibrationValid ==> code == CalibrationInvalid)
            && (calibrationValid && !servoReadOk ==> code == ServoReadFailed)
            && (calibrationValid && servoReadOk && faultState ==> code == MotionInterrupted)
            && (calibrationValid && servoReadOk && !faultState ==>
                  code == if AcceptedIntensity(motion, i) then Ok else ServoLimitExceeded)
  {
    AcceptedExactlyWhen(motion, i, durationMs);
    AddRowsAccepts(Plan(Ok, [], PlanServoTime(motion)), Rows(motion, durationMs), i);
  }

  // ---- Motion commands ----

  /** Nothing is under way and nothing is wrong. */
  predicate Free(w: World) { w.runtime != Fault && w.job.NoJob? && w.runtime != Acting }

  /** Where a target lies that a motion may ask for: yaw within 128 degrees, pitch 0 or from 5 to 85. */
  predicate Reachable(t: Target) { -128 <= t.x <= 128 && (t.y == 0 || 5 <= t.y <= 85) }

  predicate HomeReachable(t: Target) { -128 <= t.x <= 128 && 0 <= t.y <= 90 }

  ghost predicate AllReachable(home: Target, waypoints: seq<Waypoint>) {
    HomeReachable(home) && forall i :: 0 <= i < |waypoints| ==> Reachable(Offset(home, waypoints[i].offset))
  }

  lemma ValidatedExactlyWhen(home: Target, waypoints: seq<Waypoint>)
    ensures ValidateTargets(home, waypoints) == if AllReachable(home, waypoints) then Ok else ServoLimitExceeded
  {
    assert forall i :: 0 <= i < |waypoints| ==>
        (WithinNormalLimits(Offset(home, waypoints[i].offset)) <==> Reachable(Offset(home, waypoints[i].offset)));
  }

  /** A refused command schedules nothing and writes nothing; the answer says which requirement it missed. */
  lemma CommandAnswers(w: World, motion: Motion, intensity: Intensity, durationMs: nat, safetyPriority: bool,
                       servoReadOk: bool, now: nat, a: Answers)
    ensures var (w1, code) := Command(w, motion, intensity, durationMs, safetyPriority, servoReadOk, now, a);
            var plan := PlanMotion(motion, intensity, durationMs, w.calibrated, w.calibrated && servoReadOk, false);
            var reached := !safetyPriority && Free(w) && plan.code == Ok && plan.waypoints != [];
            && (safetyPriority ==> w1 == w && code == InvalidPriority)
            && (!safetyPriority && !Free(w) ==> w1 == w && code == FirmwareBusy)
            && (!safetyPriority && Free(w) && plan.code != Ok ==> code == plan.code)
            && (!safetyPriority && Free(w) && plan.code == Ok && plan.waypoints == [] ==> code == Ok)
            && (reached && !AllReachable(w.home, plan.waypoints) ==> code == ServoLimitExceeded)
            && (reached && AllReachable(w.home, plan.waypoints) && a.adapter != Ok ==> code == a.adapter)
            && (reached && AllReachable(w.home, plan.waypoints) && a.adapter == Ok && !a.torqueOk ==>
                  code == MotionInterrupted)
            && (reached && AllReachable(w.home, plan.waypoints) && a.adapter == Ok && a.torqueOk ==>
                  code == Ok && w1.job.Job?)
            && (!safetyPriority && Free(w) && code != Ok ==> w1 == w.(currentMotion := IdleMotion))
  {
    var plan := PlanMotion(motion, intensity, durationMs, w.calibrated, w.calibrated && servoReadOk, false);
    ValidatedExactlyWhen(w.home, plan.waypoints);
  }

  /** Enqueueing itself refuses while something is under way. */
  lemma BusyEnqueueChangesNothing(w: World, plan: Plan, motion: Motion, now: nat, a: Answers)
    requires w.job.Job? || w.runtime == Acting
    ensures Enqueue(w, plan, motion, now, a) == (w, FirmwareBusy)
  {
  }

  /** The agent coming makes the runtime idle and the agent going degrades it, but for a fault, and nothing else. */
  lemma ConnectionAnswers(w: World)
    requires Timed(w)
    ensures Step(w, Connect) == w.(runtime := if w.runtime == Fault then Fault else Idle)
    ensures Step(w, Disconnect) == w.(runtime := if w.runtime == Fault then Fault else Degraded)
  {
  }

  // ---- Pose commands ----

  /** A pose is written exactly when nothing stands against it, and then nothing else changes. */
  lemma PoseWrittenExactlyWhen(w: World, planned: bool, target: Target, a: Answers)
    ensures var w1 := HeadPose(w, planned, target, a);
            var taken := Free(w) && planned && w.calibrated && HomeReachable(w.home) && Reachable(target);
            && (taken && a.adapter == Ok && a.torqueOk ==>
                  w1 == w.(currentMotion := IdleMotion, writes := w.writes + [target]))
            && (!Free(w) ==> w1 == w)
            && (Free(w) && !taken ==> w1 == w.(currentMotion := IdleMotion))
            && (taken && a.adapter == Ok && !a.torqueOk ==>
                  w1 == w.(currentMotion := IdleMotion, runtime := Fault))
            && (taken && a.adapter in {ServoReadFailed, MotionInterrupted} ==>
                  w1 == w.(currentMotion := IdleMotion, runtime := Fault))
            && (taken && a.adapter !in {Ok, ServoReadFailed, MotionInterrupted} ==>
                  w1 == w.(currentMotion := IdleMotion))
  {
    if Reachable(target) && WithinLimits(target) { LimitsImplyRawValid(target); }
    if HomeReachable(w.home) { LimitsImplyRawValid(w.home); }
    assert w.writes + [] == w.writes;
  }

  // ---- A job that cannot go on ----

  /**
   A tick that has a target to send and servos that do not take it ends the job: in a fault, if the adapter reports
   one or home cannot be reached either, and else as if it were finished.
   */
  lemma FailedJobFaultsExactlyWhen(w: World, code: Code, a: Answers)
    requires w.job.Job? && code != Ok
    ensures var w1 := FailJob(w, code, a);
            var homeTaken := w.calibrated && a.adapter == Ok && a.torqueOk && RawTargetValid(w.home);
            && w1.job == NoJob && w1.currentMotion == IdleMotion && w1.arrived == w.arrived
            && w1.writes == w.writes + (if homeTaken then [w.home] else [])
            && w1.runtime == if code in {ServoLimitExceeded, ServoReadFailed, MotionInterrupted} || !homeTaken
                             then Fault
                             else if w.runtime == Acting then Idle else w.runtime
  {
  }

  /** On a leg, to a waypoint or home, the segment begun. */
  predicate OnLeg(w: World) {
    && w.runtime != Fault && w.job.Job? && w.job.segment.Segment?
    && (w.job.phase == ReturnHome
        || (w.job.phase == MoveWaypoint && w.job.index < |w.job.waypoints| && w.job.motion != Shake))
  }

  /** At its end a segment has its end to send, before that something every 25 ms. */
  predicate SendDue(job: Job, now: nat)
    requires job.Job? && job.segment.Segment? && job.segment.startedMs <= now
  {
    || now - job.segment.startedMs >= job.segment.durationMs
    || job.lastRetargetMs == 0 || now - job.lastRetargetMs >= 25
  }

  /** Where a leg stands: at its end when its time is over, before that where its curve is, the first 25 ms skipped. */
  function Standing(job: Job, now: nat): Target
    requires job.Job? && job.segment.Segment? && job.segment.startedMs <= now
  {
    var seg, elapsed := job.segment, now - job.segment.startedMs;
    if elapsed >= seg.durationMs then seg.end
    else
      var progress := EasedProgress(if job.lastRetargetMs == 0 && elapsed < 25 then 25 else elapsed,
                                    seg.durationMs, seg.easing);
      Interpolate(seg.start, seg.end, progress)
  }

  /** What was sent stays sent, and what has arrived stays arrived. */
  lemma {:induction false} TickAdds(w: World, now: nat, a: Answers)
    requires Timed(w)
    ensures w.writes <= Tick(w, now, a).writes && w.arrived <= Tick(w, now, a).arrived
    decreases Nesting(w.job), 1
  {
    if w.job.Job? && w.runtime != Fault {
      match w.job.phase {
        case ShakeTrajectory =>
          if Since(now, w.job.phaseStartedMs) >= SHAKE_DURATION_MS { TickAdds(BeginReturn(w, now), now, a); }
        case HoldWaypoint => TickAdds(HoldOver(w, now), now, a);
        case MoveWaypoint => if w.job.index < |w.job.waypoints| { TickMoveAdds(w, now, a); }
        case _ =>
      }
    }
  }

  lemma {:induction false} TickMoveAdds(w: World, now: nat, a: Answers)
    requires Timed(w) && w.runtime != Fault
    requires w.job.Job? && w.job.phase == MoveWaypoint && w.job.index < |w.job.waypoints|
    ensures w.writes <= TickMove(w, now, a).writes && w.arrived <= TickMove(w, now, a).arrived
    decreases Nesting(w.job), 0
  {
    var adv := AdvanceSegment(WithSegment(w.job, now, a), now, a);
    var w1 := w.(job := adv.job, writes := w.writes + adv.writes);
    if adv.code == Ok && adv.completed && w1.job.waypoints[w1.job.index].holdMs == 0 {
      TickAdds(NextLeg(w1, now), now, a);
    }
  }

  function SendCode(t: Target, a: Answers): Code {
    if a.adapter != Ok then a.adapter else if !RawTargetValid(t) then ServoLimitExceeded else Ok
  }

  lemma LegAdvance(job: Job, now: nat, a: Answers)
    requires job.Job? && job.segment.Segment? && job.segment.startedMs <= now && job.lastRetargetMs <= now
    requires !(job.motion == Shake && job.phase == MoveWaypoint)
    ensures var t, over := Standing(job, now), now - job.segment.startedMs >= job.segment.durationMs;
            AdvanceSegment(job, now, a) ==
              if !SendDue(job, now) then Advance(Ok, false, job, [])
              else if SendCode(t, a) != Ok then Advance(SendCode(t, a), over, job, [])
              else Advance(Ok, over, if over then job else job.(lastRetargetMs := now), [t])
  {
  }

  lemma LegEndSent(w: World, now: nat, a: Answers)
    requires Timed(w) && OnLeg(w) && w.job.segment.startedMs <= now && a.adapter == Ok
    requires now - w.job.segment.startedMs >= w.job.segment.durationMs && RawTargetValid(w.job.segment.end)
    ensures var t, w' := w.job.segment.end, Tick(w, now, a);
            w.writes + [t] <= w'.writes && w.arrived + [t] <= w'.arrived
  {
    var t := w.job.segment.end;
    var w1 := w.(writes := w.writes + [t]);
    if w.job.phase == MoveWaypoint {
      TickAdds(NextLeg(w1, now), now, a);
      assert NextLeg(w1, now).arrived == w.arrived + [t];
    }
  }

  /**
   A tick on a leg sends where the leg stands, if anything is due, and a target that is not taken ends the job. What
   is sent at the end has arrived.
   */
  lemma LegTick(w: World, now: nat, a: Answers)
    requires Timed(w) && OnLeg(w) && w.job.segment.startedMs <= now && w.job.lastRetargetMs <= now
    ensures var t := Standing(w.job, now);
            var code := SendCode(t, a);
            var over := now - w.job.segment.startedMs >= w.job.segment.durationMs;
            var w' := Tick(w, now, a);
            && (!SendDue(w.job, now) ==> w' == w)
            && (SendDue(w.job, now) && code != Ok ==> w' == FailJob(w, code, a))
            && (SendDue(w.job, now) && code == Ok && !over ==>
                  w' == w.(job := w.job.(lastRetargetMs := now), writes := w.writes + [t]))
            && (code == Ok && over ==> w.writes + [t] <= w'.writes && w.arrived + [t] <= w'.arrived)
  {
    LegAdvance(w.job, now, a);
    if a.adapter == Ok && now - w.job.segment.startedMs >= w.job.segment.durationMs
       && RawTargetValid(w.job.segment.end)
    {
      LegEndSent(w, now, a);
    }
  }

  /**
   A tick of a shake sends where the trajectory stands, 25 ms after the last one, and a target that is not taken ends
   the job; after 3000 ms the way home begins.
   */
  lemma ShakeTick(w: World, now: nat, a: Answers)
    requires Timed(w) && w.runtime != Fault && w.job.Job? && w.job.phase == ShakeTrajectory
    requires w.job.phaseStartedMs <= now && w.job.lastRetargetMs <= now
    ensures var job, elapsed := w.job, now - w.job.phaseStartedMs;
            var t := ShakeTarget(job.home, if elapsed < 25 then 25 else elapsed, a.wave);
            var due := job.lastRetargetMs == 0 || now - job.lastRetargetMs >= 25;
            var w' := Tick(w, now, a);
            && (elapsed < 3000 && !due ==> w' == w)
            && (elapsed < 3000 && due && SendCode(t, a) != Ok ==> w' == FailJob(w, SendCode(t, a), a))
            && (elapsed < 3000 && due && SendCode(t, a) == Ok ==>
                  w' == w.(job := job.(lastRetargetMs := now), writes := w.writes + [t]))
            && (elapsed >= 3000 ==>
                  w' == Tick(w.(job := job.(phase := ReturnHome, phaseStartedMs := now, segment := NoSegment)), now, a))
  {
  }

  /** A hold lasts its time, and then the next leg begins, or the way home after the last waypoint. */
  lemma HoldTick(w: World, now: nat, a: Answers)
    requires Timed(w) && w.runtime != Fault && w.job.Job? && w.job.phase == HoldWaypoint
    requires w.job.index < |w.job.waypoints| && w.job.phaseStartedMs <= now
    ensures var job, w' := w.job, Tick(w, now, a);
            var last := job.index + 1 == |job.waypoints|;
            && (now - job.phaseStartedMs < job.waypoints[job.index].holdMs ==> w' == w)
            && (now - job.phaseStartedMs >= job.waypoints[job.index].holdMs ==>
                  w' == Tick(w.(job := job.(index := job.index + 1, segment := NoSegment,
                                            phase := if last then ReturnHome else MoveWaypoint,
                                            phaseStartedMs := if last then now else job.phaseStartedMs)), now, a))
  {
  }
}
