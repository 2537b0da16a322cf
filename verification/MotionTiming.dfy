/** Every accepted motion is over in bounded time, at home, with every waypoint reached once. */
module MotionTiming {
  import opened Wire
  import opened Servo
  import opened Easing
  import opened MotionPlan
  import opened Runtime
  import opened Scheduler
  import opened MotionRuns
  import opened ShakeWave

  function LegStart(c: Course, i: nat): Target { if i == 0 then c.home else Stop(c, i - 1) }

  /** A cheerful leg takes at least 190 ms and 7 ms a degree of its longer axis, but 1200 ms at most. */
  lemma LegTakes(motion: Motion, start: Target, end: Target, styleMs: nat)
    ensures var t := SegmentDuration(motion, start, end, styleMs);
            var dx, dy := 190 + 7 * AxisDistance(start.x, end.x), 190 + 7 * AxisDistance(start.y, end.y);
            && (motion != Cheerful ==> t == styleMs)
            && (motion == Cheerful ==>
                  && t <= 1200 && t in {1200, styleMs, dx, dy}
                  && (t < 1200 ==> styleMs <= t && dx <= t && dy <= t)
                  && (t == 1200 ==> styleMs >= 1200 || dx >= 1200 || dy >= 1200))
    ensures AxisDistance(start.x, end.x) == if start.x <= end.x then end.x - start.x else start.x - end.x
    ensures AxisDistance(start.y, end.y) == if start.y <= end.y then end.y - start.y else start.y - end.y
  {
  }

  /** How long the segment to waypoint `i` takes, or the one home after the last. */
  function LegTime(c: Course, i: nat): nat {
    if i < |c.waypoints| then
      var style := if c.waypoints[i].servoTimeMs == 0 then c.servoTimeMs else c.waypoints[i].servoTimeMs;
      SegmentDuration(c.motion, LegStart(c, i), Stop(c, i), style)
    else if c.motion == Shake then c.servoTimeMs
    else SegmentDuration(c.motion, LegStart(c, |c.waypoints|), c.home, c.servoTimeMs)
  }

  /** Segments end, and holds end, on the first tick after their time: at most `d` late. */
  function HoldTime(c: Course, i: nat, d: nat): nat
    requires i < |c.waypoints|
  {
    if c.waypoints[i].holdMs == 0 then 0 else c.waypoints[i].holdMs + d
  }

  /** From the start of the segment to waypoint `i` until the job is over. */
  function Remaining(c: Course, i: nat, d: nat): (time: nat)
    ensures time >= SETTLE_TIMEOUT_MS
    decreases |c.waypoints| - i
  {
    if i < |c.waypoints| then LegTime(c, i) + d + HoldTime(c, i, d) + Remaining(c, i + 1, d)
    else LegTime(c, i) + d + SETTLE_TIMEOUT_MS + d
  }

  /** When the job is over at the latest, if its next tick comes by `next`. */
  function Deadline(job: Job, next: nat, d: nat): nat
    requires job.Job?
  {
    var c := CourseOf(job);
    var n := |job.waypoints|;
    match job.phase
    case ShakeTrajectory => job.phaseStartedMs + SHAKE_DURATION_MS + d + Remaining(c, n, d)
    case MoveWaypoint => (if job.segment.Segment? then job.segment.startedMs else next) + Remaining(c, job.index, d)
    case HoldWaypoint =>
      job.phaseStartedMs + (if job.index < n then job.waypoints[job.index].holdMs + d + Remaining(c, job.index + 1, d)
                            else 0)
    case ReturnHome => (if job.segment.Segment? then job.segment.startedMs else next) + Remaining(c, n, d)
    case FinalSettle => job.phaseStartedMs + SETTLE_TIMEOUT_MS + d
  }

  /** The least time from the start of the segment to waypoint `i` until the job is over. */
  function Least(c: Course, i: nat): nat
    decreases |c.waypoints| - i
  {
    if i < |c.waypoints| then LegTime(c, i) + c.waypoints[i].holdMs + Least(c, i + 1)
    else LegTime(c, i) + 250
  }

  /** When the job is over at the earliest, if no tick comes before `next`. */
  function Earliest(job: Job, next: nat): nat
    requires job.Job?
  {
    var c := CourseOf(job);
    var n := |job.waypoints|;
    match job.phase
    case ShakeTrajectory => job.phaseStartedMs + 3000 + Least(c, n)
    case MoveWaypoint => (if job.segment.Segment? then job.segment.startedMs else next) + Least(c, job.index)
    case HoldWaypoint =>
      job.phaseStartedMs + (if job.index < n then job.waypoints[job.index].holdMs + Least(c, job.index + 1) else 0)
    case ReturnHome => (if job.segment.Segment? then job.segment.startedMs else next) + Least(c, n)
    case FinalSettle => job.phaseStartedMs + 250
  }

  /** What the last tick left unfinished was not yet due. */
  ghost predicate OnTime(job: Job, last: nat)
    requires job.Job?
  {
    var c := CourseOf(job);
    match job.phase
    case ShakeTrajectory => job.phaseStartedMs <= last < job.phaseStartedMs + SHAKE_DURATION_MS
    case MoveWaypoint =>
      job.index < |job.waypoints| && (job.segment.Segment? ==>
        job.segment.startedMs <= last < job.segment.startedMs + job.segment.durationMs
          && job.segment.durationMs == LegTime(c, job.index))
    case HoldWaypoint =>
      job.index < |job.waypoints| && job.phaseStartedMs <= last < job.phaseStartedMs + job.waypoints[job.index].holdMs
    case ReturnHome =>
      job.segment.Segment? ==>
        job.segment.startedMs <= last < job.segment.startedMs + job.segment.durationMs
        && job.segment.durationMs == LegTime(c, |c.waypoints|)
    case FinalSettle => job.phaseStartedMs <= last < job.phaseStartedMs + SETTLE_TIMEOUT_MS
  }

  /** An unfinished job has not reached its deadline. */
  lemma DeadlineAhead(job: Job, last: nat, next: nat, d: nat)
    requires job.Job? && OnTime(job, last) && last <= next
    ensures last < Deadline(job, next, d)
  {
  }

  /** One tick at `now`, no more than `d` after the one before, moves no deadline back and nothing forward. */
  ghost predicate InTime(job: Job, last: nat, next: nat, d: nat, w': World, now: nat) {
    w'.job.Job? ==>
      && job.Job? && Steady(w'.job) && OnTime(w'.job, now) && Deadline(w'.job, now + d, d) <= Deadline(job, next, d)
      && Earliest(job, last) <= Earliest(w'.job, now)
  }

  /** A leg goes from the stop before to the next one, or home, in its own time and on its own curve. */
  lemma StartsLeg(job: Job, now: nat, a: Answers)
    requires job.Job? && Steady(job) && Fresh(job)
    requires job.phase == MoveWaypoint ==> job.index < |job.waypoints|
    ensures var c, seg := CourseOf(job), WithSegment(job, now, a).segment;
            var i := if job.phase == ReturnHome then |job.waypoints| else job.index;
            && WithSegment(job, now, a) == job.(segment := seg, lastRetargetMs := 0)
            && seg.Segment? && seg.startedMs == now && seg.durationMs == LegTime(c, i) && seg.end == Stop(c, i)
            && seg.start == (if job.motion == Shake then ShakeTarget(job.home, 3000, a.wave) else LegStart(c, i))
            && seg.easing == (if i < |job.waypoints| then job.waypoints[i].easing else EaseInOutCubic)
  {
    var c := CourseOf(job);
    assert forall i :: 0 <= i < |c.waypoints| ==> Stop(c, i) == Destination(job, i);
  }

  /** Whatever the servos answer, a segment is completed by time alone. */
  lemma AdvanceByTime(job: Job, now: nat, a: Answers)
    requires job.Job? && job.segment.Segment?
    ensures var adv := AdvanceSegment(job, now, a);
            && adv.job == job.(lastRetargetMs := adv.job.lastRetargetMs)
            && (adv.completed <==> Since(now, job.segment.startedMs) >= job.segment.durationMs)
  {
  }

  /** The segment under way, on time or just begun. */
  lemma LegUnderWay(job: Job, last: nat, now: nat, next: nat, d: nat, a: Answers)
    requires job.Job? && Steady(job) && OnTime(job, last) && last <= now <= next <= last + d
    requires job.phase == ReturnHome || job.phase == MoveWaypoint
    ensures var job' := WithSegment(job, now, a);
            var i := if job.phase == ReturnHome then |job.waypoints| else job.index;
            && job'.segment.Segment? && job' == job.(segment := job'.segment, lastRetargetMs := job'.lastRetargetMs)
            && job'.segment.startedMs <= now <= job'.segment.startedMs + LegTime(CourseOf(job), i) + d
            && job'.segment.durationMs == LegTime(CourseOf(job), i)
            && job'.segment.startedMs + Remaining(CourseOf(job), i, d) <= Deadline(job, next, d)
            && Earliest(job, last) <= job'.segment.startedMs + Least(CourseOf(job), i)
  {
    if job.segment.NoSegment? { StartsLeg(job, now, a); }
  }

  lemma ReturnInTime(w: World, last: nat, now: nat, next: nat, d: nat, a: Answers)
    requires w.runtime != Fault && w.job.Job? && w.job.phase == ReturnHome && Steady(w.job)
    requires OnTime(w.job, last) && last <= now <= next <= last + d
    ensures InTime(w.job, last, next, d, TickReturn(w, now, a), now)
  {
    LegUnderWay(w.job, last, now, next, d, a);
    AdvanceByTime(WithSegment(w.job, now, a), now, a);
  }

  lemma ArriveInTime(w: World, started: nat, now: nat, d: nat)
    requires w.job.Job? && w.job.phase == MoveWaypoint && w.job.index < |w.job.waypoints| && Steady(w.job)
    requires started + LegTime(CourseOf(w.job), w.job.index) <= now
             <= started + LegTime(CourseOf(w.job), w.job.index) + d
    ensures w.job.waypoints[w.job.index].holdMs == 0 ==>
      var job' := NextLeg(w, now).job;
      Deadline(job', now, d) <= started + Remaining(CourseOf(w.job), w.job.index, d) && OnTime(job', now)
        && Steady(job') && started + Least(CourseOf(w.job), w.job.index) <= Earliest(job', now)
    ensures w.job.waypoints[w.job.index].holdMs > 0 ==>
      var job' := Hold(w, now).job;
      Deadline(job', now + d, d) <= started + Remaining(CourseOf(w.job), w.job.index, d) && OnTime(job', now)
        && Steady(job') && started + Least(CourseOf(w.job), w.job.index) <= Earliest(job', now)
  {
    assert CourseOf(NextLeg(w, now).job) == CourseOf(w.job) == CourseOf(Hold(w, now).job);
  }

  lemma {:induction false} MoveInTime(w: World, last: nat, now: nat, next: nat, d: nat, a: Answers)
    requires Agreeing(w) && w.runtime != Fault && w.job.Job? && Steady(w.job)
    requires w.job.phase == MoveWaypoint && w.job.index < |w.job.waypoints|
    requires OnTime(w.job, last) && last <= now <= next <= last + d
    ensures InTime(w.job, last, next, d, TickMove(w, now, a), now)
    decreases Nesting(w.job), 0
  {
    LegUnderWay(w.job, last, now, next, d, a);
    var job := WithSegment(w.job, now, a);
    AdvanceByTime(job, now, a);
    var adv := AdvanceSegment(job, now, a);
    var w1 := w.(job := adv.job, writes := w.writes + adv.writes);
    if adv.code == Ok && adv.completed {
      ArriveInTime(w1, job.segment.startedMs, now, d);
      if w1.job.waypoints[w1.job.index].holdMs == 0 { TickInTime(NextLeg(w1, now), now, now, now, d, a); }
    }
  }

  lemma {:induction false} ShakeInTime(w: World, last: nat, now: nat, next: nat, d: nat, a: Answers)
    requires Agreeing(w) && w.runtime != Fault && w.job.Job? && Steady(w.job) && w.job.phase == ShakeTrajectory
    requires OnTime(w.job, last) && last <= now <= next <= last + d
    ensures InTime(w.job, last, next, d, Tick(w, now, a), now)
    decreases Nesting(w.job), 0
  {
    if Since(now, w.job.phaseStartedMs) >= SHAKE_DURATION_MS { TickInTime(BeginReturn(w, now), now, now, now, d, a); }
  }

  /** A hold that is over, no more than `d` late. */
  lemma HoldOverInTime(w: World, last: nat, now: nat, next: nat, d: nat)
    requires w.job.Job? && Steady(w.job) && w.job.phase == HoldWaypoint && OnTime(w.job, last)
    requires last <= now <= next <= last + d && now - w.job.phaseStartedMs >= w.job.waypoints[w.job.index].holdMs
    ensures var job' := HoldOver(w, now).job;
            && Steady(job') && OnTime(job', now) && CourseOf(job') == CourseOf(w.job)
            && Deadline(job', now, d) <= Deadline(w.job, next, d) && Earliest(w.job, last) <= Earliest(job', now)
  {
    assert CourseOf(HoldOver(w, now).job) == CourseOf(w.job);
  }

  lemma {:induction false} HoldInTime(w: World, last: nat, now: nat, next: nat, d: nat, a: Answers)
    requires Agreeing(w) && w.runtime != Fault && w.job.Job? && Steady(w.job) && w.job.phase == HoldWaypoint
    requires OnTime(w.job, last) && last <= now <= next <= last + d
    ensures InTime(w.job, last, next, d, Tick(w, now, a), now)
    decreases Nesting(w.job), 0
  {
    if Since(now, w.job.phaseStartedMs) >= w.job.waypoints[w.job.index].holdMs {
      HoldOverInTime(w, last, now, next, d);
      TickInTime(HoldOver(w, now), now, now, now, d, a);
    }
  }

  /** Whatever the servos answer: a fault or a refused write only ends the job sooner. */
  lemma {:induction false} TickInTime(w: World, last: nat, now: nat, next: nat, d: nat, a: Answers)
    requires Agreeing(w) && w.job.Job? && Steady(w.job)
    requires OnTime(w.job, last) && last <= now <= next <= last + d
    ensures InTime(w.job, last, next, d, Tick(w, now, a), now)
    decreases Nesting(w.job), 1
  {
    if w.runtime != Fault {
      match w.job.phase {
        case FinalSettle =>
        case ShakeTrajectory => ShakeInTime(w, last, now, next, d, a);
        case MoveWaypoint => MoveInTime(w, last, now, next, d, a);
        case ReturnHome => ReturnInTime(w, last, now, next, d, a);
        case HoldWaypoint => HoldInTime(w, last, now, next, d, a);
      }
    }
  }

  // ---- Whole runs ----

  /** Ticks at most `d` apart; commands, poses and the agent may come and go in between. */
  ghost predicate Spaced(inputs: seq<Input>, last: nat, d: nat)
    decreases |inputs|
  {
    inputs == [] ||
    if inputs[0].Clock? then last <= inputs[0].now <= last + d && Spaced(inputs[1..], inputs[0].now, d)
    else Spaced(inputs[1..], last, d)
  }

  function LastTick(inputs: seq<Input>, last: nat): nat
    decreases |inputs|
  {
    if inputs == [] then last
    else LastTick(inputs[1..], if inputs[0].Clock? then inputs[0].now else last)
  }

  /** While a job is active only ticks change it. */
  lemma OnlyTicksMoveJobs(w: World, input: Input)
    requires Agreeing(w) && w.job.Job? && !input.Clock?
    ensures Step(w, input) == w.(runtime := Step(w, input).runtime)
    ensures w.runtime != Fault ==> Step(w, input).runtime != Fault
  {
  }

  /** At some moment of the run nothing is scheduled. */
  ghost predicate EndsDuring(w: World, inputs: seq<Input>)
    requires Agreeing(w)
    decreases |inputs|
  {
    w.job == NoJob ||
    (inputs != [] && (StepKeepsAgreeing(w, inputs[0]); EndsDuring(Step(w, inputs[0]), inputs[1..])))
  }

  /** An unfinished job is on time and over by `limit`. */
  ghost predicate Due(w: World, last: nat, d: nat, limit: nat) {
    w.job.Job? ==> Steady(w.job) && OnTime(w.job, last) && Deadline(w.job, last + d, d) <= limit
  }

  lemma {:induction false} RunEnds(w: World, inputs: seq<Input>, last: nat, d: nat, limit: nat)
    requires Agreeing(w) && Due(w, last, d, limit) && Spaced(inputs, last, d) && LastTick(inputs, last) >= limit
    ensures EndsDuring(w, inputs)
    decreases |inputs|
  {
    if w.job.Job? {
      DeadlineAhead(w.job, last, last + d, d);
      StepKeepsAgreeing(w, inputs[0]);
      var w' := Step(w, inputs[0]);
      if inputs[0].Clock? {
        TickInTime(w, last, inputs[0].now, last + d, d, inputs[0].answers);
        RunEnds(w', inputs[1..], inputs[0].now, d, limit);
      } else {
        OnlyTicksMoveJobs(w, inputs[0]);
        RunEnds(w', inputs[1..], last, d, limit);
      }
    }
  }

  /** At rest: nothing scheduled, the stops of the course reached in order, the servos last sent home. */
  ghost predicate AtRest(w: World, c: Course) {
    && w.job == NoJob && w.runtime != Fault && w.runtime != Acting && w.currentMotion == IdleMotion
    && w.arrived == Itinerary(c)
    && w.writes != [] && w.writes[|w.writes| - 1] == c.home
  }

  /** At some moment of the run. */
  ghost predicate RestsDuring(w: World, c: Course, inputs: seq<Input>)
    requires Agreeing(w)
    decreases |inputs|
  {
    AtRest(w, c) ||
    (inputs != [] && (StepKeepsAgreeing(w, inputs[0]); RestsDuring(Step(w, inputs[0]), c, inputs[1..])))
  }

  /** The servos answer on every tick. */
  ghost predicate Working(inputs: seq<Input>) {
    forall i :: 0 <= i < |inputs| && inputs[i].Clock? ==> Healthy(inputs[i].answers) && IsSine(inputs[i].answers.wave)
  }

  /** Under way along the course, on time, and over by `limit`. */
  ghost predicate UnderWay(w: World, c: Course, last: nat, d: nat, limit: nat) {
    && OnCourse(RAW_LIMITS, w) && w.runtime != Fault && w.job.Job? && CourseOf(w.job) == c
    && OnTime(w.job, last) && Deadline(w.job, last + d, d) <= limit
  }

  lemma TickReachesRest(w: World, c: Course, last: nat, now: nat, d: nat, limit: nat, a: Answers)
    requires UnderWay(w, c, last, d, limit) && Healthy(a) && IsSine(a.wave) && last <= now <= last + d
    ensures Agreeing(Tick(w, now, a))
    ensures AtRest(Tick(w, now, a), c) || UnderWay(Tick(w, now, a), c, now, d, limit)
  {
    TickSafe(RAW_LIMITS, w, now, a);
    TickInTime(w, last, now, last + d, d, a);
  }

  lemma {:induction false} RunReachesRest(w: World, c: Course, inputs: seq<Input>, last: nat, d: nat, limit: nat)
    requires UnderWay(w, c, last, d, limit) && Spaced(inputs, last, d) && Working(inputs)
             && LastTick(inputs, last) >= limit
    ensures RestsDuring(w, c, inputs)
    decreases |inputs|
  {
    DeadlineAhead(w.job, last, last + d, d);
    var w' := Step(w, inputs[0]);
    StepKeepsAgreeing(w, inputs[0]);
    assert forall i :: 0 <= i < |inputs[1..]| ==> inputs[1..][i] == inputs[i + 1];
    if inputs[0].Clock? {
      TickReachesRest(w, c, last, inputs[0].now, d, limit, inputs[0].answers);
      if !AtRest(w', c) { RunReachesRest(w', c, inputs[1..], inputs[0].now, d, limit); }
    } else {
      OnlyTicksMoveJobs(w, inputs[0]);
      RunReachesRest(w', c, inputs[1..], last, d, limit);
    }
  }

  /** No commands and no poses. */
  ghost predicate Uncommanded(inputs: seq<Input>) {
    forall i :: 0 <= i < |inputs| ==> inputs[i].Clock? || inputs[i].Connect? || inputs[i].Disconnect?
  }

  /** Without a new command the rest lasts. */
  lemma {:induction false} RestLasts(w: World, c: Course, inputs: seq<Input>)
    requires Agreeing(w) && RestsDuring(w, c, inputs) && Uncommanded(inputs)
    ensures AtRest(Run(w, inputs), c)
    decreases |inputs|
  {
    if inputs != [] {
      StepKeepsAgreeing(w, inputs[0]);
      assert forall i :: 0 <= i < |inputs[1..]| ==> inputs[1..][i] == inputs[i + 1];
      RestLasts(Step(w, inputs[0]), c, inputs[1..]);
    }
  }

  /** How long an accepted motion may take: the shake or nothing, every leg and hold, the way home, the settling. */
  function Allowed(c: Course, d: nat): nat {
    if c.motion == Shake then SHAKE_DURATION_MS + d + Remaining(c, |c.waypoints|, d) else d + Remaining(c, 0, d)
  }

  /** One `d` for every phase on top of the plain sum of the times. */
  function Phases(c: Course, i: nat): nat
    decreases |c.waypoints| - i
  {
    if i < |c.waypoints| then 1 + (if c.waypoints[i].holdMs == 0 then 0 else 1) + Phases(c, i + 1) else 2
  }

  lemma Distribute(k: nat, p: nat, d: nat)
    ensures (k + p) * d == k * d + p * d
  {
  }

  lemma {:induction false} RemainingIsTheSum(c: Course, i: nat, d: nat)
    ensures Remaining(c, i, d) == Remaining(c, i, 0) + Phases(c, i) * d
    decreases |c.waypoints| - i
  {
    if i < |c.waypoints| {
      RemainingIsTheSum(c, i + 1, d);
      Distribute(if c.waypoints[i].holdMs == 0 then 1 else 2, Phases(c, i + 1), d);
    }
  }

  /** The course that a plan prescribes from a home. */
  function Planned(motion: Motion, home: Target, plan: Plan): Course {
    Course(motion, home, plan.waypoints, plan.servoTimeMs)
  }

  /** The plan of a command in this world. */
  function PlanIn(w: World, motion: Motion, intensity: Intensity, durationMs: nat, servoReadOk: bool): Plan {
    PlanMotion(motion, intensity, durationMs, w.calibrated, w.calibrated && servoReadOk, false)
  }

  /** An accepted command schedules its plan as it is, from the calibrated home; the idle motion schedules nothing. */
  lemma AcceptedIsPlanned(w: World, motion: Motion, intensity: Intensity, durationMs: nat, servoReadOk: bool,
                          now: nat, a: Answers)
    requires Command(w, motion, intensity, durationMs, false, servoReadOk, now, a).1 == Ok
    ensures var w1 := Command(w, motion, intensity, durationMs, false, servoReadOk, now, a).0;
            var plan := PlanIn(w, motion, intensity, durationMs, servoReadOk);
            && plan.code == Ok && w1.home == w.home && w1.writes == w.writes
            && if motion == IdleMotion then w1 == w.(currentMotion := IdleMotion)
               else
                 && w1.job.Job? && CourseOf(w1.job) == Planned(motion, w.home, plan)
                 && w1.arrived == [] && w1.currentMotion == motion
                 && w1.runtime == (if w.runtime == Idle then Acting else w.runtime)
  {
    if motion != IdleMotion {
      AcceptedPlanHoldsRows(motion, intensity, durationMs, w.calibrated, w.calibrated && servoReadOk, false);
    }
  }

  lemma AcceptedIsDue(w: World, motion: Motion, intensity: Intensity, durationMs: nat, servoReadOk: bool,
                      now: nat, a: Answers, d: nat)
    requires Agreeing(w) && Command(w, motion, intensity, durationMs, false, servoReadOk, now, a).1 == Ok
    ensures var w1 := Command(w, motion, intensity, durationMs, false, servoReadOk, now, a).0;
            Agreeing(w1) && (w1.job.Job? ==> Due(w1, now, d, now + Allowed(CourseOf(w1.job), d)))
  {
    CommandKeepsAgreeing(w, motion, intensity, durationMs, false, servoReadOk, now, a);
  }

  /**
   Every accepted motion ends within the time of its plan, whatever the servos answer on the way and whatever
   else comes in between.
   */
  lemma AcceptedMotionEnds(w: World, motion: Motion, intensity: Intensity, durationMs: nat, servoReadOk: bool,
                           now: nat, a: Answers, inputs: seq<Input>, d: nat)
    requires Agreeing(w) && Command(w, motion, intensity, durationMs, false, servoReadOk, now, a).1 == Ok
    requires var c := Planned(motion, w.home, PlanIn(w, motion, intensity, durationMs, servoReadOk));
             LastTick(inputs, now) >= now + Allowed(c, d)
    requires Spaced(inputs, now, d)
    ensures var w1 := Command(w, motion, intensity, durationMs, false, servoReadOk, now, a).0;
            Agreeing(w1) && EndsDuring(w1, inputs)
  {
    AcceptedIsDue(w, motion, intensity, durationMs, servoReadOk, now, a, d);
    AcceptedIsPlanned(w, motion, intensity, durationMs, servoReadOk, now, a);
    var w1 := Command(w, motion, intensity, durationMs, false, servoReadOk, now, a).0;
    if w1.job.Job? { RunEnds(w1, inputs, now, d, now + Allowed(CourseOf(w1.job), d)); }
  }

  /**
   With working servos, and room for a shake inside the raw limits, it ends at rest: each planned waypoint reached
   once and in order, home last. Without a new command it stays there.
   */
  lemma AcceptedMotionComesToRest(w: World, motion: Motion, intensity: Intensity, durationMs: nat, servoReadOk: bool,
                                  now: nat, a: Answers, inputs: seq<Input>, d: nat)
    requires Agreeing(w) && RoomFor(RAW_LIMITS, motion, intensity, w.home) && motion != IdleMotion
    requires Command(w, motion, intensity, durationMs, false, servoReadOk, now, a).1 == Ok
    requires var c := Planned(motion, w.home, PlanIn(w, motion, intensity, durationMs, servoReadOk));
             LastTick(inputs, now) >= now + Allowed(c, d)
    requires Spaced(inputs, now, d) && Working(inputs)
    ensures var w1 := Command(w, motion, intensity, durationMs, false, servoReadOk, now, a).0;
            var c := Planned(motion, w.home, PlanIn(w, motion, intensity, durationMs, servoReadOk));
            Agreeing(w1) && RestsDuring(w1, c, inputs) && (Uncommanded(inputs) ==> AtRest(Run(w1, inputs), c))
  {
    AcceptedIsDue(w, motion, intensity, durationMs, servoReadOk, now, a, d);
    AcceptedIsPlanned(w, motion, intensity, durationMs, servoReadOk, now, a);
    AcceptedOnCourse(RAW_LIMITS, w, motion, intensity, durationMs, servoReadOk, now, a);
    var w1 := Command(w, motion, intensity, durationMs, false, servoReadOk, now, a).0;
    RunReachesRest(w1, CourseOf(w1.job), inputs, now, d, now + Allowed(CourseOf(w1.job), d));
    if Uncommanded(inputs) { RestLasts(w1, CourseOf(w1.job), inputs); }
  }

  /**
   The settling is over after 1200 ms, or after 250 ms once the servos answer that they have stopped; a clock that
   went back has not moved.
   */
  lemma SettlesExactlyWhen(w: World, now: nat, a: Answers)
    requires Timed(w) && w.runtime != Fault && w.job.Job? && w.job.phase == FinalSettle
    ensures var elapsed := if w.job.phaseStartedMs <= now then now - w.job.phaseStartedMs else 0;
            Tick(w, now, a) ==
              if elapsed >= 1200 || (elapsed >= 250 && a.adapter == Ok && a.moving == Stopped) then
                w.(runtime := if w.runtime == Acting then Idle else w.runtime, job := NoJob,
                   currentMotion := IdleMotion)
              else w
  {
  }

  lemma TickIsNotEarly(w: World, c: Course, last: nat, now: nat, d: nat, limit: nat, a: Answers)
    requires UnderWay(w, c, last, d, limit) && Healthy(a) && IsSine(a.wave) && last <= now <= last + d
    requires now < Earliest(w.job, last)
    ensures UnderWay(Tick(w, now, a), c, now, d, limit)
    ensures Earliest(Tick(w, now, a).job, now) >= Earliest(w.job, last)
  {
    TickReachesRest(w, c, last, now, d, limit, a);
    TickSafe(RAW_LIMITS, w, now, a);
    TickInTime(w, last, now, last + d, d, a);
    if w.job.phase == FinalSettle { SettlesExactlyWhen(w, now, a); }
  }

  lemma {:induction false} TicksGoOn(inputs: seq<Input>, last: nat, d: nat)
    requires Spaced(inputs, last, d)
    ensures last <= LastTick(inputs, last)
    decreases |inputs|
  {
    if inputs != [] { TicksGoOn(inputs[1..], if inputs[0].Clock? then inputs[0].now else last, d); }
  }

  lemma {:induction false} RunIsNotEarly(w: World, c: Course, inputs: seq<Input>, last: nat, d: nat, limit: nat)
    requires UnderWay(w, c, last, d, limit) && Spaced(inputs, last, d) && Working(inputs)
             && LastTick(inputs, last) < Earliest(w.job, last)
    ensures Run(w, inputs).job.Job? && CourseOf(Run(w, inputs).job) == c
    decreases |inputs|
  {
    if inputs != [] {
      StepKeepsAgreeing(w, inputs[0]);
      assert forall i :: 0 <= i < |inputs[1..]| ==> inputs[1..][i] == inputs[i + 1];
      if inputs[0].Clock? {
        TicksGoOn(inputs[1..], inputs[0].now, d);
        TickIsNotEarly(w, c, last, inputs[0].now, d, limit, inputs[0].answers);
        RunIsNotEarly(Step(w, inputs[0]), c, inputs[1..], inputs[0].now, d, limit);
      } else {
        OnlyTicksMoveJobs(w, inputs[0]);
        RunIsNotEarly(Step(w, inputs[0]), c, inputs[1..], last, d, limit);
      }
    }
  }

  /** The plain sum: the shake or every leg and hold, the way home, and 250 ms to settle. */
  function Needed(c: Course): nat {
    if c.motion == Shake then 3000 + Least(c, |c.waypoints|) else Least(c, 0)
  }

  /** With working servos no motion is over before every leg and every hold has had its time. */
  lemma AcceptedMotionTakesItsTime(w: World, motion: Motion, intensity: Intensity, durationMs: nat, servoReadOk: bool,
                                   now: nat, a: Answers, inputs: seq<Input>, d: nat)
    requires Agreeing(w) && RoomFor(RAW_LIMITS, motion, intensity, w.home) && motion != IdleMotion
    requires Command(w, motion, intensity, durationMs, false, servoReadOk, now, a).1 == Ok
    requires var c := Planned(motion, w.home, PlanIn(w, motion, intensity, durationMs, servoReadOk));
             LastTick(inputs, now) < now + Needed(c)
    requires Spaced(inputs, now, d) && Working(inputs)
    ensures var w1 := Command(w, motion, intensity, durationMs, false, servoReadOk, now, a).0;
            var c := Planned(motion, w.home, PlanIn(w, motion, intensity, durationMs, servoReadOk));
            Agreeing(w1) && Run(w1, inputs).job.Job? && CourseOf(Run(w1, inputs).job) == c
  {
    AcceptedIsDue(w, motion, intensity, durationMs, servoReadOk, now, a, d);
    AcceptedIsPlanned(w, motion, intensity, durationMs, servoReadOk, now, a);
    AcceptedOnCourse(RAW_LIMITS, w, motion, intensity, durationMs, servoReadOk, now, a);
    var w1 := Command(w, motion, intensity, durationMs, false, servoReadOk, now, a).0;
    RunIsNotEarly(w1, CourseOf(w1.job), inputs, now, d, now + Allowed(CourseOf(w1.job), d));
  }

  /** What has arrived at rest: home offset by each planned waypoint, in order, then home. */
  lemma ArrivedAtRest(w: World, motion: Motion, home: Target, plan: Plan)
    requires AtRest(w, Planned(motion, home, plan))
    ensures w.arrived[|w.arrived| - 1..] == [home]
    ensures motion != Shake ==> |w.arrived| == |plan.waypoints| + 1
    ensures motion != Shake ==> forall i :: 0 <= i < |plan.waypoints| ==>
              w.arrived[i].x == home.x + plan.waypoints[i].offset.x
              && w.arrived[i].y == home.y + plan.waypoints[i].offset.y
    ensures motion == Shake ==> w.arrived == [home]
  {
  }

  lemma {:induction false} FaultNeverRests(w: World, c: Course, inputs: seq<Input>)
    requires Agreeing(w) && w.runtime == Fault
    ensures !RestsDuring(w, c, inputs)
    decreases |inputs|
  {
    if inputs != [] {
      StepKeepsAgreeing(w, inputs[0]);
      FaultNeverRests(Step(w, inputs[0]), c, inputs[1..]);
    }
  }

  /** That room is what it takes: without it a first tick at some moment ends an accepted shake in a fault. */
  lemma ShakeWithoutRoomNeverRests(home: Target, intensity: Intensity, durationMs: nat, servoReadOk: bool,
                                   now: nat, a: Answers)
    returns (e: nat)
    requires Command(Ready(home), Shake, intensity, durationMs, false, servoReadOk, now, a).1 == Ok
    requires Healthy(a) && IsSine(a.wave) && !ShakeRoom(home, RAW_LIMITS)
    ensures SEGMENT_TICK_MS <= e < SHAKE_DURATION_MS
    ensures var w1 := Command(Ready(home), Shake, intensity, durationMs, false, servoReadOk, now, a).0;
            && w1.job.Job? && Agreeing(w1)
            && forall inputs :: inputs != [] && inputs[0] == Clock(now + e, a) ==>
                 !RestsDuring(w1, CourseOf(w1.job), inputs)
  {
    var plan := AcceptedShakeIsScheduled(home, intensity, durationMs, servoReadOk, now, a);
    AcceptedShakeExactlyWhen(home, intensity, durationMs, servoReadOk, now, a);
    var w1 := Scheduled(Ready(home), plan, Shake, now);
    e :| SEGMENT_TICK_MS <= e < SHAKE_DURATION_MS && FailsAt(w1, now, e, a);
    StepKeepsAgreeing(w1, Clock(now + e, a));
    forall inputs | inputs != [] && inputs[0] == Clock(now + e, a)
      ensures !RestsDuring(w1, CourseOf(w1.job), inputs)
    {
      FaultNeverRests(Tick(w1, now + e, a), CourseOf(w1.job), inputs[1..]);
    }
  }
}
