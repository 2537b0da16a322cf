/** Named motions: the waypoints they plan, and which intensities they accept. */
module MotionPlan {
  import opened Wire
  import opened Servo
  import opened Easing

  const MAX_WAYPOINTS := 24
  const DEFAULT_SERVO_TIME_MS := 105
  const MIN_DURATION_MS := 100
  const MAX_DURATION_MS := 2000

  datatype Motion = Nod | Shake | Cheerful | IdleMotion | LookLeft | LookRight | LookUser | UnknownMotion

  /** A float argument: not a number, or its value. */
  datatype Intensity = NotANumber | Value(r: real)

  datatype Waypoint = Waypoint(offset: Target, holdMs: nat, servoTimeMs: nat, easing: Curve)

  /** One line of a preset: a scaled move, or the way back to neutral. */
  datatype Row = Move(x: int, y: int, holdMs: nat, servoTimeMs: nat, easing: Curve) | BackHome(holdMs: nat)

  datatype Plan = Plan(code: Code, waypoints: seq<Waypoint>, servoTimeMs: nat)

  function Rejected(code: Code): Plan { Plan(code, [], DEFAULT_SERVO_TIME_MS) }

  /** `static_cast<int>`: toward zero. */
  function TruncReal(r: real): int { if r >= 0.0 then r.Floor else -((-r).Floor) }

  function Scaled(degrees: int, intensity: real): real { degrees as real * intensity }

  function ScaledDegrees(degrees: int, intensity: real): int { TruncReal(Scaled(degrees, intensity)) }

  function ScaledHold(holdMs: nat, durationMs: nat, defaultMs: nat): nat {
    if holdMs == 0 then 0
    else if durationMs == 0 || defaultMs == 0 then holdMs
    else
      var scaled := Wrap32(holdMs * durationMs) / defaultMs;
      if scaled < MIN_DURATION_MS / 2 then MIN_DURATION_MS / 2 else scaled
  }

  function Gesture(x: int, y: int, holdMs: nat): Row { Move(x, y, holdMs, DEFAULT_SERVO_TIME_MS, EaseInOutCubic) }

  function Sway(x: int, y: int, servoTimeMs: nat): Row { Move(x, y, 0, servoTimeMs, Linear) }

  /** The preset tables. */
  function Rows(motion: Motion, durationMs: nat): seq<Row> {
    match motion
    case Nod =>
      var hold := ScaledHold(90, durationMs, 360);
      [Gesture(0, 18, hold), BackHome(hold), Gesture(0, 18, hold), BackHome(hold)]
    case Shake =>
      [Sway(88, 8, 180), Sway(-88, 11, 180), Sway(84, 8, 180), Sway(-84, 11, 180), Sway(78, 8, 180),
       Sway(-78, 10, 180), Sway(70, 8, 165), Sway(-70, 10, 165), Sway(58, 7, 165), Sway(-48, 7, 165)]
    case Cheerful =>
      [Move(28, 52, ScaledHold(0, durationMs, 1820), 320, EaseInOutCubic),
       Move(82, 82, ScaledHold(0, durationMs, 1820), 700, EaseOutBackLike),
       Move(-64, 70, ScaledHold(20, durationMs, 1820), 620, EaseInOutCubic),
       Move(16, 46, ScaledHold(0, durationMs, 1820), 500, EaseOutSine)]
    case LookLeft =>
      var hold := ScaledHold(750, durationMs, 1500);
      [Gesture(22, 6, hold), BackHome(hold)]
    case LookRight =>
      var hold := ScaledHold(750, durationMs, 1500);
      [Gesture(-22, 6, hold), BackHome(hold)]
    case LookUser =>
      [Gesture(0, 60, ScaledHold(180, durationMs, 1900)), Gesture(0, 15, ScaledHold(220, durationMs, 1900)),
       Gesture(0, 45, ScaledHold(850, durationMs, 1900)), BackHome(ScaledHold(650, durationMs, 1900))]
    case _ => []
  }

  function PlanServoTime(motion: Motion): nat {
    match motion
    case Shake => 270
    case Cheerful => 700
    case _ => DEFAULT_SERVO_TIME_MS
  }

  function WaypointOf(row: Row, intensity: real): Waypoint {
    match row
    case Move(x, y, holdMs, servoTimeMs, easing) =>
      Waypoint(Target(ScaledDegrees(x, intensity), ScaledDegrees(y, intensity)), holdMs, servoTimeMs, easing)
    case BackHome(holdMs) => Waypoint(NEUTRAL, holdMs, DEFAULT_SERVO_TIME_MS, EaseInOutCubic)
  }

  function AddRow(plan: Plan, row: Row, intensity: real): Plan {
    var w := WaypointOf(row, intensity);
    if |plan.waypoints| >= MAX_WAYPOINTS then plan.(code := MotionInterrupted)
    else if row.Move? && !WithinNormalLimits(w.offset) then plan.(code := ServoLimitExceeded)
    else if row.BackHome? && !WithinLimits(w.offset) then plan.(code := ServoLimitExceeded)
    else plan.(waypoints := plan.waypoints + [w])
  }

  /** Rows are added in order until one is refused. */
  function AddRows(plan: Plan, rows: seq<Row>, intensity: real): Plan
    decreases |rows|
  {
    if rows == [] || plan.code != Ok then plan else AddRows(AddRow(plan, rows[0], intensity), rows[1..], intensity)
  }

  function PlanMotion(motion: Motion, intensity: Intensity, durationMs: nat,
                      calibrationValid: bool, servoReadOk: bool, faultState: bool): Plan
  {
    if motion == UnknownMotion then Rejected(UnknownCommand)
    else if intensity == NotANumber || intensity.r < 0.0 || intensity.r > 1.0 then Rejected(ServoLimitExceeded)
    else if durationMs != 0 && (durationMs < MIN_DURATION_MS || durationMs > MAX_DURATION_MS) then
      Rejected(MotionInterrupted)
    else if motion == IdleMotion then Plan(Ok, [], DEFAULT_SERVO_TIME_MS)
    else if !calibrationValid then Rejected(CalibrationInvalid)
    else if !servoReadOk then Rejected(ServoReadFailed)
    else if faultState then Rejected(MotionInterrupted)
    else
      var plan := AddRows(Plan(Ok, [], PlanServoTime(motion)), Rows(motion, durationMs), intensity.r);
      if plan.code != Ok then Rejected(plan.code) else plan
  }

  // ---- What an accepted plan guarantees ----

  ghost predicate SafeWaypoint(w: Waypoint) { WithinNormalLimits(w.offset) && 0 < w.servoTimeMs < 0x1_0000 }

  ghost predicate SafePlan(plan: Plan) {
    && |plan.waypoints| <= 24 && 0 < plan.servoTimeMs < 0x1_0000
    && forall i :: 0 <= i < |plan.waypoints| ==> SafeWaypoint(plan.waypoints[i])
  }

  ghost predicate TimedRow(row: Row) { row.Move? ==> 0 < row.servoTimeMs < 0x1_0000 }

  lemma {:induction false} AddRowsSafe(plan: Plan, rows: seq<Row>, intensity: real)
    requires SafePlan(plan) && forall i :: 0 <= i < |rows| ==> TimedRow(rows[i])
    ensures SafePlan(AddRows(plan, rows, intensity))
    ensures AddRows(plan, rows, intensity).servoTimeMs == plan.servoTimeMs
    decreases |rows|
  {
    if rows != [] && plan.code == Ok {
      assert TimedRow(rows[0]);
      AddRowsSafe(AddRow(plan, rows[0], intensity), rows[1..], intensity);
    }
  }

  /** Whatever is accepted keeps every waypoint inside the normal limits and every duration positive. */
  lemma AcceptedPlanIsSafe(motion: Motion, intensity: Intensity, durationMs: nat,
                           calibrationValid: bool, servoReadOk: bool, faultState: bool)
    ensures SafePlan(PlanMotion(motion, intensity, durationMs, calibrationValid, servoReadOk, faultState))
  {
    if intensity.Value? {
      AddRowsSafe(Plan(Ok, [], PlanServoTime(motion)), Rows(motion, durationMs), intensity.r);
    }
  }

  /** A 25th waypoint is refused, whatever it is. */
  lemma FullPlanTakesNoMore(plan: Plan, row: Row, intensity: real)
    requires |plan.waypoints| >= 24
    ensures AddRow(plan, row, intensity) == plan.(code := MotionInterrupted)
  {
  }

  // ---- What an accepted plan holds ----

  /** Rows that are all accepted are all there, in order. */
  lemma {:induction false} PlanStarts(plan: Plan, rows: seq<Row>, intensity: real, n: nat)
    requires AddRows(plan, rows, intensity).code == Ok && n <= |rows|
    ensures plan.waypoints <= AddRows(plan, rows, intensity).waypoints
    ensures |AddRows(plan, rows, intensity).waypoints| == |plan.waypoints| + |rows|
    ensures forall i :: 0 <= i < n ==>
              AddRows(plan, rows, intensity).waypoints[|plan.waypoints| + i] == WaypointOf(rows[i], intensity)
    decreases |rows|
  {
    if rows != [] && plan.code == Ok {
      var plan' := AddRow(plan, rows[0], intensity);
      if plan'.code == Ok {
        PlanStarts(plan', rows[1..], intensity, if n > 0 then n - 1 else 0);
      }
    }
  }

  /** An accepted plan has one waypoint for each row of its table, in order, and the table's servo time. */
  lemma AcceptedPlanHoldsRows(motion: Motion, intensity: Intensity, durationMs: nat,
                              calibrationValid: bool, servoReadOk: bool, faultState: bool)
    requires motion != IdleMotion
    requires PlanMotion(motion, intensity, durationMs, calibrationValid, servoReadOk, faultState).code == Ok
    ensures var plan := PlanMotion(motion, intensity, durationMs, calibrationValid, servoReadOk, faultState);
            var rows := Rows(motion, durationMs);
            && |plan.waypoints| == |rows| > 0 && plan.servoTimeMs == PlanServoTime(motion)
            && forall i :: 0 <= i < |rows| ==> plan.waypoints[i] == WaypointOf(rows[i], intensity.r)
  {
    var empty, rows := Plan(Ok, [], PlanServoTime(motion)), Rows(motion, durationMs);
    AcceptedPlanIsSafe(motion, intensity, durationMs, calibrationValid, servoReadOk, faultState);
    PlanStarts(empty, rows, intensity.r, |rows|);
    AddRowsSafe(empty, rows, intensity.r);
    var plan := AddRows(empty, rows, intensity.r);
    assert forall i :: 0 <= i < |rows| ==> plan.waypoints[|empty.waypoints| + i] == WaypointOf(rows[i], intensity.r);
  }

  // ---- Which intensities are accepted ----

  lemma ScaledShrinks(x: nat, intensity: real)
    requires 0.0 <= intensity <= 1.0
    ensures 0.0 <= Scaled(x, intensity) <= x as real
  {
    assert x as real * (1.0 - intensity) >= 0.0;
  }

  lemma ScaledNegates(x: int, intensity: real)
    ensures Scaled(-x, intensity) == -Scaled(x, intensity)
  {
  }

  lemma TruncRealBounds(r: real)
    requires r >= 0.0
    ensures 0 <= TruncReal(r) && TruncReal(r) as real <= r < TruncReal(r) as real + 1.0
  {
  }

  lemma TruncatedPitchNormal(r: real)
    requires 0.0 <= r <= NORMAL_MAX_Y as real
    ensures NormalPitch(TruncReal(r)) <==> r < 1.0 || r >= 5.0
  {
    TruncRealBounds(r);
  }

  /** A scaled pitch is a normal one exactly when it truncates to zero or reaches 5 degrees. */
  lemma ScaledPitchNormal(y: int, intensity: real)
    requires 0 <= y <= NORMAL_MAX_Y && 0.0 <= intensity <= 1.0
    ensures NormalPitch(ScaledDegrees(y, intensity)) <==> Scaled(y, intensity) < 1.0 || Scaled(y, intensity) >= 5.0
    ensures 0 <= ScaledDegrees(y, intensity) <= y
  {
    ScaledShrinks(y, intensity);
    TruncatedPitchNormal(Scaled(y, intensity));
    TruncRealBounds(Scaled(y, intensity));
  }

  lemma ScaledWithin(x: int, intensity: real)
    requires 0.0 <= intensity <= 1.0
    ensures Between(0, ScaledDegrees(x, intensity), x)
  {
    var size := if x >= 0 then x else -x;
    ScaledShrinks(size, intensity);
    ScaledNegates(x, intensity);
    TruncRealBounds(Scaled(size, intensity));
  }

  /** A row is refused exactly when its scaled pitch falls into the forbidden band. */
  ghost predicate RowAccepted(row: Row, intensity: real) {
    row.Move? ==> Scaled(row.y, intensity) < 1.0 || Scaled(row.y, intensity) >= 5.0
  }

  ghost predicate OrdinaryRow(row: Row) { row.Move? ==> MIN_X <= row.x <= MAX_X && 0 <= row.y <= NORMAL_MAX_Y }

  lemma RowAcceptedExactlyWhen(row: Row, intensity: real)
    requires row.Move? && OrdinaryRow(row) && 0.0 <= intensity <= 1.0
    ensures WithinNormalLimits(WaypointOf(row, intensity).offset) <==> RowAccepted(row, intensity)
  {
    ScaledPitchNormal(row.y, intensity);
    ScaledWithin(row.x, intensity);
  }

  lemma {:induction false} AddRowsAccepts(plan: Plan, rows: seq<Row>, intensity: real)
    requires plan.code == Ok && |plan.waypoints| + |rows| <= MAX_WAYPOINTS && 0.0 <= intensity <= 1.0
    requires forall i :: 0 <= i < |rows| ==> OrdinaryRow(rows[i])
    ensures AddRows(plan, rows, intensity).code == Ok <==>
              forall i :: 0 <= i < |rows| ==> RowAccepted(rows[i], intensity)
    ensures AddRows(plan, rows, intensity).code in {Ok, ServoLimitExceeded}
    decreases |rows|
  {
    if rows != [] {
      var row := rows[0];
      assert OrdinaryRow(row);
      if row.Move? { RowAcceptedExactlyWhen(row, intensity); }
      var plan' := AddRow(plan, row, intensity);
      assert plan'.code == Ok <==> RowAccepted(row, intensity);
      if plan'.code == Ok {
        AddRowsAccepts(plan', rows[1..], intensity);
        assert forall i :: 0 < i < |rows| ==> rows[i] == rows[1..][i - 1];
      }
    }
  }

  /** Small gestures vanish, large ones reach the normal band; everything between is refused. */
  ghost predicate AcceptedIntensity(motion: Motion, i: real) {
    match motion
    case Nod => 18.0 * i < 1.0 || 18.0 * i >= 5.0
    case Shake => 11.0 * i < 1.0 || 7.0 * i >= 5.0
    case Cheerful => 82.0 * i < 1.0 || 46.0 * i >= 5.0
    case LookLeft => 6.0 * i < 1.0 || 6.0 * i >= 5.0
    case LookRight => 6.0 * i < 1.0 || 6.0 * i >= 5.0
    case LookUser => 60.0 * i < 1.0 || 15.0 * i >= 5.0
    case IdleMotion => true
    case UnknownMotion => false
  }

  lemma RowsAcceptIntensity(motion: Motion, durationMs: nat, i: real)
    requires 0.0 <= i <= 1.0 && motion != UnknownMotion
    ensures (forall k :: 0 <= k < |Rows(motion, durationMs)| ==> RowAccepted(Rows(motion, durationMs)[k], i))
            <==> AcceptedIntensity(motion, i)
  {
    var rows := Rows(motion, durationMs);
    if forall k :: 0 <= k < |rows| ==> RowAccepted(rows[k], i) {
      match motion {
        case Shake => assert RowAccepted(rows[1], i) && RowAccepted(rows[8], i);
        case Cheerful => assert RowAccepted(rows[1], i) && RowAccepted(rows[3], i);
        case LookUser => assert RowAccepted(rows[0], i) && RowAccepted(rows[1], i);
        case Nod | LookLeft | LookRight => assert RowAccepted(rows[0], i);
        case IdleMotion | UnknownMotion =>
      }
    }
  }

  /** With calibration and servos in order, a motion is accepted exactly at these intensities, whatever the duration. */
  lemma AcceptedExactlyWhen(motion: Motion, i: real, durationMs: nat)
    requires motion != UnknownMotion && 0.0 <= i <= 1.0
    requires durationMs == 0 || MIN_DURATION_MS <= durationMs <= MAX_DURATION_MS
    ensures PlanMotion(motion, Value(i), durationMs, true, true, false).code == Ok <==> AcceptedIntensity(motion, i)
  {
    RowsAcceptIntensity(motion, durationMs, i);
    AddRowsAccepts(Plan(Ok, [], PlanServoTime(motion)), Rows(motion, durationMs), i);
  }

  // ---- The presets ----

  lemma FullIntensityKeepsDegrees(x: int)
    ensures ScaledDegrees(x, 1.0) == x
  {
    assert Scaled(x, 1.0) == x as real;
  }

  /** A row as it stands. */
  function AsWaypoint(row: Row): Waypoint {
    if row.Move? then Waypoint(Target(row.x, row.y), row.holdMs, row.servoTimeMs, row.easing)
    else Waypoint(Target(0, 0), row.holdMs, 105, EaseInOutCubic)
  }

  lemma FullRow(row: Row)
    ensures WaypointOf(row, 1.0) == AsWaypoint(row)
  {
    if row.Move? {
      FullIntensityKeepsDegrees(row.x);
      FullIntensityKeepsDegrees(row.y);
    }
  }

  /** At full intensity each waypoint is its row as it stands. */
  lemma FullPlanHoldsRows(motion: Motion, durationMs: nat)
    requires motion != IdleMotion && motion != UnknownMotion
    requires durationMs == 0 || MIN_DURATION_MS <= durationMs <= MAX_DURATION_MS
    ensures var plan := PlanMotion(motion, Value(1.0), durationMs, true, true, false);
            var rows := Rows(motion, durationMs);
            && plan.code == Ok && |plan.waypoints| == |rows| && plan.servoTimeMs == PlanServoTime(motion)
            && forall i :: 0 <= i < |rows| ==> plan.waypoints[i] == AsWaypoint(rows[i])
  {
    AcceptedExactlyWhen(motion, 1.0, durationMs);
    AcceptedPlanHoldsRows(motion, Value(1.0), durationMs, true, true, false);
    var rows := Rows(motion, durationMs);
    forall i | 0 <= i < |rows|
      ensures WaypointOf(rows[i], 1.0) == AsWaypoint(rows[i])
    {
      FullRow(rows[i]);
    }
  }

  function Away(x: int, y: int, holdMs: nat): Waypoint { Waypoint(Target(x, y), holdMs, 105, EaseInOutCubic) }

  function Side(x: int, y: int, servoTimeMs: nat): Waypoint { Waypoint(Target(x, y), 0, servoTimeMs, Linear) }

  /** The plans of full intensity and usual duration: left is positive yaw, right its mirror image. */
  function Preset(motion: Motion): Plan {
    match motion
    case Nod => Plan(Ok, [Away(0, 18, 90), Away(0, 0, 90), Away(0, 18, 90), Away(0, 0, 90)], 105)
    case LookLeft => Plan(Ok, [Away(22, 6, 750), Away(0, 0, 750)], 105)
    case LookRight => Plan(Ok, [Away(-22, 6, 750), Away(0, 0, 750)], 105)
    case LookUser => Plan(Ok, [Away(0, 60, 180), Away(0, 15, 220), Away(0, 45, 850), Away(0, 0, 650)], 105)
    case Shake =>
      Plan(Ok, [Side(88, 8, 180), Side(-88, 11, 180), Side(84, 8, 180), Side(-84, 11, 180), Side(78, 8, 180),
                Side(-78, 10, 180), Side(70, 8, 165), Side(-70, 10, 165), Side(58, 7, 165), Side(-48, 7, 165)], 270)
    case Cheerful =>
      Plan(Ok, [Waypoint(Target(28, 52), 0, 320, EaseInOutCubic), Waypoint(Target(82, 82), 0, 700, EaseOutBackLike),
                Waypoint(Target(-64, 70), 20, 620, EaseInOutCubic), Waypoint(Target(16, 46), 0, 500, EaseOutSine)],
           700)
    case IdleMotion => Plan(Ok, [], 105)
    case UnknownMotion => Plan(UnknownCommand, [], 105)
  }

  lemma RowsArePreset(motion: Motion)
    ensures |Rows(motion, 0)| == |Preset(motion).waypoints|
    ensures forall i :: 0 <= i < |Rows(motion, 0)| ==> AsWaypoint(Rows(motion, 0)[i]) == Preset(motion).waypoints[i]
  {
  }

  /** Every preset is planned in full. */
  lemma FullIntensityPlansPreset(motion: Motion)
    ensures PlanMotion(motion, Value(1.0), 0, true, true, false) == Preset(motion)
  {
    if motion != IdleMotion && motion != UnknownMotion {
      FullPlanHoldsRows(motion, 0);
      RowsArePreset(motion);
      SamePlan(PlanMotion(motion, Value(1.0), 0, true, true, false), Preset(motion));
    }
  }

  lemma SamePlan(p: Plan, q: Plan)
    requires p.code == q.code && p.servoTimeMs == q.servoTimeMs && |p.waypoints| == |q.waypoints|
    requires forall i :: 0 <= i < |p.waypoints| ==> p.waypoints[i] == q.waypoints[i]
    ensures p == q
  {
  }

  /** Toward zero: of the same sign, no larger than the exact product, and less than one short of it. */
  ghost predicate Truncated(degrees: int, full: int, intensity: real) {
    && (full >= 0 ==> 0 <= degrees && degrees as real <= full as real * intensity < degrees as real + 1.0)
    && (full < 0 ==> degrees <= 0 && degrees as real - 1.0 < full as real * intensity <= degrees as real)
  }

  /** In proportion to the duration, rounded down, but 50 ms at least; no hold stays none. */
  predicate Prolonged(holdMs: nat, fullMs: nat, durationMs: nat, defaultMs: nat) {
    if fullMs == 0 || durationMs == 0 then holdMs == fullMs
    else if fullMs * durationMs < 50 * defaultMs then holdMs == 50
    else defaultMs * holdMs <= fullMs * durationMs < defaultMs * (holdMs + 1)
  }

  /** How long a motion takes when no duration is asked for. */
  function UsualMs(motion: Motion): nat {
    match motion
    case Nod => 360
    case Cheerful => 1820
    case LookUser => 1900
    case _ => 1500
  }

  lemma TruncatedDegrees(full: int, intensity: real)
    requires 0.0 <= intensity <= 1.0
    ensures Truncated(ScaledDegrees(full, intensity), full, intensity)
  {
    var size := if full >= 0 then full else -full;
    ScaledShrinks(size, intensity);
    ScaledNegates(full, intensity);
    TruncRealBounds(Scaled(size, intensity));
  }

  lemma Quotient(n: nat, d: nat)
    requires d > 0
    ensures d * (n / d) <= n < d * (n / d + 1) && (n / d < 50 <==> n < 50 * d)
  {
    var q := n / d;
    assert n == d * q + n % d && d * (q + 1) == d * q + d;
    if q < 50 { MulMonotone(q + 1, 50, d); } else { MulMonotone(50, q, d); }
  }

  lemma ProductFits(fullMs: nat, durationMs: nat)
    requires fullMs <= 1000 && durationMs <= 2000
    ensures Wrap32(fullMs * durationMs) == fullMs * durationMs
  {
    MulMonotone(fullMs, 1000, durationMs);
    WrapExact(fullMs * durationMs);
  }

  lemma QuotientProlongs(product: nat, defaultMs: nat, holdMs: nat)
    requires defaultMs > 0 && holdMs == (if product / defaultMs < 50 then 50 else product / defaultMs)
    ensures if product < 50 * defaultMs then holdMs == 50 else defaultMs * holdMs <= product < defaultMs * (holdMs + 1)
  {
    Quotient(product, defaultMs);
  }

  lemma ProlongedHold(fullMs: nat, durationMs: nat, defaultMs: nat)
    requires fullMs <= 1000 && durationMs <= MAX_DURATION_MS && defaultMs > 0
    ensures Prolonged(ScaledHold(fullMs, durationMs, defaultMs), fullMs, durationMs, defaultMs)
  {
    ProductFits(fullMs, durationMs);
    if fullMs > 0 && durationMs > 0 {
      QuotientProlongs(fullMs * durationMs, defaultMs, ScaledHold(fullMs, durationMs, defaultMs));
    }
  }

  /** One waypoint of a plan beside the same waypoint at full intensity and of the usual duration. */
  ghost predicate ScaledFrom(w: Waypoint, full: Waypoint, motion: Motion, intensity: real, durationMs: nat) {
    && Truncated(w.offset.x, full.offset.x, intensity) && Truncated(w.offset.y, full.offset.y, intensity)
    && Prolonged(w.holdMs, full.holdMs, durationMs, UsualMs(motion))
    && w.servoTimeMs == full.servoTimeMs && w.easing == full.easing
  }

  /** The same row of the table, its hold prolonged. */
  predicate SameRow(row: Row, usual: Row, motion: Motion, durationMs: nat) {
    && row.Move? == usual.Move? && Prolonged(row.holdMs, usual.holdMs, durationMs, UsualMs(motion))
    && (row.Move? ==> row == usual.(holdMs := row.holdMs))
  }

  lemma RowsProlonged(motion: Motion, durationMs: nat)
    requires durationMs <= MAX_DURATION_MS
    ensures |Rows(motion, durationMs)| == |Rows(motion, 0)|
    ensures forall i :: 0 <= i < |Rows(motion, 0)| ==>
              SameRow(Rows(motion, durationMs)[i], Rows(motion, 0)[i], motion, durationMs)
  {
    ProlongedHold(90, durationMs, 360);
    ProlongedHold(20, durationMs, 1820);
    ProlongedHold(750, durationMs, 1500);
    ProlongedHold(180, durationMs, 1900);
    ProlongedHold(220, durationMs, 1900);
    ProlongedHold(850, durationMs, 1900);
    ProlongedHold(650, durationMs, 1900);
  }

  lemma RowScaledFrom(row: Row, usual: Row, motion: Motion, intensity: real, durationMs: nat)
    requires SameRow(row, usual, motion, durationMs) && 0.0 <= intensity <= 1.0
    ensures ScaledFrom(WaypointOf(row, intensity), WaypointOf(usual, 1.0), motion, intensity, durationMs)
  {
    if row.Move? {
      FullRow(usual);
      TruncatedDegrees(row.x, intensity);
      TruncatedDegrees(row.y, intensity);
    } else {
      TruncatedDegrees(0, intensity);
    }
  }

  /** Whatever is accepted is the preset with its offsets scaled down and its holds prolonged. */
  lemma EveryPlanIsScaled(motion: Motion, intensity: Intensity, durationMs: nat,
                          calibrationValid: bool, servoReadOk: bool, faultState: bool)
    requires motion != IdleMotion
    requires PlanMotion(motion, intensity, durationMs, calibrationValid, servoReadOk, faultState).code == Ok
    ensures var plan := PlanMotion(motion, intensity, durationMs, calibrationValid, servoReadOk, faultState);
            var full := Preset(motion);
            && |plan.waypoints| == |full.waypoints| && plan.servoTimeMs == full.servoTimeMs
            && forall i :: 0 <= i < |full.waypoints| ==>
                 ScaledFrom(plan.waypoints[i], full.waypoints[i], motion, intensity.r, durationMs)
  {
    AcceptedPlanHoldsRows(motion, intensity, durationMs, calibrationValid, servoReadOk, faultState);
    AcceptedExactlyWhen(motion, 1.0, 0);
    AcceptedPlanHoldsRows(motion, Value(1.0), 0, true, true, false);
    FullIntensityPlansPreset(motion);
    RowsProlonged(motion, durationMs);
    forall i | 0 <= i < |Rows(motion, 0)|
      ensures ScaledFrom(WaypointOf(Rows(motion, durationMs)[i], intensity.r), WaypointOf(Rows(motion, 0)[i], 1.0),
                         motion, intensity.r, durationMs)
    {
      RowScaledFrom(Rows(motion, durationMs)[i], Rows(motion, 0)[i], motion, intensity.r, durationMs);
    }
  }
}
