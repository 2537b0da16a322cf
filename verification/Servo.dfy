/** Servo targets in degrees, their limits, and the raw positions they become. */
module Servo {

  const MIN_X := -128
  const MAX_X := 128
  const MIN_Y := 0
  const MAX_Y := 90
  const NORMAL_MIN_Y := 5
  const NORMAL_MAX_Y := 85
  const YAW_ZERO := 460
  const PITCH_ZERO := 620
  const RAW_MIN := 0
  const RAW_MAX := 1000

  datatype Target = Target(x: int, y: int)

  const NEUTRAL := Target(0, 0)

  datatype Box = Box(minX: int, maxX: int, minY: int, maxY: int)

  predicate Inside(t: Target, box: Box) { box.minX <= t.x <= box.maxX && box.minY <= t.y <= box.maxY }

  const LIMITS := Box(MIN_X, MAX_X, MIN_Y, MAX_Y)

  /** What the raw check lets through. */
  const RAW_LIMITS := Box(-144, 169, -194, 119)

  predicate WithinLimits(t: Target) { Inside(t, LIMITS) }

  predicate NormalPitch(y: int) { y == NEUTRAL.y || NORMAL_MIN_Y <= y <= NORMAL_MAX_Y }

  predicate WithinNormalLimits(t: Target) { WithinLimits(t) && NormalPitch(t.y) }

  function Offset(home: Target, offset: Target): Target { Target(home.x + offset.x, home.y + offset.y) }

  /** C division: toward zero. */
  function TruncDiv(a: int, b: int): int
    requires b > 0
  {
    if a >= 0 then a / b else -(-a / b)
  }

  function DegreesToRaw(zero: int, degrees: int): int { zero + TruncDiv(degrees * 10 * 16, 50) }

  predicate RawValid(raw: int) { RAW_MIN <= raw <= RAW_MAX }

  predicate RawTargetValid(t: Target) {
    RawValid(DegreesToRaw(YAW_ZERO, t.x)) && RawValid(DegreesToRaw(PITCH_ZERO, t.y))
  }

  /** Inside the degree limits the raw-limit rejection is unreachable. */
  lemma LimitsImplyRawValid(t: Target)
    requires WithinLimits(t)
    ensures RawTargetValid(t)
  {
  }

  /** The raw check alone is weaker: it passes exactly these targets. */
  lemma RawValidExactly(t: Target)
    ensures RawTargetValid(t) <==> Inside(t, RAW_LIMITS)
  {
  }
}
