/** Integer easing and interpolation, with 32-bit intermediate results. */
module Easing {
  import opened Wire
  import opened Servo

  const SCALE := 1000

  datatype Curve = Linear | EaseInOutCubic | EaseOutSine | EaseOutBackLike

  function Mul32(a: int, b: int): u32 { Wrap32(a * b) }

  function EaseOutCubic(t: int): int {
    var inverse := Wrap32(SCALE - t);
    Wrap32(SCALE - Mul32(Mul32(inverse, inverse), inverse) / (SCALE * SCALE))
  }

  function EaseInOutCubic(t: int): int {
    if t < SCALE / 2 then
      Mul32(Mul32(Mul32(4, t), t), t) / (SCALE * SCALE)
    else
      var inverse := Wrap32(SCALE - t);
      Wrap32(SCALE - Mul32(Mul32(Mul32(4, inverse), inverse), inverse) / (SCALE * SCALE))
  }

  function EaseOutSine(t: int): int {
    Mul32(t, Wrap32(2 * SCALE - t)) / SCALE
  }

  function Ease(t: int, curve: Curve): int {
    match curve
    case Linear => t
    case EaseOutSine => EaseOutSine(t)
    case EaseOutBackLike => EaseOutCubic(t)
    case EaseInOutCubic => EaseInOutCubic(t)
  }

  /** Progress through a segment, in thousandths. */
  function EasedProgress(elapsed: nat, duration: nat, curve: Curve): int {
    if duration == 0 || elapsed >= duration then SCALE
    else Ease(Mul32(elapsed, SCALE) / duration, curve)
  }

  // ---- The curves without the machine arithmetic ----

  function Square(x: int): int { x * x }

  function Cube(x: int): int { Square(x) * x }

  function Curve1000(t: int, curve: Curve): int {
    match curve
    case Linear => t
    case EaseOutSine => (SCALE * SCALE - Square(SCALE - t)) / SCALE
    case EaseOutBackLike => SCALE - Cube(SCALE - t) / 1_000_000
    case EaseInOutCubic => if t < 500 then 4 * Cube(t) / 1_000_000 else SCALE - 4 * Cube(SCALE - t) / 1_000_000
  }

  lemma MulMonotone(a: int, b: int, c: int)
    requires a <= b && 0 <= c
    ensures a * c <= b * c
  {
  }

  lemma PowersMonotone(a: int, b: int)
    requires 0 <= a <= b
    ensures 0 <= Square(a) <= Square(b)
    ensures 0 <= Cube(a) <= Cube(b)
  {
    MulMonotone(0, a, a);
    MulMonotone(a, b, a);
    MulMonotone(a, b, b);
    assert a * b == b * a;
    MulMonotone(0, Square(a), a);
    MulMonotone(Square(a), Square(b), a);
    MulMonotone(a, b, Square(b));
    assert a * Square(b) == Square(b) * a && b * Square(b) == Square(b) * b;
  }

  lemma WrapExact(x: int)
    requires 0 <= x < 0x1_0000_0000
    ensures Wrap32(x) == x
  {
  }

  lemma CubeExact(x: int)
    requires 0 <= x <= SCALE
    ensures Mul32(Mul32(x, x), x) == Cube(x) && 0 <= Cube(x) <= 1_000_000_000
  {
    PowersMonotone(x, SCALE);
    assert Square(SCALE) == 1_000_000 && Cube(SCALE) == 1_000_000_000;
    WrapExact(Square(x));
    WrapExact(Cube(x));
  }

  lemma FourCubeExact(x: int)
    requires 0 <= x <= 500
    ensures Mul32(Mul32(Mul32(4, x), x), x) == 4 * Cube(x) && 0 <= Cube(x) <= 125_000_000
  {
    PowersMonotone(x, 500);
    assert Square(500) == 250_000 && Cube(500) == 125_000_000;
    assert 4 * x * x == 4 * Square(x) && 4 * Square(x) * x == 4 * Cube(x);
    WrapExact(4 * x);
    WrapExact(4 * Square(x));
    WrapExact(4 * Cube(x));
  }

  lemma SineExact(t: int)
    requires 0 <= t <= SCALE
    ensures Mul32(t, Wrap32(2 * SCALE - t)) == SCALE * SCALE - Square(SCALE - t)
    ensures 0 <= Square(SCALE - t) <= SCALE * SCALE
  {
    PowersMonotone(SCALE - t, SCALE);
    WrapExact(2 * SCALE - t);
    assert t * (2 * SCALE - t) == SCALE * SCALE - (SCALE - t) * (SCALE - t);
    WrapExact(SCALE * SCALE - Square(SCALE - t));
  }

  lemma OutCubicExact(t: int)
    requires 0 <= t <= SCALE
    ensures EaseOutCubic(t) == SCALE - Cube(SCALE - t) / 1_000_000
    ensures 0 <= EaseOutCubic(t) <= SCALE
  {
    CubeExact(SCALE - t);
    WrapExact(SCALE - t);
    WrapExact(SCALE - Cube(SCALE - t) / 1_000_000);
  }

  lemma InOutCubicExact(t: int)
    requires 0 <= t <= SCALE
    ensures EaseInOutCubic(t) == if t < 500 then 4 * Cube(t) / 1_000_000 else SCALE - 4 * Cube(SCALE - t) / 1_000_000
    ensures 0 <= EaseInOutCubic(t) <= SCALE
  {
    if t < 500 {
      FourCubeExact(t);
    } else {
      FourCubeExact(SCALE - t);
      WrapExact(SCALE - t);
      WrapExact(SCALE - 4 * Cube(SCALE - t) / 1_000_000);
    }
  }

  /** No intermediate product wraps, so the machine curve is the mathematical one, within 0..1000. */
  lemma NoOverflow(t: int, curve: Curve)
    requires 0 <= t <= SCALE
    ensures Ease(t, curve) == Curve1000(t, curve)
    ensures 0 <= Ease(t, curve) <= SCALE
  {
    match curve
    case Linear =>
    case EaseOutSine => SineExact(t);
    case EaseOutBackLike => OutCubicExact(t);
    case EaseInOutCubic => InOutCubicExact(t);
  }

  lemma CurveMonotone(t: int, u: int, curve: Curve)
    requires 0 <= t <= u <= SCALE
    ensures Curve1000(t, curve) <= Curve1000(u, curve)
  {
    PowersMonotone(SCALE - u, SCALE - t);
    PowersMonotone(t, u);
    if t < 500 <= u {
      FourCubeExact(t);
      FourCubeExact(SCALE - u);
    }
  }

  lemma ScaledTime(elapsed: nat, duration: nat)
    requires elapsed < duration < 0x1_0000
    ensures Mul32(elapsed, SCALE) / duration == elapsed * SCALE / duration <= SCALE
    ensures 0 <= elapsed * SCALE / duration
  {
    WrapExact(elapsed * SCALE);
    DivideMonotone(elapsed * SCALE, duration * SCALE, duration);
    assert duration * SCALE / duration == SCALE;
  }

  lemma DivideMonotone(a: nat, b: nat, d: nat)
    requires a <= b && d > 0
    ensures a / d <= b / d
  {
    var x, y := a / d, b / d;
    assert d * x <= a && b < d * y + d;
    if x > y { MulMonotone(y + 1, x, d); }
  }

  /** Progress stays within 0..1000 and never goes back, for every segment length. */
  lemma ProgressMonotone(elapsed: nat, later: nat, duration: nat, curve: Curve)
    requires elapsed <= later && duration < 0x1_0000
    ensures 0 <= EasedProgress(elapsed, duration, curve) <= EasedProgress(later, duration, curve) <= SCALE
  {
    if elapsed < duration {
      var t := elapsed * SCALE / duration;
      ScaledTime(elapsed, duration);
      NoOverflow(t, curve);
      if later < duration {
        var u := later * SCALE / duration;
        ScaledTime(later, duration);
        DivideMonotone(elapsed * SCALE, later * SCALE, duration);
        NoOverflow(u, curve);
        CurveMonotone(t, u, curve);
      }
    }
  }

  /** Progress is the curve at the share of the time that is over, in thousandths rounded down. */
  lemma ProgressIsTheCurve(elapsed: nat, duration: nat, curve: Curve)
    requires duration < 0x1_0000
    ensures EasedProgress(elapsed, duration, curve) ==
              if elapsed >= duration then 1000 else Curve1000(elapsed * 1000 / duration, curve)
  {
    if elapsed < duration {
      ScaledTime(elapsed, duration);
      NoOverflow(elapsed * SCALE / duration, curve);
    }
  }

  lemma SineAhead(t: int)
    requires 0 <= t <= 1000
    ensures 1_000_000 - Square(1000 - t) >= 1000 * t
  {
    assert Square(1000 - t) == 1_000_000 - 2000 * t + t * t;
    MulMonotone(t, 1000, t);
  }

  lemma CubeBehind(x: int, most: int)
    requires 0 <= x <= most
    ensures Cube(x) <= Square(most) * x
  {
    PowersMonotone(x, most);
    MulMonotone(Square(x), Square(most), x);
  }

  /**
   Every curve starts at 0 and ends at 1000; the two that ease out run ahead of the time, the one that eases in and
   out is behind in the first half and ahead in the second.
   */
  lemma CurveShapes(t: int, curve: Curve)
    requires 0 <= t <= 1000
    ensures t == 0 ==> Curve1000(t, curve) == 0
    ensures t == 1000 ==> Curve1000(t, curve) == 1000
    ensures curve.Linear? ==> Curve1000(t, curve) == t
    ensures curve.EaseOutSine? || curve.EaseOutBackLike? ==> Curve1000(t, curve) >= t
    ensures curve.EaseInOutCubic? ==> if t < 500 then Curve1000(t, curve) <= t else Curve1000(t, curve) >= t
  {
    SineAhead(t);
    CubeBehind(1000 - t, 1000);
    if t < 500 { CubeBehind(t, 500); } else { CubeBehind(1000 - t, 500); }
    if t == 0 { assert Cube(0) == 0 && Square(1000) == 1_000_000 && Cube(1000) == 1_000_000_000; }
    if t == 1000 { assert Cube(0) == 0 && Square(0) == 0; }
  }

  // ---- Interpolation ----

  function InterpolateAxis(start: int, end: int, progress: int): int {
    var weighted := (end - start) * progress;
    start + if weighted >= 0 then TruncDiv(weighted + SCALE / 2, SCALE) else TruncDiv(weighted - SCALE / 2, SCALE)
  }

  function Interpolate(start: Target, end: Target, progress: int): Target {
    Target(InterpolateAxis(start.x, end.x, progress), InterpolateAxis(start.y, end.y, progress))
  }

  predicate Between(a: int, x: int, b: int) { a <= x <= b || b <= x <= a }

  /** An interpolated axis lies between its endpoints and reaches them at the ends. */
  lemma InterpolateBetween(start: int, end: int, progress: int)
    requires 0 <= progress <= SCALE
    ensures Between(start, InterpolateAxis(start, end, progress), end)
    ensures progress == 0 ==> InterpolateAxis(start, end, progress) == start
    ensures progress == SCALE ==> InterpolateAxis(start, end, progress) == end
  {
    var d := end - start;
    if d >= 0 {
      ScaledBy(d, progress);
    } else {
      ScaledBy(-d, progress);
      assert d * progress == -(-d * progress);
    }
  }

  /** It is the exact point between them, rounded to the nearest degree. */
  lemma InterpolateRounds(start: int, end: int, progress: int)
    ensures var exact, shown := (end - start) * progress, 1000 * (InterpolateAxis(start, end, progress) - start);
            exact - 500 <= shown <= exact + 500
  {
  }

  lemma ScaledBy(d: nat, progress: int)
    requires 0 <= progress <= SCALE
    ensures 0 <= d * progress <= d * SCALE
  {
    MulMonotone(0, progress, d);
    MulMonotone(progress, SCALE, d);
    assert d * progress == progress * d;
  }

  /** Between two targets inside a box, the degree limits for one, every interpolated target is inside it. */
  lemma InterpolateInside(start: Target, end: Target, progress: int, box: Box)
    requires 0 <= progress <= SCALE && Inside(start, box) && Inside(end, box)
    ensures Inside(Interpolate(start, end, progress), box)
  {
    InterpolateBetween(start.x, end.x, progress);
    InterpolateBetween(start.y, end.y, progress);
  }
}
