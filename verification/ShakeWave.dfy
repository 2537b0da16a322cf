/** The sine of the shake, the range of its trajectory, and the homes that leave room for it. */
module ShakeWave {
  import opened Servo
  import opened Scheduler

  const HALF_WAVE_MS := 300
  const PEAK_MS := 150

  /** The cosine of the phase `d` ms from a peak is below this parabola. */
  function UnderPeak(d: int): real { 1.0 - (d * d) as real / 23000.0 }

  ghost predicate Mirrored(wave: nat -> real, e: nat) { wave(e + HALF_WAVE_MS) == -wave(e) }

  ghost predicate Arched(wave: nat -> real, e: nat) { 0.0 <= wave(e) <= UnderPeak(e - PEAK_MS) }

  /**
   What is needed of the sine with a period of 600 ms: every half wave mirrors the one before, and the
   first lies between zero and a parabola through its peak.
   */
  ghost predicate IsSine(wave: nat -> real) {
    && wave(PEAK_MS) == 1.0
    && (forall e: nat :: Mirrored(wave, e))
    && (forall e: nat :: e <= HALF_WAVE_MS ==> Arched(wave, e))
  }

  function Spikes(e: nat): real { if e % 600 == 150 then 1.0 else if e % 600 == 450 then -1.0 else 0.0 }

  lemma SpikesMirror(e: nat)
    ensures Spikes(e + 300) == -Spikes(e)
  {
    assert (e + 300) % 600 == if e % 600 < 300 then e % 600 + 300 else e % 600 - 300;
  }

  lemma SpikesArch(e: nat)
    requires e <= 300
    ensures 0.0 <= Spikes(e) <= UnderPeak(e - PEAK_MS)
  {
    if e == 150 { assert UnderPeak(0) == 1.0; } else { Square(e - 150); }
  }

  lemma Square(d: int)
    requires -150 <= d <= 150
    ensures 0 <= d * d <= 22500
  {
    assert (150 - d) * (150 + d) >= 0;
  }

  /** Spikes at the peaks meet what is needed, so it is not asking for the impossible. */
  lemma SomeWaveIsSine()
    ensures IsSine(Spikes)
  {
    forall e: nat ensures Mirrored(Spikes, e) { SpikesMirror(e); }
    forall e: nat | e <= HALF_WAVE_MS ensures Arched(Spikes, e) { SpikesArch(e); }
  }

  lemma UnderOne(d: int)
    ensures UnderPeak(d) <= 1.0
  {
    assert d * d >= 0;
  }

  lemma {:induction false} Bounded(wave: nat -> real, e: nat)
    requires IsSine(wave)
    ensures -1.0 <= wave(e) <= 1.0
  {
    if e <= HALF_WAVE_MS {
      assert Arched(wave, e);
      UnderOne(e - PEAK_MS);
    } else {
      assert Mirrored(wave, e - HALF_WAVE_MS);
      Bounded(wave, e - HALF_WAVE_MS);
    }
  }

  lemma Peaks(wave: nat -> real)
    requires IsSine(wave)
    ensures wave(150) == 1.0 && wave(300) == 0.0 && wave(450) == -1.0
  {
    assert Mirrored(wave, 150) && Mirrored(wave, 0);
    assert Arched(wave, 0) && Arched(wave, 300);
  }

  // ---- The trajectory ----

  lemma SquareBound(x: real)
    requires -1.0 <= x <= 1.0
    ensures 0.0 <= x * x <= 1.0
  {
    if x >= 0.0 { ProductBound(x, 1.0, x); } else { ProductBound(-x, 1.0, x); }
  }

  lemma ProductBound(a: real, b: real, x: real)
    requires 0.0 <= a <= b && -1.0 <= x <= 1.0
    ensures -b <= a * x <= b
  {
    assert a * (1.0 - x) >= 0.0 && a * (1.0 + x) >= 0.0;
  }

  lemma RoundBound(r: real, lo: int, hi: int)
    requires lo as real - 0.5 < r < hi as real + 0.5
    ensures lo <= Round(r) <= hi
  {
  }

  lemma TaperAt(elapsedMs: nat)
    requires elapsedMs <= SHAKE_DURATION_MS
    ensures Taper(elapsedMs) == 1.0 - 0.00004 * elapsedMs as real
  {
    assert Normalized(elapsedMs) == elapsedMs as real / 3000.0;
  }

  /** Near a peak the parabola falls faster than the taper of an earlier moment rises. */
  lemma TaperUnderPeak(d: int, taper: real, peakTaper: real)
    requires 0.92 <= peakTaper && UnderPeak(d) >= 0.0
    requires taper <= peakTaper + 0.00004 * (if d < 0 then -d else d) as real
    ensures taper * UnderPeak(d) <= peakTaper
  {
    assert d <= d * d && -d <= d * d;
    var q := (d * d) as real;
    UnderTaper(q, UnderPeak(d), taper, peakTaper);
  }

  lemma UnderTaper(q: real, under: real, taper: real, peakTaper: real)
    requires 0.0 <= q && 0.92 <= peakTaper && 0.0 <= under == 1.0 - q / 23000.0 && taper <= peakTaper + 0.00004 * q
    ensures taper * under <= peakTaper
  {
    var slack := peakTaper + 0.00004 * q - taper;
    assert slack * under >= 0.0;
    assert q * (peakTaper / 23000.0 - 0.00004) >= 0.0 && q * q >= 0.0;
  }

  lemma Products(a: real, b: real)
    requires a >= 0.0 && b >= 0.0
    ensures a * b >= 0.0
  {
  }

  lemma ScaledBound(taper: real, sine: real, under: real, peakTaper: real)
    requires 0.0 <= taper && 0.0 <= sine <= under && taper * under <= peakTaper
    ensures 0.0 <= taper * sine <= peakTaper
  {
    Products(taper, sine);
    Products(taper, under - sine);
    assert taper * (under - sine) == taper * under - taper * sine;
  }

  /** How high the taper may be `d` ms from a peak. */
  ghost predicate TaperNear(taper: real, d: int, peakTaper: real) {
    0.92 <= peakTaper && 0.0 <= taper <= peakTaper + 0.00004 * (if d < 0 then -d else d) as real
  }

  lemma PositiveYaw(taper: real, sine: real, d: int, peakTaper: real)
    requires TaperNear(taper, d, peakTaper) && 0.0 <= sine <= UnderPeak(d)
    ensures 0.0 <= YawOffset(taper, sine) <= 86.0 * peakTaper
  {
    TaperUnderPeak(d, taper, peakTaper);
    ScaledBound(taper, sine, UnderPeak(d), peakTaper);
    Associate(taper, sine);
  }

  lemma NegativeYaw(taper: real, sine: real, d: int, peakTaper: real)
    requires TaperNear(taper, d, peakTaper) && 0.0 <= -sine <= UnderPeak(d)
    ensures -86.0 * peakTaper <= YawOffset(taper, sine) <= 0.0
  {
    PositiveYaw(taper, -sine, d, peakTaper);
    Associate(taper, sine);
  }

  lemma Associate(taper: real, sine: real)
    ensures 86.0 * taper * sine == 86.0 * (taper * sine)
    ensures 86.0 * taper * -sine == -(86.0 * taper * sine)
  {
  }

  lemma EarlyTaper(e: nat)
    requires e < 300
    ensures TaperNear(Taper(e), e - PEAK_MS, 0.994)
  {
    TaperAt(e);
  }

  lemma MirroredTaper(e: nat)
    requires 300 <= e < 600
    ensures TaperNear(Taper(e), e - 450, 0.982)
  {
    TaperAt(e);
  }

  lemma EarlyYawRange(wave: nat -> real, e: nat)
    requires IsSine(wave) && e < 300
    ensures 0.0 <= YawOffset(Taper(e), wave(e)) <= 85.484
  {
    EarlyTaper(e);
    assert Arched(wave, e);
    PositiveYaw(Taper(e), wave(e), e - PEAK_MS, 0.994);
  }

  lemma MirroredSine(wave: nat -> real, e: nat)
    requires IsSine(wave) && 300 <= e < 600
    ensures 0.0 <= -wave(e) <= UnderPeak(e - 450)
  {
    assert Arched(wave, e - 300) && Mirrored(wave, e - 300);
  }

  lemma MirroredYawRange(wave: nat -> real, e: nat)
    requires IsSine(wave) && 300 <= e < 600
    ensures -84.452 <= YawOffset(Taper(e), wave(e)) <= 0.0
  {
    MirroredTaper(e);
    MirroredSine(wave, e);
    NegativeYaw(Taper(e), wave(e), e - 450, 0.982);
  }

  /** The yaw amplitude is largest at the first two peaks, one on either side. */
  lemma YawRange(wave: nat -> real, e: nat)
    requires IsSine(wave) && e <= SHAKE_DURATION_MS
    ensures -84.452 <= YawOffset(Taper(e), wave(e)) <= 85.484
  {
    if e < 300 {
      EarlyYawRange(wave, e);
    } else if e < 600 {
      MirroredYawRange(wave, e);
    } else {
      TaperAt(e);
      Bounded(wave, e);
      ProductBound(86.0 * Taper(e), 86.0 * 0.976, wave(e));
    }
  }

  lemma PitchRange(sine: real)
    requires -1.0 <= sine <= 1.0
    ensures 8.0 <= PitchOffset(sine) <= 11.0
  {
    SquareBound(sine);
  }

  lemma ShakeRange(home: Target, e: nat, wave: nat -> real)
    requires IsSine(wave)
    ensures -84 <= ShakeTarget(home, e, wave).x - home.x <= 85
    ensures 8 <= ShakeTarget(home, e, wave).y - home.y <= 11
  {
    var at := if e >= SHAKE_DURATION_MS then SHAKE_DURATION_MS else e;
    YawRange(wave, at);
    assert Normalized(at) == Normalized(e);
    RoundBound(YawOffset(Taper(at), wave(at)), -84, 85);
    Bounded(wave, at);
    PitchRange(wave(at));
    RoundBound(PitchOffset(wave(at)), 8, 11);
  }

  /** Where the trajectory stands at its first three extremes. */
  lemma Extremes(home: Target, wave: nat -> real)
    requires IsSine(wave)
    ensures ShakeTarget(home, 150, wave) == Target(home.x + 85, home.y + 11)
    ensures ShakeTarget(home, 300, wave).y == home.y + 8
    ensures ShakeTarget(home, 450, wave) == Target(home.x - 84, home.y + 11)
  {
    Peaks(wave);
    TaperAt(150);
    TaperAt(450);
  }

  /** Room in a box for the whole trajectory, which no intensity scales. */
  predicate ShakeRoom(home: Target, box: Box) {
    box.minX + 84 <= home.x <= box.maxX - 85 && box.minY - 8 <= home.y <= box.maxY - 11
  }

  /** The trajectory stays inside a box at every moment it can be shown exactly when home leaves this room. */
  lemma ShakeInsideExactlyWhen(home: Target, box: Box, wave: nat -> real)
    requires IsSine(wave)
    ensures ShakeRoom(home, box) <==>
      forall e: nat :: SEGMENT_TICK_MS <= e < SHAKE_DURATION_MS ==> Inside(ShakeTarget(home, e, wave), box)
  {
    if ShakeRoom(home, box) {
      forall e: nat | SEGMENT_TICK_MS <= e < SHAKE_DURATION_MS
        ensures Inside(ShakeTarget(home, e, wave), box)
      {
        ShakeRange(home, e, wave);
      }
    } else {
      Extremes(home, wave);
      assert !Inside(ShakeTarget(home, 150, wave), box) || !Inside(ShakeTarget(home, 300, wave), box)
             || !Inside(ShakeTarget(home, 450, wave), box);
    }
  }

  /** In degrees: what the limits ask of home, and what the raw check asks of a home inside them. */
  lemma ShakeRoomInDegrees(home: Target)
    ensures ShakeRoom(home, LIMITS) <==> -44 <= home.x <= 43 && -8 <= home.y <= 79
    ensures WithinLimits(home) ==> (ShakeRoom(home, RAW_LIMITS) <==> -60 <= home.x <= 84)
  {
  }
}
