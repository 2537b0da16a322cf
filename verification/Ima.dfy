/**
 The IMA ADPCM step both ends share: two step tables, one nibble of decoding, one of encoding,
 and how far a decoded sample can be from the one that was encoded.
 */
module Ima {

  type int16 = x: int | -32768 <= x <= 32767
  type StepIndex = x: int | 0 <= x <= 88
  type Nibble = x: int | 0 <= x < 16

  /** What encoder and decoder carry from one nibble to the next. */
  datatype State = State(predictor: int16, stepIndex: StepIndex)

  /** The step table; it never leaves 7..32767. */
  function StepSize(i: StepIndex): (step: int)
    ensures 7 <= step <= 32767
  {
    match i
    case 0 => 7 case 1 => 8 case 2 => 9 case 3 => 10 case 4 => 11 case 5 => 12
    case 6 => 13 case 7 => 14 case 8 => 16 case 9 => 17 case 10 => 19 case 11 => 21
    case 12 => 23 case 13 => 25 case 14 => 28 case 15 => 31 case 16 => 34 case 17 => 37
    case 18 => 41 case 19 => 45 case 20 => 50 case 21 => 55 case 22 => 60 case 23 => 66
    case 24 => 73 case 25 => 80 case 26 => 88 case 27 => 97 case 28 => 107 case 29 => 118
    case 30 => 130 case 31 => 143 case 32 => 157 case 33 => 173 case 34 => 190 case 35 => 209
    case 36 => 230 case 37 => 253 case 38 => 279 case 39 => 307 case 40 => 337 case 41 => 371
    case 42 => 408 case 43 => 449 case 44 => 494 case 45 => 544 case 46 => 598 case 47 => 658
    case 48 => 724 case 49 => 796 case 50 => 876 case 51 => 963 case 52 => 1060 case 53 => 1166
    case 54 => 1282 case 55 => 1411 case 56 => 1552 case 57 => 1707 case 58 => 1878 case 59 => 2066
    case 60 => 2272 case 61 => 2499 case 62 => 2749 case 63 => 3024 case 64 => 3327 case 65 => 3660
    case 66 => 4026 case 67 => 4428 case 68 => 4871 case 69 => 5358 case 70 => 5894 case 71 => 6484
    case 72 => 7132 case 73 => 7845 case 74 => 8630 case 75 => 9493 case 76 => 10442 case 77 => 11487
    case 78 => 12635 case 79 => 13899 case 80 => 15289 case 81 => 16818 case 82 => 18500 case 83 => 20350
    case 84 => 22385 case 85 => 24623 case 86 => 27086 case 87 => 29794
    case _ => 32767
  }

  function IndexDelta(n: Nibble): int {
    match n % 8
    case 4 => 2 case 5 => 4 case 6 => 6 case 7 => 8
    case _ => -1
  }

  function ClampSample(x: int): int16 {
    if x > 32767 then 32767 else if x < -32768 then -32768 else x
  }

  function ClampIndex(x: int): StepIndex {
    if x < 0 then 0 else if x > 88 then 88 else x
  }

  /** A tenth more than the step before, rounded down or up. */
  predicate TenthMore(step: int, next: int) { step < next && 10 * next - 10 <= 11 * step < 10 * next + 10 }

  lemma LowerStepsGrow(i: StepIndex, next: StepIndex)
    requires next == i + 1 && i < 30
    ensures TenthMore(StepSize(i), StepSize(next)) && (i == 0 ==> StepSize(i) == 7)
  {
  }

  lemma MiddleStepsGrow(i: StepIndex, next: StepIndex)
    requires next == i + 1 && 30 <= i < 60
    ensures TenthMore(StepSize(i), StepSize(next))
  {
  }

  lemma UpperStepsGrow(i: StepIndex, next: StepIndex)
    requires next == i + 1 && 60 <= i < 87
    ensures TenthMore(StepSize(i), StepSize(next))
  {
  }

  lemma LastStepGrows(i: StepIndex, next: StepIndex)
    requires next == i + 1 == 88
    ensures StepSize(i) < StepSize(next) == 32767
  {
  }

  /** From 7 to the largest sample, each step a tenth more than the one before. */
  lemma StepsGrowByATenth(i: StepIndex, next: StepIndex)
    requires next == i + 1
    ensures StepSize(i) < StepSize(next) && (i < 87 ==> TenthMore(StepSize(i), StepSize(next)))
    ensures (i == 0 ==> StepSize(i) == 7) && (next == 88 ==> StepSize(next) == 32767)
  {
    if i < 30 {
      LowerStepsGrow(i, next);
    } else if i < 60 {
      MiddleStepsGrow(i, next);
    } else if i < 87 {
      UpperStepsGrow(i, next);
    } else {
      LastStepGrows(i, next);
    }
  }

  /** Samples and indices stay in their range: beyond its ends they are the ends, between them themselves. */
  lemma Clamps(x: int)
    ensures x <= -32768 ==> ClampSample(x) == -32768
    ensures -32768 <= x <= 32767 ==> ClampSample(x) == x
    ensures x >= 32767 ==> ClampSample(x) == 32767
    ensures x <= 0 ==> ClampIndex(x) == 0
    ensures 0 <= x <= 88 ==> ClampIndex(x) == x
    ensures x >= 88 ==> ClampIndex(x) == 88
  {
  }

  /** The difference a nibble stands for, without its sign bit. */
  function Magnitude(n: Nibble, step: int): int {
    step / 8
    + (if n % 2 == 1 then step / 4 else 0)
    + (if n / 2 % 2 == 1 then step / 2 else 0)
    + (if n / 4 % 2 == 1 then step else 0)
  }

  /** The same in eighths of a step: an odd number of them, up to the rounding of the three quotients. */
  lemma MagnitudeInEighths(n: Nibble, step: int)
    requires step >= 0
    ensures var exact := step * (2 * (n % 8) + 1); exact - 17 <= 8 * Magnitude(n, step) <= exact
  {
    var k := n % 8;
    assert k % 2 == n % 2 && k / 2 % 2 == n / 2 % 2 && k / 4 == n / 4 % 2;
    assert Magnitude(n, step) == Magnitude(k, step);
    EighthsByCase(k, step);
  }

  lemma EighthsByCase(k: nat, step: int)
    requires step >= 0 && k < 8
    ensures var exact := step * (2 * k + 1); exact - 17 <= 8 * Magnitude(k, step) <= exact
  {
    if k == 0 {
    } else if k == 1 {
    } else if k == 2 {
    } else if k == 3 {
    } else if k == 4 {
    } else if k == 5 {
    } else if k == 6 {
    } else {
    }
  }

  /** One nibble of decoding. */
  function Decode(st: State, n: Nibble): State {
    var diff := Magnitude(n, StepSize(st.stepIndex));
    State(ClampSample(if n >= 8 then st.predictor - diff else st.predictor + diff),
          ClampIndex(st.stepIndex + IndexDelta(n)))
  }

  /** Three bits of successive approximation by a step, its half and its quarter. */
  function Quantise(diff: nat, step: int): (bits: int)
    ensures 0 <= bits < 8
  {
    var b4 := diff >= step;
    var d4 := if b4 then diff - step else diff;
    var b2 := d4 >= step / 2;
    var d2 := if b2 then d4 - step / 2 else d4;
    var b1 := d2 >= step / 2 / 2;
    (if b4 then 4 else 0) + (if b2 then 2 else 0) + (if b1 then 1 else 0)
  }

  /** One sample of encoding: the nibble, and the state the encoder carries on with. */
  function Encode(sample: int16, st: State): (Nibble, State) {
    var bits := Quantise(Abs(sample - st.predictor), StepSize(st.stepIndex));
    var n: Nibble := if sample < st.predictor then 8 + bits else bits;
    (n, State(Decode(st, n).predictor, ClampIndex(st.stepIndex + IndexDelta(n))))
  }

  /** The sign bit is set exactly for a sample below the predictor, and decoding moves the predictor that way. */
  lemma SignFollowsDifference(sample: int16, st: State)
    ensures var n := Encode(sample, st).0;
            && (n >= 8 <==> sample < st.predictor)
            && (n >= 8 ==> Decode(st, n).predictor == ClampSample(st.predictor - Magnitude(n, StepSize(st.stepIndex))))
            && (n < 8 ==> Decode(st, n).predictor == ClampSample(st.predictor + Magnitude(n, StepSize(st.stepIndex))))
  {
  }

  function Abs(x: int): nat { if x < 0 then -x else x }

  predicate Overloaded(sample: int16, st: State) {
    Abs(sample - st.predictor) >= 2 * StepSize(st.stepIndex)
  }

  lemma QuantiseBound(diff: nat, step: int)
    requires 7 <= step <= 32767
    ensures diff < 2 * step ==> Abs(Magnitude(Quantise(diff, step), step) - diff) <= step / 8 + 2
    ensures diff >= 2 * step ==> Quantise(diff, step) == 7 && 0 < Magnitude(7, step) < diff
  {
  }

  lemma SignBit(bits: int, step: int)
    requires 0 <= bits < 8
    ensures Magnitude(8 + bits, step) == Magnitude(bits, step)
    ensures IndexDelta(8 + bits) == IndexDelta(bits)
  {
    assert (8 + bits) % 8 == bits % 8 && (8 + bits) % 2 == bits % 2;
    assert (8 + bits) / 2 == 4 + bits / 2 && (8 + bits) / 4 == 2 + bits / 4;
  }

  /**
   The quantisation bound, clamping included: inside two steps the error ends up within an eighth
   of a step plus two; outside, it strictly shrinks, keeps its side, and the step index climbs by 8.
   */
  lemma QuantisationBound(sample: int16, st: State)
    ensures var step := StepSize(st.stepIndex);
            var st' := Encode(sample, st).1;
            && (!Overloaded(sample, st) ==> Abs(sample - st'.predictor) <= step / 8 + 2)
            && (Overloaded(sample, st) ==>
                  && 0 < Abs(sample - st'.predictor) < Abs(sample - st.predictor)
                  && (sample < st.predictor <==> sample < st'.predictor)
                  && st'.stepIndex == ClampIndex(st.stepIndex + 8))
  {
    var step := StepSize(st.stepIndex);
    var diff := Abs(sample - st.predictor);
    QuantiseBound(diff, step);
    SignBit(Quantise(diff, step), step);
  }

  /** Down by one below a full step, up by 2, 4, 6 or 8 from there on, quarter by quarter. */
  function DeltaFor(diff: nat, step: int): int {
    var over := diff - step;
    if over < 0 then -1
    else if over >= step / 2 then if over - step / 2 >= step / 4 then 8 else 6
    else if over >= step / 4 then 4 else 2
  }

  lemma DeltaBySize(diff: nat, step: int)
    requires step >= 7
    ensures IndexDelta(Quantise(diff, step)) == DeltaFor(diff, step)
  {
  }

  /** The index moves with the size of the difference. */
  lemma IndexFollowsDifference(sample: int16, st: State)
    ensures Encode(sample, st).1.stepIndex
         == ClampIndex(st.stepIndex + DeltaFor(Abs(sample - st.predictor), StepSize(st.stepIndex)))
  {
    var diff, step := Abs(sample - st.predictor), StepSize(st.stepIndex);
    DeltaBySize(diff, step);
    SignBit(Quantise(diff, step), step);
  }

  function EncoderState(st: State, samples: seq<int16>): State {
    if samples == [] then st
    else Encode(samples[|samples| - 1], EncoderState(st, samples[..|samples| - 1])).1
  }

  /** Every sample of the run arrives overloaded. */
  ghost predicate AllOverloaded(st: State, samples: seq<int16>) {
    forall i :: 0 <= i < |samples| ==> Overloaded(samples[i], EncoderState(st, samples[..i]))
  }

  lemma FrontOverloaded(st: State, samples: seq<int16>)
    requires samples != [] && AllOverloaded(st, samples)
    ensures AllOverloaded(st, samples[..|samples| - 1])
    ensures Overloaded(samples[|samples| - 1], EncoderState(st, samples[..|samples| - 1]))
  {
    var front := samples[..|samples| - 1];
    forall i | 0 <= i < |front|
      ensures Overloaded(front[i], EncoderState(st, front[..i]))
    {
      assert front[..i] == samples[..i];
    }
  }

  lemma OverloadedStepRaisesIndex(sample: int16, st: State)
    requires Overloaded(sample, st)
    ensures Encode(sample, st).1.stepIndex == ClampIndex(st.stepIndex + 8)
  {
    QuantisationBound(sample, st);
  }

  /** Overload cannot last unnoticed: each overloaded sample raises the index by 8 until it is 88. */
  lemma {:induction false} OverloadRaisesIndex(st: State, samples: seq<int16>)
    requires AllOverloaded(st, samples)
    ensures EncoderState(st, samples).stepIndex == ClampIndex(st.stepIndex + 8 * |samples|)
    ensures |samples| >= 11 ==> EncoderState(st, samples).stepIndex == 88
  {
    if samples != [] {
      var n := |samples| - 1;
      FrontOverloaded(st, samples);
      OverloadRaisesIndex(st, samples[..n]);
      OverloadedStepRaisesIndex(samples[n], EncoderState(st, samples[..n]));
    }
  }
}
