/** The firmware's decoder, statement by statement. */
module AdpcmDecoder {
  import opened Wire
  import opened Ima
  import opened AdpcmStream

  class DecoderState {
    var predictor: int16
    var stepIndex: StepIndex
    var initialized: bool

    constructor ()
      ensures predictor == 0 && stepIndex == 0 && !initialized
    {
      predictor, stepIndex, initialized := 0, 0, false;
    }

    ghost function Now(): State
      reads this
    {
      State(predictor, stepIndex)
    }

    method DecodeNibble(nibble: Nibble) returns (sample: int16)
      modifies this`predictor, this`stepIndex
      ensures Now() == Decode(old(Now()), nibble)
      ensures sample == predictor
    {
      var step := StepSize(stepIndex);
      var diff := step / 8;
      if nibble % 2 == 1 { diff := diff + step / 4; }
      if nibble / 2 % 2 == 1 { diff := diff + step / 2; }
      if nibble / 4 % 2 == 1 { diff := diff + step; }
      if nibble / 8 == 1 {
        predictor := ClampSample(predictor - diff);
      } else {
        predictor := ClampSample(predictor + diff);
      }
      stepIndex := ClampIndex(stepIndex + IndexDelta(nibble));
      sample := predictor;
    }
  }

  // ---- What a payload decodes to, without the loops ----

  /** The result code, the samples written, and the decoder state left behind (`Uninitialized` before a header). */
  datatype Decoder = Uninitialized | At(st: State)

  datatype Outcome = Outcome(code: Code, samples: seq<int16>, decoder: Decoder)

  function Header(input: seq<byte>): State
    requires |input| >= ADPCM_HEADER_BYTES && input[2] <= 88
  {
    State(SampleAt(input[0], input[1]), input[2])
  }

  function Min(a: int, b: int): int { if a < b then a else b }

  /** `count` nibbles fit, or all but one padding nibble at the end of the stream. */
  function BodyCode(count: nat, endOfStream: bool, room: nat): Code {
    if count <= room || (endOfStream && count == room + 1) then Ok else AudioBufferOverflow
  }

  /** Decode as many nibbles as there is room for. */
  function DecodeBody(st: State, bytes: seq<byte>, written: seq<int16>, endOfStream: bool, room: nat): Outcome {
    var used := Unpack(bytes)[..Min(2 * |bytes|, room)];
    Outcome(BodyCode(2 * |bytes|, endOfStream, room), written + Decoded(st, used), At(StateAfter(st, used)))
  }

  /** Samples begun below a byte limit; the last one runs past an odd limit. */
  function Room(limit: nat): nat { (limit + 1) / 2 }

  /** Decoding one payload while fewer than `Min(capacity, totalBytes)` bytes of PCM are written. */
  function DecodePayload(input: seq<byte>, first: bool, endOfStream: bool, totalBytes: nat, capacity: nat,
                         d: Decoder): Outcome
  {
    var limit := Min(capacity, totalBytes);
    if totalBytes == 0 || totalBytes % 2 != 0 then Outcome(MalformedAudioChunk, [], d)
    else if first then
      if |input| < ADPCM_HEADER_BYTES || input[2] > 88 || input[3] != 0 then Outcome(MalformedAudioChunk, [], d)
      else if limit < 2 then Outcome(AudioBufferOverflow, [], d)
      else DecodeBody(Header(input), input[ADPCM_HEADER_BYTES..], [Header(input).predictor], endOfStream,
                      Room(limit) - 1)
    else if d.Uninitialized? then Outcome(MalformedAudioChunk, [], d)
    else DecodeBody(d.st, input, [], endOfStream, Room(limit))
  }

  /** The bytes of PCM that are written. */
  function Written(input: seq<byte>, first: bool, endOfStream: bool, totalBytes: nat, capacity: nat, d: Decoder): nat {
    2 * |DecodePayload(input, first, endOfStream, totalBytes, capacity, d).samples|
  }

  /** The payload gets as far as its nibbles. */
  predicate Started(input: seq<byte>, first: bool, totalBytes: nat, capacity: nat, d: Decoder) {
    && totalBytes > 0 && totalBytes % 2 == 0
    && (if first then |input| >= ADPCM_HEADER_BYTES && input[2] <= 88 && input[3] == 0 && Min(capacity, totalBytes) >= 2
        else d.At?)
  }

  /** The samples a payload holds. */
  function Available(input: seq<byte>, first: bool): int {
    if first then 1 + 2 * (|input| - ADPCM_HEADER_BYTES) else 2 * |input|
  }

  /**
   The buffer is overrun, by one byte, exactly when its capacity is odd and below the total, and there is
   a sample left once all but its last byte are full.
   */
  lemma OverrunsExactlyWhen(input: seq<byte>, first: bool, endOfStream: bool, totalBytes: nat, capacity: nat,
                            d: Decoder)
    ensures Written(input, first, endOfStream, totalBytes, capacity, d) <= capacity + 1
    ensures Written(input, first, endOfStream, totalBytes, capacity, d) > capacity <==>
      Started(input, first, totalBytes, capacity, d)
      && capacity % 2 == 1 && capacity < totalBytes && Available(input, first) > (capacity - 1) / 2
  {
    WrittenIs(input, first, endOfStream, totalBytes, capacity, d);
  }

  /** As many samples as there are, or as there is room for. */
  lemma WrittenIs(input: seq<byte>, first: bool, endOfStream: bool, totalBytes: nat, capacity: nat, d: Decoder)
    ensures Written(input, first, endOfStream, totalBytes, capacity, d)
         == if Started(input, first, totalBytes, capacity, d)
            then 2 * Min(Available(input, first), Room(Min(capacity, totalBytes))) else 0
  {
  }

  /**
   What every payload is answered: the total has to be whole samples, the header complete with an index of at most
   88 and a zero behind it and room for its sample, a continuation begun; then the code tells whether the samples
   fit, but for one of padding at the end of the stream.
   */
  lemma PayloadAnswers(input: seq<byte>, first: bool, endOfStream: bool, totalBytes: nat, capacity: nat, d: Decoder)
    ensures var o := DecodePayload(input, first, endOfStream, totalBytes, capacity, d);
            var limit := if capacity < totalBytes then capacity else totalBytes;
            var whole := totalBytes > 0 && totalBytes % 2 == 0;
            var header := |input| >= 4 && input[2] <= 88 && input[3] == 0;
            var room, available := (limit + 1) / 2, Available(input, first);
            && (!whole ==> o == Outcome(MalformedAudioChunk, [], d))
            && (whole && first && !header ==> o == Outcome(MalformedAudioChunk, [], d))
            && (whole && first && header && limit < 2 ==> o == Outcome(AudioBufferOverflow, [], d))
            && (whole && !first && d.Uninitialized? ==> o == Outcome(MalformedAudioChunk, [], d))
            && (whole && (if first then header && limit >= 2 else d.At?) ==>
                  && |o.samples| == (if available < room then available else room)
                  && o.code == if available <= room || (endOfStream && available == room + 1) then Ok
                               else AudioBufferOverflow)
  {
    WrittenIs(input, first, endOfStream, totalBytes, capacity, d);
  }

  /** A header and one byte of nibbles into three bytes: the second sample ends in the fourth. */
  lemma ThreeBytesOverrun(body: byte, d: Decoder)
    ensures Written([0, 0, 0, 0, body], true, true, 4, 3, d) == 4
  {
    OverrunsExactlyWhen([0, 0, 0, 0, body], true, true, 4, 3, d);
  }

  // ---- The loops ----

  ghost function DecoderOf(state: DecoderState): Decoder
    reads state
  {
    if state.initialized then At(state.Now()) else Uninitialized
  }

  method WriteSample(output: array<byte>, offset: nat, sample: int16)
    requires offset + 2 <= output.Length
    modifies output
    ensures output[..] == old(output[..offset]) + SampleBytes(sample) + old(output[offset + 2..])
  {
    var b := SampleBytes(sample);
    output[offset], output[offset + 1] := b[0], b[1];
  }

  lemma DecodedSnoc(st: State, ns: seq<Nibble>, k: nat)
    requires k < |ns|
    ensures StateAfter(st, ns[..k + 1]) == Decode(StateAfter(st, ns[..k]), ns[k])
    ensures PcmBytes(Decoded(st, ns[..k + 1])) ==
            PcmBytes(Decoded(st, ns[..k])) + SampleBytes(StateAfter(st, ns[..k + 1]).predictor)
  {
    assert ns[..k + 1][..k] == ns[..k];
    var xs := Decoded(st, ns[..k + 1]);
    assert xs[..k] == Decoded(st, ns[..k]);
  }

  /** `k` nibbles are decoded: their samples follow what was written before, the state is the one after them. */
  ghost predicate Progress(now: seq<byte>, before: seq<byte>, start: nat, st: State, ns: seq<Nibble>, k: nat,
                           at: State) {
    && k <= |ns| && start + 2 * k <= |before|
    && now == before[..start] + PcmBytes(Decoded(st, ns[..k])) + before[start + 2 * k..]
    && at == StateAfter(st, ns[..k])
  }

  lemma ProgressStep(now: seq<byte>, now': seq<byte>, before: seq<byte>, start: nat, st: State, ns: seq<Nibble>,
                     k: nat, at: State)
    requires Progress(now, before, start, st, ns, k, at) && k < |ns| && start + 2 * k + 2 <= |before|
    requires now' == now[..start + 2 * k] + SampleBytes(Decode(at, ns[k]).predictor) + now[start + 2 * k + 2..]
    ensures Progress(now', before, start, st, ns, k + 1, Decode(at, ns[k]))
  {
    DecodedSnoc(st, ns, k);
    var w := start + 2 * k;
    assert now[..w] == before[..start] + PcmBytes(Decoded(st, ns[..k]));
    assert now[w + 2..] == before[w + 2..];
  }

  method DecodeOne(ghost before: seq<byte>, ghost start: nat, ghost st: State, ghost ns: seq<Nibble>, ghost k: nat,
                   nibble: Nibble, output: array<byte>, bytesWritten: nat, state: DecoderState)
    requires k < |ns| && nibble == ns[k] && bytesWritten == start + 2 * k
             && bytesWritten + 2 <= output.Length == |before|
    requires Progress(output[..], before, start, st, ns, k, state.Now())
    modifies output, state`predictor, state`stepIndex
    ensures Progress(output[..], before, start, st, ns, k + 1, state.Now())
  {
    ghost var now, at := output[..], state.Now();
    var sample := state.DecodeNibble(nibble);
    WriteSample(output, bytesWritten, sample);
    assert now[..bytesWritten] == old(output[..bytesWritten])
           && now[bytesWritten + 2..] == old(output[bytesWritten + 2..]);
    ProgressStep(now, output[..], before, start, st, ns, k, at);
  }

  /** Both nibbles of one byte; `last` is set on the final byte of the stream, whose high nibble may be padding. */
  method DecodeByte(ghost before: seq<byte>, ghost start: nat, ghost st: State, ghost ns: seq<Nibble>, ghost k: nat,
                    value: byte, last: bool, capacity: nat, output: array<byte>, bytesWritten: nat, state: DecoderState)
    returns (code: Code, written: nat, ghost k': nat)
    requires k + 2 <= |ns| && ns[k] == value % 16 && ns[k + 1] == value / 16
    requires start <= capacity && start + 2 * Min(k + 2, Room(capacity - start)) <= output.Length == |before|
    requires bytesWritten == start + 2 * k && k <= Room(capacity - start)
    requires Progress(output[..], before, start, st, ns, k, state.Now())
    modifies output, state`predictor, state`stepIndex
    ensures Progress(output[..], before, start, st, ns, k', state.Now())
    ensures written == start + 2 * k' && k' == Min(k + 2, Room(capacity - start))
    ensures code == if k' == k + 2 || (last && k' == k + 1) then Ok else AudioBufferOverflow
  {
    written, k', code := bytesWritten, k, Ok;
    ghost var room := Room(capacity - start);
    for nibbleIndex := 0 to 2
      invariant Progress(output[..], before, start, st, ns, k', state.Now())
      invariant written == start + 2 * k' && k' == Min(k + nibbleIndex, room)
      invariant k' == k + nibbleIndex || (last && nibbleIndex == 2 && k' == k + 1)
    {
      if written >= capacity {
        if last && nibbleIndex == 1 { continue; }
        return AudioBufferOverflow, written, k';
      }
      var nibble := if nibbleIndex == 0 then value % 16 else value / 16;
      DecodeOne(before, start, st, ns, k', nibble, output, written, state);
      written, k' := written + 2, k' + 1;
    }
  }

  method DecodeBytes(input: seq<byte>, first: nat, endOfStream: bool, capacity: nat, output: array<byte>,
                     start: nat, state: DecoderState)
    returns (code: Code, bytesWritten: nat, ghost k: nat)
    requires first <= |input| && start <= capacity
    requires start + 2 * Min(2 * (|input| - first), Room(capacity - start)) <= output.Length
    modifies output, state`predictor, state`stepIndex
    ensures Progress(output[..], old(output[..]), start, old(state.Now()), Unpack(input[first..]), k, state.Now())
    ensures bytesWritten == start + 2 * k
    ensures var n, room := 2 * (|input| - first), Room(capacity - start);
            && k == Min(n, room)
            && code == BodyCode(n, endOfStream, room)
  {
    ghost var before, st, ns := output[..], state.Now(), Unpack(input[first..]);
    ghost var room := Room(capacity - start);
    bytesWritten, k, code := start, 0, Ok;
    assert before == before[..start] + PcmBytes(Decoded(st, ns[..0])) + before[start..];
    var offset := first;
    while offset < |input|
      invariant first <= offset <= |input|
      invariant Progress(output[..], before, start, st, ns, k, state.Now())
      invariant bytesWritten == start + 2 * k && k == Min(2 * (offset - first), room)
      invariant code == Ok
      invariant k == 2 * (offset - first) || (offset == |input| && endOfStream && |ns| == room + 1)
    {
      assert input[offset] == input[first..][offset - first];
      code, bytesWritten, k := DecodeByte(before, start, st, ns, k, input[offset],
        endOfStream && offset == |input| - 1, capacity, output, bytesWritten, state);
      if code != Ok { return; }
      offset := offset + 1;
    }
  }

  lemma ProgressMeansBody(now: seq<byte>, before: seq<byte>, start: nat, st: State, bytes: seq<byte>, k: nat, at: State,
                          written: seq<int16>, endOfStream: bool, room: nat)
    requires Progress(now, before, start, st, Unpack(bytes), k, at) && k == Min(2 * |bytes|, room)
    requires before[..start] == PcmBytes(written)
    ensures var o := DecodeBody(st, bytes, written, endOfStream, room);
            && now == PcmBytes(o.samples) + before[start + 2 * k..]
            && o.decoder == At(at) && |o.samples| == |written| + k
            && o.code == BodyCode(2 * |bytes|, endOfStream, room)
  {
    PcmBytesConcat(written, Decoded(st, Unpack(bytes)[..k]));
  }

  lemma PcmBytesOne(x: int16)
    ensures PcmBytes([x]) == SampleBytes(x)
  {
    assert [x][..0] == [];
  }

  method DecodeFirst(input: seq<byte>, endOfStream: bool, capacity: nat, output: array<byte>, state: DecoderState)
    returns (code: Code, bytesWritten: nat)
    requires |input| >= ADPCM_HEADER_BYTES && input[2] <= 88 && 2 <= capacity
    requires 2 + 2 * Min(2 * (|input| - ADPCM_HEADER_BYTES), Room(capacity) - 1) <= output.Length
    modifies output, state
    ensures var o := DecodeBody(Header(input), input[ADPCM_HEADER_BYTES..], [Header(input).predictor], endOfStream,
                                Room(capacity) - 1);
            && code == o.code && bytesWritten == 2 * |o.samples|
            && output[..] == PcmBytes(o.samples) + old(output[..])[bytesWritten..]
            && state.initialized && At(state.Now()) == o.decoder
  {
    state.predictor := SampleAt(input[0], input[1]);
    state.stepIndex := input[2];
    state.initialized := true;
    WriteSample(output, 0, state.predictor);
    ghost var st, k := state.Now(), 0;
    ghost var headed := output[..];
    PcmBytesOne(st.predictor);
    code, bytesWritten, k := DecodeBytes(input, ADPCM_HEADER_BYTES, endOfStream, capacity, output, 2, state);
    ProgressMeansBody(output[..], headed, 2, st, input[ADPCM_HEADER_BYTES..], k, state.Now(), [st.predictor],
                      endOfStream, Room(capacity) - 1);
    assert headed[2 + 2 * k..] == old(output[..])[2 + 2 * k..];
  }

  method DecodeContinuation(input: seq<byte>, endOfStream: bool, capacity: nat, output: array<byte>,
                            state: DecoderState)
    returns (code: Code, bytesWritten: nat)
    requires 2 * Min(2 * |input|, Room(capacity)) <= output.Length && state.initialized
    modifies output, state
    ensures var o := DecodeBody(old(state.Now()), input, [], endOfStream, Room(capacity));
            && code == o.code && bytesWritten == 2 * |o.samples|
            && output[..] == PcmBytes(o.samples) + old(output[..])[bytesWritten..]
            && state.initialized && At(state.Now()) == o.decoder
  {
    ghost var st, before, k := state.Now(), output[..], 0;
    assert input[0..] == input;
    code, bytesWritten, k := DecodeBytes(input, 0, endOfStream, capacity, output, 0, state);
    ProgressMeansBody(output[..], before, 0, st, input, k, state.Now(), [], endOfStream, Room(capacity));
  }

  method DecodeIma4BitPayload(input: seq<byte>, first: bool, endOfStream: bool, totalBytes: u32, output: array<byte>,
                              outputCapacity: nat, state: DecoderState)
    returns (code: Code, bytesWritten: nat)
    // The array holds what is decoded, which the capacity alone does not promise: see OverrunsExactlyWhen.
    requires Written(input, first, endOfStream, totalBytes, outputCapacity, DecoderOf(state)) <= output.Length
    modifies output, state
    ensures var o := DecodePayload(input, first, endOfStream, totalBytes, outputCapacity, old(DecoderOf(state)));
            && code == o.code && bytesWritten == 2 * |o.samples|
            && output[..] == PcmBytes(o.samples) + old(output[..])[bytesWritten..]
            && DecoderOf(state) == o.decoder
  {
    if totalBytes == 0 || totalBytes % 2 != 0 { return MalformedAudioChunk, 0; }
    var capacity := if outputCapacity > totalBytes then totalBytes else outputCapacity;
    if first {
      if |input| < ADPCM_HEADER_BYTES { return MalformedAudioChunk, 0; }
      if input[2] > 88 || input[3] != 0 { return MalformedAudioChunk, 0; }
      if capacity < 2 { return AudioBufferOverflow, 0; }
      code, bytesWritten := DecodeFirst(input, endOfStream, capacity, output, state);
    } else {
      if !state.initialized { return MalformedAudioChunk, 0; }
      code, bytesWritten := DecodeContinuation(input, endOfStream, capacity, output, state);
    }
  }

  lemma {:induction false} PcmBytesConcat(a: seq<int16>, b: seq<int16>)
    ensures PcmBytes(a + b) == PcmBytes(a) + PcmBytes(b)
  {
    if b == [] {
      assert a + b == a;
    } else {
      PcmBytesConcat(a, b[..|b| - 1]);
      assert (a + b)[..|a + b| - 1] == a + b[..|b| - 1];
    }
  }
}
