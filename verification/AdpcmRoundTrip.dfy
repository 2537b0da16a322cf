/** The encoder and the payload decoder against each other. */
module AdpcmRoundTrip {
  import opened Wire
  import opened Ima
  import opened AdpcmStream
  import opened AdpcmDecoder

  lemma PayloadParts(samples: seq<int16>)
    requires samples != []
    ensures var p := EncodedPayload(samples);
            && |p| >= ADPCM_HEADER_BYTES && p[2] == p[3] == 0 && Header(p) == State(samples[0], 0)
            && p[ADPCM_HEADER_BYTES..] == Pack(Nibbles(State(samples[0], 0), samples[1..]))
            && |p| - ADPCM_HEADER_BYTES == (|samples| - 1 + 1) / 2
  {
  }

  /** Room for every one of `n` samples, or for all but one that passes for padding. */
  predicate RoomFor(n: nat, limit: nat) { Room(limit) >= n || (Room(limit) == n - 1 && n % 2 == 1) }

  /**
   Which declared byte counts and capacities decode an encoded payload: those that let every sample begin
   and, when the number of samples is odd, one sample less, whose nibble then passes for padding.
   */
  lemma DecodesExactlyWhen(samples: seq<int16>, declared: nat, capacity: nat, d: Decoder)
    requires samples != []
    ensures DecodePayload(EncodedPayload(samples), true, true, declared, capacity, d).code == Ok
            <==> declared > 0 && declared % 2 == 0 && capacity >= 2 && RoomFor(|samples|, Min(capacity, declared))
  {
    if declared > 0 && declared % 2 == 0 && capacity >= 2 {
      EncodedCode(samples, declared, capacity, d);
      PaddedCount(|samples|, Min(capacity, declared));
    } else {
      UndersizedCode(EncodedPayload(samples), declared, capacity, d);
    }
  }

  /** With room for the whole transfer only the declared count decides. */
  lemma RoomForDeclared(n: nat, declared: nat)
    requires declared % 2 == 0
    ensures RoomFor(n, declared) <==> declared >= 2 * n || (declared == 2 * n - 2 && n % 2 == 1)
  {
  }

  /** The same in bytes: the true count or anything above, and one sample less when the number of samples is odd. */
  lemma DeclaredExactlyWhen(samples: seq<int16>, declared: nat, capacity: nat, d: Decoder)
    requires samples != [] && declared <= capacity
    ensures DecodePayload(EncodedPayload(samples), true, true, declared, capacity, d).code == Ok
            <==> declared > 0 && declared % 2 == 0
                 && (declared >= 2 * |samples| || (declared == 2 * |samples| - 2 && |samples| % 2 == 1))
  {
    DecodesExactlyWhen(samples, declared, capacity, d);
    if declared % 2 == 0 { RoomForDeclared(|samples|, declared); }
  }

  /** Nibbles come in bytes, so an odd count is rounded up. */
  lemma PaddedCount(n: nat, limit: nat)
    requires n > 0 && limit >= 2
    ensures BodyCode(2 * (n / 2), true, Room(limit) - 1) == Ok <==> RoomFor(n, limit)
  {
  }

  lemma UndersizedCode(payload: seq<byte>, declared: nat, capacity: nat, d: Decoder)
    requires declared == 0 || declared % 2 != 0 || capacity < 2
    ensures DecodePayload(payload, true, true, declared, capacity, d).code != Ok
  {
  }

  lemma EncodedCode(samples: seq<int16>, declared: nat, capacity: nat, d: Decoder)
    requires samples != [] && declared > 0 && declared % 2 == 0 && capacity >= 2
    ensures DecodePayload(EncodedPayload(samples), true, true, declared, capacity, d).code
         == BodyCode(2 * (|samples| / 2), true, Room(Min(capacity, declared)) - 1)
  {
    PayloadParts(samples);
    var payload := EncodedPayload(samples);
    FirstPayload(payload, true, declared, capacity, d);
  }

  predicate GoodHeader(input: seq<byte>) { |input| >= ADPCM_HEADER_BYTES && input[2] <= 88 && input[3] == 0 }

  /** What a payload with a header decodes to. */
  lemma FirstPayload(input: seq<byte>, endOfStream: bool, totalBytes: nat, capacity: nat, d: Decoder)
    requires GoodHeader(input) && 0 < totalBytes && totalBytes % 2 == 0 && capacity >= 2
    ensures Room(Min(capacity, totalBytes)) >= 1
    ensures DecodePayload(input, true, endOfStream, totalBytes, capacity, d)
         == DecodeBody(Header(input), input[ADPCM_HEADER_BYTES..], [Header(input).predictor], endOfStream,
                       Room(Min(capacity, totalBytes)) - 1)
  {
  }

  /** What a continuation decodes to. */
  lemma ContinuationPayload(b: seq<byte>, endOfStream: bool, totalBytes: nat, capacity: nat, st: State)
    requires 0 < totalBytes && totalBytes % 2 == 0
    ensures DecodePayload(b, false, endOfStream, totalBytes, capacity, At(st))
         == DecodeBody(st, b, [], endOfStream, Room(Min(capacity, totalBytes)))
  {
  }

  /**
   The round trip: with the true byte count decoding succeeds with exactly that many bytes, they are
   the encoder's own predictors led by the exact first sample, and the decoder ends in the encoder's state.
   */
  lemma RoundTrip(pcm: seq<byte>, capacity: nat, d: Decoder)
    requires pcm != [] && |pcm| % 2 == 0 && capacity >= |pcm|
    ensures var xs := PcmSamples(pcm);
            var o := DecodePayload(EncodedPayload(xs), true, true, |pcm|, capacity, d);
            && o.code == Ok
            && o.samples == Reconstruction(xs) && |PcmBytes(o.samples)| == |pcm|
            && o.samples[0] == xs[0]
            && o.decoder == At(EncoderState(State(xs[0], 0), xs[1..]))
  {
    var xs := PcmSamples(pcm);
    var st, rest := State(xs[0], 0), xs[1..];
    var ns := Nibbles(st, rest);
    PayloadParts(xs);
    UnpackPack(ns);
    assert Unpack(Pack(ns))[..|ns|] == ns;
    Lockstep(st, rest);
    DecodedIsReconstruction(xs);
    assert Min(|Unpack(Pack(ns))|, |xs| - 1) == |ns|;
  }

  /**
   Every decoded sample is close to the one that was encoded, or the encoder was overloaded there
   and moved towards it.
   */
  lemma ReconstructionError(samples: seq<int16>, i: nat)
    requires 0 < i < |samples|
    ensures var before := EncoderState(State(samples[0], 0), samples[1..i]);
            var error := Abs(samples[i] as int - Reconstruction(samples)[i]);
            if Overloaded(samples[i], before) then 0 < error < Abs(samples[i] as int - before.predictor)
            else error <= StepSize(before.stepIndex) / 8 + 2
  {
    HeardStep(samples, i);
    QuantisationBound(samples[i], EncoderState(State(samples[0], 0), samples[1..i]));
  }

  lemma HeardStep(samples: seq<int16>, i: nat)
    requires 0 < i < |samples|
    ensures Reconstruction(samples)[i]
            == Encode(samples[i], EncoderState(State(samples[0], 0), samples[1..i])).1.predictor
  {
    var done := samples[1..i + 1];
    assert done[..|done| - 1] == samples[1..i];
  }

  lemma UnpackConcat(a: seq<byte>, b: seq<byte>)
    ensures Unpack(a + b) == Unpack(a) + Unpack(b)
  {
  }

  lemma NibblesOfSplit(a: seq<byte>, b: seq<byte>, left: nat)
    requires left <= 2 * |b|
    ensures Unpack(a + b)[..2 * |a| + left] == Unpack(a) + Unpack(b)[..left]
  {
    UnpackConcat(a, b);
  }

  lemma BodyFits(st: State, a: seq<byte>, written: seq<int16>, endOfStream: bool, room: nat)
    requires 2 * |a| <= room
    ensures DecodeBody(st, a, written, endOfStream, room)
         == Outcome(Ok, written + Decoded(st, Unpack(a)), At(StateAfter(st, Unpack(a))))
  {
    assert Unpack(a)[..2 * |a|] == Unpack(a);
  }

  lemma NibblesTaken(a: seq<byte>, b: seq<byte>, room: nat)
    requires 2 * |a| <= room
    ensures Unpack(a + b)[..Min(2 * |a + b|, room)] == Unpack(a) + Unpack(b)[..Min(2 * |b|, room - 2 * |a|)]
  {
    NibblesOfSplit(a, b, Min(2 * |b|, room - 2 * |a|));
  }

  /** One body or two: the state carried between them makes no difference. */
  lemma BodySplit(st: State, a: seq<byte>, b: seq<byte>, written: seq<int16>, endOfStream: bool, room: nat)
    requires 2 * |a| <= room
    ensures var x := written + Decoded(st, Unpack(a));
            var y := DecodeBody(StateAfter(st, Unpack(a)), b, [], endOfStream, room - 2 * |a|);
            DecodeBody(st, a + b, written, endOfStream, room) == Outcome(y.code, x + y.samples, y.decoder)
  {
    var first, second := Unpack(a), Unpack(b)[..Min(2 * |b|, room - 2 * |a|)];
    NibblesTaken(a, b, room);
    DecodeSplit(st, first, second);
    ConcatAssociates(written, Decoded(st, first), Decoded(StateAfter(st, first), second));
  }

  lemma ConcatAssociates<T>(a: seq<T>, b: seq<T>, c: seq<T>)
    ensures a + (b + c) == (a + b) + ([] + c)
  {
  }

  lemma HeaderSplit(a: seq<byte>, b: seq<byte>)
    requires GoodHeader(a)
    ensures GoodHeader(a + b) && Header(a + b) == Header(a)
    ensures (a + b)[ADPCM_HEADER_BYTES..] == a[ADPCM_HEADER_BYTES..] + b
  {
  }

  /** Two outcomes in a row. */
  function Then(x: Outcome, y: Outcome): Outcome { Outcome(y.code, x.samples + y.samples, y.decoder) }

  /** A first part that was decoded whole. */
  lemma FirstLeavesRoom(a: seq<byte>, totalBytes: nat, capacity: nat, d: Decoder)
    requires DecodePayload(a, true, false, totalBytes, capacity, d).code == Ok
    ensures GoodHeader(a) && 0 < totalBytes && totalBytes % 2 == 0 && capacity >= 2
    ensures 1 + 2 * |a[ADPCM_HEADER_BYTES..]| <= Room(Min(capacity, totalBytes))
  {
  }

  /**
   One decoder meaning: a payload split anywhere after its header, the second part decoded with the
   bytes that are left, gives the same result code, the same samples and the same final state.
   */
  lemma SplitPayload(a: seq<byte>, b: seq<byte>, endOfStream: bool, totalBytes: nat, capacity: nat, d: Decoder,
                     x: Outcome)
    requires x == DecodePayload(a, true, false, totalBytes, capacity, d) && x.code == Ok
    requires 2 * |x.samples| < totalBytes && 2 * |x.samples| <= capacity
    ensures var w := 2 * |x.samples|;
            DecodePayload(a + b, true, endOfStream, totalBytes, capacity, d)
              == Then(x, DecodePayload(b, false, endOfStream, totalBytes - w, capacity - w, x.decoder))
  {
    FirstLeavesRoom(a, totalBytes, capacity, d);
    HeaderSplit(a, b);
    FirstPayload(a, false, totalBytes, capacity, d);
    FirstPayload(a + b, endOfStream, totalBytes, capacity, d);
    SplitTransfer(Header(a), a[ADPCM_HEADER_BYTES..], b, [Header(a).predictor], endOfStream, totalBytes, capacity,
                  Room(Min(capacity, totalBytes)) - 1, x,
                  DecodePayload(b, false, endOfStream, totalBytes - 2 * |x.samples|, capacity - 2 * |x.samples|,
                                x.decoder));
  }

  /** The same for a continuation that arrives in two parts. */
  lemma SplitContinuation(a: seq<byte>, b: seq<byte>, endOfStream: bool, totalBytes: nat, capacity: nat, d: Decoder,
                          x: Outcome)
    requires x == DecodePayload(a, false, false, totalBytes, capacity, d) && x.code == Ok
    requires 2 * |x.samples| < totalBytes && 2 * |x.samples| <= capacity
    ensures var w := 2 * |x.samples|;
            DecodePayload(a + b, false, endOfStream, totalBytes, capacity, d)
              == Then(x, DecodePayload(b, false, endOfStream, totalBytes - w, capacity - w, x.decoder))
  {
    ContinuationPayload(a, false, totalBytes, capacity, d.st);
    ContinuationPayload(a + b, endOfStream, totalBytes, capacity, d.st);
    SplitTransfer(d.st, a, b, [], endOfStream, totalBytes, capacity, Room(Min(capacity, totalBytes)), x,
                  DecodePayload(b, false, endOfStream, totalBytes - 2 * |x.samples|, capacity - 2 * |x.samples|,
                                x.decoder));
  }

  lemma RoomLeft(limit: nat, written: nat)
    requires 2 * written <= limit
    ensures Room(limit - 2 * written) == Room(limit) - written
  {
  }

  /** A continuation that has `n` samples before it. */
  lemma SecondPart(b: seq<byte>, endOfStream: bool, totalBytes: nat, capacity: nat, n: nat, st: State)
    requires 2 * n < totalBytes && 2 * n <= capacity && totalBytes % 2 == 0
    ensures Room(Min(capacity, totalBytes)) >= n
    ensures DecodePayload(b, false, endOfStream, totalBytes - 2 * n, capacity - 2 * n, At(st))
         == DecodeBody(st, b, [], endOfStream, Room(Min(capacity, totalBytes)) - n)
  {
    RoomLeft(Min(capacity, totalBytes), n);
    ContinuationPayload(b, endOfStream, totalBytes - 2 * n, capacity - 2 * n, st);
  }

  lemma SplitBody(st: State, a: seq<byte>, b: seq<byte>, written: seq<int16>, endOfStream: bool, room: nat,
                  x: Outcome, y: Outcome)
    requires 2 * |a| <= room && x == DecodeBody(st, a, written, false, room) && x.decoder.At?
    requires y == DecodeBody(x.decoder.st, b, [], endOfStream, room - 2 * |a|)
    ensures DecodeBody(st, a + b, written, endOfStream, room) == Then(x, y)
  {
    BodyFits(st, a, written, false, room);
    BodySplit(st, a, b, written, endOfStream, room);
  }

  lemma SizeOfBody(st: State, a: seq<byte>, written: seq<int16>, room: nat)
    requires 2 * |a| <= room
    ensures |DecodeBody(st, a, written, false, room).samples| == |written| + 2 * |a|
  {
    BodyFits(st, a, written, false, room);
  }

  /** What is left for the second part is what the first leaves of the transfer. */
  lemma SecondBody(b: seq<byte>, endOfStream: bool, totalBytes: nat, capacity: nat, n: nat, st: State, room: nat,
                   y: Outcome)
    requires 2 * n < totalBytes && 2 * n <= capacity && totalBytes % 2 == 0
    requires y == DecodePayload(b, false, endOfStream, totalBytes - 2 * n, capacity - 2 * n, At(st))
    requires room + n == Room(Min(capacity, totalBytes))
    ensures y == DecodeBody(st, b, [], endOfStream, room)
  {
    SecondPart(b, endOfStream, totalBytes, capacity, n, st);
  }

  lemma SplitTransfer(st: State, a: seq<byte>, b: seq<byte>, written: seq<int16>, endOfStream: bool,
                      totalBytes: nat, capacity: nat, room: nat, x: Outcome, y: Outcome)
    requires 2 * |a| <= room == Room(Min(capacity, totalBytes)) - |written| && totalBytes % 2 == 0
    requires x == DecodeBody(st, a, written, false, room)
    requires 2 * |x.samples| < totalBytes && 2 * |x.samples| <= capacity
    requires y == DecodePayload(b, false, endOfStream, totalBytes - 2 * |x.samples|, capacity - 2 * |x.samples|,
                                x.decoder)
    ensures DecodeBody(st, a + b, written, endOfStream, room) == Then(x, y)
  {
    SizeOfBody(st, a, written, room);
    SecondBody(b, endOfStream, totalBytes, capacity, |x.samples|, x.decoder.st, room - 2 * |a|, y);
    SplitBody(st, a, b, written, endOfStream, room, x, y);
  }
}
