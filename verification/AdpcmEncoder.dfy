/** The bridge's encoder, statement by statement. */
module AdpcmEncoder {
  import opened Wire
  import opened Ima
  import opened AdpcmStream

  datatype Outcome = Encoded(payload: seq<byte>) | ValueError

  /** One sample by successive subtraction, `nibble`, `diff` and `delta` updated in turn. */
  method EncodeNibble(sample: int16, st: State) returns (nibble: Nibble, next: State)
    ensures (nibble, next) == Encode(sample, st)
  {
    var step := StepSize(st.stepIndex);
    var diff := sample as int - st.predictor;
    var bits := 0;
    var sign := 0;
    if diff < 0 {
      sign := 8;
      diff := -diff;
    }
    var delta := step;
    if diff >= delta {
      bits := bits + 4;
      diff := diff - delta;
    }
    delta := delta / 2;
    if diff >= delta {
      bits := bits + 2;
      diff := diff - delta;
    }
    delta := delta / 2;
    if diff >= delta {
      bits := bits + 1;
    }
    nibble := sign + bits;
    next := State(Decode(st, nibble).predictor, ClampIndex(st.stepIndex + IndexDelta(nibble)));
  }

  lemma PackSnoc(ns: seq<Nibble>, n: Nibble)
    ensures |ns| % 2 == 0 ==> Pack(ns + [n]) == Pack(ns) + [PackByte(n, 0)]
    ensures |ns| % 2 == 1 ==>
              Pack(ns + [n]) == Pack(ns[..|ns| - 1]) + [PackByte(ns[|ns| - 1], n)]
  {
    var packed := Pack(ns + [n]);
    if |ns| % 2 == 0 {
      assert forall i :: 0 <= i < |ns| / 2 ==> packed[i] == Pack(ns)[i];
    } else {
      assert forall i :: 0 <= i < |ns| / 2 ==> packed[i] == Pack(ns[..|ns| - 1])[i];
    }
  }

  /** The nibble waiting for its high half. */
  datatype Pending = NoNibble | Low(nibble: Nibble)

  /** The output holds every complete byte of `ns`, and `pending` the odd nibble. */
  ghost predicate Buffered(header: seq<byte>, ns: seq<Nibble>, output: seq<byte>, pending: Pending) {
    if |ns| % 2 == 0 then
      pending == NoNibble && output == header + Pack(ns)
    else
      pending == Low(ns[|ns| - 1]) && output == header + Pack(ns[..|ns| - 1])
  }

  method AppendNibble(ghost header: seq<byte>, ghost ns: seq<Nibble>, output: seq<byte>, pending: Pending,
                      nibble: Nibble)
    returns (output': seq<byte>, pending': Pending)
    requires Buffered(header, ns, output, pending)
    ensures Buffered(header, ns + [nibble], output', pending')
  {
    PackSnoc(ns, nibble);
    if pending == NoNibble {
      output', pending' := output, Low(nibble);
      assert (ns + [nibble])[..|ns|] == ns;
    } else {
      output', pending' := output + [PackByte(pending.nibble, nibble)], NoNibble;
    }
  }

  /** The odd nibble goes out alone, its high half zero. */
  method Flush(ghost header: seq<byte>, ghost ns: seq<Nibble>, output: seq<byte>, pending: Pending)
    returns (payload: seq<byte>)
    requires Buffered(header, ns, output, pending)
    ensures payload == header + Pack(ns)
  {
    payload := output;
    if pending.Low? {
      PackSnoc(ns[..|ns| - 1], ns[|ns| - 1]);
      assert ns[..|ns| - 1] + [ns[|ns| - 1]] == ns;
      payload := payload + [PackByte(pending.nibble, 0)];
    }
  }

  lemma EncodeSnoc(st: State, xs: seq<int16>, i: nat)
    requires i < |xs|
    ensures Nibbles(st, xs[..i + 1]) == Nibbles(st, xs[..i]) + [Encode(xs[i], EncoderState(st, xs[..i])).0]
    ensures EncoderState(st, xs[..i + 1]) == Encode(xs[i], EncoderState(st, xs[..i])).1
  {
    assert xs[..i + 1][..i] == xs[..i];
  }

  method EncodeIma4Bit(pcm: seq<byte>) returns (outcome: Outcome)
    ensures outcome.ValueError? <==> pcm == [] || |pcm| % 2 == 1
    ensures outcome.Encoded? ==> outcome.payload == EncodedPayload(PcmSamples(pcm))
  {
    if pcm == [] || |pcm| % 2 != 0 { return ValueError; }
    var samples := PcmSamples(pcm);
    var payload := EncodeSamples(samples);
    outcome := Encoded(payload);
  }

  method EncodeSamples(samples: seq<int16>) returns (payload: seq<byte>)
    requires samples != []
    ensures payload == EncodedPayload(samples)
  {
    var st := State(samples[0], 0);
    var header := SampleBytes(samples[0]) + [0, 0];
    var output, pending := header, NoNibble;
    var rest := samples[1..];
    ghost var first, ns: seq<Nibble> := st, [];
    for i := 0 to |rest|
      invariant st == EncoderState(first, rest[..i]) && ns == Nibbles(first, rest[..i])
      invariant Buffered(header, ns, output, pending)
    {
      EncodeSnoc(first, rest, i);
      var nibble, next := EncodeNibble(rest[i], st);
      output, pending := AppendNibble(header, ns, output, pending, nibble);
      st, ns := next, ns + [nibble];
    }
    assert rest[..|rest|] == rest;
    payload := Flush(header, ns, output, pending);
  }
}
